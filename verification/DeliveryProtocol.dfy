/**
  The db-writer delivery protocol as a transition system: any number of replicas, each one reader, a
  bounded queue and N workers, over one stream, one consumer group and one target table. Every Redis
  command and every database transaction is one atomic step; any of them may fail, with or without having
  been applied; a replica may crash between any two steps.
*/
module DeliveryProtocol {
  import opened TargetTable
  import opened StreamEntries

  type ReplicaId = nat

  /** `queueMax <= 0` is an unbounded queue, as for asyncio. */
  datatype Config = Config(readerBatch: nat, rowsPerFlush: nat, queueMax: int, workerCount: nat)

  ghost predicate ValidConfig(cfg: Config) {
    cfg.readerBatch > 0 && cfg.rowsPerFlush > 0 && cfg.workerCount > 0
  }

  datatype Batch = Batch(ids: seq<MsgId>, rows: seq<Row>)

  datatype Item = Job(batch: Batch) | Sentinel

  datatype Worker =
    | Idle
    | Writing(batch: Batch, next: nat)  // rows before `next` are committed
    | Acking(batch: Batch)
    | Exited

  /** `drain` tells a batch read from the pending list from a batch of new messages. */
  datatype Reader =
    | Draining
    | Reading
    | Settling(entries: seq<Entry>, drain: bool)
    | Offering(batch: Batch, drain: bool)
    | Closing(sentinelsLeft: nat)

  datatype Taken = Taken(worker: nat, item: Item)

  /** `putLog`, `takenLog` and `leftPending` are history: what went into and came out of the queue since
      this incarnation started, and what was pending for this consumer when it started. */
  datatype Replica =
    | Down
    | Up(reader: Reader, queue: seq<Item>, workers: seq<Worker>,
         putLog: seq<Item>, takenLog: seq<Taken>, leftPending: set<MsgId>)

  /** Durable state. `log` keeps every message as published; ids below `trimmedBelow` have lost their
      payload. `owner` remembers whom each message was delivered to, `acked` what was ever acknowledged. */
  datatype Shared = Shared(log: seq<Payload>, trimmedBelow: nat, cursor: nat,
                           owner: map<MsgId, ReplicaId>, pel: map<MsgId, ReplicaId>, acked: set<MsgId>,
                           staging: map<(ReplicaId, nat), seq<Row>>, target: Table)

  datatype State = State(shared: Shared, replicas: map<ReplicaId, Replica>)

  datatype Step =
    | Restart
    | DrainRead(ids: seq<MsgId>)
    | StartReading
    | ReadNew(replyLost: bool)
    | Settle
    | SettleFailed(applied: bool)
    | Offer
    | CloseReader
    | PutSentinel
    | Take(worker: nat)
    | CommitChunk(worker: nat)
    | CommitFailed(worker: nat, applied: bool)
    | AckBatch(worker: nat)
    | AckFailed(worker: nat, applied: bool)
    | Crash(leftover: map<(ReplicaId, nat), seq<Row>>)
    | Exit

  datatype Event = Produce(payload: Payload) | Trim(below: nat) | Local(replica: ReplicaId, step: Step)

  // ----- Redis and database commands

  /** What a read returns for message `m` now: a trimmed message has no fields left. */
  function Observed(sh: Shared, m: MsgId): Entry
    requires m < |sh.log|
  {
    Entry(m, if m < sh.trimmedBelow then Absent else sh.log[m])
  }

  function ObserveAll(sh: Shared, ids: seq<MsgId>): (entries: seq<Entry>)
    requires forall i :: 0 <= i < |ids| ==> ids[i] < |sh.log|
    ensures |entries| == |ids| && forall i :: 0 <= i < |ids| ==> entries[i] == Observed(sh, ids[i])
  {
    seq(|ids|, i requires 0 <= i < |ids| => Observed(sh, ids[i]))
  }

  function Acknowledge(sh: Shared, ids: seq<MsgId>): Shared {
    var idSet := set m | m in ids;
    sh.(pel := sh.pel - idSet, acked := sh.acked + idSet)
  }

  function First(sh: Shared): nat { if sh.cursor < sh.trimmedBelow then sh.trimmedBelow else sh.cursor }

  function Last(cfg: Config, sh: Shared): (last: nat)
    ensures First(sh) < |sh.log| ==> First(sh) <= last <= |sh.log|
  {
    if First(sh) + cfg.readerBatch <= |sh.log| then First(sh) + cfg.readerBatch else |sh.log|
  }

  function Range(lo: nat, hi: nat): (ids: seq<MsgId>)
    requires lo <= hi
    ensures |ids| == hi - lo && forall i :: 0 <= i < |ids| ==> ids[i] == lo + i
  {
    seq(hi - lo, i requires 0 <= i => lo + i)
  }

  /** XREADGROUP ">" delivers the untrimmed ids in First..Last to consumer `r`. */
  function Deliver(cfg: Config, sh: Shared, r: ReplicaId): Shared
    requires First(sh) < |sh.log|
  {
    var taken := Range(First(sh), Last(cfg, sh));
    var delivered := map m | m in taken :: r;
    sh.(cursor := Last(cfg, sh), owner := sh.owner + delivered, pel := sh.pel + delivered)
  }

  /** `ids` are the oldest pending messages of consumer `r`, at most `count` of them, in order. */
  ghost predicate OldestPending(sh: Shared, r: ReplicaId, count: nat, ids: seq<MsgId>) {
    && 0 < |ids| <= count
    && (forall i :: 0 <= i < |ids| ==> ids[i] in sh.pel && sh.pel[ids[i]] == r)
    && (forall i, j :: 0 <= i < j < |ids| ==> ids[i] < ids[j])
    && (forall m :: m in sh.pel && sh.pel[m] == r && m !in ids ==> |ids| == count && ids[|ids| - 1] < m)
  }

  ghost predicate NothingPending(sh: Shared, r: ReplicaId) {
    forall m :: m in sh.pel ==> sh.pel[m] != r
  }

  function ChunkEnd(cfg: Config, w: Worker): nat
    requires w.Writing?
  {
    if w.next + cfg.rowsPerFlush <= |w.batch.rows| then w.next + cfg.rowsPerFlush else |w.batch.rows|
  }

  /** The next chunk of a batch, as one transaction: staging is truncated, filled and copied over. */
  function CommitNext(cfg: Config, sh: Shared, r: ReplicaId, i: nat, w: Worker): Shared
    requires w.Writing? && w.next <= |w.batch.rows|
  {
    var chunk := if w.next <= ChunkEnd(cfg, w) then w.batch.rows[w.next..ChunkEnd(cfg, w)] else [];
    sh.(staging := sh.staging[(r, i) := chunk], target := InsertAll(sh.target, chunk))
  }

  function Resume(drain: bool): Reader { if drain then Draining else Reading }

  predicate HasRoom(cfg: Config, queue: seq<Item>) { cfg.queueMax <= 0 || |queue| < cfg.queueMax }

  // ----- Steps of one replica

  ghost predicate ReaderStep(cfg: Config, r: ReplicaId, step: Step, sh: Shared, p: Replica, sh': Shared, p': Replica)
    requires p.Up?
  {
    match step
    case DrainRead(ids) =>
      && p.reader == Draining && OldestPending(sh, r, cfg.readerBatch, ids)
      && (forall i :: 0 <= i < |ids| ==> ids[i] < |sh.log|)
      && sh' == sh && p' == p.(reader := Settling(ObserveAll(sh, ids), true))
    case StartReading =>
      && p.reader == Draining && NothingPending(sh, r)
      && sh' == sh && p' == p.(reader := Reading)
    case ReadNew(replyLost) =>
      && p.reader == Reading && First(sh) < |sh.log|
      && sh' == Deliver(cfg, sh, r)
      && p' == p.(reader := if replyLost then Reading
                            else Settling(ObserveAll(sh, Range(First(sh), Last(cfg, sh))), false))
    case Settle =>
      && p.reader.Settling?
      && sh' == Acknowledge(sh, PoisonIds(p.reader.entries))
      && var ids, rows := GoodIds(p.reader.entries), GoodRows(p.reader.entries);
      p' == p.(reader := if ids == [] then Resume(p.reader.drain)
                         else Offering(Batch(ids, rows), p.reader.drain))
    case SettleFailed(applied) =>
      && p.reader.Settling?
      && sh' == (if applied then Acknowledge(sh, PoisonIds(p.reader.entries)) else sh)
      && p' == p.(reader := if p.reader.drain then Closing(cfg.workerCount) else Reading)
    case Offer =>
      && p.reader.Offering? && HasRoom(cfg, p.queue)
      && sh' == sh
      && p' == p.(reader := Resume(p.reader.drain),
                  queue := p.queue + [Job(p.reader.batch)], putLog := p.putLog + [Job(p.reader.batch)])
    case CloseReader =>
      && !p.reader.Closing? && sh' == sh && p' == p.(reader := Closing(cfg.workerCount))
    case PutSentinel =>
      && p.reader.Closing? && p.reader.sentinelsLeft > 0 && HasRoom(cfg, p.queue)
      && sh' == sh
      && p' == p.(reader := Closing(p.reader.sentinelsLeft - 1),
                  queue := p.queue + [Sentinel], putLog := p.putLog + [Sentinel])
    case _ => false
  }

  function StartWriting(batch: Batch): Worker {
    if batch.rows == [] then Acking(batch) else Writing(batch, 0)
  }

  ghost predicate WorkerStep(cfg: Config, r: ReplicaId, step: Step, sh: Shared, p: Replica, sh': Shared, p': Replica)
    requires p.Up?
  {
    match step
    case Take(i) =>
      && i < |p.workers| && p.workers[i] == Idle && p.queue != []
      && sh' == sh
      && p' == p.(queue := p.queue[1..], takenLog := p.takenLog + [Taken(i, p.queue[0])],
                  workers := p.workers[i := if p.queue[0] == Sentinel then Exited
                                            else StartWriting(p.queue[0].batch)])
    case CommitChunk(i) =>
      && i < |p.workers| && p.workers[i].Writing? && p.workers[i].next <= |p.workers[i].batch.rows|
      && var w := p.workers[i];
      && sh' == CommitNext(cfg, sh, r, i, w)
      && p' == p.(workers := p.workers[i := if ChunkEnd(cfg, w) < |w.batch.rows| then Writing(w.batch, ChunkEnd(cfg, w))
                                            else Acking(w.batch)])
    case CommitFailed(i, applied) =>
      && i < |p.workers| && p.workers[i].Writing? && p.workers[i].next <= |p.workers[i].batch.rows|
      && sh' == (if applied then CommitNext(cfg, sh, r, i, p.workers[i]) else sh)
      && p' == p.(workers := p.workers[i := Idle])
    case AckBatch(i) =>
      && i < |p.workers| && p.workers[i].Acking?
      && sh' == Acknowledge(sh, p.workers[i].batch.ids)
      && p' == p.(workers := p.workers[i := Idle])
    case AckFailed(i, applied) =>
      && i < |p.workers| && p.workers[i].Acking?
      && sh' == (if applied then Acknowledge(sh, p.workers[i].batch.ids) else sh)
      && p' == p.(workers := p.workers[i := Idle])
    case _ => false
  }

  ghost predicate AllExited(p: Replica) {
    p.Up? && forall i :: 0 <= i < |p.workers| ==> p.workers[i] == Exited
  }

  function PendingOf(sh: Shared, r: ReplicaId): set<MsgId> {
    set m | m in sh.pel && sh.pel[m] == r
  }

  /** A starting replica creates and truncates the staging table of each of its workers. */
  function TruncatedStaging(cfg: Config, r: ReplicaId): map<(ReplicaId, nat), seq<Row>> {
    map i: nat | i < cfg.workerCount :: (r, i) := []
  }

  /** Staging tables differ at most in those of replica `r`. */
  ghost predicate OnlyOwnStaging(r: ReplicaId, leftover: map<(ReplicaId, nat), seq<Row>>) {
    forall k :: k in leftover ==> k.0 == r
  }

  ghost predicate LocalStep(cfg: Config, r: ReplicaId, step: Step, sh: Shared, p: Replica, sh': Shared, p': Replica) {
    match step
    case Restart =>
      && p == Down
      && sh' == sh.(staging := sh.staging + TruncatedStaging(cfg, r))
      && p' == Up(Draining, [], seq(cfg.workerCount, _ => Idle), [], [], PendingOf(sh, r))
    case Crash(leftover) =>
      && p.Up? && OnlyOwnStaging(r, leftover)
      && sh' == sh.(staging := sh.staging + leftover) && p' == Down
    case Exit =>
      AllExited(p) && p.reader == Closing(0) && sh' == sh && p' == Down
    case _ => p.Up? && (ReaderStep(cfg, r, step, sh, p, sh', p') || WorkerStep(cfg, r, step, sh, p, sh', p'))
  }

  ghost predicate NextBy(cfg: Config, s: State, e: Event, s': State) {
    match e
    case Produce(payload) =>
      s' == s.(shared := s.shared.(log := s.shared.log + [payload]))
    case Trim(below) =>
      && s.shared.trimmedBelow <= below <= |s.shared.log|
      && s' == s.(shared := s.shared.(trimmedBelow := below))
    case Local(r, step) =>
      && r in s.replicas && r in s'.replicas
      && s'.replicas == s.replicas[r := s'.replicas[r]]
      && LocalStep(cfg, r, step, s.shared, s.replicas[r], s'.shared, s'.replicas[r])
  }

  /** Nothing published or delivered, every replica down; staging may hold anything. */
  ghost predicate Init(s: State) {
    && s.shared.log == [] && s.shared.trimmedBelow == 0 && s.shared.cursor == 0
    && s.shared.owner == map[] && s.shared.pel == map[] && s.shared.acked == {}
    && s.shared.target == map[]
    && forall r :: r in s.replicas ==> s.replicas[r] == Down
  }

  /** A run: states[i] goes to states[i + 1] by events[i]. */
  ghost predicate IsRun(cfg: Config, states: seq<State>, events: seq<Event>) {
    && |states| == |events| + 1
    && Init(states[0])
    && forall i {:trigger events[i]} :: 0 <= i < |events| ==> NextBy(cfg, states[i], events[i], states[i + 1])
  }
}

/** The inductive invariant of the protocol, one step at a time. */
module DeliveryInvariant {
  import opened TargetTable
  import opened StreamEntries
  import opened DeliveryProtocol

  ghost predicate Published(sh: Shared, m: MsgId) {
    m in sh.owner && m < |sh.log| && sh.log[m].Rows?
  }

  /** The row belongs to a message that was delivered. */
  ghost predicate FromDelivered(sh: Shared, row: Row) {
    exists m: MsgId :: Published(sh, m) && row in sh.log[m].rows
  }

  /** Poison: the payload was trimmed away or never decodable. */
  ghost predicate Poison(sh: Shared, m: MsgId) {
    m < sh.trimmedBelow || (m < |sh.log| && !sh.log[m].Rows?)
  }

  /** Every row key of the message is in the target. */
  ghost predicate Stored(sh: Shared, m: MsgId) {
    m < |sh.log| && sh.log[m].Rows? && forall row :: row in sh.log[m].rows ==> row.key in sh.target
  }

  /** Every message behind the cursor is accounted for: acknowledged, pending with its owner, or trimmed
      before anyone read it. */
  ghost predicate LedgerOk(sh: Shared) {
    && sh.trimmedBelow <= |sh.log| && sh.cursor <= |sh.log|
    && (forall m :: m in sh.owner ==> m < sh.cursor)
    && (forall m: MsgId :: m < sh.cursor ==> m in sh.owner || m < sh.trimmedBelow)
    && sh.pel.Keys !! sh.acked
    && (forall m :: m in sh.owner <==> m in sh.pel || m in sh.acked)
    && (forall m :: m in sh.pel ==> m in sh.owner && sh.pel[m] == sh.owner[m])
  }

  ghost predicate AckedOk(sh: Shared) {
    forall m :: m in sh.acked ==> Poison(sh, m) || Stored(sh, m)
  }

  ghost predicate TargetOk(sh: Shared) {
    KeyedByKey(sh.target) && forall k :: k in sh.target ==> FromDelivered(sh, sh.target[k])
  }

  ghost predicate SharedInv(sh: Shared) { LedgerOk(sh) && AckedOk(sh) && TargetOk(sh) }

  // ----- What a replica holds in memory, against the durable state

  ghost predicate EntryOk(sh: Shared, e: Entry) {
    && e.id in sh.owner && e.id < |sh.log|
    && (e.payload == sh.log[e.id] || (e.payload == Absent && e.id < sh.trimmedBelow))
  }

  ghost predicate BatchOk(sh: Shared, b: Batch) {
    && (forall m :: m in b.ids ==> Published(sh, m) && forall row :: row in sh.log[m].rows ==> row in b.rows)
    && (forall row :: row in b.rows ==> FromDelivered(sh, row))
  }

  ghost predicate ReaderOk(cfg: Config, sh: Shared, reader: Reader) {
    match reader
    case Settling(entries, _) => forall e :: e in entries ==> EntryOk(sh, e)
    case Offering(batch, _) => BatchOk(sh, batch)
    case Closing(left) => left <= cfg.workerCount
    case _ => true
  }

  ghost predicate KeysStored(sh: Shared, rows: seq<Row>, upTo: nat) {
    forall i :: 0 <= i < upTo && i < |rows| ==> rows[i].key in sh.target
  }

  ghost predicate WorkerOk(sh: Shared, w: Worker) {
    match w
    case Writing(batch, next) => BatchOk(sh, batch) && next < |batch.rows| && KeysStored(sh, batch.rows, next)
    case Acking(batch) => BatchOk(sh, batch) && KeysStored(sh, batch.rows, |batch.rows|)
    case _ => true
  }

  ghost predicate PastDrain(reader: Reader) {
    reader == Reading || (reader.Settling? && !reader.drain) || (reader.Offering? && !reader.drain)
  }

  ghost predicate MemoryOk(cfg: Config, r: ReplicaId, sh: Shared, p: Replica)
    requires p.Up?
  {
    && ReaderOk(cfg, sh, p.reader)
    && (forall item :: item in p.queue && item.Job? ==> BatchOk(sh, item.batch))
    && (forall i :: 0 <= i < |p.workers| ==> WorkerOk(sh, p.workers[i]))
    && (forall m :: m in p.leftPending ==> m in sh.owner && sh.owner[m] == r)
    && (PastDrain(p.reader) ==> p.leftPending <= sh.acked)
  }

  // ----- The queue against its history

  function Sentinels(items: seq<Item>): nat
    decreases |items|
  {
    if items == [] then 0
    else Sentinels(items[..|items| - 1]) + (if items[|items| - 1] == Sentinel then 1 else 0)
  }

  function SentinelsOf(taken: seq<Taken>, i: nat): nat
    decreases |taken|
  {
    if taken == [] then 0
    else
      var last := taken[|taken| - 1];
      SentinelsOf(taken[..|taken| - 1], i) + (if last == Taken(i, Sentinel) then 1 else 0)
  }

  function Items(taken: seq<Taken>): (items: seq<Item>)
    ensures |items| == |taken| && forall i :: 0 <= i < |taken| ==> items[i] == taken[i].item
  {
    seq(|taken|, i requires 0 <= i < |taken| => taken[i].item)
  }

  function Exits(workers: seq<Worker>): set<nat> {
    set i | 0 <= i < |workers| && workers[i] == Exited
  }

  ghost predicate SentinelsLast(items: seq<Item>) {
    forall i, j :: 0 <= i < j < |items| && items[i] == Sentinel ==> items[j] == Sentinel
  }

  /** The queue is what was put and not yet taken; sentinels come last, one per worker. */
  ghost predicate LogOk(cfg: Config, p: Replica)
    requires p.Up?
  {
    && p.putLog == Items(p.takenLog) + p.queue
    && (cfg.queueMax > 0 ==> |p.queue| <= cfg.queueMax)
    && SentinelsLast(p.putLog)
    && (if p.reader.Closing? then Sentinels(p.putLog) + p.reader.sentinelsLeft == cfg.workerCount
        else Sentinel !in p.putLog)
  }

  /** A worker has exited exactly when it took a sentinel, and it took only one. */
  ghost predicate ExitsOk(cfg: Config, p: Replica)
    requires p.Up?
  {
    && |p.workers| == cfg.workerCount
    && Sentinels(Items(p.takenLog)) == |Exits(p.workers)|
    && (forall i :: 0 <= i < |p.workers| ==>
          SentinelsOf(p.takenLog, i) == if p.workers[i] == Exited then 1 else 0)
  }

  ghost predicate QueueOk(cfg: Config, p: Replica)
    requires p.Up?
  {
    LogOk(cfg, p) && ExitsOk(cfg, p)
  }

  ghost predicate ReplicaInv(cfg: Config, r: ReplicaId, sh: Shared, p: Replica) {
    p.Up? ==> MemoryOk(cfg, r, sh, p) && QueueOk(cfg, p)
  }

  ghost predicate Inv(cfg: Config, s: State) {
    SharedInv(s.shared) && forall r :: r in s.replicas ==> ReplicaInv(cfg, r, s.shared, s.replicas[r])
  }

  // ----- Durable state only grows

  ghost predicate Grows(sh: Shared, sh': Shared) {
    && sh.log <= sh'.log && sh.trimmedBelow <= sh'.trimmedBelow && sh.cursor <= sh'.cursor
    && (forall m :: m in sh.owner ==> m in sh'.owner && sh'.owner[m] == sh.owner[m])
    && sh.acked <= sh'.acked
    && Extends(sh.target, sh'.target)
  }

  lemma GrowthKeepsProvenance(sh: Shared, sh': Shared, row: Row)
    requires Grows(sh, sh') && FromDelivered(sh, row)
    ensures FromDelivered(sh', row)
  {
    var m: MsgId :| Published(sh, m) && row in sh.log[m].rows;
    assert Published(sh', m) && row in sh'.log[m].rows;
  }

  lemma GrowthKeepsSettled(sh: Shared, sh': Shared, m: MsgId)
    requires Grows(sh, sh') && (Poison(sh, m) || Stored(sh, m))
    ensures Poison(sh', m) || Stored(sh', m)
  {
  }

  lemma GrowthKeepsAcked(sh: Shared, sh': Shared)
    requires Grows(sh, sh') && AckedOk(sh)
    requires forall m :: m in sh'.acked ==> m in sh.acked || Poison(sh, m) || Stored(sh, m)
    ensures AckedOk(sh')
  {
    forall m | m in sh'.acked ensures Poison(sh', m) || Stored(sh', m) {
      GrowthKeepsSettled(sh, sh', m);
    }
  }

  lemma GrowthKeepsTarget(sh: Shared, sh': Shared)
    requires Grows(sh, sh') && TargetOk(sh) && sh'.target == sh.target
    ensures TargetOk(sh')
  {
    forall k | k in sh'.target ensures FromDelivered(sh', sh'.target[k]) {
      GrowthKeepsProvenance(sh, sh', sh.target[k]);
    }
  }

  lemma GrowthKeepsBatch(sh: Shared, sh': Shared, b: Batch)
    requires Grows(sh, sh') && BatchOk(sh, b)
    ensures BatchOk(sh', b)
  {
    forall row | row in b.rows ensures FromDelivered(sh', row) {
      GrowthKeepsProvenance(sh, sh', row);
    }
    forall m | m in b.ids ensures Published(sh', m) && sh'.log[m] == sh.log[m] {
      assert Published(sh, m);
    }
  }

  lemma GrowthKeepsMemory(cfg: Config, r: ReplicaId, sh: Shared, sh': Shared, p: Replica)
    requires Grows(sh, sh') && p.Up? && MemoryOk(cfg, r, sh, p)
    ensures MemoryOk(cfg, r, sh', p)
  {
    forall b | BatchOk(sh, b) ensures BatchOk(sh', b) {
      GrowthKeepsBatch(sh, sh', b);
    }
    forall i | 0 <= i < |p.workers| ensures WorkerOk(sh', p.workers[i]) {
      assert WorkerOk(sh, p.workers[i]);
    }
  }

  /** Acknowledging settled messages keeps the durable invariant. */
  lemma AcknowledgeIsSafe(sh: Shared, ids: seq<MsgId>)
    requires SharedInv(sh)
    requires forall m :: m in ids ==> m in sh.owner && (Poison(sh, m) || Stored(sh, m))
    ensures SharedInv(Acknowledge(sh, ids)) && Grows(sh, Acknowledge(sh, ids))
  {
    GrowthKeepsAcked(sh, Acknowledge(sh, ids));
    GrowthKeepsTarget(sh, Acknowledge(sh, ids));
  }

  lemma InsertIsSafe(sh: Shared, sh': Shared, rows: seq<Row>)
    requires SharedInv(sh) && forall row :: row in rows ==> FromDelivered(sh, row)
    requires sh' == sh.(staging := sh'.staging, target := InsertAll(sh.target, rows))
    ensures SharedInv(sh') && Grows(sh, sh')
  {
    InsertIsFirstWins(sh.target, rows);
    GrowthKeepsAcked(sh, sh');
    forall k | k in sh'.target ensures FromDelivered(sh', sh'.target[k]) && sh'.target[k].key == k {
      if k in sh.target {
        GrowthKeepsProvenance(sh, sh', sh.target[k]);
      } else {
        var i :| 0 <= i < |rows| && rows[i].key == k && sh'.target[k] == rows[i];
        GrowthKeepsProvenance(sh, sh', rows[i]);
      }
    }
  }

  lemma DeliverIsSafe(cfg: Config, sh: Shared, r: ReplicaId)
    requires ValidConfig(cfg) && SharedInv(sh) && First(sh) < |sh.log|
    ensures SharedInv(Deliver(cfg, sh, r)) && Grows(sh, Deliver(cfg, sh, r))
    ensures forall m: MsgId :: First(sh) <= m < Last(cfg, sh) ==> m in Deliver(cfg, sh, r).owner
  {
    var sh' := Deliver(cfg, sh, r);
    var ids := Range(First(sh), Last(cfg, sh));
    forall m: MsgId | First(sh) <= m < Last(cfg, sh) ensures m in sh'.owner {
      assert ids[m - First(sh)] == m;
    }
    GrowthKeepsAcked(sh, sh');
    GrowthKeepsTarget(sh, sh');
  }

  lemma EnvironmentIsSafe(cfg: Config, s: State, e: Event, s': State)
    requires Inv(cfg, s) && NextBy(cfg, s, e, s') && !e.Local?
    ensures Inv(cfg, s') && Grows(s.shared, s'.shared)
  {
    GrowthKeepsAcked(s.shared, s'.shared);
    GrowthKeepsTarget(s.shared, s'.shared);
    forall r | r in s'.replicas ensures ReplicaInv(cfg, r, s'.shared, s'.replicas[r]) {
      if s.replicas[r].Up? {
        GrowthKeepsMemory(cfg, r, s.shared, s'.shared, s.replicas[r]);
      }
    }
  }

  // ----- Reader steps

  /** Decoding entries that mirror the log gives a batch that mirrors the log, and poison that is poison. */
  lemma DecodedEntriesAreOk(sh: Shared, entries: seq<Entry>)
    requires forall e :: e in entries ==> EntryOk(sh, e)
    ensures BatchOk(sh, Batch(GoodIds(entries), GoodRows(entries)))
    ensures forall m :: m in PoisonIds(entries) ==> m in sh.owner && Poison(sh, m)
  {
    DecodingIsExact(entries);
    var b := Batch(GoodIds(entries), GoodRows(entries));
    forall m | m in b.ids
      ensures Published(sh, m) && forall row :: row in sh.log[m].rows ==> row in b.rows
    {
      var e :| e in entries && e.id == m && e.payload.Rows?;
      assert EntryOk(sh, e);
    }
    forall row | row in b.rows ensures FromDelivered(sh, row) {
      var e :| e in entries && e.payload.Rows? && row in e.payload.rows;
      assert EntryOk(sh, e) && Published(sh, e.id);
    }
    forall m | m in PoisonIds(entries) ensures m in sh.owner && Poison(sh, m) {
      var e :| e in entries && e.id == m && !e.payload.Rows?;
      assert EntryOk(sh, e);
    }
  }

  lemma DrainReadIsSafe(sh: Shared, ids: seq<MsgId>)
    requires SharedInv(sh) && forall i :: 0 <= i < |ids| ==> ids[i] in sh.pel && ids[i] < |sh.log|
    ensures forall e :: e in ObserveAll(sh, ids) ==> EntryOk(sh, e)
  {
    forall e | e in ObserveAll(sh, ids) ensures EntryOk(sh, e) {
      var i :| 0 <= i < |ids| && e == Observed(sh, ids[i]);
      assert ids[i] in sh.owner;
    }
  }

  lemma ReadNewIsSafe(cfg: Config, r: ReplicaId, sh: Shared)
    requires ValidConfig(cfg) && SharedInv(sh) && First(sh) < |sh.log|
    ensures forall e :: e in ObserveAll(sh, Range(First(sh), Last(cfg, sh))) ==> EntryOk(Deliver(cfg, sh, r), e)
  {
    DeliverIsSafe(cfg, sh, r);
    var ids := Range(First(sh), Last(cfg, sh));
    forall e | e in ObserveAll(sh, ids) ensures EntryOk(Deliver(cfg, sh, r), e) {
      var i :| 0 <= i < |ids| && e == Observed(sh, ids[i]);
    }
  }

  /** The barrier: with nothing pending for `r`, all it was ever given has been acknowledged. */
  lemma NothingPendingMeansAcked(sh: Shared, r: ReplicaId, ids: set<MsgId>)
    requires LedgerOk(sh) && NothingPending(sh, r)
    requires forall m :: m in ids ==> m in sh.owner && sh.owner[m] == r
    ensures ids <= sh.acked
  {
    forall m | m in ids ensures m in sh.acked {
      assert m !in sh.pel;
    }
  }

  lemma SettleIsSafe(sh: Shared, entries: seq<Entry>)
    requires SharedInv(sh) && forall e :: e in entries ==> EntryOk(sh, e)
    ensures var sh' := Acknowledge(sh, PoisonIds(entries));
            && SharedInv(sh') && Grows(sh, sh')
            && BatchOk(sh', Batch(GoodIds(entries), GoodRows(entries)))
  {
    DecodedEntriesAreOk(sh, entries);
    AcknowledgeIsSafe(sh, PoisonIds(entries));
    GrowthKeepsBatch(sh, Acknowledge(sh, PoisonIds(entries)), Batch(GoodIds(entries), GoodRows(entries)));
  }

  /** What a reader step may do to its replica: move the reader, and put one well-formed item. */
  ghost predicate ReaderStepOk(cfg: Config, sh: Shared, p: Replica, sh': Shared, p': Replica)
    requires p.Up?
  {
    && SharedInv(sh') && Grows(sh, sh') && p'.Up?
    && ReaderOk(cfg, sh', p'.reader) && (PastDrain(p'.reader) ==> p.leftPending <= sh'.acked)
    && p' == p.(reader := p'.reader, queue := p'.queue, putLog := p'.putLog)
    && (forall item :: item in p'.queue && item.Job? ==> item in p.queue || BatchOk(sh, item.batch))
  }

  lemma ReadStepIsSafe(cfg: Config, r: ReplicaId, step: Step, sh: Shared, p: Replica, sh': Shared, p': Replica)
    requires step.DrainRead? || step.StartReading? || step.ReadNew?
    requires ValidConfig(cfg) && SharedInv(sh) && p.Up? && MemoryOk(cfg, r, sh, p)
    requires ReaderStep(cfg, r, step, sh, p, sh', p')
    ensures ReaderStepOk(cfg, sh, p, sh', p')
  {
    match step
    case DrainRead(ids) => DrainReadIsSafe(sh, ids);
    case StartReading => NothingPendingMeansAcked(sh, r, p.leftPending);
    case ReadNew(replyLost) =>
      DeliverIsSafe(cfg, sh, r);
      ReadNewIsSafe(cfg, r, sh);
  }

  lemma ReaderStepIsSafe(cfg: Config, r: ReplicaId, step: Step, sh: Shared, p: Replica, sh': Shared, p': Replica)
    requires ValidConfig(cfg) && SharedInv(sh) && p.Up? && MemoryOk(cfg, r, sh, p)
    requires ReaderStep(cfg, r, step, sh, p, sh', p')
    ensures ReaderStepOk(cfg, sh, p, sh', p')
  {
    if step.DrainRead? || step.StartReading? || step.ReadNew? {
      ReadStepIsSafe(cfg, r, step, sh, p, sh', p');
    } else if p.reader.Settling? {
      SettleIsSafe(sh, p.reader.entries);
    }
  }

  // ----- Worker steps

  lemma WorkerStepIsSafe(cfg: Config, r: ReplicaId, step: Step, sh: Shared, p: Replica, sh': Shared, p': Replica)
    requires ValidConfig(cfg) && SharedInv(sh) && p.Up? && MemoryOk(cfg, r, sh, p)
    requires WorkerStep(cfg, r, step, sh, p, sh', p')
    ensures SharedInv(sh') && Grows(sh, sh') && p'.Up?
    ensures p' == p.(queue := p'.queue, workers := p'.workers, takenLog := p'.takenLog)
    ensures |p'.workers| == |p.workers|
    ensures forall i :: 0 <= i < |p.workers| ==> p'.workers[i] == p.workers[i] || WorkerOk(sh', p'.workers[i])
    ensures forall item :: item in p'.queue ==> item in p.queue
  {
    match step
    case Take(i) =>
      assert p.queue[0] in p.queue;
    case CommitChunk(i) =>
      assert WorkerOk(sh, p.workers[i]);
      CommitIsSafe(cfg, r, sh, i, p.workers[i]);
      GrowthKeepsBatch(sh, sh', p.workers[i].batch);
    case CommitFailed(i, applied) =>
      assert WorkerOk(sh, p.workers[i]);
      CommitIsSafe(cfg, r, sh, i, p.workers[i]);
    case AckBatch(i) =>
      assert WorkerOk(sh, p.workers[i]);
      AckIsSafe(sh, p.workers[i]);
    case AckFailed(i, applied) =>
      assert WorkerOk(sh, p.workers[i]);
      AckIsSafe(sh, p.workers[i]);
  }

  lemma CommitIsSafe(cfg: Config, r: ReplicaId, sh: Shared, i: nat, w: Worker)
    requires ValidConfig(cfg) && SharedInv(sh) && w.Writing? && WorkerOk(sh, w)
    ensures var sh' := CommitNext(cfg, sh, r, i, w);
            SharedInv(sh') && Grows(sh, sh') && KeysStored(sh', w.batch.rows, ChunkEnd(cfg, w))
  {
    var chunk := w.batch.rows[w.next..ChunkEnd(cfg, w)];
    assert forall row :: row in chunk ==> row in w.batch.rows;
    InsertIsSafe(sh, CommitNext(cfg, sh, r, i, w), chunk);
    ChunkIsStored(sh.target, w.batch.rows, w.next, ChunkEnd(cfg, w));
  }

  lemma ChunkIsStored(table: Table, rows: seq<Row>, next: nat, end: nat)
    requires next <= end <= |rows| && forall i :: 0 <= i < next ==> rows[i].key in table
    ensures forall j :: 0 <= j < end ==> rows[j].key in InsertAll(table, rows[next..end])
  {
    var chunk := rows[next..end];
    InsertIsFirstWins(table, chunk);
    forall j | 0 <= j < end ensures rows[j].key in InsertAll(table, chunk) {
      if next <= j {
        assert chunk[j - next] == rows[j];
      }
    }
  }

  /** A batch is acknowledged only once every row key of every one of its messages is stored. */
  lemma AckIsSafe(sh: Shared, w: Worker)
    requires SharedInv(sh) && w.Acking? && WorkerOk(sh, w)
    ensures SharedInv(Acknowledge(sh, w.batch.ids)) && Grows(sh, Acknowledge(sh, w.batch.ids))
  {
    forall m | m in w.batch.ids ensures m in sh.owner && Stored(sh, m) {
      forall row | row in sh.log[m].rows ensures row.key in sh.target {
        var i :| 0 <= i < |w.batch.rows| && w.batch.rows[i] == row;
      }
    }
    AcknowledgeIsSafe(sh, w.batch.ids);
  }

  // ----- Queue bookkeeping

  lemma SentinelsAppend(items: seq<Item>, item: Item)
    ensures Sentinels(items + [item]) == Sentinels(items) + (if item == Sentinel then 1 else 0)
  {
    assert (items + [item])[..|items|] == items;
  }

  lemma {:induction false} NoSentinels(items: seq<Item>)
    ensures Sentinels(items) == 0 <==> Sentinel !in items
    decreases |items|
  {
    if items != [] {
      NoSentinels(items[..|items| - 1]);
      assert items == items[..|items| - 1] + [items[|items| - 1]];
    }
  }

  lemma TakenAppend(taken: seq<Taken>, t: Taken, i: nat)
    ensures SentinelsOf(taken + [t], i) == SentinelsOf(taken, i) + (if t == Taken(i, Sentinel) then 1 else 0)
    ensures Items(taken + [t]) == Items(taken) + [t.item]
  {
    assert (taken + [t])[..|taken|] == taken;
  }

  lemma PutJobKeepsQueue(cfg: Config, p: Replica, batch: Batch, reader: Reader)
    requires p.Up? && QueueOk(cfg, p) && HasRoom(cfg, p.queue) && !p.reader.Closing? && !reader.Closing?
    ensures QueueOk(cfg, p.(reader := reader, queue := p.queue + [Job(batch)], putLog := p.putLog + [Job(batch)]))
  {
    var p' := p.(reader := reader, queue := p.queue + [Job(batch)], putLog := p.putLog + [Job(batch)]);
    assert p'.putLog == Items(p'.takenLog) + p'.queue;
    assert Sentinel !in p'.putLog;
    assert SentinelsLast(p'.putLog);
  }

  lemma PutSentinelKeepsQueue(cfg: Config, p: Replica)
    requires p.Up? && QueueOk(cfg, p) && HasRoom(cfg, p.queue) && p.reader.Closing? && p.reader.sentinelsLeft > 0
    ensures QueueOk(cfg, p.(reader := Closing(p.reader.sentinelsLeft - 1),
                            queue := p.queue + [Sentinel], putLog := p.putLog + [Sentinel]))
  {
    var p' := p.(reader := Closing(p.reader.sentinelsLeft - 1),
                 queue := p.queue + [Sentinel], putLog := p.putLog + [Sentinel]);
    SentinelsAppend(p.putLog, Sentinel);
    assert p'.putLog == Items(p'.takenLog) + p'.queue;
    assert SentinelsLast(p'.putLog);
  }

  lemma TakeKeepsLog(cfg: Config, p: Replica, t: Taken, workers: seq<Worker>)
    requires p.Up? && LogOk(cfg, p) && p.queue != [] && t.item == p.queue[0]
    ensures LogOk(cfg, p.(queue := p.queue[1..], takenLog := p.takenLog + [t], workers := workers))
  {
    TakenAppend(p.takenLog, t, 0);
    assert p.queue == [p.queue[0]] + p.queue[1..];
    assert Items(p.takenLog + [t]) + p.queue[1..] == p.putLog;
  }

  lemma TakeCountsSentinels(workers: seq<Worker>, taken: seq<Taken>, t: Taken, w: Worker)
    requires t.worker < |workers| && workers[t.worker] == Idle && (w == Exited <==> t.item == Sentinel)
    requires forall i :: 0 <= i < |workers| ==> SentinelsOf(taken, i) == if workers[i] == Exited then 1 else 0
    ensures forall i :: 0 <= i < |workers| ==>
              SentinelsOf(taken + [t], i) == if workers[t.worker := w][i] == Exited then 1 else 0
  {
    forall i | 0 <= i < |workers|
      ensures SentinelsOf(taken + [t], i) == if workers[t.worker := w][i] == Exited then 1 else 0
    {
      TakenAppend(taken, t, i);
    }
  }

  lemma ExitedAfterTake(workers: seq<Worker>, i: nat, w: Worker)
    requires i < |workers| && workers[i] == Idle
    ensures Exits(workers[i := w]) == if w == Exited then Exits(workers) + {i} else Exits(workers)
    ensures i !in Exits(workers)
  {
  }

  lemma TakeKeepsExits(cfg: Config, p: Replica, t: Taken, w: Worker)
    requires p.Up? && ExitsOk(cfg, p) && t.worker < |p.workers| && p.workers[t.worker] == Idle
    requires w == Exited <==> t.item == Sentinel
    ensures ExitsOk(cfg, p.(takenLog := p.takenLog + [t], workers := p.workers[t.worker := w]))
  {
    TakenAppend(p.takenLog, t, 0);
    SentinelsAppend(Items(p.takenLog), t.item);
    TakeCountsSentinels(p.workers, p.takenLog, t, w);
    ExitedAfterTake(p.workers, t.worker, w);
  }

  lemma TakeKeepsQueue(cfg: Config, r: ReplicaId, i: nat, sh: Shared, p: Replica, sh': Shared, p': Replica)
    requires p.Up? && QueueOk(cfg, p) && WorkerStep(cfg, r, Take(i), sh, p, sh', p')
    ensures p'.Up? && QueueOk(cfg, p')
  {
    var t := Taken(i, p.queue[0]);
    TakeKeepsLog(cfg, p, t, p'.workers);
    TakeKeepsExits(cfg, p, t, p'.workers[i]);
    assert p'.workers == p.workers[i := p'.workers[i]];
  }

  /** Closing puts no sentinel yet, so the count of missing ones is all of them. */
  lemma OtherStepKeepsQueue(cfg: Config, p: Replica, p': Replica)
    requires p.Up? && p'.Up? && QueueOk(cfg, p)
    requires p' == p.(reader := p'.reader, workers := p'.workers) && |p'.workers| == |p.workers|
    requires forall i :: 0 <= i < |p.workers| ==> (p.workers[i] == Exited <==> p'.workers[i] == Exited)
    requires p'.reader == p.reader ||
             (!p.reader.Closing? && (p'.reader.Closing? ==> p'.reader == Closing(cfg.workerCount)))
    ensures QueueOk(cfg, p')
  {
    assert Exits(p.workers) == Exits(p'.workers);
    NoSentinels(p.putLog);
  }

  lemma ReaderStepKeepsQueue(cfg: Config, r: ReplicaId, step: Step, sh: Shared, p: Replica, sh': Shared, p': Replica)
    requires p.Up? && p'.Up? && QueueOk(cfg, p) && ReaderStep(cfg, r, step, sh, p, sh', p')
    ensures QueueOk(cfg, p')
  {
    match step
    case Offer => PutJobKeepsQueue(cfg, p, p.reader.batch, p'.reader);
    case PutSentinel => PutSentinelKeepsQueue(cfg, p);
    case _ => OtherStepKeepsQueue(cfg, p, p');
  }

  lemma WorkerStepKeepsQueue(cfg: Config, r: ReplicaId, step: Step, sh: Shared, p: Replica, sh': Shared, p': Replica)
    requires p.Up? && p'.Up? && QueueOk(cfg, p) && WorkerStep(cfg, r, step, sh, p, sh', p')
    ensures QueueOk(cfg, p')
  {
    match step
    case Take(i) => TakeKeepsQueue(cfg, r, i, sh, p, sh', p');
    case _ => OtherStepKeepsQueue(cfg, p, p');
  }

  // ----- Every step

  lemma ReaderStepKeepsMemory(cfg: Config, r: ReplicaId, step: Step, sh: Shared, p: Replica, sh': Shared, p': Replica)
    requires ValidConfig(cfg) && SharedInv(sh) && p.Up? && MemoryOk(cfg, r, sh, p)
    requires ReaderStep(cfg, r, step, sh, p, sh', p')
    ensures SharedInv(sh') && Grows(sh, sh') && p'.Up? && MemoryOk(cfg, r, sh', p')
  {
    ReaderStepIsSafe(cfg, r, step, sh, p, sh', p');
    GrowthKeepsMemory(cfg, r, sh, sh', p);
    forall item | item in p'.queue && item.Job? ensures BatchOk(sh', item.batch) {
      if item !in p.queue {
        GrowthKeepsBatch(sh, sh', item.batch);
      }
    }
  }

  lemma {:induction false} WorkerStepKeepsMemory(cfg: Config, r: ReplicaId, step: Step, sh: Shared, p: Replica,
                                                 sh': Shared, p': Replica)
    requires ValidConfig(cfg) && SharedInv(sh) && p.Up? && MemoryOk(cfg, r, sh, p)
    requires WorkerStep(cfg, r, step, sh, p, sh', p')
    ensures SharedInv(sh') && Grows(sh, sh') && p'.Up? && MemoryOk(cfg, r, sh', p')
  {
    WorkerStepIsSafe(cfg, r, step, sh, p, sh', p');
    GrowthKeepsMemory(cfg, r, sh, sh', p);
  }

  lemma RestartIsSafe(cfg: Config, r: ReplicaId, sh: Shared, p: Replica, sh': Shared, p': Replica)
    requires SharedInv(sh) && LocalStep(cfg, r, Restart, sh, p, sh', p')
    ensures SharedInv(sh') && Grows(sh, sh') && ReplicaInv(cfg, r, sh', p')
  {
    StagingIsIrrelevant(sh, sh');
    assert p'.putLog == Items(p'.takenLog) + p'.queue;
    assert Exits(p'.workers) == {};
  }

  lemma {:induction false} LocalStepIsSafe(cfg: Config, r: ReplicaId, step: Step, sh: Shared, p: Replica, sh': Shared,
                                           p': Replica)
    requires ValidConfig(cfg) && SharedInv(sh) && ReplicaInv(cfg, r, sh, p)
    requires LocalStep(cfg, r, step, sh, p, sh', p')
    ensures SharedInv(sh') && Grows(sh, sh') && ReplicaInv(cfg, r, sh', p')
  {
    if step.Restart? {
      RestartIsSafe(cfg, r, sh, p, sh', p');
    } else if step.Crash? {
      StagingIsIrrelevant(sh, sh');
    } else if !step.Exit? {
      if ReaderStep(cfg, r, step, sh, p, sh', p') {
        ReaderStepKeepsMemory(cfg, r, step, sh, p, sh', p');
        ReaderStepKeepsQueue(cfg, r, step, sh, p, sh', p');
      } else {
        WorkerStepKeepsMemory(cfg, r, step, sh, p, sh', p');
        WorkerStepKeepsQueue(cfg, r, step, sh, p, sh', p');
      }
    }
  }

  /** Whatever is left in staging, nothing else can tell. */
  lemma StagingIsIrrelevant(sh: Shared, sh': Shared)
    requires SharedInv(sh) && sh' == sh.(staging := sh'.staging)
    ensures SharedInv(sh') && Grows(sh, sh')
  {
    InsertIsSafe(sh, sh', []);
  }

  lemma StepIsSafe(cfg: Config, s: State, e: Event, s': State)
    requires ValidConfig(cfg) && Inv(cfg, s) && NextBy(cfg, s, e, s')
    ensures Inv(cfg, s') && Grows(s.shared, s'.shared)
  {
    if e.Local? {
      var r := e.replica;
      LocalStepIsSafe(cfg, r, e.step, s.shared, s.replicas[r], s'.shared, s'.replicas[r]);
      forall q | q in s'.replicas ensures ReplicaInv(cfg, q, s'.shared, s'.replicas[q]) {
        if q != r && s.replicas[q].Up? {
          GrowthKeepsMemory(cfg, q, s.shared, s'.shared, s.replicas[q]);
        }
      }
    } else {
      EnvironmentIsSafe(cfg, s, e, s');
    }
  }

  lemma {:induction false} RunKeepsInv(cfg: Config, states: seq<State>, events: seq<Event>, n: nat)
    requires ValidConfig(cfg) && IsRun(cfg, states, events) && n < |states|
    ensures Inv(cfg, states[n])
    decreases n
  {
    if n > 0 {
      RunKeepsInv(cfg, states, events, n - 1);
      assert NextBy(cfg, states[n - 1], events[n - 1], states[n - 1 + 1]);
      StepIsSafe(cfg, states[n - 1], events[n - 1], states[n]);
    }
  }
}
