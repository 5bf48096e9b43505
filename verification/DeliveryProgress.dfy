/** What each step of the delivery protocol gets done, and a run that brings a message all the way. */
module DeliveryProgress {
  import opened Numbers
  import opened TargetTable
  import opened StreamEntries
  import opened DeliveryProtocol
  import opened DeliveryInvariant
  import opened DeliveryTheorems

  // ----- Decoding, position by position

  /** How many of the first i entries are decodable, and how many rows they carry. */
  function GoodBefore(entries: seq<Entry>, i: nat): nat
    requires i <= |entries|
  {
    if i == 0 then 0 else GoodBefore(entries, i - 1) + if entries[i - 1].payload.Rows? then 1 else 0
  }

  function RowsBefore(entries: seq<Entry>, i: nat): nat
    requires i <= |entries|
  {
    if i == 0 then 0
    else RowsBefore(entries, i - 1) + if entries[i - 1].payload.Rows? then |entries[i - 1].payload.rows| else 0
  }

  lemma {:induction false} CountsOfPrefix(entries: seq<Entry>, n: nat, i: nat)
    requires i <= n <= |entries|
    ensures GoodBefore(entries[..n], i) == GoodBefore(entries, i)
    ensures RowsBefore(entries[..n], i) == RowsBefore(entries, i)
    decreases i
  {
    if i > 0 {
      CountsOfPrefix(entries, n, i - 1);
    }
  }

  lemma {:induction false} DecodedSizes(entries: seq<Entry>)
    ensures |GoodIds(entries)| == GoodBefore(entries, |entries|)
    ensures |GoodRows(entries)| == RowsBefore(entries, |entries|)
    decreases |entries|
  {
    if entries != [] {
      var n := |entries| - 1;
      DecodedSizes(entries[..n]);
      CountsOfPrefix(entries, n, n);
    }
  }

  /** The batch holds each decodable entry in its place: its id behind the ids, and its rows behind the rows, of the
      decodable entries before it. */
  ghost predicate HasInPlace(b: Batch, entries: seq<Entry>, i: nat)
    requires i < |entries|
  {
    var e := entries[i];
    e.payload.Rows? ==>
      && GoodBefore(entries, i) < |b.ids| && b.ids[GoodBefore(entries, i)] == e.id
      && RowsBefore(entries, i) + |e.payload.rows| <= |b.rows|
      && b.rows[RowsBefore(entries, i)..RowsBefore(entries, i) + |e.payload.rows|] == e.payload.rows
  }

  /** And nothing else. */
  ghost predicate HoldsExactly(b: Batch, entries: seq<Entry>) {
    && |b.ids| == GoodBefore(entries, |entries|) && |b.rows| == RowsBefore(entries, |entries|)
    && forall i :: 0 <= i < |entries| ==> HasInPlace(b, entries, i)
  }

  lemma {:induction false} LongerBatch(b: Batch, c: Batch, entries: seq<Entry>, n: nat, i: nat)
    requires i < n <= |entries| && b.ids <= c.ids && b.rows <= c.rows && HasInPlace(b, entries[..n], i)
    ensures HasInPlace(c, entries, i)
  {
    CountsOfPrefix(entries, n, i);
    var lo, e := RowsBefore(entries, i), entries[i];
    if e.payload.Rows? {
      assert c.rows[lo..lo + |e.payload.rows|] == b.rows[lo..lo + |e.payload.rows|];
    }
  }

  lemma {:induction false} LastInPlace(entries: seq<Entry>)
    requires entries != []
    ensures HasInPlace(Batch(GoodIds(entries), GoodRows(entries)), entries, |entries| - 1)
  {
    var n := |entries| - 1;
    DecodedSizes(entries[..n]);
    CountsOfPrefix(entries, n, n);
  }

  lemma {:induction false} DecodingKeepsOrder(entries: seq<Entry>)
    ensures HoldsExactly(Batch(GoodIds(entries), GoodRows(entries)), entries)
    decreases |entries|
  {
    DecodedSizes(entries);
    if entries != [] {
      var n := |entries| - 1;
      var b, c := Batch(GoodIds(entries[..n]), GoodRows(entries[..n])), Batch(GoodIds(entries), GoodRows(entries));
      DecodingKeepsOrder(entries[..n]);
      LastInPlace(entries);
      forall i | 0 <= i < n ensures HasInPlace(c, entries, i) {
        assert HasInPlace(b, entries[..n], i);
        LongerBatch(b, c, entries, n, i);
      }
    }
  }

  // ----- What the reader's steps do

  /** Reading takes the next messages up to the batch size, skipping trimmed ones, and makes each of them pending
      for the reader; nothing is acknowledged. */
  lemma {:induction false} ReadingTakesTheNext(cfg: Config, r: ReplicaId, sh: Shared, p: Replica, sh': Shared,
                                               p': Replica, lost: bool)
    requires ValidConfig(cfg) && LedgerOk(sh) && p.Up? && ReaderStep(cfg, r, ReadNew(lost), sh, p, sh', p')
    ensures var first := MaxInt(sh.cursor, sh.trimmedBelow);
            var size := MinInt(cfg.readerBatch, |sh.log| - first);
            && size > 0 && sh'.cursor == first + size && sh'.acked == sh.acked && sh'.target == sh.target
            && (forall m: MsgId :: m in sh'.pel <==> m in sh.pel || first <= m < first + size)
            && (forall m: MsgId :: first <= m < first + size ==> sh'.pel[m] == r)
            && (lost ==> p' == p)
            && (!lost ==> p' == p.(reader := p'.reader) && p'.reader.Settling? && !p'.reader.drain
                          && |p'.reader.entries| == size
                          && forall k :: 0 <= k < size ==> p'.reader.entries[k] == Entry(first + k, sh.log[first + k]))
  {
    var ids := Range(First(sh), Last(cfg, sh));
    forall m: MsgId | First(sh) <= m < Last(cfg, sh) ensures m in ids {
      assert ids[m - First(sh)] == m;
    }
  }

  /** A restarted reader takes the oldest of its own pending messages again, up to the batch size: all of them, or as
      many as fit, in order. What the stream has trimmed comes back without its payload. */
  lemma {:induction false} DrainingTakesTheOldest(cfg: Config, r: ReplicaId, ids: seq<MsgId>, sh: Shared, p: Replica,
                                                  sh': Shared, p': Replica, m: MsgId)
    requires p.Up? && ReaderStep(cfg, r, DrainRead(ids), sh, p, sh', p') && m in sh.pel && sh.pel[m] == r
    ensures sh' == sh && p' == p.(reader := p'.reader) && p'.reader.Settling? && p'.reader.drain
    ensures var entries := p'.reader.entries;
            && 0 < |entries| <= cfg.readerBatch
            && (forall i, j :: 0 <= i < j < |entries| ==> entries[i].id < entries[j].id)
            && (forall i :: 0 <= i < |entries| ==>
                  && entries[i].id in sh.pel && sh.pel[entries[i].id] == r && entries[i].id < |sh.log|
                  && entries[i].payload == (if entries[i].id < sh.trimmedBelow then Absent
                                            else sh.log[entries[i].id]))
            && ((exists i :: 0 <= i < |entries| && entries[i].id == m) ||
                (|entries| == cfg.readerBatch && entries[|entries| - 1].id < m))
  {
    if i :| 0 <= i < |ids| && ids[i] == m {
      assert p'.reader.entries[i].id == m;
    }
  }

  /** Settling hands over: the decodable entries, in order and with all their rows, become the batch the reader
      offers next, and it resumes what it was doing only when there is none. */
  lemma {:induction false} SettlingHandsOver(cfg: Config, r: ReplicaId, sh: Shared, p: Replica, sh': Shared,
                                             p': Replica)
    requires p.Up? && ReaderStep(cfg, r, Settle, sh, p, sh', p')
    ensures var entries := p.reader.entries;
            && p' == p.(reader := p'.reader)
            && (if exists e :: e in entries && e.payload.Rows?
                then p'.reader.Offering? && p'.reader.drain == p.reader.drain
                     && HoldsExactly(p'.reader.batch, entries)
                else p'.reader == if p.reader.drain then Draining else Reading)
  {
    var entries := p.reader.entries;
    DecodingKeepsOrder(entries);
    DecodingIsExact(entries);
    if GoodIds(entries) != [] {
      assert GoodIds(entries)[0] in GoodIds(entries);
    }
    if e :| e in entries && e.payload.Rows? {
      assert e.id in GoodIds(entries);
    }
  }

  /** Offering makes that batch the last job of the queue, and the reader goes on where it was. */
  lemma OfferingQueues(cfg: Config, r: ReplicaId, sh: Shared, p: Replica, sh': Shared, p': Replica)
    requires p.Up? && ReaderStep(cfg, r, Offer, sh, p, sh', p')
    ensures sh' == sh && p.reader.Offering? && p'.workers == p.workers
    ensures |p'.queue| == |p.queue| + 1 && p'.queue[..|p.queue|] == p.queue
    ensures p'.queue[|p.queue|] == Job(p.reader.batch)
    ensures p'.reader == if p.reader.drain then Draining else Reading
  {
  }

  /** A reader that cannot settle gives up for now: a drain ends in shutdown, otherwise it reads on. What it had in
      hand and was not acknowledged is still pending. */
  lemma {:induction false} FailedSettlingKeepsPending(cfg: Config, r: ReplicaId, applied: bool, sh: Shared, p: Replica,
                                                      sh': Shared, p': Replica, m: MsgId)
    requires p.Up? && ReaderStep(cfg, r, SettleFailed(applied), sh, p, sh', p')
    ensures p'.queue == p.queue && p'.workers == p.workers && sh'.target == sh.target
    ensures p'.reader == if p.reader.drain then Closing(cfg.workerCount) else Reading
    ensures m in sh.pel && !SettlesPoison(p.reader.entries, applied, m) ==> m in sh'.pel && sh'.pel[m] == sh.pel[m]
  {
    DecodingIsExact(p.reader.entries);
  }

  ghost predicate SettlesPoison(entries: seq<Entry>, applied: bool, m: MsgId) {
    applied && exists e :: e in entries && e.id == m && !e.payload.Rows?
  }

  // ----- What the worker's steps do

  /** A worker takes the oldest item: a sentinel ends it, a batch without rows needs only its acknowledgement,
      any other is written from its first row on. */
  lemma TakingStartsWork(cfg: Config, r: ReplicaId, i: nat, sh: Shared, p: Replica, sh': Shared, p': Replica)
    requires p.Up? && WorkerStep(cfg, r, Take(i), sh, p, sh', p')
    ensures sh' == sh && p'.reader == p.reader && p.queue == [p.queue[0]] + p'.queue && i < |p'.workers| == |p.workers|
    ensures var item, w := p.queue[0], p'.workers[i];
            match item
            case Sentinel => w == Exited
            case Job(b) => if b.rows == [] then w == Acking(b) else w == Writing(b, 0)
  {
  }

  /** Committing a chunk takes the worker on by `rowsPerFlush` rows, and to the acknowledgement after the last. */
  lemma {:induction false} CommittingGoesOn(cfg: Config, r: ReplicaId, i: nat, sh: Shared, p: Replica, sh': Shared,
                                            p': Replica)
    requires ValidConfig(cfg) && p.Up? && WorkerStep(cfg, r, CommitChunk(i), sh, p, sh', p')
    ensures i < |p'.workers| == |p.workers|
    ensures var w := p.workers[i];
            var next := w.next + cfg.rowsPerFlush;
            && p'.workers[i] == (if next < |w.batch.rows| then Writing(w.batch, next) else Acking(w.batch))
            && (forall k :: w.next <= k < next && k < |w.batch.rows| ==> w.batch.rows[k].key in sh'.target)
            && sh'.pel == sh.pel && sh'.acked == sh.acked
  {
    var w := p.workers[i];
    var chunk := w.batch.rows[w.next..ChunkEnd(cfg, w)];
    InsertIsFirstWins(sh.target, chunk);
    forall k | w.next <= k < w.next + cfg.rowsPerFlush && k < |w.batch.rows|
      ensures w.batch.rows[k].key in sh'.target
    {
      assert chunk[k - w.next] == w.batch.rows[k];
    }
  }

  /** Acknowledging a batch acknowledges its messages and no others, takes them off the pending list, and frees the
      worker. */
  lemma AcknowledgingSettles(cfg: Config, r: ReplicaId, i: nat, sh: Shared, p: Replica, sh': Shared, p': Replica,
                             m: MsgId)
    requires p.Up? && WorkerStep(cfg, r, AckBatch(i), sh, p, sh', p')
    ensures i < |p'.workers| == |p.workers| && p'.workers[i] == Idle && p.workers[i].Acking?
    ensures m in sh'.acked <==> m in sh.acked || m in p.workers[i].batch.ids
    ensures m in sh'.pel <==> m in sh.pel && m !in p.workers[i].batch.ids
    ensures m in sh'.pel ==> sh'.pel[m] == sh.pel[m]
    ensures sh'.target == sh.target
  {
  }

  /** A worker whose write or acknowledgement fails is free again, and leaves its messages pending unless the
      acknowledgement was applied. */
  lemma FailedWorkKeepsPending(cfg: Config, r: ReplicaId, step: Step, sh: Shared, p: Replica, sh': Shared, p': Replica,
                               m: MsgId)
    requires step.CommitFailed? || step.AckFailed?
    requires p.Up? && WorkerStep(cfg, r, step, sh, p, sh', p')
    ensures step.worker < |p'.workers| == |p.workers| && p'.workers[step.worker] == Idle
    ensures m in sh.pel && !(step.AckFailed? && step.applied && m in p.workers[step.worker].batch.ids) ==>
              m in sh'.pel && sh'.pel[m] == sh.pel[m]
    ensures step.AckFailed? || !step.applied ==> sh'.target == sh.target
  {
  }

  // ----- From publication to the table

  function Team(cfg: Config): (workers: seq<Worker>)
    ensures |workers| == cfg.workerCount && forall i :: 0 <= i < |workers| ==> workers[i] == Idle
  {
    seq(cfg.workerCount, _ => Idle)
  }

  function Started(cfg: Config, reader: Reader): Replica { Up(reader, [], Team(cfg), [], [], {}) }

  function Staged(cfg: Config, message: Payload): Shared {
    JustPublished(message).(staging := TruncatedStaging(cfg, 0))
  }

  function Delivered(cfg: Config, message: Payload): Shared {
    Staged(cfg, message).(cursor := 1, owner := map[0 := 0], pel := map[0 := 0])
  }

  /** A single replica after its batch was offered and taken by its first worker. */
  function Working(cfg: Config, batch: Batch, w: Worker): Replica
    requires cfg.workerCount > 0
  {
    Up(Reading, [], Team(cfg)[0 := w], [Job(batch)], [Taken(0, Job(batch))], {})
  }

  /** The run so far ends with one replica in this state. */
  ghost predicate RunTo(cfg: Config, states: seq<State>, events: seq<Event>, sh: Shared, p: Replica) {
    IsRun(cfg, states, events) && states[|events|] == One(sh, p)
  }

  lemma Advance(cfg: Config, states: seq<State>, events: seq<Event>, step: Step, sh: Shared, p: Replica, sh': Shared,
                p': Replica)
    returns (states': seq<State>, events': seq<Event>)
    requires RunTo(cfg, states, events, sh, p) && LocalStep(cfg, 0, step, sh, p, sh', p')
    ensures RunTo(cfg, states', events', sh', p')
  {
    assert One(sh', p').replicas == One(sh, p).replicas[0 := p'];
    states', events' := Extend(cfg, states, events, Local(0, step), One(sh', p'));
  }

  lemma PublishedAndStarted(cfg: Config, message: Payload) returns (states: seq<State>, events: seq<Event>)
    requires ValidConfig(cfg)
    ensures RunTo(cfg, states, events, Staged(cfg, message), Started(cfg, Reading))
  {
    states, events := [One(Blank(), Down)], [];
    states, events := Extend(cfg, states, events, Produce(message), One(JustPublished(message), Down));
    var sh := Staged(cfg, message);
    assert JustPublished(message).staging + TruncatedStaging(cfg, 0) == TruncatedStaging(cfg, 0);
    assert PendingOf(JustPublished(message), 0) == {};
    states, events := Advance(cfg, states, events, Restart, JustPublished(message), Down, sh, Started(cfg, Draining));
    states, events := Advance(cfg, states, events, StartReading, sh, Started(cfg, Draining), sh, Started(cfg, Reading));
  }

  lemma ReadIt(cfg: Config, rows: seq<Row>, states: seq<State>, events: seq<Event>)
    returns (states': seq<State>, events': seq<Event>)
    requires ValidConfig(cfg) && RunTo(cfg, states, events, Staged(cfg, Rows(rows)), Started(cfg, Reading))
    ensures RunTo(cfg, states', events', Delivered(cfg, Rows(rows)),
                  Started(cfg, Settling([Entry(0, Rows(rows))], false)))
  {
    var sh := Staged(cfg, Rows(rows));
    assert Range(First(sh), Last(cfg, sh)) == [0];
    assert ObserveAll(sh, [0]) == [Entry(0, Rows(rows))];
    assert Deliver(cfg, sh, 0) == Delivered(cfg, Rows(rows));
    states', events' := Advance(cfg, states, events, ReadNew(false), sh, Started(cfg, Reading),
                                Delivered(cfg, Rows(rows)), Started(cfg, Settling([Entry(0, Rows(rows))], false)));
  }

  lemma SettleIt(cfg: Config, rows: seq<Row>, states: seq<State>, events: seq<Event>)
    returns (states': seq<State>, events': seq<Event>)
    requires ValidConfig(cfg)
    requires RunTo(cfg, states, events, Delivered(cfg, Rows(rows)),
                   Started(cfg, Settling([Entry(0, Rows(rows))], false)))
    ensures RunTo(cfg, states', events', Delivered(cfg, Rows(rows)),
                  Started(cfg, Offering(Batch([0], rows), false)))
  {
    var entries := [Entry(0, Rows(rows))];
    assert entries[..|entries| - 1] == [];
    assert GoodIds([]) == [] && GoodRows([]) == [] && PoisonIds([]) == [];
    assert GoodIds(entries) == [0] && GoodRows(entries) == rows && PoisonIds(entries) == [];
    var sh := Delivered(cfg, Rows(rows));
    assert Acknowledge(sh, []) == sh;
    states', events' := Advance(cfg, states, events, Settle, sh, Started(cfg, Settling(entries, false)), sh,
                                Started(cfg, Offering(Batch([0], rows), false)));
  }

  lemma OfferAndTakeIt(cfg: Config, rows: seq<Row>, states: seq<State>, events: seq<Event>)
    returns (states': seq<State>, events': seq<Event>)
    requires ValidConfig(cfg)
    requires RunTo(cfg, states, events, Delivered(cfg, Rows(rows)), Started(cfg, Offering(Batch([0], rows), false)))
    ensures RunTo(cfg, states', events', Delivered(cfg, Rows(rows)),
                  Working(cfg, Batch([0], rows), StartWriting(Batch([0], rows))))
  {
    var sh, batch := Delivered(cfg, Rows(rows)), Batch([0], rows);
    var queued := Up(Reading, [Job(batch)], Team(cfg), [Job(batch)], [], {});
    states', events' := Advance(cfg, states, events, Offer, sh, Started(cfg, Offering(batch, false)), sh, queued);
    assert queued.queue[1..] == [];
    states', events' := Advance(cfg, states', events', Take(0), sh, queued, sh,
                                Working(cfg, batch, StartWriting(batch)));
  }

  lemma {:induction false} WriteIt(cfg: Config, sh: Shared, batch: Batch, next: nat, states: seq<State>,
                                   events: seq<Event>)
    returns (states': seq<State>, events': seq<Event>)
    requires ValidConfig(cfg) && next < |batch.rows|
    requires RunTo(cfg, states, events, sh, Working(cfg, batch, Writing(batch, next)))
    ensures RunTo(cfg, states', events', WriteOut(cfg, sh, 0, 0, batch, next), Working(cfg, batch, Acking(batch)))
    decreases |batch.rows| - next
  {
    var w := Writing(batch, next);
    var end, sh' := ChunkEnd(cfg, w), CommitNext(cfg, sh, 0, 0, w);
    var after := if end < |batch.rows| then Writing(batch, end) else Acking(batch);
    assert Team(cfg)[0 := w][0 := after] == Team(cfg)[0 := after];
    states', events' := Advance(cfg, states, events, CommitChunk(0), sh, Working(cfg, batch, w), sh',
                                Working(cfg, batch, after));
    if end < |batch.rows| {
      states', events' := WriteIt(cfg, sh', batch, end, states', events');
    }
  }

  lemma AcknowledgeIt(cfg: Config, sh: Shared, batch: Batch, states: seq<State>, events: seq<Event>)
    returns (states': seq<State>, events': seq<Event>)
    requires ValidConfig(cfg) && RunTo(cfg, states, events, sh, Working(cfg, batch, Acking(batch)))
    ensures RunTo(cfg, states', events', Acknowledge(sh, batch.ids), Working(cfg, batch, Idle))
  {
    assert Team(cfg)[0 := Acking(batch)][0 := Idle] == Team(cfg)[0 := Idle];
    states', events' := Advance(cfg, states, events, AckBatch(0), sh, Working(cfg, batch, Acking(batch)),
                                Acknowledge(sh, batch.ids), Working(cfg, batch, Idle));
  }

  lemma WrittenOut(cfg: Config, rows: seq<Row>, sh: Shared)
    requires ValidConfig(cfg) && sh == WriteOut(cfg, Delivered(cfg, Rows(rows)), 0, 0, Batch([0], rows), 0)
    ensures var done := Acknowledge(sh, [0]);
            && done.log == [Rows(rows)] && done.acked == {0} && done.pel == map[]
            && done.target == InsertAll(map[], rows) && Stored(done, 0)
  {
    ChunksAreOneInsert(cfg, Delivered(cfg, Rows(rows)), 0, 0, Batch([0], rows), 0);
    assert rows[0..] == rows;
    AcknowledgeOnly(sh);
    AllKeysIn(rows);
  }

  lemma AcknowledgeOnly(sh: Shared)
    requires sh.pel == map[0 := 0] && sh.acked == {}
    ensures Acknowledge(sh, [0]) == sh.(pel := map[], acked := {0})
  {
    assert (set m | m in [0]) == {0};
  }

  lemma AllKeysIn(rows: seq<Row>)
    ensures forall row :: row in rows ==> row.key in InsertAll(map[], rows)
  {
    InsertIsFirstWins(map[], rows);
    forall row | row in rows ensures row.key in InsertAll(map[], rows) {
      var i :| 0 <= i < |rows| && rows[i] == row;
    }
  }

  /** The protocol delivers: under every configuration, for every decodable message, there is a run in which it is
      published, read, settled, offered, taken, committed chunk by chunk and acknowledged; it ends with its rows in
      the table as one insert, the message acknowledged, and nothing pending or in hand. */
  lemma EveryMessageCanBeDelivered(cfg: Config, rows: seq<Row>) returns (states: seq<State>, events: seq<Event>)
    requires ValidConfig(cfg)
    ensures IsRun(cfg, states, events)
    ensures var s := states[|events|];
            && s.shared.log == [Rows(rows)] && s.shared.acked == {0} && s.shared.pel == map[]
            && s.shared.target == InsertAll(map[], rows) && Stored(s.shared, 0)
            && 0 in s.replicas && s.replicas[0].Up? && s.replicas[0].reader == Reading && s.replicas[0].queue == []
            && s.replicas[0].workers == Team(cfg)
  {
    var batch, sh := Batch([0], rows), Delivered(cfg, Rows(rows));
    states, events := PublishedAndStarted(cfg, Rows(rows));
    states, events := ReadIt(cfg, rows, states, events);
    states, events := SettleIt(cfg, rows, states, events);
    states, events := OfferAndTakeIt(cfg, rows, states, events);
    if rows != [] {
      states, events := WriteIt(cfg, sh, batch, 0, states, events);
    }
    var written := WriteOut(cfg, sh, 0, 0, batch, 0);
    states, events := AcknowledgeIt(cfg, written, batch, states, events);
    WrittenOut(cfg, rows, written);
    assert Team(cfg)[0 := Idle] == Team(cfg);
  }
}
