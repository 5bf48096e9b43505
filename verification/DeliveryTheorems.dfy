/** What the delivery protocol guarantees in every run. */
module DeliveryTheorems {
  import opened Numbers
  import opened TargetTable
  import opened StreamEntries
  import opened DeliveryProtocol
  import opened DeliveryInvariant

  predicate Decodable(sh: Shared, m: MsgId) { m < |sh.log| && sh.log[m].Rows? }

  /** Replica `r` takes this step with an entry for `m` in hand that was read without a payload, and the entry
      is acknowledged as poison. */
  ghost predicate SettlesAbsent(p: Replica, step: Step, m: MsgId) {
    && (step == Settle || step == SettleFailed(true))
    && p.Up? && p.reader.Settling? && Entry(m, Absent) in p.reader.entries
  }

  /** The one step that loses a message: it is acknowledged, out of the pending list, as an entry that was read
      after the stream had trimmed it. */
  ghost predicate DroppedBy(s: State, e: Event, m: MsgId) {
    && e.Local? && e.replica in s.replicas && SettlesAbsent(s.replicas[e.replica], e.step, m)
    && m in s.shared.pel
  }

  /** No step before the n-th state dropped `m`. */
  ghost predicate NeverDropped(states: seq<State>, events: seq<Event>, n: nat, m: MsgId)
    requires n <= |events| <= |states|
  {
    forall k :: 0 <= k < n ==> !DroppedBy(states[k], events[k], m)
  }

  /** At no point up to the n-th state did the stream trim `m` while it was pending. */
  ghost predicate NeverTrimmedWhilePending(states: seq<State>, n: nat, m: MsgId)
    requires n < |states|
  {
    forall k :: 0 <= k <= n ==> !(m in states[k].shared.pel && m < states[k].shared.trimmedBelow)
  }

  lemma {:induction false} SettlingFindsPoison(sh: Shared, entries: seq<Entry>, m: MsgId)
    requires (forall e :: e in entries ==> EntryOk(sh, e)) && m in PoisonIds(entries) && Decodable(sh, m)
    ensures Entry(m, Absent) in entries
  {
    DecodingIsExact(entries);
    var e :| e in entries && e.id == m && !e.payload.Rows?;
    assert EntryOk(sh, e) && e == Entry(m, Absent);
  }

  lemma {:induction false} ReaderAcknowledgesPoison(cfg: Config, r: ReplicaId, step: Step, sh: Shared, p: Replica,
                                                    sh': Shared, p': Replica, m: MsgId)
    requires p.Up? && ReaderOk(cfg, sh, p.reader) && ReaderStep(cfg, r, step, sh, p, sh', p')
    requires m in sh'.acked && m !in sh.acked && Decodable(sh, m)
    ensures SettlesAbsent(p, step, m)
  {
    SettlingFindsPoison(sh, p.reader.entries, m);
  }

  lemma {:induction false} WorkerAcknowledgesStored(cfg: Config, r: ReplicaId, step: Step, sh: Shared, p: Replica,
                                                    sh': Shared, p': Replica, m: MsgId)
    requires p.Up? && (forall i :: 0 <= i < |p.workers| ==> WorkerOk(sh, p.workers[i]))
    requires WorkerStep(cfg, r, step, sh, p, sh', p') && m in sh'.acked && m !in sh.acked
    ensures Stored(sh, m)
  {
    var w := p.workers[step.worker];
    assert WorkerOk(sh, w) && m in w.batch.ids;
    forall row | row in sh.log[m].rows ensures row.key in sh.target {
      var i :| 0 <= i < |w.batch.rows| && w.batch.rows[i] == row;
    }
  }

  /** A decodable message that a step acknowledges is stored by then, or that very step drops it. */
  lemma {:induction false} AcknowledgedIsStoredOrDropped(cfg: Config, s: State, e: Event, s': State, m: MsgId)
    requires Inv(cfg, s) && Inv(cfg, s') && NextBy(cfg, s, e, s')
    requires m in s'.shared.acked && m !in s.shared.acked && Decodable(s'.shared, m)
    ensures Stored(s.shared, m) || DroppedBy(s, e, m)
  {
    var r, sh, sh' := e.replica, s.shared, s'.shared;
    var p, p' := s.replicas[r], s'.replicas[r];
    assert ReplicaInv(cfg, r, sh, p) && LocalStep(cfg, r, e.step, sh, p, sh', p');
    AcknowledgingStep(cfg, r, e.step, sh, p, sh', p', m);
    if ReaderStep(cfg, r, e.step, sh, p, sh', p') {
      ReaderAcknowledgesPoison(cfg, r, e.step, sh, p, sh', p', m);
    } else {
      WorkerAcknowledgesStored(cfg, r, e.step, sh, p, sh', p', m);
    }
  }

  /** A step that acknowledges is one of a running replica, on a message that was pending, and neither trims nor
      publishes. */
  lemma {:induction false} AcknowledgingStep(cfg: Config, r: ReplicaId, step: Step, sh: Shared, p: Replica,
                                             sh': Shared, p': Replica, m: MsgId)
    requires LedgerOk(sh) && LedgerOk(sh') && LocalStep(cfg, r, step, sh, p, sh', p')
    requires m in sh'.acked && m !in sh.acked
    ensures p.Up? && (ReaderStep(cfg, r, step, sh, p, sh', p') || WorkerStep(cfg, r, step, sh, p, sh', p'))
    ensures m in sh.pel && sh'.log == sh.log
  {
  }

  /** Acknowledged and decodable means stored. */
  ghost predicate NotLost(sh: Shared, m: MsgId) {
    m in sh.acked && Decodable(sh, m) ==> Stored(sh, m)
  }

  lemma {:induction false} GrowthKeepsNotLost(sh: Shared, sh': Shared, m: MsgId)
    requires LedgerOk(sh) && Grows(sh, sh') && NotLost(sh, m) && m in sh.acked
    ensures NotLost(sh', m)
  {
    assert m in sh.owner && sh.log[m] == sh'.log[m];
  }

  lemma {:induction false} StepLosesOnlyDropped(cfg: Config, s: State, e: Event, s': State, m: MsgId)
    requires Inv(cfg, s) && Inv(cfg, s') && NextBy(cfg, s, e, s') && Grows(s.shared, s'.shared)
    requires NotLost(s.shared, m) && !DroppedBy(s, e, m)
    ensures NotLost(s'.shared, m)
  {
    if m in s.shared.acked {
      GrowthKeepsNotLost(s.shared, s'.shared, m);
    } else if m in s'.shared.acked && Decodable(s'.shared, m) {
      AcknowledgedIsStoredOrDropped(cfg, s, e, s', m);
    }
  }

  lemma {:induction false} RunLosesOnlyDropped(cfg: Config, states: seq<State>, events: seq<Event>, n: nat, m: MsgId)
    requires ValidConfig(cfg) && IsRun(cfg, states, events) && n < |events|
    requires NotLost(states[n].shared, m) && !DroppedBy(states[n], events[n], m)
    ensures NotLost(states[n + 1].shared, m)
  {
    assert NextBy(cfg, states[n], events[n], states[n + 1]);
    RunKeepsInv(cfg, states, events, n);
    StepIsSafe(cfg, states[n], events[n], states[n + 1]);
    StepLosesOnlyDropped(cfg, states[n], events[n], states[n + 1], m);
  }

  /** No acknowledged message is lost but those dropped as read after their trimming: every other decodable
      message has all its rows stored as soon as it is acknowledged, and keeps them, whenever it is trimmed. */
  lemma {:induction false} AckedMessagesAreStored(cfg: Config, states: seq<State>, events: seq<Event>, n: nat, m: MsgId)
    requires ValidConfig(cfg) && IsRun(cfg, states, events) && n < |states| && NeverDropped(states, events, n, m)
    ensures m in states[n].shared.acked && Decodable(states[n].shared, m) ==> Stored(states[n].shared, m)
    decreases n
  {
    if n > 0 {
      AckedMessagesAreStored(cfg, states, events, n - 1, m);
      assert !DroppedBy(states[n - 1], events[n - 1], m);
      RunLosesOnlyDropped(cfg, states, events, n - 1, m);
    }
  }

  lemma {:induction false} DroppedIsTrimmed(cfg: Config, s: State, e: Event, m: MsgId)
    requires Inv(cfg, s) && DroppedBy(s, e, m) && Decodable(s.shared, m)
    ensures m in s.shared.pel && m < s.shared.trimmedBelow
  {
    assert ReplicaInv(cfg, e.replica, s.shared, s.replicas[e.replica]);
    assert EntryOk(s.shared, Entry(m, Absent));
  }

  lemma {:induction false} DroppedIsPublished(cfg: Config, s: State, e: Event, sh': Shared, m: MsgId)
    requires Inv(cfg, s) && DroppedBy(s, e, m) && Grows(s.shared, sh') && Decodable(sh', m)
    ensures Decodable(s.shared, m)
  {
    assert m in s.shared.owner && s.shared.log[m] == sh'.log[m];
  }

  /** In particular, a message that is never trimmed while it is pending is never dropped. */
  lemma {:induction false} UntrimmedIsNeverDropped(cfg: Config, states: seq<State>, events: seq<Event>, n: nat,
                                                   m: MsgId)
    requires ValidConfig(cfg) && IsRun(cfg, states, events) && n < |states|
    requires NeverTrimmedWhilePending(states, n, m) && Decodable(states[n].shared, m)
    ensures NeverDropped(states, events, n, m)
  {
    forall k | 0 <= k < n ensures !DroppedBy(states[k], events[k], m) {
      RunKeepsInv(cfg, states, events, k);
      StoredRowsNeverChange(cfg, states, events, k, n);
      if DroppedBy(states[k], events[k], m) {
        DroppedIsPublished(cfg, states[k], events[k], states[n].shared, m);
        DroppedIsTrimmed(cfg, states[k], events[k], m);
        assert false;
      }
    }
  }

  /** Conservation: a published message is not read yet, pending with exactly the consumer it was delivered
      to, acknowledged, or was trimmed before any consumer read it. Never two of the first three. */
  lemma MessagesAreAccountedFor(cfg: Config, states: seq<State>, events: seq<Event>, n: nat, m: MsgId)
    requires ValidConfig(cfg) && IsRun(cfg, states, events) && n < |states| && m < |states[n].shared.log|
    ensures var sh := states[n].shared;
            && !(m in sh.pel && m in sh.acked)
            && (m in sh.pel || m in sh.acked <==> m in sh.owner)
            && (m in sh.pel ==> sh.pel[m] == sh.owner[m])
            && (m in sh.owner ==> m < sh.cursor)
            && (m in sh.owner || m >= sh.cursor || m < sh.trimmedBelow)
  {
    RunKeepsInv(cfg, states, events, n);
  }

  /** From any point of a run to any later one, nothing stored is removed or overwritten. */
  lemma {:induction false} StoredRowsNeverChange(cfg: Config, states: seq<State>, events: seq<Event>, i: nat, j: nat)
    requires ValidConfig(cfg) && IsRun(cfg, states, events) && i <= j < |states|
    ensures Grows(states[i].shared, states[j].shared)
    decreases j - i
  {
    if i < j {
      StoredRowsNeverChange(cfg, states, events, i, j - 1);
      RunStepGrows(cfg, states, events, j - 1);
      GrowthIsTransitive(states[i].shared, states[j - 1].shared, states[j].shared);
    }
  }

  lemma RunStepGrows(cfg: Config, states: seq<State>, events: seq<Event>, n: nat)
    requires ValidConfig(cfg) && IsRun(cfg, states, events) && n < |events|
    ensures Grows(states[n].shared, states[n + 1].shared)
  {
    RunKeepsInv(cfg, states, events, n);
    assert NextBy(cfg, states[n], events[n], states[n + 1]);
    StepIsSafe(cfg, states[n], events[n], states[n + 1]);
  }

  lemma GrowthIsTransitive(a: Shared, b: Shared, c: Shared)
    requires Grows(a, b) && Grows(b, c)
    ensures Grows(a, c)
  {
  }

  /** Published rows with equal keys are equal: what the producer must guarantee for exactly-once content. */
  ghost predicate KeysDetermineRows(log: seq<Payload>) {
    forall m1, m2, r1, r2 ::
      (0 <= m1 < |log| && 0 <= m2 < |log| && log[m1].Rows? && log[m2].Rows?
       && r1 in log[m1].rows && r2 in log[m2].rows && r1.key == r2.key) ==> r1 == r2
  }

  /** Effectively once: despite redelivery every stored row was delivered, and every acknowledged message that was
      not dropped has all its rows stored as they were published. */
  lemma {:induction false} TableIsBetweenAckedAndDelivered(cfg: Config, states: seq<State>, events: seq<Event>, n: nat)
    requires ValidConfig(cfg) && IsRun(cfg, states, events) && n < |states|
    ensures var sh := states[n].shared;
            forall k :: k in sh.target ==> sh.target[k].key == k && FromDelivered(sh, sh.target[k])
    ensures var sh := states[n].shared;
            KeysDetermineRows(sh.log) ==>
              forall m, row :: m in sh.acked && NeverDropped(states, events, n, m) && m < |sh.log|
                               && sh.log[m].Rows? && row in sh.log[m].rows ==>
                               row.key in sh.target && sh.target[row.key] == row
  {
    RunKeepsInv(cfg, states, events, n);
    var sh := states[n].shared;
    if KeysDetermineRows(sh.log) {
      forall m, row | m in sh.acked && NeverDropped(states, events, n, m) && m < |sh.log|
                      && sh.log[m].Rows? && row in sh.log[m].rows
        ensures row.key in sh.target && sh.target[row.key] == row
      {
        AckedMessagesAreStored(cfg, states, events, n, m);
        assert FromDelivered(sh, sh.target[row.key]);
      }
    }
  }

  /** All remaining chunks of a batch, committed one after another by worker `i` of replica `r`. */
  function WriteOut(cfg: Config, sh: Shared, r: ReplicaId, i: nat, batch: Batch, next: nat): Shared
    requires cfg.rowsPerFlush > 0 && next <= |batch.rows|
    decreases |batch.rows| - next
  {
    if next == |batch.rows| then sh
    else
      var w := Writing(batch, next);
      WriteOut(cfg, CommitNext(cfg, sh, r, i, w), r, i, batch, ChunkEnd(cfg, w))
  }

  /** Chunking is invisible: whatever staging held, the chunks amount to one in-order first-wins insert. */
  lemma {:induction false} ChunksAreOneInsert(cfg: Config, sh: Shared, r: ReplicaId, i: nat, batch: Batch, next: nat)
    requires cfg.rowsPerFlush > 0 && next <= |batch.rows|
    ensures var sh' := WriteOut(cfg, sh, r, i, batch, next);
            sh' == sh.(staging := sh'.staging, target := InsertAll(sh.target, batch.rows[next..]))
    decreases |batch.rows| - next
  {
    if next < |batch.rows| {
      var w := Writing(batch, next);
      var end := ChunkEnd(cfg, w);
      ChunksAreOneInsert(cfg, CommitNext(cfg, sh, r, i, w), r, i, batch, end);
      InsertConcat(sh.target, batch.rows[next..end], batch.rows[end..]);
      assert batch.rows[next..end] + batch.rows[end..] == batch.rows[next..];
    }
  }

  /** The first k chunks of a batch, committed one after another. */
  function AfterChunks(cfg: Config, sh: Shared, r: ReplicaId, i: nat, batch: Batch, k: nat): Shared
    requires cfg.rowsPerFlush > 0
  {
    if k == 0 then sh
    else CommitNext(cfg, AfterChunks(cfg, sh, r, i, batch, k - 1), r, i,
                    Writing(batch, MinInt((k - 1) * cfg.rowsPerFlush, |batch.rows|)))
  }

  lemma {:induction false} NextChunkExtends(cfg: Config, sh: Shared, target: Table, r: ReplicaId, i: nat, batch: Batch,
                                            next: nat, end: nat)
    requires next <= end <= |batch.rows| && end == ChunkEnd(cfg, Writing(batch, next))
    requires sh.target == InsertAll(target, batch.rows[..next])
    ensures CommitNext(cfg, sh, r, i, Writing(batch, next)).target == InsertAll(target, batch.rows[..end])
  {
    InsertConcat(target, batch.rows[..next], batch.rows[next..end]);
    assert batch.rows[..next] + batch.rows[next..end] == batch.rows[..end];
  }

  /** The protocol's chunks and the writer's loop do the same: after k chunks the table is the one
      `Session.WriteBatch` promises for a budget of k transactions. */
  lemma {:induction false} ChunksMatchTheWriter(cfg: Config, sh: Shared, r: ReplicaId, i: nat, batch: Batch, k: nat)
    requires cfg.rowsPerFlush > 0
    ensures 0 <= MinInt(k * cfg.rowsPerFlush, |batch.rows|) <= |batch.rows|
    ensures var sh' := AfterChunks(cfg, sh, r, i, batch, k);
            sh' == sh.(staging := sh'.staging,
                       target := InsertAll(sh.target, batch.rows[..MinInt(k * cfg.rowsPerFlush, |batch.rows|)]))
    decreases k
  {
    if k > 0 {
      ChunksMatchTheWriter(cfg, sh, r, i, batch, k - 1);
      assert k * cfg.rowsPerFlush == (k - 1) * cfg.rowsPerFlush + cfg.rowsPerFlush;
      NextChunkExtends(cfg, AfterChunks(cfg, sh, r, i, batch, k - 1), sh.target, r, i, batch,
                       MinInt((k - 1) * cfg.rowsPerFlush, |batch.rows|), MinInt(k * cfg.rowsPerFlush, |batch.rows|));
    } else {
      assert batch.rows[..0] == [];
    }
  }

  // ----- Restart

  /** Replica `r` keeps running, without a crash or an exit, from state i to state j. */
  ghost predicate SameIncarnation(r: ReplicaId, states: seq<State>, i: nat, j: nat)
    requires i <= j < |states|
  {
    forall n :: i <= n <= j ==> r in states[n].replicas && states[n].replicas[r].Up?
  }

  lemma {:induction false} LeftPendingIsFixed(cfg: Config, states: seq<State>, events: seq<Event>, r: ReplicaId,
                                              i: nat, j: nat)
    requires IsRun(cfg, states, events) && i <= j < |states| && SameIncarnation(r, states, i, j)
    ensures states[j].replicas[r].leftPending == states[i].replicas[r].leftPending
    decreases j - i
  {
    if i < j {
      LeftPendingIsFixed(cfg, states, events, r, i, j - 1);
      assert NextBy(cfg, states[j - 1], events[j - 1], states[j - 1 + 1]);
      assert states[j - 1].replicas[r].Up?;
      if events[j - 1].Local? && events[j - 1].replica == r {
        LocalStepKeepsLeftPending(cfg, r, events[j - 1].step, states[j - 1].shared, states[j - 1].replicas[r],
                                  states[j].shared, states[j].replicas[r]);
      }
    }
  }

  lemma LocalStepKeepsLeftPending(cfg: Config, r: ReplicaId, step: Step, sh: Shared, p: Replica, sh': Shared,
                                  p': Replica)
    requires p.Up? && p'.Up? && LocalStep(cfg, r, step, sh, p, sh', p')
    ensures p'.leftPending == p.leftPending
  {
  }

  /** Recovery barrier: by the time a restarted reader asks for new messages, every message that was pending
      for it at restart is acknowledged, and stored unless it cannot be decoded or was dropped. */
  lemma RecoveryBarrier(cfg: Config, states: seq<State>, events: seq<Event>, r: ReplicaId, i: nat, j: nat, m: MsgId)
    requires ValidConfig(cfg) && IsRun(cfg, states, events) && i < j < |events|
    requires events[i] == Local(r, Restart) && SameIncarnation(r, states, i + 1, j)
    requires events[j].Local? && events[j].replica == r && events[j].step.ReadNew?
    requires m in states[i].shared.pel && states[i].shared.pel[m] == r
    ensures var sh := states[j].shared;
            && m in sh.acked && m !in sh.pel
            && (NeverDropped(states, events, j, m) && Decodable(sh, m) ==> Stored(sh, m))
  {
    assert NextBy(cfg, states[i], events[i], states[i + 1]);
    assert m in states[i + 1].replicas[r].leftPending;
    LeftPendingIsFixed(cfg, states, events, r, i + 1, j);
    RunKeepsInv(cfg, states, events, j);
    assert NextBy(cfg, states[j], events[j], states[j + 1]);
    assert PastDrain(states[j].replicas[r].reader);
    if NeverDropped(states, events, j, m) {
      AckedMessagesAreStored(cfg, states, events, j, m);
    }
  }

  // ----- Shutdown

  lemma {:induction false} SentinelsConcat(a: seq<Item>, b: seq<Item>)
    ensures Sentinels(a + b) == Sentinels(a) + Sentinels(b)
    decreases |b|
  {
    if b == [] {
      assert a + b == a;
    } else {
      assert (a + b)[..|a + b| - 1] == a + b[..|b| - 1];
      SentinelsConcat(a, b[..|b| - 1]);
    }
  }

  lemma {:induction false} CountBelow(n: nat, s: set<nat>)
    requires forall i: nat :: i in s <==> i < n
    ensures |s| == n
  {
    if n > 0 {
      CountBelow(n - 1, s - {n - 1});
    }
  }

  /** The queue never holds more than its bound, and comes out in the order it went in. */
  lemma QueueIsBoundedFifo(cfg: Config, states: seq<State>, events: seq<Event>, n: nat, r: ReplicaId)
    requires ValidConfig(cfg) && IsRun(cfg, states, events) && n < |states|
    requires r in states[n].replicas && states[n].replicas[r].Up?
    ensures var p := states[n].replicas[r];
            && (cfg.queueMax > 0 ==> |p.queue| <= cfg.queueMax)
            && Items(p.takenLog) + p.queue == p.putLog
  {
    RunKeepsInv(cfg, states, events, n);
  }

  lemma SentinelReachesTail(a: seq<Item>, b: seq<Item>)
    requires SentinelsLast(a + b) && Sentinel in a && b != []
    ensures Sentinel in b
  {
    var i :| 0 <= i < |a| && a[i] == Sentinel;
    assert (a + b)[i] == Sentinel && (a + b)[|a|] == b[0];
  }

  /** Graceful shutdown: once every worker has exited, the reader has closed, the queue is empty, what was
      taken is exactly what was put, in order, and each worker took exactly one sentinel. */
  lemma ShutdownLosesNoBatch(cfg: Config, states: seq<State>, events: seq<Event>, n: nat, r: ReplicaId)
    requires ValidConfig(cfg) && IsRun(cfg, states, events) && n < |states|
    requires r in states[n].replicas && AllExited(states[n].replicas[r])
    ensures var p := states[n].replicas[r];
            && p.reader == Closing(0)
            && p.queue == []
            && Items(p.takenLog) == p.putLog
            && forall i :: 0 <= i < cfg.workerCount ==> SentinelsOf(p.takenLog, i) == 1
  {
    RunKeepsInv(cfg, states, events, n);
    var p := states[n].replicas[r];
    assert QueueOk(cfg, p);
    CountBelow(|p.workers|, Exits(p.workers));
    var items := Items(p.takenLog);
    if Sentinel in items && p.queue != [] {
      SentinelReachesTail(items, p.queue);
    }
    SentinelsConcat(items, p.queue);
    NoSentinels(items);
    NoSentinels(p.queue);
    NoSentinels(p.putLog);
    assert items + [] == items;
  }

  // ----- What trimming costs

  /** Settling acknowledges every entry that was read without a payload, and stores nothing. */
  lemma {:induction false} AbsentEntryIsAcknowledged(cfg: Config, r: ReplicaId, step: Step, sh: Shared, p: Replica,
                                                     sh': Shared, p': Replica, m: MsgId)
    requires p.Up? && ReaderStep(cfg, r, step, sh, p, sh', p') && SettlesAbsent(p, step, m)
    ensures m in sh'.acked && m !in sh'.pel && sh'.target == sh.target
  {
    DecodingIsExact(p.reader.entries);
    assert Entry(m, Absent).id == m;
  }

  ghost predicate Free(rows: seq<Row>, key: Key) { forall row :: row in rows ==> row.key != key }

  /** A replica holds no row with this key, whether read, queued or being written. */
  ghost predicate HoldsNone(p: Replica, key: Key) {
    p.Up? ==>
      && (p.reader.Settling? ==> forall e :: e in p.reader.entries && e.payload.Rows? ==> Free(e.payload.rows, key))
      && (p.reader.Offering? ==> Free(p.reader.batch.rows, key))
      && (forall item :: item in p.queue && item.Job? ==> Free(item.batch.rows, key))
      && (forall i :: 0 <= i < |p.workers| && (p.workers[i].Writing? || p.workers[i].Acking?) ==>
            Free(p.workers[i].batch.rows, key))
  }

  /** Only message `m` carries this key. */
  ghost predicate OnlyIn(log: seq<Payload>, m: MsgId, key: Key) {
    forall k :: 0 <= k < |log| && k != m && log[k].Rows? ==> Free(log[k].rows, key)
  }

  /** Acknowledged, not stored, and nowhere in memory. */
  ghost predicate Gone(s: State, m: MsgId, key: Key) {
    && m in s.shared.acked && key !in s.shared.target
    && forall r :: r in s.replicas ==> HoldsNone(s.replicas[r], key)
  }

  lemma {:induction false} ReaderFindsNone(cfg: Config, r: ReplicaId, step: Step, sh: Shared, p: Replica, sh': Shared,
                                           p': Replica, m: MsgId, key: Key)
    requires ValidConfig(cfg) && LedgerOk(sh) && m in sh.acked && OnlyIn(sh.log, m, key)
    requires p.Up? && HoldsNone(p, key) && ReaderStep(cfg, r, step, sh, p, sh', p')
    ensures HoldsNone(p', key) && sh'.target == sh.target
  {
    if step.Settle? {
      DecodingIsExact(p.reader.entries);
    } else if step.DrainRead? {
      forall e | e in p'.reader.entries && e.payload.Rows? ensures Free(e.payload.rows, key) {
        var i :| 0 <= i < |step.ids| && e == Observed(sh, step.ids[i]);
        assert step.ids[i] in sh.pel;
      }
    } else if step.ReadNew? && !step.replyLost {
      var ids := Range(First(sh), Last(cfg, sh));
      forall e | e in p'.reader.entries && e.payload.Rows? ensures Free(e.payload.rows, key) {
        var i :| 0 <= i < |ids| && e == Observed(sh, ids[i]);
        assert m < sh.cursor <= ids[i];
      }
    }
  }

  lemma {:induction false} InsertAddsNone(table: Table, rows: seq<Row>, key: Key)
    requires key !in table && Free(rows, key)
    ensures key !in InsertAll(table, rows)
  {
    InsertIsFirstWins(table, rows);
    forall i | 0 <= i < |rows| ensures rows[i].key != key {
      assert rows[i] in rows;
    }
  }

  lemma {:induction false} WorkerStoresNone(cfg: Config, r: ReplicaId, step: Step, sh: Shared, p: Replica, sh': Shared,
                                            p': Replica, key: Key)
    requires p.Up? && HoldsNone(p, key) && key !in sh.target && WorkerStep(cfg, r, step, sh, p, sh', p')
    ensures HoldsNone(p', key) && key !in sh'.target
  {
    if step.Take? {
      assert p.queue[0] in p.queue;
    } else if step.CommitChunk? || step.CommitFailed? {
      var w := p.workers[step.worker];
      if w.next <= ChunkEnd(cfg, w) {
        InsertAddsNone(sh.target, w.batch.rows[w.next..ChunkEnd(cfg, w)], key);
      } else {
        InsertAddsNone(sh.target, [], key);
      }
    }
  }

  lemma {:induction false} LocalStepFindsNone(cfg: Config, r: ReplicaId, step: Step, sh: Shared, p: Replica,
                                              sh': Shared, p': Replica, m: MsgId, key: Key)
    requires ValidConfig(cfg) && LedgerOk(sh) && m in sh.acked && OnlyIn(sh.log, m, key)
    requires HoldsNone(p, key) && key !in sh.target && LocalStep(cfg, r, step, sh, p, sh', p')
    ensures HoldsNone(p', key) && key !in sh'.target
  {
    if p.Up? && p'.Up? {
      if ReaderStep(cfg, r, step, sh, p, sh', p') {
        ReaderFindsNone(cfg, r, step, sh, p, sh', p', m, key);
      } else {
        WorkerStoresNone(cfg, r, step, sh, p, sh', p', key);
      }
    }
  }

  lemma {:induction false} GoneStaysGone(cfg: Config, s: State, e: Event, s': State, m: MsgId, key: Key)
    requires ValidConfig(cfg) && LedgerOk(s.shared) && NextBy(cfg, s, e, s') && s.shared.acked <= s'.shared.acked
    requires Gone(s, m, key) && OnlyIn(s.shared.log, m, key)
    ensures Gone(s', m, key)
  {
    if e.Local? {
      LocalStepFindsNone(cfg, e.replica, e.step, s.shared, s.replicas[e.replica], s'.shared, s'.replicas[e.replica], m,
                         key);
    }
  }

  /** What is gone is gone for good: a key of an acknowledged message that is neither stored nor in any
      replica's memory, and that no other message carries, is never stored in any continuation of the run. */
  lemma {:induction false} GoneForGood(cfg: Config, states: seq<State>, events: seq<Event>, k: nat, n: nat, m: MsgId,
                                       key: Key)
    requires ValidConfig(cfg) && IsRun(cfg, states, events) && k <= n < |states|
    requires Gone(states[k], m, key) && OnlyIn(states[n].shared.log, m, key)
    ensures Gone(states[n], m, key)
    decreases n - k
  {
    if k < n {
      RunStepGrows(cfg, states, events, n - 1);
      assert OnlyIn(states[n - 1].shared.log, m, key);
      GoneForGood(cfg, states, events, k, n - 1, m, key);
      RunKeepsInv(cfg, states, events, n - 1);
      assert NextBy(cfg, states[n - 1], events[n - 1], states[n - 1 + 1]);
      GoneStaysGone(cfg, states[n - 1], events[n - 1], states[n], m, key);
    }
  }

  /** So a dropped message is lost: once an entry read without its payload is settled, a key of the message that
      is not stored, not in memory and in no other message is never stored. */
  lemma {:induction false} DroppedMessageIsLost(cfg: Config, states: seq<State>, events: seq<Event>, k: nat, n: nat,
                                                r: ReplicaId, m: MsgId, key: Key)
    requires ValidConfig(cfg) && IsRun(cfg, states, events) && k < n < |states|
    requires events[k].Local? && events[k].replica == r && r in states[k].replicas
    requires SettlesAbsent(states[k].replicas[r], events[k].step, m)
    requires key !in states[k].shared.target && OnlyIn(states[n].shared.log, m, key)
    requires forall q :: q in states[k].replicas ==> HoldsNone(states[k].replicas[q], key)
    ensures m in states[k + 1].shared.acked && key !in states[n].shared.target
  {
    var s, s', step := states[k], states[k + 1], events[k].step;
    assert NextBy(cfg, s, events[k], s');
    AbsentEntryIsAcknowledged(cfg, r, step, s.shared, s.replicas[r], s'.shared, s'.replicas[r], m);
    SettlingHoldsNone(cfg, r, step, s.shared, s.replicas[r], s'.shared, s'.replicas[r], key);
    assert Gone(s', m, key);
    GoneForGood(cfg, states, events, k + 1, n, m, key);
  }

  lemma {:induction false} SettlingHoldsNone(cfg: Config, r: ReplicaId, step: Step, sh: Shared, p: Replica,
                                             sh': Shared, p': Replica, key: Key)
    requires p.Up? && p.reader.Settling? && HoldsNone(p, key) && ReaderStep(cfg, r, step, sh, p, sh', p')
    ensures HoldsNone(p', key)
  {
    DecodingIsExact(p.reader.entries);
  }

  /** Every step that drops the message finds the key neither stored nor in memory. */
  ghost predicate DropsFindNoCopy(states: seq<State>, events: seq<Event>, n: nat, m: MsgId, key: Key)
    requires n <= |events| <= |states|
  {
    forall k :: 0 <= k < n && DroppedBy(states[k], events[k], m) ==>
      && key !in states[k].shared.target
      && forall q :: q in states[k].replicas ==> HoldsNone(states[k].replicas[q], key)
  }

  /** Both halves together: a key that only this acknowledged message carries is stored exactly when the message
      was never dropped, unless a copy of the batch was about when it was. */
  lemma {:induction false} KeyIsStoredIffNeverDropped(cfg: Config, states: seq<State>, events: seq<Event>, n: nat,
                                                      m: MsgId, row: Row)
    requires ValidConfig(cfg) && IsRun(cfg, states, events) && n < |states|
    requires m in states[n].shared.acked && Decodable(states[n].shared, m) && row in states[n].shared.log[m].rows
    requires OnlyIn(states[n].shared.log, m, row.key) && DropsFindNoCopy(states, events, n, m, row.key)
    ensures row.key in states[n].shared.target <==> NeverDropped(states, events, n, m)
  {
    if NeverDropped(states, events, n, m) {
      AckedMessagesAreStored(cfg, states, events, n, m);
    } else {
      var k: nat :| k < n && DroppedBy(states[k], events[k], m);
      DroppedMessageIsLost(cfg, states, events, k, n, events[k].replica, m, row.key);
    }
  }

  const DROP_CONFIG := Config(50, 5000, 4, 1)

  function Running(reader: Reader, left: set<MsgId>): Replica { Up(reader, [], [Idle], [], [], left) }

  function Blank(): Shared { Shared([], 0, 0, map[], map[], {}, map[], map[]) }

  function JustPublished(message: Payload): Shared { Blank().(log := [message]) }

  function JustStaged(message: Payload): Shared { JustPublished(message).(staging := map[(0, 0) := []]) }

  function JustDelivered(message: Payload): Shared {
    JustStaged(message).(cursor := 1, owner := map[0 := 0], pel := map[0 := 0])
  }

  function JustTrimmed(message: Payload): Shared { JustDelivered(message).(trimmedBelow := 1) }

  function Dropped(message: Payload): Shared { JustTrimmed(message).(pel := map[], acked := {0}) }

  function One(sh: Shared, p: Replica): State { State(sh, map[0 := p]) }

  lemma Extend(cfg: Config, states: seq<State>, events: seq<Event>, e: Event, s': State)
    returns (states': seq<State>, events': seq<Event>)
    requires IsRun(cfg, states, events) && NextBy(cfg, states[|events|], e, s')
    ensures IsRun(cfg, states', events') && states'[|events'|] == s'
  {
    states', events' := states + [s'], events + [e];
  }

  lemma OneReplicaStep(step: Step, sh: Shared, p: Replica, sh': Shared, p': Replica)
    requires LocalStep(DROP_CONFIG, 0, step, sh, p, sh', p')
    ensures NextBy(DROP_CONFIG, One(sh, p), Local(0, step), One(sh', p'))
  {
    assert One(sh', p').replicas == One(sh, p).replicas[0 := p'];
  }

  lemma DropRestarts(sh: Shared, left: set<MsgId>)
    requires PendingOf(sh, 0) == left && sh.staging.Keys <= {(0, 0)}
    ensures LocalStep(DROP_CONFIG, 0, Restart, sh, Down, sh.(staging := map[(0, 0) := []]), Running(Draining, left))
  {
    assert TruncatedStaging(DROP_CONFIG, 0) == map[(0, 0) := []];
    assert sh.staging + map[(0, 0) := []] == map[(0, 0) := []];
    assert seq(DROP_CONFIG.workerCount, _ => Idle) == [Idle];
  }

  lemma DropReads(message: Payload)
    ensures LocalStep(DROP_CONFIG, 0, ReadNew(false), JustStaged(message), Running(Reading, {}),
                      JustDelivered(message), Running(Settling([Entry(0, message)], false), {}))
  {
    var sh := JustStaged(message);
    assert Range(First(sh), Last(DROP_CONFIG, sh)) == [0];
    assert ObserveAll(sh, [0]) == [Entry(0, message)];
    assert Deliver(DROP_CONFIG, sh, 0) == JustDelivered(message);
  }

  lemma DropCrashes(message: Payload)
    ensures LocalStep(DROP_CONFIG, 0, Crash(map[]), JustDelivered(message),
                      Running(Settling([Entry(0, message)], false), {}), JustDelivered(message), Down)
  {
    assert JustDelivered(message).staging + map[] == JustDelivered(message).staging;
  }

  lemma DropRereads(message: Payload)
    ensures LocalStep(DROP_CONFIG, 0, DrainRead([0]), JustTrimmed(message), Running(Draining, {0}),
                      JustTrimmed(message), Running(Settling([Entry(0, Absent)], true), {0}))
  {
    assert ObserveAll(JustTrimmed(message), [0]) == [Entry(0, Absent)];
  }

  lemma DropSettles(message: Payload)
    ensures LocalStep(DROP_CONFIG, 0, Settle, JustTrimmed(message),
                      Running(Settling([Entry(0, Absent)], true), {0}), Dropped(message), Running(Draining, {0}))
  {
    assert PoisonIds([Entry(0, Absent)]) == [0] && GoodIds([Entry(0, Absent)]) == [];
    assert Acknowledge(JustTrimmed(message), [0]) == Dropped(message);
  }

  lemma ReadThenCrash(message: Payload) returns (states: seq<State>, events: seq<Event>)
    ensures IsRun(DROP_CONFIG, states, events) && states[|events|] == One(JustDelivered(message), Down)
  {
    states, events := [One(Blank(), Down)], [];
    states, events := Extend(DROP_CONFIG, states, events, Produce(message), One(JustPublished(message), Down));
    DropRestarts(JustPublished(message), {});
    OneReplicaStep(Restart, JustPublished(message), Down, JustStaged(message), Running(Draining, {}));
    states, events := Extend(DROP_CONFIG, states, events, Local(0, Restart),
                             One(JustStaged(message), Running(Draining, {})));
    OneReplicaStep(StartReading, JustStaged(message), Running(Draining, {}), JustStaged(message), Running(Reading, {}));
    states, events := Extend(DROP_CONFIG, states, events, Local(0, StartReading),
                             One(JustStaged(message), Running(Reading, {})));
    DropReads(message);
    OneReplicaStep(ReadNew(false), JustStaged(message), Running(Reading, {}),
                   JustDelivered(message), Running(Settling([Entry(0, message)], false), {}));
    states, events := Extend(DROP_CONFIG, states, events, Local(0, ReadNew(false)),
                             One(JustDelivered(message), Running(Settling([Entry(0, message)], false), {})));
    DropCrashes(message);
    OneReplicaStep(Crash(map[]), JustDelivered(message), Running(Settling([Entry(0, message)], false), {}),
                   JustDelivered(message), Down);
    states, events := Extend(DROP_CONFIG, states, events, Local(0, Crash(map[])), One(JustDelivered(message), Down));
  }

  /** The stream is capped, and the cap is the one way to lose rows. The case occurs: a decodable message that
      is read by a replica which crashes, and trimmed while pending, is acknowledged after the restart unstored. */
  lemma TrimmedPendingMessageIsDropped(key: Key, data: Data) returns (states: seq<State>, events: seq<Event>)
    ensures ValidConfig(DROP_CONFIG) && IsRun(DROP_CONFIG, states, events)
    ensures var sh := states[|events|].shared;
            sh.log == [Rows([Row(key, data)])] && 0 in sh.acked && key !in sh.target
  {
    var message := Rows([Row(key, data)]);
    states, events := ReadThenCrash(message);
    states, events := Extend(DROP_CONFIG, states, events, Trim(1), One(JustTrimmed(message), Down));
    assert PendingOf(JustTrimmed(message), 0) == {0};
    DropRestarts(JustTrimmed(message), {0});
    OneReplicaStep(Restart, JustTrimmed(message), Down, JustTrimmed(message), Running(Draining, {0}));
    states, events := Extend(DROP_CONFIG, states, events, Local(0, Restart),
                             One(JustTrimmed(message), Running(Draining, {0})));
    DropRereads(message);
    OneReplicaStep(DrainRead([0]), JustTrimmed(message), Running(Draining, {0}),
                   JustTrimmed(message), Running(Settling([Entry(0, Absent)], true), {0}));
    states, events := Extend(DROP_CONFIG, states, events, Local(0, DrainRead([0])),
                             One(JustTrimmed(message), Running(Settling([Entry(0, Absent)], true), {0})));
    DropSettles(message);
    OneReplicaStep(Settle, JustTrimmed(message), Running(Settling([Entry(0, Absent)], true), {0}),
                   Dropped(message), Running(Draining, {0}));
    states, events := Extend(DROP_CONFIG, states, events, Local(0, Settle),
                             One(Dropped(message), Running(Draining, {0})));
  }
}
