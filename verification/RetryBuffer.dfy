/** Telemetry delivery of the simulator: batched posts, and a bounded buffer of readings to retry. */
module RetryBuffer {
  import opened Counting
  import opened Numbers

  type Reading(==)

  /** What a post comes to: a response, None, or an exception. */
  datatype PostResult = Delivered | Refused | Raised

  /** The retry buffer and the history of everything that passed it. `failed` logs the readings whose first
      post failed; `dropped` those pushed out by newer ones, `lost` those in hand when a resend raised. */
  datatype Outbox = Outbox(buffer: seq<Reading>, generated: seq<Reading>, sent: seq<Reading>, failed: seq<Reading>,
                           dropped: seq<Reading>, lost: seq<Reading>, errors: nat)

  function Empty(): Outbox { Outbox([], [], [], [], [], [], 0) }

  // ----- The bounded deque

  /** `append` on a deque of bounded length: the oldest element makes room. */
  function Append(o: Outbox, r: Reading, capacity: nat): Outbox
    requires capacity > 0
  {
    if |o.buffer| < capacity then o.(buffer := o.buffer + [r], failed := o.failed + [r])
    else o.(buffer := o.buffer[1..] + [r], failed := o.failed + [r], dropped := o.dropped + [o.buffer[0]])
  }

  /** `appendleft`: here the newest element makes room. */
  function AppendLeft(buffer: seq<Reading>, r: Reading, capacity: nat): seq<Reading>
    requires capacity > 0
  {
    if |buffer| < capacity then [r] + buffer else [r] + buffer[..capacity - 1]
  }

  function AppendAll(o: Outbox, batch: seq<Reading>, capacity: nat): Outbox
    requires capacity > 0
    decreases |batch|
  {
    if batch == [] then o
    else Append(AppendAll(o, batch[..|batch| - 1], capacity), batch[|batch| - 1], capacity)
  }

  // ----- One tick of delivery

  /** One of the gathered posts; an exception counts as a failure. */
  function Booked(o: Outbox, batch: seq<Reading>, capacity: nat, result: PostResult): Outbox
    requires capacity > 0
  {
    if result == Delivered then o.(generated := o.generated + batch, sent := o.sent + batch)
    else AppendAll(o.(generated := o.generated + batch, errors := o.errors + 1), batch, capacity)
  }

  /** The first posts of a tick, batch by batch. */
  function SendBatches(o: Outbox, readings: seq<Reading>, batchSize: nat, capacity: nat, posts: nat -> PostResult,
                       k: nat): Outbox
    requires batchSize > 0 && capacity > 0
    decreases |readings|
  {
    if readings == [] then o
    else
      var size := MinInt(batchSize, |readings|);
      SendBatches(Booked(o, readings[..size], capacity, posts(k)), readings[size..], batchSize, capacity, posts, k + 1)
  }

  /** One resend from the front of the buffer: refused, the batch goes back; raised, it is gone. */
  function Resent(o: Outbox, batchSize: nat, result: PostResult): Outbox
    requires batchSize > 0 && o.buffer != []
  {
    var size := MinInt(batchSize, |o.buffer|);
    var batch, rest := o.buffer[..size], o.buffer[size..];
    match result
    case Delivered => o.(buffer := rest, sent := o.sent + batch)
    case Refused => o
    case Raised => o.(buffer := rest, lost := o.lost + batch)
  }

  /** Up to `rounds` resends; the first one that is not delivered ends them. */
  function Flushed(o: Outbox, batchSize: nat, posts: nat -> PostResult, k: nat, rounds: nat): Outbox
    requires batchSize > 0
    decreases rounds
  {
    if rounds == 0 || o.buffer == [] then o
    else
      var next := Resent(o, batchSize, posts(k));
      if posts(k) == Delivered then Flushed(next, batchSize, posts, k + 1, rounds - 1) else next
  }

  function Rounds(buffered: nat, batchSize: nat): nat
    requires batchSize > 0
  {
    MinInt(3, buffered / batchSize + 1)
  }

  function BatchCount(n: nat, batchSize: nat): nat
    requires batchSize > 0
    decreases n
  {
    if n == 0 then 0 else 1 + BatchCount(if n <= batchSize then 0 else n - batchSize, batchSize)
  }

  /** The delivery part of `_do_tick`. */
  function AfterTick(o: Outbox, readings: seq<Reading>, batchSize: nat, capacity: nat, posts: nat -> PostResult): Outbox
    requires batchSize > 0 && capacity > 0
  {
    if readings == [] then o
    else
      var p := SendBatches(o, readings, batchSize, capacity, posts, 0);
      Flushed(p, batchSize, posts, BatchCount(|readings|, batchSize), Rounds(|p.buffer|, batchSize))
  }

  // ----- The runner's methods

  class Runner {
    const capacity: nat
    var buffer: seq<Reading>
    var eventsSent: nat
    var errors: nat
    ghost var history: Outbox

    ghost predicate Valid()
      reads this
    {
      && capacity > 0 && |buffer| <= capacity
      && history.buffer == buffer && |history.sent| == eventsSent && history.errors == errors
    }

    constructor (bufferMax: nat)
      requires bufferMax > 0
      ensures Valid() && capacity == bufferMax && history == Empty()
    {
      capacity, buffer, eventsSent, errors := bufferMax, [], 0, 0;
      history := Empty();
    }

    /** Buffers a failed batch reading by reading. */
    method BufferBatch(batch: seq<Reading>)
      requires Valid()
      modifies this`buffer, this`history
      ensures Valid()
      ensures history == AppendAll(old(history), batch, capacity)
    {
      for i := 0 to |batch|
        invariant Valid()
        invariant history == AppendAll(old(history), batch[..i], capacity)
      {
        assert batch[..i + 1][..i] == batch[..i];
        history := Append(history, batch[i], capacity);
        if |buffer| < capacity {
          buffer := buffer + [batch[i]];
        } else {
          buffer := buffer[1..] + [batch[i]];
        }
      }
      assert batch[..|batch|] == batch;
    }

    /** Books one batch of the gathered posts. */
    method Book(batch: seq<Reading>, result: PostResult)
      requires Valid()
      modifies this
      ensures Valid()
      ensures history == Booked(old(history), batch, capacity, result)
    {
      if result == Delivered {
        eventsSent := eventsSent + |batch|;
        history := history.(generated := history.generated + batch, sent := history.sent + batch);
      } else {
        errors := errors + 1;
        history := history.(generated := history.generated + batch, errors := history.errors + 1);
        BufferBatch(batch);
      }
    }

    /** Puts a batch back at the front, last reading first: nothing overflows. */
    method PushBack(batch: seq<Reading>)
      requires capacity > 0 && |batch| + |buffer| <= capacity
      modifies this`buffer
      ensures buffer == batch + old(buffer)
    {
      var i := |batch|;
      while i > 0
        invariant 0 <= i <= |batch|
        invariant buffer == batch[i..] + old(buffer)
      {
        i := i - 1;
        buffer := AppendLeft(buffer, batch[i], capacity);
      }
    }

    /** One round of `_flush_buffer`: takes a batch from the front and posts it. */
    method Resend(batchSize: nat, result: PostResult)
      requires Valid() && batchSize > 0 && buffer != []
      modifies this
      ensures Valid()
      ensures history == Resent(old(history), batchSize, result)
    {
      var size := MinInt(batchSize, |buffer|);
      var batch := buffer[..size];
      buffer := buffer[size..];
      match result {
        case Delivered =>
          eventsSent := eventsSent + |batch|;
          history := history.(buffer := buffer, sent := history.sent + batch);
        case Refused =>
          PushBack(batch);
        case Raised =>
          history := history.(buffer := buffer, lost := history.lost + batch);
      }
    }

    /** The resend loop of `_flush_buffer`: stops at the first resend that is not delivered. */
    method ResendRounds(batchSize: nat, posts: nat -> PostResult, k: nat, retries: nat)
      requires Valid() && batchSize > 0
      modifies this
      ensures Valid()
      ensures history == Flushed(old(history), batchSize, posts, k, retries)
    {
      ghost var goal := Flushed(history, batchSize, posts, k, retries);
      for round := 0 to retries
        invariant Valid()
        invariant goal == Flushed(history, batchSize, posts, k + round, retries - round)
      {
        if buffer == [] {
          return;
        }
        var result := posts(k + round);
        Resend(batchSize, result);
        if result != Delivered {
          return;
        }
      }
    }

    /** `_flush_buffer`. */
    method FlushBuffer(batchSize: nat, posts: nat -> PostResult, k: nat)
      requires Valid() && batchSize > 0
      modifies this
      ensures Valid()
      ensures history == Flushed(old(history), batchSize, posts, k, Rounds(|old(buffer)|, batchSize))
    {
      var retries := Rounds(|buffer|, batchSize);
      ResendRounds(batchSize, posts, k, retries);
    }

    /** The first posts of a tick, one per batch; returns how many there were. */
    method PostBatches(readings: seq<Reading>, batchSize: nat, posts: nat -> PostResult) returns (k: nat)
      requires Valid() && batchSize > 0
      modifies this
      ensures Valid()
      ensures history == SendBatches(old(history), readings, batchSize, capacity, posts, 0)
      ensures k == BatchCount(|readings|, batchSize)
    {
      ghost var goal := SendBatches(history, readings, batchSize, capacity, posts, 0);
      var rest := readings;
      k := 0;
      while rest != []
        invariant Valid()
        invariant goal == SendBatches(history, rest, batchSize, capacity, posts, k)
        invariant k + BatchCount(|rest|, batchSize) == BatchCount(|readings|, batchSize)
        decreases |rest|
      {
        var size := MinInt(batchSize, |rest|);
        Book(rest[..size], posts(k));
        rest, k := rest[size..], k + 1;
      }
    }

    /** The delivery part of `_do_tick`. */
    method DeliverTick(readings: seq<Reading>, batchSize: nat, posts: nat -> PostResult)
      requires Valid() && batchSize > 0
      modifies this
      ensures Valid()
      ensures history == AfterTick(old(history), readings, batchSize, capacity, posts)
    {
      if readings == [] {
        return;
      }
      var k := PostBatches(readings, batchSize, posts);
      if buffer != [] {
        FlushBuffer(batchSize, posts, k);
      }
    }
  }

  // ----- What every step keeps

  /** How often a reading is somewhere: sent, dropped, lost or waiting. */
  function Copies(o: Outbox, r: Reading): nat {
    Occurrences(o.sent, r) + Occurrences(o.dropped, r) + Occurrences(o.lost, r) + Occurrences(o.buffer, r)
  }

  function Size(o: Outbox): nat { |o.sent| + |o.dropped| + |o.lost| + |o.buffer| }

  ghost predicate IsTail(t: seq<Reading>, s: seq<Reading>) {
    |t| <= |s| && t == s[|s| - |t|..]
  }

  lemma TailOfTail(t: seq<Reading>, s: seq<Reading>, n: nat)
    requires IsTail(t, s) && n <= |t|
    ensures IsTail(t[n..], s)
  {
  }

  lemma TailGrows(t: seq<Reading>, s: seq<Reading>, x: Reading)
    requires IsTail(t, s)
    ensures IsTail(t + [x], s + [x])
  {
  }

  /** The buffer is within bounds and is the newest part of the failure log, in its order. */
  ghost predicate NewestFailures(o: Outbox, capacity: nat) {
    |o.buffer| <= capacity && IsTail(o.buffer, o.failed)
  }

  /** And reading `r` is somewhere exactly as often as it was generated. */
  ghost predicate Conserved(o: Outbox, r: Reading, capacity: nat) {
    && NewestFailures(o, capacity)
    && Occurrences(o.generated, r) == Copies(o, r)
    && |o.generated| == Size(o)
  }

  lemma AppendKeepsNewest(o: Outbox, x: Reading, capacity: nat)
    requires capacity > 0 && NewestFailures(o, capacity)
    ensures NewestFailures(Append(o, x, capacity), capacity)
    ensures Size(Append(o, x, capacity)) == Size(o) + 1
  {
    if |o.buffer| < capacity {
      TailGrows(o.buffer, o.failed, x);
    } else {
      TailOfTail(o.buffer, o.failed, 1);
      TailGrows(o.buffer[1..], o.failed, x);
    }
  }

  lemma RotationPlaces(buffer: seq<Reading>, dropped: seq<Reading>, x: Reading, r: Reading)
    requires buffer != []
    ensures Occurrences(buffer[1..] + [x], r) + Occurrences(dropped + [buffer[0]], r)
         == Occurrences(buffer, r) + Occurrences(dropped, r) + Occurrences([x], r)
  {
    assert buffer == [buffer[0]] + buffer[1..];
    OccurrencesConcat([buffer[0]], buffer[1..], r);
    OccurrencesConcat(buffer[1..], [x], r);
    OccurrencesConcat(dropped, [buffer[0]], r);
  }

  lemma AppendPlaces(o: Outbox, x: Reading, r: Reading, capacity: nat)
    requires capacity > 0 && |o.buffer| <= capacity
    ensures Copies(Append(o, x, capacity), r) == Copies(o, r) + Occurrences([x], r)
  {
    if |o.buffer| < capacity {
      OccurrencesConcat(o.buffer, [x], r);
    } else {
      RotationPlaces(o.buffer, o.dropped, x, r);
    }
  }

  lemma {:induction false} AppendAllKeepsNewest(o: Outbox, batch: seq<Reading>, capacity: nat)
    requires capacity > 0 && NewestFailures(o, capacity)
    ensures var p := AppendAll(o, batch, capacity);
            NewestFailures(p, capacity) && Size(p) == Size(o) + |batch|
    decreases |batch|
  {
    if batch != [] {
      AppendAllKeepsNewest(o, batch[..|batch| - 1], capacity);
      AppendKeepsNewest(AppendAll(o, batch[..|batch| - 1], capacity), batch[|batch| - 1], capacity);
    }
  }

  lemma {:induction false} AppendAllPlaces(o: Outbox, batch: seq<Reading>, r: Reading, capacity: nat)
    requires capacity > 0 && NewestFailures(o, capacity)
    ensures Copies(AppendAll(o, batch, capacity), r) == Copies(o, r) + Occurrences(batch, r)
    decreases |batch|
  {
    if batch != [] {
      var init, x := batch[..|batch| - 1], batch[|batch| - 1];
      AppendAllPlaces(o, init, r, capacity);
      AppendAllKeepsNewest(o, init, capacity);
      AppendPlaces(AppendAll(o, init, capacity), x, r, capacity);
      assert batch == init + [x];
      OccurrencesConcat(init, [x], r);
    }
  }

  lemma {:induction false} AppendAllLeaves(o: Outbox, batch: seq<Reading>, capacity: nat)
    requires capacity > 0
    ensures var p := AppendAll(o, batch, capacity);
            p.generated == o.generated && p.sent == o.sent && p.lost == o.lost && p.failed == o.failed + batch
    decreases |batch|
  {
    if batch == [] {
      assert o.failed + batch == o.failed;
    } else {
      AppendAllLeaves(o, batch[..|batch| - 1], capacity);
      assert o.failed + batch[..|batch| - 1] + [batch[|batch| - 1]] == o.failed + batch;
    }
  }

  lemma {:induction false} FailurePlaces(o: Outbox, q: Outbox, batch: seq<Reading>, r: Reading, capacity: nat)
    requires capacity > 0 && NewestFailures(q, capacity) && Occurrences(o.generated, r) == Copies(q, r)
    ensures Occurrences(o.generated + batch, r) == Copies(AppendAll(q, batch, capacity), r)
  {
    OccurrencesConcat(o.generated, batch, r);
    AppendAllPlaces(q, batch, r, capacity);
  }

  /** From `o` to `p` these readings were generated, none was lost, and the books still balance. */
  ghost predicate Generates(o: Outbox, p: Outbox, readings: seq<Reading>, r: Reading, capacity: nat) {
    Conserved(p, r, capacity) && p.generated == o.generated + readings && p.lost == o.lost
  }

  lemma {:induction false} FailureIsConserved(o: Outbox, batch: seq<Reading>, r: Reading, capacity: nat)
    requires capacity > 0 && Conserved(o, r, capacity)
    ensures Generates(o, Booked(o, batch, capacity, Refused), batch, r, capacity)
  {
    var q := o.(generated := o.generated + batch, errors := o.errors + 1);
    FailurePlaces(o, q, batch, r, capacity);
    AppendAllKeepsNewest(q, batch, capacity);
    AppendAllLeaves(q, batch, capacity);
  }

  lemma {:induction false} BookingIsConserved(o: Outbox, batch: seq<Reading>, result: PostResult, r: Reading,
                                              capacity: nat)
    requires capacity > 0 && Conserved(o, r, capacity)
    ensures Generates(o, Booked(o, batch, capacity, result), batch, r, capacity)
  {
    if result == Delivered {
      OccurrencesConcat(o.generated, batch, r);
      OccurrencesConcat(o.sent, batch, r);
    } else {
      FailureIsConserved(o, batch, r, capacity);
    }
  }

  lemma ResendingIsConserved(o: Outbox, batchSize: nat, result: PostResult, r: Reading, capacity: nat)
    requires batchSize > 0 && Conserved(o, r, capacity) && o.buffer != []
    ensures Conserved(Resent(o, batchSize, result), r, capacity)
  {
    var size := MinInt(batchSize, |o.buffer|);
    var batch, rest := o.buffer[..size], o.buffer[size..];
    assert o.buffer == batch + rest;
    OccurrencesConcat(batch, rest, r);
    OccurrencesConcat(o.sent, batch, r);
    OccurrencesConcat(o.lost, batch, r);
  }

  lemma GeneratesBoth(o: Outbox, p: Outbox, q: Outbox, a: seq<Reading>, b: seq<Reading>, r: Reading, capacity: nat)
    requires Generates(o, p, a, r, capacity) && Generates(p, q, b, r, capacity)
    ensures Generates(o, q, a + b, r, capacity)
  {
    assert o.generated + a + b == o.generated + (a + b);
  }

  lemma {:induction false} SendingIsConserved(o: Outbox, readings: seq<Reading>, batchSize: nat,
                                              posts: nat -> PostResult, k: nat, r: Reading, capacity: nat)
    requires batchSize > 0 && capacity > 0 && Conserved(o, r, capacity)
    ensures Generates(o, SendBatches(o, readings, batchSize, capacity, posts, k), readings, r, capacity)
    decreases |readings|
  {
    if readings == [] {
      assert o.generated + readings == o.generated;
    } else {
      var size := MinInt(batchSize, |readings|);
      var batch, rest := readings[..size], readings[size..];
      var p := Booked(o, batch, capacity, posts(k));
      BookingIsConserved(o, batch, posts(k), r, capacity);
      SendingIsConserved(p, rest, batchSize, posts, k + 1, r, capacity);
      GeneratesBoth(o, p, SendBatches(p, rest, batchSize, capacity, posts, k + 1), batch, rest, r, capacity);
      assert batch + rest == readings;
    }
  }

  /** A resend round that raises. */
  ghost predicate ResendRaises(o: Outbox, batchSize: nat, posts: nat -> PostResult, k: nat, rounds: nat)
    requires batchSize > 0
    decreases rounds
  {
    rounds > 0 && o.buffer != [] &&
    (posts(k) == Raised ||
     (posts(k) == Delivered && ResendRaises(Resent(o, batchSize, Delivered), batchSize, posts, k + 1, rounds - 1)))
  }

  lemma {:induction false} FlushIsConserved(o: Outbox, batchSize: nat, posts: nat -> PostResult, k: nat, rounds: nat,
                                            r: Reading, capacity: nat)
    requires batchSize > 0 && Conserved(o, r, capacity)
    ensures var p := Flushed(o, batchSize, posts, k, rounds);
            && Conserved(p, r, capacity) && p.generated == o.generated && p.failed == o.failed
            && (if ResendRaises(o, batchSize, posts, k, rounds) then |p.lost| > |o.lost| else p.lost == o.lost)
    decreases rounds
  {
    if rounds > 0 && o.buffer != [] {
      ResendingIsConserved(o, batchSize, posts(k), r, capacity);
      if posts(k) == Delivered {
        FlushIsConserved(Resent(o, batchSize, Delivered), batchSize, posts, k + 1, rounds - 1, r, capacity);
      }
    }
  }

  // ----- Whole runs

  /** The readings of one tick and what its posts come to. */
  datatype Tick = Tick(readings: seq<Reading>, batchSize: nat, posts: nat -> PostResult)

  function TickedBy(o: Outbox, t: Tick, capacity: nat): Outbox
    requires capacity > 0 && t.batchSize > 0
  {
    AfterTick(o, t.readings, t.batchSize, capacity, t.posts)
  }

  function AfterRun(ticks: seq<Tick>, capacity: nat): Outbox
    requires capacity > 0 && forall i :: 0 <= i < |ticks| ==> ticks[i].batchSize > 0
    decreases |ticks|
  {
    if ticks == [] then Empty()
    else TickedBy(AfterRun(ticks[..|ticks| - 1], capacity), ticks[|ticks| - 1], capacity)
  }

  /** A resend of this tick raises. */
  ghost predicate TickRaises(o: Outbox, t: Tick, capacity: nat)
    requires capacity > 0 && t.batchSize > 0
  {
    t.readings != [] &&
    var p := SendBatches(o, t.readings, t.batchSize, capacity, t.posts, 0);
    ResendRaises(p, t.batchSize, t.posts, BatchCount(|t.readings|, t.batchSize), Rounds(|p.buffer|, t.batchSize))
  }

  lemma TickIsConserved(o: Outbox, t: Tick, r: Reading, capacity: nat)
    requires capacity > 0 && t.batchSize > 0 && Conserved(o, r, capacity)
    ensures var p := TickedBy(o, t, capacity);
            && Conserved(p, r, capacity) && p.generated == o.generated + t.readings
            && (if TickRaises(o, t, capacity) then |p.lost| > |o.lost| else p.lost == o.lost)
  {
    assert o.generated + [] == o.generated;
    SendingIsConserved(o, t.readings, t.batchSize, t.posts, 0, r, capacity);
    var p := SendBatches(o, t.readings, t.batchSize, capacity, t.posts, 0);
    var rounds := Rounds(|p.buffer|, t.batchSize);
    FlushIsConserved(p, t.batchSize, t.posts, BatchCount(|t.readings|, t.batchSize), rounds, r, capacity);
  }

  /** On every run the buffer is the newest part of the failure log, and every generated reading is sent,
      buffered, dropped for room, or lost to a resend that raised - exactly as often as it was generated. */
  lemma {:induction false} RunIsConserved(ticks: seq<Tick>, r: Reading, capacity: nat)
    requires capacity > 0 && forall i :: 0 <= i < |ticks| ==> ticks[i].batchSize > 0
    ensures Conserved(AfterRun(ticks, capacity), r, capacity)
    decreases |ticks|
  {
    if ticks != [] {
      RunIsConserved(ticks[..|ticks| - 1], r, capacity);
      TickIsConserved(AfterRun(ticks[..|ticks| - 1], capacity), ticks[|ticks| - 1], r, capacity);
    }
  }

  /** Some tick of the run raises in a resend. */
  ghost predicate SomeTickRaises(ticks: seq<Tick>, capacity: nat)
    requires capacity > 0 && forall i :: 0 <= i < |ticks| ==> ticks[i].batchSize > 0
    decreases |ticks|
  {
    ticks != [] &&
    var n := |ticks| - 1;
    TickRaises(AfterRun(ticks[..n], capacity), ticks[n], capacity) || SomeTickRaises(ticks[..n], capacity)
  }

  lemma {:induction false} LossesComeFromRaises(ticks: seq<Tick>, r: Reading, capacity: nat)
    requires capacity > 0 && forall i :: 0 <= i < |ticks| ==> ticks[i].batchSize > 0
    ensures AfterRun(ticks, capacity).lost == [] <==> !SomeTickRaises(ticks, capacity)
    decreases |ticks|
  {
    if ticks != [] {
      var n := |ticks| - 1;
      LossesComeFromRaises(ticks[..n], r, capacity);
      RunIsConserved(ticks[..n], r, capacity);
      TickIsConserved(AfterRun(ticks[..n], capacity), ticks[n], r, capacity);
    }
  }

  /** The books balance - generated is sent plus buffered plus dropped - exactly on the runs in which no
      resend ever raises. */
  lemma BooksBalanceIffNoResendRaises(ticks: seq<Tick>, r: Reading, capacity: nat)
    requires capacity > 0 && forall i :: 0 <= i < |ticks| ==> ticks[i].batchSize > 0
    ensures var o := AfterRun(ticks, capacity);
            |o.generated| == |o.sent| + |o.buffer| + |o.dropped| <==> !SomeTickRaises(ticks, capacity)
  {
    RunIsConserved(ticks, r, capacity);
    LossesComeFromRaises(ticks, r, capacity);
  }

  // ----- Runs as the runner has them: a resend that raises ends the run

  /** Nothing is lost yet, or the lost readings are at most one batch and were next in line: with what is still
      buffered they are the newest failures. */
  ghost predicate LostNextInLine(o: Outbox, batchSize: nat) {
    |o.lost| <= batchSize && IsTail(o.lost + o.buffer, o.failed)
  }

  lemma ResendKeepsNewest(o: Outbox, batchSize: nat, result: PostResult, capacity: nat)
    requires batchSize > 0 && NewestFailures(o, capacity) && o.lost == [] && o.buffer != []
    ensures LostNextInLine(Resent(o, batchSize, result), batchSize)
    ensures result != Raised ==>
              NewestFailures(Resent(o, batchSize, result), capacity) && Resent(o, batchSize, result).lost == []
  {
    var size := MinInt(batchSize, |o.buffer|);
    var batch, rest := o.buffer[..size], o.buffer[size..];
    assert batch + rest == o.buffer;
    assert o.lost + batch == batch && o.lost + rest == rest && o.lost + o.buffer == o.buffer;
    TailOfTail(o.buffer, o.failed, size);
  }

  lemma {:induction false} FlushLosesOneBatch(o: Outbox, batchSize: nat, posts: nat -> PostResult, k: nat, rounds: nat,
                                              capacity: nat)
    requires batchSize > 0 && NewestFailures(o, capacity) && o.lost == []
    ensures LostNextInLine(Flushed(o, batchSize, posts, k, rounds), batchSize)
    decreases rounds
  {
    if rounds == 0 || o.buffer == [] {
      assert o.lost + o.buffer == o.buffer;
    } else {
      ResendKeepsNewest(o, batchSize, posts(k), capacity);
      if posts(k) == Delivered {
        FlushLosesOneBatch(Resent(o, batchSize, Delivered), batchSize, posts, k + 1, rounds - 1, capacity);
      }
    }
  }

  /** A run that ends at its first raising resend, as the runner's loop does, loses at most one batch: the one
      that was next in line of the failed readings. */
  lemma {:induction false} EndedRunLosesOneBatch(ticks: seq<Tick>, t: Tick, r: Reading, capacity: nat)
    requires capacity > 0 && t.batchSize > 0 && forall i :: 0 <= i < |ticks| ==> ticks[i].batchSize > 0
    requires !SomeTickRaises(ticks, capacity)
    ensures LostNextInLine(AfterRun(ticks + [t], capacity), t.batchSize)
  {
    assert (ticks + [t])[..|ticks + [t]| - 1] == ticks;
    var o := AfterRun(ticks, capacity);
    RunIsConserved(ticks, r, capacity);
    LossesComeFromRaises(ticks, r, capacity);
    assert o.lost + o.buffer == o.buffer;
    if t.readings != [] {
      SendingIsConserved(o, t.readings, t.batchSize, t.posts, 0, r, capacity);
      var p := SendBatches(o, t.readings, t.batchSize, capacity, t.posts, 0);
      FlushLosesOneBatch(p, t.batchSize, t.posts, BatchCount(|t.readings|, t.batchSize),
                         Rounds(|p.buffer|, t.batchSize), capacity);
    }
  }
}
