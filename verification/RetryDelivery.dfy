/** What is sent, buffered and counted, by what the posts come to. */
module RetryDelivery {
  import opened Numbers
  import opened RetryBuffer

  // ----- The deque

  /** The newest readings that fit. */
  function Newest(s: seq<Reading>, capacity: nat): seq<Reading> { s[|s| - MinInt(capacity, |s|)..] }

  /** Those that had to make room. */
  function Oldest(s: seq<Reading>, capacity: nat): seq<Reading> { s[..|s| - MinInt(capacity, |s|)] }

  lemma {:induction false} NewestOneMore(s: seq<Reading>, x: Reading, capacity: nat)
    requires capacity > 0
    ensures var n := Newest(s, capacity);
            && Newest(s + [x], capacity) == (if |n| < capacity then n else n[1..]) + [x]
            && Oldest(s + [x], capacity) == Oldest(s, capacity) + if |n| < capacity then [] else [n[0]]
  {
    if |s| >= capacity {
      assert (s + [x])[|s| + 1 - capacity..] == s[|s| - capacity..][1..] + [x];
      assert (s + [x])[..|s| + 1 - capacity] == s[..|s| - capacity] + [s[|s| - capacity]];
    } else {
      assert s[..0] == [] && (s + [x])[..0] == [];
    }
  }

  /** The buffer holds the newest of `all`, the rest of `all` was dropped since `o`, and nothing else changed but the
      log of failures, which `batch` was added to. */
  ghost predicate Holds(o: Outbox, p: Outbox, all: seq<Reading>, batch: seq<Reading>, capacity: nat) {
    && p.buffer == Newest(all, capacity) && p.dropped == o.dropped + Oldest(all, capacity)
    && p.failed == o.failed + batch
    && p.generated == o.generated && p.sent == o.sent && p.lost == o.lost && p.errors == o.errors
  }

  lemma AppendingHolds(o: Outbox, p: Outbox, all: seq<Reading>, batch: seq<Reading>, x: Reading, capacity: nat)
    requires capacity > 0 && Holds(o, p, all, batch, capacity)
    ensures Holds(o, Append(p, x, capacity), all + [x], batch + [x], capacity)
  {
    NewestOneMore(all, x, capacity);
    assert o.dropped + Oldest(all, capacity) + [] == o.dropped + Oldest(all, capacity);
    assert o.failed + batch + [x] == o.failed + (batch + [x]);
  }

  /** Buffering a batch keeps the newest readings that fit, in order, and drops the others, oldest first: nothing goes
      while there is room. */
  lemma {:induction false} BufferingKeepsTheNewest(o: Outbox, batch: seq<Reading>, capacity: nat)
    requires capacity > 0 && |o.buffer| <= capacity
    ensures Holds(o, AppendAll(o, batch, capacity), o.buffer + batch, batch, capacity)
    decreases |batch|
  {
    if batch == [] {
      assert o.buffer + batch == o.buffer && o.failed + batch == o.failed && o.dropped + [] == o.dropped;
      assert o.buffer[..0] == [];
    } else {
      var init, x := batch[..|batch| - 1], batch[|batch| - 1];
      BufferingKeepsTheNewest(o, init, capacity);
      AppendingHolds(o, AppendAll(o, init, capacity), o.buffer + init, init, x, capacity);
      assert init + [x] == batch && o.buffer + init + [x] == o.buffer + batch;
    }
  }

  // ----- The first posts of a tick

  /** The readings of the batches whose post was delivered, of those whose post was not, and how many these are. */
  function DeliveredOf(readings: seq<Reading>, batchSize: nat, posts: nat -> PostResult, k: nat): seq<Reading>
    requires batchSize > 0
    decreases |readings|
  {
    if readings == [] then []
    else
      var size := MinInt(batchSize, |readings|);
      (if posts(k) == Delivered then readings[..size] else []) + DeliveredOf(readings[size..], batchSize, posts, k + 1)
  }

  function FailedOf(readings: seq<Reading>, batchSize: nat, posts: nat -> PostResult, k: nat): seq<Reading>
    requires batchSize > 0
    decreases |readings|
  {
    if readings == [] then []
    else
      var size := MinInt(batchSize, |readings|);
      (if posts(k) == Delivered then [] else readings[..size]) + FailedOf(readings[size..], batchSize, posts, k + 1)
  }

  function FailedPosts(readings: seq<Reading>, batchSize: nat, posts: nat -> PostResult, k: nat): nat
    requires batchSize > 0
    decreases |readings|
  {
    if readings == [] then 0
    else
      (if posts(k) == Delivered then 0 else 1) +
      FailedPosts(readings[MinInt(batchSize, |readings|)..], batchSize, posts, k + 1)
  }

  /** From `o` to `p` these were generated, these sent and these failed, with so many errors. */
  ghost predicate Books(o: Outbox, p: Outbox, readings: seq<Reading>, sent: seq<Reading>, failed: seq<Reading>,
                        errors: nat, capacity: nat)
  {
    && p.generated == o.generated + readings && p.sent == o.sent + sent && p.failed == o.failed + failed
    && p.errors == o.errors + errors && p.lost == o.lost
    && p.buffer == Newest(o.buffer + failed, capacity)
    && p.dropped == o.dropped + Oldest(o.buffer + failed, capacity)
  }

  lemma {:induction false} BookingDelivered(o: Outbox, batch: seq<Reading>, capacity: nat)
    requires capacity > 0 && |o.buffer| <= capacity
    ensures Books(o, Booked(o, batch, capacity, Delivered), batch, batch, [], 0, capacity)
  {
    assert o.buffer + [] == o.buffer && o.failed + [] == o.failed;
    assert o.buffer[..0] == [] && o.dropped + [] == o.dropped;
  }

  lemma {:induction false} BookingFailed(o: Outbox, batch: seq<Reading>, result: PostResult, capacity: nat)
    requires capacity > 0 && |o.buffer| <= capacity && result != Delivered
    ensures Books(o, Booked(o, batch, capacity, result), batch, [], batch, 1, capacity)
  {
    var q := o.(generated := o.generated + batch, errors := o.errors + 1);
    BufferingKeepsTheNewest(q, batch, capacity);
    assert o.sent + [] == o.sent;
  }

  lemma {:induction false} NewestOfNewest(s: seq<Reading>, t: seq<Reading>, capacity: nat)
    ensures Newest(Newest(s, capacity) + t, capacity) == Newest(s + t, capacity)
    ensures Oldest(s, capacity) + Oldest(Newest(s, capacity) + t, capacity) == Oldest(s + t, capacity)
  {
    var cut := |s| - MinInt(capacity, |s|);
    assert Newest(s, capacity) + t == (s + t)[cut..];
    var more := |s + t| - cut - MinInt(capacity, |s + t| - cut);
    assert cut + more == |s + t| - MinInt(capacity, |s + t|);
    assert (s + t)[cut..][more..] == (s + t)[cut + more..];
    assert s[..cut] + (s + t)[cut..][..more] == (s + t)[..cut + more];
  }

  lemma {:induction false} BooksAddUp(o: Outbox, p: Outbox, q: Outbox, r1: seq<Reading>, s1: seq<Reading>,
                                      f1: seq<Reading>, e1: nat, r2: seq<Reading>, s2: seq<Reading>, f2: seq<Reading>,
                                      e2: nat, capacity: nat)
    requires Books(o, p, r1, s1, f1, e1, capacity) && Books(p, q, r2, s2, f2, e2, capacity)
    ensures Books(o, q, r1 + r2, s1 + s2, f1 + f2, e1 + e2, capacity)
  {
    NewestOfNewest(o.buffer + f1, f2, capacity);
    assert o.buffer + f1 + f2 == o.buffer + (f1 + f2);
    AddAgain(o.generated, r1, r2);
    AddAgain(o.sent, s1, s2);
    AddAgain(o.failed, f1, f2);
    AddAgain(o.dropped, Oldest(o.buffer + f1, capacity), Oldest(Newest(o.buffer + f1, capacity) + f2, capacity));
  }

  lemma AddAgain(s: seq<Reading>, a: seq<Reading>, b: seq<Reading>)
    ensures s + a + b == s + (a + b)
  {
  }

  /** The first posts decide: a batch whose post returned is sent, any other is buffered and counted as one error. */
  lemma {:induction false} SendingFollowsThePosts(o: Outbox, readings: seq<Reading>, batchSize: nat,
                                                  posts: nat -> PostResult, k: nat, capacity: nat)
    requires batchSize > 0 && capacity > 0 && |o.buffer| <= capacity
    ensures Books(o, SendBatches(o, readings, batchSize, capacity, posts, k), readings,
                  DeliveredOf(readings, batchSize, posts, k), FailedOf(readings, batchSize, posts, k),
                  FailedPosts(readings, batchSize, posts, k), capacity)
    decreases |readings|
  {
    if readings == [] {
      assert o.buffer + [] == o.buffer && o.failed + [] == o.failed && o.generated + [] == o.generated;
      assert o.buffer[..0] == [] && o.dropped + [] == o.dropped && o.sent + [] == o.sent;
    } else {
      var size := MinInt(batchSize, |readings|);
      var batch, rest, p := readings[..size], readings[size..], Booked(o, readings[..size], capacity, posts(k));
      if posts(k) == Delivered {
        BookingDelivered(o, batch, capacity);
      } else {
        BookingFailed(o, batch, posts(k), capacity);
      }
      SendingFollowsThePosts(p, rest, batchSize, posts, k + 1, capacity);
      BooksAddUp(o, p, SendBatches(p, rest, batchSize, capacity, posts, k + 1), batch,
                 if posts(k) == Delivered then batch else [], if posts(k) == Delivered then [] else batch,
                 if posts(k) == Delivered then 0 else 1, rest, DeliveredOf(rest, batchSize, posts, k + 1),
                 FailedOf(rest, batchSize, posts, k + 1), FailedPosts(rest, batchSize, posts, k + 1), capacity);
      assert batch + rest == readings;
    }
  }

  // ----- Resends

  /** How many of the next posts, at most `limit`, are delivered before one is not. */
  function LeadingDelivered(posts: nat -> PostResult, k: nat, limit: nat): (n: nat)
    ensures n <= limit
    decreases limit
  {
    if limit == 0 || posts(k) != Delivered then 0 else 1 + LeadingDelivered(posts, k + 1, limit - 1)
  }

  /** How many batches n readings make. */
  function Batches(n: nat, batchSize: nat): (b: nat)
    requires batchSize > 0
  {
    CeilingIsNat(n, batchSize);
    (n + batchSize - 1) / batchSize
  }

  lemma CeilingIsNat(n: nat, b: nat)
    requires b > 0
    ensures (n + b - 1) / b >= 0
  {
  }

  /** Division loses one with every divisor taken away. */
  lemma {:induction false} QuotientOfLess(a: int, b: int)
    requires b > 0
    ensures (a - b) / b == a / b - 1
  {
    var q, p := a / b, (a - b) / b;
    assert q * b <= a < q * b + b && p * b <= a - b < p * b + b;
    Squeezed(q, p, a, b);
  }

  lemma {:induction false} Squeezed(q: int, p: int, a: int, b: int)
    requires b > 0 && q * b <= a < q * b + b && p * b <= a - b < p * b + b
    ensures p == q - 1
  {
    assert (p + 2) * b == p * b + b + b;
    Cancels(p, q, b);
    Cancels(q, p + 2, b);
  }

  lemma {:induction false} Cancels(x: int, y: int, b: int)
    requires b > 0 && x * b < y * b
    ensures x < y
  {
    if x >= y {
      Grows(y, x, b);
    }
  }

  lemma {:induction false} Grows(x: int, y: int, b: int)
    requires x <= y && b > 0
    ensures x * b <= y * b
  {
  }

  lemma {:induction false} BatchesOfRest(n: nat, batchSize: nat)
    requires batchSize > 0 && n > 0
    ensures Batches(n, batchSize) == 1 + Batches(n - MinInt(batchSize, n), batchSize)
  {
    if n > batchSize {
      QuotientOfLess(n + batchSize - 1, batchSize);
    } else {
      QuotientOfLess(n + batchSize - 1, batchSize);
      SmallQuotient(n - 1, batchSize);
      SmallQuotient(batchSize - 1, batchSize);
    }
  }

  lemma SmallQuotient(a: nat, b: nat)
    requires a < b
    ensures a / b == 0
  {
  }

  lemma {:induction false} BatchCountIsBatches(n: nat, batchSize: nat)
    requires batchSize > 0
    ensures BatchCount(n, batchSize) == Batches(n, batchSize)
    decreases n
  {
    if n == 0 {
      SmallQuotient(batchSize - 1, batchSize);
    } else {
      BatchesOfRest(n, batchSize);
      BatchCountIsBatches(if n <= batchSize then 0 else n - batchSize, batchSize);
    }
  }

  lemma {:induction false} CeilingAtMost(n: nat, batchSize: nat)
    requires batchSize > 0
    ensures Batches(n, batchSize) <= n / batchSize + 1
  {
    var q, c := n / batchSize, Batches(n, batchSize);
    assert n < q * batchSize + batchSize && c * batchSize <= n + batchSize - 1;
    assert (q + 2) * batchSize == q * batchSize + batchSize + batchSize;
    Cancels(c, q + 2, batchSize);
  }

  /** The rounds the flush allows are never fewer than three or what the buffer needs. */
  lemma {:induction false} RoundsSuffice(n: nat, batchSize: nat)
    requires batchSize > 0
    ensures MinInt(Rounds(n, batchSize), Batches(n, batchSize)) == MinInt(3, Batches(n, batchSize))
  {
    CeilingAtMost(n, batchSize);
  }

  /** How many of n readings the first r batches hold. */
  function FrontSize(n: nat, batchSize: nat, r: nat): (f: nat)
    ensures f <= n
    decreases r
  {
    if r == 0 then 0 else MinInt(batchSize, n) + FrontSize(n - MinInt(batchSize, n), batchSize, r - 1)
  }

  lemma NotNegative(a: nat, b: nat)
    ensures a * b >= 0
  {
  }

  /** All of them, or r times the batch size. */
  lemma {:induction false} FrontSizeIs(n: nat, batchSize: nat, r: nat)
    ensures FrontSize(n, batchSize, r) == MinInt(r * batchSize, n)
    decreases r
  {
    if r > 0 {
      FrontSizeIs(n - MinInt(batchSize, n), batchSize, r - 1);
      assert r * batchSize == (r - 1) * batchSize + batchSize;
      NotNegative(r - 1, batchSize);
    }
  }

  /** From `o` to `p` the first `sent` readings of the buffer were sent, the `lost` ones after them lost. */
  ghost predicate Leave(o: Outbox, p: Outbox, sent: nat, lost: nat) {
    && sent + lost <= |o.buffer|
    && p == o.(sent := o.sent + o.buffer[..sent], lost := o.lost + o.buffer[sent..sent + lost],
               buffer := o.buffer[sent + lost..])
  }

  lemma {:induction false} LeaveMore(o: Outbox, p: Outbox, q: Outbox, size: nat, sent: nat, lost: nat)
    requires Leave(o, p, size, 0) && Leave(p, q, sent, lost)
    ensures Leave(o, q, size + sent, lost)
  {
    var b, rest := o.buffer, o.buffer[size..];
    assert o.lost + b[size..size + 0] == o.lost;
    assert o.sent + b[..size] + rest[..sent] == o.sent + b[..size + sent];
    assert rest[sent..sent + lost] == b[size + sent..size + sent + lost];
    assert rest[sent + lost..] == b[size + sent + lost..];
  }

  lemma {:induction false} NothingLeaves(o: Outbox)
    ensures Leave(o, o, 0, 0)
  {
    assert o.buffer[..0] == [] && o.buffer[0..] == o.buffer && o.buffer[0..0] == [];
    assert o.sent + [] == o.sent && o.lost + [] == o.lost;
  }

  lemma {:induction false} ResendLeaves(o: Outbox, batchSize: nat, result: PostResult)
    requires batchSize > 0 && o.buffer != []
    ensures var size := MinInt(batchSize, |o.buffer|);
            Leave(o, Resent(o, batchSize, result), if result == Delivered then size else 0,
                  if result == Raised then size else 0)
  {
    var size := MinInt(batchSize, |o.buffer|);
    if result == Refused {
      NothingLeaves(o);
    } else {
      assert o.buffer[size..size + 0] == [] && o.lost + [] == o.lost && o.buffer[..0] == [] && o.sent + [] == o.sent;
    }
  }

  /** The readings that a raising post takes along. */
  function LostSize(n: nat, batchSize: nat, raised: bool): nat { if raised then MinInt(batchSize, n) else 0 }

  /** From `o` to `p` the batches at the front of the buffer were sent whose posts, from the k-th on and at most
      `limit`, were delivered; the batch after them is lost if its post raised. */
  ghost predicate FlushedBy(o: Outbox, p: Outbox, batchSize: nat, posts: nat -> PostResult, k: nat, limit: nat) {
    var r := LeadingDelivered(posts, k, limit);
    var sent := FrontSize(|o.buffer|, batchSize, r);
    Leave(o, p, sent, LostSize(|o.buffer| - sent, batchSize, r < limit && posts(k + r) == Raised))
  }

  /** How many readings a flush of n sends, and how many it loses. */
  function SentSize(n: nat, batchSize: nat, posts: nat -> PostResult, k: nat, limit: nat): (f: nat)
    ensures f <= n
  {
    FrontSize(n, batchSize, LeadingDelivered(posts, k, limit))
  }

  function GoneSize(n: nat, batchSize: nat, posts: nat -> PostResult, k: nat, limit: nat): nat {
    var r := LeadingDelivered(posts, k, limit);
    LostSize(n - FrontSize(n, batchSize, r), batchSize, r < limit && posts(k + r) == Raised)
  }

  lemma {:induction false} SizesAfterDelivery(n: nat, batchSize: nat, posts: nat -> PostResult, k: nat, limit: nat)
    requires limit > 0 && posts(k) == Delivered
    ensures var size := MinInt(batchSize, n);
            && SentSize(n, batchSize, posts, k, limit) ==
                 size + SentSize(n - size, batchSize, posts, k + 1, limit - 1)
            && GoneSize(n, batchSize, posts, k, limit) == GoneSize(n - size, batchSize, posts, k + 1, limit - 1)
  {
    var r := LeadingDelivered(posts, k + 1, limit - 1);
    assert LeadingDelivered(posts, k, limit) == 1 + r && k + (1 + r) == k + 1 + r;
  }

  lemma {:induction false} SizesWithout(n: nat, batchSize: nat, posts: nat -> PostResult, k: nat, limit: nat)
    requires limit == 0 || posts(k) != Delivered
    ensures SentSize(n, batchSize, posts, k, limit) == 0
    ensures GoneSize(n, batchSize, posts, k, limit) ==
              if limit > 0 && posts(k) == Raised then MinInt(batchSize, n) else 0
  {
  }

  lemma {:induction false} FlushingLeaves(o: Outbox, batchSize: nat, posts: nat -> PostResult, k: nat, rounds: nat,
                                          limit: nat)
    requires batchSize > 0 && limit == MinInt(rounds, Batches(|o.buffer|, batchSize))
    ensures Leave(o, Flushed(o, batchSize, posts, k, rounds), SentSize(|o.buffer|, batchSize, posts, k, limit),
                  GoneSize(|o.buffer|, batchSize, posts, k, limit))
    decreases rounds
  {
    if rounds == 0 || o.buffer == [] {
      SmallQuotient(batchSize - 1, batchSize);
      SizesWithout(|o.buffer|, batchSize, posts, k, limit);
      NothingLeaves(o);
    } else {
      BatchesOfRest(|o.buffer|, batchSize);
      ResendLeaves(o, batchSize, posts(k));
      if posts(k) == Delivered {
        DeliveredThenLeaves(o, batchSize, posts, k, rounds, limit);
      } else {
        SizesWithout(|o.buffer|, batchSize, posts, k, limit);
      }
    }
  }

  lemma {:induction false} LimitOneLess(n: nat, batchSize: nat, rounds: nat)
    requires batchSize > 0 && n > 0 && rounds > 0
    ensures MinInt(rounds - 1, Batches(n - MinInt(batchSize, n), batchSize))
         == MinInt(rounds, Batches(n, batchSize)) - 1
  {
    BatchesOfRest(n, batchSize);
  }

  lemma {:induction false} FlushedOnceMore(o: Outbox, p: Outbox, batchSize: nat, posts: nat -> PostResult, k: nat,
                                           rounds: nat)
    requires batchSize > 0 && rounds > 0 && o.buffer != [] && posts(k) == Delivered
    requires p == Resent(o, batchSize, Delivered)
    ensures Flushed(o, batchSize, posts, k, rounds) == Flushed(p, batchSize, posts, k + 1, rounds - 1)
    ensures |p.buffer| == |o.buffer| - MinInt(batchSize, |o.buffer|)
    ensures Leave(o, p, MinInt(batchSize, |o.buffer|), 0)
  {
    ResendLeaves(o, batchSize, Delivered);
  }

  lemma {:induction false} DeliveredThenLeaves(o: Outbox, batchSize: nat, posts: nat -> PostResult, k: nat, rounds: nat,
                                               limit: nat)
    requires batchSize > 0 && limit == MinInt(rounds, Batches(|o.buffer|, batchSize)) && limit > 0 && o.buffer != []
    requires posts(k) == Delivered
    ensures Leave(o, Flushed(o, batchSize, posts, k, rounds), SentSize(|o.buffer|, batchSize, posts, k, limit),
                  GoneSize(|o.buffer|, batchSize, posts, k, limit))
    decreases rounds, 0
  {
    var p, n := Resent(o, batchSize, Delivered), |o.buffer|;
    LimitOneLess(n, batchSize, rounds);
    FlushedOnceMore(o, p, batchSize, posts, k, rounds);
    FlushingLeaves(p, batchSize, posts, k + 1, rounds - 1, limit - 1);
    SizesAfterDelivery(n, batchSize, posts, k, limit);
    LeaveInAll(o, p, Flushed(o, batchSize, posts, k, rounds), MinInt(batchSize, n),
               SentSize(|p.buffer|, batchSize, posts, k + 1, limit - 1),
               GoneSize(|p.buffer|, batchSize, posts, k + 1, limit - 1),
               SentSize(n, batchSize, posts, k, limit), GoneSize(n, batchSize, posts, k, limit));
  }

  lemma {:induction false} LeaveInAll(o: Outbox, p: Outbox, q: Outbox, size: nat, sent: nat, lost: nat, total: nat,
                                      gone: nat)
    requires Leave(o, p, size, 0) && Leave(p, q, sent, lost) && total == size + sent && gone == lost
    ensures Leave(o, q, total, gone)
  {
    LeaveMore(o, p, q, size, sent, lost);
  }

  /** Resends follow the posts too: as long as they are delivered, batch after batch leaves the front of the buffer for
      good; the first that is not ends the flush, and takes its batch along only if it raised. */
  lemma {:induction false} FlushingFollowsThePosts(o: Outbox, batchSize: nat, posts: nat -> PostResult, k: nat,
                                                   rounds: nat)
    requires batchSize > 0
    ensures FlushedBy(o, Flushed(o, batchSize, posts, k, rounds), batchSize, posts, k,
                      MinInt(rounds, Batches(|o.buffer|, batchSize)))
  {
    FlushingLeaves(o, batchSize, posts, k, rounds, MinInt(rounds, Batches(|o.buffer|, batchSize)));
  }

  /** A tick with readings, in full: the first posts decide what is sent and what is buffered; after them at most three
      batches are sent again from the front of the buffer, for as long as their posts return, and the first one that
      raises is lost. */
  lemma {:induction false} TickFollowsThePosts(o: Outbox, t: Tick, capacity: nat) returns (p: Outbox)
    requires capacity > 0 && t.batchSize > 0 && |o.buffer| <= capacity && t.readings != []
    ensures Books(o, p, t.readings, DeliveredOf(t.readings, t.batchSize, t.posts, 0),
                  FailedOf(t.readings, t.batchSize, t.posts, 0), FailedPosts(t.readings, t.batchSize, t.posts, 0),
                  capacity)
    ensures FlushedBy(p, TickedBy(o, t, capacity), t.batchSize, t.posts, Batches(|t.readings|, t.batchSize),
                      MinInt(3, Batches(|p.buffer|, t.batchSize)))
  {
    p := SendBatches(o, t.readings, t.batchSize, capacity, t.posts, 0);
    SendingFollowsThePosts(o, t.readings, t.batchSize, t.posts, 0, capacity);
    BatchCountIsBatches(|t.readings|, t.batchSize);
    FlushingFollowsThePosts(p, t.batchSize, t.posts, BatchCount(|t.readings|, t.batchSize),
                            Rounds(|p.buffer|, t.batchSize));
    RoundsSuffice(|p.buffer|, t.batchSize);
  }

  // ----- Whole runs

  ghost predicate NoPostReturns(t: Tick) { forall k :: t.posts(k) != Delivered }

  ghost predicate EveryPostReturns(t: Tick) { forall k :: t.posts(k) == Delivered }

  lemma {:induction false} NothingDelivered(readings: seq<Reading>, batchSize: nat, posts: nat -> PostResult, k: nat)
    requires batchSize > 0 && forall j :: posts(j) != Delivered
    ensures DeliveredOf(readings, batchSize, posts, k) == [] && FailedOf(readings, batchSize, posts, k) == readings
    decreases |readings|
  {
    if readings != [] {
      NothingDelivered(readings[MinInt(batchSize, |readings|)..], batchSize, posts, k + 1);
    }
  }

  lemma {:induction false} EverythingDelivered(readings: seq<Reading>, batchSize: nat, posts: nat -> PostResult, k: nat)
    requires batchSize > 0 && forall j :: posts(j) == Delivered
    ensures DeliveredOf(readings, batchSize, posts, k) == readings && FailedOf(readings, batchSize, posts, k) == []
    ensures FailedPosts(readings, batchSize, posts, k) == 0
    decreases |readings|
  {
    if readings != [] {
      EverythingDelivered(readings[MinInt(batchSize, |readings|)..], batchSize, posts, k + 1);
    }
  }

  lemma {:induction false} DeadFlush(o: Outbox, p: Outbox, batchSize: nat, posts: nat -> PostResult, k: nat, limit: nat)
    requires FlushedBy(o, p, batchSize, posts, k, limit) && posts(k) != Delivered
    ensures p.sent == o.sent && p.failed == o.failed && p.generated == o.generated
  {
    assert o.buffer[..0] == [] && o.sent + [] == o.sent;
  }

  lemma {:induction false} DeadTick(o: Outbox, t: Tick, capacity: nat)
    requires capacity > 0 && t.batchSize > 0 && |o.buffer| <= capacity && NoPostReturns(t)
    requires o.sent == [] && o.failed == o.generated
    ensures var p := TickedBy(o, t, capacity);
            p.sent == [] && p.failed == p.generated
  {
    if t.readings != [] {
      NothingDelivered(t.readings, t.batchSize, t.posts, 0);
      var p := TickFollowsThePosts(o, t, capacity);
      DeadFlush(p, TickedBy(o, t, capacity), t.batchSize, t.posts, Batches(|t.readings|, t.batchSize),
                MinInt(3, Batches(|p.buffer|, t.batchSize)));
    }
  }

  lemma {:induction false} LiveTick(o: Outbox, t: Tick, capacity: nat)
    requires capacity > 0 && t.batchSize > 0 && EveryPostReturns(t)
    requires o.sent == o.generated && o.failed == o.buffer == [] && o.errors == 0
    ensures var p := TickedBy(o, t, capacity);
            p.sent == p.generated && p.failed == p.buffer == [] && p.errors == 0
  {
    if t.readings != [] {
      EverythingDelivered(t.readings, t.batchSize, t.posts, 0);
      var p := TickFollowsThePosts(o, t, capacity);
    }
  }

  /** While no post returns, nothing counts as sent, and every generated reading is in the failure log, in order. */
  lemma {:induction false} DeadCollectorGetsNothing(ticks: seq<Tick>, r: Reading, capacity: nat)
    requires capacity > 0 && forall i :: 0 <= i < |ticks| ==> ticks[i].batchSize > 0 && NoPostReturns(ticks[i])
    ensures var o := AfterRun(ticks, capacity);
            o.sent == [] && o.failed == o.generated
    decreases |ticks|
  {
    if ticks != [] {
      var n := |ticks| - 1;
      DeadCollectorGetsNothing(ticks[..n], r, capacity);
      RunIsConserved(ticks[..n], r, capacity);
      DeadTick(AfterRun(ticks[..n], capacity), ticks[n], capacity);
    }
  }

  /** While every post returns, every generated reading is sent, in order and once, and nothing is ever buffered. */
  lemma {:induction false} LiveCollectorGetsAll(ticks: seq<Tick>, capacity: nat)
    requires capacity > 0 && forall i :: 0 <= i < |ticks| ==> ticks[i].batchSize > 0 && EveryPostReturns(ticks[i])
    ensures var o := AfterRun(ticks, capacity);
            o.sent == o.generated && o.failed == o.buffer == [] && o.errors == 0
    decreases |ticks|
  {
    if ticks != [] {
      var n := |ticks| - 1;
      LiveCollectorGetsAll(ticks[..n], capacity);
      LiveTick(AfterRun(ticks[..n], capacity), ticks[n], capacity);
    }
  }
}
