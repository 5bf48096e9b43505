/** Where the buckets of Largest-Triangle-Three-Buckets lie. */
module LttbBuckets {

  /** First index of bucket `i` when n rows are reduced to `threshold`: exact floor division. */
  function Start(n: nat, threshold: nat, i: nat): (s: nat)
    requires 2 < threshold < n
    ensures s >= 1
  {
    QuotientIsNat(i * (n - 2), threshold - 2);
    i * (n - 2) / (threshold - 2) + 1
  }

  lemma QuotientIsNat(a: nat, b: nat)
    requires b > 0
    ensures a / b >= 0
  {
  }

  lemma ProductMonotone(x: nat, y: nat, b: nat)
    requires x <= y
    ensures x * b <= y * b
  {
  }

  lemma {:induction false} QuotientAtLeast(a: nat, b: nat, q: nat)
    requires b > 0 && q * b <= a
    ensures a / b >= q
  {
    var d := a / b;
    assert a < (d + 1) * b;
    if d < q {
      ProductMonotone(d + 1, q, b);
    }
  }

  lemma {:induction false} QuotientAtMost(a: nat, b: nat, q: nat)
    requires b > 0 && a < (q + 1) * b
    ensures a / b <= q
  {
    var d := a / b;
    assert d * b <= a;
    if d > q {
      ProductMonotone(q + 1, d, b);
    }
  }

  lemma QuotientStep(a: nat, b: nat, m: nat)
    requires b > 0 && m >= b
    ensures (a + m) / b >= a / b + 1
  {
    var d := a / b;
    assert d * b <= a;
    assert (d + 1) * b == d * b + b;
    QuotientAtLeast(a + m, b, d + 1);
  }

  lemma BucketsAreNonempty(n: nat, threshold: nat, i: nat)
    requires 2 < threshold < n
    ensures Start(n, threshold, i) < Start(n, threshold, i + 1)
  {
    assert (i + 1) * (n - 2) == i * (n - 2) + (n - 2);
    QuotientStep(i * (n - 2), threshold - 2, n - 2);
  }

  lemma {:induction false} StartsIncrease(n: nat, threshold: nat, i: nat, j: nat)
    requires 2 < threshold < n && i < j
    ensures Start(n, threshold, i) < Start(n, threshold, j)
    decreases j - i
  {
    BucketsAreNonempty(n, threshold, j - 1);
    if i < j - 1 {
      StartsIncrease(n, threshold, i, j - 1);
    }
  }

  /** The buckets run from index 1 to index n - 2; what follows is the last row alone. */
  lemma {:induction false} BucketsSpanTheInterior(n: nat, threshold: nat)
    requires 2 < threshold < n
    ensures Start(n, threshold, 0) == 1
    ensures Start(n, threshold, threshold - 2) == n - 1
    ensures Start(n, threshold, threshold - 1) >= n
  {
    var a, b := (threshold - 2) * (n - 2), threshold - 2;
    assert a == (n - 2) * b;
    QuotientAtLeast(a, b, n - 2);
    QuotientAtMost(a, b, n - 2);
    BucketsAreNonempty(n, threshold, threshold - 2);
  }

  /** b buckets hold the whole part of b times (n - 2) / (threshold - 2) rows... */
  lemma {:induction false} BucketsFillUp(n: nat, threshold: nat, b: nat, k: nat, x: nat)
    requires 2 < threshold < n && k == threshold - 2 && x == b * (n - 2)
    ensures (Start(n, threshold, b) - 1) * k <= x < Start(n, threshold, b) * k
  {
    QuotientBounds(x, k);
  }

  /** ...so no two buckets differ by more than one row. */
  lemma {:induction false} BucketsAreEven(n: nat, threshold: nat, b: nat, c: nat)
    requires 2 < threshold < n
    ensures Start(n, threshold, b + 1) - Start(n, threshold, b)
            <= Start(n, threshold, c + 1) - Start(n, threshold, c) + 1
  {
    var k, m, x, y := threshold - 2, n - 2, b * (n - 2), c * (n - 2);
    OneFactorMore(b, m);
    OneFactorMore(c, m);
    BucketsFillUp(n, threshold, b, k, x);
    BucketsFillUp(n, threshold, b + 1, k, x + m);
    BucketsFillUp(n, threshold, c, k, y);
    BucketsFillUp(n, threshold, c + 1, k, y + m);
    SizesAreEven(Start(n, threshold, b) - 1, Start(n, threshold, b + 1) - 1, x, Start(n, threshold, c) - 1,
                 Start(n, threshold, c + 1) - 1, y, m, k);
  }

  lemma OneFactorMore(a: nat, m: nat)
    ensures (a + 1) * m == a * m + m
  {
  }

  lemma QuotientBounds(a: nat, k: nat)
    requires k > 0
    ensures a / k * k <= a < (a / k + 1) * k
  {
  }

  lemma {:induction false} SizesAreEven(p: int, q: int, x: int, r: int, s: int, y: int, m: int, k: int)
    requires k > 0 && q * k <= x + m && x < (p + 1) * k
    requires r * k <= y && y + m < (s + 1) * k
    ensures q - p <= s - r + 1
  {
    assert (q - p) * k == q * k - (p + 1) * k + k;
    assert (s - r + 2) * k == (s + 1) * k - r * k + k;
    FactorCancels(q - p, s - r + 2, k);
  }

  lemma {:induction false} FactorCancels(a: int, b: int, k: int)
    requires k > 0 && a * k < b * k
    ensures a < b
  {
    if a >= b {
      FactorKeeps(b, a, k);
    }
  }

  lemma {:induction false} FactorKeeps(a: int, b: int, k: int)
    requires a <= b && k > 0
    ensures a * k <= b * k
  {
  }

  /** End of the bucket after `i`, cut at the last row. */
  function End(n: nat, threshold: nat, i: nat): (e: nat)
    requires 2 < threshold < n
  {
    if Start(n, threshold, i + 1) < n then Start(n, threshold, i + 1) else n
  }

  lemma {:induction false} BucketBounds(n: nat, threshold: nat, i: nat)
    requires 2 < threshold < n && i <= threshold - 2
    ensures 1 <= Start(n, threshold, i) < End(n, threshold, i) <= n
    ensures i < threshold - 2 ==> End(n, threshold, i) == Start(n, threshold, i + 1) <= n - 1
    ensures i == threshold - 2 ==> Start(n, threshold, i) == n - 1 && End(n, threshold, i) == n
  {
    BucketsSpanTheInterior(n, threshold);
    BucketsAreNonempty(n, threshold, i);
    if i < threshold - 2 {
      if i + 1 < threshold - 2 {
        StartsIncrease(n, threshold, i + 1, threshold - 2);
      }
    }
  }

  /** The bucket an index lies in; the last row counts as bucket threshold - 2. */
  function BucketOf(n: nat, threshold: nat, k: nat, upTo: nat): (b: nat)
    requires 2 < threshold < n && 1 <= k <= n - 1 && upTo <= threshold - 2
    requires k < End(n, threshold, upTo)
    ensures b <= upTo && Start(n, threshold, b) <= k < End(n, threshold, b)
    decreases upTo
  {
    BucketsSpanTheInterior(n, threshold);
    if Start(n, threshold, upTo) <= k then upTo
    else
      assert upTo > 0;
      BucketBounds(n, threshold, upTo - 1);
      BucketOf(n, threshold, k, upTo - 1)
  }

  /** The buckets partition 1..n-1: every index lies in exactly one. */
  lemma {:induction false} BucketsPartition(n: nat, threshold: nat, k: nat, b: nat)
    requires 2 < threshold < n && 1 <= k <= n - 1 && b <= threshold - 2
    ensures End(n, threshold, threshold - 2) == n
    ensures b == BucketOf(n, threshold, k, threshold - 2) <==> Start(n, threshold, b) <= k < End(n, threshold, b)
  {
    BucketBounds(n, threshold, threshold - 2);
    var c := BucketOf(n, threshold, k, threshold - 2);
    BucketBounds(n, threshold, b);
    BucketBounds(n, threshold, c);
    if b < c {
      if b + 1 < c {
        StartsIncrease(n, threshold, b + 1, c);
      }
    } else if c < b {
      if c + 1 < b {
        StartsIncrease(n, threshold, c + 1, b);
      }
    }
  }
}

/** The area of a triangle, by the trapezoids under its sides. */
module Triangles {
  import opened Numbers

  datatype Spot = Spot(x: real, y: real)

  /** The signed area between a side and the axis. */
  function Trapezoid(p: Spot, q: Spot): real { (q.x - p.x) * (p.y + q.y) / 2.0 }

  function TriangleArea(a: Spot, b: Spot, c: Spot): real {
    Abs(Trapezoid(a, b) + Trapezoid(b, c) + Trapezoid(c, a))
  }

  /** The trapezoids under the sides, for a corner p and r + h away from the first, and another w and d away. */
  lemma {:induction false} SumOfTrapezoids(y: real, w: real, d: real, p: real, r: real, h: real)
    ensures p * (2.0 * y + r + h) / 2.0 + (w - p) * (2.0 * y + d + r + h) / 2.0 - w * (2.0 * y + d) / 2.0
         == (w * r - p * d + w * h) / 2.0
  {
    assert (w - p) * (2.0 * y + d + r + h) == w * (2.0 * y + d) + w * r + w * h - p * (2.0 * y + r + h) - p * d;
  }

  lemma {:induction false} SignedArea(a: Spot, b: Spot, c: Spot, w: real, d: real, p: real, r: real, h: real)
    requires w == c.x - a.x && d == c.y - a.y && p == b.x - a.x && r + h == b.y - a.y && w * r == p * d
    ensures Trapezoid(a, b) + Trapezoid(b, c) + Trapezoid(c, a) == w * h / 2.0
  {
    SumOfTrapezoids(a.y, w, d, p, r, h);
    assert Trapezoid(a, b) == p * (2.0 * a.y + r + h) / 2.0;
    assert Trapezoid(b, c) == (w - p) * (2.0 * a.y + d + r + h) / 2.0;
    assert Trapezoid(c, a) == -w * (2.0 * a.y + d) / 2.0;
  }

  /** It is half of base times height: for a corner that is h above or below the line through the other two, at any
      place along it. */
  lemma {:induction false} HalfBaseTimesHeight(a: Spot, b: Spot, c: Spot, t: real, h: real)
    requires b.x == a.x + t * (c.x - a.x) && b.y == a.y + t * (c.y - a.y) + h
    ensures TriangleArea(a, b, c) == Abs(c.x - a.x) * Abs(h) / 2.0
  {
    var w, d := c.x - a.x, c.y - a.y;
    assert w * (t * d) == (t * w) * d;
    SignedArea(a, b, c, w, d, t * w, t * d, h);
    AbsOfProduct(w, h);
  }

  lemma {:induction false} AbsOfProduct(x: real, y: real)
    ensures Abs(x * y / 2.0) == Abs(x) * Abs(y) / 2.0
  {
    SignedProduct(Abs(x), Abs(y));
    assert x >= 0.0 && y >= 0.0 ==> x * y == Abs(x) * Abs(y);
    assert x < 0.0 && y >= 0.0 ==> x * y == -(Abs(x) * Abs(y));
    assert x >= 0.0 && y < 0.0 ==> x * y == -(Abs(x) * Abs(y));
    assert x < 0.0 && y < 0.0 ==> x * y == Abs(x) * Abs(y);
  }

  lemma {:induction false} SignedProduct(x: real, y: real)
    requires x >= 0.0 && y >= 0.0
    ensures x * y >= 0.0
  {
  }
}

/** Largest-Triangle-Three-Buckets: the loop and what it picks. */
module Lttb {
  import opened Numbers
  import opened TelemetryRows
  import opened LttbBuckets

  // ----- Centroid of the data rows of a range

  function CountData(rows: seq<Row>, lo: nat, hi: nat): nat
    requires lo <= hi <= |rows|
    decreases hi - lo
  {
    if lo == hi then 0 else CountData(rows, lo, hi - 1) + (if IsGap(rows[hi - 1]) then 0 else 1)
  }

  function SumX(rows: seq<Row>, lo: nat, hi: nat): real
    requires lo <= hi <= |rows|
    decreases hi - lo
  {
    if lo == hi then 0.0 else SumX(rows, lo, hi - 1) + (if IsGap(rows[hi - 1]) then 0.0 else rows[hi - 1].bucket)
  }

  function SumY(rows: seq<Row>, lo: nat, hi: nat): real
    requires lo <= hi <= |rows|
    decreases hi - lo
  {
    if lo == hi then 0.0 else SumY(rows, lo, hi - 1) + (if IsGap(rows[hi - 1]) then 0.0 else rows[hi - 1].avg.value)
  }

  lemma {:induction false} NoDataMeansAllGaps(rows: seq<Row>, lo: nat, hi: nat)
    requires lo <= hi <= |rows|
    ensures CountData(rows, lo, hi) == 0 <==> AllGaps(rows, lo, hi)
    decreases hi - lo
  {
    if lo < hi {
      NoDataMeansAllGaps(rows, lo, hi - 1);
    }
  }

  // ----- The largest triangle of a range

  /** The two fixed corners: the previous pick and the centroid of the next bucket. */
  datatype Corners = Corners(ax: real, ay: real, cx: real, cy: real)

  function Area(c: Corners, x: real, y: real): real {
    Abs((c.ax - c.cx) * (y - c.ay) - (c.ax - x) * (c.cy - c.ay)) * 0.5
  }

  function AreaAt(rows: seq<Row>, c: Corners, j: nat): real
    requires j < |rows|
  {
    if IsGap(rows[j]) then 0.0 else Area(c, rows[j].bucket, rows[j].avg.value)
  }

  /** First index of maximal area in lo..hi. */
  function Largest(rows: seq<Row>, c: Corners, lo: nat, hi: nat): (best: nat)
    requires lo < hi <= |rows|
    ensures lo <= best < hi
    decreases hi - lo
  {
    if lo + 1 == hi then lo
    else
      var best := Largest(rows, c, lo, hi - 1);
      if AreaAt(rows, c, hi - 1) > AreaAt(rows, c, best) then hi - 1 else best
  }

  lemma {:induction false} LargestIsFirstMaximum(rows: seq<Row>, c: Corners, lo: nat, hi: nat)
    requires lo < hi <= |rows|
    ensures var best := Largest(rows, c, lo, hi);
            && (forall j :: lo <= j < hi ==> AreaAt(rows, c, j) <= AreaAt(rows, c, best))
            && (forall j :: lo <= j < best ==> AreaAt(rows, c, j) < AreaAt(rows, c, best))
    decreases hi - lo
  {
    if lo + 1 < hi {
      LargestIsFirstMaximum(rows, c, lo, hi - 1);
    }
  }

  /** First gap in lo..hi, or hi. */
  function FirstGap(rows: seq<Row>, lo: nat, hi: nat): (g: nat)
    requires lo <= hi <= |rows|
    ensures lo <= g <= hi && GapFree(rows, lo, g) && (g < hi ==> IsGap(rows[g]))
    decreases hi - lo
  {
    if lo == hi || IsGap(rows[lo]) then lo else FirstGap(rows, lo + 1, hi)
  }

  /** A bucket yields its first gap, or else the first row of maximal area. */
  function Choose(rows: seq<Row>, c: Corners, lo: nat, hi: nat): (pick: nat)
    requires lo < hi <= |rows|
    ensures lo <= pick < hi
  {
    if FirstGap(rows, lo, hi) < hi then FirstGap(rows, lo, hi) else Largest(rows, c, lo, hi)
  }

  function CornersFor(rows: seq<Row>, a: nat, lo: nat, hi: nat): Corners
    requires a < |rows| && lo <= hi <= |rows| && CountData(rows, lo, hi) > 0
  {
    var count := CountData(rows, lo, hi) as real;
    var cx, cy := SumX(rows, lo, hi) / count, SumY(rows, lo, hi) / count;
    Corners(rows[a].bucket, if IsGap(rows[a]) then cy else rows[a].avg.value, cx, cy)
  }

  /** What bucket `i` contributes after pick `a`: the middle of the next bucket if that holds no data. */
  function Pick(rows: seq<Row>, threshold: nat, i: nat, a: nat): (pick: nat)
    requires 2 < threshold < |rows| && i < threshold - 2 && a < |rows|
    ensures pick < |rows|
  {
    var n := |rows|;
    BucketBounds(n, threshold, i);
    BucketBounds(n, threshold, i + 1);
    var lo, hi := Start(n, threshold, i + 1), End(n, threshold, i + 1);
    if CountData(rows, lo, hi) == 0 then (lo + hi - 1) / 2
    else Choose(rows, CornersFor(rows, a, lo, hi), Start(n, threshold, i), Start(n, threshold, i + 1))
  }

  /** Indices picked by the first `i` buckets, after row 0. */
  function PicksUpTo(rows: seq<Row>, threshold: nat, i: nat): (picks: seq<nat>)
    requires 2 < threshold < |rows| && i <= threshold - 2
    ensures |picks| == i + 1 && forall j :: 0 <= j < |picks| ==> picks[j] < |rows|
    decreases i
  {
    if i == 0 then [0]
    else
      var before := PicksUpTo(rows, threshold, i - 1);
      before + [Pick(rows, threshold, i - 1, before[i - 1])]
  }

  function Picks(rows: seq<Row>, threshold: nat): (picks: seq<nat>)
    requires 2 < threshold < |rows|
    ensures forall j :: 0 <= j < |picks| ==> picks[j] < |rows|
  {
    PicksUpTo(rows, threshold, threshold - 2) + [|rows| - 1]
  }

  function Gather(rows: seq<Row>, picks: seq<nat>): (out: seq<Row>)
    requires forall j :: 0 <= j < |picks| ==> picks[j] < |rows|
    ensures |out| == |picks| && forall j :: 0 <= j < |out| ==> out[j] == rows[picks[j]]
  {
    seq(|picks|, j requires 0 <= j < |picks| => rows[picks[j]])
  }

  function Downsampled(rows: seq<Row>, threshold: int): seq<Row> {
    if threshold <= 2 || |rows| <= threshold then rows else Gather(rows, Picks(rows, threshold))
  }

  // ----- The loops

  /** The centroid loop of `_lttb`. */
  method SumData(rows: seq<Row>, lo: nat, hi: nat) returns (sumX: real, sumY: real, count: nat)
    requires lo <= hi <= |rows|
    ensures sumX == SumX(rows, lo, hi) && sumY == SumY(rows, lo, hi) && count == CountData(rows, lo, hi)
  {
    sumX, sumY, count := 0.0, 0.0, 0;
    for j := lo to hi
      invariant sumX == SumX(rows, lo, j) && sumY == SumY(rows, lo, j) && count == CountData(rows, lo, j)
    {
      if IsGap(rows[j]) {
        continue;
      }
      sumX := sumX + rows[j].bucket;
      sumY := sumY + rows[j].avg.value;
      count := count + 1;
    }
  }

  /** The selection loop of `_lttb`: stops at a gap, otherwise keeps the first largest area. */
  method SelectInBucket(rows: seq<Row>, c: Corners, lo: nat, hi: nat) returns (maxIdx: nat)
    requires lo < hi <= |rows|
    ensures maxIdx == Choose(rows, c, lo, hi)
  {
    var maxArea := -1.0;
    maxIdx := lo;
    for j := lo to hi
      invariant GapFree(rows, lo, j) && FirstGap(rows, lo, hi) >= j
      invariant j == lo ==> maxArea == -1.0 && maxIdx == lo
      invariant j > lo ==> maxIdx == Largest(rows, c, lo, j) && maxArea == AreaAt(rows, c, maxIdx)
    {
      if IsGap(rows[j]) {
        maxIdx := j;
        assert j == FirstGap(rows, lo, hi);
        break;
      }
      assert FirstGap(rows, lo, hi) != j;
      var area := Area(c, rows[j].bucket, rows[j].avg.value);
      if area > maxArea {
        maxArea, maxIdx := area, j;
      }
    }
  }

  /** One round of the outer loop of `_lttb`. */
  method PickForBucket(rows: seq<Row>, threshold: nat, i: nat, a: nat) returns (pick: nat)
    requires 2 < threshold < |rows| && i < threshold - 2 && a < |rows|
    ensures pick == Pick(rows, threshold, i, a)
  {
    var n := |rows|;
    BucketBounds(n, threshold, i);
    BucketBounds(n, threshold, i + 1);
    var nextStart, nextEnd := Start(n, threshold, i + 1), End(n, threshold, i + 1);
    var sumX, sumY, count := SumData(rows, nextStart, nextEnd);
    if count == 0 {
      return (nextStart + nextEnd - 1) / 2;
    }
    var avgX, avgY := sumX / (count as real), sumY / (count as real);
    var ay := if IsGap(rows[a]) then avgY else rows[a].avg.value;
    pick := SelectInBucket(rows, Corners(rows[a].bucket, ay, avgX, avgY), Start(n, threshold, i), nextStart);
  }

  lemma PicksStep(rows: seq<Row>, threshold: nat, i: nat)
    requires 2 < threshold < |rows| && i < threshold - 2
    ensures var picks := PicksUpTo(rows, threshold, i);
            PicksUpTo(rows, threshold, i + 1) == picks + [Pick(rows, threshold, i, picks[i])]
  {
  }

  lemma {:induction false} NextPick(rows: seq<Row>, threshold: nat, i: nat, picks: seq<nat>, a: nat)
    requires 2 < threshold < |rows| && i < threshold - 2 && picks == PicksUpTo(rows, threshold, i)
    requires a == Pick(rows, threshold, i, picks[i])
    ensures picks + [a] == PicksUpTo(rows, threshold, i + 1) && (picks + [a])[i + 1] == a
    ensures Gather(rows, picks + [a]) == Gather(rows, picks) + [rows[a]]
  {
    PicksStep(rows, threshold, i);
    GatherAppend(rows, picks, a);
  }

  method SampleBuckets(rows: seq<Row>, threshold: nat) returns (sampled: seq<Row>)
    requires 2 < threshold < |rows|
    ensures sampled == Gather(rows, PicksUpTo(rows, threshold, threshold - 2))
  {
    sampled := [rows[0]];
    var a := 0;
    ghost var picks := PicksUpTo(rows, threshold, 0);
    for i := 0 to threshold - 2
      invariant picks == PicksUpTo(rows, threshold, i) && a == picks[i]
      invariant sampled == Gather(rows, picks)
    {
      a := PickForBucket(rows, threshold, i, a);
      NextPick(rows, threshold, i, picks, a);
      picks := picks + [a];
      sampled := sampled + [rows[a]];
    }
  }

  /** `_lttb`. */
  method Downsample(rows: seq<Row>, threshold: int) returns (sampled: seq<Row>)
    ensures sampled == Downsampled(rows, threshold)
  {
    if threshold <= 2 || |rows| <= threshold {
      return rows;
    }
    sampled := SampleBuckets(rows, threshold);
    GatherAppend(rows, PicksUpTo(rows, threshold, threshold - 2), |rows| - 1);
    sampled := sampled + [rows[|rows| - 1]];
  }

  lemma GatherAppend(rows: seq<Row>, picks: seq<nat>, p: nat)
    requires p < |rows| && forall j :: 0 <= j < |picks| ==> picks[j] < |rows|
    ensures Gather(rows, picks + [p]) == Gather(rows, picks) + [rows[p]]
  {
  }
}

/** What downsampling keeps, and exactly when it keeps the order. */
module LttbTheorems {
  import opened TelemetryRows
  import opened Triangles
  import opened LttbBuckets
  import opened Lttb

  /** Pick `i + 1` is what bucket `i` contributes after the pick before it. */
  lemma {:induction false} PickAt(rows: seq<Row>, threshold: nat, upTo: nat, i: nat)
    requires 2 < threshold < |rows| && i < upTo <= threshold - 2
    ensures PicksUpTo(rows, threshold, upTo)[i + 1]
            == Pick(rows, threshold, i, PicksUpTo(rows, threshold, upTo)[i])
    decreases upTo
  {
    if i + 1 < upTo {
      PickAt(rows, threshold, upTo - 1, i);
    }
  }

  lemma {:induction false} FirstPick(rows: seq<Row>, threshold: nat, upTo: nat)
    requires 2 < threshold < |rows| && upTo <= threshold - 2
    ensures PicksUpTo(rows, threshold, upTo)[0] == 0
    decreases upTo
  {
    if upTo > 0 {
      FirstPick(rows, threshold, upTo - 1);
    }
  }

  lemma {:induction false} PicksHaveEnds(rows: seq<Row>, threshold: nat)
    requires 2 < threshold < |rows|
    ensures |Picks(rows, threshold)| == threshold
    ensures Picks(rows, threshold)[0] == 0 && Picks(rows, threshold)[threshold - 1] == |rows| - 1
  {
    FirstPick(rows, threshold, threshold - 2);
    var inner := PicksUpTo(rows, threshold, threshold - 2);
    assert |inner| == threshold - 1;
  }

  /** Exactly `threshold` rows come out, the first and last of the input among them in their places. */
  lemma {:induction false} OutputSizeAndEnds(rows: seq<Row>, threshold: nat)
    requires 2 < threshold < |rows|
    ensures |Picks(rows, threshold)| == threshold
    ensures Picks(rows, threshold)[0] == 0 && Picks(rows, threshold)[threshold - 1] == |rows| - 1
    ensures var out := Downsampled(rows, threshold);
            |out| == threshold && out[0] == rows[0] && out[threshold - 1] == rows[|rows| - 1]
  {
    PicksHaveEnds(rows, threshold);
  }

  /** The rows that come out are those picked, in the order they were picked. */
  lemma {:induction false} OutputIsPicked(rows: seq<Row>, threshold: nat, k: nat)
    requires 2 < threshold < |rows| && k < threshold
    ensures k < |Downsampled(rows, threshold)| && k < |Picks(rows, threshold)|
    ensures Downsampled(rows, threshold)[k] == rows[Picks(rows, threshold)[k]]
  {
    OutputSizeAndEnds(rows, threshold);
  }

  /** The bucket after `i` holds no data at all. */
  ghost predicate FullGap(rows: seq<Row>, threshold: nat, b: nat)
    requires 2 < threshold < |rows| && b <= threshold - 2
  {
    BucketBounds(|rows|, threshold, b);
    AllGaps(rows, Start(|rows|, threshold, b), End(|rows|, threshold, b))
  }

  /** What bucket `i` chooses after pick `a` when the next bucket holds data. */
  function ChosenIndex(rows: seq<Row>, threshold: nat, i: nat, a: nat): nat
    requires 2 < threshold < |rows| && i < threshold - 2 && a < |rows|
  {
    var n := |rows|;
    BucketBounds(n, threshold, i);
    BucketBounds(n, threshold, i + 1);
    var lo, hi := Start(n, threshold, i + 1), End(n, threshold, i + 1);
    if CountData(rows, lo, hi) == 0 then 0
    else Choose(rows, CornersFor(rows, a, lo, hi), Start(n, threshold, i), Start(n, threshold, i + 1))
  }

  lemma {:induction false} PickCases(rows: seq<Row>, threshold: nat, i: nat, a: nat)
    requires 2 < threshold < |rows| && i < threshold - 2 && a < |rows|
    ensures var n, p := |rows|, Pick(rows, threshold, i, a);
            var lo, mid, hi := Start(n, threshold, i), Start(n, threshold, i + 1), End(n, threshold, i + 1);
            && lo < mid < hi <= n
            && (FullGap(rows, threshold, i + 1) ==> mid <= p < hi && p == (mid + hi - 1) / 2)
            && (!FullGap(rows, threshold, i + 1) ==> lo <= p < mid && p == ChosenIndex(rows, threshold, i, a))
  {
    var n := |rows|;
    BucketBounds(n, threshold, i);
    BucketBounds(n, threshold, i + 1);
    NoDataMeansAllGaps(rows, Start(n, threshold, i + 1), End(n, threshold, i + 1));
  }

  /** Where pick `i + 1` falls: in the middle of bucket i + 1 if that is all gaps, else in bucket i, which
      then yields its first gap or, without gaps, the first row of maximal area. */
  lemma {:induction false} PickFalls(rows: seq<Row>, threshold: nat, i: nat)
    requires 2 < threshold < |rows| && i < threshold - 2
    ensures i + 1 < |Picks(rows, threshold)|
    ensures var n, p := |rows|, Picks(rows, threshold)[i + 1];
            var lo, mid, hi := Start(n, threshold, i), Start(n, threshold, i + 1), End(n, threshold, i + 1);
            && lo < mid < hi <= n
            && (FullGap(rows, threshold, i + 1) ==> mid <= p < hi && p == (mid + hi - 1) / 2)
            && (!FullGap(rows, threshold, i + 1) ==>
                  lo <= p < mid && p == ChosenIndex(rows, threshold, i, Picks(rows, threshold)[i]))
  {
    PickAt(rows, threshold, threshold - 2, i);
    PickCases(rows, threshold, i, PicksUpTo(rows, threshold, threshold - 2)[i]);
  }

  ghost predicate StrictlyIncreasing(picks: seq<nat>) {
    forall i, j :: 0 <= i < j < |picks| ==> picks[i] < picks[j]
  }

  ghost predicate Nondecreasing(picks: seq<nat>) {
    forall i, j :: 0 <= i < j < |picks| ==> picks[i] <= picks[j]
  }

  lemma {:induction false} StepsIncreaseAll(picks: seq<nat>, i: nat, j: nat)
    requires forall k :: 0 <= k < |picks| - 1 ==> picks[k] < picks[k + 1]
    requires i < j < |picks|
    ensures picks[i] < picks[j]
    decreases j - i
  {
    if i + 1 < j {
      StepsIncreaseAll(picks, i, j - 1);
    }
  }

  lemma {:induction false} StepsKeepAll(picks: seq<nat>, i: nat, j: nat)
    requires forall k :: 0 <= k < |picks| - 1 ==> picks[k] <= picks[k + 1]
    requires i < j < |picks|
    ensures picks[i] <= picks[j]
    decreases j - i
  {
    if i + 1 < j {
      StepsKeepAll(picks, i, j - 1);
    }
  }

  // ----- The triangles, by their corners

  /** The area computed is that of the triangle. */
  lemma {:induction false} AreaIsTriangle(c: Corners, x: real, y: real)
    ensures Area(c, x, y) == TriangleArea(Spot(c.ax, c.ay), Spot(x, y), Spot(c.cx, c.cy))
  {
    var a, b, e := Spot(c.ax, c.ay), Spot(x, y), Spot(c.cx, c.cy);
    var twice := (c.ax - c.cx) * (y - c.ay) - (c.ax - x) * (c.cy - c.ay);
    assert Trapezoid(a, b) + Trapezoid(b, e) + Trapezoid(e, a) == -(twice * 0.5);
  }

  /** How far the data rows of a range lie from a time, and from a value, in sum. */
  function TimeOffsets(rows: seq<Row>, lo: nat, hi: nat, x: real): real
    requires lo <= hi <= |rows|
    decreases hi - lo
  {
    if lo == hi then 0.0
    else TimeOffsets(rows, lo, hi - 1, x) + if IsGap(rows[hi - 1]) then 0.0 else rows[hi - 1].bucket - x
  }

  function ValueOffsets(rows: seq<Row>, lo: nat, hi: nat, y: real): real
    requires lo <= hi <= |rows|
    decreases hi - lo
  {
    if lo == hi then 0.0
    else ValueOffsets(rows, lo, hi - 1, y) + if IsGap(rows[hi - 1]) then 0.0 else rows[hi - 1].avg.value - y
  }

  /** The centre of the data rows of a range: their offsets from it cancel. */
  ghost predicate IsCentre(rows: seq<Row>, lo: nat, hi: nat, c: Spot)
    requires lo <= hi <= |rows|
  {
    TimeOffsets(rows, lo, hi, c.x) == 0.0 && ValueOffsets(rows, lo, hi, c.y) == 0.0
  }

  lemma {:induction false} OffsetsOf(rows: seq<Row>, lo: nat, hi: nat, c: Spot, count: real)
    requires lo <= hi <= |rows| && count == CountData(rows, lo, hi) as real
    ensures TimeOffsets(rows, lo, hi, c.x) == SumX(rows, lo, hi) - count * c.x
    ensures ValueOffsets(rows, lo, hi, c.y) == SumY(rows, lo, hi) - count * c.y
    decreases hi - lo
  {
    if lo < hi {
      if IsGap(rows[hi - 1]) {
        OffsetsOf(rows, lo, hi - 1, c, count);
      } else {
        OffsetsOf(rows, lo, hi - 1, c, count - 1.0);
        assert count * c.x == (count - 1.0) * c.x + c.x && count * c.y == (count - 1.0) * c.y + c.y;
      }
    }
  }

  lemma {:induction false} CornerIsCentre(rows: seq<Row>, a: nat, lo: nat, hi: nat)
    requires a < |rows| && lo <= hi <= |rows| && CountData(rows, lo, hi) > 0
    ensures var c := CornersFor(rows, a, lo, hi);
            IsCentre(rows, lo, hi, Spot(c.cx, c.cy))
  {
    var c, count := CornersFor(rows, a, lo, hi), CountData(rows, lo, hi) as real;
    OffsetsOf(rows, lo, hi, Spot(c.cx, c.cy), count);
    assert SumX(rows, lo, hi) / count * count == SumX(rows, lo, hi);
    assert SumY(rows, lo, hi) / count * count == SumY(rows, lo, hi);
  }

  /** The triangle of a data row with the pick before it and the centre of the next bucket. A pick that is a gap
      stands at the height of the centre. */
  function TriangleAt(rows: seq<Row>, previous: nat, j: nat, centre: Spot): real
    requires previous < |rows| && j < |rows| && !IsGap(rows[j])
  {
    var a := rows[previous];
    TriangleArea(Spot(a.bucket, if IsGap(a) then centre.y else a.avg.value),
                 Spot(rows[j].bucket, rows[j].avg.value), centre)
  }

  lemma {:induction false} AreaAtIsTriangle(rows: seq<Row>, a: nat, lo: nat, hi: nat, j: nat)
    requires a < |rows| && lo <= hi <= |rows| && CountData(rows, lo, hi) > 0 && j < |rows| && !IsGap(rows[j])
    ensures var c := CornersFor(rows, a, lo, hi);
            AreaAt(rows, c, j) == TriangleAt(rows, a, j, Spot(c.cx, c.cy))
  {
    AreaIsTriangle(CornersFor(rows, a, lo, hi), rows[j].bucket, rows[j].avg.value);
  }

  /** `best` is the first row of lo..mid, all of them data, whose triangle with the previous pick and the centre of
      mid..hi is largest. */
  ghost predicate IsFirstLargest(rows: seq<Row>, previous: nat, lo: nat, mid: nat, hi: nat, best: nat, centre: Spot) {
    && previous < |rows| && lo <= best < mid <= hi <= |rows| && GapFree(rows, lo, mid)
    && IsCentre(rows, mid, hi, centre)
    && (forall j :: lo <= j < mid ==> TriangleAt(rows, previous, j, centre) <= TriangleAt(rows, previous, best, centre))
    && (forall j :: lo <= j < best ==> TriangleAt(rows, previous, j, centre) < TriangleAt(rows, previous, best, centre))
  }

  lemma {:induction false} LargestByTriangle(rows: seq<Row>, a: nat, lo: nat, mid: nat, hi: nat)
    requires a < |rows| && lo < mid < hi <= |rows| && GapFree(rows, lo, mid) && CountData(rows, mid, hi) > 0
    ensures var c := CornersFor(rows, a, mid, hi);
            IsFirstLargest(rows, a, lo, mid, hi, Choose(rows, c, lo, mid), Spot(c.cx, c.cy))
  {
    var c := CornersFor(rows, a, mid, hi);
    var centre := Spot(c.cx, c.cy);
    assert FirstGap(rows, lo, mid) == mid;
    CornerIsCentre(rows, a, mid, hi);
    LargestIsFirstMaximum(rows, c, lo, mid);
    forall j | lo <= j < mid ensures AreaAt(rows, c, j) == TriangleAt(rows, a, j, centre) {
      AreaAtIsTriangle(rows, a, mid, hi, j);
    }
  }

  /** What a bucket yields when the next one holds data: its first gap if it has one, else the first row of largest
      triangle. */
  lemma {:induction false} BucketYields(rows: seq<Row>, threshold: nat, i: nat) returns (centre: Spot)
    requires 2 < threshold < |rows| && i < threshold - 2 && !FullGap(rows, threshold, i + 1)
    ensures i + 1 < |Picks(rows, threshold)|
    ensures var n, picks := |rows|, Picks(rows, threshold);
            var lo, mid, hi := Start(n, threshold, i), Start(n, threshold, i + 1), End(n, threshold, i + 1);
            && lo < mid < hi <= n
            && (if GapFree(rows, lo, mid) then IsFirstLargest(rows, picks[i], lo, mid, hi, picks[i + 1], centre)
                else lo <= picks[i + 1] < mid && IsGap(rows[picks[i + 1]]) && GapFree(rows, lo, picks[i + 1]))
  {
    PickFalls(rows, threshold, i);
    var n, a := |rows|, Picks(rows, threshold)[i];
    var lo, mid, hi := Start(n, threshold, i), Start(n, threshold, i + 1), End(n, threshold, i + 1);
    NoDataMeansAllGaps(rows, mid, hi);
    var c := CornersFor(rows, a, mid, hi);
    centre := Spot(c.cx, c.cy);
    if GapFree(rows, lo, mid) {
      LargestByTriangle(rows, a, lo, mid, hi);
    } else {
      var j :| lo <= j < mid && IsGap(rows[j]);
      assert FirstGap(rows, lo, mid) <= j;
    }
  }

  /** Without gaps: one pick per bucket, in strictly increasing order, each the first row of largest triangle in its
      bucket against the previous pick and the centre of the next bucket. */
  lemma {:induction false} GapFreePicks(rows: seq<Row>, threshold: nat, i: nat) returns (centre: Spot)
    requires 2 < threshold < |rows| && i < threshold - 2 && GapFree(rows, 0, |rows|)
    ensures StrictlyIncreasing(Picks(rows, threshold))
    ensures i + 1 < |Picks(rows, threshold)|
    ensures var n, picks := |rows|, Picks(rows, threshold);
            IsFirstLargest(rows, picks[i], Start(n, threshold, i), Start(n, threshold, i + 1),
                           End(n, threshold, i + 1), picks[i + 1], centre)
  {
    var n := |rows|;
    forall b | 0 <= b <= threshold - 2 ensures !FullGap(rows, threshold, b) {
      BucketBounds(n, threshold, b);
      assert !IsGap(rows[Start(n, threshold, b)]);
    }
    OrderKeptIffNoFullGap(rows, threshold);
    centre := BucketYields(rows, threshold, i);
  }

  /** Gaps stay visible: a bucket with a gap row yields a gap row at its place in the output. */
  lemma {:induction false} GapsStayVisible(rows: seq<Row>, threshold: nat, i: nat, k: nat)
    requires 2 < threshold < |rows| && i < threshold - 2
    requires Start(|rows|, threshold, i) <= k < Start(|rows|, threshold, i + 1) && k < |rows| && IsGap(rows[k])
    ensures i + 1 < |Downsampled(rows, threshold)| && IsGap(Downsampled(rows, threshold)[i + 1])
  {
    PickFalls(rows, threshold, i);
    var n := |rows|;
    var lo, mid := Start(n, threshold, i), Start(n, threshold, i + 1);
    if !FullGap(rows, threshold, i + 1) {
      assert FirstGap(rows, lo, mid) <= k;
    }
  }

  /** The bucket a pick comes from is its own or the next one, so bucket numbers never go back. */
  lemma {:induction false} BucketNumbersNeverGoBack(rows: seq<Row>, threshold: nat, i: nat, j: nat)
    requires 2 < threshold < |rows| && i < j < threshold - 2
    ensures var n, picks := |rows|, Picks(rows, threshold);
            && |picks| == threshold && 1 <= picks[i + 1] <= n - 1 && 1 <= picks[j + 1] <= n - 1
            && End(n, threshold, threshold - 2) == n
            && BucketOf(n, threshold, picks[i + 1], threshold - 2)
               <= BucketOf(n, threshold, picks[j + 1], threshold - 2)
  {
    OutputSizeAndEnds(rows, threshold);
    PickBucket(rows, threshold, i);
    PickBucket(rows, threshold, j);
  }

  lemma {:induction false} PickBucket(rows: seq<Row>, threshold: nat, i: nat)
    requires 2 < threshold < |rows| && i < threshold - 2
    ensures var n := |rows|;
            && i + 1 < |Picks(rows, threshold)|
            && End(n, threshold, threshold - 2) == n
            && 1 <= Picks(rows, threshold)[i + 1] <= n - 1
            && BucketOf(n, threshold, Picks(rows, threshold)[i + 1], threshold - 2)
               == if FullGap(rows, threshold, i + 1) then i + 1 else i
  {
    var n := |rows|;
    PickFalls(rows, threshold, i);
    BucketBounds(n, threshold, i);
    BucketBounds(n, threshold, i + 1);
    var p := Picks(rows, threshold)[i + 1];
    BucketsPartition(n, threshold, p, if FullGap(rows, threshold, i + 1) then i + 1 else i);
  }

  /** The last bucket of a row of all-gap buckets is sampled twice: its middle by the bucket before it, and then
      its first row by itself. */
  lemma {:induction false} LastFullGapIsRepeated(rows: seq<Row>, threshold: nat, b: nat)
    requires 2 < threshold < |rows| && 1 <= b < threshold - 2
    requires FullGap(rows, threshold, b) && !FullGap(rows, threshold, b + 1)
    ensures b + 1 < |Picks(rows, threshold)|
    ensures var (lo, hi) := (Start(|rows|, threshold, b), End(|rows|, threshold, b));
            && Picks(rows, threshold)[b + 1] == lo < hi && Picks(rows, threshold)[b] == (lo + hi - 1) / 2
            && Picks(rows, threshold)[b + 1] <= Picks(rows, threshold)[b] < hi
  {
    PickFalls(rows, threshold, b - 1);
    PickFalls(rows, threshold, b);
    var lo := Start(|rows|, threshold, b);
    assert IsGap(rows[lo]);
    assert FirstGap(rows, lo, Start(|rows|, threshold, b + 1)) == lo;
  }

  lemma {:induction false} LastRowGapIsRepeated(rows: seq<Row>, threshold: nat)
    requires 2 < threshold < |rows| && FullGap(rows, threshold, threshold - 2)
    ensures |Picks(rows, threshold)| == threshold
    ensures Picks(rows, threshold)[threshold - 1] <= Picks(rows, threshold)[threshold - 2]
  {
    var b := threshold - 3;
    OutputSizeAndEnds(rows, threshold);
    PickFalls(rows, threshold, b);
    BucketBounds(|rows|, threshold, b + 1);
  }

  lemma {:induction false} FullGapBreaksOrder(rows: seq<Row>, threshold: nat, b: nat)
    requires 2 < threshold < |rows| && 1 <= b <= threshold - 2 && FullGap(rows, threshold, b)
    ensures !StrictlyIncreasing(Picks(rows, threshold))
    decreases threshold - b
  {
    if b == threshold - 2 {
      LastRowGapIsRepeated(rows, threshold);
    } else if FullGap(rows, threshold, b + 1) {
      FullGapBreaksOrder(rows, threshold, b + 1);
    } else {
      LastFullGapIsRepeated(rows, threshold, b);
    }
  }

  lemma {:induction false} PicksStepUp(rows: seq<Row>, threshold: nat, k: nat)
    requires 2 < threshold < |rows| && k < threshold - 1
    requires forall b :: 1 <= b <= threshold - 2 ==> !FullGap(rows, threshold, b)
    ensures |Picks(rows, threshold)| == threshold && Picks(rows, threshold)[k] < Picks(rows, threshold)[k + 1]
  {
    OutputSizeAndEnds(rows, threshold);
    if k < threshold - 2 {
      PickFalls(rows, threshold, k);
    }
    if k > 0 {
      PickFalls(rows, threshold, k - 1);
      BucketBounds(|rows|, threshold, k);
    }
  }

  /** The exact condition for an ordered output: no bucket after the first, and not the last row, is all gaps. */
  lemma {:induction false} OrderKeptIffNoFullGap(rows: seq<Row>, threshold: nat)
    requires 2 < threshold < |rows|
    ensures StrictlyIncreasing(Picks(rows, threshold)) <==>
            forall b :: 1 <= b <= threshold - 2 ==> !FullGap(rows, threshold, b)
  {
    var picks := Picks(rows, threshold);
    OutputSizeAndEnds(rows, threshold);
    if b :| 1 <= b <= threshold - 2 && FullGap(rows, threshold, b) {
      FullGapBreaksOrder(rows, threshold, b);
    } else {
      forall k | 0 <= k < |picks| - 1 ensures picks[k] < picks[k + 1] {
        PicksStepUp(rows, threshold, k);
      }
      forall i, j | 0 <= i < j < |picks| ensures picks[i] < picks[j] {
        StepsIncreaseAll(picks, i, j);
      }
    }
  }
}

/** The end of `query_bucketed`: gap markers first, downsampling after. */
module QueryPipeline {
  import opened TelemetryRows
  import opened GapMarkers
  import opened LttbBuckets
  import opened Lttb
  import opened LttbTheorems

  function Finished(rows: seq<Row>, bucketSeconds: real, maxPoints: int): seq<Row> {
    var marked := MarkGaps(rows, bucketSeconds);
    if maxPoints != 0 && |marked| > maxPoints then Downsampled(marked, maxPoints) else marked
  }

  method FinishRows(fetched: seq<Row>, bucketSeconds: real, maxPoints: int) returns (rows: seq<Row>)
    ensures rows == Finished(fetched, bucketSeconds, maxPoints)
  {
    rows := InsertGapMarkers(fetched, bucketSeconds);
    if maxPoints != 0 && |rows| > maxPoints {
      rows := Downsample(rows, maxPoints);
    }
  }

  /** Without a limit, below three points, or when they fit, the rows leave as they were marked. */
  lemma FittingRowsAreUntouched(rows: seq<Row>, bucketSeconds: real, maxPoints: int)
    requires maxPoints < 3 || |MarkGaps(rows, bucketSeconds)| <= maxPoints
    ensures Finished(rows, bucketSeconds, maxPoints) == MarkGaps(rows, bucketSeconds)
  {
  }

  /** The row limit is kept exactly when it is at least 3 or was no limit to begin with. */
  lemma RowLimitKeptIff(rows: seq<Row>, bucketSeconds: real, maxPoints: int)
    ensures |Finished(rows, bucketSeconds, maxPoints)| <= maxPoints <==>
            maxPoints >= 3 || |MarkGaps(rows, bucketSeconds)| <= maxPoints
  {
    var marked := MarkGaps(rows, bucketSeconds);
    if 2 < maxPoints < |marked| {
      OutputSizeAndEnds(marked, maxPoints);
    }
  }

  /** Among isolated gaps an all-gap bucket is a single row. */
  lemma FullGapIsSingle(rows: seq<Row>, threshold: nat, b: nat)
    requires 2 < threshold < |rows| && b <= threshold - 2 && GapsIsolated(rows) && FullGap(rows, threshold, b)
    ensures End(|rows|, threshold, b) == Start(|rows|, threshold, b) + 1
  {
    BucketBounds(|rows|, threshold, b);
    var lo := Start(|rows|, threshold, b);
    if lo + 1 < |rows| {
      assert !IsGap(rows[lo]) || !IsGap(rows[lo + 1]);
    }
  }

  /** Every pick but the first lies in its own bucket or, when the next one is a single gap, is that gap. */
  lemma {:induction false} PickIsBeforeNextEnd(rows: seq<Row>, threshold: nat, k: nat)
    requires 2 < threshold < |rows| && GapsIsolated(rows) && 0 < k <= threshold - 2
    ensures k < |Picks(rows, threshold)| && Picks(rows, threshold)[k] <= Start(|rows|, threshold, k)
  {
    PickFalls(rows, threshold, k - 1);
    BucketBounds(|rows|, threshold, k);
    if FullGap(rows, threshold, k) {
      FullGapIsSingle(rows, threshold, k);
    }
  }

  lemma {:induction false} NextPickIsNoEarlier(rows: seq<Row>, threshold: nat, k: nat)
    requires 2 < threshold < |rows| && GapsIsolated(rows) && k < threshold - 1
    ensures |Picks(rows, threshold)| == threshold
    ensures Picks(rows, threshold)[k] <= Picks(rows, threshold)[k + 1]
  {
    OutputSizeAndEnds(rows, threshold);
    if k > 0 {
      PickIsBeforeNextEnd(rows, threshold, k);
    }
    if k < threshold - 2 {
      PickFalls(rows, threshold, k);
    } else {
      BucketBounds(|rows|, threshold, k);
    }
  }

  lemma {:induction false} IsolatedGapsKeepIndexOrder(rows: seq<Row>, threshold: nat)
    requires 2 < threshold < |rows| && GapsIsolated(rows) && !IsGap(rows[|rows| - 1])
    ensures Nondecreasing(Picks(rows, threshold))
  {
    var picks := Picks(rows, threshold);
    OutputSizeAndEnds(rows, threshold);
    forall k | 0 <= k < |picks| - 1 ensures picks[k] <= picks[k + 1] {
      NextPickIsNoEarlier(rows, threshold, k);
    }
    forall i, j | 0 <= i < j < |picks| ensures picks[i] <= picks[j] {
      StepsKeepAll(picks, i, j);
    }
  }

  lemma GatherKeepsOrder(rows: seq<Row>, picks: seq<nat>, strict: bool, strictOut: bool)
    requires forall j :: 0 <= j < |picks| ==> picks[j] < |rows|
    requires InTimeOrder(rows, strict) && Nondecreasing(picks)
    requires strictOut ==> strict && StrictlyIncreasing(picks)
    ensures InTimeOrder(Gather(rows, picks), strictOut)
  {
    forall i, j | 0 <= i < j < |picks|
      ensures rows[picks[i]].bucket <= rows[picks[j]].bucket
              && (strictOut ==> rows[picks[i]].bucket < rows[picks[j]].bucket)
    {
      assert picks[i] <= picks[j];
    }
  }

  /** If rows are sampled at all, no bucket after the first is just a marker. */
  ghost predicate NoLoneMarker(marked: seq<Row>, maxPoints: int) {
    2 < maxPoints < |marked| ==> forall b :: 1 <= b <= maxPoints - 2 ==> !FullGap(marked, maxPoints, b)
  }

  lemma {:induction false} RepeatedPickBreaksOrder(rows: seq<Row>, picks: seq<nat>)
    requires forall j :: 0 <= j < |picks| ==> picks[j] < |rows|
    requires Nondecreasing(picks) && !StrictlyIncreasing(picks)
    ensures !InTimeOrder(Gather(rows, picks), true)
  {
    var i, j :| 0 <= i < j < |picks| && picks[i] >= picks[j];
    assert picks[i] == picks[j];
    assert Gather(rows, picks)[i] == Gather(rows, picks)[j];
  }

  lemma {:induction false} SampledInTimeOrder(rows: seq<Row>, threshold: nat, strict: bool)
    requires 2 < threshold < |rows| && InTimeOrder(rows, strict) && GapsIsolated(rows)
    requires !IsGap(rows[|rows| - 1])
    ensures InTimeOrder(Downsampled(rows, threshold), false)
    ensures strict ==> (InTimeOrder(Downsampled(rows, threshold), true) <==> NoLoneMarker(rows, threshold))
  {
    var picks := Picks(rows, threshold);
    IsolatedGapsKeepIndexOrder(rows, threshold);
    GatherKeepsOrder(rows, picks, strict, false);
    OrderKeptIffNoFullGap(rows, threshold);
    if StrictlyIncreasing(picks) {
      GatherKeepsOrder(rows, picks, strict, strict);
    } else {
      RepeatedPickBreaksOrder(rows, picks);
    }
  }

  /** For data rows in time order the finished chart is in time order, whatever the gaps and the limit:
      markers never touch, so the one bucket downsampling can repeat is a single marker. For rows strictly in
      order it is strictly in order exactly when no bucket after the first is just a marker. */
  lemma {:induction false} FinishedRowsAreInTimeOrder(rows: seq<Row>, bucketSeconds: real, maxPoints: int, strict: bool)
    requires InTimeOrder(rows, strict) && GapFree(rows, 0, |rows|)
    ensures InTimeOrder(Finished(rows, bucketSeconds, maxPoints), false)
    ensures strict ==>
              (InTimeOrder(Finished(rows, bucketSeconds, maxPoints), true) <==>
               NoLoneMarker(MarkGaps(rows, bucketSeconds), maxPoints))
  {
    var marked := MarkGaps(rows, bucketSeconds);
    MarkingKeepsTimeOrder(rows, bucketSeconds, strict);
    MarkersAreIsolated(rows, bucketSeconds);
    if 2 < maxPoints < |marked| {
      SampledInTimeOrder(marked, maxPoints, strict);
    }
  }
}
