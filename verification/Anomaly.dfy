/** Z-score anomaly detection over the samples of one sensor. */
module AnomalyDetector {
  import opened Numbers
  import opened RealSums

  function Mean(values: seq<real>): real
    requires values != []
  {
    Sum(values) / |values| as real
  }

  function Deviations(values: seq<real>): (d: seq<real>)
    requires values != []
    ensures |d| == |values| && forall i :: 0 <= i < |d| ==> d[i] == values[i] - Mean(values)
  {
    Shifted(values, Mean(values))
  }

  function Shifted(values: seq<real>, m: real): (d: seq<real>)
    ensures |d| == |values| && forall i :: 0 <= i < |d| ==> d[i] == values[i] - m
  {
    seq(|values|, i requires 0 <= i < |values| => values[i] - m)
  }

  /** The population variance. */
  function Variance(values: seq<real>): real
    requires values != []
  {
    Sum(Squares(Deviations(values))) / |values| as real
  }

  /** `std` is the nonnegative square root of the variance. */
  ghost predicate IsDeviation(std: real, values: seq<real>)
    requires values != []
  {
    std >= 0.0 && Sq(std) == Variance(values)
  }

  predicate Flagged(deviation: real, std: real, threshold: real)
    requires std != 0.0
  {
    Abs(deviation) / std > threshold
  }

  /** The positions whose deviation is more than `threshold` times `std`. */
  function Outliers(deviations: seq<real>, std: real, threshold: real): (r: seq<nat>)
    requires std != 0.0
    ensures forall i: nat :: i in r <==> i < |deviations| && Flagged(deviations[i], std, threshold)
    ensures forall j, k :: 0 <= j < k < |r| ==> r[j] < r[k]
    decreases |deviations|
  {
    if deviations == [] then []
    else
      var n: nat := |deviations| - 1;
      var before := Outliers(deviations[..n], std, threshold);
      assert forall i: nat :: i < n ==> deviations[..n][i] == deviations[i];
      assert forall k :: 0 <= k < |before| ==> before[k] in before;
      if Flagged(deviations[n], std, threshold) then before + [n] else before
  }

  /** `detect_zscore_anomalies`; `std` is what the square root of the variance comes to. */
  function Detect(values: seq<real>, threshold: real, std: real): seq<nat> {
    if |values| < 2 || std == 0.0 then [] else Outliers(Deviations(values), std, threshold)
  }

  // ----- Comparing squares instead

  lemma {:induction false} RatioAbove(a: real, std: real, t: real)
    requires std > 0.0
    ensures a / std > t <==> a > t * std
  {
    ScalingKeepsOrder(t, a / std, std);
    assert a / std * std == a;
  }

  lemma {:induction false} SquareOfProduct(t: real, s: real, v: real)
    requires v == Sq(s)
    ensures Sq(t * s) == Sq(t) * v
  {
  }

  lemma {:induction false} NegatedSquare(x: real)
    ensures Sq(Abs(x)) == Sq(x)
  {
  }

  lemma {:induction false} SquareIsPositive(x: real)
    ensures Sq(x) > 0.0 <==> x != 0.0
  {
    if x > 0.0 {
      SignOfProduct(x, x);
    } else if x < 0.0 {
      SignOfProduct(-x, -x);
    } else {
      ZeroSquare(x);
    }
  }

  lemma {:induction false} FarIff(d: real, std: real, t: real, d2: real, v: real)
    requires std > 0.0 && d2 == Sq(d) && v == Sq(std)
    ensures Flagged(d, std, t) <==> t < 0.0 || d2 > Sq(t) * v
  {
    SignOfProduct(t, std);
    RatioAbove(Abs(d), std, t);
    if t >= 0.0 {
      SquaresKeepOrder(t * std, Abs(d));
      SquareOfProduct(t, std, v);
      NegatedSquare(d);
    }
  }

  lemma {:induction false} OutliersIffFar(ds: seq<real>, std: real, t: real, v: real, i: nat, d2: real)
    requires i < |ds| && std >= 0.0 && v == Sq(std) && d2 == Sq(ds[i])
    ensures v > 0.0 <==> std != 0.0
    ensures std != 0.0 ==> (i in Outliers(ds, std, t) <==> t < 0.0 || d2 > Sq(t) * v)
  {
    SquareIsPositive(std);
    if std > 0.0 {
      FarIff(ds[i], std, t, d2, v);
    }
  }

  /** What is flagged, without a square root: at least two samples, some spread, and a squared deviation
      above threshold squared times the variance `v`. A negative threshold flags every sample. */
  lemma {:induction false} FlaggedIffFar(values: seq<real>, threshold: real, std: real, v: real, i: nat)
    requires i < |values| && IsDeviation(std, values) && v == Variance(values)
    ensures i in Detect(values, threshold, std) <==>
              |values| >= 2 && v > 0.0 && (threshold < 0.0 || Sq(Deviations(values)[i]) > Sq(threshold) * v)
  {
    OutliersIffFar(Deviations(values), std, threshold, v, i, Sq(Deviations(values)[i]));
  }

  // ----- By the raw sums

  lemma {:induction false} SquareOfShift(x: real, m: real, mm: real, sum: real, ms: real, rest: real)
    requires mm == m * m && ms == m * sum && rest == m * (sum - x)
    ensures Sq(x - m) == Sq(x) - 2.0 * (ms - rest) + mm
  {
    assert ms - rest == m * x;
    assert (x - m) * (x - m) == x * x - 2.0 * (m * x) + m * m;
  }

  lemma {:induction false} SumOfSquaredShifts(values: seq<real>, m: real, mm: real, sum: real, ms: real)
    requires mm == m * m && sum == Sum(values) && ms == m * sum
    ensures Sum(Squares(Shifted(values, m))) == Sum(Squares(values)) - 2.0 * ms + Times(|values|, mm)
    decreases |values|
  {
    if values == [] {
      assert ms == 0.0;
    } else {
      var k := |values| - 1;
      var x := values[k];
      var rest := m * (sum - x);
      SumOfSquaredShifts(values[..k], m, mm, sum - x, rest);
      SquareOfShift(x, m, mm, sum, ms, rest);
      SquaresOneMore(values, m);
    }
  }

  lemma {:induction false} SquaresOneMore(values: seq<real>, m: real)
    requires values != []
    ensures var k := |values| - 1;
            && Sum(Squares(Shifted(values, m))) == Sum(Squares(Shifted(values[..k], m))) + Sq(values[k] - m)
            && Sum(Squares(values)) == Sum(Squares(values[..k])) + Sq(values[k])
  {
    var k := |values| - 1;
    assert Shifted(values, m)[..k] == Shifted(values[..k], m);
    SquaresPrefix(Shifted(values, m), k);
    SquaresPrefix(values, k);
  }

  lemma {:induction false} SpreadOfSums(k: nat, s: real, q: real, m: real, mm: real, ms: real, w: real)
    requires Times(k, m) == s && mm == m * m && ms == m * s && w == q - 2.0 * ms + Times(k, mm)
    ensures Times(k, w) == Times(k, q) - Sq(s)
  {
    var n := k as real;
    TimesIsProduct(k, m);
    TimesIsProduct(k, mm);
    TimesIsProduct(k, w);
    TimesIsProduct(k, q);
    var nm := n * mm;
    assert n * nm == s * s by {
      assert n * nm == (n * m) * (n * m);
    }
    assert n * ms == s * s by {
      assert n * ms == (n * m) * s;
    }
    assert n * (q - 2.0 * ms + nm) == n * q - 2.0 * (n * ms) + n * nm;
  }

  lemma {:induction false} TimesQuotient(k: nat, a: real, b: real)
    requires k > 0 && b == a / k as real
    ensures Times(k, b) == a
  {
    TimesIsProduct(k, b);
  }

  /** Deviations and variance by the raw sums alone: with n samples, n deviations of one kind are n times the sample
      less the sum, and n times n variances are n times the sum of squares less the square of the sum. */
  lemma {:induction false} MomentsBySums(values: seq<real>, i: nat)
    requires i < |values|
    ensures Times(|values|, Deviations(values)[i]) == Times(|values|, values[i]) - Sum(values)
    ensures Times(|values|, Times(|values|, Variance(values))) ==
              Times(|values|, Sum(Squares(values))) - Sq(Sum(values))
  {
    var k, m, s, q := |values|, Mean(values), Sum(values), Sum(Squares(values));
    TimesQuotient(k, s, m);
    TimesOfDifference(k, values[i], m);
    var w := Sum(Squares(Deviations(values)));
    TimesQuotient(k, w, Variance(values));
    SumOfSquaredShifts(values, m, m * m, s, m * s);
    SpreadOfSums(k, s, q, m, m * m, m * s, w);
  }

  lemma {:induction false} TimesOfDifference(k: nat, a: real, b: real)
    ensures Times(k, a - b) == Times(k, a) - Times(k, b)
    decreases k
  {
    if k > 0 {
      TimesOfDifference(k - 1, a, b);
    }
  }

  // ----- Chebyshev

  function CountAbove(xs: seq<real>, c: real): nat
    decreases |xs|
  {
    if xs == [] then 0 else CountAbove(xs[..|xs| - 1], c) + if xs[|xs| - 1] > c then 1 else 0
  }

  /** Everything above `c` adds more than `c` to the sum. */
  lemma {:induction false} AboveWeigh(xs: seq<real>, c: real)
    requires c >= 0.0 && forall i :: 0 <= i < |xs| ==> xs[i] >= 0.0
    ensures Sum(xs) >= Times(CountAbove(xs, c), c)
    ensures CountAbove(xs, c) > 0 ==> Sum(xs) > Times(CountAbove(xs, c), c)
    decreases |xs|
  {
    if xs != [] {
      AboveWeigh(xs[..|xs| - 1], c);
    }
  }

  /** As many samples are flagged as have a squared deviation above t^2 times the variance. */
  lemma {:induction false} OutliersAreAbove(ds: seq<real>, std: real, t: real, v: real, c: real)
    requires std > 0.0 && t > 0.0 && v == Sq(std) && c == Sq(t) * v
    ensures |Outliers(ds, std, t)| == CountAbove(Squares(ds), c)
    decreases |ds|
  {
    if ds != [] {
      var n := |ds| - 1;
      OutliersAreAbove(ds[..n], std, t, v, c);
      SquaresPrefix(ds, n);
      FarIff(ds[n], std, t, Sq(ds[n]), v);
    }
  }

  lemma {:induction false} CompareCounts(m: nat, n: real, tt: real, v: real, q: real)
    requires v > 0.0 && n > 0.0 && q / n == v && q > Times(m, tt * v)
    ensures m as real * tt < n
  {
    TimesIsProduct(m, tt * v);
    assert q == n * v;
    assert m as real * (tt * v) == (m as real * tt) * v;
    ScalingKeepsOrder(m as real * tt, n, v);
  }

  lemma {:induction false} FewAbove(squares: seq<real>, m: nat, n: real, tt: real, v: real, c: real)
    requires forall i :: 0 <= i < |squares| ==> squares[i] >= 0.0
    requires m == CountAbove(squares, c) > 0 && c == tt * v
    requires tt >= 0.0 && v > 0.0 && n > 0.0 && Sum(squares) / n == v
    ensures m as real * tt < n
  {
    ScalingKeepsOrder(0.0, tt, v);
    AboveWeigh(squares, c);
    CompareCounts(m, n, tt, v, Sum(squares));
  }

  lemma {:induction false} OutliersBound(ds: seq<real>, m: nat, t: real, n: real, v: real)
    requires v > 0.0 && n > 0.0 && Sum(Squares(ds)) / n == v
    requires m == CountAbove(Squares(ds), Sq(t) * v) > 0
    ensures m as real * Sq(t) < n
  {
    FewAbove(Squares(ds), m, n, Sq(t), v, Sq(t) * v);
  }

  lemma {:induction false} FewOutliers(ds: seq<real>, std: real, t: real, n: real, v: real, m: nat)
    requires std > 0.0 && t > 0.0 && n > 0.0 && Sum(Squares(ds)) / n == v && v == Sq(std)
    requires m == |Outliers(ds, std, t)| > 0
    ensures m as real * Sq(t) < n
  {
    OutliersAreAbove(ds, std, t, v, Sq(t) * v);
    SquareIsPositive(std);
    OutliersBound(ds, m, t, n, v);
  }

  /** Chebyshev: if anything is flagged, fewer than n / t^2 samples are. */
  lemma {:induction false} FewAreFlagged(values: seq<real>, t: real, std: real)
    requires values != [] && t > 0.0 && IsDeviation(std, values)
    ensures Detect(values, t, std) != [] ==> |Detect(values, t, std)| as real * Sq(t) < |values| as real
  {
    var found := Detect(values, t, std);
    if found != [] {
      var ds, n, v := Deviations(values), |values| as real, Variance(values);
      assert found == Outliers(ds, std, t);
      assert Sum(Squares(ds)) / n == v;
      FewOutliers(ds, std, t, n, v, |found|);
    }
  }

  // ----- Samuelson

  lemma {:induction false} SumOfShifted(values: seq<real>, m: real)
    ensures Sum(Shifted(values, m)) == Sum(values) - Times(|values|, m)
    decreases |values|
  {
    if values == [] {
    } else {
      var n := |values| - 1;
      assert Shifted(values, m)[..n] == Shifted(values[..n], m);
      SumOfShifted(values[..n], m);
    }
  }

  lemma {:induction false} DeviationsCancel(values: seq<real>)
    requires values != []
    ensures Sum(Deviations(values)) == 0.0
  {
    SumOfShifted(values, Mean(values));
    TimesIsProduct(|values|, Mean(values));
  }

  lemma {:induction false} OneLessTimes(x: real, n: real, q: real)
    requires n > 0.0 && x <= (n - 1.0) * (q - x)
    ensures x <= (n - 1.0) * (q / n)
  {
    var v := q / n;
    assert q == v * n;
    assert (n - 1.0) * (v * n - x) == ((n - 1.0) * v - x) * n + x;
    SignOfProduct((n - 1.0) * v - x, n);
  }

  lemma {:induction false} OneAgainstTheOthers(d: real, n: real, q: real, v: real, others: real, m: real, rest: real)
    requires n > 0.0 && v == q / n && others == -d && m == n - 1.0 && rest == q - Sq(d) && Sq(others) <= m * rest
    ensures Sq(d) <= (n - 1.0) * v
  {
    assert Sq(-d) == Sq(d);
    OneLessTimes(Sq(d), n, q);
  }

  lemma {:induction false} OthersSum(ds: seq<real>, i: nat)
    requires i < |ds|
    ensures var others := ds[..i] + ds[i + 1..];
            Sum(others) == Sum(ds) - ds[i] && Sum(Squares(others)) == Sum(Squares(ds)) - Sq(ds[i])
  {
    var others := ds[..i] + ds[i + 1..];
    SumWithout(ds, i);
    SumWithout(Squares(ds), i);
    assert Squares(others) == Squares(ds)[..i] + Squares(ds)[i + 1..];
  }

  lemma {:induction false} NoneOfCancelling(ds: seq<real>, i: nat, n: real, v: real)
    requires i < |ds| && Sum(ds) == 0.0 && n == |ds| as real && v == Sum(Squares(ds)) / n
    ensures Sq(ds[i]) <= (n - 1.0) * v
  {
    var others := ds[..i] + ds[i + 1..];
    OthersSum(ds, i);
    CauchySchwarz(others);
    OneAgainstTheOthers(ds[i], n, Sum(Squares(ds)), v, Sum(others), |others| as real, Sum(Squares(others)));
  }

  /** Samuelson: no sample is further from the mean than sqrt(n - 1) standard deviations. */
  lemma {:induction false} NoneIsVeryFar(values: seq<real>, i: nat)
    requires i < |values|
    ensures Sq(Deviations(values)[i]) <= (|values| as real - 1.0) * Variance(values)
  {
    DeviationsCancel(values);
    NoneOfCancelling(Deviations(values), i, |values| as real, Variance(values));
  }

  lemma {:induction false} NotBeyond(flagged: bool, d2: real, n: real, tt: real, v: real)
    requires flagged ==> d2 > tt * v
    requires v > 0.0 && d2 <= (n - 1.0) * v && n <= tt + 1.0
    ensures !flagged
  {
    ScalingKeepsOrder(n - 1.0, tt, v);
  }

  lemma {:induction false} NotFar(d: real, std: real, t: real, n: real)
    requires std > 0.0 && t >= 0.0 && n <= Sq(t) + 1.0 && Sq(d) <= (n - 1.0) * Sq(std)
    ensures !Flagged(d, std, t)
  {
    FarIff(d, std, t, Sq(d), Sq(std));
    SquareIsPositive(std);
    NotBeyond(Flagged(d, std, t), Sq(d), n, Sq(t), Sq(std));
  }

  lemma {:induction false} ShortSeriesSample(values: seq<real>, t: real, std: real, i: nat)
    requires t >= 0.0 && |values| as real <= Sq(t) + 1.0 && i < |values| && IsDeviation(std, values) && std > 0.0
    ensures !Flagged(Deviations(values)[i], std, t)
  {
    DeviationsCancel(values);
    NoneOfCancelling(Deviations(values), i, |values| as real, Sq(std));
    NotFar(Deviations(values)[i], std, t, |values| as real);
  }

  /** So a series of at most t^2 + 1 samples is never flagged: at the default threshold of 3, none of ten
      samples or fewer. */
  lemma {:induction false} ShortSeriesAreClean(values: seq<real>, t: real, std: real)
    requires t >= 0.0 && |values| as real <= Sq(t) + 1.0
    requires values != [] ==> IsDeviation(std, values)
    ensures Detect(values, t, std) == []
  {
    var found := Detect(values, t, std);
    if found != [] {
      assert found[0] in found;
      ShortSeriesSample(values, t, std, found[0]);
    }
  }

  lemma {:induction false} TenSamplesAreClean(values: seq<real>, std: real)
    requires |values| <= 10 && (values != [] ==> IsDeviation(std, values))
    ensures Detect(values, 3.0, std) == []
  {
    ShortSeriesAreClean(values, 3.0, std);
  }

  // ----- The bound is sharp

  /** A flat series with one spike at the end. */
  function Spike(n: nat): (s: seq<real>)
    requires n > 0
    ensures |s| == n && s[n - 1] == 1.0 && forall i :: 0 <= i < n - 1 ==> s[i] == 0.0
  {
    seq(n - 1, _ => 0.0) + [1.0]
  }

  lemma {:induction false} SpikeMean(n: nat)
    requires n > 0
    ensures Mean(Spike(n)) == 1.0 / n as real
  {
    SumOfConstant(Spike(n)[..n - 1], 0.0, n as real - 1.0);
  }

  lemma {:induction false} SumOfSpike(xs: seq<real>, k: real, a: real, b: real)
    requires xs != [] && k == |xs| as real - 1.0
    requires xs[|xs| - 1] == b && forall i :: 0 <= i < |xs| - 1 ==> xs[i] == a
    ensures Sum(xs) == k * a + b
  {
    SumOfConstant(xs[..|xs| - 1], a, k);
  }

  lemma {:induction false} SquaresOfSpike(ds: seq<real>, k: real, m: real, a: real, b: real)
    requires ds != [] && k == |ds| as real - 1.0 && a == Sq(m) && b == Sq(ds[|ds| - 1])
    requires forall i :: 0 <= i < |ds| - 1 ==> ds[i] == -m
    ensures Sum(Squares(ds)) == k * a + b
  {
    assert Sq(-m) == a;
    SumOfSpike(Squares(ds), k, a, b);
  }

  lemma {:induction false} SpikeSquares(n: nat)
    requires n > 0
    ensures var m := Mean(Spike(n));
            Sum(Squares(Deviations(Spike(n)))) == (n as real - 1.0) * Sq(m) + Sq(1.0 - m)
  {
    var m := Mean(Spike(n));
    SquaresOfSpike(Deviations(Spike(n)), n as real - 1.0, m, Sq(m), Sq(1.0 - m));
  }

  lemma {:induction false} SpikeVariance(n: real, m: real, q: real)
    requires n > 0.0 && m == 1.0 / n && q == (n - 1.0) * Sq(m) + Sq(1.0 - m)
    ensures m > 0.0 && q / n == (n - 1.0) * Sq(m)
    ensures Sq(1.0 - m) == (n - 1.0) * ((n - 1.0) * Sq(m))
  {
    assert n * m == 1.0;
    SignOfProduct(m, n);
    var p := (n - 1.0) * m;
    assert p == 1.0 - m;
    assert p * p == (n - 1.0) * ((n - 1.0) * (m * m));
    var u := (n - 1.0) * (m * m);
    assert (n - 1.0) * u == n * u - u;
    ScalingKeepsOrder(q / n, u, n);
  }

  lemma {:induction false} LongSpikeIsFar(n: real, tt: real, m: real, q: real, v: real, d2: real)
    requires tt >= 0.0 && n > tt + 1.0 && m == 1.0 / n && q == (n - 1.0) * Sq(m) + Sq(1.0 - m)
    requires v == q / n && d2 == Sq(1.0 - m)
    ensures v > 0.0 && d2 > tt * v
  {
    SpikeVariance(n, m, q);
    SquareIsPositive(m);
    SignOfProduct(n - 1.0, Sq(m));
    ScalingKeepsOrder(tt, n - 1.0, v);
  }

  /** The bound is sharp for every length: a single spike is flagged exactly when there are more than
      t^2 + 1 samples. */
  lemma {:induction false} SpikeIsFlaggedIffLong(n: nat, t: real, std: real)
    requires n > 0 && t >= 0.0 && IsDeviation(std, Spike(n))
    ensures n - 1 in Detect(Spike(n), t, std) <==> n as real > Sq(t) + 1.0
  {
    if n as real <= Sq(t) + 1.0 {
      ShortSeriesAreClean(Spike(n), t, std);
    } else {
      LongSpike(n, t, std);
    }
  }

  lemma {:induction false} LongSpikeSquares(n: nat, tt: real)
    requires tt >= 0.0 && n as real > tt + 1.0
    ensures Variance(Spike(n)) > 0.0
    ensures Sq(Deviations(Spike(n))[n - 1]) > tt * Variance(Spike(n))
  {
    var s := Spike(n);
    SpikeMean(n);
    SpikeSquares(n);
    LongSpikeIsFar(n as real, tt, Mean(s), Sum(Squares(Deviations(s))), Variance(s), Sq(Deviations(s)[n - 1]));
  }

  lemma {:induction false} LongSpike(n: nat, t: real, std: real)
    requires t >= 0.0 && n as real > Sq(t) + 1.0 && IsDeviation(std, Spike(n))
    ensures n - 1 in Detect(Spike(n), t, std)
  {
    FlaggedIffFar(Spike(n), t, std, Variance(Spike(n)), n - 1);
    LongSpikeSquares(n, Sq(t));
  }
}
