/** Sums and products of reals, one step at a time. */
module RealSums {

  function Sum(xs: seq<real>): real
    decreases |xs|
  {
    if xs == [] then 0.0 else Sum(xs[..|xs| - 1]) + xs[|xs| - 1]
  }

  function Sq(x: real): (r: real)
    ensures r >= 0.0
  {
    x * x
  }

  function Squares(xs: seq<real>): (s: seq<real>)
    ensures |s| == |xs| && forall i :: 0 <= i < |s| ==> s[i] == Sq(xs[i])
  {
    seq(|xs|, i requires 0 <= i < |xs| => Sq(xs[i]))
  }

  lemma {:induction false} SquaresPrefix(xs: seq<real>, n: nat)
    requires n <= |xs|
    ensures Squares(xs)[..n] == Squares(xs[..n])
  {
  }

  function Times(n: nat, c: real): real { if n == 0 then 0.0 else Times(n - 1, c) + c }

  lemma {:induction false} TimesIsProduct(n: nat, c: real)
    ensures Times(n, c) == n as real * c
    decreases n
  {
    if n > 0 {
      TimesIsProduct(n - 1, c);
      assert n as real * c == (n - 1) as real * c + c;
    }
  }

  lemma {:induction false} SumConcat(a: seq<real>, b: seq<real>)
    ensures Sum(a + b) == Sum(a) + Sum(b)
    decreases |b|
  {
    if b == [] {
      assert a + b == a;
    } else {
      assert (a + b)[..|a + b| - 1] == a + b[..|b| - 1];
      SumConcat(a, b[..|b| - 1]);
    }
  }

  lemma {:induction false} SumWithout(xs: seq<real>, i: nat)
    requires i < |xs|
    ensures Sum(xs) == Sum(xs[..i] + xs[i + 1..]) + xs[i]
  {
    assert xs == xs[..i] + [xs[i]] + xs[i + 1..];
    SumConcat(xs[..i] + [xs[i]], xs[i + 1..]);
    SumConcat(xs[..i], [xs[i]]);
    SumConcat(xs[..i], xs[i + 1..]);
    assert [xs[i]][..0] == [];
  }

  lemma {:induction false} SumOfConstant(xs: seq<real>, c: real, n: real)
    requires n == |xs| as real && forall i :: 0 <= i < |xs| ==> xs[i] == c
    ensures Sum(xs) == n * c
    decreases |xs|
  {
    if xs != [] {
      SumOfConstant(xs[..|xs| - 1], c, n - 1.0);
      assert n * c == (n - 1.0) * c + c;
    } else {
      assert n == 0.0;
    }
  }

  function Product(x: real, y: real): real { x * y }

  lemma {:induction false} SignOfProduct(x: real, v: real)
    requires v > 0.0
    ensures x > 0.0 ==> Product(x, v) > 0.0
    ensures x == 0.0 ==> Product(x, v) == 0.0
    ensures x < 0.0 ==> Product(x, v) < 0.0
  {
  }

  lemma {:induction false} ZeroSquare(x: real)
    requires x == 0.0
    ensures Sq(x) == 0.0
  {
    assert x * x == 0.0 * x;
  }

  /** A positive factor keeps order, and cancels. */
  lemma {:induction false} ScalingKeepsOrder(a: real, b: real, v: real)
    requires v > 0.0
    ensures (a < b <==> a * v < b * v) && (a == b <==> a * v == b * v)
  {
    SignOfProduct(b - a, v);
    assert Product(b - a, v) == b * v - a * v;
  }

  lemma {:induction false} SquaresKeepOrder(a: real, b: real)
    requires a >= 0.0 && b >= 0.0
    ensures a < b <==> Sq(a) < Sq(b)
  {
    if a + b > 0.0 {
      SignOfProduct(b - a, a + b);
      assert Product(b - a, a + b) == Sq(b) - Sq(a);
    } else {
      ZeroSquare(a);
      ZeroSquare(b);
    }
  }

  lemma {:induction false} CompleteTheSquare(s: real, q: real, x: real, m: real)
    requires m > 0.0 && Sq(s) <= m * q
    ensures 2.0 * (s * x) <= q + m * Sq(x)
  {
    var gap := q + m * (x * x) - 2.0 * (s * x);
    Expanded(s, q, x, m);
    assert Sq(s - m * x) >= 0.0;
    SignOfProduct(gap, m);
  }

  lemma {:induction false} Expanded(s: real, q: real, x: real, m: real)
    ensures (q + m * (x * x) - 2.0 * (s * x)) * m == m * q - s * s + (s - m * x) * (s - m * x)
  {
    var y := m * x;
    assert (s - y) * (s - y) == s * s - 2.0 * (s * y) + y * y;
    assert y * y == m * (x * x) * m;
    assert s * y == s * x * m;
  }

  lemma {:induction false} OneTermMore(s: real, q: real, x: real, m: real)
    requires m >= 0.0 && Sq(s) <= m * q && (m == 0.0 ==> s == 0.0 && q == 0.0)
    ensures Sq(s + x) <= (m + 1.0) * (q + Sq(x))
  {
    assert (s + x) * (s + x) == s * s + 2.0 * (s * x) + x * x;
    assert (m + 1.0) * (q + x * x) == m * q + m * (x * x) + q + x * x;
    if m > 0.0 {
      CompleteTheSquare(s, q, x, m);
    }
  }

  /** The square of a sum is at most the number of terms times the sum of their squares. */
  lemma {:induction false} CauchySchwarz(xs: seq<real>)
    ensures Sq(Sum(xs)) <= |xs| as real * Sum(Squares(xs))
    decreases |xs|
  {
    if xs == [] {
    } else {
      var n := |xs| - 1;
      CauchySchwarz(xs[..n]);
      SquaresPrefix(xs, n);
      OneTermMore(Sum(xs[..n]), Sum(Squares(xs[..n])), xs[n], n as real);
    }
  }
}
