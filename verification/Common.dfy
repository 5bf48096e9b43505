/** A value that may be missing. */
module Optional {

  datatype Option<+T> = None | Some(value: T)
}

/** Comparisons and magnitudes. */
module Numbers {

  function Abs(x: real): real { if x >= 0.0 then x else -x }

  function Max(a: real, b: real): real { if a >= b then a else b }

  function Min(a: real, b: real): real { if a <= b then a else b }

  function MinInt(a: int, b: int): int { if a <= b then a else b }

  function MaxInt(a: int, b: int): int { if a >= b then a else b }
}

/** How often an element occurs in a sequence. */
module Counting {

  function Occurrences<T(==)>(s: seq<T>, e: T): nat
    decreases |s|
  {
    if s == [] then 0 else Occurrences(s[..|s| - 1], e) + (if s[|s| - 1] == e then 1 else 0)
  }

  lemma {:induction false} OccurrencesConcat<T>(a: seq<T>, b: seq<T>, x: T)
    ensures Occurrences(a + b, x) == Occurrences(a, x) + Occurrences(b, x)
    decreases |b|
  {
    if b == [] {
      assert a + b == a;
    } else {
      assert (a + b)[..|a + b| - 1] == a + b[..|b| - 1];
      OccurrencesConcat(a, b[..|b| - 1], x);
    }
  }
}
