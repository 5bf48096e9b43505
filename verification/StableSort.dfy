/** Stable sorting by a key, smallest first. */
module StableSort {
  import opened Counting
  import opened Numbers

  /** Places an element behind all whose key is at most its own. */
  function Insert<T>(e: T, s: seq<T>, key: T -> real): (r: seq<T>)
    ensures |r| == |s| + 1
    decreases |s|
  {
    if s == [] || key(s[|s| - 1]) <= key(e) then s + [e]
    else Insert(e, s[..|s| - 1], key) + [s[|s| - 1]]
  }

  function Sorted<T>(s: seq<T>, key: T -> real): (r: seq<T>)
    ensures |r| == |s|
    decreases |s|
  {
    if s == [] then [] else Insert(s[|s| - 1], Sorted(s[..|s| - 1], key), key)
  }

  ghost predicate Ordered<T>(s: seq<T>, key: T -> real) {
    forall i, j :: 0 <= i < j < |s| ==> key(s[i]) <= key(s[j])
  }

  /** The elements with one key, in their order. */
  function WithKey<T>(s: seq<T>, key: T -> real, k: real): seq<T>
    decreases |s|
  {
    if s == [] then []
    else WithKey(s[..|s| - 1], key, k) + (if key(s[|s| - 1]) == k then [s[|s| - 1]] else [])
  }

  lemma {:induction false} InsertBelow<T>(e: T, s: seq<T>, key: T -> real, bound: real)
    requires key(e) <= bound && forall i :: 0 <= i < |s| ==> key(s[i]) <= bound
    ensures forall i :: 0 <= i <= |s| ==> key(Insert(e, s, key)[i]) <= bound
    decreases |s|
  {
    if s != [] && key(s[|s| - 1]) > key(e) {
      InsertBelow(e, s[..|s| - 1], key, bound);
    }
  }

  lemma {:induction false} InsertOrders<T>(e: T, s: seq<T>, key: T -> real)
    requires Ordered(s, key)
    ensures Ordered(Insert(e, s, key), key)
    decreases |s|
  {
    if s != [] && key(s[|s| - 1]) > key(e) {
      InsertOrders(e, s[..|s| - 1], key);
      InsertBelow(e, s[..|s| - 1], key, key(s[|s| - 1]));
    }
  }

  lemma {:induction false} InsertMembers<T>(e: T, s: seq<T>, key: T -> real)
    ensures forall x :: x in Insert(e, s, key) <==> x == e || x in s
    decreases |s|
  {
    if s != [] && key(s[|s| - 1]) > key(e) {
      InsertMembers(e, s[..|s| - 1], key);
      assert s == s[..|s| - 1] + [s[|s| - 1]];
    }
  }

  lemma {:induction false} InsertCounts<T>(e: T, s: seq<T>, key: T -> real, x: T)
    ensures Occurrences(Insert(e, s, key), x) == Occurrences(s, x) + (if x == e then 1 else 0)
    decreases |s|
  {
    if s == [] || key(s[|s| - 1]) <= key(e) {
      assert (s + [e])[..|s|] == s;
    } else {
      InsertCounts(e, s[..|s| - 1], key, x);
      var r := Insert(e, s[..|s| - 1], key);
      assert (r + [s[|s| - 1]])[..|r|] == r;
    }
  }

  lemma {:induction false} KeyOfConcat<T>(s: seq<T>, e: T, key: T -> real, k: real)
    ensures WithKey(s + [e], key, k) == WithKey(s, key, k) + (if key(e) == k then [e] else [])
  {
    assert (s + [e])[..|s|] == s;
  }

  lemma {:induction false} InsertIsStable<T>(e: T, s: seq<T>, key: T -> real, k: real)
    ensures WithKey(Insert(e, s, key), key, k) == WithKey(s, key, k) + (if key(e) == k then [e] else [])
    decreases |s|
  {
    if s == [] || key(s[|s| - 1]) <= key(e) {
      KeyOfConcat(s, e, key, k);
    } else {
      var init, last := s[..|s| - 1], s[|s| - 1];
      InsertIsStable(e, init, key, k);
      KeyOfConcat(Insert(e, init, key), last, key, k);
      assert s == init + [last];
      KeyOfConcat(init, last, key, k);
    }
  }

  lemma {:induction false} SortedMembers<T>(s: seq<T>, key: T -> real)
    ensures Ordered(Sorted(s, key), key) && forall e :: e in Sorted(s, key) <==> e in s
    decreases |s|
  {
    if s != [] {
      SortedMembers(s[..|s| - 1], key);
      InsertOrders(s[|s| - 1], Sorted(s[..|s| - 1], key), key);
      InsertMembers(s[|s| - 1], Sorted(s[..|s| - 1], key), key);
      assert s == s[..|s| - 1] + [s[|s| - 1]];
    }
  }

  lemma {:induction false} SortedCounts<T>(s: seq<T>, key: T -> real, x: T)
    ensures Occurrences(Sorted(s, key), x) == Occurrences(s, x)
    decreases |s|
  {
    if s != [] {
      SortedCounts(s[..|s| - 1], key, x);
      InsertCounts(s[|s| - 1], Sorted(s[..|s| - 1], key), key, x);
    }
  }

  lemma {:induction false} SortedIsStable<T>(s: seq<T>, key: T -> real, k: real)
    ensures WithKey(Sorted(s, key), key, k) == WithKey(s, key, k)
    decreases |s|
  {
    if s != [] {
      SortedIsStable(s[..|s| - 1], key, k);
      InsertIsStable(s[|s| - 1], Sorted(s[..|s| - 1], key), key, k);
    }
  }

  /** A stable sort: in order, the same elements as often, and elements of equal key as they were. */
  lemma SortIsStable<T>(s: seq<T>, key: T -> real, x: T, k: real)
    ensures Ordered(Sorted(s, key), key) && Occurrences(Sorted(s, key), x) == Occurrences(s, x)
    ensures WithKey(Sorted(s, key), key, k) == WithKey(s, key, k)
  {
    SortedMembers(s, key);
    SortedCounts(s, key, x);
    SortedIsStable(s, key, k);
  }

  /** The first n of the order, and what is left over. */
  function First<T>(s: seq<T>, key: T -> real, n: nat): seq<T> { Sorted(s, key)[..MinInt(n, |s|)] }

  function Rest<T>(s: seq<T>, key: T -> real, n: nat): seq<T> { Sorted(s, key)[MinInt(n, |s|)..] }

  /** The first n are the n smallest: with the rest they make up everything, and none of the rest is smaller. */
  lemma {:induction false} FirstAreSmallest<T>(s: seq<T>, key: T -> real, n: nat, x: T)
    ensures |First(s, key, n)| == MinInt(n, |s|)
    ensures Occurrences(First(s, key, n), x) + Occurrences(Rest(s, key, n), x) == Occurrences(s, x)
    ensures forall i, j :: 0 <= i < |First(s, key, n)| && 0 <= j < |Rest(s, key, n)| ==>
              key(First(s, key, n)[i]) <= key(Rest(s, key, n)[j])
  {
    SortedMembers(s, key);
    SortedCounts(s, key, x);
    assert First(s, key, n) + Rest(s, key, n) == Sorted(s, key);
    OccurrencesConcat(First(s, key, n), Rest(s, key, n), x);
  }
}
