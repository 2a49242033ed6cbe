/**
 * Ordering rows by a two-part key, ascending: the `order_by(a, b)` of a
 * query.  Insertion sort on sequences, with sortedness and permutation
 * proved.
 */
module Sorting {
  datatype Key = Key(major: int, minor: int)

  predicate KeyLe(a: Key, b: Key) {
    a.major < b.major || (a.major == b.major && a.minor <= b.minor)
  }

  predicate SortedBy<T>(xs: seq<T>, key: T -> Key) {
    forall i, j :: 0 <= i < j < |xs| ==> KeyLe(key(xs[i]), key(xs[j]))
  }

  /** Insert `x` into a sorted sequence, before the first row above it. */
  function Insert<T>(x: T, xs: seq<T>, key: T -> Key): (r: seq<T>)
    requires SortedBy(xs, key)
    ensures SortedBy(r, key)
    ensures multiset(r) == multiset(xs) + multiset{x}
    ensures |r| == |xs| + 1
  {
    if xs == [] then [x]
    else if KeyLe(key(x), key(xs[0])) then [x] + xs
    else
      var tail := xs[1..];
      assert xs == [xs[0]] + tail;
      var rest := Insert(x, tail, key);
      HeadBelowAll(xs[0], tail, x, rest, key);
      ConsSorted(xs[0], rest, key);
      [xs[0]] + rest
  }

  /** The head of a sorted sequence, below the inserted row, is below every row of the result. */
  lemma HeadBelowAll<T>(h: T, tail: seq<T>, x: T, rest: seq<T>, key: T -> Key)
    requires SortedBy([h] + tail, key) && KeyLe(key(h), key(x))
    requires multiset(rest) == multiset(tail) + multiset{x}
    ensures forall k :: 0 <= k < |rest| ==> KeyLe(key(h), key(rest[k]))
  {
    forall k | 0 <= k < |rest| ensures KeyLe(key(h), key(rest[k])) {
      assert rest[k] in multiset(rest);
      if rest[k] != x {
        assert rest[k] in multiset(tail);
        var m :| 0 <= m < |tail| && tail[m] == rest[k];
        assert ([h] + tail)[0] == h && ([h] + tail)[m + 1] == rest[k];
      }
    }
  }

  /** A row below every row of a sorted sequence may be put in front of it. */
  lemma ConsSorted<T>(h: T, rest: seq<T>, key: T -> Key)
    requires SortedBy(rest, key)
    requires forall k :: 0 <= k < |rest| ==> KeyLe(key(h), key(rest[k]))
    ensures SortedBy([h] + rest, key)
  {
    var r := [h] + rest;
    assert forall i :: 0 < i < |r| ==> r[i] == rest[i - 1];
  }

  /** Insertion sort: sorted, and a permutation of the input. */
  function SortBy<T>(xs: seq<T>, key: T -> Key): (r: seq<T>)
    ensures SortedBy(r, key)
    ensures multiset(r) == multiset(xs)
    ensures |r| == |xs|
  {
    if xs == [] then []
    else
      assert xs == [xs[0]] + xs[1..];
      Insert(xs[0], SortBy(xs[1..], key), key)
  }

  lemma SortSameElements<T>(xs: seq<T>, key: T -> Key)
    ensures forall x :: x in SortBy(xs, key) <==> x in xs
  {
    var r := SortBy(xs, key);
    forall x ensures x in r <==> x in xs {
      assert x in r <==> x in multiset(r);
      assert x in xs <==> x in multiset(xs);
    }
  }
}
