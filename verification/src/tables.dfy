/**
 * Generic operations on a table held as a sequence of rows in insertion
 * order: filtering, first match, the next auto-increment id, and reversal
 * (an `order_by(... desc)` over a table whose order key grows with
 * insertion).
 */
module Tables {
  import opened Outcomes

  /** `query.filter(keep)`, keeping the table order. */
  function Filter<T(!new)>(xs: seq<T>, keep: T -> bool): (r: seq<T>)
    ensures |r| <= |xs|
    ensures forall x :: x in r <==> x in xs && keep(x)
  {
    if xs == [] then [] else (if keep(xs[0]) then [xs[0]] else []) + Filter(xs[1..], keep)
  }

  /** `query.filter(p).first()`. */
  function First<T(!new)>(xs: seq<T>, p: T -> bool): (r: Option<T>)
    ensures r.Some? ==> r.value in xs && p(r.value)
    ensures r.None? <==> forall x :: x in xs ==> !p(x)
  {
    if xs == [] then None
    else if p(xs[0]) then Some(xs[0])
    else First(xs[1..], p)
  }

  /** The id the next insert receives: above every id in the table. */
  function NextId<T(!new)>(xs: seq<T>, id: T -> nat): (n: nat)
    ensures n >= 1
    ensures forall x :: x in xs ==> id(x) < n
  {
    if xs == [] then 1
    else
      var rest := NextId(xs[1..], id);
      if id(xs[0]) < rest then rest else id(xs[0]) + 1
  }

  function Reverse<T>(xs: seq<T>): (r: seq<T>)
    ensures |r| == |xs|
    ensures forall i :: 0 <= i < |xs| ==> r[i] == xs[|xs| - 1 - i]
  {
    if xs == [] then [] else Reverse(xs[1..]) + [xs[0]]
  }

  lemma ReverseSameElements<T(!new)>(xs: seq<T>)
    ensures forall x :: x in Reverse(xs) <==> x in xs
  {
    var r := Reverse(xs);
    forall x | x in xs ensures x in r {
      var i :| 0 <= i < |xs| && xs[i] == x;
      assert r[|xs| - 1 - i] == x;
    }
  }

  /** Replace every row satisfying `p` by `f` of it, in place. */
  function MapWhere<T>(xs: seq<T>, p: T -> bool, f: T -> T): (r: seq<T>)
    ensures |r| == |xs|
    ensures forall i :: 0 <= i < |xs| ==> r[i] == if p(xs[i]) then f(xs[i]) else xs[i]
  {
    if xs == [] then [] else [if p(xs[0]) then f(xs[0]) else xs[0]] + MapWhere(xs[1..], p, f)
  }

  lemma {:induction false} FilterAppend<T(!new)>(xs: seq<T>, ys: seq<T>, keep: T -> bool)
    ensures Filter(xs + ys, keep) == Filter(xs, keep) + Filter(ys, keep)
  {
    if xs == [] {
      assert xs + ys == ys;
    } else {
      assert (xs + ys)[0] == xs[0];
      assert (xs + ys)[1..] == xs[1..] + ys;
      FilterAppend(xs[1..], ys, keep);
    }
  }

  /** Filtering by a stronger condition keeps no more rows. */
  lemma {:induction false} FilterStronger<T(!new)>(xs: seq<T>, strong: T -> bool, weak: T -> bool)
    requires forall x :: x in xs && strong(x) ==> weak(x)
    ensures |Filter(xs, strong)| <= |Filter(xs, weak)|
  {
    if xs != [] {
      FilterStronger(xs[1..], strong, weak);
    }
  }

  /** A condition every row meets keeps the whole table. */
  lemma {:induction false} FilterAll<T(!new)>(xs: seq<T>, keep: T -> bool)
    requires forall x :: x in xs ==> keep(x)
    ensures Filter(xs, keep) == xs
  {
    if xs != [] {
      FilterAll(xs[1..], keep);
    }
  }

  /**
   * Splitting the rows matching `keep` by `split`: the rows matching
   * `keep` are those matching `keep` and `split` plus those matching
   * `keep` but not `split`.
   */
  lemma {:induction false} FilterPartition<T(!new)>(xs: seq<T>, keep: T -> bool, yes: T -> bool, no: T -> bool, split: T -> bool)
    requires forall x :: x in xs ==> (yes(x) <==> keep(x) && split(x)) && (no(x) <==> keep(x) && !split(x))
    ensures |Filter(xs, keep)| == |Filter(xs, yes)| + |Filter(xs, no)|
  {
    if xs != [] {
      assert xs[0] in xs;
      FilterPartition(xs[1..], keep, yes, no, split);
    }
  }

  lemma {:induction false} SubsetCard<T>(a: set<T>, b: set<T>)
    requires a <= b
    ensures |a| <= |b|
    decreases b
  {
    if a != {} {
      var x :| x in a;
      SubsetCard(a - {x}, b - {x});
    }
  }

  /** The keys of the rows, as a set. */
  function KeySet<T, K(==)>(xs: seq<T>, key: T -> K): set<K> {
    set i | 0 <= i < |xs| :: key(xs[i])
  }

  predicate DistinctKeys<T, K(==)>(xs: seq<T>, key: T -> K) {
    forall i, j :: 0 <= i < j < |xs| ==> key(xs[i]) != key(xs[j])
  }

  /** A row whose key no later row shares keeps the keys distinct. */
  lemma ConsDistinct<T, K>(h: T, xs: seq<T>, key: T -> K)
    requires DistinctKeys(xs, key)
    requires forall x :: x in xs ==> key(h) != key(x)
    ensures DistinctKeys([h] + xs, key)
  {
    var r := [h] + xs;
    forall i, j | 0 <= i < j < |r| ensures key(r[i]) != key(r[j]) {
      assert r[j] == xs[j - 1];
      if i > 0 {
        assert r[i] == xs[i - 1];
      }
    }
  }

  /** Rows with pairwise distinct keys are as many as their keys. */
  lemma {:induction false} DistinctKeysCard<T, K>(xs: seq<T>, key: T -> K)
    requires DistinctKeys(xs, key)
    ensures |KeySet(xs, key)| == |xs|
  {
    if xs != [] {
      var tail := xs[1..];
      assert DistinctKeys(tail, key) by {
        forall i, j | 0 <= i < j < |tail| ensures key(tail[i]) != key(tail[j]) {
          assert tail[i] == xs[i + 1] && tail[j] == xs[j + 1];
        }
      }
      DistinctKeysCard(tail, key);
      assert KeySet(xs, key) == KeySet(tail, key) + {key(xs[0])} by {
        forall k | k in KeySet(xs, key) ensures k in KeySet(tail, key) + {key(xs[0])} {
          var i :| 0 <= i < |xs| && key(xs[i]) == k;
          if i > 0 { assert key(tail[i - 1]) == k; }
        }
        forall k | k in KeySet(tail, key) ensures k in KeySet(xs, key) {
          var i :| 0 <= i < |tail| && key(tail[i]) == k;
          assert key(xs[i + 1]) == k;
        }
      }
      assert key(xs[0]) !in KeySet(tail, key);
    }
  }

  /** Filtering rows with distinct keys keeps them distinct. */
  lemma {:induction false} FilterKeepsDistinct<T(!new), K>(xs: seq<T>, keep: T -> bool, key: T -> K)
    requires DistinctKeys(xs, key)
    ensures DistinctKeys(Filter(xs, keep), key)
  {
    if xs != [] {
      var tail := xs[1..];
      assert DistinctKeys(tail, key) by {
        forall i, j | 0 <= i < j < |tail| ensures key(tail[i]) != key(tail[j]) {
          assert tail[i] == xs[i + 1] && tail[j] == xs[j + 1];
        }
      }
      FilterKeepsDistinct(tail, keep, key);
      if keep(xs[0]) {
        forall x | x in Filter(tail, keep) ensures key(xs[0]) != key(x) {
          var j :| 0 <= j < |tail| && tail[j] == x;
          assert xs[j + 1] == x;
        }
        ConsDistinct(xs[0], Filter(tail, keep), key);
      } else {
        assert Filter(xs, keep) == Filter(tail, keep);
      }
    }
  }
}
