/**
 * Kotlin's `sortedByDescending { key }` and `take(n)` on lists. The sort is
 * stable (the JVM sorts objects with a stable merge sort), so elements with
 * equal keys keep their original relative order; it is modelled here as an
 * insertion sort, which is stable by construction.
 */
module Ranking {

  /** Larger keys never follow smaller ones. */
  ghost predicate NonIncreasing<T>(xs: seq<T>, key: T -> int) {
    forall i, j :: 0 <= i < j < |xs| ==> key(xs[i]) >= key(xs[j])
  }

  /** The elements whose key is `k`, in their order in `xs`. */
  function WithKey<T>(xs: seq<T>, key: T -> int, k: int): seq<T> {
    if xs == [] then []
    else (if key(xs[0]) == k then [xs[0]] else []) + WithKey(xs[1..], key, k)
  }

  /** Puts `x` in front of the first element whose key is not larger than its own. */
  function Insert<T>(x: T, sorted: seq<T>, key: T -> int): (r: seq<T>)
    ensures |r| == |sorted| + 1
  {
    if sorted == [] || key(sorted[0]) <= key(x) then [x] + sorted
    else [sorted[0]] + Insert(x, sorted[1..], key)
  }

  /** Inserting adds exactly one copy of `x` and loses nothing. */
  lemma {:induction false} InsertPermutes<T>(x: T, sorted: seq<T>, key: T -> int)
    ensures multiset(Insert(x, sorted, key)) == multiset(sorted) + multiset{x}
  {
    if sorted != [] && key(sorted[0]) > key(x) {
      InsertPermutes(x, sorted[1..], key);
      assert sorted == [sorted[0]] + sorted[1..];
    }
  }

  /** Kotlin's `sortedByDescending(key)`. */
  function SortedByDescending<T>(xs: seq<T>, key: T -> int): (r: seq<T>)
    ensures multiset(r) == multiset(xs)
    ensures |r| == |xs|
  {
    if xs == [] then []
    else
      assert xs == [xs[0]] + xs[1..];
      InsertPermutes(xs[0], SortedByDescending(xs[1..], key), key);
      Insert(xs[0], SortedByDescending(xs[1..], key), key)
  }

  /** A bound on the keys of a list and of `x` bounds every key after the insertion. */
  lemma {:induction false} InsertBounded<T>(x: T, sorted: seq<T>, key: T -> int, b: int)
    requires key(x) <= b
    requires forall i :: 0 <= i < |sorted| ==> key(sorted[i]) <= b
    ensures forall i :: 0 <= i < |Insert(x, sorted, key)| ==> key(Insert(x, sorted, key)[i]) <= b
  {
    var r := Insert(x, sorted, key);
    if sorted == [] || key(sorted[0]) <= key(x) {
      forall i | 0 <= i < |r| ensures key(r[i]) <= b {
        if i > 0 { assert r[i] == sorted[i - 1]; }
      }
    } else {
      var tail := sorted[1..];
      InsertBounded(x, tail, key, b);
      var rest := Insert(x, tail, key);
      forall i | 0 <= i < |r| ensures key(r[i]) <= b {
        if i > 0 { assert r[i] == rest[i - 1]; }
      }
    }
  }

  lemma {:induction false} InsertKeepsOrder<T>(x: T, sorted: seq<T>, key: T -> int)
    requires NonIncreasing(sorted, key)
    ensures NonIncreasing(Insert(x, sorted, key), key)
  {
    if sorted != [] && key(sorted[0]) > key(x) {
      var h, tail := sorted[0], sorted[1..];
      assert NonIncreasing(tail, key) by {
        assert forall i :: 0 <= i < |tail| ==> tail[i] == sorted[i + 1];
      }
      InsertKeepsOrder(x, tail, key);
      assert forall i :: 0 <= i < |tail| ==> key(tail[i]) <= key(h) by {
        assert forall i :: 0 <= i < |tail| ==> tail[i] == sorted[i + 1];
      }
      InsertBounded(x, tail, key, key(h));
      var rest := Insert(x, tail, key);
      var r := [h] + rest;
      forall i, j | 0 <= i < j < |r| ensures key(r[i]) >= key(r[j]) {
        assert r[j] == rest[j - 1];
        if i > 0 { assert r[i] == rest[i - 1]; }
      }
    }
  }

  /** The sort puts larger keys first. */
  lemma {:induction false} SortedIsNonIncreasing<T>(xs: seq<T>, key: T -> int)
    ensures NonIncreasing(SortedByDescending(xs, key), key)
  {
    if xs != [] {
      SortedIsNonIncreasing(xs[1..], key);
      InsertKeepsOrder(xs[0], SortedByDescending(xs[1..], key), key);
    }
  }

  /** Filtering a list with a known first element by key: that element if its key matches, then the rest. */
  lemma WithKeyCons<T>(h: T, t: seq<T>, key: T -> int, k: int)
    ensures WithKey([h] + t, key, k) == (if key(h) == k then [h] else []) + WithKey(t, key, k)
  {
    assert ([h] + t)[1..] == t;
  }

  lemma {:induction false} InsertIsStable<T>(x: T, sorted: seq<T>, key: T -> int, k: int)
    ensures WithKey(Insert(x, sorted, key), key, k)
         == (if key(x) == k then [x] else []) + WithKey(sorted, key, k)
  {
    if sorted == [] || key(sorted[0]) <= key(x) {
      WithKeyCons(x, sorted, key, k);
    } else {
      var h, tail := sorted[0], sorted[1..];
      InsertIsStable(x, tail, key, k);
      WithKeyCons(h, Insert(x, tail, key), key, k);
      assert sorted == [h] + tail;
      WithKeyCons(h, tail, key, k);
      // key(h) > key(x), so at most one of h and x carries the key k.
    }
  }

  /**
   * The sort is stable: for every key, the elements carrying that key come
   * out in the order they went in.
   */
  lemma {:induction false} SortedIsStable<T>(xs: seq<T>, key: T -> int, k: int)
    ensures WithKey(SortedByDescending(xs, key), key, k) == WithKey(xs, key, k)
  {
    if xs != [] {
      SortedIsStable(xs[1..], key, k);
      InsertIsStable(xs[0], SortedByDescending(xs[1..], key), key, k);
    }
  }

  /** Kotlin's `take(n)`: the first `n` elements, or all of them when there are fewer. */
  function Take<T>(xs: seq<T>, n: nat): (r: seq<T>)
    ensures |r| == if n < |xs| then n else |xs|
    ensures r <= xs
  {
    if n < |xs| then xs[..n] else xs
  }

  /** A prefix of a list ordered by descending keys is ordered too, and holds only elements of the list. */
  lemma TakeOfOrdered<T>(xs: seq<T>, key: T -> int, n: nat)
    requires NonIncreasing(xs, key)
    ensures NonIncreasing(Take(xs, n), key)
    ensures multiset(Take(xs, n)) <= multiset(xs)
  {
    var r := Take(xs, n);
    assert xs == r + xs[|r|..];
    assert multiset(xs) == multiset(r) + multiset(xs[|r|..]);
  }

  /** In a list ordered by descending keys, an element before position `k` has a key at least that of one from `k` on. */
  lemma SplitOrdered<T>(xs: seq<T>, key: T -> int, k: nat, x: T, y: T)
    requires NonIncreasing(xs, key) && k <= |xs|
    requires x in xs[..k] && y in xs[k..]
    ensures key(y) <= key(x)
  {
    var i :| 0 <= i < k && xs[..k][i] == x;
    var j :| 0 <= j < |xs| - k && xs[k..][j] == y;
    assert xs[i] == x && xs[k + j] == y;
  }

  /**
   * Taking a prefix of a list ordered by descending keys keeps the largest
   * keys: nothing left out has a larger key than anything taken.
   */
  lemma TakeKeepsLargest<T>(xs: seq<T>, key: T -> int, n: nat)
    requires NonIncreasing(xs, key)
    ensures forall x, y :: x in Take(xs, n) && y in multiset(xs) - multiset(Take(xs, n)) ==> key(y) <= key(x)
  {
    var r := Take(xs, n);
    var k := |r|;
    assert r == xs[..k];
    assert multiset(xs) - multiset(r) == multiset(xs[k..]) by {
      assert xs == r + xs[k..];
    }
    forall x, y | x in r && y in multiset(xs) - multiset(r) ensures key(y) <= key(x) {
      assert y in xs[k..];
      SplitOrdered(xs, key, k, x, y);
    }
  }
}
