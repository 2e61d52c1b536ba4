/**
 * The two list edits the app performs on equal elements: Kotlin's
 * `filterNot { it == x }` and `map { if (it == a) b else it }`.
 */
module Lists {

  /** `filterNot { it == x }`: every occurrence of `x` dropped, the rest kept in order. */
  function RemoveAll<T(==,!new)>(xs: seq<T>, x: T): (r: seq<T>)
    ensures x !in r
    ensures |r| <= |xs|
  {
    if xs == [] then []
    else (if xs[0] == x then [] else [xs[0]]) + RemoveAll(xs[1..], x)
  }

  /** Every element other than `x` survives the removal, and nothing new appears. */
  lemma {:induction false} RemoveAllMembers<T(!new)>(xs: seq<T>, x: T, y: T)
    requires y != x
    ensures y in RemoveAll(xs, x) <==> y in xs
  {
    if xs != [] {
      RemoveAllMembers(xs[1..], x, y);
      assert xs == [xs[0]] + xs[1..];
    }
  }

  /** Filtering a list with a known first element: that element goes or stays, the rest is filtered. */
  lemma RemoveAllCons<T(!new)>(h: T, t: seq<T>, x: T)
    ensures RemoveAll([h] + t, x) == (if h == x then [] else [h]) + RemoveAll(t, x)
  {
    assert ([h] + t)[1..] == t;
  }

  /** Removing distributes over concatenation, so the survivors keep their relative order. */
  lemma {:induction false} RemoveAllAppend<T(!new)>(xs: seq<T>, ys: seq<T>, x: T)
    ensures RemoveAll(xs + ys, x) == RemoveAll(xs, x) + RemoveAll(ys, x)
  {
    if xs == [] {
      assert xs + ys == ys;
    } else {
      var h, tail := xs[0], xs[1..];
      assert xs + ys == [h] + (tail + ys);
      RemoveAllCons(h, tail + ys, x);
      RemoveAllAppend(tail, ys, x);
      var head := if h == x then [] else [h];
      var a, b := RemoveAll(tail, x), RemoveAll(ys, x);
      assert head + (a + b) == (head + a) + b;
    }
  }

  /** How often `y` occurs after removing `x`: never for `x`, as often as before otherwise. */
  lemma {:induction false} RemoveAllCount<T(!new)>(xs: seq<T>, x: T, y: T)
    ensures multiset(RemoveAll(xs, x))[y] == if y == x then 0 else multiset(xs)[y]
  {
    if xs != [] {
      var head := if xs[0] == x then [] else [xs[0]];
      var rest := RemoveAll(xs[1..], x);
      RemoveAllCount(xs[1..], x, y);
      assert xs == [xs[0]] + xs[1..];
      assert multiset(xs)[y] == multiset{xs[0]}[y] + multiset(xs[1..])[y];
      assert multiset(RemoveAll(xs, x))[y] == multiset(head)[y] + multiset(rest)[y];
    }
  }

  /** Removing drops exactly the copies of `x` and no other element. */
  lemma RemoveAllCounts<T(!new)>(xs: seq<T>, x: T)
    ensures multiset(RemoveAll(xs, x)) == multiset(xs)[x := 0]
  {
    var m, mr := multiset(xs), multiset(RemoveAll(xs, x));
    forall y
      ensures mr[y] == m[x := 0][y]
    {
      RemoveAllCount(xs, x, y);
    }
    assert mr == m[x := 0];
  }

  /** Removing an element that is not there changes nothing. */
  lemma {:induction false} RemoveAllAbsent<T(!new)>(xs: seq<T>, x: T)
    requires x !in xs
    ensures RemoveAll(xs, x) == xs
  {
    if xs != [] {
      RemoveAllAbsent(xs[1..], x);
      assert xs == [xs[0]] + xs[1..];
    }
  }

  /** `map { if (it == target) replacement else it }`. */
  function ReplaceAll<T(==,!new)>(xs: seq<T>, target: T, replacement: T): (r: seq<T>)
    ensures |r| == |xs|
    ensures target in r ==> target == replacement
    ensures forall i :: 0 <= i < |xs| && xs[i] == target ==> r[i] == replacement
    ensures forall i :: 0 <= i < |xs| && xs[i] != target ==> r[i] == xs[i]
  {
    seq(|xs|, i requires 0 <= i < |xs| => if xs[i] == target then replacement else xs[i])
  }

  /** Counting in a list with a known first element. */
  lemma CountCons<T>(h: T, t: seq<T>, y: T)
    ensures multiset([h] + t)[y] == (if h == y then 1 else 0) + multiset(t)[y]
  {
    assert multiset([h] + t) == multiset{h} + multiset(t);
  }

  /** Replacing in a list splits into its first element and the rest. */
  lemma ReplaceAllCons<T(!new)>(xs: seq<T>, target: T, replacement: T)
    requires xs != []
    ensures ReplaceAll(xs, target, replacement)
         == [if xs[0] == target then replacement else xs[0]] + ReplaceAll(xs[1..], target, replacement)
  {
  }

  /** How often `y` occurs after replacing: never for the target, as often as both before for the replacement. */
  lemma {:induction false} ReplaceAllCount<T(!new)>(xs: seq<T>, target: T, replacement: T, y: T)
    requires target != replacement
    ensures multiset(ReplaceAll(xs, target, replacement))[y]
         == if y == target then 0
            else if y == replacement then multiset(xs)[replacement] + multiset(xs)[target]
            else multiset(xs)[y]
  {
    if xs != [] {
      var h, t := xs[0], xs[1..];
      var rest := ReplaceAll(t, target, replacement);
      ReplaceAllCount(t, target, replacement, y);
      ReplaceAllCons(xs, target, replacement);
      assert xs == [h] + t;
      CountCons(h, t, y);
      CountCons(h, t, target);
      CountCons(h, t, replacement);
      CountCons(if h == target then replacement else h, rest, y);
    }
  }

  /**
   * Replacing moves every copy of `target` over to `replacement` and leaves
   * all other elements where they were.
   */
  lemma ReplaceAllCounts<T(!new)>(xs: seq<T>, target: T, replacement: T)
    requires target != replacement
    ensures target !in ReplaceAll(xs, target, replacement)
    ensures multiset(ReplaceAll(xs, target, replacement))
         == multiset(xs)[target := 0][replacement := multiset(xs)[replacement] + multiset(xs)[target]]
  {
    var m, mr := multiset(xs), multiset(ReplaceAll(xs, target, replacement));
    var expected := m[target := 0][replacement := m[replacement] + m[target]];
    forall y
      ensures mr[y] == expected[y]
    {
      ReplaceAllCount(xs, target, replacement, y);
    }
    assert mr == expected;
  }
}
