/**
 * The player list screen of the `com.example` app (ui/SetPlayersView.kt):
 * at least two name fields, a remove and an add button, and a start button
 * that only goes ahead when every name is filled in.
 */
module SetPlayers {
  import opened Wrappers
  import opened Kotlin

  /** `filter { it.isNotBlank() }`. */
  function NonBlank(names: seq<string>): (r: seq<string>)
    ensures |r| <= |names|
  {
    if names == [] then []
    else (if IsBlank(names[0]) then [] else [names[0]]) + NonBlank(names[1..])
  }

  /** The filter keeps exactly the non-blank names: every kept name is one, and every one is kept. */
  lemma {:induction false} NonBlankMembers(names: seq<string>)
    ensures forall i :: 0 <= i < |NonBlank(names)| ==> !IsBlank(NonBlank(names)[i])
    ensures forall s :: s in NonBlank(names) <==> s in names && !IsBlank(s)
  {
    if names != [] {
      NonBlankMembers(names[1..]);
      assert forall s :: s in names <==> s == names[0] || s in names[1..];
    }
  }

  /** Filtering a list with a known first element. */
  lemma NonBlankCons(h: string, t: seq<string>)
    ensures NonBlank([h] + t) == (if IsBlank(h) then [] else [h]) + NonBlank(t)
  {
    assert ([h] + t)[1..] == t;
  }

  /** The filter works name by name, in order: it distributes over concatenation. */
  lemma {:induction false} NonBlankAppend(xs: seq<string>, ys: seq<string>)
    ensures NonBlank(xs + ys) == NonBlank(xs) + NonBlank(ys)
  {
    if xs == [] {
      assert xs + ys == ys;
    } else {
      var h, tail := xs[0], xs[1..];
      var head := if IsBlank(h) then [] else [h];
      var a, b := NonBlank(tail), NonBlank(ys);
      calc {
        NonBlank(xs + ys);
        { assert xs + ys == [h] + (tail + ys); NonBlankCons(h, tail + ys); }
        head + NonBlank(tail + ys);
        { NonBlankAppend(tail, ys); }
        head + (a + b);
        (head + a) + b;
        { assert xs == [h] + tail; NonBlankCons(h, tail); }
        NonBlank(xs) + b;
      }
    }
  }

  /** Every non-blank name is kept as often as it was typed, and no blank one is. */
  lemma {:induction false} NonBlankCounts(names: seq<string>, s: string)
    ensures multiset(NonBlank(names))[s] == if IsBlank(s) then 0 else multiset(names)[s]
  {
    if names != [] {
      var h, t := names[0], names[1..];
      NonBlankCounts(t, s);
      var head := if IsBlank(h) then [] else [h];
      assert multiset(NonBlank(names)) == multiset(head) + multiset(NonBlank(t));
      assert multiset(names) == multiset([h]) + multiset(t) by {
        assert names == [h] + t;
      }
    }
  }

  /** The filter keeps every name exactly when no name is blank, and then it changes nothing. */
  lemma {:induction false} NonBlankKeepsAllIffFilled(names: seq<string>)
    ensures |NonBlank(names)| == |names| <==> forall i :: 0 <= i < |names| ==> !IsBlank(names[i])
    ensures (forall i :: 0 <= i < |names| ==> !IsBlank(names[i])) ==> NonBlank(names) == names
  {
    if names != [] {
      NonBlankKeepsAllIffFilled(names[1..]);
      assert forall i :: 1 <= i < |names| ==> names[i] == names[1..][i - 1];
    }
  }

  /**
   * The names the start button passes on: all of them, untrimmed and in
   * order, when there are at least two and none is blank; else nothing.
   */
  function StartRequest(players: seq<string>): (r: Option<seq<string>>)
    ensures r.Some? <==> |players| >= 2 && forall i :: 0 <= i < |players| ==> !IsBlank(players[i])
    ensures r.Some? ==> r.value == players
  {
    NonBlankKeepsAllIffFilled(players);
    var playerNames := NonBlank(players);
    if |playerNames| == |players| && |players| >= 2 then Some(playerNames) else None
  }

  /** The screen's `remember`ed state. */
  class PlayerList {
    var players: seq<string>
    var validationAttempted: bool

    /** There are always at least two fields. */
    ghost predicate Valid()
      reads this
    {
      |players| >= 2
    }

    /** Two empty names, and no start attempted yet. */
    constructor ()
      ensures Valid()
      ensures players == ["", ""] && !validationAttempted
    {
      players := ["", ""];
      validationAttempted := false;
    }

    /** Field `i` is marked red once a start was attempted and it is blank. */
    predicate ShowsError(i: int)
      requires 0 <= i < |players|
      reads this
    {
      validationAttempted && IsBlank(players[i])
    }

    /** The remove button: drops the last name, but never below two. */
    method RemoveLast()
      requires Valid()
      modifies this
      ensures Valid()
      ensures old(|players|) > 2 ==> players == old(players[..|players| - 1])
      ensures old(|players|) <= 2 ==> players == old(players)
      ensures validationAttempted == old(validationAttempted)
    {
      if |players| > 2 {
        players := players[..|players| - 1];
      }
    }

    /** The add button: one more, empty, name. */
    method Add()
      requires Valid()
      modifies this
      ensures Valid()
      ensures players == old(players) + [""]
      ensures validationAttempted == old(validationAttempted)
    {
      players := players + [""];
    }

    /** Typing in field `i`: only that name changes. */
    method Edit(i: nat, name: string)
      requires Valid() && i < |players|
      modifies this
      ensures Valid()
      ensures |players| == old(|players|) && players[i] == name
      ensures forall j :: 0 <= j < |players| && j != i ==> players[j] == old(players[j])
      ensures validationAttempted == old(validationAttempted)
    {
      players := players[i := name];
    }

    /** The start button: marks blank fields from now on, and starts when every name is filled in. */
    method Start() returns (request: Option<seq<string>>)
      requires Valid()
      modifies this
      ensures Valid()
      ensures request == StartRequest(players)
      ensures players == old(players) && validationAttempted
      ensures request.None? ==> exists i :: 0 <= i < |players| && ShowsError(i)
    {
      validationAttempted := true;
      NonBlankKeepsAllIffFilled(players);
      var playerNames := NonBlank(players);
      if |playerNames| == |players| && |players| >= 2 {
        request := Some(playerNames);
      } else {
        request := None;
        var i :| 0 <= i < |players| && IsBlank(players[i]);
        assert ShowsError(i);
      }
    }
  }
}
