/**
 * The team list screen of the `com.tlajja` app (ui/SetTeamsView.kt): at
 * least two team names, pre-filled "Komanda A", "Komanda B", ..., a rounds
 * counter between 1 and 20, and a start button that passes the trimmed
 * names on when every one is filled in.
 */
module SetTeams {
  import opened Wrappers
  import opened Kotlin

  const MIN_ROUNDS: int := 1
  const MAX_ROUNDS: int := 20

  /** The name the add button gives the team at position `n`: "Komanda " and the letter `'A' + n`. */
  function TeamName(n: nat): (r: string)
    requires 65 + n < 0xD800
    ensures |r| == 9 && r[..8] == "Komanda " && r[8] as int == 65 + n
  {
    "Komanda " + [(65 + n) as char]
  }

  /** Teams added one after another get different names. */
  lemma TeamNamesDiffer(m: nat, n: nat)
    requires 65 + m < 0xD800 && 65 + n < 0xD800 && m != n
    ensures TeamName(m) != TeamName(n)
  {
    assert TeamName(m)[8] != TeamName(n)[8];
  }

  /** A name trimmed for the start button is blank exactly when the typed name is. */
  lemma TrimKeepsBlankness(s: string)
    ensures IsBlank(Trim(s)) <==> IsBlank(s)
  {
    BlankIffTrimEmpty(s);
    BlankIffTrimEmpty(Trim(s));
    TrimIdempotent(s);
  }

  /** `teams.map { it.trim() }`. */
  function TrimAll(names: seq<string>): (r: seq<string>)
    ensures |r| == |names|
    ensures forall i :: 0 <= i < |names| ==> r[i] == Trim(names[i])
  {
    seq(|names|, i requires 0 <= i < |names| => Trim(names[i]))
  }

  /**
   * What the start button passes on: the trimmed names and the rounds, when
   * there are at least two teams, no name is blank and at least one round.
   */
  function StartRequest(teams: seq<string>, rounds: Int32): (r: Option<(seq<string>, Int32)>)
    ensures r.Some? <==> |teams| >= 2 && rounds >= 1 && forall i :: 0 <= i < |teams| ==> !IsBlank(teams[i])
    ensures r.Some? ==> r.value.1 == rounds && |r.value.0| == |teams|
    ensures r.Some? ==> forall i :: 0 <= i < |teams| ==> r.value.0[i] == Trim(teams[i]) && !IsBlank(r.value.0[i])
  {
    var teamNames := TrimAll(teams);
    var allFilled := forall i :: 0 <= i < |teamNames| ==> !IsBlank(teamNames[i]);
    assert allFilled <==> forall i :: 0 <= i < |teams| ==> !IsBlank(teams[i]) by {
      forall i | 0 <= i < |teams| {
        TrimKeepsBlankness(teams[i]);
      }
    }
    if |teams| >= 2 && allFilled && rounds >= 1 then Some((teamNames, rounds)) else None
  }

  /** The screen's `remember`ed state. */
  class TeamList {
    var teams: seq<string>
    var rounds: Int32
    var validationAttempted: bool

    /** At least two teams, and between 1 and 20 rounds. */
    ghost predicate Valid()
      reads this
    {
      |teams| >= 2 && MIN_ROUNDS <= rounds <= MAX_ROUNDS
    }

    /** "Komanda A" and "Komanda B", three rounds, no start attempted yet. */
    constructor ()
      ensures Valid()
      ensures teams == ["Komanda A", "Komanda B"] && teams == [TeamName(0), TeamName(1)]
      ensures rounds == 3 && !validationAttempted
    {
      teams := ["Komanda A", "Komanda B"];
      assert TeamName(0) == "Komanda A" && TeamName(1) == "Komanda B";
      rounds := 3;
      validationAttempted := false;
    }

    /** Field `i` is marked red once a start was attempted and it is blank. */
    predicate ShowsError(i: int)
      requires 0 <= i < |teams|
      reads this
    {
      validationAttempted && IsBlank(teams[i])
    }

    /** The remove button: drops the last team, but never below two. */
    method RemoveLast()
      requires Valid()
      modifies this
      ensures Valid()
      ensures old(|teams|) > 2 ==> teams == old(teams[..|teams| - 1])
      ensures old(|teams|) <= 2 ==> teams == old(teams)
      ensures rounds == old(rounds) && validationAttempted == old(validationAttempted)
    {
      if |teams| > 2 {
        teams := teams[..|teams| - 1];
      }
    }

    /** The add button: a team named after its position. */
    method Add()
      requires Valid() && 65 + |teams| < 0xD800
      modifies this
      ensures Valid()
      ensures teams == old(teams) + [TeamName(old(|teams|))]
      ensures rounds == old(rounds) && validationAttempted == old(validationAttempted)
    {
      var nextName := "Komanda " + [(65 + |teams|) as char];
      teams := teams + [nextName];
    }

    /** Typing in field `i`: only that name changes. */
    method Edit(i: nat, name: string)
      requires Valid() && i < |teams|
      modifies this
      ensures Valid()
      ensures |teams| == old(|teams|) && teams[i] == name
      ensures forall j :: 0 <= j < |teams| && j != i ==> teams[j] == old(teams[j])
      ensures rounds == old(rounds) && validationAttempted == old(validationAttempted)
    {
      teams := teams[i := name];
    }

    /** The minus button of the rounds counter: one round less, but never below 1. */
    method DecrementRounds()
      requires Valid()
      modifies this
      ensures Valid()
      ensures rounds == if old(rounds) > MIN_ROUNDS then old(rounds) - 1 else old(rounds)
      ensures teams == old(teams) && validationAttempted == old(validationAttempted)
    {
      if rounds > 1 {
        rounds := rounds - 1;
      }
    }

    /** The plus button of the rounds counter: one round more, but never above 20. */
    method IncrementRounds()
      requires Valid()
      modifies this
      ensures Valid()
      ensures rounds == if old(rounds) < MAX_ROUNDS then old(rounds) + 1 else old(rounds)
      ensures teams == old(teams) && validationAttempted == old(validationAttempted)
    {
      if rounds < 20 {
        rounds := rounds + 1;
      }
    }

    /** The start button: marks blank fields from now on, and starts when every name is filled in. */
    method Start() returns (request: Option<(seq<string>, Int32)>)
      requires Valid()
      modifies this
      ensures Valid()
      ensures request == StartRequest(teams, rounds)
      ensures teams == old(teams) && rounds == old(rounds) && validationAttempted
      ensures request.None? ==> exists i :: 0 <= i < |teams| && ShowsError(i)
    {
      validationAttempted := true;
      request := StartRequest(teams, rounds);
      if request.None? {
        var i :| 0 <= i < |teams| && IsBlank(teams[i]);
        assert ShowsError(i);
      }
    }
  }
}
