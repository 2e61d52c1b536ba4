/**
 * Saved game results and the figures the statistics screen derives from
 * them (data/GameStats.kt of the `com.example` app variant).
 */
module GameStats {
  import opened Wrappers
  import opened Kotlin
  import Players
  import Ranking

  /** What a finished game scored: one total, or every player's final score. */
  datatype Tally = Score(points: Int32) | Standings(players: seq<Players.Player>)

  /**
   * One saved game. `category` is None for "all categories"; a
   * `timerSeconds` of 0 means the timer was unlimited.
   */
  datatype GameResult = GameResult(
    id: string,
    timestamp: int,
    category: Option<string>,
    timerSeconds: Int32,
    tally: Tally)
  {
    /** The points a result contributes to the statistics; a multi-player result carries none. */
    function Points(): Int32 {
      if tally.Score? then tally.points else 0
    }
  }

  /**
   * The two readings of `System.currentTimeMillis()` that `GameResult`'s
   * defaults take, one for `id` and one for `timestamp`. They are separate
   * calls, so the clock may have moved between them.
   */
  datatype Clock = Clock(idMillis: int, timestampMillis: int)

  /** `getCategoryDisplay()`: the category's name, or "Visi" ("all") when there is none. */
  function CategoryDisplay(g: GameResult): (r: string)
    ensures g.category.Some? ==> r == g.category.value
    ensures g.category.None? ==> r == "Visi"
  {
    match g.category
    case Some(name) => name
    case None => "Visi"
  }

  /** `getTimerDisplay()`: "∞" for an unlimited timer, otherwise the seconds followed by "s". */
  function TimerDisplay(g: GameResult): (r: string)
    ensures r == "∞" <==> g.timerSeconds == 0
    ensures g.timerSeconds != 0 ==> |r| >= 2 && r[..|r| - 1] == IntToString(g.timerSeconds) && r[|r| - 1] == 's'
  {
    if g.timerSeconds == 0 then "∞" else IntToString(g.timerSeconds) + "s"
  }

  /** Different timer settings are never displayed alike. */
  lemma TimerDisplayInjective(g: GameResult, h: GameResult)
    requires TimerDisplay(g) == TimerDisplay(h)
    ensures g.timerSeconds == h.timerSeconds
  {
    if g.timerSeconds != 0 {
      var r := TimerDisplay(g);
      IntToStringInjective(g.timerSeconds, h.timerSeconds);
    }
  }

  datatype GameStatistics = GameStatistics(games: seq<GameResult>)

  /** `getTotalGames()`. */
  function TotalGames(s: GameStatistics): (r: nat)
    ensures r == |s.games|
  {
    |s.games|
  }

  /** `maxOfOrNull { it.points }`: the largest points, or None for no games. */
  function MaxPoints(games: seq<GameResult>): (r: Option<Int32>)
    ensures r.None? <==> games == []
    ensures r.Some? ==> exists i :: 0 <= i < |games| && games[i].Points() == r.value
    ensures r.Some? ==> forall i :: 0 <= i < |games| ==> games[i].Points() <= r.value
  {
    if games == [] then None
    else
      var first := games[0].Points();
      match MaxPoints(games[1..])
      case None => Some(first)
      case Some(rest) =>
        assert forall i :: 1 <= i < |games| ==> games[i] == games[1..][i - 1];
        Some(if first >= rest then first else rest)
  }

  /** `getHighScore()`: the best points of any game, 0 when there are none. */
  function HighScore(s: GameStatistics): (r: Int32)
    ensures s.games == [] ==> r == 0
    ensures s.games != [] ==> exists i :: 0 <= i < |s.games| && s.games[i].Points() == r
    ensures forall i :: 0 <= i < |s.games| ==> s.games[i].Points() <= r
  {
    match MaxPoints(s.games)
    case Some(best) => best
    case None => 0
  }

  /** The exact total of the points, free of `Int` overflow. */
  function ExactSum(games: seq<GameResult>): int {
    if games == [] then 0 else games[0].Points() + ExactSum(games[1..])
  }

  /** `sumOf { it.points }`: adds the points left to right in `Int` arithmetic, starting from `acc`. */
  function SumOf(games: seq<GameResult>, acc: Int32): (r: Int32)
    ensures r == Wrap(acc + ExactSum(games))
  {
    if games == [] then acc
    else
      AddThenSum(acc, games[0].Points(), ExactSum(games[1..]));
      SumOf(games[1..], Add(acc, games[0].Points()))
  }

  /** One step of the fold: adding in `Int` and then summing the rest wraps like the exact sum. */
  lemma AddThenSum(acc: Int32, p: Int32, rest: int)
    ensures Wrap(Add(acc, p) + rest) == Wrap(acc + (p + rest))
  {
    WrapAddAssociates(acc + p, rest);
  }

  /** `getTotalPoints()`: the sum of all points, wrapped to `Int`. */
  function TotalPoints(s: GameStatistics): (r: Int32)
    ensures r == Wrap(ExactSum(s.games))
    ensures MIN_INT <= ExactSum(s.games) <= MAX_INT ==> r == ExactSum(s.games)
  {
    SumOf(s.games, 0)
  }

  /** Saving one more result adds its points to the exact total. */
  lemma {:induction false} ExactSumAppend(games: seq<GameResult>, g: GameResult)
    ensures ExactSum(games + [g]) == ExactSum(games) + g.Points()
  {
    if games != [] {
      assert (games + [g])[1..] == games[1..] + [g];
      ExactSumAppend(games[1..], g);
    }
  }

  function Timestamp(g: GameResult): int {
    g.timestamp
  }

  /**
   * `getRecentGames(limit)`: the `limit` newest games, newest first. A
   * negative `limit` makes Kotlin's `take` throw.
   */
  function RecentGames(s: GameStatistics, limit: Int32): (r: seq<GameResult>)
    requires limit >= 0
    ensures |r| == if limit < |s.games| then limit else |s.games|
    ensures forall i, j :: 0 <= i < j < |r| ==> r[i].timestamp >= r[j].timestamp
    ensures multiset(r) <= multiset(s.games)
  {
    var sorted := Ranking.SortedByDescending(s.games, Timestamp);
    Ranking.SortedIsNonIncreasing(s.games, Timestamp);
    Ranking.TakeOfOrdered(sorted, Timestamp, limit);
    var r := Ranking.Take(sorted, limit);
    assert forall i, j :: 0 <= i < j < |r| ==> Timestamp(r[i]) >= Timestamp(r[j]);
    r
  }

  /** The listed games are the newest: no game left out is newer than any game listed. */
  lemma RecentGamesAreNewest(s: GameStatistics, limit: Int32)
    requires limit >= 0
    ensures var r := RecentGames(s, limit);
      forall x, g :: x in r && g in multiset(s.games) - multiset(r) ==> g.timestamp <= x.timestamp
  {
    var sorted := Ranking.SortedByDescending(s.games, Timestamp);
    Ranking.SortedIsNonIncreasing(s.games, Timestamp);
    Ranking.TakeKeepsLargest(sorted, Timestamp, limit);
    var r := Ranking.Take(sorted, limit);
    assert multiset(s.games) - multiset(r) == multiset(sorted) - multiset(r);
    forall x, g | x in r && g in multiset(s.games) - multiset(r) ensures g.timestamp <= x.timestamp {
      assert Timestamp(g) <= Timestamp(x);
    }
  }

  /** With no newer games than the limit, every game is listed: nothing is lost. */
  lemma RecentGamesAll(s: GameStatistics, limit: Int32)
    requires |s.games| <= limit
    ensures multiset(RecentGames(s, limit)) == multiset(s.games)
  {
    Ranking.SortedIsNonIncreasing(s.games, Timestamp);
  }
}
