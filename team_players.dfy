/**
 * Players, teams and rounds of the `com.tlajja` app variant
 * (data/Player.kt): a turn's points are ADDED to the player's score.
 */
module TeamPlayers {
  import opened Wrappers
  import opened Kotlin
  import Ranking

  datatype Player = Player(id: string, name: string, score: Int32)

  datatype GameMode = GameMode(
    isSinglePlayer: bool,
    isTeamMode: bool,
    players: seq<Player>,
    currentPlayerIndex: Int32,
    totalRounds: Int32,
    currentRound: Int32)

  /** `GameMode()`: single-player, not teams, one round, the first of it. */
  function DefaultGameMode(): (m: GameMode)
    ensures m.isSinglePlayer && !m.isTeamMode && m.players == []
    ensures m.currentPlayerIndex == 0 && m.totalRounds == 1 && m.currentRound == 1
    ensures CurrentPlayer(m) == None
  {
    GameMode(true, false, [], 0, 1, 1)
  }

  /** `getCurrentPlayer()`: `players.getOrNull(currentPlayerIndex)`. */
  function CurrentPlayer(m: GameMode): (r: Option<Player>)
    ensures r.Some? <==> 0 <= m.currentPlayerIndex < |m.players|
    ensures r.Some? ==> r.value == m.players[m.currentPlayerIndex]
  {
    if 0 <= m.currentPlayerIndex < |m.players| then Some(m.players[m.currentPlayerIndex]) else None
  }

  /** `getNextPlayerIndex()`: `(currentPlayerIndex + 1) % players.size`; Kotlin throws on no players. */
  function NextPlayerIndex(m: GameMode): (r: Int32)
    requires |m.players| > 0
    ensures -1 <= m.currentPlayerIndex < MAX_INT ==> r == (m.currentPlayerIndex + 1) % |m.players|
    ensures -1 <= m.currentPlayerIndex < MAX_INT ==> 0 <= r < |m.players|
  {
    RingSuccessor(m.currentPlayerIndex, |m.players|)
  }

  /**
   * `updatePlayerScore(playerId, points)`: every player with that id gains
   * `points` (in `Int` arithmetic); the other players and the team and
   * round fields are unchanged.
   */
  function UpdatePlayerScore(m: GameMode, playerId: string, points: Int32): (r: GameMode)
    ensures r.isSinglePlayer == m.isSinglePlayer && r.isTeamMode == m.isTeamMode
    ensures r.currentPlayerIndex == m.currentPlayerIndex
    ensures r.totalRounds == m.totalRounds && r.currentRound == m.currentRound
    ensures |r.players| == |m.players|
    ensures forall i :: 0 <= i < |m.players| ==>
      && r.players[i].id == m.players[i].id
      && r.players[i].name == m.players[i].name
      && r.players[i].score == (if m.players[i].id == playerId then Add(m.players[i].score, points) else m.players[i].score)
  {
    m.(players := seq(|m.players|, i requires 0 <= i < |m.players| =>
      var p := m.players[i]; if p.id == playerId then p.(score := Add(p.score, points)) else p))
  }

  /** Adding `a` and then `b` to a player is adding `a + b` once. */
  lemma UpdatesCompose(m: GameMode, playerId: string, a: Int32, b: Int32)
    ensures UpdatePlayerScore(UpdatePlayerScore(m, playerId, a), playerId, b)
         == UpdatePlayerScore(m, playerId, Add(a, b))
  {
    var twice := UpdatePlayerScore(UpdatePlayerScore(m, playerId, a), playerId, b);
    var once := UpdatePlayerScore(m, playerId, Add(a, b));
    forall i | 0 <= i < |m.players|
      ensures twice.players[i] == once.players[i]
    {
      if m.players[i].id == playerId {
        AddAssociates(m.players[i].score, a, b);
      }
    }
    assert twice.players == once.players;
  }

  /** Scores recorded for two players can be recorded in either order. */
  lemma UpdatesCommute(m: GameMode, id1: string, a: Int32, id2: string, b: Int32)
    ensures UpdatePlayerScore(UpdatePlayerScore(m, id1, a), id2, b)
         == UpdatePlayerScore(UpdatePlayerScore(m, id2, b), id1, a)
  {
    var x := UpdatePlayerScore(UpdatePlayerScore(m, id1, a), id2, b);
    var y := UpdatePlayerScore(UpdatePlayerScore(m, id2, b), id1, a);
    if id1 == id2 {
      UpdatesCompose(m, id1, a, b);
      UpdatesCompose(m, id1, b, a);
    }
    assert x.players == y.players;
  }

  function Score(p: Player): int {
    p.score
  }

  /** `getSortedPlayers()`: `players.sortedByDescending { it.score }`. */
  function SortedPlayers(m: GameMode): seq<Player> {
    Ranking.SortedByDescending(m.players, Score)
  }

  /** The standings list every player once, highest first, ties in joining order. */
  lemma Standings(m: GameMode)
    ensures multiset(SortedPlayers(m)) == multiset(m.players)
    ensures Ranking.NonIncreasing(SortedPlayers(m), Score)
    ensures forall k :: Ranking.WithKey(SortedPlayers(m), Score, k) == Ranking.WithKey(m.players, Score, k)
  {
    Ranking.SortedIsNonIncreasing(m.players, Score);
    forall k ensures Ranking.WithKey(SortedPlayers(m), Score, k) == Ranking.WithKey(m.players, Score, k) {
      Ranking.SortedIsStable(m.players, Score, k);
    }
  }
}
