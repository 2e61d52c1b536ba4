/**
 * Players and turn order of the `com.example` app variant
 * (data/Player.kt): a player's score is REPLACED by the score of their turn.
 */
module Players {
  import opened Wrappers
  import opened Kotlin
  import Ranking

  datatype Player = Player(id: string, name: string, score: Int32)

  /** Who plays, and whose turn it is. */
  datatype GameMode = GameMode(isSinglePlayer: bool, players: seq<Player>, currentPlayerIndex: Int32)

  /** `GameMode()`: single-player, nobody registered, so nobody's turn. */
  function DefaultGameMode(): (m: GameMode)
    ensures m.isSinglePlayer && m.players == [] && m.currentPlayerIndex == 0
    ensures CurrentPlayer(m) == None
  {
    GameMode(true, [], 0)
  }

  /** `getCurrentPlayer()`: `players.getOrNull(currentPlayerIndex)`. */
  function CurrentPlayer(m: GameMode): (r: Option<Player>)
    ensures r.Some? <==> 0 <= m.currentPlayerIndex < |m.players|
    ensures r.Some? ==> r.value == m.players[m.currentPlayerIndex]
  {
    if 0 <= m.currentPlayerIndex < |m.players| then Some(m.players[m.currentPlayerIndex]) else None
  }

  /**
   * `getNextPlayerIndex()`: `(currentPlayerIndex + 1) % players.size` in
   * `Int` arithmetic; an empty player list makes Kotlin throw.
   */
  function NextPlayerIndex(m: GameMode): (r: Int32)
    requires |m.players| > 0
    ensures -1 <= m.currentPlayerIndex < MAX_INT ==> r == (m.currentPlayerIndex + 1) % |m.players|
    ensures -1 <= m.currentPlayerIndex < MAX_INT ==> 0 <= r < |m.players|
    ensures -1 <= m.currentPlayerIndex < MAX_INT && m.currentPlayerIndex + 1 < |m.players| ==> r == m.currentPlayerIndex + 1
    ensures -1 <= m.currentPlayerIndex < MAX_INT && m.currentPlayerIndex + 1 == |m.players| ==> r == 0
  {
    RingSuccessor(m.currentPlayerIndex, |m.players|)
  }

  /** Hands the turn to the next player. */
  function Advance(m: GameMode): GameMode
    requires |m.players| > 0
  {
    m.(currentPlayerIndex := NextPlayerIndex(m))
  }

  function AdvanceTimes(m: GameMode, k: nat): GameMode
    requires |m.players| > 0
    ensures |AdvanceTimes(m, k).players| == |m.players|
  {
    if k == 0 then m else Advance(AdvanceTimes(m, k - 1))
  }

  /**
   * Starting with the first player, the turn passes through players
   * 1, 2, ..., n-1 and comes back to player 0 on the n-th hand-over, not before.
   */
  lemma {:induction false} RotationFromFirstPlayer(m: GameMode, k: nat)
    requires 0 < |m.players| <= MAX_INT && m.currentPlayerIndex == 0
    requires 1 <= k <= |m.players|
    ensures AdvanceTimes(m, k).currentPlayerIndex == if k == |m.players| then 0 else k
  {
    if k > 1 {
      RotationFromFirstPlayer(m, k - 1);
      assert AdvanceTimes(m, k - 1).currentPlayerIndex == k - 1;
    }
  }

  /**
   * `updatePlayerScore(playerId, newScore)`: every player with that id now
   * has `newScore`; nothing else changes.
   */
  function UpdatePlayerScore(m: GameMode, playerId: string, newScore: Int32): (r: GameMode)
    ensures r.isSinglePlayer == m.isSinglePlayer && r.currentPlayerIndex == m.currentPlayerIndex
    ensures |r.players| == |m.players|
    ensures forall i :: 0 <= i < |m.players| ==>
      && r.players[i].id == m.players[i].id
      && r.players[i].name == m.players[i].name
      && r.players[i].score == (if m.players[i].id == playerId then newScore else m.players[i].score)
  {
    m.(players := seq(|m.players|, i requires 0 <= i < |m.players| =>
      var p := m.players[i]; if p.id == playerId then p.(score := newScore) else p))
  }

  /** Replacing a score twice keeps only the second one. */
  lemma UpdateLastWins(m: GameMode, playerId: string, first: Int32, second: Int32)
    ensures UpdatePlayerScore(UpdatePlayerScore(m, playerId, first), playerId, second)
         == UpdatePlayerScore(m, playerId, second)
  {
    var a := UpdatePlayerScore(UpdatePlayerScore(m, playerId, first), playerId, second);
    var b := UpdatePlayerScore(m, playerId, second);
    assert a.players == b.players;
  }

  function Score(p: Player): int {
    p.score
  }

  /** `getSortedPlayers()`: `players.sortedByDescending { it.score }`. */
  function SortedPlayers(m: GameMode): seq<Player> {
    Ranking.SortedByDescending(m.players, Score)
  }

  /**
   * The standings list every player once, highest score first, and players
   * with equal scores stay in the order they joined.
   */
  lemma Standings(m: GameMode)
    ensures multiset(SortedPlayers(m)) == multiset(m.players)
    ensures Ranking.NonIncreasing(SortedPlayers(m), Score)
    ensures forall k :: Ranking.WithKey(SortedPlayers(m), Score, k) == Ranking.WithKey(m.players, Score, k)
  {
    Ranking.SortedIsNonIncreasing(m.players, Score);
    forall k ensures Ranking.WithKey(SortedPlayers(m), Score, k) == Ranking.WithKey(m.players, Score, k) {
      Ranking.SortedIsStable(m.players, Score, k);
    }
  }
}
