/**
 * The round controller of the `com.example` app (game/GameViewModel.kt).
 *
 * The view-model holds the current `GameState` snapshot and the game
 * settings, and drives a round: a 3-2-1 countdown, a word drawn from the
 * selected pool, a one-second tick loop, and the end of a turn, which in
 * multi-player mode commits the player's score and hands over or ends the
 * game.
 *
 * The coroutines become explicit steps: `CountdownStep` resumes one pending
 * countdown coroutine after its one-second delay, and `Tick` resumes the
 * timer coroutine. `viewModelScope` dispatches on the main thread
 * immediately, so a launched coroutine runs up to its first `delay` before
 * `launch` returns. The word repository is the asset map, the statistics
 * file is the `Store` value, and `random()` is a nondeterministic choice.
 */
module Game {
  import opened Wrappers
  import opened Kotlin
  import opened Categories
  import opened GameStats
  import Players
  import Ranking
  import Lists
  import WordScreen

  /** The round's state as the screens see it. */
  datatype GameState = GameState(
    points: Int32,
    currentWord: string,
    usedWords: set<string>,
    timeLeft: Int32,
    isGameActive: bool,
    isCountdownVisible: bool,
    countdownValue: Int32,
    vibrationEnabled: bool,
    soundEnabled: bool)

  /** `GameState()` with every default: a minute on the clock, nothing played, feedback on. */
  const DefaultGameState: GameState := GameState(0, "", {}, 60, false, false, 3, true, true)

  /**
   * The state `prepareNewGame` builds: a fresh, inactive round timed by the
   * setting (0 meaning unlimited, shown as `Int.MAX_VALUE` seconds); only the
   * vibration and sound switches carry over. Both branches of the source
   * build this same state.
   */
  function PreparedState(s: GameState, timerSetting: Int32): (r: GameState)
    ensures r.points == 0 && r.currentWord == "" && r.usedWords == {}
    ensures !r.isGameActive && !r.isCountdownVisible && r.countdownValue == 3
    ensures r.timeLeft == if timerSetting == 0 then MAX_INT else timerSetting
    ensures r.vibrationEnabled == s.vibrationEnabled && r.soundEnabled == s.soundEnabled
  {
    DefaultGameState.(
      timeLeft := if timerSetting == 0 then MAX_INT else timerSetting,
      vibrationEnabled := s.vibrationEnabled,
      soundEnabled := s.soundEnabled)
  }

  /** The state `resetGame` builds: the defaults, keeping the vibration and sound switches. */
  function ResetState(s: GameState): (r: GameState)
    ensures r.points == 0 && r.usedWords == {} && !r.isGameActive && r.timeLeft == 60
    ensures r.vibrationEnabled == s.vibrationEnabled && r.soundEnabled == s.soundEnabled
  {
    DefaultGameState.(vibrationEnabled := s.vibrationEnabled, soundEnabled := s.soundEnabled)
  }

  /** Resetting is preparing a round with the default one-minute timer. */
  lemma ResetIsPreparedForAMinute(s: GameState)
    ensures ResetState(s) == PreparedState(s, 60)
  {
  }

  /** Preparing depends only on the switches, so preparing twice is preparing once. */
  lemma PrepareIdempotent(s: GameState, timerSetting: Int32)
    ensures PreparedState(PreparedState(s, timerSetting), timerSetting) == PreparedState(s, timerSetting)
  {
  }

  /** `allWords.filterNot { it in usedWords || it in seenWords }`, in pool order. */
  function Available(pool: seq<string>, used: set<string>, seen: set<string>): (r: seq<string>)
    ensures |r| <= |pool|
  {
    if pool == [] then []
    else (if pool[0] in used || pool[0] in seen then [] else [pool[0]]) + Available(pool[1..], used, seen)
  }

  /** A word is available exactly when it is in the pool, not used this round and not seen. */
  lemma {:induction false} AvailableMembers(pool: seq<string>, used: set<string>, seen: set<string>, w: string)
    ensures w in Available(pool, used, seen) <==> w in pool && w !in used && w !in seen
  {
    if pool != [] {
      AvailableMembers(pool[1..], used, seen, w);
      assert pool == [pool[0]] + pool[1..];
    }
  }

  /** Drawing a word takes exactly that word, every copy of it, out of the words still available. */
  lemma {:induction false} DrawShrinksAvailable(pool: seq<string>, used: set<string>, seen: set<string>, w: string)
    ensures Available(pool, used + {w}, seen) == Lists.RemoveAll(Available(pool, used, seen), w)
  {
    if pool != [] {
      DrawShrinksAvailable(pool[1..], used, seen, w);
      var rest := Available(pool[1..], used, seen);
      if pool[0] in used || pool[0] in seen {
        assert Available(pool, used, seen) == rest;
      } else {
        assert Available(pool, used, seen) == [pool[0]] + rest;
        Lists.RemoveAllAppend([pool[0]], rest, w);
      }
    }
  }

  /**
   * What `getNextWord` does to the state: a word that is neither used this
   * round nor seen in saved games when one exists, and it joins the used
   * words; otherwise the used words start over with a word of the pool, or
   * "ERROR" for an empty pool. Nothing else changes.
   */
  ghost predicate WordDrawn(before: GameState, after: GameState, pool: seq<string>, seen: set<string>) {
    var available := Available(pool, before.usedWords, seen);
    && after == before.(currentWord := after.currentWord, usedWords := after.usedWords)
    && (available != [] ==> after.currentWord in available && after.usedWords == before.usedWords + {after.currentWord})
    && (available == [] ==> after.usedWords == {after.currentWord})
    && (available == [] && pool == [] ==> after.currentWord == "ERROR")
    && (available == [] && pool != [] ==> after.currentWord in pool)
  }

  /**
   * The body of `getNextWord` on the round state: a random word among the
   * available ones; when none is left, the used words start over and the word
   * comes from the whole pool, or is "ERROR" for an empty pool.
   */
  method DrawNextWord(before: GameState, allWords: seq<string>, seenWords: set<string>) returns (after: GameState)
    ensures WordDrawn(before, after, allWords, seenWords)
  {
    var availableWords := Available(allWords, before.usedWords, seenWords);
    var state := before;
    var nextWord: string;
    if availableWords != [] {
      assert availableWords[0] in availableWords;
      nextWord :| nextWord in availableWords;
    } else {
      state := state.(usedWords := {});
      if allWords == [] {
        nextWord := "ERROR";
      } else {
        assert allWords[0] in allWords;
        nextWord :| nextWord in allWords;
      }
    }
    after := state.(currentWord := nextWord, usedWords := state.usedWords + {nextWord});
  }

  /** The statistics file: every saved game, and every word shown in a saved game. */
  datatype Store = Store(games: seq<GameResult>, seenWords: set<string>)

  /** `StatsRepository.saveGameResult`: the result is appended and the round's words join the seen words. */
  function Saved(store: Store, result: GameResult, usedWords: set<string>): Store {
    Store(store.games + [result], store.seenWords + usedWords)
  }

  /** Saving appends the result after the earlier games and adds the round's words to the seen ones. */
  lemma SavedAppends(store: Store, result: GameResult, usedWords: set<string>)
    ensures var r := Saved(store, result, usedWords);
      && |r.games| == |store.games| + 1 && r.games[..|store.games|] == store.games
      && r.games[|store.games|] == result
      && forall w :: w in r.seenWords <==> w in store.seenWords || w in usedWords
  {
    var r := Saved(store, result, usedWords);
    assert r.games[..|store.games|] == store.games;
  }

  /**
   * The result `saveGameResult` builds: single-player games record the
   * points, multi-player games every player's score; both record the
   * category's name (None for all categories) and the timer setting.
   * `now` stands for the two clock readings the result's defaults take.
   */
  function ResultOf(mode: Players.GameMode, state: GameState, category: Option<Category>, timerSetting: Int32, now: Clock): GameResult {
    var name := if category.Some? then Some(category.value.displayName) else None;
    var tally := if mode.isSinglePlayer then Score(state.points) else Standings(mode.players);
    GameResult(IntToString(now.idMillis), now.timestampMillis, name, timerSetting, tally)
  }

  /** What the saved result shows: the clock, the category, the timer, and the points or the players. */
  lemma ResultOfFacts(mode: Players.GameMode, state: GameState, category: Option<Category>, timerSetting: Int32, now: Clock)
    ensures var r := ResultOf(mode, state, category, timerSetting, now);
      && r.id == IntToString(now.idMillis) && r.timestamp == now.timestampMillis
      && CategoryDisplay(r) == (if category.Some? then category.value.displayName else "Visi")
      && (TimerDisplay(r) == "∞" <==> timerSetting == 0)
      && (mode.isSinglePlayer ==> r.Points() == state.points)
      && (!mode.isSinglePlayer ==> r.tally == Standings(mode.players))
  {
  }

  /** Saving a result adds exactly one game to the statistics screen's count. */
  lemma SaveCountsOneGame(store: Store, result: GameResult, usedWords: set<string>)
    ensures TotalGames(GameStatistics(Saved(store, result, usedWords).games)) == TotalGames(GameStatistics(store.games)) + 1
  {
  }

  /** A game mode the view-model can be in: a multi-player game always has someone's turn. */
  predicate ModeValid(m: Players.GameMode) {
    && |m.players| <= MAX_INT
    && (m.isSinglePlayer ==> m.players == [] && m.currentPlayerIndex == 0)
    && (!m.isSinglePlayer ==> 0 <= m.currentPlayerIndex < |m.players|)
  }

  /** No two players share an id, so a score update reaches exactly one player. */
  predicate DistinctIds(m: Players.GameMode) {
    forall i, j :: 0 <= i < j < |m.players| ==> m.players[i].id != m.players[j].id
  }

  /**
   * `setMultiplayerMode(playerNames)`: player `i` gets the id `i.toString()`,
   * the name given and a score of 0, and the first player starts.
   */
  function MultiplayerMode(playerNames: seq<string>): (r: Players.GameMode)
    requires 0 < |playerNames| <= MAX_INT
    ensures ModeValid(r) && DistinctIds(r)
    ensures !r.isSinglePlayer && r.currentPlayerIndex == 0 && |r.players| == |playerNames|
    ensures forall i :: 0 <= i < |playerNames| ==> r.players[i].name == playerNames[i] && r.players[i].score == 0
  {
    var players := seq(|playerNames|, i requires 0 <= i < |playerNames| => Players.Player(IntToString(i), playerNames[i], 0));
    var r := Players.GameMode(false, players, 0);
    forall i, j | 0 <= i < j < |players|
      ensures players[i].id != players[j].id
    {
      if players[i].id == players[j].id {
        IntToStringInjective(i, j);
      }
    }
    r
  }

  /** `resetMultiplayerGame`'s new mode: every score back to 0 and the first player's turn. */
  function ResetScores(m: Players.GameMode): (r: Players.GameMode)
    ensures r.isSinglePlayer == m.isSinglePlayer && r.currentPlayerIndex == 0 && |r.players| == |m.players|
    ensures forall i :: 0 <= i < |m.players| ==> r.players[i] == m.players[i].(score := 0)
    ensures ModeValid(m) ==> ModeValid(r)
  {
    m.(players := seq(|m.players|, i requires 0 <= i < |m.players| => m.players[i].(score := 0)), currentPlayerIndex := 0)
  }

  lemma {:induction false} WithSameKey<T>(xs: seq<T>, key: T -> int, k: int)
    requires forall i :: 0 <= i < |xs| ==> key(xs[i]) == k
    ensures Ranking.WithKey(xs, key, k) == xs
  {
    if xs != [] {
      WithSameKey(xs[1..], key, k);
    }
  }

  /** After a reset every score is 0, so the standings list the players in the order they joined. */
  lemma StandingsAfterReset(m: Players.GameMode)
    ensures Players.SortedPlayers(ResetScores(m)) == ResetScores(m).players
  {
    var r := ResetScores(m);
    var sorted := Players.SortedPlayers(r);
    Players.Standings(r);
    WithSameKey(r.players, Players.Score, 0);
    assert forall i :: 0 <= i < |sorted| ==> sorted[i] in multiset(r.players);
    WithSameKey(sorted, Players.Score, 0);
  }

  /** The score of the turn is committed to the player whose turn it is, if there is one. */
  function CommitTurn(m: Players.GameMode, points: Int32): (r: Players.GameMode)
    ensures r.isSinglePlayer == m.isSinglePlayer && r.currentPlayerIndex == m.currentPlayerIndex
    ensures |r.players| == |m.players|
    ensures DistinctIds(m) ==> DistinctIds(r)
    ensures Players.CurrentPlayer(m).None? ==> r == m
    ensures DistinctIds(m) && Players.CurrentPlayer(m).Some? ==>
      forall i :: 0 <= i < |m.players| ==>
        r.players[i] == if i == m.currentPlayerIndex then m.players[i].(score := points) else m.players[i]
  {
    match Players.CurrentPlayer(m)
    case None => m
    case Some(p) => Players.UpdatePlayerScore(m, p.id, points)
  }

  /** The three ways a turn ends, one per event the screens listen for. */
  datatype TurnEnd = SinglePlayerEnd | MultiplayerEnd | NextPlayer

  /**
   * How `endTurn` ends a turn, and the game mode it leaves: a single-player
   * game simply ends; in a multi-player game the score is committed, and the
   * game ends after the last player's turn, else the next player is up.
   */
  function EndOfTurn(m: Players.GameMode, points: Int32): (r: (TurnEnd, Players.GameMode))
    requires ModeValid(m)
    ensures ModeValid(r.1)
    ensures r.0 == SinglePlayerEnd <==> m.isSinglePlayer
    ensures m.isSinglePlayer ==> r.1 == m
    ensures r.0 == MultiplayerEnd <==> !m.isSinglePlayer && m.currentPlayerIndex == |m.players| - 1
    ensures r.0 == MultiplayerEnd ==> r.1 == CommitTurn(m, points)
    ensures r.0 == NextPlayer ==> r.1 == CommitTurn(m, points).(currentPlayerIndex := m.currentPlayerIndex + 1)
  {
    if m.isSinglePlayer then (SinglePlayerEnd, m)
    else
      var committed := CommitTurn(m, points);
      var next := Players.NextPlayerIndex(committed);
      if next == 0 then (MultiplayerEnd, committed)
      else (NextPlayer, committed.(currentPlayerIndex := next))
  }

  /**
   * The turns of one multi-player game, one score per turn, until the game
   * ends or the scores run out.
   */
  function PlayTurns(m: Players.GameMode, scores: seq<Int32>): (r: (bool, Players.GameMode))
    requires ModeValid(m)
    ensures ModeValid(r.1)
    decreases |scores|
  {
    if scores == [] then (false, m)
    else
      var (outcome, next) := EndOfTurn(m, scores[0]);
      if outcome == NextPlayer then PlayTurns(next, scores[1..]) else (true, next)
  }

  /**
   * A multi-player game of n players started by `setMultiplayerMode` ends
   * exactly on the n-th turn, and then player i holds the score of turn i.
   */
  lemma RoundOfTurns(playerNames: seq<string>, scores: seq<Int32>)
    requires 0 < |playerNames| <= MAX_INT
    ensures var (ended, m) := PlayTurns(MultiplayerMode(playerNames), scores);
      && |m.players| == |playerNames|
      && (ended <==> |scores| >= |playerNames|)
      && (ended ==> forall i :: 0 <= i < |playerNames| ==> m.players[i].name == playerNames[i] && m.players[i].score == scores[i])
  {
    var m := MultiplayerMode(playerNames);
    TurnsFrom(m, 0, scores);
  }

  /**
   * One turn of a multi-player game: the current player's score becomes the
   * turn's score, nobody else changes, and the turn passes on exactly when a
   * later player is left.
   */
  lemma OneTurn(m: Players.GameMode, points: Int32)
    requires ModeValid(m) && DistinctIds(m) && !m.isSinglePlayer
    ensures var (outcome, next) := EndOfTurn(m, points);
      && outcome != SinglePlayerEnd
      && (outcome == NextPlayer <==> m.currentPlayerIndex + 1 < |m.players|)
      && |next.players| == |m.players| && !next.isSinglePlayer
      && (forall i :: 0 <= i < |m.players| ==>
            next.players[i] == if i == m.currentPlayerIndex then m.players[i].(score := points) else m.players[i])
      && (outcome == NextPlayer ==> next.currentPlayerIndex == m.currentPlayerIndex + 1 && DistinctIds(next))
  {
    var committed := CommitTurn(m, points);
    assert forall i :: 0 <= i < |m.players| ==>
      committed.players[i] == if i == m.currentPlayerIndex then m.players[i].(score := points) else m.players[i];
  }

  lemma {:induction false} TurnsFrom(m: Players.GameMode, k: nat, scores: seq<Int32>)
    requires ModeValid(m) && DistinctIds(m) && !m.isSinglePlayer && m.currentPlayerIndex == k
    ensures var (ended, r) := PlayTurns(m, scores);
      && (ended <==> |scores| >= |m.players| - k)
      && |r.players| == |m.players|
      && (forall i :: 0 <= i < |m.players| ==> r.players[i].name == m.players[i].name)
      && (forall i :: 0 <= i < k ==> r.players[i].score == m.players[i].score)
      && (ended ==> forall i :: k <= i < |m.players| ==> r.players[i].score == scores[i - k])
    decreases |scores|
  {
    if scores != [] {
      var (outcome, next) := EndOfTurn(m, scores[0]);
      OneTurn(m, scores[0]);
      if outcome == NextPlayer {
        TurnsFrom(next, k + 1, scores[1..]);
      }
    }
  }

  /** The timer coroutine: never started (or dropped by a pause), counting down from `time`, or cancelled or done. */
  datatype TimerJob = NoJob | Running(time: Int32) | Stopped

  /** Where a countdown coroutine waits: before showing 2, before showing 1, before revealing the word. */
  datatype CountdownStage = ShowTwo | ShowOne | Reveal

  /** `timerJob?.cancel()`: a running job stops, but the reference stays. */
  function Cancelled(job: TimerJob): (r: TimerJob)
    ensures !r.Running?
    ensures r.NoJob? <==> job.NoJob?
  {
    if job.Running? then Stopped else job
  }

  class GameViewModel {
    /** The word repository's assets. */
    const assets: Assets
    var gameState: GameState
    var gameMode: Players.GameMode
    var timerSetting: Int32
    var selectedCategory: Option<Category>
    var customCategories: seq<CustomCategory>
    var dontRepeatWords: bool
    var timerJob: TimerJob
    /** The countdown coroutines still waiting on a delay. */
    var countdowns: seq<CountdownStage>
    /** The statistics repository's file. */
    var store: Store
    /** The three one-shot events the screens consume. */
    var gameEnded: bool
    var multiplayerGameEnded: bool
    var goToNextPlayer: bool

    ghost predicate Valid()
      reads this
    {
      && (timerJob.Running? ==> timerJob.time > 0)
      && ModeValid(gameMode)
    }

    /** The settings the player chose; a round leaves them alone. */
    twostate predicate SettingsKept()
      reads this
    {
      && timerSetting == old(timerSetting)
      && selectedCategory == old(selectedCategory)
      && customCategories == old(customCategories)
      && dontRepeatWords == old(dontRepeatWords)
    }

    twostate predicate EventsKept()
      reads this
    {
      gameEnded == old(gameEnded) && multiplayerGameEnded == old(multiplayerGameEnded) && goToNextPlayer == old(goToNextPlayer)
    }

    /** The seen words that `getNextWord` avoids: only when words must not repeat. */
    function SeenFilter(): set<string>
      reads this
    {
      if dontRepeatWords then store.seenWords else {}
    }

    /**
     * The state `endTurn` leaves, from the game mode, round state, store and
     * events it started with.
     */
    ghost predicate TurnEnded(mode0: Players.GameMode, state: GameState, store0: Store,
                              ended0: bool, multiplayerEnded0: bool, nextPlayer0: bool, now: Clock)
      requires ModeValid(mode0)
      reads this
    {
      var (outcome, mode) := EndOfTurn(mode0, state.points);
      TurnEndedAs(outcome, mode, state, store0, ended0, multiplayerEnded0, nextPlayer0, now)
    }

    /** The state after a turn that ended with `outcome`, leaving the game mode `mode`. */
    ghost predicate TurnEndedAs(outcome: TurnEnd, mode: Players.GameMode, state: GameState, store0: Store,
                                ended0: bool, multiplayerEnded0: bool, nextPlayer0: bool, now: Clock)
      reads this
    {
      && gameMode == mode
      && (outcome == NextPlayer ==> store == store0)
      && (outcome != NextPlayer ==> store == Saved(store0, ResultOf(mode, state, selectedCategory, timerSetting, now), state.usedWords))
      && gameEnded == (ended0 || outcome == SinglePlayerEnd)
      && multiplayerGameEnded == (multiplayerEnded0 || outcome == MultiplayerEnd)
      && goToNextPlayer == (nextPlayer0 || outcome == NextPlayer)
    }

    /** A new view-model: the defaults, the saved custom categories, and the statistics file as it is. */
    constructor (assets: Assets, savedCategories: seq<CustomCategory>, store: Store)
      ensures Valid()
      ensures this.assets == assets && customCategories == savedCategories && this.store == store
      ensures gameState == DefaultGameState && gameMode == Players.DefaultGameMode()
      ensures timerSetting == 60 && selectedCategory == None && !dontRepeatWords
      ensures timerJob == NoJob && countdowns == []
      ensures !gameEnded && !multiplayerGameEnded && !goToNextPlayer
    {
      this.assets := assets;
      gameState := DefaultGameState;
      gameMode := Players.DefaultGameMode();
      timerSetting := 60;
      selectedCategory := None;
      customCategories := savedCategories;
      dontRepeatWords := false;
      timerJob := NoJob;
      countdowns := [];
      this.store := store;
      gameEnded := false;
      multiplayerGameEnded := false;
      goToNextPlayer := false;
    }

    method ConsumeGameEndEvent()
      modifies this
      ensures !gameEnded
      ensures gameState == old(gameState) && gameMode == old(gameMode) && SettingsKept()
      ensures timerJob == old(timerJob) && countdowns == old(countdowns) && store == old(store)
      ensures multiplayerGameEnded == old(multiplayerGameEnded) && goToNextPlayer == old(goToNextPlayer)
    {
      gameEnded := false;
    }

    method ConsumeMultiplayerGameEndEvent()
      modifies this
      ensures !multiplayerGameEnded
      ensures gameState == old(gameState) && gameMode == old(gameMode) && SettingsKept()
      ensures timerJob == old(timerJob) && countdowns == old(countdowns) && store == old(store)
      ensures gameEnded == old(gameEnded) && goToNextPlayer == old(goToNextPlayer)
    {
      multiplayerGameEnded := false;
    }

    method ConsumeNextPlayerEvent()
      modifies this
      ensures !goToNextPlayer
      ensures gameState == old(gameState) && gameMode == old(gameMode) && SettingsKept()
      ensures timerJob == old(timerJob) && countdowns == old(countdowns) && store == old(store)
      ensures gameEnded == old(gameEnded) && multiplayerGameEnded == old(multiplayerGameEnded)
    {
      goToNextPlayer := false;
    }

    method SetVibrationEnabled(enabled: bool)
      modifies this
      ensures gameState == old(gameState).(vibrationEnabled := enabled)
      ensures gameMode == old(gameMode) && SettingsKept() && EventsKept()
      ensures timerJob == old(timerJob) && countdowns == old(countdowns) && store == old(store)
    {
      gameState := gameState.(vibrationEnabled := enabled);
    }

    method SetSoundEnabled(enabled: bool)
      modifies this
      ensures gameState == old(gameState).(soundEnabled := enabled)
      ensures gameMode == old(gameMode) && SettingsKept() && EventsKept()
      ensures timerJob == old(timerJob) && countdowns == old(countdowns) && store == old(store)
    {
      gameState := gameState.(soundEnabled := enabled);
    }

    /** `addCustomCategory`: the new category goes last (and the list is saved). */
    method AddCustomCategory(category: CustomCategory)
      modifies this
      ensures customCategories == old(customCategories) + [category]
      ensures selectedCategory == old(selectedCategory) && timerSetting == old(timerSetting) && dontRepeatWords == old(dontRepeatWords)
      ensures gameState == old(gameState) && gameMode == old(gameMode) && EventsKept()
      ensures timerJob == old(timerJob) && countdowns == old(countdowns) && store == old(store)
    {
      customCategories := customCategories + [category];
    }

    /** `updateCustomCategory`: every copy of `old` becomes `updated`, and a selection of `old` follows it. */
    method UpdateCustomCategory(previous: CustomCategory, updated: CustomCategory)
      modifies this
      ensures customCategories == Lists.ReplaceAll(old(customCategories), previous, updated)
      ensures selectedCategory == if old(selectedCategory) == Some(previous) then Some(updated) else old(selectedCategory)
      ensures timerSetting == old(timerSetting) && dontRepeatWords == old(dontRepeatWords)
      ensures gameState == old(gameState) && gameMode == old(gameMode) && EventsKept()
      ensures timerJob == old(timerJob) && countdowns == old(countdowns) && store == old(store)
    {
      customCategories := Lists.ReplaceAll(customCategories, previous, updated);
      if selectedCategory == Some(previous) {
        selectedCategory := Some(updated);
      }
    }

    /** `deleteCustomCategory`: every copy goes, and a selection of it falls back to all categories. */
    method DeleteCustomCategory(category: CustomCategory)
      modifies this
      ensures customCategories == Lists.RemoveAll(old(customCategories), category)
      ensures selectedCategory == if old(selectedCategory) == Some(category) then None else old(selectedCategory)
      ensures timerSetting == old(timerSetting) && dontRepeatWords == old(dontRepeatWords)
      ensures gameState == old(gameState) && gameMode == old(gameMode) && EventsKept()
      ensures timerJob == old(timerJob) && countdowns == old(countdowns) && store == old(store)
    {
      customCategories := Lists.RemoveAll(customCategories, category);
      if selectedCategory == Some(category) {
        selectedCategory := None;
      }
    }

    method SetTimer(seconds: Int32)
      modifies this
      ensures timerSetting == seconds
      ensures selectedCategory == old(selectedCategory) && customCategories == old(customCategories) && dontRepeatWords == old(dontRepeatWords)
      ensures gameState == old(gameState) && gameMode == old(gameMode) && EventsKept()
      ensures timerJob == old(timerJob) && countdowns == old(countdowns) && store == old(store)
    {
      timerSetting := seconds;
    }

    method SetCategory(category: Option<Category>)
      modifies this
      ensures selectedCategory == category
      ensures timerSetting == old(timerSetting) && customCategories == old(customCategories) && dontRepeatWords == old(dontRepeatWords)
      ensures gameState == old(gameState) && gameMode == old(gameMode) && EventsKept()
      ensures timerJob == old(timerJob) && countdowns == old(countdowns) && store == old(store)
    {
      selectedCategory := category;
    }

    /** Turning "don't repeat words" off also forgets the seen words. */
    method OnDontRepeatWordsChanged(enabled: bool)
      modifies this
      ensures dontRepeatWords == enabled
      ensures store.games == old(store.games)
      ensures store.seenWords == if enabled then old(store.seenWords) else {}
      ensures timerSetting == old(timerSetting) && customCategories == old(customCategories) && selectedCategory == old(selectedCategory)
      ensures gameState == old(gameState) && gameMode == old(gameMode) && EventsKept()
      ensures timerJob == old(timerJob) && countdowns == old(countdowns)
    {
      dontRepeatWords := enabled;
      if !enabled {
        store := store.(seenWords := {});
      }
    }

    /** `prepareNewGame`: stop the timer and start from a fresh round. */
    method PrepareNewGame()
      requires Valid()
      modifies this
      ensures Valid()
      ensures gameState == PreparedState(old(gameState), timerSetting)
      ensures timerJob == Cancelled(old(timerJob))
      ensures gameMode == old(gameMode) && SettingsKept() && EventsKept()
      ensures countdowns == old(countdowns) && store == old(store)
    {
      timerJob := Cancelled(timerJob);
      gameState := PreparedState(gameState, timerSetting);
    }

    /** `moveToNextPlayer`: commit the turn's points and hand over, wrapping to the first player. */
    method MoveToNextPlayer()
      requires Valid() && |gameMode.players| > 0
      modifies this
      ensures Valid()
      ensures var committed := CommitTurn(old(gameMode), old(gameState.points));
        gameMode == committed.(currentPlayerIndex := Players.NextPlayerIndex(committed))
      ensures gameMode.currentPlayerIndex == (old(gameMode.currentPlayerIndex) + 1) % |gameMode.players|
      ensures gameState == old(gameState) && SettingsKept() && EventsKept()
      ensures timerJob == old(timerJob) && countdowns == old(countdowns) && store == old(store)
    {
      var committed := CommitTurn(gameMode, gameState.points);
      gameMode := committed.(currentPlayerIndex := Players.NextPlayerIndex(committed));
    }

    /** `setMultiplayerMode`. */
    method SetMultiplayerMode(playerNames: seq<string>)
      requires 0 < |playerNames| <= MAX_INT
      requires Valid()
      modifies this
      ensures Valid()
      ensures gameMode == MultiplayerMode(playerNames)
      ensures gameState == old(gameState) && SettingsKept() && EventsKept()
      ensures timerJob == old(timerJob) && countdowns == old(countdowns) && store == old(store)
    {
      gameMode := MultiplayerMode(playerNames);
    }

    /** `setGameModeToSinglePlayer`. */
    method SetGameModeToSinglePlayer()
      requires Valid()
      modifies this
      ensures Valid()
      ensures gameMode == Players.DefaultGameMode()
      ensures gameState == old(gameState) && SettingsKept() && EventsKept()
      ensures timerJob == old(timerJob) && countdowns == old(countdowns) && store == old(store)
    {
      gameMode := Players.DefaultGameMode();
    }

    /** `resetMultiplayerGame`: the same players with no points, the first one up, and a fresh round. */
    method ResetMultiplayerGame()
      requires Valid()
      modifies this
      ensures Valid()
      ensures gameMode == ResetScores(old(gameMode))
      ensures gameState == PreparedState(old(gameState), timerSetting)
      ensures timerJob == Cancelled(old(timerJob))
      ensures SettingsKept() && EventsKept() && countdowns == old(countdowns) && store == old(store)
    {
      gameMode := ResetScores(gameMode);
      PrepareNewGame();
    }

    /**
     * `startGame`: nothing while a round is active; otherwise the round
     * becomes active and a countdown coroutine shows 3 and waits.
     */
    method StartGame()
      requires Valid()
      modifies this
      ensures Valid()
      ensures old(gameState.isGameActive) ==> gameState == old(gameState) && countdowns == old(countdowns)
      ensures !old(gameState.isGameActive) ==>
        && gameState == old(gameState).(isGameActive := true, isCountdownVisible := true, countdownValue := 3)
        && countdowns == old(countdowns) + [ShowTwo]
      ensures gameMode == old(gameMode) && SettingsKept() && EventsKept()
      ensures timerJob == old(timerJob) && store == old(store)
    {
      if gameState.isGameActive {
        return;
      }
      gameState := gameState.(isGameActive := true);
      gameState := gameState.(isCountdownVisible := true, countdownValue := 3);
      countdowns := countdowns + [ShowTwo];
    }

    /**
     * Countdown coroutine `k` wakes up from a delay: it shows 2, then 1, then
     * hides the countdown, draws a word and, for a limited timer, starts it.
     */
    method CountdownStep(k: nat, now: Clock)
      requires Valid() && k < |countdowns|
      modifies this
      ensures Valid()
      ensures old(countdowns[k]) == ShowTwo ==>
        && gameState == old(gameState).(countdownValue := 2) && countdowns == old(countdowns)[k := ShowOne]
        && gameMode == old(gameMode) && timerJob == old(timerJob) && store == old(store) && EventsKept()
      ensures old(countdowns[k]) == ShowOne ==>
        && gameState == old(gameState).(countdownValue := 1) && countdowns == old(countdowns)[k := Reveal]
        && gameMode == old(gameMode) && timerJob == old(timerJob) && store == old(store) && EventsKept()
      ensures old(countdowns[k]) == Reveal ==>
        countdowns == old(countdowns[..k]) + old(countdowns[k + 1..]) && CountdownFinished(now)
      ensures SettingsKept()
    {
      match countdowns[k]
      case ShowTwo =>
        gameState := gameState.(countdownValue := 2);
        countdowns := countdowns[k := ShowOne];
      case ShowOne =>
        gameState := gameState.(countdownValue := 1);
        countdowns := countdowns[k := Reveal];
      case Reveal =>
        countdowns := countdowns[..k] + countdowns[k + 1..];
        FinishCountdown(now);
    }

    /**
     * What the countdown coroutine does after its last delay: the countdown
     * is hidden, a word is drawn, and a limited timer starts, ending the
     * turn at once if no time is left.
     */
    twostate predicate CountdownFinished(now: Clock)
      reads this
    {
      && ModeValid(old(gameMode))
      && WordDrawn(old(gameState).(isCountdownVisible := false), gameState, Pool(assets, selectedCategory), old(SeenFilter()))
      && (timerSetting <= 0 ==>
            gameMode == old(gameMode) && timerJob == old(timerJob) && store == old(store) && EventsKept())
      && (timerSetting > 0 && gameState.timeLeft > 0 ==>
            gameMode == old(gameMode) && timerJob == Running(gameState.timeLeft) && store == old(store) && EventsKept())
      && (timerSetting > 0 && gameState.timeLeft <= 0 ==>
            timerJob == Stopped && TurnEnded(old(gameMode), gameState, old(store), old(gameEnded), old(multiplayerGameEnded), old(goToNextPlayer), now))
    }

    /** The rest of `startGame`'s coroutine, after the countdown's third second. */
    method FinishCountdown(now: Clock)
      requires Valid()
      modifies this
      ensures Valid()
      ensures CountdownFinished(now)
      ensures SettingsKept() && countdowns == old(countdowns)
    {
      gameState := gameState.(isCountdownVisible := false);
      ghost var hidden := gameState;
      GetNextWord();
      ghost var drawn := gameState;
      assert WordDrawn(hidden, drawn, Pool(assets, selectedCategory), old(SeenFilter()));
      if timerSetting > 0 {
        StartMainTimer(now);
      }
      assert gameState == drawn;
    }

    /**
     * `startMainTimer`: replace the timer job by one counting down from the
     * time left; with no time left the turn ends at once.
     */
    method StartMainTimer(now: Clock)
      requires Valid()
      modifies this
      ensures Valid()
      ensures gameState == old(gameState) && SettingsKept() && countdowns == old(countdowns)
      ensures gameState.timeLeft > 0 ==>
        timerJob == Running(gameState.timeLeft) && gameMode == old(gameMode) && store == old(store) && EventsKept()
      ensures gameState.timeLeft <= 0 ==>
        timerJob == Stopped && TurnEnded(old(gameMode), gameState, old(store), old(gameEnded), old(multiplayerGameEnded), old(goToNextPlayer), now)
    {
      timerJob := Cancelled(timerJob);
      var time := gameState.timeLeft;
      if time > 0 {
        timerJob := Running(time);
      } else {
        EndTurn(now);
        timerJob := Stopped;
      }
    }

    /**
     * The timer coroutine wakes up from its one-second delay: one second
     * less on the clock, and at zero the turn ends and the job completes.
     * A paused or cancelled job never ticks.
     */
    method Tick(now: Clock)
      requires Valid()
      modifies this
      ensures Valid()
      ensures !old(timerJob).Running? ==> unchanged(this)
      ensures old(timerJob).Running? ==> gameState == old(gameState).(timeLeft := old(timerJob).time - 1)
      ensures old(timerJob).Running? ==> gameState.timeLeft >= 0
      ensures old(timerJob).Running? && old(timerJob).time > 1 ==>
        timerJob == Running(old(timerJob).time - 1) && gameMode == old(gameMode) && store == old(store) && EventsKept()
      ensures old(timerJob).Running? && old(timerJob).time == 1 ==>
        timerJob == Stopped && TurnEnded(old(gameMode), old(gameState), old(store), old(gameEnded), old(multiplayerGameEnded), old(goToNextPlayer), now)
      ensures SettingsKept() && countdowns == old(countdowns)
    {
      if !timerJob.Running? {
        return;
      }
      var time := timerJob.time - 1;
      gameState := gameState.(timeLeft := time);
      if time > 0 {
        timerJob := Running(time);
      } else {
        EndTurn(now);
        timerJob := Stopped;
      }
    }

    /**
     * The timer coroutine's `while (time > 0)` loop run to the end with no
     * pause in between: it ticks exactly as many times as there were seconds
     * left, the clock reads 0, and the turn ends exactly once.
     */
    method RunTimerToEnd(now: Clock) returns (ticks: nat)
      requires Valid() && timerJob.Running?
      modifies this
      ensures Valid()
      ensures ticks == old(timerJob.time)
      ensures timerJob == Stopped && gameState == old(gameState).(timeLeft := 0)
      ensures TurnEnded(old(gameMode), old(gameState), old(store), old(gameEnded), old(multiplayerGameEnded), old(goToNextPlayer), now)
      ensures SettingsKept() && countdowns == old(countdowns)
    {
      ticks := 0;
      while timerJob.Running?
        invariant Valid() && SettingsKept() && countdowns == old(countdowns)
        invariant timerJob.Running? ==>
          && ticks + timerJob.time == old(timerJob.time)
          && gameState == old(gameState).(timeLeft := if ticks == 0 then old(gameState.timeLeft) else timerJob.time)
          && gameMode == old(gameMode) && store == old(store) && EventsKept()
        invariant !timerJob.Running? ==>
          && ticks == old(timerJob.time) && timerJob == Stopped && gameState == old(gameState).(timeLeft := 0)
          && TurnEnded(old(gameMode), old(gameState), old(store), old(gameEnded), old(multiplayerGameEnded), old(goToNextPlayer), now)
        decreases if timerJob.Running? then timerJob.time as int else -1
      {
        Tick(now);
        ticks := ticks + 1;
      }
    }

    /** `onTurnEnd`, after a correct or skipped word: the turn ends when time is up, else the next word comes. */
    method OnTurnEnd(now: Clock)
      requires Valid()
      modifies this
      ensures Valid()
      ensures gameState.points == old(gameState.points)
      ensures old(gameState.timeLeft) <= 0 ==>
        gameState == old(gameState) && TurnEnded(old(gameMode), old(gameState), old(store), old(gameEnded), old(multiplayerGameEnded), old(goToNextPlayer), now)
      ensures old(gameState.timeLeft) > 0 ==>
        && WordDrawn(old(gameState), gameState, Pool(assets, selectedCategory), SeenFilter())
        && gameMode == old(gameMode) && store == old(store) && EventsKept()
      ensures SettingsKept() && timerJob == old(timerJob) && countdowns == old(countdowns)
    {
      if gameState.timeLeft <= 0 {
        EndTurn(now);
      } else {
        GetNextWord();
      }
    }

    /** `endTurn`: end the game or hand over to the next player, saving the game when it ends. */
    method EndTurn(now: Clock)
      requires Valid()
      modifies this
      ensures Valid()
      ensures TurnEnded(old(gameMode), old(gameState), old(store), old(gameEnded), old(multiplayerGameEnded), old(goToNextPlayer), now)
      ensures gameState == old(gameState) && SettingsKept() && timerJob == old(timerJob) && countdowns == old(countdowns)
      // A game is counted once when it ends, not once per turn.
      ensures TotalGames(GameStatistics(store.games))
           == TotalGames(GameStatistics(old(store).games)) + if EndOfTurn(old(gameMode), old(gameState).points).0 == NextPlayer then 0 else 1
    {
      var (outcome, mode) := EndOfTurn(gameMode, gameState.points);
      ApplyTurnEnd(outcome, mode, now);
    }

    /** The effects of a turn end once `EndOfTurn` has decided it: the new mode, the save and the event. */
    method ApplyTurnEnd(outcome: TurnEnd, mode: Players.GameMode, now: Clock)
      requires Valid() && ModeValid(mode)
      modifies this
      ensures Valid()
      ensures TurnEndedAs(outcome, mode, old(gameState), old(store), old(gameEnded), old(multiplayerGameEnded), old(goToNextPlayer), now)
      ensures gameState == old(gameState) && SettingsKept() && timerJob == old(timerJob) && countdowns == old(countdowns)
    {
      gameMode := mode;
      match outcome
      case SinglePlayerEnd =>
        SaveGameResult(now);
        gameEnded := true;
      case MultiplayerEnd =>
        SaveGameResult(now);
        multiplayerGameEnded := true;
      case NextPlayer =>
        goToNextPlayer := true;
    }

    /**
     * The word screen's foreground effect: the request it makes is carried
     * out by `pauseTimer` or `resumeTimer`. Going to the background leaves
     * no job, so no tick follows; coming back restarts the timer exactly
     * under `resumeTimer`'s guards.
     */
    method OnForegroundChanged(inAppForeground: bool)
      requires Valid()
      modifies this
      ensures Valid()
      ensures !inAppForeground ==> timerJob == NoJob
      ensures var resumes := old(timerJob).NoJob? && gameState.isGameActive && !gameState.isCountdownVisible
                             && timerSetting != 0 && gameState.timeLeft > 0;
        && (inAppForeground && resumes ==> timerJob == Running(gameState.timeLeft))
        && (inAppForeground && !resumes ==> timerJob == old(timerJob))
        && (inAppForeground ==> (timerJob.Running? <==> old(timerJob).Running? || resumes))
      ensures gameState == old(gameState) && gameMode == old(gameMode) && SettingsKept() && EventsKept()
      ensures countdowns == old(countdowns) && store == old(store)
    {
      if WordScreen.ForegroundRequest(inAppForeground) == WordScreen.PauseTimer {
        PauseTimer();
      } else {
        ResumeTimer();
      }
    }

    /** `pauseTimer`: the job is cancelled and dropped, so no tick follows until a resume. */
    method PauseTimer()
      modifies this
      ensures timerJob == NoJob
      ensures gameState == old(gameState) && gameMode == old(gameMode) && SettingsKept() && EventsKept()
      ensures countdowns == old(countdowns) && store == old(store)
    {
      timerJob := NoJob;
    }

    /**
     * `resumeTimer`: restart the timer only when no job is held, a round is
     * on, the countdown is over, the timer is limited and time is left.
     */
    method ResumeTimer()
      requires Valid()
      modifies this
      ensures Valid()
      ensures var resumes := old(timerJob).NoJob? && gameState.isGameActive && !gameState.isCountdownVisible
                             && timerSetting != 0 && gameState.timeLeft > 0;
        && (resumes ==> timerJob == Running(gameState.timeLeft))
        && (!resumes ==> timerJob == old(timerJob))
      ensures gameState == old(gameState) && gameMode == old(gameMode) && SettingsKept() && EventsKept()
      ensures countdowns == old(countdowns) && store == old(store)
    {
      if !timerJob.NoJob? { return; }
      if !gameState.isGameActive { return; }
      if gameState.isCountdownVisible { return; }
      if timerSetting == 0 { return; }
      if gameState.timeLeft <= 0 { return; }
      // Time is left, so the new job cannot end the turn and needs no clock readings.
      StartMainTimer(Clock(0, 0));
    }

    /** `getNextWord`. */
    method GetNextWord()
      requires Valid()
      modifies this
      ensures Valid()
      ensures WordDrawn(old(gameState), gameState, Pool(assets, selectedCategory), SeenFilter())
      ensures gameMode == old(gameMode) && SettingsKept() && EventsKept()
      ensures timerJob == old(timerJob) && countdowns == old(countdowns) && store == old(store)
    {
      gameState := DrawNextWord(gameState, Pool(assets, selectedCategory), SeenFilter());
    }

    /** `markCorrect`: one more point (in `Int` arithmetic), nothing else. */
    method MarkCorrect()
      modifies this
      ensures gameState == old(gameState).(points := Add(old(gameState.points), 1))
      ensures old(gameState.points) < MAX_INT ==> gameState.points == old(gameState.points) + 1
      ensures gameMode == old(gameMode) && SettingsKept() && EventsKept()
      ensures timerJob == old(timerJob) && countdowns == old(countdowns) && store == old(store)
    {
      gameState := gameState.(points := Add(gameState.points, 1));
    }

    /** `saveGameResult`: the result of the game as it stands goes to the statistics file. */
    method SaveGameResult(now: Clock)
      modifies this
      ensures store == Saved(old(store), ResultOf(gameMode, gameState, selectedCategory, timerSetting, now), gameState.usedWords)
      ensures gameState == old(gameState) && gameMode == old(gameMode) && SettingsKept() && EventsKept()
      ensures timerJob == old(timerJob) && countdowns == old(countdowns)
    {
      store := Saved(store, ResultOf(gameMode, gameState, selectedCategory, timerSetting, now), gameState.usedWords);
    }

    /** `resetGame`: stop the timer and go back to the default state, keeping the switches. */
    method ResetGame()
      requires Valid()
      modifies this
      ensures Valid()
      ensures gameState == ResetState(old(gameState))
      ensures timerJob == Cancelled(old(timerJob))
      ensures gameMode == old(gameMode) && SettingsKept() && EventsKept()
      ensures countdowns == old(countdowns) && store == old(store)
    {
      timerJob := Cancelled(timerJob);
      gameState := ResetState(gameState);
    }
  }
}
