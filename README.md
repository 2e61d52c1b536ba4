# Charades: a verified model of the game logic

This project models the game logic of the Charades Android app in Dafny and proves what it promises. In the game, one player holds the phone to their forehead and tilts it forward for a guessed word or backward to skip it.

The model covers:

- the round controller `GameViewModel`: the countdown, word drawing, the one-second timer, and ending a turn in single- and multi-player games;
- the two variants of `GameMode`/`Player`: `com.example` replaces a player's score, `com.tlajja` adds to it;
- the statistics derived from saved games;
- the word-category repository;
- the word screen's tilt latch;
- the small state machines inside the settings, custom-category, player-list and team-list screens.

Kotlin semantics are written out where they matter. `Int` arithmetic wraps at 32 bits (`Kotlin.Add`), and `%` truncates toward zero (`Kotlin.Rem`). `trim`/`isBlank` use Kotlin's definition of whitespace. `sortedByDescending` is stable (`Ranking`).

Each module follows one source file:

| module | file |
|---|---|
| `Game` | `game/GameViewModel.kt` (class `GameViewModel`) |
| `Players` | `com.example` `data/Player.kt` |
| `TeamPlayers` | `com.tlajja` `data/Player.kt` |
| `GameStats` | `data/GameStats.kt` |
| `Categories` | `com.tlajja` `data/WordRepository.kt` |
| `WordScreen` | `ui/WordView.kt` (class `WordView`) |
| `GameSettings` | `ui/GameSettingsView.kt` |
| `CustomCategoryEditor` | `ui/CustomCategoryView.kt` (class `Editor`) |
| `SetPlayers` | `ui/SetPlayersView.kt` (class `PlayerList`) |
| `SetTeams` | `ui/SetTeamsView.kt` (class `TeamList`) |

Shared helpers live in `Kotlin`, `Ranking`, `Lists` and `Wrappers`.

How the view-model's coroutines are modelled:

- Coroutines become explicit steps. `CountdownStep` resumes one countdown coroutine after its delay, and `Tick` resumes the timer coroutine.
- `viewModelScope` dispatches immediately on the main thread, so a launched body runs up to its first `delay` inside the call that launches it.
- `random()` is a nondeterministic choice.
- The clock `System.currentTimeMillis()` is a parameter `now` holding two readings, because `GameResult`'s defaults read the clock twice, once for `id` and once for `timestamp`.
- The statistics file is a value `Store` held by the view-model.
- The word assets are a map from file name to decoded word list.

Where the sources come from different snapshots, the code that calls wins:

- The view-model uses `Category.Custom`, so the category type is the sealed class of the `com.tlajja` repository.
- The view-model builds a `GameResult` from either a score or the player list, so `GameResult` carries a `Tally` that is one or the other.

## Model

| member | source | states |
|---|---|---|
| Kotlin.Add | app/src/main/java/com/tlajja/charades/data/Player.kt:24 | `Int` addition: the result is an `Int` congruent to the exact sum modulo 2^32 |
| Kotlin.WrapAddAssociates | app/src/main/java/com/tlajja/charades/data/Player.kt:24 | adding step by step in `Int` wraps to the same value as adding exactly and wrapping once |
| Kotlin.AddAssociates | app/src/main/java/com/tlajja/charades/data/Player.kt:24 | `Int` addition is associative even when it wraps around |
| Kotlin.Rem | app/src/main/java/com/example/charades/data/Player.kt:22 | Kotlin's `%` for a positive divisor: with the quotient truncated toward zero, dividend = quotient × divisor + remainder; the remainder lies in [0, b) for a non-negative dividend and in (-b, 0] for a negative one |
| Kotlin.RingSuccessor | app/src/main/java/com/example/charades/data/Player.kt:22 | `(i + 1) % n` for an index from -1 up: in range, `i + 1` below `n`, and 0 after the last index |
| Kotlin.Trim | app/src/main/java/com/example/charades/ui/CustomCategoryView.kt:218 | a trimmed string neither starts nor ends with whitespace |
| Kotlin.TrimIsSlice | app/src/main/java/com/example/charades/ui/CustomCategoryView.kt:218 | `trim` keeps one contiguous slice of the input and drops only whitespace on both sides of it |
| Kotlin.BlankIffTrimEmpty | app/src/main/java/com/tlajja/charades/ui/SetTeamsView.kt:261-262 | a string is blank exactly when trimming it leaves nothing |
| Kotlin.TrimIdempotent | app/src/main/java/com/example/charades/ui/CustomCategoryView.kt:289 | trimming a trimmed string changes nothing |
| Kotlin.TrimmedIffUnchanged | app/src/main/java/com/example/charades/ui/CustomCategoryView.kt:218 | `trim` leaves a string unchanged exactly when it neither starts nor ends with whitespace |
| Kotlin.IntToString | app/src/main/java/com/example/charades/data/GameStats.kt:26 | `Int.toString`: a leading minus exactly for negatives, followed by the digits without leading zeros |
| Kotlin.IntToStringInjective | app/src/main/java/com/example/charades/game/GameViewModel.kt:153 | different numbers have different numerals, so the ids `index.toString()` differ |
| Ranking.SortedByDescending | app/src/main/java/com/example/charades/data/Player.kt:33 | the sorted list is a permutation of the input |
| Ranking.InsertPermutes | app/src/main/java/com/example/charades/data/Player.kt:33 | one insertion step of the sort adds exactly the inserted element and loses nothing |
| Ranking.SortedIsNonIncreasing | app/src/main/java/com/example/charades/data/Player.kt:33 | after `sortedByDescending` no element has a larger key than one before it |
| Ranking.SortedIsStable | app/src/main/java/com/example/charades/data/Player.kt:33 | for every key, the elements with that key keep their original relative order |
| Ranking.Take | app/src/main/java/com/example/charades/data/GameStats.kt:46 | `take(n)` is a prefix of length `min(n, size)` |
| Ranking.TakeOfOrdered | app/src/main/java/com/example/charades/data/GameStats.kt:46 | a prefix of a list ordered by descending keys is ordered, and contains only elements of the list |
| Ranking.TakeKeepsLargest | app/src/main/java/com/example/charades/data/GameStats.kt:46 | a prefix of a list ordered by descending keys holds the largest keys: nothing left out has a larger key than anything taken |
| Lists.RemoveAll | app/src/main/java/com/example/charades/game/GameViewModel.kt:104 | after `filterNot { it == x }` no copy of `x` is left, and the list is never longer |
| Lists.RemoveAllMembers | app/src/main/java/com/example/charades/game/GameViewModel.kt:104 | every element other than `x` is present after the removal exactly when it was before |
| Lists.RemoveAllAppend | app/src/main/java/com/example/charades/ui/CustomCategoryView.kt:261 | removal distributes over concatenation, so the survivors keep their relative order |
| Lists.RemoveAllCounts | app/src/main/java/com/example/charades/game/GameViewModel.kt:104 | removal drops exactly the copies of `x` and keeps every other element as often as before |
| Lists.RemoveAllAbsent | app/src/main/java/com/example/charades/game/GameViewModel.kt:104 | removing an element that is not in the list changes nothing |
| Lists.ReplaceAll | app/src/main/java/com/example/charades/game/GameViewModel.kt:98 | the map keeps the length and positions; no copy of the target survives unless it is its own replacement, and the other elements stay in place |
| Lists.ReplaceAllCounts | app/src/main/java/com/example/charades/game/GameViewModel.kt:98 | no copy of the target is left, each of its copies is now a replacement, and no other element changes in number |
| Players.DefaultGameMode | app/src/main/java/com/example/charades/data/Player.kt:12-16 | the default mode is single-player with no players and index 0, so nobody's turn |
| Players.CurrentPlayer | app/src/main/java/com/example/charades/data/Player.kt:17-19 | `getOrNull`: the player at the index exactly when the index is in range, null otherwise |
| Players.NextPlayerIndex | app/src/main/java/com/example/charades/data/Player.kt:21-23 | for a non-empty list: `(i + 1) mod n`, always a valid index, and 0 after the last player |
| Players.AdvanceTimes | app/src/main/java/com/example/charades/data/Player.kt:21-23 | handing over never changes the number of players |
| Players.RotationFromFirstPlayer | app/src/main/java/com/example/charades/data/Player.kt:21-23 | from player 0, the k-th hand-over gives player k for k < n, and player 0 again exactly on the n-th |
| Players.UpdatePlayerScore | app/src/main/java/com/example/charades/data/Player.kt:25-30 | length, ids, names, the mode flag and the index are kept; players with the id get the new score, all others keep theirs |
| Players.UpdateLastWins | app/src/main/java/com/example/charades/data/Player.kt:25-30 | replacing a score twice is replacing it once with the second value |
| Players.Standings | app/src/main/java/com/example/charades/data/Player.kt:32-34 | the sorted players are a permutation of the players, highest score first, equal scores in joining order |
| TeamPlayers.DefaultGameMode | app/src/main/java/com/tlajja/charades/data/Player.kt:12-18 | single-player, not team mode, no players, index 0, one round, the first, so nobody's turn |
| TeamPlayers.CurrentPlayer | app/src/main/java/com/tlajja/charades/data/Player.kt:20 | the player at the index exactly when it is in range, null otherwise |
| TeamPlayers.NextPlayerIndex | app/src/main/java/com/tlajja/charades/data/Player.kt:21 | for a non-empty list: `(i + 1) mod n`, always a valid index |
| TeamPlayers.UpdatePlayerScore | app/src/main/java/com/tlajja/charades/data/Player.kt:23-26 | players with the id gain the points in `Int` arithmetic; others, names, ids, team and round fields are unchanged |
| TeamPlayers.UpdatesCompose | app/src/main/java/com/tlajja/charades/data/Player.kt:23-26 | adding `a` and then `b` to a player equals adding `a + b` once |
| TeamPlayers.UpdatesCommute | app/src/main/java/com/tlajja/charades/data/Player.kt:23-26 | two score updates give the same mode in either order |
| TeamPlayers.Standings | app/src/main/java/com/tlajja/charades/data/Player.kt:28 | the sorted players are a permutation, highest score first, ties in joining order |
| GameStats.CategoryDisplay | app/src/main/java/com/example/charades/data/GameStats.kt:21-23 | the category's name, or "Visi" when there is none |
| GameStats.TimerDisplay | app/src/main/java/com/example/charades/data/GameStats.kt:25-27 | "∞" exactly when the timer is 0, otherwise the decimal seconds followed by "s" |
| GameStats.TimerDisplayInjective | app/src/main/java/com/example/charades/data/GameStats.kt:25-27 | two results with the same timer text have the same timer setting |
| GameStats.TotalGames | app/src/main/java/com/example/charades/data/GameStats.kt:34 | the number of saved games; `Game.SaveCountsOneGame` and `Game.GameViewModel.EndTurn` relate it to saving |
| GameStats.MaxPoints | app/src/main/java/com/example/charades/data/GameStats.kt:41 | `maxOfOrNull`: null exactly for no games, otherwise some game's points that no game exceeds |
| GameStats.HighScore | app/src/main/java/com/example/charades/data/GameStats.kt:41 | 0 for no games; otherwise the points of some game, at least those of every game |
| GameStats.SumOf | app/src/main/java/com/example/charades/data/GameStats.kt:43 | the left-to-right `Int` sum from an accumulator equals the exact sum wrapped once |
| GameStats.TotalPoints | app/src/main/java/com/example/charades/data/GameStats.kt:43 | the exact total of the points wrapped to `Int`, which is the exact total whenever that fits |
| GameStats.ExactSumAppend | app/src/main/java/com/example/charades/data/GameStats.kt:43 | one more saved game adds its points to the total |
| GameStats.RecentGames | app/src/main/java/com/example/charades/data/GameStats.kt:45-47 | `min(limit, games)` games, newest first, none listed more often than saved |
| GameStats.RecentGamesAreNewest | app/src/main/java/com/example/charades/data/GameStats.kt:45-47 | the listed games are the newest: no saved game left out is newer than any game listed |
| GameStats.RecentGamesAll | app/src/main/java/com/example/charades/data/GameStats.kt:45-47 | when the limit covers every game, the recent games are all games |
| Categories.PredefinedCategoriesDistinct | app/src/main/java/com/tlajja/charades/data/WordRepository.kt:21-34 | twelve bundled categories with pairwise different file names |
| Categories.LoadWordsFromCategory | app/src/main/java/com/tlajja/charades/data/WordRepository.kt:47-65 | a custom category's own words; a bundled one's decoded words, or none when the file is missing or undecodable |
| Categories.LoadAllMembers | app/src/main/java/com/tlajja/charades/data/WordRepository.kt:68 | a word is in the `flatMap` exactly when some listed category yields it |
| Categories.LoadAllAppend | app/src/main/java/com/tlajja/charades/data/WordRepository.kt:68 | loading two lists of categories one after the other gives the words of their concatenation |
| Categories.LoadAllInOrder | app/src/main/java/com/tlajja/charades/data/WordRepository.kt:67-69 | the words come out category by category, in the order of the list |
| Categories.GetRandomWord | app/src/main/java/com/tlajja/charades/data/WordRepository.kt:71-77 | null exactly when the relevant pool is empty, otherwise a word of that pool |
| WordScreen.Classify | app/src/main/java/com/example/charades/ui/WordView.kt:111-122 | y below -5 is correct, y above 5 a skip, and nothing in between |
| WordScreen.Trigger | app/src/main/java/com/example/charades/ui/WordView.kt:106-120 | no reading triggers anything while the countdown is visible; otherwise a reading triggers `onCorrect` exactly below -5 and `onSkip` exactly above 5 |
| WordScreen.FirstTrigger | app/src/main/java/com/example/charades/ui/WordView.kt:107-122 | the position of the first reading that crosses a threshold outside the countdown, or none when no reading does |
| WordScreen.OneCallbackPerWord | app/src/main/java/com/example/charades/ui/WordView.kt:105-122 | for any readings on one word, at most one callback fires, and it is the one the first crossing reading asks for |
| WordScreen.FirstTriggerOfExtension | app/src/main/java/com/example/charades/ui/WordView.kt:105-122 | one more reading keeps an earlier first crossing and otherwise is the first crossing if it crosses |
| WordScreen.ForegroundRequest | app/src/main/java/com/example/charades/ui/WordView.kt:58-64 | regaining the foreground asks for a resume, losing it for a pause; `Game.GameViewModel.OnForegroundChanged` carries the request out |
| WordScreen.TimeLeftText | app/src/main/java/com/example/charades/ui/WordView.kt:193 | "∞" exactly for `Int.MAX_VALUE`, otherwise the seconds in decimal |
| WordScreen.WordView.constructor | app/src/main/java/com/example/charades/ui/WordView.kt:105 | a new word screen starts with an open latch |
| WordScreen.WordView.ShowWord | app/src/main/java/com/example/charades/ui/WordView.kt:105 | a different word gets a fresh open latch; the same word keeps the latch |
| WordScreen.WordView.OnSample | app/src/main/java/com/example/charades/ui/WordView.kt:107-122 | a tripped latch ignores the reading; an open one fires what the reading triggers and trips; at most one callback per word |
| GameSettings.MinusClick | app/src/main/java/com/example/charades/ui/GameSettingsView.kt:147-154 | the new value is exactly 15 less (so 15 steps down to 0, the unlimited timer) and never negative; nothing happens exactly below 15 |
| GameSettings.PlusClick | app/src/main/java/com/example/charades/ui/GameSettingsView.kt:169-175 | 0 goes to 15 and any other value gains 15 |
| GameSettings.TimerText | app/src/main/java/com/example/charades/ui/GameSettingsView.kt:163 | "∞" exactly for 0, otherwise the decimal value |
| GameSettings.StepsStayOnGrid | app/src/main/java/com/example/charades/ui/GameSettingsView.kt:147-175 | both buttons keep a non-negative multiple of 15 on that grid |
| GameSettings.PlusUndoesMinus | app/src/main/java/com/example/charades/ui/GameSettingsView.kt:147-175 | plus undoes minus for every value of 15 or more |
| GameSettings.MinusEnabledIffChanges | app/src/main/java/com/example/charades/ui/GameSettingsView.kt:147-154 | `enabled = timerValue > 0`: a click that changes the value only happens on an enabled button, and on the stepper's grid the button is enabled exactly when its click changes the value |
| GameSettings.MinusUndoesPlus | app/src/main/java/com/example/charades/ui/GameSettingsView.kt:147-175 | minus undoes plus for every non-negative value |
| GameSettings.ButtonsFor | app/src/main/java/com/example/charades/ui/GameSettingsView.kt:207-224 | one button per category, in list order |
| GameSettings.SelectedCountOfCategories | app/src/main/java/com/example/charades/ui/GameSettingsView.kt:210 | as many category buttons are highlighted as the selected category is listed |
| GameSettings.NoCategoryButtonSelected | app/src/main/java/com/example/charades/ui/GameSettingsView.kt:210 | with no selection no category button is highlighted |
| GameSettings.HighlightedButtons | app/src/main/java/com/example/charades/ui/GameSettingsView.kt:203-218 | with no selection exactly "Visi" is highlighted; with a selection, one button per listing of that category |
| CustomCategoryEditor.AddedWords | app/src/main/java/com/example/charades/ui/CustomCategoryView.kt:218-222 | the trimmed input is appended when it is not empty and not yet listed; otherwise the list is unchanged |
| CustomCategoryEditor.DisabledAddChangesNothing | app/src/main/java/com/example/charades/ui/CustomCategoryView.kt:224 | when the add button is disabled, adding would not change the list |
| CustomCategoryEditor.AddKeepsWordsClean | app/src/main/java/com/example/charades/ui/CustomCategoryView.kt:206-210 | adding keeps every word trimmed, non-empty and listed once |
| CustomCategoryEditor.RemoveKeepsWordsClean | app/src/main/java/com/example/charades/ui/CustomCategoryView.kt:261 | removing keeps every word trimmed, non-empty and listed once |
| CustomCategoryEditor.EditsKeepWordsClean | app/src/main/java/com/example/charades/ui/CustomCategoryView.kt:206-261 | from a clean list, any sequence of adds and removes keeps it clean |
| CustomCategoryEditor.SaveEvent | app/src/main/java/com/example/charades/ui/CustomCategoryView.kt:288-300 | saving fires exactly when enabled: a new category, or the edited one replaced, under the trimmed name |
| CustomCategoryEditor.SavedNameIsTrimmed | app/src/main/java/com/example/charades/ui/CustomCategoryView.kt:289-291 | a saved category's name is non-empty, not blank and has no surrounding whitespace |
| CustomCategoryEditor.Editor.constructor | app/src/main/java/com/example/charades/ui/CustomCategoryView.kt:49-53 | the editor starts blank, for a new category, with no deletion pending |
| CustomCategoryEditor.Editor.StartEditing | app/src/main/java/com/example/charades/ui/CustomCategoryView.kt:58-63 | loads the category's name and words and empties the word field |
| CustomCategoryEditor.Editor.ClearEditor | app/src/main/java/com/example/charades/ui/CustomCategoryView.kt:65-71 | back to a blank editor for a new category, which hides the clear button |
| CustomCategoryEditor.Editor.SetCategoryName | app/src/main/java/com/example/charades/ui/CustomCategoryView.kt:158 | only the name changes |
| CustomCategoryEditor.Editor.SetCurrentWord | app/src/main/java/com/example/charades/ui/CustomCategoryView.kt:187 | only the word field changes |
| CustomCategoryEditor.Editor.AddWord | app/src/main/java/com/example/charades/ui/CustomCategoryView.kt:217-223 | the list as specified by `AddedWords`; the field empties exactly when a word was added; a clean list stays clean |
| CustomCategoryEditor.Editor.RemoveWord | app/src/main/java/com/example/charades/ui/CustomCategoryView.kt:261 | every copy of the word goes and the rest keep their order; a clean list stays clean |
| CustomCategoryEditor.Editor.Save | app/src/main/java/com/example/charades/ui/CustomCategoryView.kt:288-299 | fires the save event and clears the editor when enabled; otherwise changes nothing |
| CustomCategoryEditor.Editor.RequestDelete | app/src/main/java/com/example/charades/ui/CustomCategoryView.kt:334 | the category is pending deletion; nothing else changes |
| CustomCategoryEditor.Editor.ConfirmDelete | app/src/main/java/com/example/charades/ui/CustomCategoryView.kt:414-418 | deletes the pending category once and clears the pending deletion |
| CustomCategoryEditor.Editor.DismissDelete | app/src/main/java/com/example/charades/ui/CustomCategoryView.kt:387 | clears the pending deletion without deleting anything |
| SetPlayers.NonBlank | app/src/main/java/com/example/charades/ui/SetPlayersView.kt:199 | `filter { it.isNotBlank() }` never lengthens the list; its lemmas state what it keeps |
| SetPlayers.NonBlankMembers | app/src/main/java/com/example/charades/ui/SetPlayersView.kt:199 | every kept name is non-blank, and a name is in the result exactly when it is a non-blank name of the list |
| SetPlayers.NonBlankAppend | app/src/main/java/com/example/charades/ui/SetPlayersView.kt:199 | the filter works name by name in list order: it distributes over concatenation |
| SetPlayers.NonBlankCounts | app/src/main/java/com/example/charades/ui/SetPlayersView.kt:199 | each non-blank name is kept as often as it was typed, and no blank name is kept |
| SetPlayers.NonBlankKeepsAllIffFilled | app/src/main/java/com/example/charades/ui/SetPlayersView.kt:199-200 | the filter keeps every name exactly when none is blank, and then returns the list itself |
| SetPlayers.StartRequest | app/src/main/java/com/example/charades/ui/SetPlayersView.kt:197-201 | start goes ahead exactly with two or more names and none blank, passing the names untrimmed and in order |
| SetPlayers.PlayerList.constructor | app/src/main/java/com/example/charades/ui/SetPlayersView.kt:60-64 | two empty names, no start attempted yet |
| SetPlayers.PlayerList.RemoveLast | app/src/main/java/com/example/charades/ui/SetPlayersView.kt:113-116 | drops the last name only above two, so there are always at least two |
| SetPlayers.PlayerList.Add | app/src/main/java/com/example/charades/ui/SetPlayersView.kt:132-134 | appends exactly one empty name |
| SetPlayers.PlayerList.Edit | app/src/main/java/com/example/charades/ui/SetPlayersView.kt:150 | only name `i` changes |
| SetPlayers.PlayerList.Start | app/src/main/java/com/example/charades/ui/SetPlayersView.kt:197-201 | returns the start request and marks the fields; a refused start leaves some field shown in error |
| SetTeams.TeamName | app/src/main/java/com/tlajja/charades/ui/SetTeamsView.kt:144 | "Komanda " followed by the character with code 'A' + n |
| SetTeams.TeamNamesDiffer | app/src/main/java/com/tlajja/charades/ui/SetTeamsView.kt:144 | teams added at different positions get different names |
| SetTeams.TrimKeepsBlankness | app/src/main/java/com/tlajja/charades/ui/SetTeamsView.kt:261-262 | a trimmed name is blank exactly when the typed name is |
| SetTeams.TrimAll | app/src/main/java/com/tlajja/charades/ui/SetTeamsView.kt:261 | every name trimmed, the list in order |
| SetTeams.StartRequest | app/src/main/java/com/tlajja/charades/ui/SetTeamsView.kt:259-266 | start goes ahead exactly with two or more teams, no blank name and at least one round, passing the trimmed names and the rounds |
| SetTeams.TeamList.constructor | app/src/main/java/com/tlajja/charades/ui/SetTeamsView.kt:59-61 | "Komanda A" and "Komanda B", the names the add button would give, three rounds, no start attempted |
| SetTeams.TeamList.RemoveLast | app/src/main/java/com/tlajja/charades/ui/SetTeamsView.kt:121-124 | drops the last team only above two |
| SetTeams.TeamList.Add | app/src/main/java/com/tlajja/charades/ui/SetTeamsView.kt:143-146 | appends the team named after its position |
| SetTeams.TeamList.Edit | app/src/main/java/com/tlajja/charades/ui/SetTeamsView.kt:214 | only name `i` changes |
| SetTeams.TeamList.DecrementRounds | app/src/main/java/com/tlajja/charades/ui/SetTeamsView.kt:176 | one round less, never below 1 |
| SetTeams.TeamList.IncrementRounds | app/src/main/java/com/tlajja/charades/ui/SetTeamsView.kt:194 | one round more, never above 20 |
| SetTeams.TeamList.Start | app/src/main/java/com/tlajja/charades/ui/SetTeamsView.kt:259-266 | returns the start request and marks the fields; a refused start leaves some field shown in error |
| Game.PreparedState | app/src/main/java/com/example/charades/game/GameViewModel.kt:127-140 | no points, no word, no used words, inactive; the time is the setting, or `Int.MAX_VALUE` for 0; the switches carry over |
| Game.ResetState | app/src/main/java/com/example/charades/game/GameViewModel.kt:299-302 | the default state with a minute on the clock, keeping the switches |
| Game.ResetIsPreparedForAMinute | app/src/main/java/com/example/charades/game/GameViewModel.kt:297-303 | resetting is preparing a round with a 60-second timer |
| Game.PrepareIdempotent | app/src/main/java/com/example/charades/game/GameViewModel.kt:125-141 | preparing twice is preparing once |
| Game.AvailableMembers | app/src/main/java/com/example/charades/game/GameViewModel.kt:261 | a word is available exactly when it is in the pool, not used this round and not seen |
| Game.DrawShrinksAvailable | app/src/main/java/com/example/charades/game/GameViewModel.kt:261-272 | drawing a word removes exactly that word from the available words |
| Game.SaveCountsOneGame | app/src/main/java/com/example/charades/data/StatsRepository.kt:15-19 | each save raises the total games shown on the statistics screen by exactly one |
| Game.SavedAppends | app/src/main/java/com/example/charades/data/StatsRepository.kt:15-19 | the result is appended after the earlier games, and the seen words become the old ones plus the round's |
| Game.ResultOfFacts | app/src/main/java/com/example/charades/game/GameViewModel.kt:280-293 | the first clock reading as id and the second as timestamp, the category's name or "Visi", the timer; points for single-player, the players for multi-player |
| Game.MultiplayerMode | app/src/main/java/com/example/charades/game/GameViewModel.kt:152-159 | player i has name i, score 0 and an id no other player has; the first player's turn |
| Game.ResetScores | app/src/main/java/com/example/charades/game/GameViewModel.kt:166-167 | the same players with score 0 and the first player's turn |
| Game.StandingsAfterReset | app/src/main/java/com/example/charades/game/GameViewModel.kt:165-169 | after a reset the standings list the players in joining order |
| Game.CommitTurn | app/src/main/java/com/example/charades/game/GameViewModel.kt:219-222 | the current player, and only they, gets the turn's points; nothing changes when nobody's turn |
| Game.EndOfTurn | app/src/main/java/com/example/charades/game/GameViewModel.kt:213-236 | a single-player game ends; a multi-player game ends exactly after the last player's turn with their score committed, else the next player is up |
| Game.PlayTurns | app/src/main/java/com/example/charades/game/GameViewModel.kt:213-236 | the turns of a game keep the game mode valid |
| Game.RoundOfTurns | app/src/main/java/com/example/charades/game/GameViewModel.kt:152-236 | a new game of n players ends exactly on the n-th turn, and then player i holds the score of turn i |
| Game.OneTurn | app/src/main/java/com/example/charades/game/GameViewModel.kt:217-234 | one multi-player turn sets the current player's score to the turn's points, leaves everyone else alone, and passes the turn on exactly when a later player is left |
| Game.TurnsFrom | app/src/main/java/com/example/charades/game/GameViewModel.kt:213-236 | from player k the game ends after n - k turns, turn j's score going to player k + j |
| Game.Cancelled | app/src/main/java/com/example/charades/game/GameViewModel.kt:126 | cancelling stops a running job but keeps the reference |
| Game.GameViewModel.constructor | app/src/main/java/com/example/charades/game/GameViewModel.kt:67-89 | the default state and mode, a 60-second timer, no category selected, the saved custom categories |
| Game.GameViewModel.ConsumeGameEndEvent | app/src/main/java/com/example/charades/game/GameViewModel.kt:42-44 | clears only the game-end event |
| Game.GameViewModel.ConsumeMultiplayerGameEndEvent | app/src/main/java/com/example/charades/game/GameViewModel.kt:49-51 | clears only the multi-player game-end event |
| Game.GameViewModel.ConsumeNextPlayerEvent | app/src/main/java/com/example/charades/game/GameViewModel.kt:56 | clears only the next-player event |
| Game.GameViewModel.SetVibrationEnabled | app/src/main/java/com/example/charades/game/GameViewModel.kt:59-61 | only the vibration switch changes |
| Game.GameViewModel.SetSoundEnabled | app/src/main/java/com/example/charades/game/GameViewModel.kt:63-65 | only the sound switch changes |
| Game.GameViewModel.AddCustomCategory | app/src/main/java/com/example/charades/game/GameViewModel.kt:92-95 | the category goes last; nothing else changes |
| Game.GameViewModel.UpdateCustomCategory | app/src/main/java/com/example/charades/game/GameViewModel.kt:97-101 | every copy of the old category is replaced, and a selection of it follows to the new one |
| Game.GameViewModel.DeleteCustomCategory | app/src/main/java/com/example/charades/game/GameViewModel.kt:103-107 | every copy is removed, and a selection of it falls back to all categories |
| Game.GameViewModel.SetTimer | app/src/main/java/com/example/charades/game/GameViewModel.kt:110-112 | only the timer setting changes |
| Game.GameViewModel.SetCategory | app/src/main/java/com/example/charades/game/GameViewModel.kt:114-116 | only the selected category changes |
| Game.GameViewModel.OnDontRepeatWordsChanged | app/src/main/java/com/example/charades/game/GameViewModel.kt:118-123 | sets the switch; turning it off forgets the seen words and keeps the games |
| Game.GameViewModel.PrepareNewGame | app/src/main/java/com/example/charades/game/GameViewModel.kt:125-141 | the timer job is cancelled and the round becomes the prepared state |
| Game.GameViewModel.MoveToNextPlayer | app/src/main/java/com/example/charades/game/GameViewModel.kt:143-150 | the turn's points are committed and the turn passes to `(i + 1) mod n` |
| Game.GameViewModel.SetMultiplayerMode | app/src/main/java/com/example/charades/game/GameViewModel.kt:152-159 | the mode becomes the new multi-player game |
| Game.GameViewModel.SetGameModeToSinglePlayer | app/src/main/java/com/example/charades/game/GameViewModel.kt:161-163 | the mode becomes the default single-player mode |
| Game.GameViewModel.ResetMultiplayerGame | app/src/main/java/com/example/charades/game/GameViewModel.kt:165-169 | scores reset, first player up, timer cancelled and a prepared round |
| Game.GameViewModel.StartGame | app/src/main/java/com/example/charades/game/GameViewModel.kt:171-178 | nothing while a round is active; otherwise the round is active, the countdown shows 3 and one countdown waits |
| Game.GameViewModel.CountdownStep | app/src/main/java/com/example/charades/game/GameViewModel.kt:176-189 | a waiting countdown shows 2, then 1, then finishes the countdown |
| Game.GameViewModel.FinishCountdown | app/src/main/java/com/example/charades/game/GameViewModel.kt:184-188 | the countdown hides, exactly one word is drawn, and only a limited timer starts |
| Game.GameViewModel.StartMainTimer | app/src/main/java/com/example/charades/game/GameViewModel.kt:192-203 | a job counting down from the time left; with no time left the turn ends at once |
| Game.GameViewModel.Tick | app/src/main/java/com/example/charades/game/GameViewModel.kt:196-201 | a running timer loses exactly one second and never goes below 0; at 0 the turn ends; a stopped timer does nothing |
| Game.GameViewModel.RunTimerToEnd | app/src/main/java/com/example/charades/game/GameViewModel.kt:194-202 | the loop ticks once per second left, leaves 0 on the clock and ends the turn exactly once |
| Game.GameViewModel.OnTurnEnd | app/src/main/java/com/example/charades/game/GameViewModel.kt:205-211 | points untouched; a word is drawn exactly when time is left, else the turn ends |
| Game.GameViewModel.EndTurn | app/src/main/java/com/example/charades/game/GameViewModel.kt:213-236 | the outcome and mode of `EndOfTurn`, with the game saved exactly when it ends and the matching event raised; the total games grow by one when the game ends and stay the same when the next player is up, so a multi-player game counts once |
| Game.GameViewModel.ApplyTurnEnd | app/src/main/java/com/example/charades/game/GameViewModel.kt:213-236 | for a decided outcome: the new game mode, the game saved unless the next player is up, and exactly that outcome's event raised |
| Game.GameViewModel.OnForegroundChanged | app/src/main/java/com/example/charades/ui/WordView.kt:58-64 | in the background no timer job is left, so `Tick` changes nothing; back in the foreground the timer restarts from the time left exactly when `resumeTimer`'s five guards pass, and otherwise the job is as it was |
| Game.GameViewModel.PauseTimer | app/src/main/java/com/example/charades/game/GameViewModel.kt:238-241 | the job is dropped, so no tick follows |
| Game.GameViewModel.ResumeTimer | app/src/main/java/com/example/charades/game/GameViewModel.kt:243-251 | restarts the timer exactly when there is no job, a round is on, the countdown is over, the timer is limited and time is left |
| Game.DrawNextWord | app/src/main/java/com/example/charades/game/GameViewModel.kt:260-273 | an available word joining the used words; when none is left, the used words start over with a pool word, or "ERROR" for an empty pool |
| Game.GameViewModel.GetNextWord | app/src/main/java/com/example/charades/game/GameViewModel.kt:253-274 | an available word joining the used words; when none is left, the used words start over with a pool word, or "ERROR" for an empty pool |
| Game.GameViewModel.MarkCorrect | app/src/main/java/com/example/charades/game/GameViewModel.kt:276-278 | one more point, in `Int` arithmetic, and nothing else changes |
| Game.GameViewModel.SaveGameResult | app/src/main/java/com/example/charades/game/GameViewModel.kt:280-295 | the result of the game as it stands is saved with the round's words |
| Game.GameViewModel.ResetGame | app/src/main/java/com/example/charades/game/GameViewModel.kt:297-303 | the timer job is cancelled and the state is reset, keeping the switches |

## Left out

- Persistence is not modelled:
  - StatsRepository's file reads and writes, JSON encoding and decoding, and the errors they swallow.
  - `clearStatistics` and the custom-category repository.
  - The statistics file is a `Store` value; saved custom categories are a constructor argument; saving them is not modelled.
- Reading a bundled asset file is not modelled. Each file's outcome is an entry of the `Assets` map: a decoded word list, `Undecodable`, or missing.
- Coroutine timing is not modelled beyond the step methods:
  - A countdown coroutine is not cancelled by `prepareNewGame` or a pause. This matches the source.
  - `RunTimerToEnd` assumes no pause or restart between ticks.
- `Categories.GetRandomWord`, `Game.DrawNextWord`, `Game.GameViewModel.GetNextWord`: the choice is any member of the pool, not a uniform random one.
- Compose layout, navigation, the results and statistics screens, sound, vibration and the sensor drivers are presentation or system services.
- Gyroscope readings are reals, so `float` rounding is not modelled. `getAverageScore` and the font-shrinking loop are floating point and left out.
- `getFormattedDate` depends on the locale and time zone and is left out. Timestamps are unbounded integers, with the two clock readings given as a parameter.
- The `com.example` `WordRepository` enum is left out. It belongs to an older snapshot that the view-model and editor no longer compile against.
- Multi-player `GameResult`s are left out of the score figures. The view-model builds them without a score, so `GameStats.GameResult.Points` counts them as 0.
- `GameStats.RecentGames`: requires `limit >= 0`, because Kotlin's `take` throws on a negative count.
- `Players.NextPlayerIndex`, `TeamPlayers.NextPlayerIndex`: require a non-empty player list, because Kotlin's `%` throws there. The result is stated only for indices from -1 to `Int.MAX_VALUE - 1`.
- `Game.GameViewModel.MoveToNextPlayer`: requires a non-empty player list. In single-player mode Kotlin throws `ArithmeticException` there.
- `Game.GameViewModel.SetMultiplayerMode`, `Game.MultiplayerMode`: require at least one name. With none, the next `endTurn` would divide by zero. The player screen only starts with two or more names.
- `GameSettings.PlusClick`: states the result only up to `Int.MAX_VALUE - 15`. Above that, Kotlin's addition wraps to a negative value, which the function computes but its contract does not describe.
- `GameSettings.StepsStayOnGrid`, `GameSettings.MinusUndoesPlus`: plus stays on the grid, and minus undoes it, only up to `Int.MAX_VALUE - 15`. At 2147483640, plus wraps to -2147483641, which minus refuses.
- `SetTeams.TeamName`, `SetTeams.TeamList.Add`: require the character code 'A' + n to be below 0xD800. Dafny characters exclude the surrogate range, and Kotlin's `toChar` wraps at 0x10000, so neither happens before 55000 teams.
