# EcoQuest front-end core, modelled in Dafny

EcoQuest is a React web app that teaches environmental habits through mini-games, a trivia round, a leaderboard, lessons, a profile page and a chat assistant. This project models the app's game and page logic and proves properties of it:

- the state machines of the waste-sorting, pollution-cleanup, memory-match and trivia games;
- how the leaderboard ranks, merges and filters players;
- the lesson accordion and its knowledge-check stars;
- the profile and dashboard fallbacks;
- sign-up validation;
- the assistant's send, reply and new-chat behaviour.

How the model is built:

- A component whose handlers update React state is a Dafny `class`. Its state variables are fields, and each handler is a `method` with a `modifies` frame. A class's `Valid()` predicate is the invariant that its methods preserve.
- Each `setTimeout`/`setInterval` callback is its own step method. Timeouts that are scheduled but have not fired are counted, or kept with their captured value, in a `pending…` field. A step can only run when that field shows a pending callback.
- `Math.random` becomes a nondeterministic choice (`:|`) or a parameter. The memory game's shuffle is a parameter that must be a permutation of the doubled face list.
- Pure expressions are Dafny functions: `rankByXP`, `draftEcoReply`, `displayUser`, the fallbacks and the progress bar.
- JavaScript semantics is written out where it matters:
  - `a || b` is falsy for `""` (`JsText.OrElse`), while `a ?? b` is falsy only when the value is missing (`Option.GetOr`);
  - `%` truncates toward zero (`Leaderboard.JsRem`);
  - `Math.round` is modelled on integers;
  - `Array.prototype.sort` is stable;
  - `String.prototype.trim` uses its white-space set.

Modules, one per source file, plus three shared ones:

| module | file | models |
|---|---|---|
| `Wrappers` | wrappers.dfy | `Option` |
| `JsText` | js_text.dfy | `trim`, `toLowerCase`, `includes`, `startsWith`, `\|\|` on strings |
| `Seqs` | seqs.dfy | `filter` and set-cardinality facts |
| `AuthUser` | auth_user.dfy | the user record held by the authentication context |
| `WasteSorting` | waste_sorting.dfy | src/Aks/WasteSortingGame.jsx |
| `PollutionCleanup` | pollution_cleanup.dfy | src/Aks/PollutionCleanUp.jsx |
| `EcoMemory` | eco_memory.dfy | src/Aks/EcoMemory.jsx |
| `TriviaQuiz` | trivia_quiz.dfy | src/TriviaQuiz.jsx |
| `Leaderboard` | leaderboard.dfy | src/LeaderBoard.jsx |
| `LearnPage` | learn_page.dfy | src/LearnPage.jsx |
| `ProfilePage` | profile_page.dfy | src/Aks/ProfilePage.jsx |
| `EcoAssistant` | eco_assistant.dfy | src/EcoAssistant.jsx |
| `SignUpPage` | signup_page.dfy | src/Aks/SignUpPage.jsx |
| `HomePage` | home_page.dfy | src/Aks/HomePage.jsx |

Properties that hold differently from how they might be described:

- In the memory game, flipped cards are not always disjoint from solved cards. A matching second flip adds both cards to `solved` while they stay in `flipped`; they only leave `flipped` when the 600 ms flip-back fires. The invariant proved is the part that does hold: with at most one card face up, that card is not solved.
- The leaderboard's progress bar stays within 0 to 100 only for non-negative XP. JavaScript's `%` keeps the sign of the dividend, so negative XP gives a value between -100 and 0.
- The assistant's keyword tests have no word boundaries, so "goals" contains "goa" and gets the travel reply.

## Model

| member | source | states |
|---|---|---|
| JsText.TrimStartDrops | src/EcoAssistant.jsx:43 | trimming the start drops only a run of leading white space and leaves a string that does not start with white space |
| JsText.TrimEndDrops | src/EcoAssistant.jsx:43 | trimming the end drops only a run of trailing white space and leaves a string that does not end with white space |
| JsText.TrimEmptyIff | src/EcoAssistant.jsx:43-44 | a string trims to "" exactly when all its characters are white space, so the send guard rejects exactly the blank inputs |
| JsText.TrimEnds | src/EcoAssistant.jsx:43 | a non-empty trimmed string neither starts nor ends with white space |
| JsText.Trim | src/EcoAssistant.jsx:43 | `trim` is trimming the start, then the end; what this gives is stated by the Trim lemmas |
| JsText.Contains | src/LeaderBoard.jsx:189 | `includes`: the part occurs at some position from 0 to the difference of the lengths |
| JsText.StartsWith | src/Aks/ProfilePage.jsx:51 | the prefix is no longer than the string and equals its first characters |
| JsText.TrimIdempotent | src/LeaderBoard.jsx:188 | trimming an already trimmed string changes nothing |
| JsText.ToLower | src/LeaderBoard.jsx:189 | lower-casing keeps the length, leaves no capital A to Z, keeps every other character and turns each capital into the letter 32 code points above it |
| JsText.ToLowerIdempotent | src/LeaderBoard.jsx:189 | lower-casing twice is lower-casing once |
| JsText.OrElse | src/Aks/ProfilePage.jsx:12 | `s \|\| d` gives `d` exactly when `s` is missing, empty or `d` itself, and otherwise `s` |
| AuthUser.WithAddedXP | src/TriviaQuiz.jsx:65-68 | the updated user has xp = old xp (missing as 0) + amount, and every other field is unchanged |
| WasteSorting.CatalogIdsAreItemIds | src/Aks/WasteSortingGame.jsx:6-22 | the id set is exactly the ids of the fifteen catalog items, item k having id k + 1 |
| WasteSorting.Available | src/Aks/WasteSortingGame.jsx:47-48 | the pool holds exactly the catalog items whose id is unused, and it is empty exactly when every catalog id is used |
| WasteSorting.ScoreStep | src/Aks/WasteSortingGame.jsx:76-84 | a correct sort adds 10 + 2·(combo before it) and increments the combo; a wrong one adds nothing and resets the combo |
| WasteSorting.SortPoints | src/Aks/WasteSortingGame.jsx:77 | a correct sort earns 10 + 2·combo |
| WasteSorting.ComboOf | src/Aks/WasteSortingGame.jsx:79-82 | the combo after a history of outcomes: a correct sort extends it, a wrong one resets it to 0 |
| WasteSorting.ScoreOf | src/Aks/WasteSortingGame.jsx:76-78 | the score after a history of outcomes: each correct sort pays SortPoints of the combo before it, a wrong one nothing |
| WasteSorting.ComboIsTrailingRun | src/Aks/WasteSortingGame.jsx:79-82 | the combo is the length of the trailing run of correct sorts: those are all correct and the one before them is wrong |
| WasteSorting.ScoreNeverDecreases | src/Aks/WasteSortingGame.jsx:78 | further sorts never lower the score |
| WasteSorting.StreakScoreClosedForm | src/Aks/WasteSortingGame.jsx:77 | n correct sorts starting at combo c score n(10 + 2c) + n(n − 1) |
| WasteSorting.AllCorrectScore | src/Aks/WasteSortingGame.jsx:77-79 | a run of n correct sorts from a fresh start ends at combo n with score 10n + n(n − 1) |
| WasteSorting.WasteSortingGame.constructor | src/Aks/WasteSortingGame.jsx:25-32 | the initial state: score, items sorted and combo 0, no item, empty pool, no game over |
| WasteSorting.WasteSortingGame.GetRandomItem | src/Aks/WasteSortingGame.jsx:46-60 | returns a catalog item; with unused ids left, the item was unused and exactly its id joins the used set; otherwise the used set is emptied |
| WasteSorting.WasteSortingGame.NextItem | src/Aks/WasteSortingGame.jsx:62-70 | after ten sorts it sets game over and draws nothing; before that it draws an item as GetRandomItem does and hides the fact |
| WasteSorting.WasteSortingGame.StartGame | src/Aks/WasteSortingGame.jsx:35-44 | resets score, items sorted, combo, game over and the fact, empties the pool, then draws the first item, which becomes the only used id |
| WasteSorting.WasteSortingGame.HandleSort | src/Aks/WasteSortingGame.jsx:72-86 | without a current item nothing happens; otherwise the score and combo change as in ScoreStep and a feedback timeout is scheduled |
| WasteSorting.WasteSortingGame.FeedbackTimerFires | src/Aks/WasteSortingGame.jsx:86-98 | one more item is sorted, right or wrong; the tenth sets game over, any other shows the fact and schedules the next item |
| WasteSorting.WasteSortingGame.NextTimerFires | src/Aks/WasteSortingGame.jsx:94 | the delayed next item runs, with the same new state as NextItem: after ten sorts the game is over with item and used set kept; otherwise a catalogue item is shown, unused unless all were used, and the used set gains it or restarts empty; score, combo, count, pending feedback and outcomes are unchanged |
| WasteSorting.ThreeCorrectSorts | src/Aks/WasteSortingGame.jsx:77-79 | three correct sorts from a start score 10, 12 and 14: 36 in all, with combo 3 |
| PollutionCleanup.CleanupScoreClosedForm | src/Aks/PollutionCleanUp.jsx:65-76 | n cleans in one session score 5n + n(n − 1) |
| PollutionCleanup.CleanPoints | src/Aks/PollutionCleanUp.jsx:69 | a clean earns 5 + 2·(combo before it) |
| PollutionCleanup.CleanupScore | src/Aks/PollutionCleanUp.jsx:65-76 | the score after n cleans in one session: the k-th clean pays CleanPoints(k) |
| PollutionCleanup.RemoveId | src/Aks/PollutionCleanUp.jsx:63 | the remaining pollutants are exactly the ones with another id |
| Seqs.FilterMembers | src/Aks/PollutionCleanUp.jsx:63 | `filter` keeps exactly the elements that pass the test |
| Seqs.Filter | src/Aks/PollutionCleanUp.jsx:63 | `filter` is never longer than its input; which elements it keeps, and how often, is stated by FilterMembers and the multiset lemmas |
| PollutionCleanup.RemoveIdConcat | src/Aks/PollutionCleanUp.jsx:63 | removal distributes over concatenation, so the other pollutants keep their order |
| PollutionCleanup.RemoveAbsentId | src/Aks/PollutionCleanUp.jsx:63 | removing an id that no pollutant carries changes nothing |
| PollutionCleanup.RemoveIdCounts | src/Aks/PollutionCleanUp.jsx:63 | every occurrence of a pollutant with another id survives, and no pollutant with the id does |
| PollutionCleanup.PollutionGame.constructor | src/Aks/PollutionCleanUp.jsx:9-15 | the start screen: inactive, 30 s left, nothing scored or on screen |
| PollutionCleanup.PollutionGame.StartGame | src/Aks/PollutionCleanUp.jsx:51-59 | score 0, 30 s left, no pollutants, combo 0, cleaned 0, banner hidden, active |
| PollutionCleanup.PollutionGame.Tick | src/Aks/PollutionCleanUp.jsx:19-25 | the countdown fires only while active with time left, and takes off exactly one second |
| PollutionCleanup.PollutionGame.TimeUpEffect | src/Aks/PollutionCleanUp.jsx:47-49 | at zero seconds the game becomes inactive, which is the game-over view; otherwise nothing changes |
| PollutionCleanup.PollutionGame.Spawn | src/Aks/PollutionCleanUp.jsx:28-44 | the spawner fires only while active; it appends one pollutant unless 20 are on screen, so there are never more than 20 |
| PollutionCleanup.PollutionGame.CleanPollution | src/Aks/PollutionCleanUp.jsx:61-78 | removes that id's pollutants, adds 5 + 2·(combo before the click), increments combo and cleaned count, shows the banner; the invariant keeps combo = cleaned count and score = CleanupScore(cleaned count) |
| PollutionCleanup.PollutionGame.HideComboBanner | src/Aks/PollutionCleanUp.jsx:74 | the banner timeout hides the combo banner |
| PollutionCleanup.PollutionGame.RunOutClock | src/Aks/PollutionCleanUp.jsx:19-49 | ticking with the time-up effect after each tick always reaches the game-over view, with score, count, pollutants, combo, banner and pending banner hides unchanged |
| PollutionCleanup.TwoCleans | src/Aks/PollutionCleanUp.jsx:65-76 | two cleans from a start score 5 then 7 |
| EcoMemory.Deal | src/Aks/EcoMemory.jsx:37-39 | card i of the deal shows the i-th face of the shuffle and has uniqueId i |
| EcoMemory.DealHasSixPairs | src/Aks/EcoMemory.jsx:37-39 | any shuffle deals 12 cards with uniqueIds 0 to 11, each of the six faces exactly twice and no other face |
| EcoMemory.ShuffleSize | src/Aks/EcoMemory.jsx:37-38 | a shuffle of the doubled face list has 12 cards |
| EcoMemory.ShuffleFaces | src/Aks/EcoMemory.jsx:37-38 | every card of a shuffle shows one of the six faces |
| EcoMemory.FaceIdsDistinct | src/Aks/EcoMemory.jsx:6-13 | the six faces have the distinct ids 1 to 6 |
| EcoMemory.CoverIff | src/Aks/EcoMemory.jsx:28 | a list of distinct positions below n has length n exactly when it covers every position below n |
| EcoMemory.EarnedXP | src/Aks/EcoMemory.jsx:68 | `max(10, 60 − 2·moves)` lies between 10 and 60 |
| EcoMemory.EarnedXPNonIncreasing | src/Aks/EcoMemory.jsx:68 | more moves never earn more XP |
| EcoMemory.AppendPairKeepsPairs | src/Aks/EcoMemory.jsx:60-62 | appending two different, unsolved cards of the same face keeps the solved list distinct and in same-face pairs |
| EcoMemory.SecondFlipKeepsTable | src/Aks/EcoMemory.jsx:51-65 | flipping a second, different card over a lone one keeps the table invariant, whether or not the two match |
| EcoMemory.MemoryGame.constructor | src/Aks/EcoMemory.jsx:16-20 | before the deal there are no cards, no flips, nothing solved and no moves |
| EcoMemory.MemoryGame.InitializeGame | src/Aks/EcoMemory.jsx:36-46 | deals the shuffle (12 cards) and clears flipped, solved, moves and game over |
| EcoMemory.MemoryGame.HandleCardClick | src/Aks/EcoMemory.jsx:48-66 | with two cards up, or the card up or solved, nothing changes; otherwise the card is flipped; a second flip costs one move, adds a matching pair to solved and schedules the flip-back; the invariant keeps at most two cards up, distinct and unsolved while alone, and solved listed in same-face pairs |
| EcoMemory.MemoryGame.FlipSecond | src/Aks/EcoMemory.jsx:54-65 | the second flip: both cards are up, moves grows by one, a matching pair is appended to solved, the flip-back is scheduled, and the completion check is scheduled when that solves every card |
| EcoMemory.MemoryGame.FlipBack | src/Aks/EcoMemory.jsx:64 | the flip-back timeout turns every card face down |
| EcoMemory.MemoryGame.CompletionTimerFires | src/Aks/EcoMemory.jsx:27-34 | the completion timeout reports completion once and sets game over |
| EcoMemory.MemoryGame.CompleteIffAllSolved | src/Aks/EcoMemory.jsx:28 | the completion test (solved as long as a non-empty deal) holds exactly when every card is solved |
| EcoMemory.MemoryGame.CompletedGameXP | src/Aks/EcoMemory.jsx:68 | a completed 12-card game took at least 6 moves, so it earns at most 48 XP |
| TriviaQuiz.QuestionsWellFormed | src/TriviaQuiz.jsx:23-37 | there are ten questions, and each answer index names one of its question's options |
| TriviaQuiz.XpFor | src/TriviaQuiz.jsx:20-21 | 2 exactly for "easy", 4 exactly for "moderate", 5 for anything else |
| TriviaQuiz.DifficultyOf | src/TriviaQuiz.jsx:59 | the picked avatar's difficulty, or "easy" without one or when its difficulty is "" |
| TriviaQuiz.RewardXP | src/TriviaQuiz.jsx:59 | non-zero exactly for a finished round with score 10, and then the difficulty's XP |
| TriviaQuiz.PerfectRoundRewards | src/TriviaQuiz.jsx:174-178 | the three difficulty tiles reward 2, 4 and 5 XP for a perfect round, and no tile counts as easy |
| TriviaQuiz.CorrectCount | src/TriviaQuiz.jsx:46 | the number of right answers is at most the number of answers |
| TriviaQuiz.CorrectCountFull | src/TriviaQuiz.jsx:46 | every answer counts exactly when every one is right |
| TriviaQuiz.CorrectCountStep | src/TriviaQuiz.jsx:46 | one more answer adds one exactly when it is right |
| TriviaQuiz.Quiz.constructor | src/TriviaQuiz.jsx:8-18 | the picker is shown over question 1, nothing selected, locked, finished or awarded |
| TriviaQuiz.Quiz.PickAvatar | src/TriviaQuiz.jsx:272 | a tile sets the avatar |
| TriviaQuiz.Quiz.ClearAvatar | src/TriviaQuiz.jsx:283 | Reset clears the avatar |
| TriviaQuiz.Quiz.StartQuiz | src/TriviaQuiz.jsx:286-287 | Start Quiz closes the picker exactly when an avatar is picked |
| TriviaQuiz.Quiz.Choose | src/TriviaQuiz.jsx:42 | selects the option unless the question is locked |
| TriviaQuiz.Quiz.SubmitAsWritten | src/TriviaQuiz.jsx:43-52 | with no selection nothing happens; otherwise it locks, adds one for a right answer, records the selected option as an answer and schedules an advance, even when the question is already locked |
| TriviaQuiz.Quiz.Submit | src/TriviaQuiz.jsx:43-52 | the same, but ignored while locked; the invariant keeps the score equal to the number of right submitted answers, one per question |
| TriviaQuiz.Quiz.AdvanceTimerFires | src/TriviaQuiz.jsx:47-51 | the oldest scheduled advance fires with its captured next index: past the last question the round finishes, otherwise it moves there, clears the selection and unlocks |
| TriviaQuiz.Quiz.RestartAsWritten | src/TriviaQuiz.jsx:53-57 | resets question, score, selection, lock, finished and the award flag; with resetAvatar it also clears the avatar and shows the picker; scheduled advances remain |
| TriviaQuiz.Quiz.Restart | src/TriviaQuiz.jsx:53-57 | the same reset, which also drops scheduled advances, so the round invariant holds afterwards |
| TriviaQuiz.Quiz.AwardEffect | src/TriviaQuiz.jsx:62-72 | in any reachable state, as written or corrected: returns an updated user exactly for a finished, rewarded, not yet awarded round with a signed-in user; that user has the reward added to their XP, the round is marked awarded, and a valid round stays valid |
| TriviaQuiz.Quiz.FinishedRewardIffPerfect | src/TriviaQuiz.jsx:59 | a finished round has ten answers and earns XP exactly when every one of them was right |
| TriviaQuiz.Quiz.ScoreBounded | src/TriviaQuiz.jsx:46 | the score is at most the number of questions submitted, which is at most 10 |
| TriviaQuiz.ChooseFirstAnswer | src/TriviaQuiz.jsx:42 | picking the easy tile, starting and choosing the right first option leaves the round valid on question 1 with that option selected and nothing submitted |
| TriviaQuiz.DoubleSubmitCounterexample | src/TriviaQuiz.jsx:43-52 | two Submit clicks on the first question score 2 with only that question answered |
| TriviaQuiz.DoubleSubmitCorrected | src/TriviaQuiz.jsx:43-52 | with the corrected Submit the second click scores nothing |
| TriviaQuiz.OneWrongCount | src/TriviaQuiz.jsx:23-37 | the answer list with a wrong second answer has nine right answers |
| TriviaQuiz.AnswerAndAdvance | src/TriviaQuiz.jsx:42-52 | choosing, submitting and the advance on a question before the last: the next question opens, the option is recorded and scored, nothing is awarded |
| TriviaQuiz.AnswerLast | src/TriviaQuiz.jsx:42-52 | the same on the last question: the round finishes with the option recorded and scored |
| TriviaQuiz.DoubleSubmitThenWrong | src/TriviaQuiz.jsx:43-52 | after a double submit and a wrong second answer, the round is on question 3 with score 2 and the answers 1, 1, 2 recorded |
| TriviaQuiz.WrongAnswerRewardedCounterexample | src/TriviaQuiz.jsx:43-72 | a round whose chosen options have nine right answers records the first one twice, finishes with score 10, earns the flawless reward, and the award effect gives the signed-in user 2 more XP |
| TriviaQuiz.SubmitThenChangeDifficulty | src/TriviaQuiz.jsx:53-57 | a submit followed at once by Change Difficulty leaves a reset round behind the picker with the advance to question 2 still scheduled |
| TriviaQuiz.RestartCounterexample | src/TriviaQuiz.jsx:53-57 | Change Difficulty within 500 ms of a submit makes the next round open on question 2 |
| Leaderboard.Insert | src/LeaderBoard.jsx:22 | inserting adds exactly one occurrence of the element |
| Leaderboard.InsertSorted | src/LeaderBoard.jsx:22 | inserting into a list ordered by descending XP keeps it ordered |
| Leaderboard.InsertBounded | src/LeaderBoard.jsx:22 | inserting under an XP bound that holds for the element and the list keeps every element under it |
| Leaderboard.SortByXp | src/LeaderBoard.jsx:22 | the sorted list is a permutation of the input, ordered by descending XP |
| Leaderboard.InsertWithXp | src/LeaderBoard.jsx:22 | inserting keeps the order among elements with equal XP, the new one first |
| Leaderboard.SortStable | src/LeaderBoard.jsx:22 | sorting keeps the relative order of equal-XP students |
| Leaderboard.RankByXp | src/LeaderBoard.jsx:21-22 | a permutation of the input, descending by XP, with rank = position + 1, stable among equal XP |
| Leaderboard.TopRankHasMostXP | src/LeaderBoard.jsx:21-22 | rank 1 has at least the XP of every student |
| Leaderboard.You | src/LeaderBoard.jsx:160-167 | the user's row is "me", with the name or "You", the class or "10-A", the school or "Your School", and XP (missing as 0) |
| Leaderboard.RaiseNamed | src/LeaderBoard.jsx:171 | rows with the user's name take the larger XP, and the others are unchanged |
| Leaderboard.MergeYou | src/LeaderBoard.jsx:168-172 | with a same-name row the result is RaiseNamed: the length is kept and only the rows with the user's name change, each to the larger of their XP and the user's; otherwise the user is appended; the user's name is present with at least their XP |
| Leaderboard.MergeYouIdempotent | src/LeaderBoard.jsx:168-172 | merging the user twice is merging once |
| Leaderboard.BaseData | src/LeaderBoard.jsx:158-173 | without a user, the roster unchanged; with one, the roster with the user merged in |
| Leaderboard.UserAlwaysListed | src/LeaderBoard.jsx:198 | a signed-in user always has a row marked as theirs with at least their XP |
| Leaderboard.IsMe | src/LeaderBoard.jsx:198 | with a signed-in user, the row with id "me" or with the user's name (or "You"); with none, no row |
| Leaderboard.Dedup | src/LeaderBoard.jsx:175-176 | the same values, each once, the first value first |
| Leaderboard.DedupDistinct | src/LeaderBoard.jsx:175-176 | a list without repeats is its own deduplication, so the first-occurrence order is kept |
| Leaderboard.DedupPrefix | src/LeaderBoard.jsx:175-176 | deduplicating a prefix gives a prefix of the deduplication, so values stay in the order they first appear |
| Leaderboard.Classes | src/LeaderBoard.jsx:175 | every class of some row and nothing else, each once, the first row's class first |
| Leaderboard.Schools | src/LeaderBoard.jsx:176 | every school of some row and nothing else, each once, the first row's school first |
| Leaderboard.FirstOr | src/LeaderBoard.jsx:178-179 | the first choice, or "" when there is none |
| Leaderboard.InitialClassIsFirstRow | src/LeaderBoard.jsx:178 | the initially selected class is the first row's class |
| Leaderboard.GroupRows | src/LeaderBoard.jsx:184-186 | exactly the rows of the selected class, or school, in class or school mode |
| Leaderboard.NameRows | src/LeaderBoard.jsx:188-190 | a blank query keeps every row; otherwise exactly the rows whose lower-cased name contains the lower-cased query |
| Leaderboard.InGroup | src/LeaderBoard.jsx:184-186 | in class mode the row's class is the selected class, in school mode its school is the selected school |
| Leaderboard.NameMatches | src/LeaderBoard.jsx:188-190 | a query that trims to "" matches every row; otherwise the lower-cased name contains the lower-cased query |
| Leaderboard.Visible | src/LeaderBoard.jsx:182-192 | a row is shown when it is in the selected group and matches the query |
| Leaderboard.VisibleRowsCount | src/LeaderBoard.jsx:182-192 | each row that passes both filters keeps all its occurrences, and every other row is dropped |
| Leaderboard.Filtered | src/LeaderBoard.jsx:182-193 | the visible rows with their multiplicities, ranked 1, 2, … by descending XP |
| Leaderboard.FilteredMembers | src/LeaderBoard.jsx:182-193 | a row is on the filtered board exactly when it is in the data and passes both filters |
| Leaderboard.Podium | src/LeaderBoard.jsx:195 | the first min(3, n) ranked rows |
| Leaderboard.Rest | src/LeaderBoard.jsx:196 | the rows after the third: n − 3 of them, or none |
| Leaderboard.PodiumAndRest | src/LeaderBoard.jsx:195-196 | the podium followed by the rest is the whole ranking |
| Leaderboard.RestBelowPodium | src/LeaderBoard.jsx:195-196 | below the podium ranks start at 4, and every podium row has at least the XP of every other row |
| Leaderboard.JsRem | src/LeaderBoard.jsx:25 | JavaScript's `%`: the Euclidean remainder for non-negative dividends, and a value in (−b, 0] for negative ones |
| Leaderboard.ProgressPct | src/LeaderBoard.jsx:25 | the bar is between 0 and 100 for non-negative XP, and between −100 and 100 always |
| Leaderboard.ProgressWithinThousand | src/LeaderBoard.jsx:25 | the bar repeats every 1000 XP, is full exactly from 995 of a thousand and empty exactly below 5 |
| LearnPage.ModuleIdsAreTheModules | src/LearnPage.jsx:97 | the id set has one id per module, five in all |
| LearnPage.Toggle | src/LearnPage.jsx:103 | the id flips between open and closed, and every other id is unchanged |
| LearnPage.ToggleTwice | src/LearnPage.jsx:100-106 | toggling a module twice restores the open set |
| LearnPage.ToggleCommutes | src/LearnPage.jsx:100-106 | toggles of two modules commute |
| LearnPage.Accordion.constructor | src/LearnPage.jsx:92 | every module starts closed |
| LearnPage.Accordion.ToggleOne | src/LearnPage.jsx:100-106 | the header click toggles that module, and only module ids are ever open |
| LearnPage.Accordion.ToggleAll | src/LearnPage.jsx:95-98 | when all are open, everything closes; otherwise every module opens |
| LearnPage.Accordion.AllOpen | src/LearnPage.jsx:93 | `allOpen`: as many modules are open as there are modules |
| LearnPage.Accordion.AllOpenIffEveryModule | src/LearnPage.jsx:93 | the size test `openIds.size === modules.length` holds exactly when every module is open |
| LearnPage.ExpandThenCollapse | src/LearnPage.jsx:95-98 | two clicks of Expand All / Collapse All from a closed accordion leave it closed |
| LearnPage.Stars | src/LearnPage.jsx:211-217 | `outOf` stars, star i filled exactly when i < score |
| LearnPage.StarsShowScore | src/LearnPage.jsx:214-217 | the number of filled stars is the score clamped to 0..outOf |
| LearnPage.StarsFilledFirst | src/LearnPage.jsx:217 | no empty star comes before a filled one |
| LearnPage.ModuleStars | src/LearnPage.jsx:196 | each module shows exactly its knowledge-check score in stars out of 5 |
| ProfilePage.Username | src/Aks/ProfilePage.jsx:12 | the user's non-empty name, else "EcoExplorer" |
| ProfilePage.Email | src/Aks/ProfilePage.jsx:13 | the user's non-empty e-mail, else "—" |
| ProfilePage.Avatar | src/Aks/ProfilePage.jsx:14 | the user's avatar, even an empty one, and "🪴" only when it is missing |
| ProfilePage.Xp | src/Aks/ProfilePage.jsx:15 | the user's XP, or 0 when it is missing |
| ProfilePage.You | src/Aks/ProfilePage.jsx:43 | the user's row has those fallbacks and level 1 |
| ProfilePage.Adopt | src/Aks/ProfilePage.jsx:46 | rows with the user's name take the user's avatar and the larger XP, and others are unchanged |
| ProfilePage.Merge | src/Aks/ProfilePage.jsx:42-48 | with a same-name row the result is Adopt: the length is kept and only the rows with the user's name change, each taking the user's avatar and the larger XP; otherwise the user is put first; the user's name is present with their avatar and at least their XP |
| ProfilePage.MergeIdempotent | src/Aks/ProfilePage.jsx:42-48 | merging the user twice is merging once |
| ProfilePage.MergeNeverLowers | src/Aks/ProfilePage.jsx:44-47 | every sample row keeps its name and place, and no row loses XP |
| ProfilePage.Leaderboard | src/Aks/ProfilePage.jsx:42-48 | 5 or 6 rows, one of them the user's name with at least their XP |
| ProfilePage.LeaderboardShape | src/Aks/ProfilePage.jsx:43-47 | a sample player's name is merged in place (5 rows); any other name joins at the top (6 rows) |
| ProfilePage.IsImageLike | src/Aks/ProfilePage.jsx:51 | the avatar starts with "http:", "https:", "data:", "/", "./" or "../" |
| ProfilePage.IsImageLikeMatchesPattern | src/Aks/ProfilePage.jsx:51 | the prefix test agrees with the regular expression read character by character |
| ProfilePage.AvatarKinds | src/Aks/ProfilePage.jsx:51 | the fallback and sample emoji are drawn as emoji, web links and paths as images, and "", ".avatar" and "..." are not images |
| EcoAssistant.Mentions | src/EcoAssistant.jsx:233-243 | a keyword list's case-insensitive test: some keyword occurs in the lower-cased prompt |
| EcoAssistant.DraftEcoReply | src/EcoAssistant.jsx:231-248 | the footprint reply exactly for a footprint keyword, else the travel reply exactly for a travel keyword, else the waste reply exactly for a waste keyword, else the general reply |
| EcoAssistant.ReplyIgnoresCase | src/EcoAssistant.jsx:233 | the reply does not depend on the case of ASCII letters |
| EcoAssistant.KeywordSelectsReply | src/EcoAssistant.jsx:233 | any footprint keyword, in any letter case, anywhere in a prompt selects the footprint reply, whatever surrounds it |
| EcoAssistant.GoalsGetTravelReply | src/EcoAssistant.jsx:238 | "Set weekly goals" gets the travel reply, since "goals" contains "goa" |
| EcoAssistant.GoalsMentionTravel | src/EcoAssistant.jsx:238 | "Set weekly goals" contains the travel keyword "goa" |
| EcoAssistant.GoalsMentionNoFootprint | src/EcoAssistant.jsx:234 | "Set weekly goals" contains none of the footprint keywords |
| EcoAssistant.ChatSession.constructor | src/EcoAssistant.jsx:13-23 | the chat opens with only the greeting, an empty input and no reply pending |
| EcoAssistant.ChatSession.SetInput | src/EcoAssistant.jsx:205 | typing sets the input |
| EcoAssistant.ChatSession.HandleSend | src/EcoAssistant.jsx:42-67 | blank content changes nothing; otherwise exactly one user message with the trimmed content is appended, the input clears, thinking starts and a reply to that content is scheduled; the invariant keeps the greeting first, no message blank and user messages trimmed |
| EcoAssistant.ChatSession.ReplyTimerFires | src/EcoAssistant.jsx:57-66 | the oldest scheduled reply is appended as the assistant's message for its prompt, and thinking stops |
| EcoAssistant.ChatSession.NewChat | src/EcoAssistant.jsx:88 | only the greeting is kept |
| EcoAssistant.PaddedPromptTrims | src/EcoAssistant.jsx:43 | "  Carbon " trims to "Carbon" |
| EcoAssistant.CarbonGetsFootprintReply | src/EcoAssistant.jsx:233 | "Carbon" gets the footprint reply |
| EcoAssistant.SendPadded | src/EcoAssistant.jsx:42-61 | sending a padded typed prompt shows it trimmed, clears the input and awaits one reply |
| EcoAssistant.SendAndReply | src/EcoAssistant.jsx:42-66 | typing and sending a padded prompt gives the greeting, the trimmed prompt and the footprint reply |
| SignUpPage.HasAvatar | src/Aks/SignUpPage.jsx:30 | an avatar is picked and is not "" |
| SignUpPage.NewUser | src/Aks/SignUpPage.jsx:36-42 | the new user has the time stamp as id, the username or "Student" when it is empty, and the form's e-mail, avatar and age |
| SignUpPage.RedirectTarget | src/Aks/SignUpPage.jsx:46 | the remembered non-empty path, else "/home" |
| SignUpPage.Submit | src/Aks/SignUpPage.jsx:23-51 | mismatched passwords alert first; then a missing or empty avatar alerts; sign-up happens exactly when both checks pass, with the new user and a replacing navigation whose state marks the sign-up |
| SignUpPage.SignedUpUserIsComplete | src/Aks/SignUpPage.jsx:36-42 | a signed-up user has a non-empty name (the username, or "Student") and the chosen avatar |
| SignUpPage.MismatchReportedFirst | src/Aks/SignUpPage.jsx:26-33 | mismatched passwords are reported even when no avatar is picked |
| SignUpPage.Auth.constructor | src/AuthContext.jsx:7-10 | the context starts with the stored user, or none |
| SignUpPage.Auth.Login | src/AuthContext.jsx:12-15 | `login` makes that user the signed-in one |
| SignUpPage.HandleSubmit | src/Aks/SignUpPage.jsx:23-51 | a rejected form alerts, does not navigate and leaves the signed-in user alone; an accepted one logs the new user in and navigates |
| HomePage.FromSignup | src/Aks/HomePage.jsx:246 | the navigation state is present and says it comes from sign-up |
| HomePage.FirstPresent | src/Aks/HomePage.jsx:251-252 | `a ?? b ?? c`: the first present value, else c |
| HomePage.Display | src/Aks/HomePage.jsx:250-256 | name and avatar come from the signed-in user, else the sign-up state, else "EcoExplorer" and "🪴"; on arrival from sign-up XP is 10 and badges the star, whatever the user holds; otherwise the user's XP and badges or 0 and none; level as stored or 1 |
| HomePage.DashboardAfterSignup | src/Aks/HomePage.jsx:246-256 | right after a sign-up the dashboard shows the stored name (username or "Student"), the chosen avatar, 10 XP, the star badge and level 1 |
| HomePage.AnonymousDashboard | src/Aks/HomePage.jsx:250-256 | with no user and no sign-up state, the defaults |
| HomePage.Celebration.constructor | src/Aks/HomePage.jsx:258 | confetti is shown at first exactly on arrival from sign-up, with its hide timeout scheduled |
| HomePage.Celebration.HideTimerFires | src/Aks/HomePage.jsx:260-265 | the 5 s timeout hides the confetti |

## Left out

- Rendering, CSS, animation, confetti drawing, icons and scrolling are presentational.
- Randomness: `Math.random` draws are nondeterministic choices or parameters, including the memory shuffle, the pollutant id, emoji, position and size, the assistant's message ids, and `Date.now()` as the sign-up id.
- Pollutant positions and sizes are random floats that only affect drawing, so a pollutant is an id and an emoji index.
- Timer delays and real time: each callback is a step, and the model says nothing about when it fires relative to other events. The profile page's clock and streak display are left out.
- Stale closures and the nested updater: the waste-sorting `startGame`, `nextItem` and `getRandomItem` and the nested state update in the pollution clean are modelled with sequential semantics, reading fresh state. The page does not, with two visible consequences the model does not show (both read from React's documented semantics):
  - Waste sorting: "Play Again" (src/Aks/WasteSortingGame.jsx:124) calls `startGame`, whose `nextItem` still sees that render's `itemsSorted` of 10 (src/Aks/WasteSortingGame.jsx:62-66). The first click therefore sets `gameOver` again and shows the game-over screen with 0 XP; only a second click starts a round.
  - Pollution cleanup: the outer `setScore` updater (src/Aks/PollutionCleanUp.jsx:65-76) returns `nextScore`, which only the inner `setCombo` updater assigns. React queues that inner updater instead of running it first, so the page's score can become `undefined` from the first clean on. The model scores 5 + 2·combo per clean, as the code evidently intends.
- Item names, emoji, facts, question texts and option labels are left out, as are the avatar colour, the lesson texts and XP labels, and the achievements. They are display data; what the logic uses (ids, bins, option counts, answers, scores) is kept.
- Feedback strings of the waste-sorting game, and the trivia progress percentage, are display text.
- SignUpPage.Submit: the browser's own form validation is left out. The inputs are `required` and the email field is `type="email"` (src/Aks/SignUpPage.jsx:106-147), so the browser refuses to submit an empty field or a malformed email; the model submits any text and checks only the passwords and the avatar.
- Local storage in the authentication context is left out; `SignUpPage.Auth` holds only the signed-in user, and `logout` is not modelled.
- The memory game's `onGameComplete` callback is a counter of calls (`completionsReported`).
- JsText.ToLower: lower-cases only ASCII letters, because Dafny has no Unicode case tables. `toLowerCase` also maps other scripts, so a non-ASCII capital in a leaderboard name or query is compared unchanged here. The mock names and the assistant's keywords are ASCII.
- Leaderboard.JsRem: the negative-dividend case is stated as a range, not as the exact value −((−a) mod b).
- EcoAssistant.ChatSession.NewChat: a reply already on its way still arrives after New chat, as in the page; the model states that and nothing about later ordering.
- The quick-start chips send through `HandleSend(Some(text))`, which also clears the typed input, as the page does.
- `GamesPage`, `PlanetDefender`, `LoginForm`, `LoginPage`, the landing page, the layout and the protected route are not part of this model.

## Findings

| source | as written | input that shows it | evidently intended | confidence | as-written member | corrected member |
|---|---|---|---|---|---|---|
| src/TriviaQuiz.jsx:43-52 | `submit` does not check `locked`, and the Submit button stays enabled while a question is locked, so each click scores the question again and schedules another advance | choose the right answer on question 1 and click Submit twice before 500 ms: score 2 with one question answered; with a wrong answer later, nine right answers finish with score 10 and the flawless reward | a locked question is scored once: submit is ignored while locked | not executed | TriviaQuiz.Quiz.SubmitAsWritten, TriviaQuiz.DoubleSubmitCounterexample, TriviaQuiz.WrongAnswerRewardedCounterexample | TriviaQuiz.Quiz.Submit |
| src/TriviaQuiz.jsx:53-57 | `restart` does not cancel the advance timeout scheduled by a submit, which still fires with the old `current + 1` | submit on question 1, click Change Difficulty within 500 ms, pick a difficulty: the new round opens on question 2 | a restarted round starts at question 1: restart cancels the pending advance | not executed | TriviaQuiz.Quiz.RestartAsWritten, TriviaQuiz.RestartCounterexample | TriviaQuiz.Quiz.Restart |
