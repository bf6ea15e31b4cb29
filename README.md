# A gamified writing assistant and its learning game — a Dafny model

This project models the logic at the heart of the writing assistant: its
typo annotator, its AI engine pipeline, its gateway route, its browser
extension and its client-side state machines, together with the learning
game's gamification engine and handlers. Each core source file becomes one
Dafny module of the same name and shape:

- pure expression code (the typo lookup, the tone map, the path unlock rule,
  the text helpers) becomes functions with lemmas;
- code that changes state step by step becomes classes with `modifies`
  clauses, or methods with loops and invariants:
  - the gamification engine, the narrative consistency tracker and the game
    API handlers;
  - the game session page, the auth context and the dashboard;
  - the chat panel and the typewriter;
  - the enrichment loop, the explanation list and the grammar loop;
  - the extension's de-duplication.

Two shared modules supply the vocabulary:

- `Wrappers` holds `Option` and `Result`.
- `Strings` holds the character classes and the library functions they use:
  - JavaScript's `\s` and `trim()`, and Python's `\s`, `isspace` and `strip()`;
  - regular-expression splits, joins and substring search;
  - ASCII case mapping and decimal printing.

`JsValues` models the JavaScript values the extension and gateway inspect
(truthiness, arrays, objects).

The outputs of language libraries, machine-learning models, the network, the
DOM and the clock are parameters of the model:

- language libraries: spaCy entities, tokenizer sentences, TextBlob words and
  spelling, the textstat score;
- machine-learning models: the NLI cross-encoder's probabilities, the tone
  model's decoded output;
- the network: Groq's verdict, server replies;
- the DOM: bounding boxes;
- the clock: `datetime` as day numbers.

## Model

| member | source | states |
|---|---|---|
| TextEditor.LookupDomain | frontend/src/components/TextEditor.jsx:11-32 | the typo table has an entry for a key iff the key is one of the 20 listed misspellings |
| TextEditor.TableCorrections | frontend/src/components/TextEditor.jsx:11-32 | every correction in the table is a lowercase word that is not itself a key, so a fixed word is never flagged again |
| TextEditor.TokenizeRoundTrip | frontend/src/components/TextEditor.jsx:97 | re-joining the tokens of `value.split(/(\s+)/)` gives back the buffer for every buffer, empty and whitespace-only included; there is an odd number of tokens, whitespace-free at even positions and non-empty whitespace runs at odd ones |
| TextEditor.MatchWord | frontend/src/components/TextEditor.jsx:34 | a match yields a letter-free lead, a non-empty run of letters and apostrophes and a letter-free trail that concatenate to the token |
| TextEditor.MatchWordExact | frontend/src/components/TextEditor.jsx:34 | the pattern matches a token with groups m iff m is a three-group split of it, so the split is unique |
| TextEditor.NoMatchWithoutSingleRun | frontend/src/components/TextEditor.jsx:34 | a token with no letter, or with two letter runs separated by another character, does not match |
| TextEditor.FlaggedExact | frontend/src/components/TextEditor.jsx:36-40 | a token is flagged iff its lowercased core is one of the 20 keys, and the suggestion is that key's entry |
| TextEditor.NeverFlagged | frontend/src/components/TextEditor.jsx:34-40 | whitespace, pure punctuation and hyphenated words such as "hello-world" are never flagged |
| TextEditor.DontFlagged | frontend/src/components/TextEditor.jsx:31-39 | "Dont," is flagged with the correction "don't" (exact match on the lowercased core) |
| TextEditor.NearMissNotFlagged | frontend/src/components/TextEditor.jsx:30-39 | "govermentss", one letter away from a key, is not flagged |
| TextEditor.HyphenatedNotFlagged | frontend/src/components/TextEditor.jsx:34 | "hello-world" is not flagged |
| TextEditor.PlainWordLookup | frontend/src/components/TextEditor.jsx:36-40 | a bare lowercase word is looked up as it stands |
| TextEditor.FlaggedAreWordTokens | frontend/src/components/TextEditor.jsx:97-101 | only word tokens, at even positions of the split, can be flagged |
| TextEditor.ConstructorFlaggedAsWritten | frontend/src/components/TextEditor.jsx:36-40 | looked up on a plain object, the word "constructor" finds an inherited member and is flagged; the corrected own-key lookup does not flag it |
| TextEditor.AsWrittenAgrees | frontend/src/components/TextEditor.jsx:36-40 | apart from the inherited names, the lookup as written and the own-key lookup flag the same tokens with the same entries |
| TextEditor.ErrorCount | frontend/src/components/TextEditor.jsx:100-103 | the error count never exceeds the number of tokens |
| TextEditor.ErrorCountZero | frontend/src/components/TextEditor.jsx:100-103 | the count is zero iff no token is flagged |
| TextEditor.ErrorCountUpdate | frontend/src/components/TextEditor.jsx:100-103 | replacing one token changes the count by that token's flag only |
| TextEditor.CountsRepeats | frontend/src/components/TextEditor.jsx:100-103 | repeats are counted: the same misspelling twice counts twice |
| TextEditor.FixTokenCase | frontend/src/components/TextEditor.jsx:110-117 | the fixed token keeps the original lead and trail; the correction goes in with its first character raised iff the core starts with a capital, verbatim otherwise |
| TextEditor.FixKeepsPunctuation | frontend/src/components/TextEditor.jsx:110-117 | "dont," fixed with "don't" becomes "don't," |
| TextEditor.FixKeepsCapital | frontend/src/components/TextEditor.jsx:112-117 | "Todays" fixed with "today's" becomes "Today's" |
| TextEditor.FixNeedsMatch | frontend/src/components/TextEditor.jsx:110-111 | a token the pattern rejects is never rewritten |
| TextEditor.FixClearsFlag | frontend/src/components/TextEditor.jsx:106-118 | fixing a flagged token with its own suggestion leaves a token that is no longer flagged |
| TextEditor.FixOnlyTarget | frontend/src/components/TextEditor.jsx:108-118 | a fix keeps the text before and after the target token and changes only that token |
| TextEditor.FixRetokenizes | frontend/src/components/TextEditor.jsx:97-118 | with a non-empty whitespace-free correction, splitting the fixed buffer gives back the old tokens with only the target replaced |
| TextEditor.FixLowersCount | frontend/src/components/TextEditor.jsx:100-118 | fixing a flagged token with its own suggestion lowers the buffer's error count by exactly one |
| TextEditor.FirstRows | frontend/src/components/TextEditor.jsx:274-312 | the explanation reduce, for any lookup, trim and case fold: rows in token order with pairwise distinct folded words, every flagged token's word represented, each row from the first flagged occurrence, and no more rows than flagged tokens |
| TextEditor.ExplanationRows | frontend/src/components/TextEditor.jsx:274-312 | one row per distinct lowercased trimmed flagged token (punctuation kept in the key), first occurrence winning, at most errorCount rows |
| TextEditor.TooltipPosition | frontend/src/components/TextEditor.jsx:349-363 | the card's left offset is never negative, never right of the token, and moved to width − 268 when the card would overflow; otherwise it is exactly the token's offset from the container, floored at 0; the card fits whenever the container is wide enough; its top is the token's bottom relative to the container plus 6 |
| TextEditor.Editor.ApplyFix | frontend/src/components/TextEditor.jsx:106-123 | on a matching token the buffer becomes the rejoined tokens with only the target replaced and the card closes; otherwise nothing changes and onChange is not called |
| TextEditor.Editor.Hover | frontend/src/components/TextEditor.jsx:328-363 | only flagged tokens open the card, at the clamped position with the trimmed word and the token's own suggestion; the buffer is unchanged |
| TextEditor.Editor.Leave | frontend/src/components/TextEditor.jsx:364 | leaving a token closes the card and keeps the buffer |
| TextEditor.Editor.ClickToken | frontend/src/components/TextEditor.jsx:344-348 | clicking a flagged token applies its own suggestion and closes the card; clicking any other token changes nothing |
| TextEditor.Editor.FixFromCard | frontend/src/components/TextEditor.jsx:405-406 | the card's button applies the card's correction to the card's token, with the contract of ApplyFix; without an open card nothing changes |
| Gamification.Fresh | attrarva/game_backend/services/gamification.py:27-45 | a new record has 0 XP, level 1, daily streak 1, win streak 0, five hearts, no games and each of the five skills at 10, and satisfies the record bounds and the level formula |
| Gamification.Seeded | attrarva/game_backend/services/gamification.py:7-25 | the seeded default user keeps the record bounds but has 2000 XP at level 1, so the level formula does not hold for it |
| Gamification.Ensured | attrarva/game_backend/services/gamification.py:27-45 | after `_ensure_user` the id is present, an existing record is left untouched, an unknown id gets a fresh record, and no other id changes |
| Gamification.StreakAfter | attrarva/game_backend/services/gamification.py:47-62 | the daily streak grows by one a day after the last activity, resets to 1 after a longer gap, is unchanged on the same day; last_active becomes now and nothing else changes |
| Gamification.StreakSameDayIdempotent | attrarva/game_backend/services/gamification.py:47-62 | checking the streak twice on the same day changes nothing more |
| Gamification.StreakGrowsByDays | attrarva/game_backend/services/gamification.py:47-62 | over any sequence of visits the daily streak grows by at most the number of days elapsed |
| Gamification.WinStreakAfter | attrarva/game_backend/services/gamification.py:64-71 | the win streak grows by one on a win and resets to 0 on a loss; nothing else changes |
| Gamification.AddXpAfter | attrarva/game_backend/services/gamification.py:135-145 | XP moves by delta but never below 0, and afterwards level == xp // 500 + 1 |
| Gamification.LevelMonotone | attrarva/game_backend/services/gamification.py:143 | more XP never means a lower level |
| Gamification.DeductHeartAfter | attrarva/game_backend/services/gamification.py:147-151 | hearts drop by exactly one, floored at 0 |
| Gamification.RefillAfter | attrarva/game_backend/services/gamification.py:166-169 | hearts are set to five and nothing else changes |
| Gamification.FiveFailuresEmpty | attrarva/game_backend/services/gamification.py:147-169 | five deductions empty a full set of hearts, and a refill after a deduction is a plain refill |
| Gamification.RedeemAfter | attrarva/game_backend/services/gamification.py:153-164 | redeeming succeeds iff XP covers the amount; on success the amount is taken and the level recomputed and reported, on failure the record is unchanged and the message is "Insufficient XP balance." |
| Gamification.RedeemSign | attrarva/game_backend/services/gamification.py:158-161 | a non-negative amount never raises the balance, while a negative amount is accepted and raises it |
| Gamification.BaseXp | attrarva/game_backend/services/gamification.py:77-90 | every base award lies between 30 and 120 |
| Gamification.UnknownGameDefaults | attrarva/game_backend/services/gamification.py:90-113 | every game name outside the twelve both tables list gets base 30 and trains Grammar |
| Gamification.Trunc | attrarva/game_backend/services/gamification.py:121 | Python's `int()` on a float truncates toward zero |
| Gamification.Multiplier | attrarva/game_backend/services/gamification.py:116 | the win-streak multiplier is at most 2.0, at least 1.0 for a non-negative streak, and exactly 2.0 from a streak of 10 |
| Gamification.LossAward | attrarva/game_backend/services/gamification.py:128-129 | a loss costs exactly half the base, rounded toward zero, whatever the streak or hint |
| Gamification.WinAwardBounds | attrarva/game_backend/services/gamification.py:120-124 | a win with accuracy at most 1 earns between 0 and twice the base, and a used hint halves the award (truncated) |
| Gamification.AwardMonotoneInStreak | attrarva/game_backend/services/gamification.py:116-124 | a win's award never decreases as the prior win streak grows |
| Gamification.PlayAfter | attrarva/game_backend/services/gamification.py:92-131 | games_played always grows by one, games_won grows iff accuracy >= 0.8, and only the game's skill changes: +5 capped at 100 on a win, −2 floored at 0 on a loss |
| Gamification.UserRows | attrarva/game_backend/services/gamification.py:178-180 | one leaderboard row per user, in insertion order, carrying the user's id, level and XP |
| Gamification.AbsentRivals | attrarva/game_backend/services/gamification.py:196-198 | a rival is added iff no real user has its id |
| Gamification.InsertByXp | attrarva/game_backend/services/gamification.py:200 | inserting into the board keeps its contents plus the new row |
| Gamification.InsertByXpSorted | attrarva/game_backend/services/gamification.py:200 | inserting into an XP-descending board keeps it XP-descending |
| Gamification.SortByXp | attrarva/game_backend/services/gamification.py:200 | the sorted board is a permutation of its input and is XP-descending |
| Gamification.GamificationEngine.EnsureUser | attrarva/game_backend/services/gamification.py:27-45 | the users map becomes Ensured(users, uid), an unknown id is appended to the insertion order, and every record keeps its bounds |
| Gamification.GamificationEngine.UpdateStreak | attrarva/game_backend/services/gamification.py:47-62 | only the user's record changes, as StreakAfter says, and the new streak is returned |
| Gamification.GamificationEngine.UpdateWinStreak | attrarva/game_backend/services/gamification.py:64-71 | only the user's record changes, as WinStreakAfter says, and the new win streak is returned |
| Gamification.GamificationEngine.CalculateXp | attrarva/game_backend/services/gamification.py:73-133 | only the user's counters and one skill change, as PlayAfter says, and the award is computed from the win streak as it stood before the call |
| Gamification.GamificationEngine.AddXp | attrarva/game_backend/services/gamification.py:135-145 | only the user's XP and level change, as AddXpAfter says, and the new XP is returned |
| Gamification.GamificationEngine.DeductHeart | attrarva/game_backend/services/gamification.py:147-151 | only the user's hearts change, as DeductHeartAfter says, and the new count is returned |
| Gamification.GamificationEngine.RedeemXp | attrarva/game_backend/services/gamification.py:153-164 | the user's record and the outcome are those of RedeemAfter |
| Gamification.GamificationEngine.RefillHearts | attrarva/game_backend/services/gamification.py:166-169 | the user's hearts become five and 5 is returned |
| Gamification.GamificationEngine.GetUserStats | attrarva/game_backend/services/gamification.py:171-175 | reading the stats updates the daily streak and returns the updated record |
| Gamification.GamificationEngine.GetLeaderboard | attrarva/game_backend/services/gamification.py:177-201 | the board is every user's row then each unshadowed rival, stably sorted by XP descending and cut to 15 |
| Gamification.AppendAbsent | attrarva/game_backend/services/gamification.py:196-198 | the rival loop appends exactly the rivals no user shadows, in their listed order |
| Gamification.SortRows | attrarva/game_backend/services/gamification.py:200 | the in-place sort yields SortByXp of its input |
| Gamification.LeaderboardShape | attrarva/game_backend/services/gamification.py:177-201 | the leaderboard has at most 15 rows, sorted by XP, each a user's row or a rival no user shadows, and it is exactly min(candidates, 15) long |
| Gamification.LeaderboardIsTop | attrarva/game_backend/services/gamification.py:200-201 | no candidate cut from the board has more XP than a row kept on it |
| GameApi.MissingFieldsDefault | attrarva/game_backend/main.py:60-63 | a verdict with no fields counts as a failure with mastery 0.0 and the fixed default reason |
| GameApi.WinSteps | attrarva/game_backend/main.py:65-69 | the success branch (calculate_xp, add_xp, update_streak) keeps the record bounds |
| GameApi.LossSteps | attrarva/game_backend/main.py:70-77 | the failure branch (deduct_heart, calculate_xp, add_xp, get_user_stats) keeps the record bounds |
| GameApi.VerifyOutcome | attrarva/game_backend/main.py:65-90 | either branch, followed by update_win_streak, keeps the record bounds |
| GameApi.VerifyHearts | attrarva/game_backend/main.py:65-72 | a failed verification deducts one heart (floored at 0) first and reports the hearts left; a success reports the hearts unchanged |
| GameApi.VerifyUsesPriorWinStreak | attrarva/game_backend/main.py:66-79 | the award is computed from the win streak before the answer; the win streak is then bumped on success and reset on failure, and the reply reports the new value |
| GameApi.VerifyCommonSteps | attrarva/game_backend/main.py:65-77 | both branches play the game, add its award to XP (floored at 0) and update the daily streak for today, and the reply reports that streak |
| GameApi.LowMasterySuccessPenalised | attrarva/game_backend/main.py:65-67 | a verdict marked successful with mastery below 0.8 still loses half the base XP and two skill points, is not a game won, and still bumps the win streak |
| GameApi.PlayAndAward | attrarva/game_backend/main.py:66-67 | calculate_xp then add_xp with its award, on the engine |
| GameApi.VerifyWin | attrarva/game_backend/main.py:65-69 | the success branch on the engine changes the user's record as WinSteps says |
| GameApi.VerifyLoss | attrarva/game_backend/main.py:70-77 | the failure branch on the engine changes the user's record as LossSteps says and returns the hearts deduct_heart reported |
| GameApi.VerifyGame | attrarva/game_backend/main.py:49-94 | `/game/verify` leaves every other user alone, and the caller's record and the reply are VerifyOutcome of the verdict; when the AI verifier raises, the answer is a 500 carrying the exception's text and no record changes |
| GameApi.RedeemResponseOf | attrarva/game_backend/main.py:104-113 | the reply succeeds iff the engine redeemed; a refusal carries the engine's message and no new XP or level, a success the amount message, new XP and new level |
| GameApi.RedeemResponseCases | attrarva/game_backend/main.py:101-113 | a redeem succeeds iff the balance covers the amount, reporting the reduced XP and recomputed level; a refusal reports "Insufficient XP balance." and no balance |
| GameApi.RedeemXpHandler | attrarva/game_backend/main.py:101-113 | `/user/redeem-xp` changes only the caller's record, as RedeemAfter says, and replies with RedeemResponseOf |
| GameApi.RefillHeartsHandler | attrarva/game_backend/main.py:96-99 | `/user/refill-hearts` sets the caller's hearts to five and replies 5 |
| GameApi.StatsReadWrites | attrarva/game_backend/main.py:115-117 | reading the stats on another day than the last activity changes the stored record |
| GameApi.StatsHandler | attrarva/game_backend/main.py:115-127 | `/user/stats` updates the daily streak and replies with the updated record |
| Consistency.Detected | attrarva/game_backend/services/consistency.py:27-31 | a location is bound iff the first GPE entity exists and is non-empty, and it is that first entity |
| Consistency.BoundProps | attrarva/game_backend/services/consistency.py:33-49 | after binding, every mentioned person is at the detected location, everyone else keeps their stored place, and nobody else is added |
| Consistency.Report | attrarva/game_backend/services/consistency.py:40-46 | one issue per contradiction, or none when the lowercased text contains "travel", "went" or "moved" |
| Consistency.ClashesIff | attrarva/game_backend/services/consistency.py:36-39 | a person is reported with previous location prev iff they are mentioned and were stored before the chunk at prev, a non-empty location other than the detected one; a repeated mention in the same chunk never clashes again |
| Consistency.ClashesDistinct | attrarva/game_backend/services/consistency.py:33-49 | each person is reported at most once per chunk |
| Consistency.BindPersons | attrarva/game_backend/services/consistency.py:33-49 | the loop over the mentioned persons yields the bound places and exactly the reported contradictions |
| Consistency.NarrativeConsistencyService.TrackAndAnalyze | attrarva/game_backend/services/consistency.py:17-52 | an unknown user starts with no places; without a detected location nothing is stored and no issue is reported; with one, every mentioned person is bound to it and each contradiction is reported unless a transition word occurs; other users' places never change |
| GameSession.BackendNameRenames | frontend/src/games/pages/GameSession.jsx:52-57 | exactly the eight listed route ids are renamed; every other id comes back unchanged |
| GameSession.WordMasterPassesThrough | frontend/src/games/pages/GameSession.jsx:52-57 | "word-master" is not in the table and is sent as it stands |
| GameSession.ToStringIdAsWritten | frontend/src/games/pages/GameSession.jsx:52-80 | indexing the object literal with the route id "toString" yields Object.prototype.toString, so the prompt request carries no game type, the request fails and, with no static prompts for that id, the page leaves for the home screen; the corrected lookup sends the id itself |
| GameSession.BackendNameAgrees | frontend/src/games/pages/GameSession.jsx:52-57 | outside the twelve names every object literal inherits from Object.prototype (`__proto__` and the four accessor helpers among them), the lookup as written and the corrected one agree and the request carries that name |
| GameSession.LoadNextPrompt | frontend/src/games/pages/GameSession.jsx:59-80 | feedback, input, hint display and hint penalty are cleared first; progress, hearts, game over and the submission flag are kept |
| GameSession.BlankCheckIsNoop | frontend/src/games/pages/GameSession.jsx:99-100 | a blank answer sends nothing and changes nothing |
| GameSession.CheckProgress | frontend/src/games/pages/GameSession.jsx:99-117 | a correct answer sets progress to min(progress + 20, 100), anything else keeps it, so it stays in [0, 100]; hearts always come from the reply; a failed request shows the server-error feedback and keeps hearts and progress; the submission flag is always reset |
| GameSession.CheckGameOver | frontend/src/games/pages/GameSession.jsx:111-113 | a check ends the game iff the answer was wrong and the server reports no hearts left, and never revives an ended game |
| GameSession.CheckDisablesCheck | frontend/src/games/pages/GameSession.jsx:311-313 | after an answer is checked the Check button stays disabled until a new prompt clears the feedback |
| GameSession.NextCases | frontend/src/games/pages/GameSession.jsx:119 | handleNext leaves for the games hub at full progress, loads a new prompt while the game is on, and does nothing once it is over |
| GameSession.RefillReopens | frontend/src/games/pages/GameSession.jsx:120 | a successful refill takes the server's hearts, clears game over and starts a fresh prompt, keeping progress; a failed refill request changes nothing, since the handler has no catch |
| GameSession.MountCases | frontend/src/games/pages/GameSession.jsx:44-50 | on mount the hearts become the stored ones when the stats request succeeds and stay as they were when it fails; a prompt is always loaded, clearing feedback, answer and hint penalty and keeping progress and game over |
| GameSession.HintPenaltySticks | frontend/src/games/pages/GameSession.jsx:229-355 | hiding a shown hint or confirming it again never lifts the hint penalty; only a new prompt does |
| GameSession.RunProgress | frontend/src/games/pages/GameSession.jsx:99-120 | over any sequence of user actions progress stays in [0, 100] and never goes down |
| GameSession.InitialValid | frontend/src/games/pages/GameSession.jsx:32-41 | the page starts with progress 0, five hearts and the game on |
| GameSession.GameSessionPage.LoadNext | frontend/src/games/pages/GameSession.jsx:59-80 | the page's state becomes LoadNextPrompt of the old state |
| GameSession.GameSessionPage.HandleCheck | frontend/src/games/pages/GameSession.jsx:99-117 | the page's state becomes Check of the old state and the reply |
| GameSession.GameSessionPage.HandleNext | frontend/src/games/pages/GameSession.jsx:119 | the page's state becomes Next of the old state |
| GameSession.GameSessionPage.Init | frontend/src/games/pages/GameSession.jsx:44-50 | the page's state becomes Mount of the old state, the stats reply and the prompt reply |
| GameSession.GameSessionPage.HandleRefill | frontend/src/games/pages/GameSession.jsx:120 | the page's state becomes Refill of the old state and the server's hearts, or stays as it was when the refill request fails |
| GameSession.GameSessionPage.HandleHintButton | frontend/src/games/pages/GameSession.jsx:229 | the hint button hides a shown hint, otherwise only opens the confirmation |
| GameSession.GameSessionPage.HandleHintConfirm | frontend/src/games/pages/GameSession.jsx:355 | confirming shows the hint and marks it used |
| StoryPath.CurrentLevel | frontend/src/games/pages/StoryPath.jsx:35 | a missing user or level reads as level 1, any other non-zero level as itself |
| StoryPath.NodeRules | frontend/src/games/pages/StoryPath.jsx:49-95 | node i is unlocked iff i <= level − 1 and current iff i == level − 1, so a current node is unlocked; only unlocked nodes navigate, to /games/play/<type>; the "Live AI" badge shows iff the node is unlocked and is neither chest nor trophy |
| StoryPath.OneCurrent | frontend/src/games/pages/StoryPath.jsx:50 | at most one node is current |
| StoryPath.UnlockedPrefix | frontend/src/games/pages/StoryPath.jsx:49 | the unlocked nodes form a prefix of the path |
| StoryPath.DefaultLevelOpensFirst | frontend/src/games/pages/StoryPath.jsx:35-50 | with no level the first node, and only it, is unlocked and current |
| StoryPath.ChestLockedAtStart | frontend/src/games/pages/StoryPath.jsx:7-14 | on the real path with the default level the chest is locked, not current, badgeless and inert |
| AuthContext.Prepend | frontend/src/context/AuthContext.jsx:46 | `[x, ...s].slice(0, cap)`: x first, then the first cap − 1 old entries in order, and the length min(len + 1, cap) |
| AuthContext.ActivityLog | frontend/src/context/AuthContext.jsx:44-49 | addActivity puts the new record first and keeps the newest 100 records in order |
| AuthContext.FreeLimitRefuses | frontend/src/context/AuthContext.jsx:76-80 | on the Free plan with at least 8 sessions, addSession changes nothing: no session and no activity |
| AuthContext.AddSessionPrepends | frontend/src/context/AuthContext.jsx:82-85 | otherwise the session (with its id and timestamp) is prepended, the list is capped at 100, exactly one activity is logged, and user and credits are kept |
| AuthContext.FreeStaysWithinLimit | frontend/src/context/AuthContext.jsx:76-85 | a Free user who starts within the limit never holds more than 8 local sessions, however many are added |
| AuthContext.DeductFloor | frontend/src/context/AuthContext.jsx:109-114 | credits never go negative: a covered deduction is exact, a larger one empties the balance |
| AuthContext.RedeemCases | frontend/src/context/AuthContext.jsx:94-107 | without a user nothing happens; a refused redeem leaves the state and reports the server's message; an accepted one adds xp / 100 × 0.4 credits and keeps user and sessions |
| AuthContext.LoginCases | frontend/src/context/AuthContext.jsx:35-58 | a successful login authenticates the server's user, puts exactly one record, the sign-in under the typed email, in front of the log, keeps the credits, and replaces the sessions with the server's list when it loads (keeping them when that request fails); a failed login changes nothing |
| AuthContext.SignupCases | frontend/src/context/AuthContext.jsx:60-66 | a successful signup authenticates the server's user, logs the new account in front of the log and keeps sessions and credits; a failed one changes nothing |
| AuthContext.LogoutClears | frontend/src/context/AuthContext.jsx:68-73 | logout signs out and empties the sessions, and logs an activity iff the user had an email |
| AuthContext.AuthStore.IsAuthenticated | frontend/src/context/AuthContext.jsx:122 | authenticated iff a user is signed in |
| AuthContext.AuthStore.AddActivity | frontend/src/context/AuthContext.jsx:44-49 | the store's state becomes WithActivity of the old state |
| AuthContext.AuthStore.AddSession | frontend/src/context/AuthContext.jsx:75-86 | the store's state becomes WithSession of the old state |
| AuthContext.AuthStore.Login | frontend/src/context/AuthContext.jsx:51-58 | the store's state becomes LoggedInState of the old state, the server's user and the loaded sessions |
| AuthContext.AuthStore.Signup | frontend/src/context/AuthContext.jsx:60-66 | the store's state becomes SignedUpState of the old state and the server's user |
| AuthContext.AuthStore.Logout | frontend/src/context/AuthContext.jsx:68-73 | the store's state becomes LoggedOutState of the old state |
| AuthContext.AuthStore.DeductCredits | frontend/src/context/AuthContext.jsx:109-114 | the store's state becomes Deducted of the old state |
| AuthContext.AuthStore.RedeemCredits | frontend/src/context/AuthContext.jsx:94-107 | the store's state and the result are those of Redeemed |
| AuthContext.AuthStore.UpdatePlan | frontend/src/context/AuthContext.jsx:88-92 | the server's user replaces the signed-in one, and nothing happens without a user |
| Dashboard.TitleOfText | frontend/src/pages/Dashboard.jsx:64 | for any text that passes the blank check, the session title is the first six single-space pieces rejoined, which is a prefix of the text and never the placeholder |
| Dashboard.DraftFor | frontend/src/pages/Dashboard.jsx:63-67 | the recorded preview is a prefix of the output of at most 160 characters, and the style is the selected one |
| Dashboard.ChoosePlanCases | frontend/src/pages/Dashboard.jsx:73-92 | nothing happens without a user or when a paid plan costs more than the credits; the free plan costs nothing; a covered paid plan deducts exactly its price and logs it before the plan update, and the price stays paid when the update fails; sessions are untouched |
| Dashboard.ChoosePlanKeepsCredits | frontend/src/pages/Dashboard.jsx:75-92 | credits never go negative through a plan purchase |
| Dashboard.CurrentPlanInert | frontend/src/pages/Dashboard.jsx:269-271 | the button of the current plan is disabled, so clicking it changes nothing |
| Dashboard.DashboardPage.HandleAnalyze | frontend/src/pages/Dashboard.jsx:54-71 | a blank text sends nothing and changes nothing; otherwise the reply's output becomes the result and a session titled from the text is added through addSession, a failed request adds nothing, and loading ends off |
| Dashboard.DashboardPage.ChoosePlan | frontend/src/pages/Dashboard.jsx:75-92 | the account state becomes ChosenPlan of the old state |
| ChatPanel.KeepLetters | frontend/src/components/AIChatPanel.jsx:21 | removing every character outside [a-z'] keeps only such characters, all taken from the word, and never lengthens it; a word made only of such characters comes back whole |
| ChatPanel.KeepLettersAppend | frontend/src/components/AIChatPanel.jsx:21 | the removal works piece by piece: cleaning a + b is cleaning a, then cleaning b |
| ChatPanel.KeepLettersChar | frontend/src/components/AIChatPanel.jsx:21 | a single character survives exactly when it is in [a-z'] |
| ChatPanel.CleanedKeeps | frontend/src/components/AIChatPanel.jsx:21 | a piece made only of lower-case letters and apostrophes cleans to itself |
| ChatPanel.ApostropheKept | frontend/src/components/AIChatPanel.jsx:18-22 | "don't" cleans to itself, keeping its apostrophe, and is not a typo |
| ChatPanel.CapitalLowered | frontend/src/components/AIChatPanel.jsx:18-22 | "Dont" is lowered to "dont" and counts as a typo |
| ChatPanel.PunctuationDropped | frontend/src/components/AIChatPanel.jsx:18-22 | "then," loses its comma and counts as "then" |
| ChatPanel.CountTypos | frontend/src/components/AIChatPanel.jsx:19-22 | the typo count never exceeds the number of pieces |
| ChatPanel.CountTyposAppend | frontend/src/components/AIChatPanel.jsx:19-22 | counting is additive over the pieces of the draft |
| ChatPanel.CountOne | frontend/src/components/AIChatPanel.jsx:18-22 | a piece counts iff its lowercased, cleaned form is one of the ten dictionary words; an apostrophe is kept (ApostropheKept, CapitalLowered and PunctuationDropped work the cases out) |
| ChatPanel.BlankDraftScores | frontend/src/components/AIChatPanel.jsx:16-25 | a blank draft has no typos and a quality score of 100 |
| ChatPanel.QualityScore | frontend/src/components/AIChatPanel.jsx:25 | the quality score lies in [35, 100], is 100 without typos and 35 from 10 typos on |
| ChatPanel.QualityMonotone | frontend/src/components/AIChatPanel.jsx:25 | more typos never raise the quality score |
| ChatPanel.TextUpdate | frontend/src/components/AIChatPanel.jsx:42-44 | onTextUpdate is called iff the reply has a non-empty modifiedText, and with that text |
| ChatPanel.SendCases | frontend/src/components/AIChatPanel.jsx:27-54 | a blank input or a send in flight changes nothing; otherwise the trimmed user message is appended, then exactly one assistant message with the given id, holding the reply (prefixed by the update notice when a modified text came back) or the unavailable text on failure; the input is cleared and sending is reset; the draft update is the non-empty modified text |
| ChatPanel.Panel.SendMessage | frontend/src/components/AIChatPanel.jsx:27-54 | the panel's state and the draft update are those of Sent |
| Typewriter.SliceTo | frontend/src/pages/Home.jsx:28 | `s.slice(0, j)` is the first min(j, length) characters of s |
| Typewriter.Ticks | frontend/src/pages/Home.jsx:21-53 | any number of ticks keeps the invariant: phraseIdx names a phrase, charIdx lies in [0, phrase length], and the screen shows the phrase's first charIdx characters |
| Typewriter.TickKeepsValid | frontend/src/pages/Home.jsx:21-53 | a tick keeps that invariant; the phrase changes only on the deleting tick that reaches 0, and then to the next phrase modulo the number of phrases with deleting cleared; a typing tick adds one character, a deleting tick removes one |
| Typewriter.StartDeletingKeepsValid | frontend/src/pages/Home.jsx:32-35 | the pause's callback switches to deleting and keeps the invariant |
| Typewriter.TickSchedule | frontend/src/pages/Home.jsx:30-52 | only the tick that completes the phrase schedules the 1500 ms pause; typing ticks are 110 ms apart, deleting ticks 55 ms, and the gap before the next phrase is 280 ms |
| Typewriter.TypingRun | frontend/src/pages/Home.jsx:25-28 | k typing ticks from position j show the first j + k characters |
| Typewriter.DeletingRun | frontend/src/pages/Home.jsx:38-41 | k deleting ticks, short of the last character, stay on the phrase and show k fewer characters |
| Typewriter.Cycle | frontend/src/pages/Home.jsx:21-53 | from an empty screen, typing a whole phrase shows it, and after the pause deleting it clears the screen and selects the next phrase, wrapping around |
| Typewriter.PhrasesCycle | frontend/src/pages/Home.jsx:8-18 | the three phrases are non-empty and the start state satisfies the invariant |
| Typewriter.TypewriterCycle.TickOnce | frontend/src/pages/Home.jsx:21-53 | the ref's counters, the displayed text and the schedule are those of Tick |
| Typewriter.TypewriterCycle.OnPauseEnd | frontend/src/pages/Home.jsx:32-35 | the pause's callback sets deleting as StartDeleting says |
| AnalyzeRoute.TargetTone | frontend/backend/routes/analyze.js:31-37 | the target tone is always neutral, formal or informal |
| AnalyzeRoute.ToneMapCases | frontend/backend/routes/analyze.js:31-37 | clear maps to neutral, formal and persuasive to formal, creative to informal, and any other style to neutral |
| AnalyzeRoute.ValidationGate | frontend/backend/routes/analyze.js:20-44 | a missing or blank text is answered 400 with no engine call and no session saved; any other text goes to the engine with the style's tone, the style defaulting to clear |
| AnalyzeRoute.EngineFailure | frontend/backend/routes/analyze.js:39-89 | a valid request is a 200 saving exactly one session iff the engine replied and the session was stored; otherwise a 500 saving nothing whose error is "AI Engine error: " and the status text, the request's exception message, or the database's message |
| AnalyzeRoute.CountsMeaning | frontend/backend/routes/analyze.js:27-68 | wordCount counts non-empty whitespace-free words that together are the trimmed text without its whitespace; sentenceCount counts non-empty stretches free of . ! ? that together are the text without them; beforeWords equals wordCount |
| AnalyzeRoute.ResponseMapping | frontend/backend/routes/analyze.js:56-84 | output is modified_text or, when that is missing or empty, the input; the tone is the detected one or the style; explanation and changes default to []; both previews and the stored preview are the first 160 characters |
| AnalyzeRoute.TitleOfWords | frontend/backend/routes/analyze.js:78 | for a text that passes validation the stored title is the first six words joined by single spaces, starting with the first word, so "Untitled session" is never used |
| AnalyzeRoute.SessionStore.HandleAnalyze | frontend/backend/routes/analyze.js:20-91 | the status and body are those of Analyze, and the saved session, if any, is appended to the store |
| ExtensionContent.ReplaceAllAppend | extension/content.js:303-310 | replacing every occurrence of one character distributes over concatenation |
| ExtensionContent.EscapeHtmlAppend | extension/content.js:303-310 | the five-pass escaping distributes over concatenation |
| ExtensionContent.EscapeHtmlChar | extension/content.js:303-310 | on one character the five passes give its entity, and the later passes leave an entity made earlier alone |
| ExtensionContent.EscapeHtmlIsPerChar | extension/content.js:303-310 | the five chained replaceAll passes, ampersand first, equal escaping each character on its own |
| ExtensionContent.EscapedHasNoRaw | extension/content.js:303-310 | the escaped text holds no raw <, >, " or ' |
| ExtensionContent.EscapeRoundTrip | extension/content.js:303-310 | decoding the five entities in the escaped text gives the original text back |
| ExtensionContent.EscapeInjective | extension/content.js:303-310 | two texts that escape to the same HTML are the same text |
| ExtensionContent.DedupeClean | extension/content.js:236-247 | the kept lines are trimmed, non-empty and pairwise distinct |
| ExtensionContent.DedupeMembers | extension/content.js:236-247 | a line is kept iff it is the non-empty trim of some item |
| ExtensionContent.DedupeOfClean | extension/content.js:236-247 | a list that is already trimmed, non-empty and distinct passes through unchanged |
| ExtensionContent.DedupeIdempotent | extension/content.js:236-247 | de-duplicating twice gives the same lines as once |
| ExtensionContent.DedupeTrim | extension/content.js:236-247 | the loop with its seen-set returns the specified de-duplication of the items |
| ExtensionContent.Collected | extension/content.js:210-217 | there is one collected line per explanation entry, or else one per suggestion, or none when the reply has neither array |
| ExtensionContent.CollectExplanations | extension/content.js:210-217 | the collection loop returns the specified collected lines |
| ExtensionContent.NormalizeAnalyzeResponse | extension/content.js:201-234 | the method returns the specified normalised reply |
| ExtensionContent.ExplanationsSource | extension/content.js:201-247 | the panel's explanation lines are clean and are exactly the non-empty trims of the collected lines |
| ExtensionContent.NormalizedCounts | extension/content.js:202-207 | the word and sentence counts are those of the web back end's splits, with the same meaning |
| ExtensionContent.ReplaceButton | extension/content.js:150-198 | "Replace Selection" is offered iff one of modified_text, rewritten_text, rewrite and suggested_text is a non-empty string, and the first such one is the rewrite |
| ExtensionContent.ToneShown | extension/content.js:208 | the tone shown is the first non-empty one of detected_tone, tone and style, else Neutral |
| ExtensionContent.SettingsSanitised | extension/content.js:284-301 | the tone sent is always formal, informal or neutral: a valid stored tone is kept, anything else becomes neutral; an unset or empty base URL or path takes its default |
| ExtensionContent.PopupGuard | extension/content.js:12-23 | a request whose text, or the last selection when it has none, trims to empty is refused with "No selected text." and starts nothing; otherwise the analysis runs on the trimmed text |
| ExtensionContent.RequestUsesSettings | extension/content.js:114-124 | the request goes to the base URL followed by the path, with the settings' tone |
| ExtensionPopup.NormalizePathCases | extension/popup.js:79-83 | a missing or blank path gives the fallback; any other path is trimmed and gets a leading "/" iff it lacks one |
| ExtensionPopup.NormalizedStartsWithSlash | extension/popup.js:79-83 | with a fallback that starts with "/", the normalised path always does |
| ExtensionPopup.NormalizeRooted | extension/popup.js:79-83 | a path that is already trimmed, non-empty and rooted is kept as it is |
| ExtensionPopup.NormalizeIdempotent | extension/popup.js:79-83 | normalising a normalised path changes nothing |
| ExtensionPopup.SaveSanitises | extension/popup.js:26-33 | the saved tone is formal, informal or neutral, a valid one kept and anything else neutral; the saved base URL is the trimmed input or the default when that is blank; the saved path starts with "/" |
| ExtensionPopup.SaveLoadStable | extension/popup.js:9-33 | loading saved settings into the form and saving again writes the same values |
| ExtensionPopup.ContentReadsSaved | extension/popup.js:26-33 | the content script's settings reader returns exactly what the popup saved |
| AnalysisPipeline.FirstMatch | ai_engine/main.py:67 | the index found is that of a correction with the same "before" text and no earlier one has it; none is found only when no correction has it |
| AnalysisPipeline.Enrich | ai_engine/main.py:62-83 | one item per diff change, in order, each keeping the change's type and texts and carrying the reason ReasonFor specifies |
| AnalysisPipeline.ReasonWithoutMatch | ai_engine/main.py:65-78 | without a correction of the same "before" text, a change gets the fixed reason of its type, and another type gets no reason |
| AnalysisPipeline.ReasonFromFirstMatch | ai_engine/main.py:65-78 | the first matching correction's non-empty reason is used; a missing or empty one gives way to the fixed reason of the type, and another type keeps it |
| AnalysisPipeline.DiffChangesHaveReasons | ai_engine/main.py:71-78 | every modification, addition or deletion ends up with a non-empty reason |
| AnalysisPipeline.RunNarrative | ai_engine/main.py:47 | the step's result is the narrative engine's analysis of the request's text, tokenizer answer, entities and model; its score is in [0, 1], and at least 0.5 without the cross-encoder |
| AnalysisPipeline.RunStructure | ai_engine/main.py:48 | the readability score is the library's and the suggestions are the structure engine's |
| AnalysisPipeline.RunTone | ai_engine/main.py:50 | the tone step's result is the tone engine's, whose detected tone is that of the original text |
| AnalysisPipeline.NoModelStatus | ai_engine/main.py:85-90 | a score that is 1.0 or a mean of 0.5s is never below the warning threshold |
| AnalysisPipeline.AnalyzeText | ai_engine/main.py:43-99 | the response carries the tone detected in the original text, the library's readability, the narrative engine's overall score for the text (in [0, 1]) and the corrected text; there is one enriched change per diff change; the explanation is the status or warning line, one line per structure suggestion, the tone line and the change count; without the cross-encoder the first line is always the status line |
| TextUtils.CollapseShape | ai_engine/utils/text_utils.py:14 | collapsing the whitespace runs of a text with words gives the words joined by single spaces, with one space before them or after them exactly where the text starts or ends with whitespace |
| TextUtils.NormalizeIsJoinedWords | ai_engine/utils/text_utils.py:12-14 | the normalised text is the text's whitespace-separated words joined by single spaces |
| TextUtils.NormalizeShape | ai_engine/utils/text_utils.py:12-14 | the normalised text has no leading or trailing whitespace, and each whitespace character in it is one space between two non-space characters |
| TextUtils.WordsOfJoin | ai_engine/utils/text_utils.py:12-14 | splitting words joined by single spaces gives those words back |
| TextUtils.NormalizeIdempotent | ai_engine/utils/text_utils.py:12-14 | normalising twice is normalising once |
| TextUtils.NormalizeKeepsNonSpace | ai_engine/utils/text_utils.py:12-14 | normalising changes only whitespace: deleting the whitespace of the input and of the output gives the same text |
| TextUtils.NextSplit | ai_engine/utils/text_utils.py:34 | the next split point is the first whitespace character after . ! or ? at or after the start position, or the end of the text |
| TextUtils.StripAllAt | ai_engine/utils/text_utils.py:28-34 | each stripped text neither starts nor ends with whitespace, is the original with whitespace-only padding cut from both ends, and is empty exactly when the original is all whitespace |
| TextUtils.SegmentsEnd | ai_engine/utils/text_utils.py:34 | every segment but the last ends with . ! or ? |
| TextUtils.SegmentsUnsplit | ai_engine/utils/text_utils.py:34 | no segment contains a split point, so the text is split exactly after sentence punctuation |
| TextUtils.SegmentsKeepNonSpace | ai_engine/utils/text_utils.py:34 | only whitespace is lost between the text and its segments |
| TextUtils.FallbackSentencesStripped | ai_engine/utils/text_utils.py:34 | every sentence of the fallback is stripped and non-empty |
| TextUtils.SentencesStripped | ai_engine/utils/text_utils.py:17-34 | every sentence is stripped and non-empty, whichever way the text is split; when the tokenizer raises, the fallback's split is used |
| TextUtils.SentencesOfNonBlank | ai_engine/utils/text_utils.py:17-34 | a text that is not blank has at least one sentence |
| StructureEngine.LongOnes | ai_engine/engines/structure_engine.py:35-40 | no more sentences are kept than there are |
| StructureEngine.FindLongSentences | ai_engine/engines/structure_engine.py:35-40 | the loop returns the specified long sentences |
| StructureEngine.LongOnesAppend | ai_engine/engines/structure_engine.py:35-40 | filtering keeps the order: the long sentences of a concatenation are those of each part, in turn |
| StructureEngine.LongOnesMembers | ai_engine/engines/structure_engine.py:35-40 | exactly the sentences with more than the threshold's number of words are kept |
| StructureEngine.GrammarSuggestions | ai_engine/engines/structure_engine.py:42-58 | the nested loop with its early return gives the specified messages |
| StructureEngine.GrammarBound | ai_engine/engines/structure_engine.py:42-58 | there are at most ten messages; they are the first messages of the whole text, all of them when there are fewer than ten; a raising checker gives its one error message |
| StructureEngine.WordFlagsSource | ai_engine/engines/structure_engine.py:48-53 | every message names a word of more than two characters whose correction differs from it ignoring case, together with that correction |
| StructureEngine.NoFlagsNoMessages | ai_engine/engines/structure_engine.py:48-56 | a text none of whose words is flagged gives no messages |
| StructureEngine.AppendAdvice | ai_engine/engines/structure_engine.py:68-73 | the advice appended in place is the specified suggestions list |
| StructureEngine.AdviceDistinct | ai_engine/engines/structure_engine.py:69-73 | the three advice lines differ from one another |
| StructureEngine.AssembleMeaning | ai_engine/engines/structure_engine.py:68-73 | the grammar messages come first and unchanged; the readability advice follows iff readability is below 50, the split advice iff there are long sentences, and "look good" iff there is nothing else; the list is never empty |
| StructureEngine.Analyze | ai_engine/engines/structure_engine.py:60-79 | the result has the library's readability, the long sentences of the normalised text's sentences with threshold 30, and the suggestions assembled from the grammar messages |
| ExplanationEngine.Hundredths | ai_engine/engines/explanation_engine.py:36-40 | the score in hundredths is within half a hundredth of the score, and never negative for a non-negative score |
| ExplanationEngine.Fixed2Reads | ai_engine/engines/explanation_engine.py:36-40 | the two-decimal rendering of a score is digits, a point and two digits that read back as the score's hundredths, with a minus sign exactly for a negative score |
| ExplanationEngine.Explain | ai_engine/engines/explanation_engine.py:24-55 | there are three lines plus one per structure suggestion: the warning line for a score below 0.5 and the status line otherwise, then each suggestion in order, then the tone line, then the change count |
| ExplanationEngine.WarningIsNotStatus | ai_engine/engines/explanation_engine.py:34-41 | a warning line never equals a status line |
| ExplanationEngine.FirstLine | ai_engine/engines/explanation_engine.py:34-41 | the first line is the warning iff the score is below 0.5 and the status line iff it is not, and it shows the score to two decimals |
| ExplanationEngine.ToneLineCases | ai_engine/engines/explanation_engine.py:47-52 | the tone line is the "no replacements" line iff no replacement was applied, and otherwise ends with the replacements joined by ", " |
| ExplanationEngine.ChangesLineReads | ai_engine/engines/explanation_engine.py:54 | the change count can be read back, as digits, from the last line |
| ToneEngine.MarkerCount | ai_engine/engines/tone_engine.py:80-81 | a marker count never exceeds the number of markers |
| ToneEngine.DetectTone | ai_engine/engines/tone_engine.py:76-87 | the detected tone is formal, informal or neutral |
| ToneEngine.MarkersDistinct | ai_engine/engines/tone_engine.py:78-79 | each marker set holds distinct markers |
| ToneEngine.CountIsFound | ai_engine/engines/tone_engine.py:80-81 | each marker counts once however often it occurs: the count is the number of distinct markers found |
| ToneEngine.DetectToneCases | ai_engine/engines/tone_engine.py:76-87 | the tone is formal iff more formal than informal markers occur in the lowercased text, informal iff the reverse, neutral iff they tie |
| ToneEngine.MarkerInsideWord | ai_engine/engines/tone_engine.py:80-81 | markers are matched as substrings: "they" contains the informal marker "hey" |
| ToneEngine.NormalizeTarget | ai_engine/engines/tone_engine.py:112-115 | the target tone is always formal, informal or neutral |
| ToneEngine.NormalizeTargetCases | ai_engine/engines/tone_engine.py:112-115 | a requested tone that lowercases and strips to one of the three is used, anything else becomes neutral, and a tone already spelled formal, informal or neutral is kept as it is |
| ToneEngine.NormalizeTargetIdempotent | ai_engine/engines/tone_engine.py:112-115 | normalising the target twice is normalising it once |
| ToneEngine.RewriteTone | ai_engine/engines/tone_engine.py:90-108 | a successful rewrite is stripped |
| ToneEngine.AnalyzeCases | ai_engine/engines/tone_engine.py:110-130 | the detected tone is always reported, with one applied-replacement entry; the text comes back unchanged when the model did not load, when inference raises or when the rewrite is blank (then still logged as a model inference), and is otherwise the stripped, non-empty rewrite |
| ToneEngine.AnalyzeSeesNormalTarget | ai_engine/engines/tone_engine.py:112-118 | two requested tones with the same normalised form give the same result |
| NarrativeEngine.GroupEntities | ai_engine/engines/narrative_engine.py:47-54 | the setdefault loop returns the specified grouping |
| NarrativeEngine.Without | ai_engine/engines/narrative_engine.py:50-53 | removing a text keeps exactly the other texts |
| NarrativeEngine.DistinctFirst | ai_engine/engines/narrative_engine.py:50-53 | the texts kept under a label are exactly those that occur, with no repeats |
| NarrativeEngine.DistinctFirstSnoc | ai_engine/engines/narrative_engine.py:50-53 | a new text is appended to its label's list iff it is not listed yet |
| NarrativeEngine.GroupedIsDistinctTexts | ai_engine/engines/narrative_engine.py:47-54 | a label is present iff some entity has it, and it lists the distinct texts of its entities in order of first occurrence |
| NarrativeEngine.GroupedContents | ai_engine/engines/narrative_engine.py:47-54 | a text is listed under a label iff an entity with that label and text was recognised; each list is non-empty and without repeats |
| NarrativeEngine.BuildPairs | ai_engine/engines/narrative_engine.py:69-80 | there is one pair per sentence after the first, made of that sentence's past context and the sentence |
| NarrativeEngine.ContextCovers | ai_engine/engines/narrative_engine.py:76-77 | the past context is the min(i, window) sentences right before sentence i joined by spaces: all earlier sentences once the window reaches back that far, nothing for a window that is not positive, and otherwise a text ending with the previous sentence |
| NarrativeEngine.Clip01 | ai_engine/engines/narrative_engine.py:93 | the clipped value lies in [0, 1] and a value already there is kept |
| NarrativeEngine.LongContextConsistency | ai_engine/engines/narrative_engine.py:56-95 | no scores for fewer than two sentences, otherwise one per later sentence; 0.5 each without a model, otherwise one minus the contradiction probability of (context, sentence), clipped; every score lies in [0, 1] |
| NarrativeEngine.MeanInUnit | ai_engine/engines/narrative_engine.py:106-110 | the mean of scores in [0, 1] lies in [0, 1], so the final clip changes nothing |
| NarrativeEngine.MeanConstant | ai_engine/engines/narrative_engine.py:106 | the mean of equal scores is that score |
| NarrativeEngine.ConsistencyScore | ai_engine/engines/narrative_engine.py:106-110 | the overall score is 1.0 without pairwise scores and their mean otherwise, and lies in [0, 1] |
| NarrativeEngine.NoModelScore | ai_engine/engines/narrative_engine.py:64-65 | without a model a text of two or more sentences scores 0.5 overall |
| NarrativeEngine.Analyze | ai_engine/engines/narrative_engine.py:97-112 | the result groups the recognised entities, has one pairwise score per sentence after the first of the normalised text with a window of 10, and its overall score is their mean, or 1.0 without any, in [0, 1]; it is the result Narrative specifies |
| NarrativeEngine.RelevanceEarlyExits | ai_engine/engines/narrative_engine.py:114-127 | no topic, an empty topic or a blank text is on topic with score 1; otherwise the text has sentences, so the no-sentences exit is never taken; without a model the answer is on topic with score 0.5 and the not-loaded note |
| NarrativeEngine.SuggestionsDiffer | ai_engine/engines/narrative_engine.py:139-142 | the drift suggestion names the topic and differs from the off-track one |
| NarrativeEngine.RelevanceVerdict | ai_engine/engines/narrative_engine.py:123-148 | the score is entailment plus half the neutral probability for (topic, last three sentences); the text is on topic iff the score exceeds 0.4; the drift suggestion comes iff it does not, the off-track one iff the score is in (0.4, 0.6), none iff it is at least 0.6; for probabilities the score lies in [0, 1] |
| NarrativeEngine.RecentEndsWithLast | ai_engine/engines/narrative_engine.py:124 | the recent text ends with the last sentence |

## Left out

- Rendering, the DOM and CSS: the editor's backdrop and highlight markup, the extension's shadow root, trigger and panel, and the selection and range handling of `extension/content.js` (`getBestSelection`, `replaceSelectionWith`), which are browser APIs.
- Pixel geometry: the tooltip clamp takes the hovered word's rectangle and the window size as integers.
- Timers and animation: `setTimeout` and `setInterval` become the next step each tick asks for (Typewriter) or the end of a handler (GameSession).
- The network and storage: `fetch`, axios, MongoDB, `localStorage`, `chrome.storage` and `chrome.runtime` messaging. Their replies are parameters (None for a failed request) and their stores are fields or values.
- Library and model outputs are parameters: spaCy's entities, the NLTK sentence tokenizer, TextBlob's words and corrections, textstat's readability score, the NLI cross-encoder's class probabilities, the LoRA rewriting model, and the Groq verdict.
- The softmax over the cross-encoder's logits: the model receives the probabilities.
- NarrativeEngine.LongContextConsistency: the batch `predict` call is modelled as one call per pair, and the unused `pair_indices` list is dropped.
- Model loading (`_load_model`, `_read_base_model_from_adapter_config`, `_load_spacy_model`, `_load_nli_model`) is reduced to whether a model is present and the text of its load error.
- Floating point: scores are `real`. IEEE rounding of the arithmetic is not modelled.
- ExplanationEngine.Hundredths: rounds the exact real value half to even, where Python rounds the nearest double.
- ChatPanel and JsValues: `Math.round` and `toFixed` are modelled on the exact value.
- Gamification.Trunc: `int()` truncation of the XP award is written out on reals.
- Unicode: `toLowerCase`, `lower()` and `toUpperCase` are modelled on ASCII letters only. The whitespace classes are each language's full `\s` set, spelled out in `Strings` (`JsSpace`, `PySpace`).
- The correction engine and the diff engine (`correction_engine.py`, `diff_engine.py`) are not part of this model. Their results are parameters of AnalysisPipeline.AnalyzeText.
- GameApi.VerifyGame: a verdict whose fields have the wrong type (a non-numeric mastery level, say) raises inside the engine calls after earlier steps changed the record; the model types the verdict's fields, so such partial updates and their 500 are not modelled.
- The HTTP error wrappers: `analyze_text`'s and `live_check`'s `except` returning 500. The `/live-check` route itself is left out, but the `check_relevance` it calls is modelled.
- The gateway's `POST /api/analyze/live` route (`frontend/backend/routes/analyze.js:94-115`) only forwards a request.
- AnalyzeRoute.TargetTone: `toneMap[style]` on a style such as "constructor" would find an inherited member; the model treats every unknown style as neutral.
- `handleFile` and PDF extraction in the editor, which call a PDF library.
- The clock: `datetime.now()` in the gamification engine is a day-number parameter. Record ids and timestamps in the account context are parameters.
- AuthContext's `login` and `signup`: the network calls and the stored token are left out; the server's user (None for a failed request) and the loaded sessions are parameters of AuthContext.AuthStore.Login and AuthContext.AuthStore.Signup.
- AuthContext's bootstrap effect (`apiGetMe` with a stored token, and the activity and credits restored from storage) reads storage and the network only.
- Dashboard.DraftFor: `output.slice(0, 160)` counts UTF-16 code units where the model counts characters, so for text with characters outside the Basic Multilingual Plane the JavaScript preview is shorter and may end in half a surrogate pair.
- AnalyzeRoute.ResponseMapping: the same holds for its `slice(0, 160)` previews and the `.length` checks it makes.
- Races between overlapping asynchronous handlers: each handler runs to completion before the next event.
- GameSession's `getGameConfig` display data and the random choice of a fallback prompt: the prompt picked is the handler's `fallback` parameter.
- The `get_selection` message branch and the popup's selection preview and clipboard action, which only move text between browser APIs.
- The game backend's `/game/prompt` route only relays Groq's prompt.
- The `/leaderboard` route only wraps the rows of GamificationEngine.GetLeaderboard in response records.

## Findings

| source | as written | input that shows it | evidently intended | confidence | as-written member | corrected member |
|---|---|---|---|---|---|---|
| frontend/src/components/TextEditor.jsx:36-40 | `typoMap` is a plain object, so `typoMap[key]` also finds members inherited from `Object.prototype` | the token "constructor" (or "Constructor."): `typoMap["constructor"]` is the Object constructor, which is truthy, so the word is flagged although the table has no entry for it | only the table's own twenty misspellings are flagged | not executed | TextEditor.ConstructorFlaggedAsWritten | TextEditor.AsWrittenAgrees |
| frontend/src/games/pages/GameSession.jsx:52-57 | `getBackendName` indexes an object literal, so an id naming an inherited member yields that member | the route id "toString": the lookup yields `Object.prototype.toString`, a function; `JSON.stringify` drops a function-valued field, so `/game/prompt` receives no `game_type`, its request model (a required `game_type: str`) refuses the request, and the `catch`, which has no static prompts for "toString", navigates to the home page | ids outside the eight renamed games pass through unchanged | not executed | GameSession.ToStringIdAsWritten | GameSession.BackendNameAgrees |

## Behaviour that follows the code

- The editor's suggestions come only from the fixed table in `frontend/src/components/TextEditor.jsx`. Suggestions supplied by the AI engine are described elsewhere in the project but are not merged in that file.
- AnalysisPipeline: a change of a type other than modification, addition or deletion keeps a matched reason even when that reason is empty.
- NarrativeEngine: `check_relevance`'s exit for a text without sentences can never be taken. NarrativeEngine.RelevanceEarlyExits proves this.
- The "Untitled session" fallback can never be taken, either in `Dashboard.jsx` or in `analyze.js`. Dashboard.TitleOfText and AnalyzeRoute.TitleOfWords prove this.
- Gamification: the seeded `default_user` starts with 2000 XP at level 1, which breaks the level formula until its first XP change. Gamification.Seeded states this.
- `redeem_xp` accepts a negative amount, which raises XP. Gamification.RedeemSign states this.
- AuthContext: the Free-plan session cap applies only when the plan is exactly "Free".
