# Guitar chord trainer: a Dafny model of the game logic

This project models the logic of a guitar chord trainer, a single-page app. The models are pure Dafny functions, and lemmas state what the screens and the store promise. The model covers:

- **Profile store** (`UserProfile`, `Leaderboard`). One player's profile holds a nickname, timestamps, unlocked badges, high scores per game and level, and completed-set counters per game and level. Next to it sits the shared leaderboard, which is capped at 50 entries. Each manager method is a function from the store and its arguments to the new store and the method's result.
- **Score hook** (`ScoreSystem`). It holds:
  - a countdown timer;
  - 100 points per correct answer;
  - the session total;
  - the best total, stored as text and read back with `parseInt`.
- **Scale theory** (`ScaleTheory`):
  - the twelve keys and the four interval formulas;
  - scale spelling modulo 12;
  - the diatonic chord tables;
  - the octave numbers the scale screen gives to the notes it plays.
- **Chord data** (`ChordDatabase`, `ChordInfo`):
  - the 57 chord shapes in nine groups;
  - the game patterns derived from them;
  - the 51-entry chord dictionary with its category and search filter.
- **Screens**:
  - `ChordInputRules`: chord input. Mark a chord's positions and check them.
  - `FretboardMatchRules`: fretboard match. Pair diagrams with names.
  - `GameCompletion`: what both games do with the profile when a game ends.
  - `DifficultySelector`: level locks and the manual badge claim.
  - `ProfileView`: completion rate, rank, rankings, top five and share scores.
  - `ProfileSetup`: the nickname form.

Modelling choices:

- Each game screen is a `World`: the screen state, the score hook and the profile store.
- Player actions are `Step`s, guarded by what the screen currently offers (`Enabled`). `Play` runs a sequence of steps.
- Each screen has an invariant that every step preserves.
- The clock is a `nat` or `int` parameter (`now`).
- Random shuffles are parameters, constrained to be permutations of the level's chords (multiset equality).
- Effects and timeouts happen atomically, at the point where the screen schedules them.
- `Wrappers` provides `Option`. `Seqs` provides `Array.prototype.filter` and distinctness. `Text` provides `trim`, ASCII `toLowerCase`, `includes`, `String(n)` and decimal `parseInt`.

Behaviours of the code that the model keeps as written:

- A correct answer scores even after the countdown has run out (`ScoreSystem.CorrectAfterTimeUp`).
- The chord-input status card looks up the badge id `chord-<level>`, which no unlock path ever writes, so the card never shows (`ChordInputRules.StatusBadgeNeverShown`).
- In fretboard match, the "already matched" guards test a bare id or name against keys of the form `id-name`, so they never fire (`FretboardMatchRules.GuardNeverFires`). A matched diagram can always be picked again. Whether a matched name card still answers a click is up to the name-card component, which is not part of this model, so the model takes it as a flag. If the card forwards the click, the pair scores again (`FretboardMatchRules.RematchScoresAgain`). If it does not, the pick does nothing (`FretboardMatchRules.BlockedRematchIgnored`).
- The key picker offers only the twelve keys, and each maps to its own index. Any other key, which no screen produces, falls back to index 0 in the model (`ScaleTheory.KeyIndexInverse`).
- The follow-up claim after any finished game grants the level's badge at once, whatever the five-set counter says (`GameCompletion.FirstCompletionEarnsBadge`).
- The difficulty screen's "all chords completed" test only checks for a positive high score (`DifficultySelector.ClaimGatedByHighScore`).

## Model

| member | source | states |
|---|---|---|
| UserProfile.FindIn | src/components/UserProfileSystem.ts:307 | `find` by id returns a badge exactly when one with that id exists, and it is the first one with that id |
| UserProfile.CatalogIdShape | src/components/UserProfileSystem.ts:38-96 | every catalog badge's id is its game's prefix followed by its level name, and no catalog badge carries an unlock time |
| UserProfile.FretboardBeginnerShape | src/components/UserProfileSystem.ts:40-48 | the first catalog badge has the id of the fretboard game's beginner level |
| UserProfile.FretboardIntermediateShape | src/components/UserProfileSystem.ts:49-57 | the second catalog badge has the id of the fretboard game's intermediate level |
| UserProfile.FretboardAdvancedShape | src/components/UserProfileSystem.ts:58-66 | the third catalog badge has the id of the fretboard game's advanced level |
| UserProfile.InputBeginnerShape | src/components/UserProfileSystem.ts:69-77 | the fourth catalog badge has the id of the chord-input game's beginner level |
| UserProfile.InputIntermediateShape | src/components/UserProfileSystem.ts:78-86 | the fifth catalog badge has the id of the chord-input game's intermediate level |
| UserProfile.InputAdvancedShape | src/components/UserProfileSystem.ts:87-95 | the sixth catalog badge has the id of the chord-input game's advanced level |
| UserProfile.SameBadgeId | src/components/UserProfileSystem.ts:266-268 | the automatic unlock (game key spelling) and the manual claim (badge spelling, line 304) derive the same badge id |
| UserProfile.FoundBadgeMatches | src/components/UserProfileSystem.ts:270 | a derived id found in the catalog names a badge of that very game and level |
| UserProfile.CatalogIndex | src/components/UserProfileSystem.ts:38-96 | each game and level name has a catalog entry of that game and level |
| UserProfile.BadgeIdCatalog | src/components/UserProfileSystem.ts:266-270 | the derived id is in the catalog exactly when the level is one of the three level names |
| UserProfile.LoadProfile | src/components/UserProfileSystem.ts:150-176 | no saved blob gives no profile; saved fields are kept, and a missing table becomes one that reads 0 everywhere |
| UserProfile.MigrateProfile | src/components/UserProfileSystem.ts:114-141 | after migration both tables are present; it reports "needs save" exactly when one was missing, and leaves every other field alone |
| UserProfile.MigrateAfterLoad | src/components/UserProfileSystem.ts:109-112 | a profile that went through loading never needs migrating, and migration is idempotent |
| UserProfile.Initialize | src/components/UserProfileSystem.ts:109-112 | the manager starts with the loaded profile and the saved leaderboard |
| UserProfile.CreateProfile | src/components/UserProfileSystem.ts:184-201 | a fresh profile with the given nickname, both stamps at `now`, no badges, empty high scores, zero counters; the leaderboard is unchanged |
| UserProfile.UpdateLastPlayed | src/components/UserProfileSystem.ts:208-213 | only the last-played stamp changes, and only when there is a profile |
| UserProfile.UpdateHighScore | src/components/UserProfileSystem.ts:215-238 | answers true exactly when the score beats the stored value (missing counts as 0); only that cell can change, and it becomes the maximum |
| UserProfile.IncrementGameProgress | src/components/UserProfileSystem.ts:240-282 | the counter goes up by one; the catalog badge, stamped `now`, is appended and returned exactly when the counter reaches 5 and the id is in the catalog and not held; nothing else changes |
| UserProfile.GetBadgeProgress | src/components/UserProfileSystem.ts:288-293 | the counter capped at 5, and 0 without a profile or a table |
| UserProfile.ClaimBadge | src/components/UserProfileSystem.ts:298-327 | fails without a profile; fails unchanged when the id is held; otherwise appends the stamped catalog badge, or fails with "not found" when the id is not in the catalog |
| UserProfile.SaveScoreEntry | src/components/UserProfileSystem.ts:330-349 | with a profile, the board becomes the old board plus the new entry under the profile's nickname, sorted and capped at 50; without one, nothing changes |
| UserProfile.EntriesOf | src/components/UserProfileSystem.ts:366-369 | exactly the board's entries under that nickname, and no more entries than the board holds |
| UserProfile.EntriesOfOrderAndCount | src/components/UserProfileSystem.ts:367-369 | `filter` keeps the board's order and every repetition of a kept entry: each entry under the nickname occurs as often as on the board, every other entry not at all |
| UserProfile.ExportProfileData | src/components/UserProfileSystem.ts:363-374 | nothing without a profile; otherwise the profile and its own leaderboard entries, in board order, each as often as on the board |
| UserProfile.HighScoreIsRunningMax | src/components/UserProfileSystem.ts:230-236 | over any run of submissions the stored score is the maximum of the initial value and everything submitted, and each answer is true exactly when that score beats all before it |
| UserProfile.HighScoreScenario | src/components/UserProfileSystem.ts:230-236 | submitting 300 and then 250 to a fresh table answers true then false and keeps 300 |
| UserProfile.UnlockIsOneShot | src/components/UserProfileSystem.ts:265-278 | over any run of increments a badge comes back exactly on the call that takes the counter to 5, when the level has a catalog badge not yet held; it is the catalog badge stamped `now` |
| UserProfile.Stamped | src/components/UserProfileSystem.ts:272 | the stamped copy differs from the catalog badge only in its unlock time |
| UserProfile.OneShotCons | src/components/UserProfileSystem.ts:265-278 | one call that unlocks by the rule, followed by a run that obeys the rule, obeys the rule |
| UserProfile.IncrementStep | src/components/UserProfileSystem.ts:259-278 | one increment raises the counter by one, returns a badge exactly when the unlock rule says so, and afterwards the id is held exactly when it was held before or just returned |
| UserProfile.FifthSetUnlocks | src/components/UserProfileSystem.ts:265-278 | from a zero counter on a level with a catalog badge not held, the fifth increment and no other returns the badge |
| UserProfile.AppendBadgeValid | src/components/UserProfileSystem.ts:271-273 | appending a catalog badge whose id is not held keeps the list free of duplicate ids and within the catalog |
| UserProfile.UnlockPathsKeepBadgesValid | src/components/UserProfileSystem.ts:240-327 | neither unlock path ever creates a second badge with the same id or a non-catalog badge |
| UserProfile.IncrementKeepsBadgesValid | src/components/UserProfileSystem.ts:265-278 | the automatic unlock keeps the badge list valid |
| UserProfile.ClaimKeepsBadgesValid | src/components/UserProfileSystem.ts:307-321 | the manual claim keeps the badge list valid |
| UserProfile.ClaimTwice | src/components/UserProfileSystem.ts:307-311 | a second claim after a successful one is refused and changes nothing |
| UserProfile.AtMostSixBadges | src/components/UserProfileSystem.ts:38-96 | a valid badge list holds at most six badges, the size of the catalog |
| UserProfile.ChordLevelNamesExist | src/components/UserProfileSystem.ts:99-103 | every name a level lists is a chord of the database, and a level lists no name twice |
| UserProfile.LevelNamesListed | src/components/UserProfileSystem.ts:99-103 | every level name is one of the database's names |
| UserProfile.BeginnerListed | src/components/UserProfileSystem.ts:100 | the beginner names are database names |
| UserProfile.IntermediateListed | src/components/UserProfileSystem.ts:101 | the intermediate names are database names |
| UserProfile.AdvancedListed | src/components/UserProfileSystem.ts:102 | the advanced names are database names |
| UserProfile.LevelNamesDistinct | src/components/UserProfileSystem.ts:99-103 | no level lists a name twice |
| UserProfile.AdvancedDistinct | src/components/UserProfileSystem.ts:102 | the advanced list has no repeats |
| UserProfile.AdvancedIsExtended | src/components/UserProfileSystem.ts:102 | the advanced list is exactly the database's names from the minor sevenths on, in database order |
| UserProfile.AdvancedGroups | src/components/UserProfileSystem.ts:102 | the advanced list cut at 7, 14, 22, 28 and 32 gives the database's six extended groups |
| UserProfile.BeginnerDistinct | src/components/UserProfileSystem.ts:100 | the beginner list has no repeats |
| UserProfile.IntermediateDistinct | src/components/UserProfileSystem.ts:101 | the intermediate list has no repeats |
| UserProfile.ChordLevelSizes | src/components/UserProfileSystem.ts:99-103 | the levels list 8, 12 and 36 chords |
| Leaderboard.InsertMultiset | src/components/UserProfileSystem.ts:345 | one insertion step of the stable sort adds exactly the inserted entry |
| Leaderboard.InsertSorted | src/components/UserProfileSystem.ts:345 | inserting into a list sorted by descending score keeps it sorted |
| Leaderboard.InsertWithScore | src/components/UserProfileSystem.ts:345 | an inserted entry joins the end of the entries with its own score; entries with other scores are untouched |
| Leaderboard.SortDescCorrect | src/components/UserProfileSystem.ts:345 | the sort by `b.score - a.score` gives a descending, stable permutation of the input |
| Leaderboard.SortDescSorted | src/components/UserProfileSystem.ts:345 | the sorted board is in non-increasing score |
| Leaderboard.SortDescMultiset | src/components/UserProfileSystem.ts:345 | the sorted board is a permutation of the input |
| Leaderboard.SortDescStable | src/components/UserProfileSystem.ts:345 | among equal scores the sort keeps the input order |
| Leaderboard.Take | src/components/UserProfileSystem.ts:346 | `slice(0, n)`: the first n entries, or all of them when there are fewer |
| Leaderboard.AppendCappedFacts | src/components/UserProfileSystem.ts:340-348 | after an append the board is sorted, has at most 50 entries (exactly 50 unless fewer existed), contains only old entries and the new one, and every entry dropped scores no higher than any kept |
| ScoreSystem.GetBestScore | src/components/ScoreSystem.tsx:29-32 | missing or empty stored text reads as 0, other text goes through `parseInt`, and text the hook itself stored with `toString` reads back as the number it wrote |
| ScoreSystem.Init | src/components/ScoreSystem.tsx:20-34 | the hook starts with the full time, inactive, no start time, zero scores and the stored best |
| ScoreSystem.StartTimer | src/components/ScoreSystem.tsx:37-41 | the countdown starts at `now` with the full time and active; the scores are unchanged |
| ScoreSystem.StopTimer | src/components/ScoreSystem.tsx:44-47 | the countdown stops and clears its start; everything else is unchanged |
| ScoreSystem.HandleCorrectAnswer | src/components/ScoreSystem.tsx:50-58 | scores 100 into the current score and the total and deactivates the timer, with no check that the timer was active |
| ScoreSystem.HandleWrongAnswer | src/components/ScoreSystem.tsx:61-65 | the current score becomes 0, the total is kept and the timer is deactivated |
| ScoreSystem.CompleteRound | src/components/ScoreSystem.tsx:68-78 | a final score that beats the best becomes the best and its decimal text is stored; otherwise nothing is stored; the record flag tells which happened |
| ScoreSystem.ResetGame | src/components/ScoreSystem.tsx:81-88 | the hook is back to its starting state, except that the best score survives |
| ScoreSystem.ResetRound | src/components/ScoreSystem.tsx:90-96 | the round restarts with the full time; the total, the best and the record flag survive |
| ScoreSystem.Tick | src/components/ScoreSystem.tsx:99-114 | with the interval running, the time left is the full time less the elapsed time, floored at 0, and reaching 0 deactivates and zeroes the current score; otherwise nothing happens |
| ScoreSystem.StepValid | src/components/ScoreSystem.tsx:37-114 | every hook update keeps the total a multiple of 100, the current score 0 or 100, the time within the countdown and an active timer started |
| ScoreSystem.RunValid | src/components/ScoreSystem.tsx:37-114 | any sequence of updates keeps that invariant |
| ScoreSystem.TotalCountsCorrectAnswers | src/components/ScoreSystem.tsx:50-65 | within one game the total grows by exactly 100 per correct answer |
| ScoreSystem.CompleteRoundRecord | src/components/ScoreSystem.tsx:68-78 | the best never goes down, and a stored record reads back through `parseInt` as the new best |
| ScoreSystem.TimeUp | src/components/ScoreSystem.tsx:102-111 | a countdown is still running, with time left, at any tick before the full time has passed, and is over, with the current score zeroed, from then on |
| ScoreSystem.CorrectAfterTimeUp | src/components/ScoreSystem.tsx:50-58 | after a time-out, a correct answer still adds 100 |
| ScaleTheory.FormulasHeptatonic | src/components/ScaleInfoView.tsx:18-23 | each formula has seven offsets, starting at 0, strictly increasing, all below 12 |
| ScaleTheory.GetKeyIndex | src/components/ScaleInfoView.tsx:31-37 | the key index is a pitch class, 0 to 11 |
| ScaleTheory.KeyIndexInverse | src/components/ScaleInfoView.tsx:13-16 | each of the twelve keys the picker offers (lines 73 and 436) maps to its own position in the key list; in the model any other string maps to 0 |
| ScaleTheory.GetScaleNotes | src/components/ScaleInfoView.tsx:27-29 | one note per offset; a seven-note scale on a pitch class starts on the root's name and names seven different notes |
| ScaleTheory.ScaleNotesPitches | src/components/ScaleInfoView.tsx:27-29 | looking each scale note up in the note order gives the pitch class root plus offset, modulo 12 |
| ScaleTheory.NoteNamesDistinct | src/components/ScaleInfoView.tsx:25 | the twelve note names are distinct |
| ScaleTheory.ScaleNotesFacts | src/components/ScaleInfoView.tsx:27-29 | a scale starts on the root's name and names seven different pitch classes |
| ScaleTheory.ScaleNotePairDistinct | src/components/ScaleInfoView.tsx:27-29 | two degrees of a scale have different names |
| ScaleTheory.PitchClassesDistinct | src/components/ScaleInfoView.tsx:18-23 | two degrees of a heptatonic formula fall on different pitch classes |
| ScaleTheory.GetScaleChords | src/components/ScaleInfoView.tsx:40-69 | seven chords, each on its degree's scale note, whose quality and numeral are the ones stacking the scale's thirds on that degree gives |
| ScaleTheory.ChordTablesTertian | src/components/ScaleInfoView.tsx:41-51 | each quality in the tables is the one that stacking thirds within the scale gives, and each numeral is the one that quality calls for |
| ScaleTheory.NoteIndex | src/components/ScaleInfoView.tsx:108-111 | `indexOf` in the note order is -1 or a pitch class |
| ScaleTheory.NoteIndexSpec | src/components/ScaleInfoView.tsx:108-111 | the index is -1 exactly for strings that are not note names; otherwise it is the name's position |
| ScaleTheory.PitchOfName | src/components/ScaleInfoView.tsx:108-111 | each note name is found at its own position |
| ScaleTheory.GetNoteOctave | src/components/ScaleInfoView.tsx:94-141 | the loop gives the octave of the walk from octave 4: going up, at least 4 and at most 4 plus the index; going down, at most 4 and at least 4 minus the index |
| ScaleTheory.OctaveMonotone | src/components/ScaleInfoView.tsx:102-131 | along the upward walk the octave never falls, and along the downward walk it never rises |
| ScaleTheory.WrapStep | src/components/ScaleInfoView.tsx:115-131 | for notes less than an octave apart, the pitch-class comparison steps the octave exactly when the note crosses a C |
| ScaleTheory.AscendingScaleStep | src/components/ScaleInfoView.tsx:123-131 | one step up a scale raises the octave exactly when the offset crosses 12 semitones |
| ScaleTheory.AscendingOctaveClosedForm | src/components/ScaleInfoView.tsx:94-141 | on an ascending scale each note's octave is 4 plus the number of octaves its offset above C spans |
| ScaleTheory.AscendingScaleOctaves | src/components/ScaleInfoView.tsx:94-141 | an ascending scale's notes are given octaves 4 or 5 |
| ScaleTheory.PlayScaleOctaves | src/components/ScaleInfoView.tsx:167-189 | whole-scale playback plays each note at the octave of the upward walk |
| ScaleTheory.ReversedStep | src/components/ScaleInfoView.tsx:299 | a downward step over the reversed notes is the upward step over the same pair, negated |
| ScaleTheory.DescendingPlaybackClimbs | src/components/ScaleInfoView.tsx:299 | as written, the descending playback in C melodic minor plays A#4, G#5, G6, F7, D#8, D9, C10 |
| ScaleTheory.ClimbingWalk | src/components/ScaleInfoView.tsx:167-189 | the upward walk over the falling C melodic minor notes starts at octave 4, is at 5 on the second note and at 10 on the last |
| ScaleTheory.DescendingDisplaySinks | src/components/ScaleInfoView.tsx:326 | as written, the descending display of C melodic minor gives its last note octave -2 |
| ScaleTheory.DescendingScaleStep | src/components/ScaleInfoView.tsx:115-122 | one step down the reversed scale lowers the octave exactly when the offset crosses 12 |
| ScaleTheory.DescendingPlaybackMirrors | src/components/ScaleInfoView.tsx:299 | the corrected descending playback plays each note at the octave it has on the way up |
| ScaleTheory.MirrorsFrom | src/components/ScaleInfoView.tsx:299 | the mirror property holds from any degree, by induction down the scale |
| ScaleTheory.MirrorStep | src/components/ScaleInfoView.tsx:299 | the mirror property carries over one downward step |
| ScaleTheory.ScaleHeight | src/components/ScaleInfoView.tsx:27-29 | a scale note's height at its upward octave is its offset above C4 |
| ScaleTheory.DescendingPlaybackDescends | src/components/ScaleInfoView.tsx:299 | in the corrected descending playback each note sounds lower than the one before |
| ScaleTheory.DescendingDisplayIntended | src/components/ScaleInfoView.tsx:326 | the corrected descending display gives every note an octave of 4 or 5 |
| ChordDatabase.AllChordsCount | src/components/ChordDatabase.ts:33-424 | the groups hold 7, 7, 7, 7, 7, 8, 6, 4 and 4 chords, 57 in all; the database opens with the major group and closes with the sixth group |
| ChordDatabase.AllChordsUnique | src/components/ChordDatabase.ts:413-424 | no two chords of the database share a name |
| ChordDatabase.AllChordsWellFormed | src/components/ChordDatabase.ts:8-14 | every chord has six fret and six finger slots, frets 0 to 4 where sounded, and an id equal to its name |
| ChordDatabase.PositionsFrom | src/components/ChordDatabase.ts:429-433 | the positions are exactly the fretted slots, string = index + 1, one per string in increasing string order |
| ChordDatabase.PatternPositionsExact | src/components/ChordDatabase.ts:429-433 | a position is in a pattern exactly when its string is pressed at that fret; open and muted strings are left out |
| ChordDatabase.PatternsOf | src/components/ChordDatabase.ts:427-435 | one pattern per chord, in order |
| ChordDatabase.AllChordPatternsFacts | src/components/ChordDatabase.ts:427-435 | 57 patterns, each carrying its chord's name and caption, with positions on strings 1 to 6 and frets 1 to 4, one per string, in string order |
| ChordDatabase.AllNamesCorrect | src/components/ChordDatabase.ts:413-424 | the listed names are the database's names in order, so having a chord of a name is membership in the list |
| ChordDatabase.AllNamesDistinct | src/components/ChordDatabase.ts:413-424 | the 57 names are pairwise distinct |
| ChordDatabase.ExtendedNames | src/components/ChordDatabase.ts:413-424 | the names after the first three groups are the minor-seventh, major-seventh, suspended, diminished, add9 and sixth groups in order |
| ChordInfo.TableCategoriesSelectable | src/components/ChordDatabase.ts:438-1073 | the table has 51 entries, each in a category the picker offers (ChordInfoView.tsx line 27) |
| ChordInfo.FilterChords | src/components/ChordInfoView.tsx:35-40 | an entry is listed exactly when it is in the table, its short or full name contains the lowered term, and its category is the picked one or "all" |
| ChordInfo.EmptySearchShowsAll | src/components/ChordInfoView.tsx:21-22 | on mount (empty search, "all" picked) the whole table is listed, in order |
| ChordInfo.FilterKeepsOrder | src/components/ChordInfoView.tsx:35-40 | the list is a subsequence of the table |
| ChordInfo.FilterIdempotentChords | src/components/ChordInfoView.tsx:35-40 | filtering the list again with the same inputs changes nothing |
| ChordInfo.ToLowerIdempotent | src/components/ChordInfoView.tsx:36-37 | lower-casing twice is lower-casing once |
| ChordInfo.SearchIgnoresCase | src/components/ChordInfoView.tsx:36-37 | a term and its lower-cased form list the same entries |
| ChordInfo.CategoryNarrowsAll | src/components/ChordInfoView.tsx:38 | picking a category lists exactly the entries that "all" lists and that have that category |
| ChordInputRules.LevelPatternsExact | src/components/ChordInputGame.tsx:46-50 | the level's patterns are database patterns named by the level, cover every name it lists, and are well-formed answers |
| ChordInputRules.KeptByName | src/components/ChordInputGame.tsx:48-50 | filtering by a list of names keeps exactly the listed patterns and keeps them well formed |
| ChordInputRules.DealCoversLevel | src/components/ChordInputGame.tsx:53-55 | any shuffle deals every chord the level lists, only those, as many as the level has |
| ChordInputRules.InitializeGame | src/components/ChordInputGame.tsx:53-63 | the shuffled deck, the first chord, empty input, no result and no badge |
| ChordInputRules.Mount | src/components/ChordInputGame.tsx:39 | the screen mounts with a fresh deal and a 15-second score hook; the store is untouched |
| ChordInputRules.Restart | src/components/ChordInputGame.tsx:71-74 | a fresh deal and a reset score hook; the best score and the store survive |
| ChordInputRules.FretClick | src/components/ChordInputGame.tsx:134-156 | ignored while a result is shown; otherwise a first click starts the timer, and the input becomes the other strings' positions plus the clicked one, unless it was fret 0 |
| ChordInputRules.ClickedMembers | src/components/ChordInputGame.tsx:148-153 | after a click the input holds exactly the other strings' positions and the click |
| ChordInputRules.ClickKeepsInputOk | src/components/ChordInputGame.tsx:148-153 | clicks keep the input repeat-free, one position per string, with no open string |
| ChordInputRules.LastClickWins | src/components/ChordInputGame.tsx:148-153 | two clicks on one string leave only the second click's effect |
| ChordInputRules.FilterDistinct | src/components/ChordInputGame.tsx:148 | filtering keeps a repeat-free input repeat-free |
| ChordInputRules.MatchIffSamePositions | src/components/ChordInputGame.tsx:162-167 | the length-plus-containment check accepts exactly the inputs with the same positions as the chord, in any order |
| ChordInputRules.CheckAnswer | src/components/ChordInputGame.tsx:158-177 | shows the result, marks it right exactly when the input matches the current chord, and scores it as right or wrong |
| ChordInputRules.TryAgain | src/components/ChordInputGame.tsx:220-224 | clears the input and the result and keeps the score and the store |
| ChordInputRules.NextChord | src/components/ChordInputGame.tsx:179-218 | before the last chord, moves on with a clear input; on the last, ends the game, closes the round with the total and records the result on the profile |
| ChordInputRules.StatusBadge | src/components/ChordInputGame.tsx:365-373 | the status card shows a badge exactly when the profile holds one with id `chord-<level>` |
| ChordInputRules.ChordPrefixNotInCatalog | src/components/ChordInputGame.tsx:368 | no catalog badge has an id starting with `chord-` |
| ChordInputRules.StatusBadgeNeverShown | src/components/ChordInputGame.tsx:365-373 | with a valid badge list the status card never shows |
| ChordInputRules.FretsOf | src/components/ChordInputGame.tsx:121-124 | the playback fret array always has six slots |
| ChordInputRules.FretsOfSlot | src/components/ChordInputGame.tsx:121-124 | with one position per string, slot j holds the fret of string j + 1, or nothing |
| ChordInputRules.PlaybackFrets | src/components/ChordInputGame.tsx:115-132 | playing a pattern sounds its chord's fretted strings at their frets; its open strings stay silent |
| ChordInputRules.SortedPositionsEqual | src/components/ChordDatabase.ts:429-433 | two position lists in string order with the same members are equal |
| ChordInputRules.PatternRoundTrip | src/components/ChordInputGame.tsx:121-124 | reading the played fret array back as a pattern gives the pattern back |
| ChordInputRules.Enabled | src/components/ChordInputGame.tsx:414-497 | while the game runs on a current chord: fret clicks and the check (with some input) before the result, next after a right answer, retry after a wrong one; the timer always ticks |
| ChordInputRules.Step | src/components/ChordInputGame.tsx:134-224 | an action keeps the level and the deal, and a finished game ignores every action |
| ChordInputRules.StepInv | src/components/ChordInputGame.tsx:134-224 | every offered action keeps the input well formed and the total at 100 per chord answered right, and a finished game ended on its last chord |
| ChordInputRules.PlayInv | src/components/ChordInputGame.tsx:134-224 | any sequence of actions keeps that invariant |
| ChordInputRules.FinishedGameScore | src/components/ChordInputGame.tsx:179-188 | from mount, with no reset in between, a finished game has scored exactly 100 per chord the level lists |
| ChordInputRules.Apply | src/components/ChordInputGame.tsx:354-361 | the reset button is open at any time: a reset with a shuffle of the level starts at the first chord with no input, a zero total, the best score and the store kept; any other move is a game action |
| ChordInputRules.RestartInv | src/components/ChordInputGame.tsx:71-74 | a reset satisfies the screen invariant and deals the level |
| ChordInputRules.ApplyInv | src/components/ChordInputGame.tsx:71-74 | every move, reset included, keeps the invariant and a dealt deck |
| ChordInputRules.SessionInv | src/components/ChordInputGame.tsx:71-74 | any sequence of moves, resets included, keeps the invariant and a dealt deck |
| ChordInputRules.SessionKeepsLevel | src/components/ChordInputGame.tsx:71-74 | no move, reset included, changes the level |
| ChordInputRules.FinishedSessionScore | src/components/ChordInputGame.tsx:179-188 | whatever the player does after mounting, resets included, a finished game has scored exactly 100 per chord the level lists |
| ChordInputRules.PlayKeepsDeck | src/components/ChordInputGame.tsx:134-224 | no action changes the deal or the level |
| ChordInputRules.PatternNames | src/components/ChordInputGame.tsx:48-50 | the names of the patterns, in order |
| ChordInputRules.LevelPatternCount | src/components/ChordInputGame.tsx:46-55 | a level deals exactly as many patterns as it lists names |
| ChordInputRules.LevelPatternNamesDistinct | src/components/ChordInputGame.tsx:48-50 | the dealt patterns have distinct names |
| ChordInputRules.FilterNamesDistinct | src/components/ChordInputGame.tsx:48-50 | filtering patterns with distinct names keeps the names distinct |
| ChordInputRules.AllPatternNamesDistinct | src/components/ChordDatabase.ts:427-435 | the database patterns have distinct names |
| ChordInputRules.LevelPatternNamesCover | src/components/ChordInputGame.tsx:46-50 | the dealt patterns carry exactly the names the level lists |
| ChordInputRules.NamesCover | src/components/ChordInputGame.tsx:48-50 | patterns named from a list, one for each name, carry exactly those names |
| FretboardMatchRules.PatternsOfFilter | src/components/FretboardMatchGame.tsx:40-44 | filtering chords and then taking patterns is taking patterns and then filtering |
| FretboardMatchRules.SameChordsAsInputGame | src/components/FretboardMatchGame.tsx:40-44 | both games deal the same chords for a level, one per name the level lists |
| FretboardMatchRules.LevelChordsOk | src/components/FretboardMatchGame.tsx:40-44 | every level's chords are non-empty, have ids equal to their names, and have distinct names |
| FretboardMatchRules.LevelChordIdsAreNames | src/components/FretboardMatchGame.tsx:40-44 | each dealt chord's id is its name |
| FretboardMatchRules.LevelChordNamesDistinct | src/components/FretboardMatchGame.tsx:40-44 | the dealt chords have distinct names |
| FretboardMatchRules.NamesDistinctFromPatterns | src/components/ChordDatabase.ts:427-435 | chords whose patterns have distinct names have distinct names |
| FretboardMatchRules.InitializeGame | src/components/FretboardMatchGame.tsx:47-59 | the level's chords, the shuffled names, no match, no selection, no result |
| FretboardMatchRules.Mount | src/components/FretboardMatchGame.tsx:33 | the screen mounts with a fresh deal and a 10-second score hook |
| FretboardMatchRules.Restart | src/components/FretboardMatchGame.tsx:115-118 | a fresh deal and a reset score hook; the best score and the store survive |
| FretboardMatchRules.SelectChord | src/components/FretboardMatchGame.tsx:79-95 | ignored when the id itself is a match key; otherwise toggles the diagram selection, and a new pick with no name selected starts the timer |
| FretboardMatchRules.SelectName | src/components/FretboardMatchGame.tsx:97-113 | the same toggle for name cards |
| FretboardMatchRules.SelectChordToggles | src/components/FretboardMatchGame.tsx:81 | picking a diagram twice selects and then clears it, and the second pick does not restart the timer |
| FretboardMatchRules.KeyHasDash | src/components/FretboardMatchGame.tsx:155 | every match key contains a `-` |
| FretboardMatchRules.LevelNamesHaveNoDash | src/components/UserProfileSystem.ts:99-103 | no name a level lists contains a `-` |
| FretboardMatchRules.DatabaseNamesHaveNoDash | src/components/ChordDatabase.ts:33-411 | no chord name in the database contains a `-` |
| FretboardMatchRules.FindById | src/components/FretboardMatchGame.tsx:149 | `find` by id returns a dealt chord with that id, or nothing when none has it |
| FretboardMatchRules.ResolvePair | src/components/FretboardMatchGame.tsx:147-169 | with both selected, a right pair scores right and adds the key `id-name`, a wrong pair scores wrong, and both clear the selections; otherwise nothing happens |
| FretboardMatchRules.RightPairIff | src/components/FretboardMatchGame.tsx:149-150 | with playable chords a pair is right exactly when the id and the name belong to the same chord, and the key added is that chord's key |
| FretboardMatchRules.CheckCompletion | src/components/FretboardMatchGame.tsx:171-216 | when the match set is as large as the non-empty deal and the game is not over, it ends the game, closes the round and records the result on the profile; otherwise nothing happens |
| FretboardMatchRules.CompletionFiresOnce | src/components/FretboardMatchGame.tsx:180 | a second completion check changes nothing |
| FretboardMatchRules.MountInv | src/components/FretboardMatchGame.tsx:47-64 | a freshly mounted screen satisfies the invariant |
| FretboardMatchRules.ResolveKeepsKeys | src/components/FretboardMatchGame.tsx:147-169 | the pair check only adds keys of dealt chords and leaves no pair pending |
| FretboardMatchRules.SettleInv | src/components/FretboardMatchGame.tsx:147-216 | the effects after a selection restore the invariant |
| FretboardMatchRules.CompletionInv | src/components/FretboardMatchGame.tsx:171-216 | after a pair check the completion check restores the invariant and keeps the deal and the match set |
| FretboardMatchRules.Settle | src/components/FretboardMatchGame.tsx:147-216 | the effects after a selection keep the deal, add at most one match key, lose none, and leave no pair pending |
| FretboardMatchRules.Enabled | src/components/FretboardMatchGame.tsx:308-336 | the player can pick any dealt diagram and any dealt name card, a matched name card only where the card forwards the click, and the timer always ticks |
| FretboardMatchRules.Step | src/components/FretboardMatchGame.tsx:79-216 | an action keeps the deal and the card behaviour, never loses a match, and never leaves a pair pending that was not |
| FretboardMatchRules.StepInv | src/components/FretboardMatchGame.tsx:79-216 | every action keeps the invariant, keeps the deal and never loses a match |
| FretboardMatchRules.PlayInv | src/components/FretboardMatchGame.tsx:79-216 | any sequence of actions keeps the invariant |
| FretboardMatchRules.KeysOf | src/components/FretboardMatchGame.tsx:155 | the match keys of the chords, in order |
| FretboardMatchRules.KeyInjective | src/components/FretboardMatchGame.tsx:155 | keys `n-n` tell names apart |
| FretboardMatchRules.KeysDistinct | src/components/FretboardMatchGame.tsx:155 | the dealt chords' keys are distinct |
| FretboardMatchRules.CompletedIffAllMatched | src/components/FretboardMatchGame.tsx:174-180 | under the invariant the game is over exactly when every dealt chord's key is matched |
| FretboardMatchRules.MatchCount | src/components/FretboardMatchGame.tsx:174-175 | a match set of dealt keys is never larger than the deal, and is as large exactly when it holds every key |
| FretboardMatchRules.KeysCard | src/components/FretboardMatchGame.tsx:155 | a playable deal has as many distinct keys as chords |
| FretboardMatchRules.KeysListed | src/components/FretboardMatchGame.tsx:155 | a set holds every chord's key exactly when it holds the set of keys |
| FretboardMatchRules.MatchesAmongKeys | src/components/FretboardMatchGame.tsx:155-156 | a match set of dealt keys lies within the set of keys |
| FretboardMatchRules.FinishedGameAllMatched | src/components/FretboardMatchGame.tsx:171-182 | from mount, with no reset in between, the game is over exactly when every dealt chord is matched, and then every name card shows as matched |
| FretboardMatchRules.Apply | src/components/FretboardMatchGame.tsx:245-248 | the reset button is open at any time: a reset with a shuffle of the names clears the matches and the total and deals those names, keeping the best score, the store and the level; any other move is a game action |
| FretboardMatchRules.RestartInv | src/components/FretboardMatchGame.tsx:115-118 | a reset satisfies the screen invariant |
| FretboardMatchRules.ApplyInv | src/components/FretboardMatchGame.tsx:115-118 | every move, reset included, keeps the invariant |
| FretboardMatchRules.SessionInv | src/components/FretboardMatchGame.tsx:115-118 | any sequence of moves, resets included, keeps the invariant |
| FretboardMatchRules.FinishedSessionAllMatched | src/components/FretboardMatchGame.tsx:171-182 | whatever the player does after mounting, resets included, the game is over exactly when every dealt chord is matched, and then every name card shows as matched |
| FretboardMatchRules.NamesShowMatched | src/components/FretboardMatchGame.tsx:323-327 | when every key is matched, every name card's `isMatched` test holds |
| FretboardMatchRules.GuardNeverFires | src/components/FretboardMatchGame.tsx:80 | an id or name without a `-` is never in the match set |
| FretboardMatchRules.RematchScoresAgain | src/components/FretboardMatchGame.tsx:79-169 | where the name card forwards clicks on matched cards, picking a matched chord and its name again scores another 100 and leaves the match set as it was |
| FretboardMatchRules.BlockedRematchIgnored | src/components/FretboardMatchGame.tsx:325-336 | where the name card swallows clicks on matched cards, picking a matched chord's name changes nothing |
| FretboardMatchRules.RepickChord | src/components/FretboardMatchGame.tsx:79-95 | picking a matched diagram with nothing selected just selects it |
| FretboardMatchRules.RepickName | src/components/FretboardMatchGame.tsx:97-169 | with that diagram selected and a name card that forwards the click, picking its name adds another 100 and leaves the match set as it was |
| FretboardMatchRules.ResolveRematch | src/components/FretboardMatchGame.tsx:147-158 | the pair check on a matched chord and its own name adds 100 and leaves the match set as it was |
| GameCompletion.RecordCompletion | src/components/ChordInputGame.tsx:190-211 | with a profile: the high score becomes the maximum and reports a new record exactly when beaten; the board gains the capped, sorted entry; the stamp is `now`; the counter rises by one; the badge returned is the one the counter unlocked. Without a profile nothing happens |
| GameCompletion.CheckAndClaimBadge | src/components/ChordInputGame.tsx:76-101 | nothing when the level's badge is held; otherwise the manager's claim, whose result is shown |
| GameCompletion.FirstCompletionEarnsBadge | src/components/FretboardMatchGame.tsx:186-213 | with a profile, from the very first finished game on, the level's badge is held afterwards, a shown claim succeeds, and the badge list stays valid |
| GameCompletion.RecordKeepsBadgesValid | src/components/ChordInputGame.tsx:195-211 | recording a game keeps the profile and a valid badge list |
| GameCompletion.ClaimAfterRecord | src/components/ChordInputGame.tsx:76-101 | the follow-up check leaves the level's badge held and the list valid, and a claim it shows succeeds |
| DifficultySelector.KeyOf | src/components/DifficultySelector.tsx:26 | the screen's game key corresponds to its badge game |
| DifficultySelector.FindCard | src/components/DifficultySelector.tsx:86 | `find` returns a card with that id, or nothing when none has it |
| DifficultySelector.EveryLevelHasCard | src/components/DifficultySelector.tsx:28-56 | every level has a card, and it lists that level's chords |
| DifficultySelector.DescribedCountsMatch | src/components/DifficultySelector.tsx:32-42 | the "8" and "12" in the first two descriptions are the lengths of those cards' chord lists |
| DifficultySelector.GetHighScore | src/components/DifficultySelector.tsx:60-63 | the card shows the high-score cell the games write for that game and level, 0 when there is none |
| DifficultySelector.GetHighScoreIsRecorded | src/components/DifficultySelector.tsx:60-63 | the card shows the high score the games record |
| DifficultySelector.HasBadge | src/components/DifficultySelector.tsx:65-71 | true exactly when a profile holds a badge with the screen's id for the level |
| DifficultySelector.HasBadgeSameIdAsUnlocks | src/components/DifficultySelector.tsx:67-69 | the screen checks the same id that both unlock paths grant |
| DifficultySelector.IsUnlocked | src/components/DifficultySelector.tsx:73-78 | a level is open exactly when it has no predecessor or the predecessor's badge is held |
| DifficultySelector.NoProfileOnlyBeginner | src/components/DifficultySelector.tsx:73-78 | without a profile only beginner is open |
| DifficultySelector.UnlockedIffPreviousBadge | src/components/DifficultySelector.tsx:73-78 | a level is open exactly when it has no predecessor or the predecessor's badge is held |
| DifficultySelector.SelectLevel | src/components/DifficultySelector.tsx:156-168 | a click selects only the clicked level, and selects it exactly when it has no previous level or the previous level's badge is held; so beginner always opens, and without a profile nothing else does |
| DifficultySelector.SelectAfterFinishedGame | src/components/DifficultySelector.tsx:156-168 | after a finished game and its follow-up badge check, clicking the next level's card selects it |
| DifficultySelector.EveryChordDone | src/components/DifficultySelector.tsx:95-100 | the per-chord test ignores the chord: for a non-empty list it is a positive high score |
| DifficultySelector.HandleClaimBadge | src/components/DifficultySelector.tsx:84-121 | without a positive high score nothing changes and no badge is shown; a badge shown is the one the manager's claim returned |
| DifficultySelector.ClaimGatedByHighScore | src/components/DifficultySelector.tsx:84-121 | the manager is asked exactly when the level's high score is positive; otherwise nothing changes and the modal asks to finish the level |
| DifficultySelector.ClaimOutcome | src/components/DifficultySelector.tsx:84-121 | afterwards the badge is held exactly when it was before or a profile exists with a positive high score; the modal shows a badge exactly when one was newly granted |
| DifficultySelector.ClaimBadgeOutcome | src/components/UserProfileSystem.ts:298-327 | after the manager's claim the badge is held exactly when it was before or a profile exists, and a badge comes back exactly when newly granted |
| DifficultySelector.ClaimGrants | src/components/UserProfileSystem.ts:313-324 | a claim for a badge not held, with a profile, succeeds and grants it |
| DifficultySelector.ClaimKeepsBadges | src/components/DifficultySelector.tsx:84-121 | a claim never takes a badge away or locks an open level |
| DifficultySelector.KeepsBadge | src/components/UserProfileSystem.ts:316 | a badge list that only grows keeps every badge |
| DifficultySelector.ClaimOpensNext | src/components/DifficultySelector.tsx:73-121 | with a profile and a positive high score, claiming a level opens the next one |
| DifficultySelector.FinishedGameOpensNext | src/components/DifficultySelector.tsx:73-78 | finishing a level's game, with the follow-up badge check, opens the next level |
| ProfileView.CompletionRate | src/components/ProfileView.tsx:33-35 | the rate is the held share of the six badges, as a percentage rounded to the nearest integer |
| ProfileView.CompletionRateRange | src/components/ProfileView.tsx:33-35 | 0 for no badge, 100 for all six, below 100 otherwise |
| ProfileView.CompletionRateMonotone | src/components/ProfileView.tsx:33-35 | more badges never show a lower rate |
| ProfileView.ProfileRateInRange | src/components/ProfileView.tsx:33-35 | a profile with a valid badge list shows a rate from 0 to 100 |
| ProfileView.SortDescMembers | src/components/ProfileView.tsx:48-50 | sorting keeps the members and the length and orders by descending score |
| ProfileView.SliceMembers | src/components/ProfileView.tsx:48-49 | a slice holds exactly the board's entries of that game type and level |
| ProfileView.FindEntry | src/components/ProfileView.tsx:57-59 | `findIndex` is -1 exactly when no entry matches; otherwise it is the first match |
| ProfileView.MineMembers | src/components/ProfileView.tsx:37-54 | the player's slice entries, found through the two filters, are the board's entries with that nickname, game and level |
| ProfileView.MyRank | src/components/ProfileView.tsx:47-60 | the rank lies between 0 and the number of entries of the slice |
| ProfileView.MyRankFacts | src/components/ProfileView.tsx:47-60 | the rank is 0 exactly when the player has no entry in the slice; otherwise it lies in 1 to the slice size |
| ProfileView.MyRankEntry | src/components/ProfileView.tsx:47-60 | a positive rank points at the player's best entry in the slice, the first of its kind, with every higher score ranked before it |
| ProfileView.PointedEntry | src/components/ProfileView.tsx:57-59 | in a descending list the first found entry matches, no earlier one does, and all higher scores precede it |
| ProfileView.MyBestIsMax | src/components/ProfileView.tsx:52-54 | the head of the player's sorted slice entries is their highest score there |
| ProfileView.LevelTop5 | src/components/ProfileView.tsx:313-316 | at most five entries, the head of the ranked slice |
| ProfileView.LevelTop5Facts | src/components/ProfileView.tsx:313-316 | at most five entries (five unless the slice is smaller), all from the slice, in non-increasing score, with no left-out entry scoring higher than a listed one |
| ProfileView.RankStep | src/components/ProfileView.tsx:39-44 | the entry's key then holds an entry scoring at least as high, the entry itself or the one kept before; every other key is untouched |
| ProfileView.GlobalRankings | src/components/ProfileView.tsx:38-45 | every ranked entry is filed under its own game-level key |
| ProfileView.GlobalRankingsCorrect | src/components/ProfileView.tsx:38-45 | for each game-level key, the rankings hold an entry of that key with the top score, the first such entry on ties, and no other keys |
| ProfileView.RankStepOk | src/components/ProfileView.tsx:39-44 | one reduce step keeps the rankings correct for the longer board |
| ProfileView.RankStepKeys | src/components/ProfileView.tsx:39-44 | after a step the rankings hold exactly the keys seen |
| ProfileView.RankStepMax | src/components/ProfileView.tsx:41-43 | after a step every entry scores no higher than its key's ranked entry |
| ProfileView.RankStepFirst | src/components/ProfileView.tsx:41-43 | after a step each ranked entry is its key's first best |
| ProfileView.FirstBestNew | src/components/ProfileView.tsx:41-43 | an entry that beats every earlier entry of its key is that key's first best |
| ProfileView.FirstBestKept | src/components/ProfileView.tsx:41-43 | a later entry that does not beat the first best leaves it the first best |
| ProfileView.ValuesIn | src/components/ProfileView.tsx:67-69 | `Object.values` in key order |
| ProfileView.ShareScores | src/components/ProfileView.tsx:67-69 | only positive scores are shared |
| ProfileView.ShareScoresFacts | src/components/ProfileView.tsx:67-69 | the shared list holds only positive stored high scores, and every positive stored high score of either game is in it |
| ProfileSetup.Edit | src/components/UserProfileSetup.tsx:54-58 | typing is ignored while loading; otherwise the input takes the typed text, cut to the longest prefix of at most 20 UTF-16 code units, which one more character would exceed |
| ProfileSetup.IsValidNickname | src/components/UserProfileSetup.tsx:28 | a valid nickname has 1 to 20 characters after trimming (2 to 20 code units), and every nickname of 2 to 10 characters after trimming is valid |
| ProfileSetup.ButtonEnabled | src/components/UserProfileSetup.tsx:28 | the button is enabled exactly for a nickname of 2 to 20 UTF-16 code units after trimming, and not while loading (line 68) |
| ProfileSetup.Submit | src/components/UserProfileSetup.tsx:15-19 | a trimmed nickname shorter than 2 code units does nothing; otherwise loading starts and the trimmed nickname is scheduled |
| ProfileSetup.Deliver | src/components/UserProfileSetup.tsx:22-25 | at the end of the pause, the scheduled nickname is handed on and loading stops |
| ProfileSetup.ReachableInitial | src/components/UserProfileSetup.tsx:12-13 | the screen starts in a reachable state |
| ProfileSetup.LengthCapImpliesUpperBound | src/components/UserProfileSetup.tsx:28 | with the 20-code-unit cap, validity reduces to at least 2 code units after trimming |
| ProfileSetup.EmojiNicknameValid | src/components/UserProfileSetup.tsx:17-28 | a single emoji is one character but two code units, so it is a valid nickname and lights up the button |
| ProfileSetup.Apply | src/components/UserProfileSetup.tsx:15-68 | only the end of the pause hands a nickname on, and it is the scheduled one; a press on a disabled button changes nothing |
| ProfileSetup.ApplyReachable | src/components/UserProfileSetup.tsx:15-68 | every user move keeps the screen reachable, and any nickname handed on is valid, already trimmed, and has no white space at either end |
| ProfileSetup.EditReachable | src/components/UserProfileSetup.tsx:54-58 | typing keeps the screen reachable |
| ProfileSetup.PressReachable | src/components/UserProfileSetup.tsx:15-19 | pressing the button keeps the screen reachable |
| ProfileSetup.DeliverFacts | src/components/UserProfileSetup.tsx:22-25 | the hand-over keeps the screen reachable and hands on a valid trimmed nickname |
| ProfileSetup.SubmitCreatesProfile | src/App.tsx:54-55 | pressing an enabled button and waiting out the pause creates a profile under the trimmed nickname with no badges |
| Text.Trim | src/components/UserProfileSetup.tsx:17 | the trimmed string is no longer than the input, neither starts nor ends with white space, and keeps every other character |
| Text.TrimFacts | src/components/UserProfileSetup.tsx:17 | the trimmed string is the slice between a white-space prefix and a white-space suffix, and neither starts nor ends with white space |
| Text.TrimIdempotent | src/components/UserProfileSetup.tsx:23 | trimming twice is trimming once |
| Text.Utf16Length | src/components/UserProfileSetup.tsx:61 | `length` counts UTF-16 code units: at least one and at most two per character |
| Text.CapUtf16 | src/components/UserProfileSetup.tsx:56 | the `maxLength` cut: a prefix within the cap, the whole string when it fits, and no character more would fit |
| Text.Contains | src/components/ChordInfoView.tsx:36-37 | a string only includes what is no longer than itself, and includes each of its prefixes |
| Text.ToLower | src/components/ChordInfoView.tsx:36-37 | lower-casing keeps the length, leaves no upper-case ASCII letter, turns each such letter into its lower-case letter and keeps every other character |
| Text.ParseInt | src/components/ScoreSystem.tsx:31 | gives a number, rather than NaN, exactly when a digit follows the leading white space and one optional sign |
| Text.IntStringRoundTrip | src/components/ScoreSystem.tsx:72 | reading back with `parseInt` what `toString` wrote gives the number back |

## Left out

- Sound: `AudioManager`, note and chord playback timing and the `isPlaying` flags are not modelled. Only the octave and fret computations that feed playback are.
- Rendering: JSX, colours and badge modals are not modelled. Only the values the screens compute and the buttons they enable are.
- Persistence: `localStorage` and JSON are the identity. Dates are a `nat` clock reading.
- Randomness: the `Math.random` shuffles are parameters, constrained to be permutations.
- Timers: `setTimeout` and the 100 ms interval are atomic steps. The model does not cover races between effects, or timers that fire after the screen leaves.
- Sharing: clipboard, download and share-text formatting are left out. The numbers that go into the share text are modelled (`ProfileView.ShareScoresFacts`).
- `getInstance`: the singleton is replaced by passing the store explicitly.
- ProfileSetup.Edit: cuts only between characters. Whether a browser may split a surrogate pair at the 20-unit cap is not modelled, because a Dafny character is a whole code point.
- FretboardMatchRules.Enabled: the name-card component is not part of this model. Whether it forwards a click on a card shown as matched is the fixed flag `matchedNameClicks`, and each rematch lemma states which case it covers.
- ScaleTheory.GetKeyIndex: a key naming an inherited property of every JavaScript object (`toString`, `constructor`, `__proto__`) would make `keyMap[key] || 0` return that property rather than 0. The model returns 0 for it. The twelve-key picker never produces such a key.
- Text.ToLower: covers ASCII letters only. JavaScript lower-cases all of Unicode.
- Text.ParseInt: decimal only. The hex prefix is not modelled.
- ProfileView.ShareScoresFacts: the order of `Object.values` is a parameter (`IsKeyOrder`) rather than derived from insertion history.
- DifficultySelector.GetHighScore: reads a missing game table as 0. The source would throw on a profile whose high-score table lacks the game key, which loading and migration never produce.
- ChordInfo: positions, notes, description and tips are not modelled. Only the name, full name, difficulty and category are.
- ChordInputRules.FretsOf: defined only for strings 1 to 6, the only strings a pattern holds.
- ChordInputRules.CheckAnswer: requires a current chord, as the check button is only rendered while there is one.
- ProfileView.CompletionRate: rounds the exact ratio. The source rounds a floating-point product, which gives the same result for zero to six badges.
- App navigation, the toast messages, the `forceUpdate` counter and `getGameTitle` do not affect the modelled state.

## Findings

| source | as written | input that shows it | evidently intended | confidence | as-written member | corrected member |
|---|---|---|---|---|---|---|
| src/components/ScaleInfoView.tsx:299 | descending playback reverses the notes and runs the upward octave walk, so each falling note is played an octave higher | C melodic minor: plays A#4, G#5, G6, F7, D#8, D9, C10 | the notes descend, each at the octave it has going up | not executed | ScaleTheory.DescendingPlaybackClimbs | ScaleTheory.DescendingPlaybackDescends |
| src/components/ScaleInfoView.tsx:326 | the descending display runs the downward walk over notes listed in ascending order, so the octave drops at every step | C melodic minor descending: the seventh note is given octave -2 | each displayed note keeps its scale octave, 4 or 5 | not executed | ScaleTheory.DescendingDisplaySinks | ScaleTheory.DescendingDisplayIntended |
