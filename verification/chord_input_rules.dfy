/**
 * The chord-input screen: the player is shown a chord name, marks fretted
 * positions on a six-string, four-fret board and checks the input against
 * the chord's pattern. A right answer moves on to the next chord, a wrong
 * one must be cleared and retried; after the last chord the game is over,
 * the profile records the result and the level's badge is checked.
 *
 * Every handler is a pure transition on `World`, the screen's state plus
 * the score hook's state plus the profile store. Sound, rendering and the
 * random deal are left to the caller: the dealt deck is a parameter.
 */
module ChordInputRules {
  import opened Wrappers
  import opened Seqs
  import opened ChordDatabase
  import opened UserProfile
  import ScoreSystem
  import opened GameCompletion

  /** The countdown of this screen, in seconds. */
  const TimerSeconds: nat := 15

  /** The screen's own state. */
  datatype Game = Game(
    level: Level,
    chords: seq<ChordPattern>,
    index: nat,
    input: seq<Position>,
    showResult: bool,
    isCorrect: bool,
    completed: bool,
    newBadge: Option<Badge>,
    isNewHighScore: bool)

  /** The screen, its score hook and the profile store. */
  datatype World = World(game: Game, score: ScoreSystem.ScoreState, store: Store)

  // ------------------------------------------------------------ the deck

  /** The patterns of the database whose name the level lists, in database order. */
  function LevelPatterns(l: Level): seq<ChordPattern> {
    Filter(AllChordPatterns, InLevel(l))
  }

  /** The test of the level filter: the level lists the pattern's name. */
  function InLevel(l: Level): ChordPattern -> bool {
    (p: ChordPattern) => p.name in ChordLevel(l)
  }

  /**
   * The level's patterns are database patterns named by the level, there is
   * one for every name the level lists, and each is a well-formed input
   * target: one position per string, strings 1..6, frets 1..4.
   */
  lemma LevelPatternsExact(l: Level)
    ensures forall k :: 0 <= k < |LevelPatterns(l)| ==>
      LevelPatterns(l)[k] in AllChordPatterns && LevelPatterns(l)[k].name in ChordLevel(l)
    ensures forall n :: n in ChordLevel(l) ==> exists p :: p in LevelPatterns(l) && p.name == n
    ensures forall k :: 0 <= k < |LevelPatterns(l)| ==> Target(LevelPatterns(l)[k].positions)
  {
    var names := ChordLevel(l);
    ChordLevelNamesExist(l);
    AllChordPatternsFacts();
    forall k | 0 <= k < |names|
      ensures exists i :: 0 <= i < |AllChordPatterns| && AllChordPatterns[i].name == names[k]
    {
      var i :| 0 <= i < |AllChords| && AllChords[i].name == names[k];
      assert AllChordPatterns[i].name == names[k];
    }
    assert forall i :: 0 <= i < |AllChordPatterns| ==> Target(AllChordPatterns[i].positions);
    KeptByName(AllChordPatterns, names, InLevel(l));
  }

  /**
   * Keeping the patterns whose name is listed: every kept pattern comes from
   * the list and is named, every listed name that some pattern carries is
   * kept, and well-formed targets stay well-formed.
   */
  lemma KeptByName(s: seq<ChordPattern>, names: seq<string>, keep: ChordPattern -> bool)
    requires forall p :: keep(p) <==> p.name in names
    requires forall k :: 0 <= k < |names| ==> exists i :: 0 <= i < |s| && s[i].name == names[k]
    requires forall i :: 0 <= i < |s| ==> Target(s[i].positions)
    ensures forall k :: 0 <= k < |Filter(s, keep)| ==> Filter(s, keep)[k] in s && Filter(s, keep)[k].name in names
    ensures forall n :: n in names ==> exists p :: p in Filter(s, keep) && p.name == n
    ensures forall k :: 0 <= k < |Filter(s, keep)| ==> Target(Filter(s, keep)[k].positions)
  {
    var ps := Filter(s, keep);
    forall n | n in names ensures exists p :: p in ps && p.name == n {
      var j :| 0 <= j < |names| && names[j] == n;
      var i :| 0 <= i < |s| && s[i].name == n;
      assert s[i] in ps;
    }
    forall k | 0 <= k < |ps| ensures Target(ps[k].positions) {
      var i :| 0 <= i < |s| && s[i] == ps[k];
    }
  }

  /** A chord's positions as an answer can be: one per string, in string order, on strings 1..6, fretted. */
  predicate Target(ps: seq<Position>) {
    && StrictlyByString(ps)
    && forall p :: p in ps ==> 1 <= p.str <= 6 && 1 <= p.fret <= 4
  }

  /** A deal of the level: its patterns in some order (the random shuffle). */
  predicate IsDeal(l: Level, deck: seq<ChordPattern>) {
    multiset(deck) == multiset(LevelPatterns(l))
  }

  /** Every chord the level lists is dealt, and only those. */
  lemma DealCoversLevel(l: Level, deck: seq<ChordPattern>)
    requires IsDeal(l, deck)
    ensures forall n :: n in ChordLevel(l) ==> exists k :: 0 <= k < |deck| && deck[k].name == n
    ensures forall k :: 0 <= k < |deck| ==> deck[k].name in ChordLevel(l) && Target(deck[k].positions)
    ensures |deck| == |LevelPatterns(l)|
  {
    LevelPatternsExact(l);
    forall n | n in ChordLevel(l) ensures exists k :: 0 <= k < |deck| && deck[k].name == n {
      var p :| p in LevelPatterns(l) && p.name == n;
      assert p in multiset(deck);
      var k :| 0 <= k < |deck| && deck[k] == p;
    }
    forall k | 0 <= k < |deck| ensures deck[k].name in ChordLevel(l) && Target(deck[k].positions) {
      assert deck[k] in multiset(LevelPatterns(l));
    }
    assert |multiset(deck)| == |multiset(LevelPatterns(l))|;
  }

  // ------------------------------------------------------------ setup

  /** `initializeGame`: a fresh deal, the first chord, nothing entered. */
  function InitializeGame(l: Level, deck: seq<ChordPattern>): (g: Game)
    requires IsDeal(l, deck)
    ensures g.level == l && g.chords == deck && g.index == 0 && g.input == []
    ensures !g.showResult && !g.isCorrect && !g.completed && g.newBadge.None? && !g.isNewHighScore
  {
    Game(l, deck, 0, [], false, false, false, None, false)
  }

  /** The screen as it mounts: a fresh deal and a fresh 15-second score hook. */
  function Mount(l: Level, deck: seq<ChordPattern>, store: Store, savedBest: Option<string>): (w: World)
    requires IsDeal(l, deck)
    ensures w.game == InitializeGame(l, deck) && w.store == store
    ensures w.score == ScoreSystem.Init(TimerSeconds, savedBest)
  {
    World(InitializeGame(l, deck), ScoreSystem.Init(TimerSeconds, savedBest), store)
  }

  /** `resetGame`: a fresh deal and a fresh score; the best score and the store survive. */
  function Restart(w: World, deck: seq<ChordPattern>): (r: World)
    requires IsDeal(w.game.level, deck)
    ensures r.game == InitializeGame(w.game.level, deck) && r.store == w.store
    ensures r.score == ScoreSystem.ResetGame(w.score)
  {
    World(InitializeGame(w.game.level, deck), ScoreSystem.ResetGame(w.score), w.store)
  }

  // ------------------------------------------------------------ input

  /**
   * A well-kept input: no position twice, at most one position per string,
   * and no open string (fret 0) recorded.
   */
  predicate InputOk(ps: seq<Position>) {
    && Distinct(ps)
    && (forall p, q :: p in ps && q in ps && p.str == q.str ==> p == q)
    && (forall p :: p in ps ==> p.fret > 0)
  }

  /** The input after clicking fret `fret` of string `str`. */
  function Clicked(input: seq<Position>, str: int, fret: int): seq<Position> {
    Filter(input, OtherString(str)) + (if fret > 0 then [Position(str, fret)] else [])
  }

  /** The test of the click filter: a position on another string. */
  function OtherString(str: int): Position -> bool {
    (p: Position) => p.str != str
  }

  /**
   * `handleFretClick`: ignored while a result is shown. Otherwise the first
   * click of an empty input starts the countdown, and the string's previous
   * position is replaced by the clicked one, or just removed for fret 0.
   */
  function FretClick(w: World, str: int, fret: int, now: int): (r: World)
    ensures w.game.showResult ==> r == w
    ensures !w.game.showResult ==>
      && r.game == w.game.(input := r.game.input)
      && r.store == w.store
      && r.score == (if |w.game.input| == 0 then ScoreSystem.StartTimer(w.score, now) else w.score)
      && forall p :: p in r.game.input <==>
           (p in w.game.input && p.str != str) || (fret > 0 && p == Position(str, fret))
  {
    if w.game.showResult then w
    else
      var score := if |w.game.input| == 0 then ScoreSystem.StartTimer(w.score, now) else w.score;
      var input := Clicked(w.game.input, str, fret);
      ClickedMembers(w.game.input, str, fret);
      World(w.game.(input := input), score, w.store)
  }

  /** The click replaces the string's positions by the clicked one, or by nothing for fret 0. */
  lemma ClickedMembers(input: seq<Position>, str: int, fret: int)
    ensures forall p :: p in Clicked(input, str, fret) <==>
      (p in input && p.str != str) || (fret > 0 && p == Position(str, fret))
  {
    var kept := Filter(input, OtherString(str));
    forall p ensures p in kept <==> p in input && p.str != str {
      if p in kept {
        var k :| 0 <= k < |kept| && kept[k] == p;
      }
      if p in input && p.str != str {
        var k :| 0 <= k < |input| && input[k] == p;
      }
    }
  }

  /** A click keeps the input well kept. */
  lemma ClickKeepsInputOk(input: seq<Position>, str: int, fret: int)
    requires InputOk(input)
    ensures InputOk(Clicked(input, str, fret))
  {
    var keep := OtherString(str);
    var kept := Filter(input, keep);
    FilterDistinct(input, keep);
    forall p | p in kept ensures p in input && p.str != str {
      var k :| 0 <= k < |kept| && kept[k] == p;
    }
  }

  /** Clicking the same string twice leaves only the second click's effect. */
  lemma LastClickWins(w: World, str: int, f1: int, f2: int, t1: int, t2: int)
    requires !w.game.showResult
    ensures var r := FretClick(FretClick(w, str, f1, t1), str, f2, t2);
      forall p :: p in r.game.input <==> p in FretClick(w, str, f2, t2).game.input
  {
  }

  /** `Array.prototype.filter` keeps a repetition-free sequence repetition-free. */
  lemma {:induction false} FilterDistinct<T>(s: seq<T>, keep: T -> bool)
    requires Distinct(s)
    ensures Distinct(Filter(s, keep))
    decreases |s|
  {
    if |s| > 0 {
      FilterDistinct(s[1..], keep);
      var rest := Filter(s[1..], keep);
      if keep(s[0]) {
        forall k | 0 <= k < |rest| ensures rest[k] != s[0] {
          assert rest[k] in s[1..];
        }
      }
    }
  }

  // ------------------------------------------------------------ checking

  /**
   * The check of `checkAnswer`: as many positions entered as the chord has,
   * and every position of the chord among them.
   */
  predicate IsMatch(correct: seq<Position>, input: seq<Position>) {
    |correct| == |input| && forall c :: c in correct ==> c in input
  }

  /**
   * For a chord pattern and a well-kept input the check accepts exactly the
   * inputs that hold the same positions as the chord, in any order.
   */
  lemma MatchIffSamePositions(correct: seq<Position>, input: seq<Position>)
    requires StrictlyByString(correct) && InputOk(input)
    ensures IsMatch(correct, input) <==> forall p :: p in correct <==> p in input
  {
    assert Distinct(correct);
    if IsMatch(correct, input) {
      SameElements(correct, input);
    }
    if forall p :: p in correct <==> p in input {
      DistinctCard(correct);
      DistinctCard(input);
      assert Elements(correct) == Elements(input);
    }
  }

  /**
   * `checkAnswer`: shows the result, records whether the input matches the
   * current chord, and scores it as a right or a wrong answer.
   */
  function CheckAnswer(w: World): (r: World)
    requires w.game.index < |w.game.chords|
    ensures r.store == w.store
    ensures r.game == w.game.(showResult := true, isCorrect := r.game.isCorrect)
    ensures r.game.isCorrect <==> IsMatch(w.game.chords[w.game.index].positions, w.game.input)
    ensures r.game.isCorrect ==> r.score == ScoreSystem.HandleCorrectAnswer(w.score).0
    ensures !r.game.isCorrect ==> r.score == ScoreSystem.HandleWrongAnswer(w.score).0
  {
    var isMatch := IsMatch(w.game.chords[w.game.index].positions, w.game.input);
    var score := if isMatch then ScoreSystem.HandleCorrectAnswer(w.score).0
                 else ScoreSystem.HandleWrongAnswer(w.score).0;
    World(w.game.(showResult := true, isCorrect := isMatch), score, w.store)
  }

  /** `tryAgain`: clears the input and the result. */
  function TryAgain(w: World): (r: World)
    ensures r.game.input == [] && !r.game.showResult && !r.game.isCorrect
    ensures r.game == w.game.(input := [], showResult := false, isCorrect := false)
    ensures r.score == w.score && r.store == w.store
  {
    World(w.game.(input := [], showResult := false, isCorrect := false), w.score, w.store)
  }

  // ------------------------------------------------------------ completion

  /**
   * `nextChord`: before the last chord, moves to the next one with a clear
   * input; on the last one, ends the game, closes the score round with the
   * session total and records the result on the profile.
   */
  function NextChord(w: World, now: nat): (r: World)
    ensures w.game.index + 1 < |w.game.chords| ==>
      r == w.(game := w.game.(index := w.game.index + 1, input := [], showResult := false, isCorrect := false))
    ensures w.game.index + 1 >= |w.game.chords| ==>
      var rec := RecordCompletion(w.store, ChordInput, w.game.level, w.score.totalScore, now);
      && r.game.completed
      && r.score == ScoreSystem.CompleteRound(w.score, w.score.totalScore).0
      && r.store == rec.0
      && r.game == w.game.(completed := true,
                           isNewHighScore := if w.store.profile.Some? then rec.1 else w.game.isNewHighScore,
                           newBadge := if rec.2.Some? then rec.2 else w.game.newBadge)
  {
    if w.game.index + 1 < |w.game.chords| then
      w.(game := w.game.(index := w.game.index + 1, input := [], showResult := false, isCorrect := false))
    else
      var score := ScoreSystem.CompleteRound(w.score, w.score.totalScore).0;
      var (st, isNewHigh, badge) := RecordCompletion(w.store, ChordInput, w.game.level, w.score.totalScore, now);
      var game := w.game.(completed := true,
                          isNewHighScore := if w.store.profile.Some? then isNewHigh else w.game.isNewHighScore,
                          newBadge := if badge.Some? then badge else w.game.newBadge);
      World(game, score, st)
  }

  // ------------------------------------------------------------ status card

  /**
   * The badge the status card shows: the profile's badge with id
   * `chord-<level>`, if held.
   */
  function StatusBadge(st: Store, l: Level): (r: Option<Badge>)
    ensures r.Some? ==> st.profile.Some? && r.value in st.profile.value.badges
    ensures r.Some? <==> st.profile.Some? && HasBadgeId(st.profile.value.badges, "chord-" + LevelName(l))
  {
    match st.profile
    case None => None
    case Some(p) => FindIn(p.badges, "chord-" + LevelName(l))
  }

  /** No catalog badge has an id starting with `chord-`. */
  lemma ChordPrefixNotInCatalog(level: string)
    ensures FindBadge("chord-" + level).None?
  {
    var id := "chord-" + level;
    forall i | 0 <= i < |AllBadges| ensures AllBadges[i].id != id {
      CatalogIdShape(i);
      assert AllBadges[i].id[0] != id[0];
    }
  }

  /**
   * The status card never shows: its id `chord-<level>` is not the id either
   * unlock path writes, so no valid badge list holds it.
   */
  lemma StatusBadgeNeverShown(st: Store, l: Level)
    requires BadgesValid(st)
    ensures StatusBadge(st, l).None?
  {
    ChordPrefixNotInCatalog(LevelName(l));
  }

  // ------------------------------------------------------------ chord playback

  /**
   * The fret array the pattern playback builds: six empty slots, then each
   * position in turn writes its fret into slot `string - 1`.
   */
  function FretsOf(ps: seq<Position>): (r: seq<Option<int>>)
    requires forall k :: 0 <= k < |ps| ==> 1 <= ps[k].str <= 6
    ensures |r| == 6
    decreases |ps|
  {
    if |ps| == 0 then [None, None, None, None, None, None]
    else
      var last := ps[|ps| - 1];
      FretsOf(ps[..|ps| - 1])[last.str - 1 := Some(last.fret)]
  }

  /** Strings never repeat along `ps`. */
  predicate UniqueStrings(ps: seq<Position>) {
    forall i, j :: 0 <= i < j < |ps| ==> ps[i].str != ps[j].str
  }

  /** With one position per string, slot `j` holds the fret of string `j + 1`, or nothing. */
  lemma {:induction false} FretsOfSlot(ps: seq<Position>, j: int)
    requires forall k :: 0 <= k < |ps| ==> 1 <= ps[k].str <= 6
    requires UniqueStrings(ps) && 0 <= j < 6
    ensures forall k :: 0 <= k < |ps| && ps[k].str == j + 1 ==> FretsOf(ps)[j] == Some(ps[k].fret)
    ensures (forall k :: 0 <= k < |ps| ==> ps[k].str != j + 1) ==> FretsOf(ps)[j].None?
    decreases |ps|
  {
    if |ps| > 0 {
      var init := ps[..|ps| - 1];
      FretsOfSlot(init, j);
      assert forall k :: 0 <= k < |init| ==> init[k] == ps[k];
    }
  }

  /**
   * Playing a chord's pattern plays its fretted strings at their frets; its
   * open strings (fret 0) are silent, since the pattern does not record them.
   */
  lemma PlaybackFrets(frets: seq<Option<int>>)
    requires |frets| == 6
    ensures var ps := PatternPositions(frets);
      && (forall k :: 0 <= k < |ps| ==> 1 <= ps[k].str <= 6)
      && forall j :: 0 <= j < 6 ==> FretsOf(ps)[j] == (if Fretted(frets[j]) then frets[j] else None)
  {
    var ps := PatternPositions(frets);
    forall j | 0 <= j < 6 ensures FretsOf(ps)[j] == (if Fretted(frets[j]) then frets[j] else None) {
      FretsOfSlot(ps, j);
      if Fretted(frets[j]) {
        assert Position(j + 1, frets[j].value) in ps;
      }
    }
  }

  /** Positions with one per string, in string order, are determined by their set. */
  lemma {:induction false} SortedPositionsEqual(a: seq<Position>, b: seq<Position>)
    requires StrictlyByString(a) && StrictlyByString(b)
    requires forall p :: p in a <==> p in b
    ensures a == b
    decreases |a|
  {
    if |a| > 0 { assert a[0] in b; }
    if |b| > 0 { assert b[0] in a; }
    if |a| > 0 && |b| > 0 {
      assert a[0] in a && b[0] in b;
      var k :| 0 <= k < |b| && b[k] == a[0];
      var m :| 0 <= m < |a| && a[m] == b[0];
      forall p ensures p in a[1..] <==> p in b[1..] {
        assert p in a[1..] <==> p in a && p != a[0];
        assert p in b[1..] <==> p in b && p != b[0];
      }
      SortedPositionsEqual(a[1..], b[1..]);
      assert a == [a[0]] + a[1..] && b == [b[0]] + b[1..];
    }
  }

  /** Reading the played frets back as a pattern gives back the pattern. */
  lemma PatternRoundTrip(ps: seq<Position>)
    requires Target(ps)
    ensures forall k :: 0 <= k < |ps| ==> 1 <= ps[k].str <= 6
    ensures PatternPositions(FretsOf(ps)) == ps
  {
    var frets := FretsOf(ps);
    var back := PatternPositions(frets);
    forall p ensures p in back <==> p in ps {
      PatternPositionsExact(frets, p);
      if 1 <= p.str <= 6 {
        FretsOfSlot(ps, p.str - 1);
      }
      if p in ps {
        var k :| 0 <= k < |ps| && ps[k] == p;
      }
    }
    SortedPositionsEqual(back, ps);
  }

  // ------------------------------------------------------------ a whole game

  /** What the player can do on the screen. */
  datatype Action =
    | Click(str: int, fret: int, at: int)
    | Check
    | Next(when: nat)
    | Retry
    | TickAt(at: int)

  /**
   * Whether the screen offers the action: the chord card is shown only while
   * the game runs; the board and the check button only before a result, the
   * check button only with some input; after a result, "next" only for a
   * right answer and "try again" only for a wrong one. The timer ticks any time.
   */
  predicate Enabled(w: World, a: Action) {
    && !w.game.completed
    && w.game.index < |w.game.chords|
    && match a
       case Click(_, _, _) => !w.game.showResult
       case Check => !w.game.showResult && |w.game.input| > 0
       case Next(_) => w.game.showResult && w.game.isCorrect
       case Retry => w.game.showResult && !w.game.isCorrect
       case TickAt(_) => true
  }

  /** One action; one the screen does not offer changes nothing. */
  function Step(w: World, a: Action): (r: World)
    ensures r.game.level == w.game.level && r.game.chords == w.game.chords
    ensures w.game.completed ==> r == w
  {
    if !Enabled(w, a) then w
    else
      match a
      case Click(s, f, t) => FretClick(w, s, f, t)
      case Check => CheckAnswer(w)
      case Next(t) => NextChord(w, t)
      case Retry => TryAgain(w)
      case TickAt(t) => w.(score := ScoreSystem.Tick(w.score, t))
  }

  function Play(w: World, acts: seq<Action>): World
    decreases |acts|
  {
    if |acts| == 0 then w else Play(Step(w, acts[0]), acts[1..])
  }

  /**
   * The screen's invariant: the input is well kept, a right answer is only
   * recorded with its result shown, the total is 100 per chord answered
   * right, and a finished game ended on its last chord with a right answer.
   */
  predicate Inv(w: World) {
    && InputOk(w.game.input)
    && (w.game.isCorrect ==> w.game.showResult)
    && w.score.totalScore == ScoreSystem.PointsPerCorrect * (w.game.index + if w.game.isCorrect then 1 else 0)
    && (w.game.completed ==> w.game.isCorrect && w.game.index + 1 == |w.game.chords|)
  }

  lemma StepInv(w: World, a: Action)
    requires Inv(w)
    ensures Inv(Step(w, a))
  {
    if Enabled(w, a) && a.Click? {
      ClickKeepsInputOk(w.game.input, a.str, a.fret);
    }
  }

  lemma {:induction false} PlayInv(w: World, acts: seq<Action>)
    requires Inv(w)
    ensures Inv(Play(w, acts))
    decreases |acts|
  {
    if |acts| > 0 {
      StepInv(w, acts[0]);
      PlayInv(Step(w, acts[0]), acts[1..]);
    }
  }

  /**
   * Whatever the player does after the screen mounts, short of a reset, a
   * finished game has scored exactly 100 for every chord of the level: the
   * only way forward is a right answer, and a wrong one can only be retried.
   * `FinishedSessionScore` extends this to plays with resets.
   */
  lemma FinishedGameScore(l: Level, deck: seq<ChordPattern>, store: Store, savedBest: Option<string>,
                          acts: seq<Action>)
    requires IsDeal(l, deck)
    ensures var w := Play(Mount(l, deck, store, savedBest), acts);
      w.game.completed ==>
        w.score.totalScore == ScoreSystem.PointsPerCorrect * |ChordLevel(l)| && |w.game.chords| == |deck|
  {
    var w0 := Mount(l, deck, store, savedBest);
    PlayInv(w0, acts);
    PlayKeepsDeck(w0, acts);
    DealCoversLevel(l, deck);
    LevelPatternCount(l);
  }

  // ------------------------------------------------------------ resets

  /**
   * A move on the whole screen: an action of the game, or `resetGame` with
   * the next shuffle. The header's reset button is always shown, and the
   * badge modal, the completion panel and the result display offer it too,
   * so a reset is open at any time, a finished game included.
   */
  datatype Move = Act(a: Action) | Reset(deck: seq<ChordPattern>)

  /** One move; a reset whose deck is not a deal of the level changes nothing. */
  function Apply(w: World, m: Move): (r: World)
    ensures r.game.level == w.game.level
    ensures m.Reset? && IsDeal(w.game.level, m.deck) ==>
      r.game.index == 0 && r.game.input == [] && !r.game.completed && r.score.totalScore == 0
      && r.store == w.store && r.score.bestScore == w.score.bestScore
  {
    match m
    case Act(a) => Step(w, a)
    case Reset(deck) => if IsDeal(w.game.level, deck) then Restart(w, deck) else w
  }

  function Session(w: World, moves: seq<Move>): World
    decreases |moves|
  {
    if |moves| == 0 then w else Session(Apply(w, moves[0]), moves[1..])
  }

  /** A reset satisfies the invariant, and its deck is a deal of the level. */
  lemma RestartInv(w: World, deck: seq<ChordPattern>)
    requires IsDeal(w.game.level, deck)
    ensures Inv(Restart(w, deck)) && IsDeal(Restart(w, deck).game.level, Restart(w, deck).game.chords)
  {
  }

  /** Every move keeps the invariant and a dealt deck. */
  lemma ApplyInv(w: World, m: Move)
    requires Inv(w) && IsDeal(w.game.level, w.game.chords)
    ensures Inv(Apply(w, m)) && IsDeal(Apply(w, m).game.level, Apply(w, m).game.chords)
  {
    match m
    case Act(a) => StepInv(w, a);
    case Reset(deck) =>
      if IsDeal(w.game.level, deck) {
        RestartInv(w, deck);
      }
  }

  lemma {:induction false} SessionInv(w: World, moves: seq<Move>)
    requires Inv(w) && IsDeal(w.game.level, w.game.chords)
    ensures Inv(Session(w, moves)) && IsDeal(Session(w, moves).game.level, Session(w, moves).game.chords)
    decreases |moves|
  {
    if |moves| > 0 {
      ApplyInv(w, moves[0]);
      SessionInv(Apply(w, moves[0]), moves[1..]);
    }
  }

  /**
   * Whatever the player does after the screen mounts, resets included, a
   * finished game has scored exactly 100 for every chord of the level.
   */
  lemma FinishedSessionScore(l: Level, deck: seq<ChordPattern>, store: Store, savedBest: Option<string>,
                             moves: seq<Move>)
    requires IsDeal(l, deck)
    ensures var w := Session(Mount(l, deck, store, savedBest), moves);
      w.game.level == l &&
      (w.game.completed ==> w.score.totalScore == ScoreSystem.PointsPerCorrect * |ChordLevel(l)|)
  {
    var w0 := Mount(l, deck, store, savedBest);
    SessionInv(w0, moves);
    SessionKeepsLevel(w0, moves);
    var w := Session(w0, moves);
    DealCoversLevel(l, w.game.chords);
    LevelPatternCount(l);
  }

  /** No move changes the level. */
  lemma {:induction false} SessionKeepsLevel(w: World, moves: seq<Move>)
    ensures Session(w, moves).game.level == w.game.level
    decreases |moves|
  {
    if |moves| > 0 {
      SessionKeepsLevel(Apply(w, moves[0]), moves[1..]);
    }
  }

  /** Nothing the player does changes the deal or the level. */
  lemma {:induction false} PlayKeepsDeck(w: World, acts: seq<Action>)
    ensures Play(w, acts).game.chords == w.game.chords && Play(w, acts).game.level == w.game.level
    decreases |acts|
  {
    if |acts| > 0 {
      PlayKeepsDeck(Step(w, acts[0]), acts[1..]);
    }
  }

  /** The names of `ps`, in order. */
  function PatternNames(ps: seq<ChordPattern>): (r: seq<string>)
    ensures |r| == |ps| && forall k :: 0 <= k < |ps| ==> r[k] == ps[k].name
    decreases |ps|
  {
    if |ps| == 0 then [] else [ps[0].name] + PatternNames(ps[1..])
  }

  /** A level deals one pattern per chord name it lists. */
  lemma LevelPatternCount(l: Level)
    ensures |LevelPatterns(l)| == |ChordLevel(l)|
  {
    var pn := PatternNames(LevelPatterns(l));
    var names := ChordLevel(l);
    LevelPatternNamesDistinct(l);
    LevelPatternNamesCover(l);
    LevelNamesDistinct(l);
    assert Distinct(names);
    DistinctCard(pn);
    DistinctCard(names);
    assert Elements(pn) == Elements(names);
  }

  /** The dealt patterns of a level have distinct names. */
  lemma LevelPatternNamesDistinct(l: Level)
    ensures Distinct(PatternNames(LevelPatterns(l)))
  {
    AllPatternNamesDistinct();
    FilterNamesDistinct(AllChordPatterns, InLevel(l));
  }

  /** Keeping some patterns of a list with distinct names keeps the names distinct. */
  lemma FilterNamesDistinct(s: seq<ChordPattern>, keep: ChordPattern -> bool)
    requires forall i, j :: 0 <= i < j < |s| ==> s[i].name != s[j].name
    ensures Distinct(PatternNames(Filter(s, keep)))
  {
    FilterInjective(s, keep, NameOf);
    var pn := PatternNames(Filter(s, keep));
    assert forall i :: 0 <= i < |pn| ==> pn[i] == NameOf(Filter(s, keep)[i]);
  }

  /** The name of a pattern, as a function value. */
  function NameOf(p: ChordPattern): string {
    p.name
  }

  /** The database patterns have distinct names. */
  lemma AllPatternNamesDistinct()
    ensures forall i, j :: 0 <= i < j < |AllChordPatterns| ==> AllChordPatterns[i].name != AllChordPatterns[j].name
  {
    AllChordPatternsFacts();
    AllChordsUnique();
  }

  /** The dealt patterns of a level carry exactly the names the level lists. */
  lemma LevelPatternNamesCover(l: Level)
    ensures forall n :: n in PatternNames(LevelPatterns(l)) <==> n in ChordLevel(l)
  {
    LevelPatternsExact(l);
    NamesCover(LevelPatterns(l), ChordLevel(l));
  }

  /** Patterns named from `names`, one for every name, carry exactly those names. */
  lemma NamesCover(ps: seq<ChordPattern>, names: seq<string>)
    requires forall k :: 0 <= k < |ps| ==> ps[k].name in names
    requires forall n :: n in names ==> exists p :: p in ps && p.name == n
    ensures forall n :: n in PatternNames(ps) <==> n in names
  {
    var pn := PatternNames(ps);
    forall n ensures n in pn <==> n in names {
      if n in pn {
        var k :| 0 <= k < |pn| && pn[k] == n;
      }
      if n in names {
        var p :| p in ps && p.name == n;
        var k :| 0 <= k < |ps| && ps[k] == p;
        assert pn[k] == n;
      }
    }
  }
}
