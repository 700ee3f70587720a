/**
 * The fretboard-match screen: the level's chord diagrams on one side, their
 * names in shuffled order on the other. Picking a diagram and a name checks
 * the pair; a right pair is recorded in the match set under the key
 * `id-name`. The game ends when the match set has as many keys as there are
 * chords, and the profile records the result as on the chord-input screen.
 *
 * Selecting, pairing and the completion check are pure transitions on
 * `World`. The shuffle of the names is a parameter; the pair check and the
 * completion check, which the screen runs as effects after a selection,
 * run atomically after each selection here (`Settle`).
 */
module FretboardMatchRules {
  import opened Wrappers
  import opened Seqs
  import opened ChordDatabase
  import opened UserProfile
  import opened GameCompletion
  import ChordInputRules
  import ScoreSystem

  /** The countdown of this screen, in seconds. */
  const TimerSeconds: nat := 10

  /**
   * The screen's own state; `matches` is the set of match keys.
   * `matchedNameClicks` says whether a name card shown as matched still
   * hands a click on to the name handler: the card component decides that
   * and is not part of this model, so it is a fixed parameter of the screen.
   */
  datatype Match = Match(
    level: Level,
    chords: seq<ChordData>,
    names: seq<string>,
    matches: set<string>,
    selectedChord: Option<string>,
    selectedName: Option<string>,
    completed: bool,
    newBadge: Option<Badge>,
    isNewHighScore: bool,
    matchedNameClicks: bool)

  /** The screen, its score hook and the profile store. */
  datatype World = World(game: Match, score: ScoreSystem.ScoreState, store: Store)

  // ------------------------------------------------------------ the deal

  /** The chords of the database whose name the level lists, in database order. */
  function LevelChords(l: Level): seq<ChordData> {
    Filter(AllChords, ChordInLevel(l))
  }

  /** The test of the level filter: the level lists the chord's name. */
  function ChordInLevel(l: Level): ChordData -> bool {
    (c: ChordData) => c.name in ChordLevel(l)
  }

  /** Filtering chords, then taking their patterns, is taking patterns, then filtering. */
  lemma {:induction false} PatternsOfFilter(s: seq<ChordData>, l: Level)
    ensures PatternsOf(Filter(s, ChordInLevel(l))) == Filter(PatternsOf(s), ChordInputRules.InLevel(l))
    decreases |s|
  {
    if |s| > 0 {
      PatternsOfFilter(s[1..], l);
      assert PatternsOf(s)[1..] == PatternsOf(s[1..]);
      var head := if ChordInLevel(l)(s[0]) then [s[0]] else [];
      assert Filter(s, ChordInLevel(l)) == head + Filter(s[1..], ChordInLevel(l));
      PatternsOfAppend(head, Filter(s[1..], ChordInLevel(l)));
    }
  }

  lemma PatternsOfAppend(a: seq<ChordData>, b: seq<ChordData>)
    ensures PatternsOf(a + b) == PatternsOf(a) + PatternsOf(b)
  {
  }

  /**
   * Both screens deal the same chords for a level: the patterns of this
   * screen's chords are the other screen's patterns, one per listed name.
   */
  lemma SameChordsAsInputGame(l: Level)
    ensures PatternsOf(LevelChords(l)) == ChordInputRules.LevelPatterns(l)
    ensures |LevelChords(l)| == |ChordLevel(l)|
  {
    PatternsOfFilter(AllChords, l);
    ChordInputRules.LevelPatternCount(l);
  }

  /** Chords a game can be played with: id equal to name, names distinct, at least one. */
  predicate ChordsOk(cs: seq<ChordData>) {
    && |cs| > 0
    && (forall i :: 0 <= i < |cs| ==> cs[i].id == cs[i].name)
    && (forall i, j :: 0 <= i < j < |cs| ==> cs[i].name != cs[j].name)
  }

  /** The chords of every level can be played with. */
  lemma LevelChordsOk(l: Level)
    ensures ChordsOk(LevelChords(l))
  {
    SameChordsAsInputGame(l);
    ChordLevelSizes();
    LevelChordIdsAreNames(l);
    LevelChordNamesDistinct(l);
  }

  lemma LevelChordIdsAreNames(l: Level)
    ensures forall i :: 0 <= i < |LevelChords(l)| ==> LevelChords(l)[i].id == LevelChords(l)[i].name
  {
    var cs := LevelChords(l);
    AllChordsWellFormed();
    forall i | 0 <= i < |cs| ensures cs[i].id == cs[i].name {
      assert cs[i] in AllChords;
    }
  }

  lemma LevelChordNamesDistinct(l: Level)
    ensures forall i, j :: 0 <= i < j < |LevelChords(l)| ==> LevelChords(l)[i].name != LevelChords(l)[j].name
  {
    SameChordsAsInputGame(l);
    ChordInputRules.LevelPatternNamesDistinct(l);
    NamesDistinctFromPatterns(LevelChords(l), ChordInputRules.LevelPatterns(l));
  }

  /** Chords whose patterns have distinct names have distinct names. */
  lemma NamesDistinctFromPatterns(cs: seq<ChordData>, ps: seq<ChordPattern>)
    requires PatternsOf(cs) == ps && Distinct(ChordInputRules.PatternNames(ps))
    ensures forall i, j :: 0 <= i < j < |cs| ==> cs[i].name != cs[j].name
  {
    var pn := ChordInputRules.PatternNames(ps);
    forall i, j | 0 <= i < j < |cs| ensures cs[i].name != cs[j].name {
      assert cs[i].name == ps[i].name == pn[i];
      assert cs[j].name == ps[j].name == pn[j];
    }
  }

  /** A shuffle of the level's chord names. */
  predicate IsNameDeal(l: Level, names: seq<string>) {
    multiset(names) == multiset(NamesOf(LevelChords(l)))
  }

  // ------------------------------------------------------------ setup

  /** `initializeGame`: the level's chords, shuffled names, no match and no selection. */
  function InitializeGame(l: Level, names: seq<string>, matchedNameClicks: bool): (g: Match)
    requires IsNameDeal(l, names)
    ensures g.level == l && g.chords == LevelChords(l) && g.names == names
    ensures g.matches == {} && g.selectedChord.None? && g.selectedName.None?
    ensures !g.completed && g.newBadge.None? && !g.isNewHighScore
    ensures g.matchedNameClicks == matchedNameClicks
  {
    Match(l, LevelChords(l), names, {}, None, None, false, None, false, matchedNameClicks)
  }

  /** The screen as it mounts: a fresh deal and a fresh 10-second score hook. */
  function Mount(l: Level, names: seq<string>, clicks: bool, store: Store, savedBest: Option<string>): (w: World)
    requires IsNameDeal(l, names)
    ensures w.game == InitializeGame(l, names, clicks) && w.store == store
    ensures w.score == ScoreSystem.Init(TimerSeconds, savedBest)
  {
    World(InitializeGame(l, names, clicks), ScoreSystem.Init(TimerSeconds, savedBest), store)
  }

  /** `resetGame`: a fresh deal and a fresh score; the best score and the store survive. */
  function Restart(w: World, names: seq<string>): (r: World)
    requires IsNameDeal(w.game.level, names)
    ensures r.game == InitializeGame(w.game.level, names, w.game.matchedNameClicks) && r.store == w.store
    ensures r.score == ScoreSystem.ResetGame(w.score)
  {
    World(InitializeGame(w.game.level, names, w.game.matchedNameClicks), ScoreSystem.ResetGame(w.score), w.store)
  }

  // ------------------------------------------------------------ selecting

  /** A JavaScript-truthy selection: present and not the empty string. */
  predicate Truthy(o: Option<string>) {
    o.Some? && o.value != ""
  }

  /**
   * `handleChordSelect`: ignored when the id itself is a match key.
   * Otherwise picking the selected diagram again clears the selection and
   * picking another selects it; a new pick starts the countdown when no
   * name is selected.
   */
  function SelectChord(w: World, id: string, now: int): (r: World)
    ensures id in w.game.matches ==> r == w
    ensures id !in w.game.matches ==>
      && r.game == w.game.(selectedChord := if w.game.selectedChord == Some(id) then None else Some(id))
      && r.store == w.store
      && r.score == (if w.game.selectedChord != Some(id) && !Truthy(w.game.selectedName)
                     then ScoreSystem.StartTimer(w.score, now) else w.score)
  {
    if id in w.game.matches then w
    else
      var score := if w.game.selectedChord != Some(id) && !Truthy(w.game.selectedName)
                   then ScoreSystem.StartTimer(w.score, now) else w.score;
      World(w.game.(selectedChord := if w.game.selectedChord == Some(id) then None else Some(id)),
            score, w.store)
  }

  /** `handleNameSelect`: the same toggle for the name cards. */
  function SelectName(w: World, name: string, now: int): (r: World)
    ensures name in w.game.matches ==> r == w
    ensures name !in w.game.matches ==>
      && r.game == w.game.(selectedName := if w.game.selectedName == Some(name) then None else Some(name))
      && r.store == w.store
      && r.score == (if w.game.selectedName != Some(name) && !Truthy(w.game.selectedChord)
                     then ScoreSystem.StartTimer(w.score, now) else w.score)
  {
    if name in w.game.matches then w
    else
      var score := if w.game.selectedName != Some(name) && !Truthy(w.game.selectedChord)
                   then ScoreSystem.StartTimer(w.score, now) else w.score;
      World(w.game.(selectedName := if w.game.selectedName == Some(name) then None else Some(name)),
            score, w.store)
  }

  /** Picking a diagram twice in a row, from no selection of it, leaves none selected. */
  lemma SelectChordToggles(w: World, id: string, t1: int, t2: int)
    requires id !in w.game.matches && w.game.selectedChord != Some(id)
    ensures SelectChord(w, id, t1).game.selectedChord == Some(id)
    ensures SelectChord(SelectChord(w, id, t1), id, t2).game.selectedChord.None?
    ensures SelectChord(SelectChord(w, id, t1), id, t2).score == SelectChord(w, id, t1).score
  {
  }

  /** The match key of a chord. */
  function Key(c: ChordData): string {
    c.id + "-" + c.name
  }

  /** Every match key has a `-`, so a bare id or name without one is never a key. */
  lemma KeyHasDash(c: ChordData)
    ensures '-' in Key(c)
  {
    assert Key(c)[|c.id|] == '-';
  }

  /** No name the levels list contains a `-`. */
  lemma LevelNamesHaveNoDash(l: Level)
    ensures forall k :: 0 <= k < |ChordLevel(l)| ==> '-' !in ChordLevel(l)[k]
  {
    LevelNamesListed(l);
    DatabaseNamesHaveNoDash();
  }

  /** No chord name of the database contains a `-`. */
  lemma DatabaseNamesHaveNoDash()
    ensures forall n :: n in AllNames ==> '-' !in n
  {
    TriadNamesHaveNoDash();
    SeventhNamesHaveNoDash();
    ColourNamesHaveNoDash();
  }

  lemma TriadNamesHaveNoDash()
    ensures forall n :: n in MajorNames ==> '-' !in n
    ensures forall n :: n in MinorNames ==> '-' !in n
    ensures forall n :: n in Dominant7Names ==> '-' !in n
  {
  }

  lemma SeventhNamesHaveNoDash()
    ensures forall n :: n in Minor7Names ==> '-' !in n
    ensures forall n :: n in Major7Names ==> '-' !in n
    ensures forall n :: n in SuspendedNames ==> '-' !in n
  {
  }

  lemma ColourNamesHaveNoDash()
    ensures forall n :: n in DiminishedNames ==> '-' !in n
    ensures forall n :: n in Add9Names ==> '-' !in n
    ensures forall n :: n in SixthNames ==> '-' !in n
  {
  }

  // ------------------------------------------------------------ pairing

  /** The first chord of `cs` with id `id` (`Array.prototype.find`). */
  function FindById(cs: seq<ChordData>, id: string): (r: Option<ChordData>)
    ensures r.Some? ==> exists i :: 0 <= i < |cs| && cs[i] == r.value && r.value.id == id
    ensures r.None? ==> forall i :: 0 <= i < |cs| ==> cs[i].id != id
    decreases |cs|
  {
    if |cs| == 0 then None
    else if cs[0].id == id then Some(cs[0])
    else
      var r := FindById(cs[1..], id);
      assert forall i :: 0 < i < |cs| ==> cs[i] == cs[1..][i - 1];
      r
  }

  /**
   * The pair effect: with a diagram and a name both selected, a right pair
   * (the diagram's chord has that name) scores as a right answer and adds
   * the key `id-name` to the matches, a wrong pair scores as a wrong answer;
   * either way both selections are cleared. Otherwise nothing happens.
   */
  function ResolvePair(w: World): (r: World)
    ensures !(Truthy(w.game.selectedChord) && Truthy(w.game.selectedName)) ==> r == w
    ensures Truthy(w.game.selectedChord) && Truthy(w.game.selectedName) ==>
      var id, name := w.game.selectedChord.value, w.game.selectedName.value;
      var right := exists i :: 0 <= i < |w.game.chords| && w.game.chords[i].id == id
                     && FindById(w.game.chords, id) == Some(w.game.chords[i]) && w.game.chords[i].name == name;
      && r.store == w.store
      && r.game == w.game.(selectedChord := None, selectedName := None,
                           matches := if right then w.game.matches + {id + "-" + name} else w.game.matches)
      && r.score == (if right then ScoreSystem.HandleCorrectAnswer(w.score).0
                     else ScoreSystem.HandleWrongAnswer(w.score).0)
  {
    if !(Truthy(w.game.selectedChord) && Truthy(w.game.selectedName)) then w
    else
      var id, name := w.game.selectedChord.value, w.game.selectedName.value;
      var chord := FindById(w.game.chords, id);
      var cleared := w.game.(selectedChord := None, selectedName := None);
      if chord.Some? && chord.value.name == name then
        World(cleared.(matches := w.game.matches + {id + "-" + name}),
              ScoreSystem.HandleCorrectAnswer(w.score).0, w.store)
      else
        World(cleared, ScoreSystem.HandleWrongAnswer(w.score).0, w.store)
  }

  /**
   * With playable chords, a pair is right exactly when the selected id and
   * name are the same chord's; the key added is that chord's key.
   */
  lemma RightPairIff(cs: seq<ChordData>, id: string, name: string)
    requires ChordsOk(cs)
    ensures var f := FindById(cs, id);
      (f.Some? && f.value.name == name) <==> exists i :: 0 <= i < |cs| && cs[i].id == id && cs[i].name == name
    ensures forall i :: 0 <= i < |cs| && cs[i].id == id && cs[i].name == name ==> id + "-" + name == Key(cs[i])
  {
    var f := FindById(cs, id);
    if exists i :: 0 <= i < |cs| && cs[i].id == id && cs[i].name == name {
      var i :| 0 <= i < |cs| && cs[i].id == id && cs[i].name == name;
      var j :| 0 <= j < |cs| && cs[j] == f.value && f.value.id == id;
      assert i == j;
    }
  }

  // ------------------------------------------------------------ completion

  /** Whether the completion effect fires: every chord counted in the match set, once. */
  predicate CompletionDue(g: Match) {
    |g.chords| > 0 && |g.matches| == |g.chords| && !g.completed
  }

  /**
   * The completion effect: when due, ends the game, closes the score round
   * with the session total and records the result on the profile; otherwise
   * nothing happens.
   */
  function CheckCompletion(w: World, now: nat): (r: World)
    ensures !CompletionDue(w.game) ==> r == w
    ensures CompletionDue(w.game) ==>
      var rec := RecordCompletion(w.store, FretboardMatch, w.game.level, w.score.totalScore, now);
      && r.game.completed
      && r.score == ScoreSystem.CompleteRound(w.score, w.score.totalScore).0
      && r.store == rec.0
      && r.game == w.game.(completed := true,
                           isNewHighScore := if w.store.profile.Some? then rec.1 else w.game.isNewHighScore,
                           newBadge := if rec.2.Some? then rec.2 else w.game.newBadge)
  {
    if !CompletionDue(w.game) then w
    else
      var score := ScoreSystem.CompleteRound(w.score, w.score.totalScore).0;
      var (st, isNewHigh, badge) := RecordCompletion(w.store, FretboardMatch, w.game.level, w.score.totalScore, now);
      var game := w.game.(completed := true,
                          isNewHighScore := if w.store.profile.Some? then isNewHigh else w.game.isNewHighScore,
                          newBadge := if badge.Some? then badge else w.game.newBadge);
      World(game, score, st)
  }

  /** The completion effect fires at most once: a second check changes nothing. */
  lemma CompletionFiresOnce(w: World, t1: nat, t2: nat)
    ensures CheckCompletion(CheckCompletion(w, t1), t2) == CheckCompletion(w, t1)
  {
  }

  /** The effects that follow a selection: the pair check, then the completion check. */
  function Settle(w: World, now: nat): (r: World)
    ensures r.game.level == w.game.level && r.game.chords == w.game.chords && r.game.names == w.game.names
    ensures r.game.matchedNameClicks == w.game.matchedNameClicks
    ensures w.game.matches <= r.game.matches && |r.game.matches| <= |w.game.matches| + 1
    ensures !Pending(r.game)
  {
    CheckCompletion(ResolvePair(w), now)
  }

  /** `isMatched` of a name card: some dealt chord of that name has its key in the match set. */
  predicate IsMatched(g: Match, name: string) {
    exists i :: 0 <= i < |g.chords| && g.chords[i].name == name && Key(g.chords[i]) in g.matches
  }

  // ------------------------------------------------------------ a whole game

  /** What the player can do: pick a diagram or a name card on screen; the timer ticks. */
  datatype Action =
    | PickChord(id: string, at: nat)
    | PickName(name: string, at: nat)
    | TickAt(at: nat)

  /**
   * The cards on screen are the dealt chords and the dealt names; a name
   * card shown as matched answers a click only if the card component
   * forwards it.
   */
  predicate Enabled(w: World, a: Action) {
    match a
    case PickChord(id, _) => exists i :: 0 <= i < |w.game.chords| && w.game.chords[i].id == id
    case PickName(name, _) => name in w.game.names && (w.game.matchedNameClicks || !IsMatched(w.game, name))
    case TickAt(_) => true
  }

  /** One action and the effects it triggers; a card not on screen does nothing. */
  function Step(w: World, a: Action): (r: World)
    ensures r.game.level == w.game.level && r.game.chords == w.game.chords && r.game.names == w.game.names
    ensures r.game.matchedNameClicks == w.game.matchedNameClicks
    ensures w.game.matches <= r.game.matches
    ensures !Pending(w.game) ==> !Pending(r.game)
  {
    if !Enabled(w, a) then w
    else
      match a
      case PickChord(id, t) => Settle(SelectChord(w, id, t), t)
      case PickName(name, t) => Settle(SelectName(w, name, t), t)
      case TickAt(t) => w.(score := ScoreSystem.Tick(w.score, t))
  }

  function Play(w: World, acts: seq<Action>): World
    decreases |acts|
  {
    if |acts| == 0 then w else Play(Step(w, acts[0]), acts[1..])
  }

  /** The name cards are the dealt chords' names. */
  predicate NamesDealt(g: Match) {
    multiset(g.names) == multiset(NamesOf(g.chords))
  }

  /** Every match key is the key of a dealt chord. */
  predicate KeysDealt(g: Match) {
    forall k :: k in g.matches ==> exists i :: 0 <= i < |g.chords| && k == Key(g.chords[i])
  }

  /** A pair is selected and waiting for the pair check. */
  predicate Pending(g: Match) {
    Truthy(g.selectedChord) && Truthy(g.selectedName)
  }

  /**
   * What holds between effects: the chords are playable, the cards are
   * theirs, the keys are theirs, a full match set has ended the game, and an
   * ended game has a full match set.
   */
  predicate Between(g: Match) {
    && ChordsOk(g.chords)
    && NamesDealt(g)
    && KeysDealt(g)
    && (|g.matches| == |g.chords| ==> g.completed)
    && (g.completed ==> |g.matches| >= |g.chords|)
  }

  /** The screen's invariant: the above, with no pair left pending. */
  predicate Inv(w: World) {
    Between(w.game) && !Pending(w.game)
  }

  lemma MountInv(l: Level, names: seq<string>, clicks: bool, store: Store, savedBest: Option<string>)
    requires IsNameDeal(l, names)
    ensures Inv(Mount(l, names, clicks, store, savedBest))
  {
    LevelChordsOk(l);
  }

  /** The pair check keeps the keys those of dealt chords and leaves no pair pending. */
  lemma ResolveKeepsKeys(w: World)
    requires ChordsOk(w.game.chords) && KeysDealt(w.game)
    ensures var r := ResolvePair(w);
      && r.game.chords == w.game.chords && r.game.names == w.game.names
      && r.game.completed == w.game.completed
      && w.game.matches <= r.game.matches
      && !Pending(r.game)
      && KeysDealt(r.game)
  {
    if Pending(w.game) {
      var id, name := w.game.selectedChord.value, w.game.selectedName.value;
      RightPairIff(w.game.chords, id, name);
    }
  }

  /** The effects after a selection restore the invariant. */
  lemma SettleInv(w: World, now: nat)
    requires Between(w.game)
    ensures Inv(Settle(w, now))
    ensures Settle(w, now).game.chords == w.game.chords && w.game.matches <= Settle(w, now).game.matches
  {
    ResolveKeepsKeys(w);
    var r := ResolvePair(w);
    if w.game.completed {
      SubsetCard(w.game.matches, r.game.matches);
    }
    CompletionInv(r, now);
  }

  /** The completion check ends a game whose match set is full, and changes nothing else. */
  lemma CompletionInv(r: World, now: nat)
    requires ChordsOk(r.game.chords) && NamesDealt(r.game) && KeysDealt(r.game) && !Pending(r.game)
    requires r.game.completed ==> |r.game.matches| >= |r.game.chords|
    ensures Inv(CheckCompletion(r, now))
    ensures CheckCompletion(r, now).game.chords == r.game.chords
    ensures CheckCompletion(r, now).game.matches == r.game.matches
  {
    var c := CheckCompletion(r, now);
    assert c.game.names == r.game.names && c.game.selectedChord == r.game.selectedChord;
    assert c.game.selectedName == r.game.selectedName;
  }

  lemma StepInv(w: World, a: Action)
    requires Inv(w)
    ensures Inv(Step(w, a)) && Step(w, a).game.chords == w.game.chords
    ensures w.game.matches <= Step(w, a).game.matches
  {
    if Enabled(w, a) {
      match a
      case PickChord(id, t) =>
        SettleInv(SelectChord(w, id, t), t);
      case PickName(name, t) =>
        SettleInv(SelectName(w, name, t), t);
      case TickAt(_) =>
    }
  }

  lemma {:induction false} PlayInv(w: World, acts: seq<Action>)
    requires Inv(w)
    ensures Inv(Play(w, acts)) && Play(w, acts).game.chords == w.game.chords
    ensures w.game.matches <= Play(w, acts).game.matches
    decreases |acts|
  {
    if |acts| > 0 {
      var w1 := Step(w, acts[0]);
      StepInv(w, acts[0]);
      PlayInv(w1, acts[1..]);
      assert Play(w, acts) == Play(w1, acts[1..]);
    }
  }

  /** The keys of `cs`, in order. */
  function KeysOf(cs: seq<ChordData>): (r: seq<string>)
    ensures |r| == |cs| && forall i :: 0 <= i < |cs| ==> r[i] == Key(cs[i])
    decreases |cs|
  {
    if |cs| == 0 then [] else [Key(cs[0])] + KeysOf(cs[1..])
  }

  /** Chords whose id is their name have keys `n-n`, which tell the names apart. */
  lemma {:induction false} KeyInjective(a: string, b: string)
    requires a + "-" + a == b + "-" + b
    ensures a == b
  {
    assert |a| == |b|;
    assert a == (a + "-" + a)[..|a|];
    assert b == (b + "-" + b)[..|b|];
  }

  lemma KeysDistinct(cs: seq<ChordData>)
    requires ChordsOk(cs)
    ensures Distinct(KeysOf(cs))
  {
    var ks := KeysOf(cs);
    forall i, j | 0 <= i < j < |cs| ensures ks[i] != ks[j] {
      if ks[i] == ks[j] {
        KeyInjective(cs[i].name, cs[j].name);
      }
    }
  }

  /**
   * With the invariant, the game is over exactly when every dealt chord's
   * key is in the match set: the match-set size stands for "all matched".
   */
  lemma CompletedIffAllMatched(w: World)
    requires Inv(w)
    ensures w.game.completed <==> forall i :: 0 <= i < |w.game.chords| ==> Key(w.game.chords[i]) in w.game.matches
  {
    var cs, m := w.game.chords, w.game.matches;
    MatchCount(cs, m);
  }

  /**
   * With playable chords and only dealt keys, the match set holds every
   * dealt key exactly when it is as large as the deal.
   */
  lemma MatchCount(cs: seq<ChordData>, m: set<string>)
    requires ChordsOk(cs)
    requires forall k :: k in m ==> exists i :: 0 <= i < |cs| && k == Key(cs[i])
    ensures |m| <= |cs|
    ensures |m| >= |cs| <==> forall i :: 0 <= i < |cs| ==> Key(cs[i]) in m
  {
    var keys := Elements(KeysOf(cs));
    KeysCard(cs);
    MatchesAmongKeys(cs, m);
    SubsetCard(m, keys);
    if |m| >= |cs| {
      FullMatchesAreAllKeys(m, keys);
      KeysListed(cs, m);
    }
    if forall i :: 0 <= i < |cs| ==> Key(cs[i]) in m {
      KeysListed(cs, m);
      SubsetCard(keys, m);
    }
  }

  /** Playable chords have as many distinct keys as chords. */
  lemma KeysCard(cs: seq<ChordData>)
    requires ChordsOk(cs)
    ensures |Elements(KeysOf(cs))| == |cs|
  {
    KeysDistinct(cs);
    DistinctCard(KeysOf(cs));
  }

  /** A set holds every chord's key exactly when it holds the set of keys. */
  lemma KeysListed(cs: seq<ChordData>, m: set<string>)
    ensures Elements(KeysOf(cs)) <= m <==> forall i :: 0 <= i < |cs| ==> Key(cs[i]) in m
  {
    var ks := KeysOf(cs);
    if Elements(ks) <= m {
      forall i | 0 <= i < |cs| ensures Key(cs[i]) in m {
        assert ks[i] in Elements(ks);
      }
    }
  }

  /** A match set whose keys are all dealt keys lies within the set of dealt keys. */
  lemma MatchesAmongKeys(cs: seq<ChordData>, m: set<string>)
    requires forall k :: k in m ==> exists i :: 0 <= i < |cs| && k == Key(cs[i])
    ensures m <= Elements(KeysOf(cs))
  {
    var ks := KeysOf(cs);
    forall k | k in m ensures k in Elements(ks) {
      var i :| 0 <= i < |cs| && k == Key(cs[i]);
      assert ks[i] == k;
    }
  }

  /** A subset at least as large as the whole set is the whole set. */
  lemma FullMatchesAreAllKeys(m: set<string>, keys: set<string>)
    requires m <= keys && |m| >= |keys|
    ensures m == keys
  {
    if m != keys {
      var y :| y in keys && y !in m;
      SubsetCard(m, keys - {y});
    }
  }

  /**
   * Whatever the player does after the screen mounts, short of a reset, the
   * game is over exactly when every dealt chord has been matched, and then
   * every name card shows as matched. `FinishedSessionAllMatched` extends
   * this to plays with resets.
   */
  lemma FinishedGameAllMatched(l: Level, names: seq<string>, clicks: bool, store: Store,
                               savedBest: Option<string>, acts: seq<Action>)
    requires IsNameDeal(l, names)
    ensures var w := Play(Mount(l, names, clicks, store, savedBest), acts);
      && (w.game.completed <==> forall i :: 0 <= i < |w.game.chords| ==> Key(w.game.chords[i]) in w.game.matches)
      && (w.game.completed ==> forall n :: n in w.game.names ==> IsMatched(w.game, n))
  {
    var w0 := Mount(l, names, clicks, store, savedBest);
    MountInv(l, names, clicks, store, savedBest);
    PlayInv(w0, acts);
    var w := Play(w0, acts);
    CompletedIffAllMatched(w);
    if w.game.completed {
      NamesShowMatched(w.game);
    }
  }

  // ------------------------------------------------------------ resets

  /**
   * A move on the whole screen: an action of the game, or `resetGame` with
   * the next shuffle of names. The header's reset button is always shown,
   * and the badge modal and the result display offer it too, so a reset is
   * open at any time, a finished game included.
   */
  datatype Move = Act(a: Action) | Reset(names: seq<string>)

  /** One move; a reset whose names are not a shuffle of the level's changes nothing. */
  function Apply(w: World, m: Move): (r: World)
    ensures r.game.level == w.game.level && r.game.matchedNameClicks == w.game.matchedNameClicks
    ensures m.Reset? && IsNameDeal(w.game.level, m.names) ==>
      r.game.matches == {} && !r.game.completed && r.game.names == m.names
      && r.score.totalScore == 0 && r.store == w.store && r.score.bestScore == w.score.bestScore
  {
    match m
    case Act(a) => Step(w, a)
    case Reset(names) => if IsNameDeal(w.game.level, names) then Restart(w, names) else w
  }

  function Session(w: World, moves: seq<Move>): World
    decreases |moves|
  {
    if |moves| == 0 then w else Session(Apply(w, moves[0]), moves[1..])
  }

  /** A reset satisfies the invariant. */
  lemma RestartInv(w: World, names: seq<string>)
    requires IsNameDeal(w.game.level, names)
    ensures Inv(Restart(w, names))
  {
    LevelChordsOk(w.game.level);
  }

  /** Every move keeps the invariant. */
  lemma ApplyInv(w: World, m: Move)
    requires Inv(w)
    ensures Inv(Apply(w, m))
  {
    match m
    case Act(a) => StepInv(w, a);
    case Reset(names) =>
      if IsNameDeal(w.game.level, names) {
        RestartInv(w, names);
      }
  }

  lemma {:induction false} SessionInv(w: World, moves: seq<Move>)
    requires Inv(w)
    ensures Inv(Session(w, moves))
    decreases |moves|
  {
    if |moves| > 0 {
      ApplyInv(w, moves[0]);
      SessionInv(Apply(w, moves[0]), moves[1..]);
    }
  }

  /**
   * Whatever the player does after the screen mounts, resets included, the
   * game is over exactly when every dealt chord has been matched, and then
   * every name card shows as matched.
   */
  lemma FinishedSessionAllMatched(l: Level, names: seq<string>, clicks: bool, store: Store,
                                  savedBest: Option<string>, moves: seq<Move>)
    requires IsNameDeal(l, names)
    ensures var w := Session(Mount(l, names, clicks, store, savedBest), moves);
      && (w.game.completed <==> forall i :: 0 <= i < |w.game.chords| ==> Key(w.game.chords[i]) in w.game.matches)
      && (w.game.completed ==> forall n :: n in w.game.names ==> IsMatched(w.game, n))
  {
    var w0 := Mount(l, names, clicks, store, savedBest);
    MountInv(l, names, clicks, store, savedBest);
    SessionInv(w0, moves);
    var w := Session(w0, moves);
    CompletedIffAllMatched(w);
    if w.game.completed {
      NamesShowMatched(w.game);
    }
  }

  /** When every dealt chord's key is matched, every name card shows as matched. */
  lemma NamesShowMatched(g: Match)
    requires NamesDealt(g)
    requires forall i :: 0 <= i < |g.chords| ==> Key(g.chords[i]) in g.matches
    ensures forall n :: n in g.names ==> IsMatched(g, n)
  {
    forall n | n in g.names ensures IsMatched(g, n) {
      assert n in multiset(NamesOf(g.chords));
      var i :| 0 <= i < |g.chords| && NamesOf(g.chords)[i] == n;
      assert g.chords[i].name == n;
    }
  }

  /**
   * The "already matched" guards never fire: a diagram id or name card
   * without a `-` is never a match key, so a matched pair can be picked
   * again.
   */
  lemma GuardNeverFires(w: World, s: string)
    requires Inv(w) && '-' !in s
    ensures s !in w.game.matches
  {
    forall i | 0 <= i < |w.game.chords| ensures Key(w.game.chords[i]) != s {
      KeyHasDash(w.game.chords[i]);
    }
  }

  /**
   * Where the name card forwards clicks on a matched card, picking a matched
   * chord and its name again scores another 100 and leaves the match set as
   * it was.
   */
  lemma RematchScoresAgain(w: World, i: int, t1: nat, t2: nat)
    requires Inv(w) && 0 <= i < |w.game.chords| && w.game.matchedNameClicks
    requires w.game.selectedChord.None? && w.game.selectedName.None?
    requires Key(w.game.chords[i]) in w.game.matches
    requires '-' !in w.game.chords[i].name && w.game.chords[i].name != ""
    ensures var c := w.game.chords[i];
      var r := Step(Step(w, PickChord(c.id, t1)), PickName(c.name, t2));
      && r.game.matches == w.game.matches
      && r.score.totalScore == w.score.totalScore + ScoreSystem.PointsPerCorrect
  {
    var c := w.game.chords[i];
    var w1 := Step(w, PickChord(c.id, t1));
    RepickChord(w, i, t1);
    assert c.name in w1.game.names by {
      assert NamesOf(w.game.chords)[i] == c.name;
      assert c.name in multiset(w.game.names);
    }
    RepickName(w1, i, t2);
  }

  /** Picking a matched diagram with nothing selected selects it and changes nothing else that counts. */
  lemma RepickChord(w: World, i: int, t: nat)
    requires Inv(w) && 0 <= i < |w.game.chords|
    requires w.game.selectedChord.None? && w.game.selectedName.None?
    requires '-' !in w.game.chords[i].name
    ensures var w1 := Step(w, PickChord(w.game.chords[i].id, t));
      && w1.game == w.game.(selectedChord := Some(w.game.chords[i].id))
      && w1.score.totalScore == w.score.totalScore
  {
    var c := w.game.chords[i];
    GuardNeverFires(w, c.id);
    assert Enabled(w, PickChord(c.id, t));
    var s := SelectChord(w, c.id, t);
    assert s.game == w.game.(selectedChord := Some(c.id));
    assert ResolvePair(s) == s;
    assert !CompletionDue(s.game);
  }

  /** Picking the selected diagram's name then scores a right pair into the same key. */
  lemma RepickName(w: World, i: int, t: nat)
    requires Between(w.game) && 0 <= i < |w.game.chords|
    requires w.game.selectedChord == Some(w.game.chords[i].id) && w.game.selectedName.None?
    requires Key(w.game.chords[i]) in w.game.matches
    requires '-' !in w.game.chords[i].name && w.game.chords[i].name != ""
    requires w.game.chords[i].name in w.game.names && w.game.matchedNameClicks
    ensures var w2 := Step(w, PickName(w.game.chords[i].name, t));
      && w2.game.matches == w.game.matches
      && w2.score.totalScore == w.score.totalScore + ScoreSystem.PointsPerCorrect
  {
    var cs := w.game.chords;
    var c := cs[i];
    assert c.name !in w.game.matches by {
      forall k | 0 <= k < |cs| ensures Key(cs[k]) != c.name {
        KeyHasDash(cs[k]);
      }
    }
    assert Enabled(w, PickName(c.name, t));
    var s := SelectName(w, c.name, t);
    assert s.game == w.game.(selectedName := Some(c.name));
    ResolveRematch(s, i);
  }

  /** The pair check on a matched chord and its own name: 100 more, the same match set, no completion. */
  lemma ResolveRematch(s: World, i: int)
    requires Between(s.game) && 0 <= i < |s.game.chords|
    requires s.game.selectedChord == Some(s.game.chords[i].id)
    requires s.game.selectedName == Some(s.game.chords[i].name)
    requires Key(s.game.chords[i]) in s.game.matches && s.game.chords[i].name != ""
    ensures forall now :: Settle(s, now).game.matches == s.game.matches
    ensures forall now :: Settle(s, now).score.totalScore == s.score.totalScore + ScoreSystem.PointsPerCorrect
  {
    var cs := s.game.chords;
    var c := cs[i];
    RightPairIff(cs, c.id, c.name);
    assert c.id == c.name;
    var r := ResolvePair(s);
    assert Key(c) == c.id + "-" + c.name;
    assert r.game.matches == s.game.matches;
    assert r.score == ScoreSystem.HandleCorrectAnswer(s.score).0;
    assert !CompletionDue(r.game);
  }

  /**
   * Where the name card swallows clicks on a matched card, picking a matched
   * chord's name changes nothing, so a matched pair cannot score again.
   */
  lemma BlockedRematchIgnored(w: World, i: int, t: nat)
    requires 0 <= i < |w.game.chords| && !w.game.matchedNameClicks
    requires Key(w.game.chords[i]) in w.game.matches
    ensures Step(w, PickName(w.game.chords[i].name, t)) == w
  {
    assert IsMatched(w.game, w.game.chords[i].name);
  }
}
