/**
 * The music theory behind the scale screen: the twelve keys, the interval
 * formulas of the major and minor scales, scale spelling by mod-12
 * arithmetic, the diatonic chord labels of each scale, and the octave
 * numbers the screen assigns to the notes it plays.
 */
module ScaleTheory {

  /** The twelve keys offered for selection, in chromatic order from C. */
  const Keys: seq<string> :=
    ["C", "C#/Db", "D", "D#/Eb", "E", "F", "F#/Gb", "G", "G#/Ab", "A", "A#/Bb", "B"]

  /** Pitch-class names, sharps only; also the order the octave logic compares against. */
  const NoteNames: seq<string> :=
    ["C", "C#", "D", "D#", "E", "F", "F#", "G", "G#", "A", "A#", "B"]

  datatype ScaleType = Major | HarmonicMinor | MelodicMinor | MelodicMinorDescending

  /** Semitone offsets from the root of each scale. */
  function Formula(t: ScaleType): seq<nat> {
    match t
    case Major => [0, 2, 4, 5, 7, 9, 11]
    case HarmonicMinor => [0, 2, 3, 5, 7, 8, 11]
    case MelodicMinor => [0, 2, 3, 5, 7, 9, 11]
    case MelodicMinorDescending => [0, 2, 3, 5, 7, 8, 10]
  }

  /** Seven offsets, starting at 0, strictly increasing, all below 12. */
  predicate HeptatonicFormula(f: seq<nat>) {
    && |f| == 7 && f[0] == 0
    && (forall k :: 0 <= k < |f| ==> f[k] < 12)
    && (forall j, k :: 0 <= j < k < |f| ==> f[j] < f[k])
  }

  lemma FormulasHeptatonic(t: ScaleType)
    ensures HeptatonicFormula(Formula(t))
  {
    var f := Formula(t);
    forall j, k | 0 <= j < k < |f| ensures f[j] < f[k] {
      assert forall i :: 0 <= i < 6 ==> f[i] < f[i + 1];
      StepsIncreasing(f, j, k);
    }
  }

  lemma {:induction false} StepsIncreasing(f: seq<nat>, j: nat, k: nat)
    requires j < k < |f|
    requires forall i :: 0 <= i < |f| - 1 ==> f[i] < f[i + 1]
    ensures f[j] < f[k]
    decreases k - j
  {
    if j + 1 < k {
      StepsIncreasing(f, j + 1, k);
    }
  }

  /**
   * The key's position in `Keys`. A key the map lacks falls back to 0, as
   * the lookup's `|| 0` does; keys that name an inherited property of every
   * JavaScript object (`toString`, `__proto__`) are treated as lacking too.
   */
  function GetKeyIndex(key: string): (r: nat)
    ensures r < 12
  {
    var keyMap := map[
      "C" := 0, "C#/Db" := 1, "D" := 2, "D#/Eb" := 3, "E" := 4, "F" := 5,
      "F#/Gb" := 6, "G" := 7, "G#/Ab" := 8, "A" := 9, "A#/Bb" := 10, "B" := 11];
    if key in keyMap then keyMap[key] else 0
  }

  /**
   * Every offered key maps to its own position. Any other key, which the
   * twelve-key picker never produces, maps to C in this model.
   */
  lemma KeyIndexInverse(key: string)
    ensures forall i :: 0 <= i < |Keys| ==> GetKeyIndex(Keys[i]) == i
    ensures key !in Keys ==> GetKeyIndex(key) == 0
  {
  }

  /**
   * One note name per offset, for the pitch class `root + offset` modulo 12
   * (see `ScaleNotesPitches`). A heptatonic scale on a pitch class starts on
   * the root and names seven different notes.
   */
  function GetScaleNotes(root: nat, formula: seq<nat>): (r: seq<string>)
    ensures |r| == |formula|
    ensures root < 12 && HeptatonicFormula(formula) ==>
      && r[0] == NoteNames[root]
      && forall j, k :: 0 <= j < k < 7 ==> r[j] != r[k]
  {
    HeptatonicNamesDistinct(root, formula);
    seq(|formula|, k requires 0 <= k < |formula| => NoteNames[(root + formula[k]) % 12])
  }

  /** Each scale note is found by `NoteIndex` at its pitch class `root + offset` modulo 12. */
  lemma ScaleNotesPitches(root: nat, formula: seq<nat>)
    ensures forall k :: 0 <= k < |formula| ==> NoteIndex(GetScaleNotes(root, formula)[k]) == (root + formula[k]) % 12
  {
    PitchesOfNames();
  }

  /** Each note name is found at its own position by `NoteIndex`. */
  lemma PitchesOfNames()
    ensures forall j :: 0 <= j < 12 ==> NoteIndex(NoteNames[j]) == j
  {
    forall j | 0 <= j < 12 ensures NoteIndex(NoteNames[j]) == j {
      PitchOfName(j);
    }
  }

  /** The degrees of a heptatonic scale on a pitch class carry pairwise different names. */
  lemma HeptatonicNamesDistinct(root: nat, f: seq<nat>)
    ensures root < 12 && HeptatonicFormula(f) ==>
      forall j, k :: 0 <= j < k < 7 ==> NoteNames[(root + f[j]) % 12] != NoteNames[(root + f[k]) % 12]
  {
    if root < 12 && HeptatonicFormula(f) {
      forall j, k | 0 <= j < k < 7 ensures NoteNames[(root + f[j]) % 12] != NoteNames[(root + f[k]) % 12] {
        PitchClassesDistinct(root, f, j, k);
        NoteNameDistinct((root + f[j]) % 12, (root + f[k]) % 12);
      }
    }
  }

  lemma NoteNamesDistinct()
    ensures forall i, j :: 0 <= i < j < 12 ==> NoteNames[i] != NoteNames[j]
  {
  }

  /**
   * A scale built from a heptatonic formula starts on the root's name and
   * names seven different pitch classes.
   */
  lemma ScaleNotesFacts(root: nat, f: seq<nat>)
    requires root < 12 && HeptatonicFormula(f)
    ensures var notes := GetScaleNotes(root, f);
      && |notes| == 7 && notes[0] == NoteNames[root]
      && (forall j, k :: 0 <= j < k < 7 ==> notes[j] != notes[k])
  {
    var notes := GetScaleNotes(root, f);
    assert root + f[0] == root;
    forall j, k | 0 <= j < k < 7 ensures notes[j] != notes[k] {
      ScaleNotePairDistinct(root, f, j, k);
    }
  }

  lemma ScaleNotePairDistinct(root: nat, f: seq<nat>, j: nat, k: nat)
    requires root < 12 && HeptatonicFormula(f) && j < k < 7
    ensures GetScaleNotes(root, f)[j] != GetScaleNotes(root, f)[k]
  {
    var x, y := (root + f[j]) % 12, (root + f[k]) % 12;
    PitchClassesDistinct(root, f, j, k);
    NoteNameDistinct(x, y);
  }

  /** Two degrees of a heptatonic scale are different pitch classes. */
  lemma PitchClassesDistinct(root: nat, f: seq<nat>, j: nat, k: nat)
    requires HeptatonicFormula(f) && j < k < 7
    ensures (root + f[j]) % 12 != (root + f[k]) % 12
  {
    assert f[j] < f[k] < 12;
    ModTwelveDistinct(root + f[j], root + f[k]);
  }

  lemma NoteNameDistinct(x: nat, y: nat)
    requires x < 12 && y < 12 && x != y
    ensures NoteNames[x] != NoteNames[y]
  {
    NoteNamesDistinct();
  }

  /** Two numbers less than an octave apart are different pitch classes. */
  lemma ModTwelveDistinct(a: nat, b: nat)
    requires a < b < a + 12
    ensures a % 12 != b % 12
  {
  }

  // Diatonic chords

  /** The scales the chord table covers. */
  datatype ChordScale = MajorKey | HarmonicMinorKey | MelodicMinorKey

  function ChordScaleFormula(t: ChordScale): seq<nat> {
    match t
    case MajorKey => Formula(Major)
    case HarmonicMinorKey => Formula(HarmonicMinor)
    case MelodicMinorKey => Formula(MelodicMinor)
  }

  function Qualities(t: ChordScale): seq<string> {
    match t
    case MajorKey => ["", "m", "m", "", "7", "m", "dim"]
    case HarmonicMinorKey => ["m", "dim", "+", "m", "7", "", "dim"]
    case MelodicMinorKey => ["m", "m", "+", "", "7", "dim", "dim"]
  }

  function Numerals(t: ChordScale): seq<string> {
    match t
    case MajorKey => ["I", "ii", "iii", "IV", "V7", "vi", "vii°"]
    case HarmonicMinorKey => ["i", "ii°", "III+", "iv", "V7", "VI", "vii°"]
    case MelodicMinorKey => ["i", "ii", "III+", "IV", "V7", "vi°", "vii°"]
  }

  datatype ScaleChord = ScaleChord(note: string, chord: string, numeral: string, degree: nat)

  /**
   * The chord on each degree of the scale: rooted on the scale's note of
   * that degree, with the quality and numeral that stacking thirds of the
   * scale on that degree gives.
   */
  function GetScaleChords(root: nat, t: ChordScale): (r: seq<ScaleChord>)
    ensures |r| == 7
    ensures forall k :: 0 <= k < 7 ==>
      var f := ChordScaleFormula(t);
      && r[k].degree == k + 1
      && r[k].note == GetScaleNotes(root, f)[k]
      && r[k].chord == r[k].note + StackedQuality(f, k)
      && r[k].numeral == NumeralFor(k, StackedQuality(f, k))
  {
    ChordTablesTertian(t);
    var f := ChordScaleFormula(t);
    seq(7, k requires 0 <= k < 7 =>
      var name := NoteNames[(root + f[k]) % 12];
      ScaleChord(name, name + Qualities(t)[k], Numerals(t)[k], k + 1))
  }

  /** Semitones from degree `k` up to degree `k + d` of the scale, wrapping around the octave. */
  function Span(f: seq<nat>, k: nat, d: nat): int
    requires |f| == 7 && k < 7
  {
    var diff := f[(k + d) % 7] as int - f[k] as int;
    (diff + 12) % 12
  }

  /**
   * The chord symbol suffix obtained by stacking thirds on degree `k`: the
   * triad's quality from its third and fifth, except that the dominant
   * (degree 5) is named by its seventh chord when that is a dominant seventh.
   */
  function StackedQuality(f: seq<nat>, k: nat): string
    requires |f| == 7 && k < 7
  {
    var third, fifth, seventh := Span(f, k, 2), Span(f, k, 4), Span(f, k, 6);
    if k == 4 && third == 4 && fifth == 7 && seventh == 10 then "7"
    else if third == 4 && fifth == 7 then ""
    else if third == 3 && fifth == 7 then "m"
    else if third == 3 && fifth == 6 then "dim"
    else if third == 4 && fifth == 8 then "+"
    else "?"
  }

  /** The Roman numeral of degree `k`: upper case for major-third chords, with the quality's mark. */
  function NumeralFor(k: nat, quality: string): string
    requires k < 7
  {
    var upper := ["I", "II", "III", "IV", "V", "VI", "VII"][k];
    var lower := ["i", "ii", "iii", "iv", "v", "vi", "vii"][k];
    if quality == "" then upper
    else if quality == "7" then upper + "7"
    else if quality == "+" then upper + "+"
    else if quality == "m" then lower
    else lower + "°"
  }

  /**
   * The chord table agrees with music theory: every quality is the one
   * stacking thirds inside the scale gives, and every numeral is the one
   * that quality calls for.
   */
  lemma ChordTablesTertian(t: ChordScale)
    ensures forall k :: 0 <= k < 7 ==> Qualities(t)[k] == StackedQuality(ChordScaleFormula(t), k)
    ensures forall k :: 0 <= k < 7 ==> Numerals(t)[k] == NumeralFor(k, Qualities(t)[k])
  {
    var f := ChordScaleFormula(t);
    forall k | 0 <= k < 7
      ensures Qualities(t)[k] == StackedQuality(f, k)
      ensures Numerals(t)[k] == NumeralFor(k, Qualities(t)[k])
    {
      if k == 0 { } else if k == 1 { } else if k == 2 { } else if k == 3 { }
      else if k == 4 { } else if k == 5 { } else { }
    }
  }

  // Octaves

  /**
   * `indexOf` in the note order, which lists the pitch-class names from C:
   * the position holding `n`, or -1 when `n` is not a pitch-class name.
   */
  function NoteIndex(n: string): (r: int)
    ensures -1 <= r < 12
  {
    if n == "C" then 0 else if n == "C#" then 1 else if n == "D" then 2
    else if n == "D#" then 3 else if n == "E" then 4 else if n == "F" then 5
    else if n == "F#" then 6 else if n == "G" then 7 else if n == "G#" then 8
    else if n == "A" then 9 else if n == "A#" then 10 else if n == "B" then 11
    else -1
  }

  /** `NoteIndex` finds exactly the pitch-class names, each at its own position. */
  lemma NoteIndexSpec(n: string)
    ensures NoteIndex(n) == -1 <==> n !in NoteNames
    ensures NoteIndex(n) >= 0 ==> NoteNames[NoteIndex(n)] == n
  {
  }

  /** The pitch-class index the octave logic compares: -1 for a missing or unknown note. */
  function Pitch(notes: seq<string>, i: int): int {
    if 0 <= i < |notes| then NoteIndex(notes[i]) else -1
  }

  lemma PitchOfName(j: nat)
    requires j < 12
    ensures NoteIndex(NoteNames[j]) == j
  {
    NoteNamesDistinct();
  }

  /** The change of octave between two pitch indices: up when the pitch drops going up, down when it rises going down. */
  function StepBetween(previous: int, current: int, descending: bool): int {
    if descending then (if current > previous then -1 else 0)
    else (if current < previous then 1 else 0)
  }

  /** The change of octave at step `i` of the walk. */
  function OctaveStep(notes: seq<string>, i: int, descending: bool): int {
    StepBetween(Pitch(notes, i - 1), Pitch(notes, i), descending)
  }

  lemma StepOfPitches(notes: seq<string>, i: int, descending: bool, previous: int, current: int)
    requires Pitch(notes, i - 1) == previous && Pitch(notes, i) == current
    ensures OctaveStep(notes, i, descending) == StepBetween(previous, current, descending)
  {
  }

  /** The octave reached at index `n` when the walk starts at octave `start` on index 0. */
  function OctaveFrom(start: int, notes: seq<string>, n: int, descending: bool): int
    decreases n
  {
    if n <= 0 then start else OctaveFrom(start, notes, n - 1, descending) + OctaveStep(notes, n, descending)
  }

  /** The octave the screen gives the note at `noteIndex`: the walk from octave 4. */
  function NoteOctave(notes: seq<string>, noteIndex: int, descending: bool): int {
    OctaveFrom(4, notes, noteIndex, descending)
  }

  /** The octave of a note as the scale screen computes it, with the screen's loop. */
  method GetNoteOctave(notes: seq<string>, noteIndex: int, descending: bool) returns (octave: int)
    ensures octave == NoteOctave(notes, noteIndex, descending)
    ensures !descending ==> 4 <= octave && (noteIndex >= 0 ==> octave <= 4 + noteIndex)
    ensures descending ==> octave <= 4 && (noteIndex >= 0 ==> octave >= 4 - noteIndex)
  {
    octave := 4;
    var i := 0;
    while i <= noteIndex
      invariant 0 <= i <= (if noteIndex >= 0 then noteIndex + 1 else 0)
      invariant octave == NoteOctave(notes, i - 1, descending)
      invariant !descending ==> 4 <= octave <= 4 + (if i == 0 then 0 else i - 1)
      invariant descending ==> 4 - (if i == 0 then 0 else i - 1) <= octave <= 4
      decreases noteIndex + 1 - i
    {
      if i > 0 {
        var current := if i < |notes| then NoteIndex(notes[i]) else -1;
        var previous := if i - 1 < |notes| then NoteIndex(notes[i - 1]) else -1;
        if descending {
          if current > previous {
            octave := octave - 1;
          }
        } else {
          if current < previous {
            octave := octave + 1;
          }
        }
      }
      i := i + 1;
    }
  }

  /** Going up the walk never lowers the octave; going down never raises it. */
  lemma {:induction false} OctaveMonotone(start: int, notes: seq<string>, m: int, n: int, descending: bool)
    requires m <= n
    ensures !descending ==> OctaveFrom(start, notes, m, descending) <= OctaveFrom(start, notes, n, descending)
    ensures descending ==> OctaveFrom(start, notes, m, descending) >= OctaveFrom(start, notes, n, descending)
    decreases n - m
  {
    if m < n && n > 0 {
      OctaveMonotone(start, notes, m, n - 1, descending);
    }
  }

  /**
   * Two heights less than an octave apart, both below two octaves: the pitch
   * class drops going up exactly when the octave number goes up, by one.
   */
  lemma WrapStep(a: int, b: int)
    requires 0 <= a < b < a + 12 && b < 24
    ensures StepBetween(a % 12, b % 12, false) == b / 12 - a / 12
    ensures StepBetween(b % 12, a % 12, true) == a / 12 - b / 12
  {
    if a < 12 {
      assert a / 12 == 0 && a % 12 == a;
    } else {
      assert a / 12 == 1 && a % 12 == a - 12;
    }
    if b < 12 {
      assert b / 12 == 0 && b % 12 == b;
    } else {
      assert b / 12 == 1 && b % 12 == b - 12;
    }
  }

  /** The pitch index of a scale note is its offset from C modulo 12. */
  lemma ScalePitch(root: nat, f: seq<nat>, k: int)
    requires 0 <= k < |f|
    ensures Pitch(GetScaleNotes(root, f), k) == (root + f[k]) % 12
  {
    PitchOfName((root + f[k]) % 12);
  }

  /** The same pitch, read from the reversed scale. */
  lemma ReversedScalePitch(root: nat, f: seq<nat>, k: nat, r: nat)
    requires k < |f| && r == |f| - 1 - k
    ensures Pitch(Reverse(GetScaleNotes(root, f)), r) == (root + f[k]) % 12
  {
    var notes := GetScaleNotes(root, f);
    assert Reverse(notes)[r] == notes[k];
    ScalePitch(root, f, k);
  }

  /** One step up an ascending scale changes the octave exactly when the offset crosses 12. */
  lemma AscendingScaleStep(root: nat, f: seq<nat>, j: nat, k: nat)
    requires root < 12 && HeptatonicFormula(f) && k == j + 1 < 7
    ensures OctaveStep(GetScaleNotes(root, f), k, false) == (root + f[k]) / 12 - (root + f[j]) / 12
  {
    assert f[j] < f[k] < 12;
    WrapStep(root + f[j], root + f[k]);
    AscendingStepPitches(root, f, j, k);
  }

  lemma AscendingStepPitches(root: nat, f: seq<nat>, j: nat, k: nat)
    requires k == j + 1 < |f|
    ensures OctaveStep(GetScaleNotes(root, f), k, false)
      == StepBetween((root + f[j]) % 12, (root + f[k]) % 12, false)
  {
    ScalePitch(root, f, j);
    ScalePitch(root, f, k);
    StepOfPitches(GetScaleNotes(root, f), k, false, (root + f[j]) % 12, (root + f[k]) % 12);
  }

  /**
   * A downward step over the reversed notes is the upward step over the same
   * pair of notes, with the opposite sign.
   */
  lemma ReversedStep(notes: seq<string>, i: nat, k: nat)
    requires 0 < i < |notes| && k == |notes| - i
    ensures OctaveStep(Reverse(notes), i, true) == -OctaveStep(notes, k, false)
  {
    var rev := Reverse(notes);
    assert rev[i - 1] == notes[k];
    assert rev[i] == notes[k - 1];
  }

  /**
   * On an ascending scale the walk's octave is exactly the octave the offset
   * lands in: 4 while below 12 semitones above C4, 5 after.
   */
  lemma {:induction false} AscendingOctaveClosedForm(root: nat, f: seq<nat>, k: nat)
    requires root < 12 && HeptatonicFormula(f) && k < 7
    ensures NoteOctave(GetScaleNotes(root, f), k, false) == 4 + (root + f[k]) / 12
    decreases k
  {
    if k == 0 {
      assert (root + f[k]) / 12 == 0;
    } else {
      AscendingOctaveClosedForm(root, f, k - 1);
      AscendingScaleStep(root, f, k - 1, k);
    }
  }

  /** Hence an ascending scale's octaves are 4 or 5. */
  lemma AscendingScaleOctaves(root: nat, f: seq<nat>, k: nat)
    requires root < 12 && HeptatonicFormula(f) && k < 7
    ensures 4 <= NoteOctave(GetScaleNotes(root, f), k, false) <= 5
  {
    AscendingOctaveClosedForm(root, f, k);
  }

  /** The octaves the whole-scale playback uses, note by note, with the screen's loop. */
  method PlayScaleOctaves(notes: seq<string>) returns (octaves: seq<int>)
    ensures |octaves| == |notes|
    ensures forall i :: 0 <= i < |notes| ==> octaves[i] == NoteOctave(notes, i, false)
  {
    octaves := [];
    var current := 4;
    var i := 0;
    while i < |notes|
      invariant 0 <= i <= |notes| && |octaves| == i
      invariant forall j :: 0 <= j < i ==> octaves[j] == NoteOctave(notes, j, false)
      invariant i > 0 ==> current == NoteOctave(notes, i - 1, false)
      invariant i == 0 ==> current == 4
    {
      if i > 0 {
        var currentIndex := NoteIndex(notes[i]);
        var previousIndex := NoteIndex(notes[i - 1]);
        if currentIndex < previousIndex {
          current := current + 1;
        }
      }
      octaves := octaves + [current];
      i := i + 1;
    }
  }

  /** A note's absolute height in semitones above C0. */
  function Height(octave: int, pitch: int): int {
    12 * octave + pitch
  }

  function Reverse(s: seq<string>): (r: seq<string>)
    ensures |r| == |s| && forall i :: 0 <= i < |s| ==> r[i] == s[|s| - 1 - i]
  {
    seq(|s|, i requires 0 <= i < |s| => s[|s| - 1 - i])
  }

  /**
   * As written, the descending playback runs the ascending walk over the
   * reversed notes, so each note is played higher than the one before: in C
   * melodic minor it plays A#4, G#5, G6, F7, D#8, D9, C10.
   */
  lemma DescendingPlaybackClimbs()
    ensures var notes := Reverse(GetScaleNotes(0, Formula(MelodicMinorDescending)));
      && notes == ["A#", "G#", "G", "F", "D#", "D", "C"]
      && NoteOctave(notes, 0, false) == 4
      && NoteOctave(notes, 1, false) == 5
      && NoteOctave(notes, 6, false) == 10
  {
    var up := GetScaleNotes(0, Formula(MelodicMinorDescending));
    assert up == ["C", "D", "D#", "F", "G", "G#", "A#"];
    var notes := Reverse(up);
    assert notes[0] == "A#" && notes[1] == "G#" && notes[2] == "G" && notes[3] == "F";
    assert notes[4] == "D#" && notes[5] == "D" && notes[6] == "C";
    assert notes == ["A#", "G#", "G", "F", "D#", "D", "C"];
    ClimbingWalk(notes);
  }

  lemma ClimbingWalk(notes: seq<string>)
    requires notes == ["A#", "G#", "G", "F", "D#", "D", "C"]
    ensures NoteOctave(notes, 0, false) == 4
    ensures NoteOctave(notes, 1, false) == 5
    ensures NoteOctave(notes, 6, false) == 10
  {
    PitchOfName(10); PitchOfName(8); PitchOfName(7); PitchOfName(5);
    PitchOfName(3); PitchOfName(2); PitchOfName(0);
    assert Pitch(notes, 0) == 10 && Pitch(notes, 1) == 8 && Pitch(notes, 2) == 7;
    assert Pitch(notes, 3) == 5 && Pitch(notes, 4) == 3 && Pitch(notes, 5) == 2 && Pitch(notes, 6) == 0;
    assert OctaveFrom(4, notes, 2, false) == 6;
    assert OctaveFrom(4, notes, 4, false) == 8;
  }

  /**
   * As written, the descending display runs the descending walk over notes
   * listed in ascending order, so the octaves fall with every step: the
   * seventh note of C melodic minor descending is given octave -2.
   */
  lemma DescendingDisplaySinks()
    ensures var notes := GetScaleNotes(0, Formula(MelodicMinorDescending));
      && notes == ["C", "D", "D#", "F", "G", "G#", "A#"]
      && NoteOctave(notes, 6, true) == -2
  {
    var notes := GetScaleNotes(0, Formula(MelodicMinorDescending));
    assert notes == ["C", "D", "D#", "F", "G", "G#", "A#"];
    PitchOfName(10); PitchOfName(8); PitchOfName(7); PitchOfName(5);
    PitchOfName(3); PitchOfName(2); PitchOfName(0);
    assert Pitch(notes, 0) == 0 && Pitch(notes, 1) == 2 && Pitch(notes, 2) == 3;
    assert Pitch(notes, 3) == 5 && Pitch(notes, 4) == 7 && Pitch(notes, 5) == 8 && Pitch(notes, 6) == 10;
    assert OctaveFrom(4, notes, 2, true) == 2;
    assert OctaveFrom(4, notes, 4, true) == 0;
  }

  /**
   * The octaves of the descending playback as intended: the reversed notes
   * walked downwards, starting from the top note's octave in the ascending
   * scale.
   */
  function DescendingPlaybackOctave(root: nat, f: seq<nat>, i: int): int
    requires |f| > 0
  {
    var notes := GetScaleNotes(root, f);
    OctaveFrom(NoteOctave(notes, |f| - 1, false), Reverse(notes), i, true)
  }

  /**
   * One step down the reversed scale, from degree `k` to degree `j`, lowers
   * the octave exactly when the offset crosses 12.
   */
  lemma DescendingScaleStep(root: nat, f: seq<nat>, i: nat, j: nat, k: nat)
    requires root < 12 && HeptatonicFormula(f) && 0 < i < 7 && j == 6 - i && k == 7 - i
    ensures OctaveStep(Reverse(GetScaleNotes(root, f)), i, true) == (root + f[j]) / 12 - (root + f[k]) / 12
  {
    ReversedStep(GetScaleNotes(root, f), i, k);
    AscendingScaleStep(root, f, j, k);
  }

  /**
   * The intended descending playback plays exactly the ascending scale's
   * notes in reverse, each at the octave it has going up.
   */
  lemma DescendingPlaybackMirrors(root: nat, f: seq<nat>, i: nat)
    requires root < 12 && HeptatonicFormula(f) && i < 7
    ensures DescendingPlaybackOctave(root, f, i) == NoteOctave(GetScaleNotes(root, f), 6 - i, false)
  {
    MirrorsFrom(root, f, i, 6 - i);
  }

  lemma {:induction false} MirrorsFrom(root: nat, f: seq<nat>, i: nat, j: nat)
    requires root < 12 && HeptatonicFormula(f) && i + j == 6
    ensures DescendingPlaybackOctave(root, f, i) == NoteOctave(GetScaleNotes(root, f), j, false)
    decreases i
  {
    if i > 0 {
      MirrorsFrom(root, f, i - 1, j + 1);
      MirrorStep(root, f, i, j, j + 1);
    }
  }

  lemma MirrorStep(root: nat, f: seq<nat>, i: nat, j: nat, k: nat)
    requires root < 12 && HeptatonicFormula(f) && 0 < i < 7 && j == 6 - i && k == 7 - i
    requires DescendingPlaybackOctave(root, f, i - 1) == NoteOctave(GetScaleNotes(root, f), k, false)
    ensures DescendingPlaybackOctave(root, f, i) == NoteOctave(GetScaleNotes(root, f), j, false)
  {
    var notes := GetScaleNotes(root, f);
    var rev, start := Reverse(notes), NoteOctave(notes, 6, false);
    assert DescendingPlaybackOctave(root, f, i) == OctaveFrom(start, rev, i, true)
      == OctaveFrom(start, rev, i - 1, true) + OctaveStep(rev, i, true);
    AscendingOctaveClosedForm(root, f, j);
    AscendingOctaveClosedForm(root, f, k);
    DescendingScaleStep(root, f, i, j, k);
  }

  /**
   * The height of a scale note at its ascending octave is its offset above
   * C4; `r` is the note's place in the reversed scale.
   */
  lemma ScaleHeight(root: nat, f: seq<nat>, k: nat, r: nat)
    requires root < 12 && HeptatonicFormula(f) && k < 7 && r == 6 - k
    ensures Height(NoteOctave(GetScaleNotes(root, f), k, false), Pitch(Reverse(GetScaleNotes(root, f)), r))
      == 48 + root + f[k]
  {
    AscendingOctaveClosedForm(root, f, k);
    ReversedScalePitch(root, f, k, r);
    var x := root + f[k];
    assert 12 * (x / 12) + x % 12 == x;
  }

  /**
   * Hence in the intended descending playback every note is lower than the
   * one before it.
   */
  lemma DescendingPlaybackDescends(root: nat, f: seq<nat>, i: nat)
    requires root < 12 && HeptatonicFormula(f) && 0 < i < 7
    ensures var rev := Reverse(GetScaleNotes(root, f));
      Height(DescendingPlaybackOctave(root, f, i), Pitch(rev, i))
        < Height(DescendingPlaybackOctave(root, f, i - 1), Pitch(rev, i - 1))
  {
    var j, k := 6 - i, 7 - i;
    MirrorsFrom(root, f, i, j);
    MirrorsFrom(root, f, i - 1, k);
    ScaleHeight(root, f, j, i);
    ScaleHeight(root, f, k, i - 1);
    assert f[j] < f[k];
  }

  /**
   * The descending display as intended: the notes shown are the ascending
   * notes of the descending formula, so they take the ascending walk's
   * octaves and stay within octaves 4 and 5.
   */
  lemma DescendingDisplayIntended(root: nat, k: nat)
    requires root < 12 && k < 7
    ensures 4 <= NoteOctave(GetScaleNotes(root, Formula(MelodicMinorDescending)), k, false) <= 5
  {
    FormulasHeptatonic(MelodicMinorDescending);
    AscendingScaleOctaves(root, Formula(MelodicMinorDescending), k);
  }
}
