/**
 * The chord tables: nine groups of six-string fret shapes, their in-order
 * concatenation and the fretted positions derived from each shape.
 */
module ChordDatabase {
  import opened Wrappers

  /** A pressed position: string 1..6 (6 is the thickest) and fret. */
  datatype Position = Position(str: int, fret: int)

  /**
   * One chord shape. `frets[k]` is the fret of string k+1, `None` for a muted
   * string and `Some(0)` for an open one; `fingers` runs parallel to it.
   */
  datatype ChordData = Chord(id: string, name: string, frets: seq<Option<int>>,
                             fingers: seq<Option<int>>, startFret: Option<int>)

  /** The game-facing view of a chord: its name, fretted positions and caption. */
  datatype ChordPattern = Pattern(name: string, positions: seq<Position>, description: string)

  const MajorChords: seq<ChordData> := [
      Chord("C", "C", [Some(0), Some(1), Some(0), Some(2), Some(3), None], [None, Some(1), None, Some(2), Some(3), None], None),
      Chord("D", "D", [Some(2), Some(3), Some(2), Some(0), None, None], [Some(1), Some(3), Some(2), None, None, None], None),
      Chord("E", "E", [Some(0), Some(0), Some(1), Some(2), Some(2), Some(0)], [None, None, Some(1), Some(2), Some(3), None], None),
      Chord("F", "F", [Some(1), Some(1), Some(2), Some(3), Some(3), Some(1)], [Some(1), Some(1), Some(2), Some(4), Some(3), Some(1)], None),
      Chord("G", "G", [Some(3), Some(0), Some(0), Some(0), Some(2), Some(3)], [Some(3), None, None, None, Some(2), Some(4)], None),
      Chord("A", "A", [Some(0), Some(2), Some(2), Some(2), Some(0), None], [None, Some(1), Some(2), Some(3), None, None], None),
      Chord("B", "B", [Some(2), Some(4), Some(4), Some(4), Some(2), None], [Some(1), Some(4), Some(3), Some(2), Some(1), None], None)
    ]

  const MinorChords: seq<ChordData> := [
      Chord("Cm", "Cm", [Some(4), Some(1), Some(0), Some(1), Some(3), None], [Some(4), Some(2), Some(0), Some(1), Some(3), None], None),
      Chord("Dm", "Dm", [Some(1), Some(3), Some(2), Some(0), None, None], [Some(1), Some(4), Some(2), None, None, None], None),
      Chord("Em", "Em", [Some(0), Some(0), Some(0), Some(2), Some(2), Some(0)], [None, None, None, Some(2), Some(3), None], None),
      Chord("Fm", "Fm", [Some(1), Some(1), Some(1), Some(3), Some(3), Some(1)], [Some(1), Some(1), Some(1), Some(4), Some(3), Some(1)], None),
      Chord("Gm", "Gm", [Some(2), Some(2), Some(2), Some(4), Some(4), Some(2)], [Some(1), Some(1), Some(1), Some(4), Some(3), Some(1)], Some(2)),
      Chord("Am", "Am", [Some(0), Some(1), Some(2), Some(2), Some(0), None], [None, Some(1), Some(2), Some(3), None, None], None),
      Chord("Bm", "Bm", [Some(2), Some(3), Some(4), Some(4), Some(2), None], [Some(1), Some(2), Some(4), Some(3), Some(1), None], None)
    ]

  const Dominant7Chords: seq<ChordData> := [
      Chord("C7", "C7", [Some(0), Some(1), Some(3), Some(2), Some(3), None], [None, Some(1), Some(4), Some(2), Some(3), None], None),
      Chord("D7", "D7", [Some(2), Some(1), Some(2), Some(0), None, None], [Some(2), Some(1), Some(3), None, None, None], None),
      Chord("E7", "E7", [Some(0), Some(0), Some(1), Some(0), Some(2), Some(0)], [None, None, Some(1), None, Some(2), None], None),
      Chord("F7", "F7", [Some(1), Some(1), Some(2), Some(1), Some(3), Some(1)], [Some(1), Some(1), Some(2), Some(1), Some(3), Some(1)], None),
      Chord("G7", "G7", [Some(1), Some(0), Some(0), Some(0), Some(2), Some(3)], [Some(1), None, None, None, Some(2), Some(3)], None),
      Chord("A7", "A7", [Some(0), Some(2), Some(0), Some(2), Some(0), None], [None, Some(2), None, Some(3), None, None], None),
      Chord("B7", "B7", [Some(2), Some(1), Some(2), Some(0), Some(2), None], [Some(2), Some(1), Some(3), None, Some(4), None], None)
    ]

  const Minor7Chords: seq<ChordData> := [
      Chord("Cm7", "Cm7", [None, Some(1), Some(3), Some(1), Some(3), None], [None, Some(1), Some(4), Some(1), Some(3), None], None),
      Chord("Dm7", "Dm7", [Some(1), Some(1), Some(2), Some(0), None, None], [Some(1), Some(1), Some(2), None, None, None], None),
      Chord("Em7", "Em7", [Some(0), Some(0), Some(0), Some(0), Some(2), Some(0)], [None, None, None, None, Some(2), None], None),
      Chord("Fm7", "Fm7", [Some(1), Some(1), Some(1), Some(1), Some(3), Some(1)], [Some(1), Some(1), Some(1), Some(1), Some(3), Some(1)], None),
      Chord("Gm7", "Gm7", [Some(2), Some(2), Some(2), Some(2), Some(4), Some(2)], [Some(1), Some(1), Some(1), Some(1), Some(3), Some(1)], Some(2)),
      Chord("Am7", "Am7", [Some(0), Some(1), Some(0), Some(2), Some(0), None], [None, Some(1), None, Some(2), None, None], None),
      Chord("Bm7", "Bm7", [Some(2), Some(0), Some(2), Some(0), Some(2), None], [Some(1), None, Some(2), None, Some(3), None], None)
    ]

  const Major7Chords: seq<ChordData> := [
      Chord("Cmaj7", "Cmaj7", [Some(0), Some(0), Some(0), Some(2), Some(3), None], [None, None, None, Some(1), Some(2), None], None),
      Chord("Dmaj7", "Dmaj7", [Some(2), Some(2), Some(2), Some(0), None, None], [Some(1), Some(1), Some(1), None, None, None], None),
      Chord("Emaj7", "Emaj7", [Some(0), Some(0), Some(1), Some(1), Some(2), Some(0)], [None, None, Some(1), Some(2), Some(3), None], None),
      Chord("Fmaj7", "Fmaj7", [Some(0), Some(1), Some(2), Some(3), None, None], [Some(0), Some(1), Some(2), Some(3), None, None], None),
      Chord("Gmaj7", "Gmaj7", [Some(2), Some(0), Some(0), Some(0), Some(2), Some(3)], [Some(1), None, None, None, Some(2), Some(3)], None),
      Chord("Amaj7", "Amaj7", [Some(0), Some(2), Some(1), Some(2), Some(0), None], [None, Some(2), Some(1), Some(3), None, None], None),
      Chord("Bmaj7", "Bmaj7", [Some(2), Some(0), Some(3), Some(1), None, None], [Some(3), Some(0), Some(4), Some(1), None, None], None)
    ]

  const SuspendedChords: seq<ChordData> := [
      Chord("Csus2", "Csus2", [Some(0), Some(1), Some(0), Some(0), Some(3), None], [None, Some(1), None, None, Some(3), None], None),
      Chord("Csus4", "Csus4", [Some(0), Some(1), Some(1), Some(3), Some(3), None], [None, Some(1), Some(1), Some(3), Some(4), None], None),
      Chord("Dsus2", "Dsus2", [Some(0), Some(3), Some(2), Some(0), None, None], [None, Some(3), Some(2), None, None, None], None),
      Chord("Dsus4", "Dsus4", [Some(3), Some(3), Some(2), Some(0), None, None], [Some(3), Some(2), Some(1), Some(0), None, None], None),
      Chord("Esus2", "Esus2", [Some(0), Some(0), Some(2), Some(2), Some(0), Some(0)], [None, None, Some(1), Some(2), None, None], None),
      Chord("Esus4", "Esus4", [Some(0), Some(0), Some(2), Some(2), Some(0), Some(0)], [None, None, Some(1), Some(2), None, None], None),
      Chord("Asus2", "Asus2", [Some(0), Some(0), Some(2), Some(2), Some(0), None], [None, None, Some(1), Some(2), None, None], None),
      Chord("Asus4", "Asus4", [Some(0), Some(3), Some(2), Some(2), Some(0), None], [None, Some(3), Some(1), Some(2), None, None], None)
    ]

  const DiminishedChords: seq<ChordData> := [
      Chord("Cdim", "Cdim", [None, Some(1), Some(2), Some(0), Some(2), None], [None, Some(1), Some(3), None, Some(4), None], None),
      Chord("Ddim", "Ddim", [None, None, Some(0), Some(1), Some(0), Some(1)], [None, None, None, Some(1), None, Some(2)], None),
      Chord("Edim", "Edim", [None, Some(1), Some(2), Some(0), Some(2), Some(0)], [None, Some(1), Some(3), None, Some(4), None], None),
      Chord("Gdim", "Gdim", [None, Some(1), Some(2), Some(0), Some(2), Some(0)], [None, Some(1), Some(3), None, Some(4), None], None),
      Chord("Adim", "Adim", [None, Some(0), Some(1), Some(2), Some(1), None], [None, None, Some(1), Some(3), Some(2), None], None),
      Chord("Bdim", "Bdim", [None, Some(2), Some(0), Some(1), Some(0), None], [None, Some(2), None, Some(1), None, None], None)
    ]

  const Add9Chords: seq<ChordData> := [
      Chord("Cadd9", "Cadd9", [Some(0), Some(3), Some(0), Some(2), Some(3), None], [None, Some(2), None, Some(1), Some(3), None], None),
      Chord("Dadd9", "Dadd9", [Some(0), Some(3), Some(2), Some(0), None, None], [None, Some(3), Some(2), None, None, None], None),
      Chord("Gadd9", "Gadd9", [Some(3), Some(0), Some(0), Some(2), Some(0), Some(3)], [Some(3), None, None, Some(2), None, Some(4)], None),
      Chord("Aadd9", "Aadd9", [Some(0), Some(0), Some(2), Some(2), Some(0), None], [None, None, Some(1), Some(2), None, None], None)
    ]

  const SixthChords: seq<ChordData> := [
      Chord("C6", "C6", [Some(0), Some(1), Some(2), Some(2), Some(3), None], [None, Some(1), Some(2), Some(3), Some(4), None], None),
      Chord("D6", "D6", [Some(2), Some(0), Some(2), Some(0), None, None], [Some(1), None, Some(2), None, None, None], None),
      Chord("G6", "G6", [Some(3), Some(0), Some(0), Some(0), Some(0), Some(3)], [Some(3), None, None, None, None, Some(4)], None),
      Chord("A6", "A6", [Some(0), Some(0), Some(2), Some(2), Some(2), None], [None, None, Some(1), Some(2), Some(3), None], None)
    ]

  /** The whole database: the nine groups in declaration order. */
  const AllChords: seq<ChordData> :=
    MajorChords + MinorChords + Dominant7Chords + Minor7Chords + Major7Chords
    + SuspendedChords + DiminishedChords + Add9Chords + SixthChords

  /** The shape every entry of the tables has: six strings, frets 0..4 where sounded, id equal to name. */
  predicate WellFormed(c: ChordData) {
    && |c.frets| == 6
    && |c.fingers| == 6
    && c.id == c.name
    && forall k :: 0 <= k < 6 && c.frets[k].Some? ==> 0 <= c.frets[k].value <= 4
  }

  /** No two entries of `s` share a name. */
  predicate UniqueNames(s: seq<ChordData>) {
    forall i, j :: 0 <= i < j < |s| ==> s[i].name != s[j].name
  }

  /** True iff some entry of `s` is called `name`. */
  predicate HasName(s: seq<ChordData>, name: string) {
    exists i :: 0 <= i < |s| && s[i].name == name
  }

  /**
   * The chord family a name belongs to, read off its suffix; the nine groups
   * are families 0 to 8 in order.  Used to separate the groups' names.
   */
  function Family(name: string): int {
    if |name| == 1 then 0
    else if |name| == 2 && name[1] == 'm' then 1
    else if |name| == 2 && name[1] == '7' then 2
    else if |name| == 3 then 3
    else if |name| == 5 && name[4] == '7' then 4
    else if |name| == 5 && name[1] == 's' then 5
    else if |name| == 4 then 6
    else if |name| == 5 && name[1] == 'a' then 7
    else if |name| == 2 && name[1] == '6' then 8
    else 9
  }

  /** The groups hold 7, 7, 7, 7, 7, 8, 6, 4 and 4 chords: 57 in all. */
  lemma AllChordsCount()
    ensures |MajorChords| == 7 && |MinorChords| == 7 && |Dominant7Chords| == 7
    ensures |Minor7Chords| == 7 && |Major7Chords| == 7 && |SuspendedChords| == 8
    ensures |DiminishedChords| == 6 && |Add9Chords| == 4 && |SixthChords| == 4
    ensures |AllChords| == 57
    ensures AllChords[..7] == MajorChords && AllChords[57 - 4..] == SixthChords
  {
  }

  // Per-group facts, each checked directly on the table literal.

  lemma MajorWF()
    ensures forall c :: c in MajorChords ==> WellFormed(c)
  {
  }

  lemma MajorFam()
    ensures forall c :: c in MajorChords ==> Family(c.name) == 0
  {
    MajorNamesOf();
    assert forall i :: 0 <= i < |MajorNames| ==> Family(MajorNames[i]) == 0;
    NamesFamily(MajorChords, MajorNames, 0);
  }

  lemma MajorUniq()
    ensures UniqueNames(MajorChords)
  {
  }

  lemma MinorWF()
    ensures forall c :: c in MinorChords ==> WellFormed(c)
  {
  }

  lemma MinorFam()
    ensures forall c :: c in MinorChords ==> Family(c.name) == 1
  {
    MinorNamesOf();
    assert forall i :: 0 <= i < |MinorNames| ==> Family(MinorNames[i]) == 1;
    NamesFamily(MinorChords, MinorNames, 1);
  }

  lemma MinorUniq()
    ensures UniqueNames(MinorChords)
  {
  }

  lemma Dominant7WF()
    ensures forall c :: c in Dominant7Chords ==> WellFormed(c)
  {
  }

  lemma Dominant7Fam()
    ensures forall c :: c in Dominant7Chords ==> Family(c.name) == 2
  {
    Dominant7NamesOf();
    assert forall i :: 0 <= i < |Dominant7Names| ==> Family(Dominant7Names[i]) == 2;
    NamesFamily(Dominant7Chords, Dominant7Names, 2);
  }

  lemma Dominant7Uniq()
    ensures UniqueNames(Dominant7Chords)
  {
  }

  lemma Minor7WF()
    ensures forall c :: c in Minor7Chords ==> WellFormed(c)
  {
  }

  lemma Minor7Fam()
    ensures forall c :: c in Minor7Chords ==> Family(c.name) == 3
  {
    Minor7NamesOf();
    assert forall i :: 0 <= i < |Minor7Names| ==> Family(Minor7Names[i]) == 3;
    NamesFamily(Minor7Chords, Minor7Names, 3);
  }

  lemma Minor7Uniq()
    ensures UniqueNames(Minor7Chords)
  {
  }

  lemma Major7WF()
    ensures forall c :: c in Major7Chords ==> WellFormed(c)
  {
  }

  lemma Major7Fam()
    ensures forall c :: c in Major7Chords ==> Family(c.name) == 4
  {
    Major7NamesOf();
    assert forall i :: 0 <= i < |Major7Names| ==> Family(Major7Names[i]) == 4;
    NamesFamily(Major7Chords, Major7Names, 4);
  }

  lemma Major7Uniq()
    ensures UniqueNames(Major7Chords)
  {
  }

  lemma SuspendedWF()
    ensures forall c :: c in SuspendedChords ==> WellFormed(c)
  {
  }

  lemma SuspendedFam()
    ensures forall c :: c in SuspendedChords ==> Family(c.name) == 5
  {
    SuspendedNamesOf();
    assert forall i :: 0 <= i < |SuspendedNames| ==> Family(SuspendedNames[i]) == 5;
    NamesFamily(SuspendedChords, SuspendedNames, 5);
  }

  lemma SuspendedUniq()
    ensures UniqueNames(SuspendedChords)
  {
  }

  lemma DiminishedWF()
    ensures forall c :: c in DiminishedChords ==> WellFormed(c)
  {
  }

  lemma DiminishedFam()
    ensures forall c :: c in DiminishedChords ==> Family(c.name) == 6
  {
    DiminishedNamesOf();
    assert forall i :: 0 <= i < |DiminishedNames| ==> Family(DiminishedNames[i]) == 6;
    NamesFamily(DiminishedChords, DiminishedNames, 6);
  }

  lemma DiminishedUniq()
    ensures UniqueNames(DiminishedChords)
  {
  }

  lemma Add9WF()
    ensures forall c :: c in Add9Chords ==> WellFormed(c)
  {
  }

  lemma Add9Fam()
    ensures forall c :: c in Add9Chords ==> Family(c.name) == 7
  {
    Add9NamesOf();
    assert forall i :: 0 <= i < |Add9Names| ==> Family(Add9Names[i]) == 7;
    NamesFamily(Add9Chords, Add9Names, 7);
  }

  lemma Add9Uniq()
    ensures UniqueNames(Add9Chords)
  {
  }

  lemma SixthWF()
    ensures forall c :: c in SixthChords ==> WellFormed(c)
  {
  }

  lemma SixthFam()
    ensures forall c :: c in SixthChords ==> Family(c.name) == 8
  {
    SixthNamesOf();
    assert forall i :: 0 <= i < |SixthNames| ==> Family(SixthNames[i]) == 8;
    NamesFamily(SixthChords, SixthNames, 8);
  }

  lemma SixthUniq()
    ensures UniqueNames(SixthChords)
  {
  }

  /** A group whose names all belong to family `k` has only entries of family `k`. */
  lemma NamesFamily(s: seq<ChordData>, names: seq<string>, k: int)
    requires NamesOf(s) == names
    requires forall i :: 0 <= i < |names| ==> Family(names[i]) == k
    ensures forall c :: c in s ==> Family(c.name) == k
  {
    forall c | c in s ensures Family(c.name) == k {
      var i :| 0 <= i < |s| && s[i] == c;
      assert names[i] == c.name;
    }
  }

  /**
   * Appending a name-unique group of family `k` to a name-unique list of
   * families below `k` keeps names unique.
   */
  lemma AppendFamily(a: seq<ChordData>, b: seq<ChordData>, k: int)
    requires UniqueNames(a) && UniqueNames(b)
    requires forall x :: x in a ==> Family(x.name) < k
    requires forall y :: y in b ==> Family(y.name) == k
    ensures UniqueNames(a + b)
    ensures forall x :: x in a + b ==> Family(x.name) < k + 1
  {
    forall i, j | 0 <= i < j < |a + b|
      ensures (a + b)[i].name != (a + b)[j].name
    {
      if j < |a| {
        assert (a + b)[i] == a[i] && (a + b)[j] == a[j];
      } else if i >= |a| {
        assert (a + b)[i] == b[i - |a|] && (a + b)[j] == b[j - |a|];
      } else {
        assert (a + b)[i] in a && (a + b)[j] in b;
      }
    }
  }

  /** Names are unique across the whole database (and so are ids, which equal names). */
  lemma AllChordsUnique()
    ensures UniqueNames(AllChords)
  {
    MajorFam(); MajorUniq();
    MinorFam(); MinorUniq();
    Dominant7Fam(); Dominant7Uniq();
    Minor7Fam(); Minor7Uniq();
    Major7Fam(); Major7Uniq();
    SuspendedFam(); SuspendedUniq();
    DiminishedFam(); DiminishedUniq();
    Add9Fam(); Add9Uniq();
    SixthFam(); SixthUniq();
    AppendFamily(MajorChords, MinorChords, 1);
    AppendFamily(MajorChords + MinorChords, Dominant7Chords, 2);
    AppendFamily(MajorChords + MinorChords + Dominant7Chords, Minor7Chords, 3);
    AppendFamily(MajorChords + MinorChords + Dominant7Chords + Minor7Chords, Major7Chords, 4);
    AppendFamily(MajorChords + MinorChords + Dominant7Chords + Minor7Chords + Major7Chords, SuspendedChords, 5);
    AppendFamily(MajorChords + MinorChords + Dominant7Chords + Minor7Chords + Major7Chords + SuspendedChords, DiminishedChords, 6);
    AppendFamily(MajorChords + MinorChords + Dominant7Chords + Minor7Chords + Major7Chords + SuspendedChords + DiminishedChords, Add9Chords, 7);
    AppendFamily(MajorChords + MinorChords + Dominant7Chords + Minor7Chords + Major7Chords + SuspendedChords + DiminishedChords + Add9Chords, SixthChords, 8);
  }

  /** Every entry of the database is well formed. */
  lemma AllChordsWellFormed()
    ensures forall i :: 0 <= i < |AllChords| ==> WellFormed(AllChords[i])
  {
    MajorWF();
    MinorWF();
    Dominant7WF();
    Minor7WF();
    Major7WF();
    SuspendedWF();
    DiminishedWF();
    Add9WF();
    SixthWF();
    assert forall c :: c in AllChords ==> WellFormed(c);
  }

  /** A fretted (sounded, not open, not muted) slot. */
  predicate Fretted(f: Option<int>) {
    f.Some? && f.value > 0
  }

  /** Strings strictly increase along `ps`: at most one position per string, in string order. */
  predicate StrictlyByString(ps: seq<Position>) {
    forall k, l :: 0 <= k < l < |ps| ==> ps[k].str < ps[l].str
  }

  /** `p` names a fretted slot of the fret array: string `p.str` is pressed at fret `p.fret`. */
  predicate SlotOf(frets: seq<Option<int>>, p: Position) {
    1 <= p.str <= |frets| && Fretted(frets[p.str - 1]) && frets[p.str - 1].value == p.fret
  }

  /**
   * The positions of the fretted slots `i..` of a fret array, as
   * `(index + 1, fret)`; open and muted strings contribute nothing.
   */
  function PositionsFrom(frets: seq<Option<int>>, i: nat): (ps: seq<Position>)
    requires i <= |frets|
    ensures forall k :: 0 <= k < |ps| ==> i < ps[k].str && SlotOf(frets, ps[k])
    ensures forall j :: i <= j < |frets| && Fretted(frets[j]) ==> Position(j + 1, frets[j].value) in ps
    ensures StrictlyByString(ps)
    decreases |frets| - i
  {
    if i == |frets| then []
    else
      var rest := PositionsFrom(frets, i + 1);
      if Fretted(frets[i]) then [Position(i + 1, frets[i].value)] + rest else rest
  }

  /** The pattern positions of a whole fret array. */
  function PatternPositions(frets: seq<Option<int>>): seq<Position> {
    PositionsFrom(frets, 0)
  }

  /** The game-facing pattern of one chord. */
  function PatternOf(c: ChordData): ChordPattern {
    Pattern(c.name, PatternPositions(c.frets), c.name + " 코드")
  }

  /** The patterns of `s`, in order. */
  function PatternsOf(s: seq<ChordData>): (r: seq<ChordPattern>)
    ensures |r| == |s| && forall i :: 0 <= i < |s| ==> r[i] == PatternOf(s[i])
    decreases |s|
  {
    if |s| == 0 then [] else [PatternOf(s[0])] + PatternsOf(s[1..])
  }

  /** One pattern per chord of the database, in database order. */
  const AllChordPatterns: seq<ChordPattern> := PatternsOf(AllChords)

  /** The position set of a pattern is exactly the fretted slots of its chord. */
  lemma PatternPositionsExact(frets: seq<Option<int>>, p: Position)
    ensures p in PatternPositions(frets) <==>
      1 <= p.str <= |frets| && Fretted(frets[p.str - 1]) && frets[p.str - 1].value == p.fret
  {
    var ps := PatternPositions(frets);
    if p in ps {
      var k :| 0 <= k < |ps| && ps[k] == p;
    }
  }

  /**
   * Every pattern has its chord's name and the caption `name + " 코드"`, and
   * its positions lie on strings 1..6 and frets 1..4, one per string at most,
   * in increasing string order.
   */
  lemma AllChordPatternsFacts()
    ensures |AllChordPatterns| == |AllChords| == 57
    ensures forall i :: 0 <= i < |AllChordPatterns| ==>
      && AllChordPatterns[i].name == AllChords[i].name
      && AllChordPatterns[i].description == AllChords[i].name + " 코드"
      && StrictlyByString(AllChordPatterns[i].positions)
      && forall p :: p in AllChordPatterns[i].positions ==> 1 <= p.str <= 6 && 1 <= p.fret <= 4
  {
    AllChordsCount();
    AllChordsWellFormed();
    forall i, p | 0 <= i < |AllChordPatterns| && p in AllChordPatterns[i].positions
      ensures 1 <= p.str <= 6 && 1 <= p.fret <= 4
    {
      PatternPositionsExact(AllChords[i].frets, p);
    }
  }

  /** The names of `s`, in order. */
  function NamesOf(s: seq<ChordData>): (r: seq<string>)
    ensures |r| == |s| && forall i :: 0 <= i < |s| ==> r[i] == s[i].name
  {
    seq(|s|, i requires 0 <= i < |s| => s[i].name)
  }

  lemma NamesOfAppend(a: seq<ChordData>, b: seq<ChordData>)
    ensures NamesOf(a + b) == NamesOf(a) + NamesOf(b)
  {
  }

  // The names of each group, in order.
  const MajorNames: seq<string> := ["C", "D", "E", "F", "G", "A", "B"]
  const MinorNames: seq<string> := ["Cm", "Dm", "Em", "Fm", "Gm", "Am", "Bm"]
  const Dominant7Names: seq<string> := ["C7", "D7", "E7", "F7", "G7", "A7", "B7"]
  const Minor7Names: seq<string> := ["Cm7", "Dm7", "Em7", "Fm7", "Gm7", "Am7", "Bm7"]
  const Major7Names: seq<string> := ["Cmaj7", "Dmaj7", "Emaj7", "Fmaj7", "Gmaj7", "Amaj7", "Bmaj7"]
  const SuspendedNames: seq<string> := ["Csus2", "Csus4", "Dsus2", "Dsus4", "Esus2", "Esus4", "Asus2", "Asus4"]
  const DiminishedNames: seq<string> := ["Cdim", "Ddim", "Edim", "Gdim", "Adim", "Bdim"]
  const Add9Names: seq<string> := ["Cadd9", "Dadd9", "Gadd9", "Aadd9"]
  const SixthNames: seq<string> := ["C6", "D6", "G6", "A6"]

  /** The database's names in order. */
  const AllNames: seq<string> :=
    MajorNames + MinorNames + Dominant7Names + Minor7Names + Major7Names
    + SuspendedNames + DiminishedNames + Add9Names + SixthNames

  lemma MajorNamesOf()
    ensures NamesOf(MajorChords) == MajorNames
  {
  }

  lemma MinorNamesOf()
    ensures NamesOf(MinorChords) == MinorNames
  {
  }

  lemma Dominant7NamesOf()
    ensures NamesOf(Dominant7Chords) == Dominant7Names
  {
  }

  lemma Minor7NamesOf()
    ensures NamesOf(Minor7Chords) == Minor7Names
  {
  }

  lemma Major7NamesOf()
    ensures NamesOf(Major7Chords) == Major7Names
  {
  }

  lemma SuspendedNamesOf()
    ensures NamesOf(SuspendedChords) == SuspendedNames
  {
  }

  lemma DiminishedNamesOf()
    ensures NamesOf(DiminishedChords) == DiminishedNames
  {
  }

  lemma Add9NamesOf()
    ensures NamesOf(Add9Chords) == Add9Names
  {
  }

  lemma SixthNamesOf()
    ensures NamesOf(SixthChords) == SixthNames
  {
  }

  /** `AllNames` lists the database's names: `HasName` is membership in it. */
  lemma AllNamesCorrect()
    ensures NamesOf(AllChords) == AllNames
    ensures forall n :: HasName(AllChords, n) <==> n in AllNames
  {
    MajorNamesOf();
    MinorNamesOf();
    Dominant7NamesOf();
    Minor7NamesOf();
    Major7NamesOf();
    SuspendedNamesOf();
    DiminishedNamesOf();
    Add9NamesOf();
    SixthNamesOf();
    NamesOfAppend(MajorChords, MinorChords);
    NamesOfAppend(MajorChords + MinorChords, Dominant7Chords);
    NamesOfAppend(MajorChords + MinorChords + Dominant7Chords, Minor7Chords);
    NamesOfAppend(MajorChords + MinorChords + Dominant7Chords + Minor7Chords, Major7Chords);
    NamesOfAppend(MajorChords + MinorChords + Dominant7Chords + Minor7Chords + Major7Chords, SuspendedChords);
    NamesOfAppend(MajorChords + MinorChords + Dominant7Chords + Minor7Chords + Major7Chords + SuspendedChords, DiminishedChords);
    NamesOfAppend(MajorChords + MinorChords + Dominant7Chords + Minor7Chords + Major7Chords + SuspendedChords + DiminishedChords, Add9Chords);
    NamesOfAppend(MajorChords + MinorChords + Dominant7Chords + Minor7Chords + Major7Chords + SuspendedChords + DiminishedChords + Add9Chords, SixthChords);
    forall n ensures HasName(AllChords, n) <==> n in AllNames {
      if n in AllNames {
        var i :| 0 <= i < |AllNames| && AllNames[i] == n;
        assert AllChords[i].name == n;
      }
    }
  }

  /** No name appears twice in `AllNames`. */
  lemma AllNamesDistinct()
    ensures |AllNames| == 57
    ensures forall i, j :: 0 <= i < j < |AllNames| ==> AllNames[i] != AllNames[j]
  {
    AllNamesCorrect();
    AllChordsUnique();
    AllChordsCount();
  }

  /** The names after the first three groups: the seventh, suspended, diminished, add9 and sixth chords. */
  lemma ExtendedNames()
    ensures AllNames[21..] == Minor7Names + Major7Names + SuspendedNames + DiminishedNames + Add9Names + SixthNames
  {
    var head := MajorNames + MinorNames + Dominant7Names;
    var tail := Minor7Names + Major7Names + SuspendedNames + DiminishedNames + Add9Names + SixthNames;
    assert |head| == 21;
    assert AllNames == head + tail;
  }
}
