/**
 * The chord dictionary screen: a search box and a category picker over the
 * chord information table. A chord is listed when its short or full name
 * contains the search term, ignoring letter case, and its category is the
 * picked one or the picker is on "all".
 */
module ChordInfo {
  import opened Seqs
  import Text

  /**
   * A chord's dictionary entry: short name, full name, difficulty and
   * category. Its positions, notes, description and tips are not modelled.
   */
  datatype ChordInfo = Info(name: string, fullName: string, difficulty: string, category: string)

  /** The picker's "all" choice. */
  const AllCategory: string := "전체"

  /** The choices of the category picker, "all" first. */
  const Categories: seq<string> :=
    ["전체", "메이저", "마이너", "세븐스", "마이너7", "메이저7", "서스펜디드", "디미니쉬드", "애드나인", "식스", "바레"]

  // The chord information table, group by group as the table lists them.

  const MajorInfo: seq<ChordInfo> := [
    Info("C", "C Major", "초급", "메이저"),
    Info("D", "D Major", "초급", "메이저"),
    Info("E", "E Major", "초급", "메이저"),
    Info("F", "F Major", "중급", "바레"),
    Info("G", "G Major", "초급", "메이저"),
    Info("A", "A Major", "초급", "메이저"),
    Info("B", "B Major", "중급", "바레")
  ]

  const MinorInfo: seq<ChordInfo> := [
    Info("Cm", "C Minor", "중급", "마이너"),
    Info("Dm", "D Minor", "초급", "마이너"),
    Info("Em", "E Minor", "초급", "마이너"),
    Info("Fm", "F Minor", "중급", "바레"),
    Info("Gm", "G Minor", "중급", "바레"),
    Info("Am", "A Minor", "초급", "마이너"),
    Info("Bm", "B Minor", "중급", "바레")
  ]

  const SeventhInfo: seq<ChordInfo> := [
    Info("C7", "C Dominant 7th", "중급", "세븐스"),
    Info("D7", "D Dominant 7th", "초급", "세븐스"),
    Info("E7", "E Dominant 7th", "초급", "세븐스"),
    Info("G7", "G Dominant 7th", "중급", "세븐스"),
    Info("A7", "A Dominant 7th", "초급", "세븐스"),
    Info("B7", "B Dominant 7th", "중급", "세븐스")
  ]

  const Minor7Info: seq<ChordInfo> := [
    Info("Am7", "A Minor 7th", "초급", "마이너7"),
    Info("Em7", "E Minor 7th", "초급", "마이너7"),
    Info("Dm7", "D Minor 7th", "초급", "마이너7")
  ]

  const Major7Info: seq<ChordInfo> := [
    Info("Cmaj7", "C Major 7th", "초급", "메이저7"),
    Info("Dmaj7", "D Major 7th", "초급", "메이저7"),
    Info("Emaj7", "E Major 7th", "초급", "메이저7"),
    Info("Gmaj7", "G Major 7th", "중급", "메이저7"),
    Info("Amaj7", "A Major 7th", "중급", "메이저7")
  ]

  const SuspendedInfo: seq<ChordInfo> := [
    Info("Csus2", "C Suspended 2nd", "초급", "서스펜디드"),
    Info("Csus4", "C Suspended 4th", "중급", "서스펜디드"),
    Info("Dsus2", "D Suspended 2nd", "초급", "서스펜디드"),
    Info("Dsus4", "D Suspended 4th", "중급", "서스펜디드"),
    Info("Esus2", "E Suspended 2nd", "초급", "서스펜디드"),
    Info("Esus4", "E Suspended 4th", "초급", "서스펜디드"),
    Info("Gsus2", "G Suspended 2nd", "중급", "서스펜디드"),
    Info("Gsus4", "G Suspended 4th", "중급", "서스펜디드"),
    Info("Asus2", "A Suspended 2nd", "초급", "서스펜디드"),
    Info("Asus4", "A Suspended 4th", "중급", "서스펜디드")
  ]

  const Add9Info: seq<ChordInfo> := [
    Info("Cadd9", "C Add 9th", "중급", "애드나인"),
    Info("Dadd9", "D Add 9th", "초급", "애드나인"),
    Info("Eadd9", "E Add 9th", "중급", "애드나인"),
    Info("Gadd9", "G Add 9th", "중급", "애드나인"),
    Info("Aadd9", "A Add 9th", "초급", "애드나인")
  ]

  const DiminishedInfo: seq<ChordInfo> := [
    Info("Cdim", "C Diminished", "중급", "디미니쉬드"),
    Info("Ddim", "D Diminished", "초급", "디미니쉬드"),
    Info("Edim", "E Diminished", "중급", "디미니쉬드")
  ]

  const SixthInfo: seq<ChordInfo> := [
    Info("C6", "C Major 6th", "중급", "식스"),
    Info("D6", "D Major 6th", "초급", "식스"),
    Info("E6", "E Major 6th", "중급", "식스"),
    Info("G6", "G Major 6th", "초급", "식스"),
    Info("A6", "A Major 6th", "초급", "식스")
  ]

  /** The chord information table: the nine groups in table order. */
  const AllChordInfo: seq<ChordInfo> :=
    MajorInfo + MinorInfo + SeventhInfo + Minor7Info + Major7Info
    + SuspendedInfo + Add9Info + DiminishedInfo + SixthInfo

  /** The categories the picker offers besides "all". */
  predicate Selectable(category: string) {
    category in Categories && category != AllCategory
  }

  /** The table's entries each sit in a category the picker offers, and it has 51 of them. */
  lemma TableCategoriesSelectable()
    ensures |AllChordInfo| == 51
    ensures forall c :: c in AllChordInfo ==> Selectable(c.category)
  {
    MajorInfoSelectable();
    MinorInfoSelectable();
    SeventhInfoSelectable();
    Minor7InfoSelectable();
    Major7InfoSelectable();
    SuspendedInfoSelectable();
    Add9InfoSelectable();
    DiminishedInfoSelectable();
    SixthInfoSelectable();
  }

  lemma MajorInfoSelectable()
    ensures forall c :: c in MajorInfo ==> Selectable(c.category)
  {
  }

  lemma MinorInfoSelectable()
    ensures forall c :: c in MinorInfo ==> Selectable(c.category)
  {
  }

  lemma SeventhInfoSelectable()
    ensures forall c :: c in SeventhInfo ==> Selectable(c.category)
  {
  }

  lemma Minor7InfoSelectable()
    ensures forall c :: c in Minor7Info ==> Selectable(c.category)
  {
  }

  lemma Major7InfoSelectable()
    ensures forall c :: c in Major7Info ==> Selectable(c.category)
  {
  }

  lemma SuspendedInfoSelectable()
    ensures forall c :: c in SuspendedInfo ==> Selectable(c.category)
  {
  }

  lemma Add9InfoSelectable()
    ensures forall c :: c in Add9Info ==> Selectable(c.category)
  {
  }

  lemma DiminishedInfoSelectable()
    ensures forall c :: c in DiminishedInfo ==> Selectable(c.category)
  {
  }

  lemma SixthInfoSelectable()
    ensures forall c :: c in SixthInfo ==> Selectable(c.category)
  {
  }

  /** The search half of the test: short or full name contains the term, in lower case. */
  predicate MatchesSearch(c: ChordInfo, term: string) {
    || Text.Contains(Text.ToLower(c.name), Text.ToLower(term))
    || Text.Contains(Text.ToLower(c.fullName), Text.ToLower(term))
  }

  /** The category half of the test. */
  predicate MatchesCategory(c: ChordInfo, category: string) {
    category == AllCategory || c.category == category
  }

  /** The test of the `filteredChords` filter. */
  function Shown(term: string, category: string): ChordInfo -> bool {
    (c: ChordInfo) => MatchesSearch(c, term) && MatchesCategory(c, category)
  }

  /**
   * `filteredChords`: the entries passing both tests. An entry is listed
   * exactly when it is in the table and passes both tests.
   */
  function FilterChords(db: seq<ChordInfo>, term: string, category: string): (r: seq<ChordInfo>)
    ensures forall k :: 0 <= k < |r| ==> r[k] in db && MatchesSearch(r[k], term) && MatchesCategory(r[k], category)
    ensures forall k :: 0 <= k < |db| && MatchesSearch(db[k], term) && MatchesCategory(db[k], category) ==> db[k] in r
  {
    Filter(db, Shown(term, category))
  }

  /** With an empty search and "all" picked, the whole table is listed, in order. */
  lemma EmptySearchShowsAll(db: seq<ChordInfo>)
    ensures FilterChords(db, "", AllCategory) == db
  {
    forall k | 0 <= k < |db| ensures Shown("", AllCategory)(db[k]) {
      Text.ContainsEmpty(Text.ToLower(db[k].name));
    }
    FilterAll(db, Shown("", AllCategory));
  }

  /** The list keeps the table order: it is a subsequence of the table. */
  lemma FilterKeepsOrder(db: seq<ChordInfo>, term: string, category: string)
    ensures SubseqOf(FilterChords(db, term, category), db)
  {
    FilterSubseq(db, Shown(term, category));
  }

  /** Filtering the listed entries again with the same inputs lists them all again. */
  lemma FilterIdempotentChords(db: seq<ChordInfo>, term: string, category: string)
    ensures FilterChords(FilterChords(db, term, category), term, category) == FilterChords(db, term, category)
  {
    FilterIdempotent(db, Shown(term, category));
  }

  /** Lower-casing is idempotent. */
  lemma ToLowerIdempotent(s: string)
    ensures Text.ToLower(Text.ToLower(s)) == Text.ToLower(s)
  {
  }

  /** The letter case of the search term does not matter. */
  lemma SearchIgnoresCase(db: seq<ChordInfo>, term: string, category: string)
    ensures FilterChords(db, Text.ToLower(term), category) == FilterChords(db, term, category)
  {
    ToLowerIdempotent(term);
    FilterExt(db, Shown(Text.ToLower(term), category), Shown(term, category));
  }

  /** Picking a category lists exactly the entries of that category that "all" lists. */
  lemma CategoryNarrowsAll(db: seq<ChordInfo>, term: string, category: string)
    ensures forall c :: c in FilterChords(db, term, category) <==>
      c in FilterChords(db, term, AllCategory) && MatchesCategory(c, category)
  {
  }
}
