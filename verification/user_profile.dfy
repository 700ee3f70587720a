/**
 * The profile store: one player's nickname, timestamps, unlocked badges, high
 * scores and completed-set counters, plus the shared leaderboard.  Every
 * method of the manager becomes a function from the store (and its
 * arguments) to the new store and the method's result; the clock reading
 * `now` is a parameter and persisting is the identity.
 */
module UserProfile {
  import opened Wrappers
  import opened Leaderboard
  import ChordDatabase
  import Seqs

  /** The key under which a game's scores and progress are stored. */
  datatype GameKey = FretboardMatch | ChordInput

  /** The game a badge belongs to (the hyphenated spelling used by badges and claims). */
  datatype BadgeGame = FretboardMatchGame | ChordInputGame

  datatype Level = Beginner | Intermediate | Advanced

  /** A badge definition; `unlockedAt` is set on the copy placed in a profile. */
  datatype Badge = Badge(id: string, name: string, description: string, level: Level,
                         gameType: BadgeGame, icon: string, color: string,
                         unlockedAt: Option<nat>)

  /** Per level name, a score or a counter; a missing level reads as 0. */
  type LevelTable = map<string, int>

  /** Per game key, a level table; a missing game key is a missing table. */
  type GameTable = map<GameKey, LevelTable>

  datatype Profile = Profile(nickname: string, createdAt: nat, lastPlayed: nat,
                             badges: seq<Badge>, highScores: GameTable,
                             gameProgress: GameTable)

  /** A profile as persisted by an older version, possibly lacking the two tables. */
  datatype SavedProfile = SavedProfile(nickname: string, createdAt: nat, lastPlayed: nat,
                                       badges: seq<Badge>, highScores: Option<GameTable>,
                                       gameProgress: Option<GameTable>)

  /** The manager's state: the active profile, if any, and the persisted leaderboard. */
  datatype Store = Store(profile: Option<Profile>, leaderboard: seq<ScoreEntry>)

  /** What a manual claim reports. */
  datatype ClaimResult = ClaimResult(success: bool, badge: Option<Badge>, message: string)

  const LeaderboardCap: nat := 50

  /** Completed sets needed for the automatic badge. */
  const SetsForBadge: int := 5

  function LevelName(l: Level): string {
    match l
    case Beginner => "beginner"
    case Intermediate => "intermediate"
    case Advanced => "advanced"
  }

  function KeyName(g: GameKey): string {
    match g
    case FretboardMatch => "fretboardMatch"
    case ChordInput => "chordInput"
  }

  /** The badge spelling of a game key. */
  function BadgeGameOf(g: GameKey): BadgeGame {
    match g
    case FretboardMatch => FretboardMatchGame
    case ChordInput => ChordInputGame
  }

  // ---------------------------------------------------------------- catalog

  const AllBadges: seq<Badge> := [
    Badge("fretboard-beginner", "코드 입문자", "초급 짝짓기 게임 5세트 완료",
          Beginner, FretboardMatchGame, "🎸", "bg-green-500", None),
    Badge("fretboard-intermediate", "코드 연습생", "중급 짝짓기 게임 5세트 완료",
          Intermediate, FretboardMatchGame, "🎯", "bg-blue-500", None),
    Badge("fretboard-advanced", "코드 마스터", "고급 짝짓기 게임 5세트 완료",
          Advanced, FretboardMatchGame, "👑", "bg-purple-500", None),
    Badge("input-beginner", "지판 탐험가", "초급 코드 입력 게임 5세트 완료",
          Beginner, ChordInputGame, "🗺️", "bg-orange-500", None),
    Badge("input-intermediate", "지판 숙련자", "중급 코드 입력 게임 5세트 완료",
          Intermediate, ChordInputGame, "⚡", "bg-yellow-500", None),
    Badge("input-advanced", "지판 대가", "고급 코드 입력 게임 5세트 완료",
          Advanced, ChordInputGame, "🏆", "bg-red-500", None)
  ]

  /** The first badge of `s` whose id is `id` (`Array.prototype.find`). */
  function FindIn(s: seq<Badge>, id: string): (r: Option<Badge>)
    ensures r.Some? <==> exists i :: 0 <= i < |s| && s[i].id == id
    ensures r.Some? ==> exists i :: (0 <= i < |s| && s[i] == r.value && r.value.id == id
                                     && forall j :: 0 <= j < i ==> s[j].id != id)
  {
    if |s| == 0 then None
    else if s[0].id == id then Some(s[0])
    else
      var r := FindIn(s[1..], id);
      assert forall i :: 0 < i < |s| ==> s[i] == s[1..][i - 1];
      r
  }

  /** The catalog definition of badge `id`, if there is one. */
  function FindBadge(id: string): Option<Badge> {
    FindIn(AllBadges, id)
  }

  /** Some badge in `badges` has id `id` (`badges.some(b => b.id === id)`). */
  predicate HasBadgeId(badges: seq<Badge>, id: string) {
    exists i :: 0 <= i < |badges| && badges[i].id == id
  }

  /** No two badges of the list share an id. */
  predicate UniqueBadgeIds(badges: seq<Badge>) {
    forall i, j :: 0 <= i < j < |badges| ==> badges[i].id != badges[j].id
  }

  /** Every badge of the list is one of the catalog's. */
  predicate CatalogIds(badges: seq<Badge>) {
    forall i :: 0 <= i < |badges| ==> FindBadge(badges[i].id).Some?
  }

  /** The badge id the automatic unlock derives from the profile's game key. */
  function BadgeIdFor(g: GameKey, level: string): string {
    match g
    case FretboardMatch => "fretboard-" + level
    case ChordInput => "input-" + level
  }

  /** The badge id a manual claim derives from the badge's game spelling. */
  function ClaimBadgeId(t: BadgeGame, level: string): string {
    match t
    case FretboardMatchGame => "fretboard-" + level
    case ChordInputGame => "input-" + level
  }

  lemma {:induction false} PrefixCancel(a: string, x: string, y: string)
    requires a + x == a + y
    ensures x == y
  {
    assert x == (a + x)[|a|..];
    assert y == (a + y)[|a|..];
  }

  /** The prefix of the badge ids of a game. */
  function IdPrefix(t: BadgeGame): string {
    match t
    case FretboardMatchGame => "fretboard-"
    case ChordInputGame => "input-"
  }

  /** Every catalog id is its game's prefix followed by its level name. */
  lemma CatalogIdShape(i: int)
    requires 0 <= i < |AllBadges|
    ensures AllBadges[i].id == IdPrefix(AllBadges[i].gameType) + LevelName(AllBadges[i].level)
    ensures AllBadges[i].unlockedAt.None?
  {
    match i
    case 0 => FretboardBeginnerShape();
    case 1 => FretboardIntermediateShape();
    case 2 => FretboardAdvancedShape();
    case 3 => InputBeginnerShape();
    case 4 => InputIntermediateShape();
    case 5 => InputAdvancedShape();
  }

  // One lemma per catalog entry keeps each check small.

  lemma FretboardBeginnerShape()
    ensures AllBadges[0].id == IdPrefix(AllBadges[0].gameType) + LevelName(AllBadges[0].level)
    ensures AllBadges[0].unlockedAt.None?
  {
  }

  lemma FretboardIntermediateShape()
    ensures AllBadges[1].id == IdPrefix(AllBadges[1].gameType) + LevelName(AllBadges[1].level)
    ensures AllBadges[1].unlockedAt.None?
  {
  }

  lemma FretboardAdvancedShape()
    ensures AllBadges[2].id == IdPrefix(AllBadges[2].gameType) + LevelName(AllBadges[2].level)
    ensures AllBadges[2].unlockedAt.None?
  {
  }

  lemma InputBeginnerShape()
    ensures AllBadges[3].id == IdPrefix(AllBadges[3].gameType) + LevelName(AllBadges[3].level)
    ensures AllBadges[3].unlockedAt.None?
  {
  }

  lemma InputIntermediateShape()
    ensures AllBadges[4].id == IdPrefix(AllBadges[4].gameType) + LevelName(AllBadges[4].level)
    ensures AllBadges[4].unlockedAt.None?
  {
  }

  lemma InputAdvancedShape()
    ensures AllBadges[5].id == IdPrefix(AllBadges[5].gameType) + LevelName(AllBadges[5].level)
    ensures AllBadges[5].unlockedAt.None?
  {
  }

  /** Both unlock paths derive the same id from their two spellings of the game. */
  lemma SameBadgeId(g: GameKey, level: string)
    ensures ClaimBadgeId(BadgeGameOf(g), level) == BadgeIdFor(g, level)
    ensures BadgeIdFor(g, level) == IdPrefix(BadgeGameOf(g)) + level
  {
  }

  /** A derived id found in the catalog names a badge of that game and level. */
  lemma FoundBadgeMatches(g: GameKey, level: string)
    requires FindBadge(BadgeIdFor(g, level)).Some?
    ensures var b := FindBadge(BadgeIdFor(g, level)).value;
      b.gameType == BadgeGameOf(g) && LevelName(b.level) == level && b.unlockedAt.None?
  {
    var id := BadgeIdFor(g, level);
    var p := IdPrefix(BadgeGameOf(g));
    SameBadgeId(g, level);
    var i :| 0 <= i < |AllBadges| && AllBadges[i] == FindBadge(id).value && AllBadges[i].id == id;
    var b := AllBadges[i];
    CatalogIdShape(i);
    var q := IdPrefix(b.gameType);
    assert b.gameType == BadgeGameOf(g) by {
      assert id[0] == p[0] && id[0] == q[0];
    }
    PrefixCancel(p, level, LevelName(b.level));
  }

  /** Where the badge of game `g` and level `level` sits in the catalog. */
  function CatalogIndex(g: GameKey, level: string): (i: int)
    requires level == "beginner" || level == "intermediate" || level == "advanced"
    ensures 0 <= i < |AllBadges|
    ensures AllBadges[i].gameType == BadgeGameOf(g) && LevelName(AllBadges[i].level) == level
  {
    match g
    case FretboardMatch => if level == "beginner" then 0 else if level == "intermediate" then 1 else 2
    case ChordInput => if level == "beginner" then 3 else if level == "intermediate" then 4 else 5
  }

  /**
   * The derived id names a catalog badge exactly when the level is one of
   * the three level names.
   */
  lemma BadgeIdCatalog(g: GameKey, level: string)
    ensures FindBadge(BadgeIdFor(g, level)).Some? <==>
      level == "beginner" || level == "intermediate" || level == "advanced"
  {
    var id := BadgeIdFor(g, level);
    if FindBadge(id).Some? {
      FoundBadgeMatches(g, level);
    }
    if level == "beginner" || level == "intermediate" || level == "advanced" {
      var i := CatalogIndex(g, level);
      CatalogIdShape(i);
      SameBadgeId(g, level);
      assert AllBadges[i].id == id;
    }
  }

  // --------------------------------------------------------------- tables

  const ZeroProgress: LevelTable := map["beginner" := 0, "intermediate" := 0, "advanced" := 0]
  const DefaultProgress: GameTable := map[FretboardMatch := ZeroProgress, ChordInput := ZeroProgress]
  const EmptyHighScores: GameTable := map[FretboardMatch := map[], ChordInput := map[]]

  /** `table[g][level] || 0`, reading a missing game table as empty. */
  function Lookup(t: GameTable, g: GameKey, level: string): int {
    if g in t && level in t[g] then t[g][level] else 0
  }

  /** The high score the store holds for (g, level); 0 without a profile. */
  function HighScore(st: Store, g: GameKey, level: string): int {
    if st.profile.None? then 0 else Lookup(st.profile.value.highScores, g, level)
  }

  /** The completed-set counter the store holds for (g, level); 0 without a profile. */
  function Progress(st: Store, g: GameKey, level: string): int {
    if st.profile.None? then 0 else Lookup(st.profile.value.gameProgress, g, level)
  }

  // ------------------------------------------------------ load and migrate

  /** The shape `saveProfile` writes. */
  function Saved(p: Profile): SavedProfile {
    SavedProfile(p.nickname, p.createdAt, p.lastPlayed, p.badges, Some(p.highScores), Some(p.gameProgress))
  }

  /** `loadProfile`: no blob gives no profile; missing tables get their defaults. */
  function LoadProfile(saved: Option<SavedProfile>): (r: Option<Profile>)
    ensures r.Some? <==> saved.Some?
    ensures saved.Some? ==> var s, p := saved.value, r.value;
      && p.nickname == s.nickname && p.createdAt == s.createdAt && p.lastPlayed == s.lastPlayed
      && p.badges == s.badges
      && (s.highScores.Some? ==> p.highScores == s.highScores.value)
      && (s.gameProgress.Some? ==> p.gameProgress == s.gameProgress.value)
      && (s.highScores.None? ==> forall g, l :: Lookup(p.highScores, g, l) == 0)
      && (s.gameProgress.None? ==> forall g, l :: Lookup(p.gameProgress, g, l) == 0)
  {
    match saved
    case None => None
    case Some(s) =>
      Some(Profile(s.nickname, s.createdAt, s.lastPlayed, s.badges,
                   s.highScores.GetOr(EmptyHighScores), s.gameProgress.GetOr(DefaultProgress)))
  }

  /**
   * `migrateProfile`: fills in the tables an old profile lacks and reports
   * whether anything was filled (whether it must be saved again).
   */
  function MigrateProfile(p: SavedProfile): (r: (SavedProfile, bool))
    ensures r.0.highScores.Some? && r.0.gameProgress.Some?
    ensures r.1 <==> p.highScores.None? || p.gameProgress.None?
    ensures p.highScores.Some? ==> r.0.highScores == p.highScores
    ensures p.gameProgress.Some? ==> r.0.gameProgress == p.gameProgress
    ensures r.0.badges == p.badges && r.0.nickname == p.nickname
    ensures r.0.createdAt == p.createdAt && r.0.lastPlayed == p.lastPlayed
  {
    var withProgress := if p.gameProgress.None? then p.(gameProgress := Some(DefaultProgress)) else p;
    var withScores :=
      if withProgress.highScores.None? then withProgress.(highScores := Some(EmptyHighScores))
      else withProgress;
    (withScores, p.gameProgress.None? || p.highScores.None?)
  }

  /**
   * Migration is idempotent, and a profile that went through `loadProfile`
   * never needs it: migrating the loaded profile changes nothing.
   */
  lemma MigrateAfterLoad(saved: SavedProfile)
    ensures MigrateProfile(MigrateProfile(saved).0) == (MigrateProfile(saved).0, false)
    ensures var loaded := Saved(LoadProfile(Some(saved)).value);
      MigrateProfile(loaded) == (loaded, false)
  {
  }

  /** The manager's construction: load the saved profile, then migrate it. */
  function Initialize(saved: Option<SavedProfile>, board: seq<ScoreEntry>): (st: Store)
    ensures st.profile == LoadProfile(saved) && st.leaderboard == board
  {
    Store(LoadProfile(saved), board)
  }

  // ------------------------------------------------------------ operations

  /** `createProfile`: a fresh profile replaces any previous one. */
  function CreateProfile(st: Store, nickname: string, now: nat): (r: (Store, Profile))
    ensures r.0.profile == Some(r.1) && r.0.leaderboard == st.leaderboard
    ensures r.1.nickname == nickname && r.1.createdAt == now && r.1.lastPlayed == now
    ensures r.1.badges == []
    ensures forall g, l :: HighScore(r.0, g, l) == 0 && Progress(r.0, g, l) == 0
  {
    var p := Profile(nickname, now, now, [], EmptyHighScores, DefaultProgress);
    (Store(Some(p), st.leaderboard), p)
  }

  /** `updateLastPlayed`: stamps the profile, if any; nothing else changes. */
  function UpdateLastPlayed(st: Store, now: nat): (r: Store)
    ensures st.profile.None? ==> r == st
    ensures st.profile.Some? ==> r == st.(profile := Some(st.profile.value.(lastPlayed := now)))
  {
    match st.profile
    case None => st
    case Some(p) => st.(profile := Some(p.(lastPlayed := now)))
  }

  /**
   * `updateHighScore`: stores `score` for (g, level) and answers true exactly
   * when it beats the stored value (a missing value counts as 0).  A missing
   * game table is created empty even when the score does not beat it.
   */
  function UpdateHighScore(st: Store, g: GameKey, level: string, score: int): (r: (Store, bool))
    ensures r.1 <==> st.profile.Some? && score > HighScore(st, g, level)
    ensures st.profile.None? ==> r.0 == st
    ensures HighScore(r.0, g, level) == if r.1 then score else HighScore(st, g, level)
    ensures forall g', l' :: (g', l') != (g, level) ==> HighScore(r.0, g', l') == HighScore(st, g', l')
    ensures r.0.leaderboard == st.leaderboard && r.0.profile.Some? == st.profile.Some?
    ensures st.profile.Some? ==> r.0.profile.value == st.profile.value.(highScores := r.0.profile.value.highScores)
  {
    match st.profile
    case None => (st, false)
    case Some(p) =>
      var table := if g in p.highScores then p.highScores[g] else map[];
      var current := if level in table then table[level] else 0;
      if score > current then
        (st.(profile := Some(p.(highScores := p.highScores[g := table[level := score]]))), true)
      else
        (st.(profile := Some(p.(highScores := p.highScores[g := table]))), false)
  }

  /**
   * `incrementGameProgress`: adds one to the (g, level) counter and, on the
   * call where it becomes exactly 5, appends the matching catalog badge
   * stamped `now` unless a badge with that id is already held.
   */
  function IncrementGameProgress(st: Store, g: GameKey, level: string, now: nat): (r: (Store, Option<Badge>))
    ensures st.profile.None? ==> r == (st, None)
    ensures st.profile.Some? ==> Progress(r.0, g, level) == Progress(st, g, level) + 1
    ensures forall g', l' :: (g', l') != (g, level) ==> Progress(r.0, g', l') == Progress(st, g', l')
    ensures r.1.Some? <==>
      && st.profile.Some?
      && Progress(st, g, level) + 1 == SetsForBadge
      && FindBadge(BadgeIdFor(g, level)).Some?
      && !HasBadgeId(st.profile.value.badges, BadgeIdFor(g, level))
    ensures r.1.Some? ==> r.1.value == FindBadge(BadgeIdFor(g, level)).value.(unlockedAt := Some(now))
    ensures r.0.profile.Some? == st.profile.Some? && r.0.leaderboard == st.leaderboard
    ensures st.profile.Some? ==> var p, q := st.profile.value, r.0.profile.value;
      && q.badges == p.badges + (if r.1.Some? then [r.1.value] else [])
      && q == p.(gameProgress := q.gameProgress, badges := q.badges)
  {
    match st.profile
    case None => (st, None)
    case Some(p) =>
      var table := if g in p.gameProgress then p.gameProgress[g] else ZeroProgress;
      var current := if level in table then table[level] else 0;
      var counted := p.(gameProgress := p.gameProgress[g := table[level := current + 1]]);
      var id := BadgeIdFor(g, level);
      var found := FindBadge(id);
      if current + 1 == SetsForBadge && found.Some? && !HasBadgeId(p.badges, id) then
        var unlocked := found.value.(unlockedAt := Some(now));
        (st.(profile := Some(counted.(badges := p.badges + [unlocked]))), Some(unlocked))
      else
        (st.(profile := Some(counted)), None)
  }

  /** `getBadgeProgress`: the counter capped at 5, and 0 without a profile or table. */
  function GetBadgeProgress(st: Store, g: GameKey, level: string): (r: int)
    ensures r <= SetsForBadge
    ensures r == if Progress(st, g, level) < SetsForBadge then Progress(st, g, level) else SetsForBadge
  {
    match st.profile
    case None => 0
    case Some(p) =>
      if g !in p.gameProgress then 0
      else
        var current := if level in p.gameProgress[g] then p.gameProgress[g][level] else 0;
        if current < SetsForBadge then current else SetsForBadge
  }

  const NoProfileMessage: string := "프로필이 없습니다."
  const AlreadyClaimedMessage: string := "이미 획득한 배지입니다."
  const NotFoundMessage: string := "배지를 찾을 수 없습니다."

  function ClaimedMessage(b: Badge): string {
    "🎉 " + b.name + " 배지를 획득했습니다!"
  }

  /**
   * `claimBadge`: fails without a profile, fails without change when a badge
   * with the derived id is held, appends the catalog badge stamped `now` when
   * the id is in the catalog, and otherwise fails with "not found".
   */
  function ClaimBadge(st: Store, t: BadgeGame, level: string, now: nat): (r: (Store, ClaimResult))
    ensures r.0.leaderboard == st.leaderboard && r.0.profile.Some? == st.profile.Some?
    ensures st.profile.None? ==> r == (st, ClaimResult(false, None, NoProfileMessage))
    ensures st.profile.Some? ==> var p, id := st.profile.value, ClaimBadgeId(t, level);
      if HasBadgeId(p.badges, id) then
        r == (st, ClaimResult(false, None, AlreadyClaimedMessage))
      else if FindBadge(id).Some? then
        var b := FindBadge(id).value.(unlockedAt := Some(now));
        r.1 == ClaimResult(true, Some(b), ClaimedMessage(b)) && r.0.profile == Some(p.(badges := p.badges + [b]))
      else
        r == (st, ClaimResult(false, None, NotFoundMessage))
    ensures r.1.success <==> r.1.badge.Some?
  {
    match st.profile
    case None => (st, ClaimResult(false, None, NoProfileMessage))
    case Some(p) =>
      var id := ClaimBadgeId(t, level);
      if HasBadgeId(p.badges, id) then (st, ClaimResult(false, None, AlreadyClaimedMessage))
      else
        match FindBadge(id)
        case Some(b) =>
          var unlocked := b.(unlockedAt := Some(now));
          (st.(profile := Some(p.(badges := p.badges + [unlocked]))),
           ClaimResult(true, Some(unlocked), ClaimedMessage(unlocked)))
        case None => (st, ClaimResult(false, None, NotFoundMessage))
  }

  /**
   * `saveScoreEntry`: with a profile, records the score under the profile's
   * nickname, re-sorts the leaderboard by descending score and keeps the top 50.
   */
  function SaveScoreEntry(st: Store, gameType: string, level: string, score: int, now: nat): (r: Store)
    ensures st.profile.None? ==> r == st
    ensures r.profile == st.profile
    ensures st.profile.Some? ==>
      r.leaderboard == AppendCapped(st.leaderboard,
                                    ScoreEntry(st.profile.value.nickname, score, level, gameType, now),
                                    LeaderboardCap)
  {
    match st.profile
    case None => st
    case Some(p) =>
      var entry := ScoreEntry(p.nickname, score, level, gameType, now);
      st.(leaderboard := AppendCapped(st.leaderboard, entry, LeaderboardCap))
  }

  /** The entries of `board` recorded under `nickname`, in board order. */
  function EntriesOf(board: seq<ScoreEntry>, nickname: string): (r: seq<ScoreEntry>)
    ensures forall e :: e in r <==> e in board && e.nickname == nickname
    ensures |r| <= |board|
  {
    if |board| == 0 then []
    else (if board[0].nickname == nickname then [board[0]] else []) + EntriesOf(board[1..], nickname)
  }

  /** The extracted entries keep the board's order and every repetition of a kept entry. */
  lemma {:induction false} EntriesOfOrderAndCount(board: seq<ScoreEntry>, nickname: string)
    ensures forall e ::
      multiset(EntriesOf(board, nickname))[e] == (if e.nickname == nickname then multiset(board)[e] else 0)
    ensures Seqs.SubseqOf(EntriesOf(board, nickname), board)
    decreases |board|
  {
    if |board| > 0 {
      var rest := EntriesOf(board[1..], nickname);
      EntriesOfOrderAndCount(board[1..], nickname);
      assert board == [board[0]] + board[1..];
      assert multiset(board) == multiset{board[0]} + multiset(board[1..]);
      if board[0].nickname == nickname {
        assert EntriesOf(board, nickname) == [board[0]] + rest;
        assert multiset(EntriesOf(board, nickname)) == multiset{board[0]} + multiset(rest);
        assert ([board[0]] + rest)[1..] == rest;
      } else {
        assert EntriesOf(board, nickname) == rest;
        assert Seqs.SubseqOf(rest, board[1..]);
      }
    }
  }

  /** What `exportProfileData` serializes: the profile and its own leaderboard entries. */
  datatype ExportData = ExportData(profile: Profile, leaderboard: seq<ScoreEntry>)

  /** `exportProfileData`: nothing without a profile (the empty string). */
  function ExportProfileData(st: Store): (r: Option<ExportData>)
    ensures r.Some? <==> st.profile.Some?
    ensures r.Some? ==> (r.value.profile == st.profile.value
      && (forall e :: e in r.value.leaderboard <==> e in st.leaderboard && e.nickname == st.profile.value.nickname)
      && (forall e ::
            multiset(r.value.leaderboard)[e] == (if e.nickname == st.profile.value.nickname then multiset(st.leaderboard)[e] else 0))
      && Seqs.SubseqOf(r.value.leaderboard, st.leaderboard))
  {
    match st.profile
    case None => None
    case Some(p) =>
      EntriesOfOrderAndCount(st.leaderboard, p.nickname);
      Some(ExportData(p, EntriesOf(st.leaderboard, p.nickname)))
  }

  // ------------------------------------------------- properties over runs

  /** The larger of two scores. */
  function Max(a: int, b: int): int {
    if a < b then b else a
  }

  /** The largest of `init` and the scores of `s`. */
  function MaxOf(init: int, s: seq<int>): int
    decreases |s|
  {
    if |s| == 0 then init else MaxOf(Max(init, s[0]), s[1..])
  }

  /** Submits `scores` in order to `updateHighScore`, collecting the answers. */
  function UpdateHighScores(st: Store, g: GameKey, level: string, scores: seq<int>): (r: (Store, seq<bool>))
    ensures |r.1| == |scores|
    decreases |scores|
  {
    if |scores| == 0 then (st, [])
    else
      var (st1, b) := UpdateHighScore(st, g, level, scores[0]);
      var (st2, bs) := UpdateHighScores(st1, g, level, scores[1..]);
      (st2, [b] + bs)
  }

  /**
   * Over any run of submissions the stored high score is the maximum of the
   * initial value and every score submitted, and a submission answers true
   * exactly when it beats everything before it.
   */
  lemma {:induction false} HighScoreIsRunningMax(st: Store, g: GameKey, level: string, scores: seq<int>)
    requires st.profile.Some?
    ensures var r := UpdateHighScores(st, g, level, scores);
      && HighScore(r.0, g, level) == MaxOf(HighScore(st, g, level), scores)
      && forall k :: 0 <= k < |scores| ==>
           (r.1[k] <==> scores[k] > MaxOf(HighScore(st, g, level), scores[..k]))
    decreases |scores|
  {
    if |scores| > 0 {
      var (st1, b) := UpdateHighScore(st, g, level, scores[0]);
      HighScoreIsRunningMax(st1, g, level, scores[1..]);
      var h := HighScore(st, g, level);
      assert HighScore(st1, g, level) == Max(h, scores[0]);
      forall k | 0 < k < |scores|
        ensures MaxOf(h, scores[..k]) == MaxOf(Max(h, scores[0]), scores[1..][..k - 1])
      {
        assert scores[..k][1..] == scores[1..][..k - 1];
      }
    }
  }

  /** The scenario: 300 then 250 on the advanced chord-input table. */
  lemma HighScoreScenario(st: Store)
    requires st.profile.Some? && HighScore(st, ChordInput, "advanced") == 0
    ensures var r := UpdateHighScores(st, ChordInput, "advanced", [300, 250]);
      r.1 == [true, false] && HighScore(r.0, ChordInput, "advanced") == 300
  {
    HighScoreIsRunningMax(st, ChordInput, "advanced", [300, 250]);
    assert [300, 250][..1] == [300];
  }

  /** Calls `incrementGameProgress` `n` times, collecting the badges returned. */
  function IncrementTimes(st: Store, g: GameKey, level: string, n: nat, now: nat): (r: (Store, seq<Option<Badge>>))
    ensures |r.1| == n
    decreases n
  {
    if n == 0 then (st, [])
    else
      var (st1, b) := IncrementGameProgress(st, g, level, now);
      var (st2, bs) := IncrementTimes(st1, g, level, n - 1, now);
      (st2, [b] + bs)
  }

  /**
   * Whether the `k`-th call (from 0) of a run of increments returns a badge,
   * for a run starting at counter `p0` with `found` telling whether the level
   * has a catalog badge and `held` whether it is held at the start.
   */
  predicate UnlocksAt(p0: int, found: bool, held: bool, k: nat) {
    p0 + k + 1 == SetsForBadge && found && !held
  }

  /**
   * A run of increments that returned `bs` unlocked exactly as `UnlocksAt`
   * says, and every badge that came back is `v`.
   */
  predicate OneShotRun(bs: seq<Option<Badge>>, p0: int, found: bool, held: bool, v: Option<Badge>) {
    forall k :: 0 <= k < |bs| ==> (bs[k].Some? <==> UnlocksAt(p0, found, held, k)) && (bs[k].Some? ==> bs[k] == v)
  }

  /**
   * The unlock is one-shot: over any run of increments a badge comes back on
   * exactly the call that takes the counter to 5, provided the level has a
   * catalog badge not held when the run starts; never on any other call. The
   * badge that comes back is the catalog's, stamped with the time.
   */
  lemma {:induction false} UnlockIsOneShot(st: Store, g: GameKey, level: string, n: nat, now: nat)
    requires st.profile.Some?
    ensures var id := BadgeIdFor(g, level);
      OneShotRun(IncrementTimes(st, g, level, n, now).1, Progress(st, g, level), FindBadge(id).Some?,
                 HasBadgeId(st.profile.value.badges, id), Stamped(FindBadge(id), now))
    decreases n
  {
    if n > 0 {
      var id := BadgeIdFor(g, level);
      var step := IncrementGameProgress(st, g, level, now);
      var st1, b := step.0, step.1;
      UnlockIsOneShot(st1, g, level, n - 1, now);
      IncrementStep(st, g, level, now);
      var rest := IncrementTimes(st1, g, level, n - 1, now);
      OneShotCons(b, rest.1, Progress(st, g, level), Progress(st1, g, level), FindBadge(id).Some?,
                  HasBadgeId(st.profile.value.badges, id), HasBadgeId(st1.profile.value.badges, id),
                  Stamped(FindBadge(id), now));
    }
  }

  /** A catalog badge, if any, stamped as unlocked at `now`. */
  function Stamped(b: Option<Badge>, now: nat): (r: Option<Badge>)
    ensures r.Some? <==> b.Some?
    ensures b.Some? ==> r.value == b.value.(unlockedAt := Some(now))
  {
    match b
    case None => None
    case Some(x) => Some(x.(unlockedAt := Some(now)))
  }

  /**
   * The induction step of `UnlockIsOneShot`, on the badge sequences alone:
   * a first call that unlocks exactly when `UnlocksAt` says, followed by a
   * run that obeys `UnlocksAt` from the next counter value.
   */
  lemma OneShotCons(b: Option<Badge>, rest: seq<Option<Badge>>, p0: int, p1: int, found: bool,
                    held: bool, held1: bool, v: Option<Badge>)
    requires p1 == p0 + 1
    requires (b.Some? <==> UnlocksAt(p0, found, held, 0)) && (b.Some? ==> b == v)
    requires held1 <==> held || b.Some?
    requires OneShotRun(rest, p1, found, held1, v)
    ensures OneShotRun([b] + rest, p0, found, held, v)
  {
    var r := [b] + rest;
    forall k | 1 <= k < |r|
      ensures (r[k].Some? <==> UnlocksAt(p0, found, held, k)) && (r[k].Some? ==> r[k] == v)
    {
      assert r[k] == rest[k - 1];
      assert UnlocksAt(p1, found, held1, k - 1) == UnlocksAt(p0, found, held, k);
    }
  }

  /**
   * One increment, in the terms of `UnlocksAt`: the counter goes up by one,
   * a badge comes back exactly when the call unlocks, and afterwards the
   * badge is held exactly when it was held before or just came back.
   */
  lemma IncrementStep(st: Store, g: GameKey, level: string, now: nat)
    requires st.profile.Some?
    ensures var (st1, b) := IncrementGameProgress(st, g, level, now);
      var id := BadgeIdFor(g, level);
      var held := HasBadgeId(st.profile.value.badges, id);
      && st1.profile.Some?
      && Progress(st1, g, level) == Progress(st, g, level) + 1
      && (b.Some? <==> UnlocksAt(Progress(st, g, level), FindBadge(id).Some?, held, 0))
      && (b.Some? ==> b == Stamped(FindBadge(id), now))
      && (HasBadgeId(st1.profile.value.badges, id) <==> held || b.Some?)
  {
    var (st1, b) := IncrementGameProgress(st, g, level, now);
    var id := BadgeIdFor(g, level);
    var bs, bs1 := st.profile.value.badges, st1.profile.value.badges;
    if b.Some? {
      assert bs1[|bs|].id == id;
    } else {
      assert bs1 == bs;
    }
    if HasBadgeId(bs, id) {
      var i :| 0 <= i < |bs| && bs[i].id == id;
      assert bs1[i] == bs[i];
    }
    if HasBadgeId(bs1, id) && b.None? {
      assert bs1 == bs;
    }
  }

  /**
   * From a fresh counter of a level with a catalog badge not yet held, a run
   * of increments returns the badge on the fifth call and on no other.
   */
  lemma FifthSetUnlocks(st: Store, g: GameKey, level: string, n: nat, now: nat)
    requires st.profile.Some? && !HasBadgeId(st.profile.value.badges, BadgeIdFor(g, level))
    requires level == "beginner" || level == "intermediate" || level == "advanced"
    requires Progress(st, g, level) == 0
    ensures var r := IncrementTimes(st, g, level, n, now);
      forall k :: 0 <= k < n ==>
        (r.1[k].Some? <==> k == SetsForBadge - 1) && (r.1[k].Some? ==> r.1[k].value.id == BadgeIdFor(g, level))
  {
    BadgeIdCatalog(g, level);
    UnlockIsOneShot(st, g, level, n, now);
  }

  /** The badge list of a profile holds catalog badges, each at most once. */
  predicate BadgesValid(st: Store) {
    st.profile.Some? ==> UniqueBadgeIds(st.profile.value.badges) && CatalogIds(st.profile.value.badges)
  }

  /** Appending a catalog badge whose id is not held keeps the list valid. */
  lemma AppendBadgeValid(badges: seq<Badge>, b: Badge)
    requires UniqueBadgeIds(badges) && CatalogIds(badges)
    requires !HasBadgeId(badges, b.id) && FindBadge(b.id).Some?
    ensures UniqueBadgeIds(badges + [b]) && CatalogIds(badges + [b])
  {
  }

  /** Neither unlock path ever creates a second badge with the same id. */
  lemma UnlockPathsKeepBadgesValid(st: Store, g: GameKey, t: BadgeGame, level: string, now: nat)
    requires BadgesValid(st)
    ensures BadgesValid(IncrementGameProgress(st, g, level, now).0)
    ensures BadgesValid(ClaimBadge(st, t, level, now).0)
  {
    IncrementKeepsBadgesValid(st, g, level, now);
    ClaimKeepsBadgesValid(st, t, level, now);
  }

  lemma IncrementKeepsBadgesValid(st: Store, g: GameKey, level: string, now: nat)
    requires BadgesValid(st)
    ensures BadgesValid(IncrementGameProgress(st, g, level, now).0)
  {
    if st.profile.Some? {
      var b := IncrementGameProgress(st, g, level, now).1;
      if b.Some? {
        AppendBadgeValid(st.profile.value.badges, b.value);
      }
    }
  }

  lemma ClaimKeepsBadgesValid(st: Store, t: BadgeGame, level: string, now: nat)
    requires BadgesValid(st)
    ensures BadgesValid(ClaimBadge(st, t, level, now).0)
  {
    if st.profile.Some? {
      var c := ClaimBadge(st, t, level, now).1;
      if c.success {
        AppendBadgeValid(st.profile.value.badges, c.badge.value);
      }
    }
  }

  /** A second claim of the same badge after a successful one is refused as already held. */
  lemma ClaimTwice(st: Store, t: BadgeGame, level: string, now: nat, later: nat)
    requires ClaimBadge(st, t, level, now).1.success
    ensures var st1 := ClaimBadge(st, t, level, now).0;
      ClaimBadge(st1, t, level, later) == (st1, ClaimResult(false, None, AlreadyClaimedMessage))
  {
    var st1 := ClaimBadge(st, t, level, now).0;
    var bs := st1.profile.value.badges;
    assert bs[|bs| - 1].id == ClaimBadgeId(t, level);
  }

  /** The ids of a badge list. */
  function IdSet(badges: seq<Badge>): set<string> {
    set i | 0 <= i < |badges| :: badges[i].id
  }

  lemma {:induction false} IdSetSize(badges: seq<Badge>)
    requires UniqueBadgeIds(badges)
    ensures |IdSet(badges)| == |badges|
  {
    if |badges| > 0 {
      var init := badges[..|badges| - 1];
      var last := badges[|badges| - 1];
      IdSetSize(init);
      assert IdSet(badges) == IdSet(init) + {last.id};
      assert last.id !in IdSet(init);
    }
  }

  lemma {:induction false} IdSetBound(badges: seq<Badge>)
    ensures |IdSet(badges)| <= |badges|
  {
    if |badges| > 0 {
      var init := badges[..|badges| - 1];
      IdSetBound(init);
      assert IdSet(badges) == IdSet(init) + {badges[|badges| - 1].id};
    }
  }

  /** A valid badge list holds at most the six catalog badges. */
  lemma AtMostSixBadges(badges: seq<Badge>)
    requires UniqueBadgeIds(badges) && CatalogIds(badges)
    ensures |badges| <= |AllBadges| == 6
  {
    IdSetSize(badges);
    IdSetBound(AllBadges);
    forall id | id in IdSet(badges) ensures id in IdSet(AllBadges) {
      var i :| 0 <= i < |badges| && badges[i].id == id;
      var j :| 0 <= j < |AllBadges| && AllBadges[j].id == id;
    }
    Seqs.SubsetCard(IdSet(badges), IdSet(AllBadges));
  }

  // ------------------------------------------------------------ chord levels

  /** The chord names each level plays (`CHORD_LEVELS`). */
  function ChordLevel(l: Level): seq<string> {
    match l
    case Beginner =>
      ["C", "D", "E", "G", "A", "Em", "Am", "Dm"]
    case Intermediate =>
      ["F", "B", "Cm", "Fm", "Gm", "Bm", "C7", "D7", "E7", "G7", "A7", "B7"]
    case Advanced =>
      ["Cm7", "Dm7", "Em7", "Fm7", "Gm7", "Am7", "Bm7", "Cmaj7", "Dmaj7", "Emaj7", "Fmaj7", "Gmaj7", "Amaj7", "Bmaj7", "Csus2", "Csus4", "Dsus2", "Dsus4", "Esus2", "Esus4", "Asus2", "Asus4", "Cdim", "Ddim", "Edim", "Gdim", "Adim", "Bdim", "Cadd9", "Dadd9", "Gadd9", "Aadd9", "C6", "D6", "G6", "A6"]
  }

  /**
   * Every name a level lists is the name of a chord in the database, and the
   * names of a level are distinct.
   */
  lemma ChordLevelNamesExist(l: Level)
    ensures forall k :: 0 <= k < |ChordLevel(l)| ==> ChordDatabase.HasName(ChordDatabase.AllChords, ChordLevel(l)[k])
    ensures forall j, k :: 0 <= j < k < |ChordLevel(l)| ==> ChordLevel(l)[j] != ChordLevel(l)[k]
  {
    ChordDatabase.AllNamesCorrect();
    LevelNamesListed(l);
    LevelNamesDistinct(l);
  }

  lemma LevelNamesListed(l: Level)
    ensures forall k :: 0 <= k < |ChordLevel(l)| ==> ChordLevel(l)[k] in ChordDatabase.AllNames
  {
    match l
    case Beginner => BeginnerListed();
    case Intermediate => IntermediateListed();
    case Advanced => AdvancedListed();
  }

  lemma BeginnerListed()
    ensures forall k :: 0 <= k < |ChordLevel(Beginner)| ==> ChordLevel(Beginner)[k] in ChordDatabase.AllNames
  {
    var names := ChordLevel(Beginner);
    var major, minor := ChordDatabase.MajorNames, ChordDatabase.MinorNames;
    assert forall k :: 0 <= k < |names| ==> names[k] in major || names[k] in minor;
  }

  lemma IntermediateListed()
    ensures forall k :: 0 <= k < |ChordLevel(Intermediate)| ==> ChordLevel(Intermediate)[k] in ChordDatabase.AllNames
  {
    var names := ChordLevel(Intermediate);
    var major, minor, dom := ChordDatabase.MajorNames, ChordDatabase.MinorNames, ChordDatabase.Dominant7Names;
    assert forall k :: 0 <= k < |names| ==> names[k] in major || names[k] in minor || names[k] in dom;
  }

  lemma AdvancedListed()
    ensures forall k :: 0 <= k < |ChordLevel(Advanced)| ==> ChordLevel(Advanced)[k] in ChordDatabase.AllNames
  {
    var names := ChordLevel(Advanced);
    var m7, maj7, sus := ChordDatabase.Minor7Names, ChordDatabase.Major7Names, ChordDatabase.SuspendedNames;
    var dim, add9, six := ChordDatabase.DiminishedNames, ChordDatabase.Add9Names, ChordDatabase.SixthNames;
    assert forall k :: 0 <= k < |names| ==>
      names[k] in m7 || names[k] in maj7 || names[k] in sus || names[k] in dim || names[k] in add9 || names[k] in six;
  }

  lemma LevelNamesDistinct(l: Level)
    ensures forall j, k :: 0 <= j < k < |ChordLevel(l)| ==> ChordLevel(l)[j] != ChordLevel(l)[k]
  {
    match l
    case Beginner => BeginnerDistinct();
    case Intermediate => IntermediateDistinct();
    case Advanced => AdvancedDistinct();
  }

  lemma AdvancedDistinct()
    ensures forall j, k :: 0 <= j < k < |ChordLevel(Advanced)| ==> ChordLevel(Advanced)[j] != ChordLevel(Advanced)[k]
  {
    ChordDatabase.AllNamesDistinct();
    AdvancedIsExtended();
    SliceDistinct(ChordLevel(Advanced), ChordDatabase.AllNames, 21);
  }

  /** The advanced list is the database's names from the seventh chords on. */
  lemma AdvancedIsExtended()
    ensures ChordLevel(Advanced) == ChordDatabase.AllNames[21..]
  {
    ChordDatabase.ExtendedNames();
    AdvancedGroups();
    JoinGroups(ChordLevel(Advanced), ChordDatabase.Minor7Names, ChordDatabase.Major7Names, ChordDatabase.SuspendedNames,
               ChordDatabase.DiminishedNames, ChordDatabase.Add9Names, ChordDatabase.SixthNames);
  }

  /** A list of 36 names cut at 7, 14, 22, 28 and 32 is the concatenation of its pieces. */
  lemma JoinGroups(n: seq<string>, a: seq<string>, b: seq<string>, c: seq<string>,
                   d: seq<string>, e: seq<string>, f: seq<string>)
    requires |n| == 36
    requires n[..7] == a && n[7..14] == b && n[14..22] == c
    requires n[22..28] == d && n[28..32] == e && n[32..] == f
    ensures n == a + b + c + d + e + f
  {
    assert n == n[..7] + n[7..14] + n[14..22] + n[22..28] + n[28..32] + n[32..];
  }

  /** The advanced list, group by group: the database's families in database order. */
  lemma AdvancedGroups()
    ensures ChordLevel(Advanced)[..7] == ChordDatabase.Minor7Names
    ensures ChordLevel(Advanced)[7..14] == ChordDatabase.Major7Names
    ensures ChordLevel(Advanced)[14..22] == ChordDatabase.SuspendedNames
    ensures ChordLevel(Advanced)[22..28] == ChordDatabase.DiminishedNames
    ensures ChordLevel(Advanced)[28..32] == ChordDatabase.Add9Names
    ensures ChordLevel(Advanced)[32..] == ChordDatabase.SixthNames
  {
    AdvancedMinor7();
    AdvancedMajor7();
    AdvancedSuspended();
    AdvancedDiminished();
    AdvancedAdd9();
    AdvancedSixth();
  }

  lemma AdvancedMinor7()
    ensures ChordLevel(Advanced)[..7] == ChordDatabase.Minor7Names
  {
  }

  lemma AdvancedMajor7()
    ensures ChordLevel(Advanced)[7..14] == ChordDatabase.Major7Names
  {
    var g := ChordLevel(Advanced)[7..14];
    assert |g| == |ChordDatabase.Major7Names|;
    forall k | 0 <= k < |g| ensures g[k] == ChordDatabase.Major7Names[k] {
      assert g[k] == ChordLevel(Advanced)[7 + k];
    }
  }

  lemma AdvancedSuspended()
    ensures ChordLevel(Advanced)[14..22] == ChordDatabase.SuspendedNames
  {
  }

  lemma AdvancedDiminished()
    ensures ChordLevel(Advanced)[22..28] == ChordDatabase.DiminishedNames
  {
  }

  lemma AdvancedAdd9()
    ensures ChordLevel(Advanced)[28..32] == ChordDatabase.Add9Names
  {
  }

  lemma AdvancedSixth()
    ensures ChordLevel(Advanced)[32..] == ChordDatabase.SixthNames
  {
  }

  /** A slice of a list without repeats has no repeats. */
  lemma SliceDistinct(names: seq<string>, s: seq<string>, from: nat)
    requires from <= |s| && names == s[from..]
    requires forall i, j :: 0 <= i < j < |s| ==> s[i] != s[j]
    ensures forall j, k :: 0 <= j < k < |names| ==> names[j] != names[k]
  {
    forall j, k | 0 <= j < k < |names| ensures names[j] != names[k] {
      assert names[j] == s[from + j] && names[k] == s[from + k];
    }
  }

  lemma BeginnerDistinct()
    ensures forall j, k :: 0 <= j < k < |ChordLevel(Beginner)| ==> ChordLevel(Beginner)[j] != ChordLevel(Beginner)[k]
  {
  }

  lemma IntermediateDistinct()
    ensures forall j, k :: 0 <= j < k < |ChordLevel(Intermediate)| ==>
      ChordLevel(Intermediate)[j] != ChordLevel(Intermediate)[k]
  {
  }

  /** The level descriptions promise 8 and 12 chords: the lists hold 8, 12 and 36. */
  lemma ChordLevelSizes()
    ensures |ChordLevel(Beginner)| == 8 && |ChordLevel(Intermediate)| == 12 && |ChordLevel(Advanced)| == 36
  {
  }
}
