/**
 * The level-selection screen of a game: one card per level with the stored
 * high score, a "done" mark when the level's badge is held, and a lock on
 * every level but the first until the previous level's badge is held. A
 * card whose badge is missing offers a manual claim, gated by a stand-in for
 * "every chord of the level completed": a positive high score.
 */
module DifficultySelector {
  import opened Wrappers
  import opened UserProfile
  import opened GameCompletion
  import Text

  /** The profile's game key for the screen's game (`gameTypeKey`). */
  function KeyOf(t: BadgeGame): (g: GameKey)
    ensures BadgeGameOf(g) == t
  {
    match t
    case FretboardMatchGame => FretboardMatch
    case ChordInputGame => ChordInput
  }

  /** A level card: id, display name, description, chord list, lock text. */
  datatype LevelCard = LevelCard(id: Level, name: string, description: string,
                                 chords: seq<string>, requirement: Option<string>)

  /** The three cards, in display order. */
  const Levels: seq<LevelCard> := [
    LevelCard(Beginner, "초급", "기본 코드 8개", ChordLevel(Beginner), None),
    LevelCard(Intermediate, "중급", "7th 코드와 바레 코드 12개", ChordLevel(Intermediate), Some("초급 배지 필요")),
    LevelCard(Advanced, "고급", "모든 확장 코드", ChordLevel(Advanced), Some("중급 배지 필요"))
  ]

  /** The card of level `l` (`levels.find`). */
  function FindCard(cards: seq<LevelCard>, l: Level): (r: Option<LevelCard>)
    ensures r.Some? ==> r.value in cards && r.value.id == l
    ensures r.None? ==> forall i :: 0 <= i < |cards| ==> cards[i].id != l
    decreases |cards|
  {
    if |cards| == 0 then None
    else if cards[0].id == l then Some(cards[0])
    else
      var r := FindCard(cards[1..], l);
      assert forall i :: 0 < i < |cards| ==> cards[i] == cards[1..][i - 1];
      r
  }

  /** Every level has its card, which lists that level's chords. */
  lemma EveryLevelHasCard(l: Level)
    ensures FindCard(Levels, l).Some?
    ensures FindCard(Levels, l).value.chords == ChordLevel(l)
  {
    assert Levels[0].id == Beginner && Levels[1].id == Intermediate && Levels[2].id == Advanced;
  }

  /**
   * The counts the first two descriptions promise, "8" and "12", are the
   * lengths of the lists those cards play.
   */
  lemma DescribedCountsMatch()
    ensures Text.Contains(Levels[0].description, Text.NatToString(|Levels[0].chords|))
    ensures Text.Contains(Levels[1].description, Text.NatToString(|Levels[1].chords|))
  {
    ChordLevelSizes();
    assert Text.NatToString(8) == "8";
    assert Text.NatToString(12) == "12";
    assert Text.OccursAt(Levels[0].description, "8", 6);
    assert Text.OccursAt(Levels[1].description, "12", 14);
  }

  // ------------------------------------------------------------ card state

  /** `getHighScore`: 0 without a profile or a stored entry, else the stored value. */
  function GetHighScore(st: Store, t: BadgeGame, l: Level): (r: int)
    ensures r == HighScore(st, KeyOf(t), LevelName(l))
  {
    if st.profile.None? then 0
    else
      var hs := st.profile.value.highScores;
      var k := KeyOf(t);
      if k in hs && LevelName(l) in hs[k] && hs[k][LevelName(l)] != 0 then hs[k][LevelName(l)] else 0
  }

  /** The card shows the same high score the games record. */
  lemma GetHighScoreIsRecorded(st: Store, t: BadgeGame, l: Level)
    ensures GetHighScore(st, t, l) == HighScore(st, KeyOf(t), LevelName(l))
  {
  }

  /** `hasBadge`: the profile holds a badge with the screen's id for the level. */
  function HasBadge(st: Store, t: BadgeGame, l: Level): (r: bool)
    ensures r <==> st.profile.Some? && HasBadgeId(st.profile.value.badges, ClaimBadgeId(t, LevelName(l)))
  {
    if st.profile.None? then false
    else
      var id := match t
        case FretboardMatchGame => "fretboard-" + LevelName(l)
        case ChordInputGame => "input-" + LevelName(l);
      exists i :: 0 <= i < |st.profile.value.badges| && st.profile.value.badges[i].id == id
  }

  /**
   * The screen checks the very id both unlock paths grant: the one a claim
   * derives and the one the five-game counter derives.
   */
  lemma HasBadgeSameIdAsUnlocks(st: Store, t: BadgeGame, l: Level)
    ensures HasBadge(st, t, l) <==>
      st.profile.Some? && HasBadgeId(st.profile.value.badges, BadgeIdFor(KeyOf(t), LevelName(l)))
    ensures FindBadge(ClaimBadgeId(t, LevelName(l))).Some?
  {
    SameBadgeId(KeyOf(t), LevelName(l));
    BadgeIdCatalog(KeyOf(t), LevelName(l));
  }

  /** `isUnlocked`: beginner always; every other level needs the previous level's badge. */
  function IsUnlocked(st: Store, t: BadgeGame, l: Level): (r: bool)
    ensures r <==> Previous(l).None? || HasBadge(st, t, Previous(l).value)
  {
    match l
    case Beginner => true
    case Intermediate => HasBadge(st, t, Beginner)
    case Advanced => HasBadge(st, t, Intermediate)
  }

  /** The level before `l`, if any. */
  function Previous(l: Level): Option<Level> {
    match l
    case Beginner => None
    case Intermediate => Some(Beginner)
    case Advanced => Some(Intermediate)
  }

  /** Without a profile only the first level is open. */
  lemma NoProfileOnlyBeginner(st: Store, t: BadgeGame, l: Level)
    requires st.profile.None?
    ensures IsUnlocked(st, t, l) <==> l == Beginner
  {
  }

  /** A level is open exactly when it has no predecessor or the predecessor's badge is held. */
  lemma UnlockedIffPreviousBadge(st: Store, t: BadgeGame, l: Level)
    ensures IsUnlocked(st, t, l) <==> Previous(l).None? || HasBadge(st, t, Previous(l).value)
  {
  }

  /**
   * Clicking a card selects its level exactly when it is open: only the
   * clicked level can be selected, and it is selected exactly when it has no
   * previous level or the previous level's badge is held; so the first level
   * always is, and without a profile nothing else is.
   */
  function SelectLevel(st: Store, t: BadgeGame, l: Level): (r: Option<Level>)
    ensures r.Some? ==> r.value == l
    ensures r.Some? <==> Previous(l).None? || HasBadge(st, t, Previous(l).value)
    ensures l == Beginner ==> r == Some(l)
    ensures st.profile.None? ==> (r.Some? <==> l == Beginner)
  {
    if IsUnlocked(st, t, l) then Some(l) else None
  }

  // ------------------------------------------------------------ manual claim

  /** The modal after a claim: its message and, on success, the badge shown. */
  datatype Modal = Modal(message: string, claimed: Option<Badge>)

  const CardNotFoundMessage: string := "레벨 정보를 찾을 수 없습니다."

  function IncompleteMessage(l: Level): string {
    (match l case Beginner => "초급" case Intermediate => "중급" case Advanced => "고급")
      + " 레벨의 모든 코드를 먼저 완료해주세요!"
  }

  /** `levelData.chords.every(...)`: every chord passes a test that ignores the chord. */
  function EveryChordDone(chords: seq<string>, highScore: int): (r: bool)
    ensures r <==> (|chords| == 0 || highScore > 0)
    decreases |chords|
  {
    if |chords| == 0 then true
    else highScore > 0 && EveryChordDone(chords[1..], highScore)
  }

  /**
   * `handleClaimBadge`: finds the level's card, checks the completion proxy,
   * and only then asks the manager for the badge; the modal shows the
   * manager's message and the badge on success.
   */
  function HandleClaimBadge(st: Store, t: BadgeGame, l: Level, now: nat): (r: (Store, Modal))
    ensures GetHighScore(st, t, l) <= 0 ==> r.0 == st && r.1.claimed.None?
    ensures r.1.claimed.Some? ==> r.1.claimed == ClaimBadge(st, t, LevelName(l), now).1.badge
  {
    EveryLevelHasCard(l);
    ChordLevelSizes();
    match FindCard(Levels, l)
    case None => (st, Modal(CardNotFoundMessage, None))
    case Some(card) =>
      if !EveryChordDone(card.chords, GetHighScore(st, t, l)) then (st, Modal(IncompleteMessage(l), None))
      else
        var (st1, res) := ClaimBadge(st, t, LevelName(l), now);
        (st1, Modal(res.message, if res.success then res.badge else None))
  }

  /**
   * The completion proxy ignores the chords: the manager is asked exactly
   * when the level's high score is positive; otherwise nothing changes and
   * the modal asks to finish the level first.
   */
  lemma ClaimGatedByHighScore(st: Store, t: BadgeGame, l: Level, now: nat)
    ensures GetHighScore(st, t, l) <= 0 ==>
      HandleClaimBadge(st, t, l, now) == (st, Modal(IncompleteMessage(l), None))
    ensures GetHighScore(st, t, l) > 0 ==>
      var c := ClaimBadge(st, t, LevelName(l), now);
      HandleClaimBadge(st, t, l, now) == (c.0, Modal(c.1.message, c.1.badge))
  {
    EveryLevelHasCard(l);
    ChordLevelSizes();
  }

  /**
   * After a claim the level's badge is held exactly when it was held before,
   * or a profile exists and the level has a positive high score; the modal
   * shows a badge exactly when it was newly granted.
   */
  lemma ClaimOutcome(st: Store, t: BadgeGame, l: Level, now: nat)
    ensures var r := HandleClaimBadge(st, t, l, now);
      && (HasBadge(r.0, t, l) <==> HasBadge(st, t, l) || (st.profile.Some? && GetHighScore(st, t, l) > 0))
      && (r.1.claimed.Some? <==> !HasBadge(st, t, l) && st.profile.Some? && GetHighScore(st, t, l) > 0)
  {
    ClaimGatedByHighScore(st, t, l, now);
    if GetHighScore(st, t, l) > 0 {
      ClaimBadgeOutcome(st, t, l, now);
    }
  }

  /**
   * The manager's claim of a level's badge: afterwards the badge is held
   * exactly when it was held before or a profile exists, and a badge comes
   * back exactly when it was newly granted.
   */
  lemma ClaimBadgeOutcome(st: Store, t: BadgeGame, l: Level, now: nat)
    ensures var c := ClaimBadge(st, t, LevelName(l), now);
      && (HasBadge(c.0, t, l) <==> HasBadge(st, t, l) || st.profile.Some?)
      && (c.1.badge.Some? <==> !HasBadge(st, t, l) && st.profile.Some?)
  {
    if st.profile.Some? {
      if HasBadge(st, t, l) {
        KeepsBadge(st, ClaimBadge(st, t, LevelName(l), now).0, t, l);
      } else {
        ClaimGrants(st, t, l, now);
      }
    }
  }

  /** A claim for a badge not yet held, by a player with a profile, grants it. */
  lemma ClaimGrants(st: Store, t: BadgeGame, l: Level, now: nat)
    requires st.profile.Some? && !HasBadge(st, t, l)
    ensures var c := ClaimBadge(st, t, LevelName(l), now);
      c.1.success && c.1.badge.Some? && HasBadge(c.0, t, l)
  {
    HasBadgeSameIdAsUnlocks(st, t, l);
    var c := ClaimBadge(st, t, LevelName(l), now);
    var bs := c.0.profile.value.badges;
    assert bs[|bs| - 1].id == ClaimBadgeId(t, LevelName(l));
  }

  /** A claim never takes a badge away: every level open before stays open. */
  lemma ClaimKeepsBadges(st: Store, t: BadgeGame, l: Level, now: nat, t': BadgeGame, l': Level)
    ensures HasBadge(st, t', l') ==> HasBadge(HandleClaimBadge(st, t, l, now).0, t', l')
    ensures IsUnlocked(st, t', l') ==> IsUnlocked(HandleClaimBadge(st, t, l, now).0, t', l')
  {
    ClaimGatedByHighScore(st, t, l, now);
    KeepsBadge(st, ClaimBadge(st, t, LevelName(l), now).0, t', l');
    if Previous(l').Some? {
      KeepsBadge(st, ClaimBadge(st, t, LevelName(l), now).0, t', Previous(l').value);
    }
  }

  /** A store whose badge list extends another's keeps its badges. */
  lemma KeepsBadge(st: Store, st1: Store, t: BadgeGame, l: Level)
    requires st.profile.Some? ==> st1.profile.Some? && st.profile.value.badges <= st1.profile.value.badges
    ensures HasBadge(st, t, l) ==> HasBadge(st1, t, l)
  {
    if HasBadge(st, t, l) {
      var bs := st.profile.value.badges;
      var i :| 0 <= i < |bs| && bs[i].id == ClaimBadgeId(t, LevelName(l));
      assert st1.profile.value.badges[i] == bs[i];
    }
  }

  /** A successful claim of a level opens the next one. */
  lemma ClaimOpensNext(st: Store, t: BadgeGame, l: Level, now: nat)
    requires st.profile.Some? && GetHighScore(st, t, l) > 0
    ensures l == Beginner ==> IsUnlocked(HandleClaimBadge(st, t, l, now).0, t, Intermediate)
    ensures l == Intermediate ==> IsUnlocked(HandleClaimBadge(st, t, l, now).0, t, Advanced)
  {
    ClaimOutcome(st, t, l, now);
  }

  /**
   * Finishing a level's game, with the follow-up badge check the game runs,
   * opens the next level on this screen.
   */
  lemma FinishedGameOpensNext(st: Store, g: GameKey, l: Level, total: int, now: nat, later: nat)
    requires st.profile.Some? && BadgesValid(st)
    ensures var st1 := RecordCompletion(st, g, l, total, now).0;
      var st2 := CheckAndClaimBadge(st1, g, l, later).0;
      && HasBadge(st2, BadgeGameOf(g), l)
      && (l == Beginner ==> IsUnlocked(st2, BadgeGameOf(g), Intermediate))
      && (l == Intermediate ==> IsUnlocked(st2, BadgeGameOf(g), Advanced))
  {
    FirstCompletionEarnsBadge(st, g, l, total, now, later);
    var st2 := CheckAndClaimBadge(RecordCompletion(st, g, l, total, now).0, g, l, later).0;
    assert KeyOf(BadgeGameOf(g)) == g;
    HasBadgeSameIdAsUnlocks(st2, BadgeGameOf(g), l);
  }

  /**
   * After a finished game and its follow-up badge check, a click on the next
   * level's card selects that level.
   */
  lemma SelectAfterFinishedGame(st: Store, g: GameKey, l: Level, total: int, now: nat, later: nat)
    requires st.profile.Some? && BadgesValid(st)
    ensures var st2 := CheckAndClaimBadge(RecordCompletion(st, g, l, total, now).0, g, l, later).0;
      && (l == Beginner ==> SelectLevel(st2, BadgeGameOf(g), Intermediate) == Some(Intermediate))
      && (l == Intermediate ==> SelectLevel(st2, BadgeGameOf(g), Advanced) == Some(Advanced))
  {
    FinishedGameOpensNext(st, g, l, total, now, later);
  }
}
