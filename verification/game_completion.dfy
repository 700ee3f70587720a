/**
 * What both game screens do with the profile when a game ends: record the
 * result through four manager calls, then, a second later, check the level's
 * badge and claim it if it is not held yet.
 */
module GameCompletion {
  import opened Wrappers
  import opened UserProfile
  import Leaderboard

  /**
   * The profile calls at the end of a game of `g`, in order: high score,
   * leaderboard entry (under the game key's name), last-played stamp,
   * progress counter. Answers the new-record flag and the badge the counter
   * unlocked. Without a profile nothing happens.
   */
  function RecordCompletion(st: Store, g: GameKey, l: Level, total: int, now: nat): (r: (Store, bool, Option<Badge>))
    ensures st.profile.None? ==> r == (st, false, None)
    ensures st.profile.Some? ==>
      var name, p := LevelName(l), st.profile.value;
      && r.0.profile.Some?
      && (r.1 <==> total > HighScore(st, g, name))
      && HighScore(r.0, g, name) == Max(HighScore(st, g, name), total)
      && (forall g', l' :: (g', l') != (g, name) ==> HighScore(r.0, g', l') == HighScore(st, g', l'))
      && Progress(r.0, g, name) == Progress(st, g, name) + 1
      && r.0.profile.value.lastPlayed == now
      && r.0.leaderboard == Leaderboard.AppendCapped(st.leaderboard,
           Leaderboard.ScoreEntry(p.nickname, total, name, KeyName(g), now), LeaderboardCap)
      && r.0.profile.value.badges == p.badges + (if r.2.Some? then [r.2.value] else [])
      && (r.2.Some? <==> Progress(st, g, name) + 1 == SetsForBadge && !HasBadgeId(p.badges, BadgeIdFor(g, name)))
      && (r.2.Some? ==> r.2.value.id == BadgeIdFor(g, name))
  {
    if st.profile.None? then (st, false, None)
    else
      var name := LevelName(l);
      var (st1, isNewHigh) := UpdateHighScore(st, g, name, total);
      var st2 := SaveScoreEntry(st1, KeyName(g), name, total, now);
      var st3 := UpdateLastPlayed(st2, now);
      var (st4, badge) := IncrementGameProgress(st3, g, name, now);
      BadgeIdCatalog(g, name);
      assert forall g', l' :: Progress(st3, g', l') == Progress(st, g', l');
      assert forall g', l' :: HighScore(st4, g', l') == HighScore(st1, g', l');
      (st4, isNewHigh, badge)
  }

  /**
   * `checkAndClaimBadge`, run a second after completion: nothing when the
   * level's badge of `g` is already held; otherwise a manual claim, whose
   * result is shown (second component).
   */
  function CheckAndClaimBadge(st: Store, g: GameKey, l: Level, now: nat): (r: (Store, Option<ClaimResult>))
    ensures st.profile.Some? && HasBadgeId(st.profile.value.badges, BadgeIdFor(g, LevelName(l))) ==>
      r == (st, None)
    ensures !(st.profile.Some? && HasBadgeId(st.profile.value.badges, BadgeIdFor(g, LevelName(l)))) ==>
      (r.0, r.1) == (ClaimBadge(st, BadgeGameOf(g), LevelName(l), now).0,
                     Some(ClaimBadge(st, BadgeGameOf(g), LevelName(l), now).1))
  {
    var id := match g case FretboardMatch => "fretboard-" + LevelName(l) case ChordInput => "input-" + LevelName(l);
    if st.profile.Some? && HasBadgeId(st.profile.value.badges, id) then (st, None)
    else
      var (st1, res) := ClaimBadge(st, BadgeGameOf(g), LevelName(l), now);
      (st1, Some(res))
  }

  /**
   * A finished game with a profile always ends with the level's badge held,
   * from the very first finished game on: either the counter unlocked it, or
   * the follow-up claim grants it whatever the five-game counter says. A
   * claim that is shown always succeeds, and the badge list stays valid.
   */
  lemma FirstCompletionEarnsBadge(st: Store, g: GameKey, l: Level, total: int, now: nat, later: nat)
    requires st.profile.Some? && BadgesValid(st)
    ensures var st1 := RecordCompletion(st, g, l, total, now).0;
      var r := CheckAndClaimBadge(st1, g, l, later);
      && r.0.profile.Some?
      && HasBadgeId(r.0.profile.value.badges, BadgeIdFor(g, LevelName(l)))
      && (r.1.Some? ==> r.1.value.success)
      && BadgesValid(r.0)
  {
    RecordKeepsBadgesValid(st, g, l, total, now);
    ClaimAfterRecord(RecordCompletion(st, g, l, total, now).0, g, l, later);
  }

  /** Recording a game keeps the profile and a valid badge list. */
  lemma RecordKeepsBadgesValid(st: Store, g: GameKey, l: Level, total: int, now: nat)
    requires st.profile.Some? && BadgesValid(st)
    ensures RecordCompletion(st, g, l, total, now).0.profile.Some?
    ensures BadgesValid(RecordCompletion(st, g, l, total, now).0)
  {
    var name := LevelName(l);
    BadgeIdCatalog(g, name);
    var rec := RecordCompletion(st, g, l, total, now);
    if rec.2.Some? {
      AppendBadgeValid(st.profile.value.badges, rec.2.value);
    }
  }

  /**
   * The follow-up check on a profile with a valid badge list leaves the
   * level's badge held and the list valid; a claim it shows succeeds.
   */
  lemma ClaimAfterRecord(st: Store, g: GameKey, l: Level, later: nat)
    requires st.profile.Some? && BadgesValid(st)
    ensures var r := CheckAndClaimBadge(st, g, l, later);
      && r.0.profile.Some?
      && HasBadgeId(r.0.profile.value.badges, BadgeIdFor(g, LevelName(l)))
      && (r.1.Some? ==> r.1.value.success)
      && BadgesValid(r.0)
  {
    var name := LevelName(l);
    var id := BadgeIdFor(g, name);
    BadgeIdCatalog(g, name);
    SameBadgeId(g, name);
    if !HasBadgeId(st.profile.value.badges, id) {
      ClaimKeepsBadgesValid(st, BadgeGameOf(g), name, later);
      var bs := CheckAndClaimBadge(st, g, l, later).0.profile.value.badges;
      assert bs[|bs| - 1] == FindBadge(id).value.(unlockedAt := Some(later));
    }
  }
}
