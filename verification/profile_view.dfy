/**
 * The profile screen's figures: the badge completion rate, the player's rank
 * in a (game, level) slice of the leaderboard, the best entry per slice, the
 * per-level top-five lists and the scores put into the share text.
 */
module ProfileView {
  import opened Wrappers
  import opened Seqs
  import opened Leaderboard
  import opened UserProfile

  // ------------------------------------------------------------ completion rate

  /**
   * `Math.round(unlocked / ALL_BADGES.length * 100)`: the percentage of the
   * catalog held, rounded half up to an integer.
   */
  function CompletionRate(unlocked: nat): (r: int)
    ensures 6 * r - 3 <= 100 * unlocked < 6 * r + 3
  {
    (100 * unlocked + 3) / 6
  }

  /** The rate is 0 for no badge, 100 for all six, and between them otherwise. */
  lemma CompletionRateRange(unlocked: nat)
    ensures unlocked <= 6 ==> 0 <= CompletionRate(unlocked) <= 100
    ensures CompletionRate(0) == 0 && CompletionRate(6) == 100
    ensures unlocked < 6 ==> CompletionRate(unlocked) < 100
  {
  }

  /** Holding more badges never shows a lower rate. */
  lemma CompletionRateMonotone(a: nat, b: nat)
    requires a <= b
    ensures CompletionRate(a) <= CompletionRate(b)
  {
  }

  /** A profile whose badges are valid shows a rate in 0..100. */
  lemma ProfileRateInRange(st: Store)
    requires st.profile.Some? && BadgesValid(st)
    ensures 0 <= CompletionRate(|st.profile.value.badges|) <= 100
  {
    AtMostSixBadges(st.profile.value.badges);
    CompletionRateRange(|st.profile.value.badges|);
  }

  // ------------------------------------------------------------ slices

  /** The test of the slice filter: the entry's game type and level. */
  function InSlice(gameType: string, level: string): ScoreEntry -> bool {
    (e: ScoreEntry) => e.gameType == gameType && e.level == level
  }

  /** The test of the `myScores` filter: the entry's nickname. */
  function ByNick(nickname: string): ScoreEntry -> bool {
    (e: ScoreEntry) => e.nickname == nickname
  }

  /** The leaderboard entries of one game type and level, in board order. */
  function Slice(board: seq<ScoreEntry>, gameType: string, level: string): seq<ScoreEntry> {
    Filter(board, InSlice(gameType, level))
  }

  /** A slice sorted by descending score, stable on ties. */
  function Ranked(board: seq<ScoreEntry>, gameType: string, level: string): seq<ScoreEntry> {
    SortDesc(Slice(board, gameType, level))
  }

  /** The slice entries of one player. */
  predicate Mine(e: ScoreEntry, nickname: string, gameType: string, level: string) {
    e.nickname == nickname && e.gameType == gameType && e.level == level
  }

  /** Sorting keeps the elements and the length. */
  lemma SortDescMembers(s: seq<ScoreEntry>)
    ensures SortedDesc(SortDesc(s)) && |SortDesc(s)| == |s|
    ensures forall x :: x in SortDesc(s) <==> x in s
  {
    SortDescCorrect(s);
    assert |SortDesc(s)| == |multiset(SortDesc(s))| == |multiset(s)| == |s|;
    forall x ensures x in SortDesc(s) <==> x in s {
      assert x in SortDesc(s) <==> x in multiset(SortDesc(s));
      assert x in s <==> x in multiset(s);
    }
  }

  /** A slice holds exactly the board's entries of that game type and level. */
  lemma SliceMembers(board: seq<ScoreEntry>, gameType: string, level: string)
    ensures forall e :: e in Slice(board, gameType, level) <==> e in board && e.gameType == gameType && e.level == level
  {
  }

  // ------------------------------------------------------------ rank

  /** `findIndex` of the first entry with this nickname and score, or -1. */
  function FindEntry(s: seq<ScoreEntry>, nickname: string, score: int): (r: int)
    ensures -1 <= r < |s|
    ensures r == -1 <==> forall k :: 0 <= k < |s| ==> !(s[k].nickname == nickname && s[k].score == score)
    ensures r >= 0 ==> (s[r].nickname == nickname && s[r].score == score
      && forall k :: 0 <= k < r ==> !(s[k].nickname == nickname && s[k].score == score))
    decreases |s|
  {
    if |s| == 0 then -1
    else if s[0].nickname == nickname && s[0].score == score then 0
    else
      var r := FindEntry(s[1..], nickname, score);
      assert forall k :: 0 < k < |s| ==> s[k] == s[1..][k - 1];
      if r == -1 then -1 else r + 1
  }

  /**
   * `getMyRank`: 0 when the player has no entry in the slice; otherwise one
   * plus the position, in the ranked slice, of the first entry with the
   * player's nickname and best score.
   */
  function MyRank(board: seq<ScoreEntry>, nickname: string, gameType: string, level: string): (r: int)
    ensures 0 <= r <= |Slice(board, gameType, level)|
  {
    SortDescMembers(Slice(board, gameType, level));
    var entries := Ranked(board, gameType, level);
    var myBest := SortDesc(Filter(Filter(board, ByNick(nickname)), InSlice(gameType, level)));
    if |myBest| == 0 then 0
    else FindEntry(entries, nickname, myBest[0].score) + 1
  }

  /** The player's entries of a slice, found through the two filters, are the board's. */
  lemma MineMembers(board: seq<ScoreEntry>, nickname: string, gameType: string, level: string)
    ensures var mine := Filter(Filter(board, ByNick(nickname)), InSlice(gameType, level));
      forall e :: e in mine <==> e in board && Mine(e, nickname, gameType, level)
  {
    var own := Filter(board, ByNick(nickname));
    var mine := Filter(own, InSlice(gameType, level));
    forall e ensures e in mine <==> e in board && Mine(e, nickname, gameType, level) {
      if e in board && Mine(e, nickname, gameType, level) {
        assert e in own;
      }
    }
  }

  /**
   * The rank is 0 exactly when the player has no entry in the slice.
   * Otherwise it lies in 1..|slice|, and the entry it points at carries the
   * player's nickname and best score of the slice, with no earlier such entry
   * and every strictly higher score ranked before it.
   */
  lemma MyRankFacts(board: seq<ScoreEntry>, nickname: string, gameType: string, level: string)
    ensures var r := MyRank(board, nickname, gameType, level);
      && (r == 0 <==> forall e :: e in board ==> !Mine(e, nickname, gameType, level))
      && (r != 0 ==> 1 <= r <= |Slice(board, gameType, level)|)
  {
    var entries := Ranked(board, gameType, level);
    var mine := Filter(Filter(board, ByNick(nickname)), InSlice(gameType, level));
    var myBest := SortDesc(mine);
    MineMembers(board, nickname, gameType, level);
    SortDescMembers(mine);
    SortDescMembers(Slice(board, gameType, level));
    SliceMembers(board, gameType, level);
    if |myBest| > 0 {
      var b := myBest[0];
      assert b in mine;
      assert b in entries;
    }
  }

  /** The entry a positive rank points at: the player's best of the slice, first of its kind. */
  lemma MyRankEntry(board: seq<ScoreEntry>, nickname: string, gameType: string, level: string)
    requires MyRank(board, nickname, gameType, level) != 0
    ensures var r, es := MyRank(board, nickname, gameType, level), Ranked(board, gameType, level);
      && 1 <= r <= |es|
      && es[r - 1].nickname == nickname
      && (forall e :: e in board && Mine(e, nickname, gameType, level) ==> e.score <= es[r - 1].score)
      && (forall k :: 0 <= k < r - 1 ==> !(es[k].nickname == nickname && es[k].score == es[r - 1].score))
      && (forall k :: 0 <= k < |es| && es[k].score > es[r - 1].score ==> k < r - 1)
  {
    var es := Ranked(board, gameType, level);
    var myBest := SortDesc(Filter(Filter(board, ByNick(nickname)), InSlice(gameType, level)));
    MyRankFacts(board, nickname, gameType, level);
    MyBestIsMax(board, nickname, gameType, level);
    SortDescMembers(Slice(board, gameType, level));
    PointedEntry(es, nickname, myBest[0].score, FindEntry(es, nickname, myBest[0].score));
  }

  /**
   * In a list sorted by descending score, the first entry found for a
   * nickname and score carries them, no earlier entry does, and every
   * strictly higher score comes before it.
   */
  lemma PointedEntry(es: seq<ScoreEntry>, nickname: string, score: int, idx: int)
    requires SortedDesc(es) && idx == FindEntry(es, nickname, score) && idx >= 0
    ensures es[idx].nickname == nickname && es[idx].score == score
    ensures forall k :: 0 <= k < idx ==> !(es[k].nickname == nickname && es[k].score == score)
    ensures forall k :: 0 <= k < |es| && es[k].score > es[idx].score ==> k < idx
  {
  }

  /** The head of the player's sorted slice entries is a best entry of theirs. */
  lemma MyBestIsMax(board: seq<ScoreEntry>, nickname: string, gameType: string, level: string)
    ensures var myBest := SortDesc(Filter(Filter(board, ByNick(nickname)), InSlice(gameType, level)));
      |myBest| > 0 ==>
        && myBest[0] in board && Mine(myBest[0], nickname, gameType, level)
        && forall e :: e in board && Mine(e, nickname, gameType, level) ==> e.score <= myBest[0].score
  {
    var mine := Filter(Filter(board, ByNick(nickname)), InSlice(gameType, level));
    var myBest := SortDesc(mine);
    MineMembers(board, nickname, gameType, level);
    SortDescMembers(mine);
    if |myBest| > 0 {
      assert myBest[0] in mine;
      forall e | e in board && Mine(e, nickname, gameType, level) ensures e.score <= myBest[0].score {
        assert e in myBest;
        var k :| 0 <= k < |myBest| && myBest[k] == e;
      }
    }
  }

  // ------------------------------------------------------------ top five

  /** A level's top-five list: the ranked slice, cut after five entries. */
  function LevelTop5(board: seq<ScoreEntry>, gameType: string, level: string): (r: seq<ScoreEntry>)
    ensures |r| <= 5 && r <= Ranked(board, gameType, level)
  {
    Take(Ranked(board, gameType, level), 5)
  }

  /**
   * A top-five list has at most five entries (five unless the slice is
   * smaller), all board entries of the slice, in non-increasing score, and no
   * entry of the slice left out scores higher than one listed.
   */
  lemma LevelTop5Facts(board: seq<ScoreEntry>, gameType: string, level: string)
    ensures var r, n := LevelTop5(board, gameType, level), |Slice(board, gameType, level)|;
      && |r| == (if n < 5 then n else 5)
      && SortedDesc(r)
      && (forall k :: 0 <= k < |r| ==> r[k] in board && r[k].gameType == gameType && r[k].level == level)
      && var es := Ranked(board, gameType, level);
         forall k, d :: 0 <= k < |r| <= d < |es| ==> es[d].score <= r[k].score
  {
    var es := Ranked(board, gameType, level);
    SortDescMembers(Slice(board, gameType, level));
    SliceMembers(board, gameType, level);
    var r := LevelTop5(board, gameType, level);
    assert forall k :: 0 <= k < |r| ==> r[k] == es[k];
  }

  // ------------------------------------------------------------ best per slice

  /** The key `globalRankings` files an entry under. */
  function RankKey(e: ScoreEntry): string {
    e.gameType + "-" + e.level
  }

  /** One step of the reduce: an entry replaces the kept one only with a strictly higher score. */
  function RankStep(acc: map<string, ScoreEntry>, e: ScoreEntry): (r: map<string, ScoreEntry>)
    ensures RankKey(e) in r && r[RankKey(e)].score >= e.score
    ensures r[RankKey(e)] == e || (RankKey(e) in acc && r[RankKey(e)] == acc[RankKey(e)])
    ensures forall k :: k != RankKey(e) ==> (k in r <==> k in acc) && (k in acc ==> r[k] == acc[k])
  {
    var key := RankKey(e);
    if key !in acc || acc[key].score < e.score then acc[key := e] else acc
  }

  /** `globalRankings`: the reduce over the board, left to right. */
  function GlobalRankings(board: seq<ScoreEntry>): (r: map<string, ScoreEntry>)
    ensures forall k :: k in r ==> RankKey(r[k]) == k
    decreases |board|
  {
    if |board| == 0 then map[] else RankStep(GlobalRankings(board[..|board| - 1]), board[|board| - 1])
  }

  /** Some entry of `board` has key `k`. */
  predicate KeySeen(board: seq<ScoreEntry>, k: string) {
    exists i :: 0 <= i < |board| && RankKey(board[i]) == k
  }

  /** `e` is an entry of `board` under key `k` that every earlier entry under `k` scores below. */
  predicate FirstBest(board: seq<ScoreEntry>, k: string, e: ScoreEntry) {
    exists i :: 0 <= i < |board| && board[i] == e && RankKey(e) == k
      && forall j :: 0 <= j < i && RankKey(board[j]) == k ==> board[j].score < e.score
  }

  /** What the rankings map holds for a board. */
  ghost predicate RankingsOk(board: seq<ScoreEntry>, r: map<string, ScoreEntry>) {
    && (forall k :: k in r <==> KeySeen(board, k))
    && (forall i :: 0 <= i < |board| ==> RankKey(board[i]) in r && board[i].score <= r[RankKey(board[i])].score)
    && (forall k :: k in r ==> FirstBest(board, k, r[k]))
  }

  /**
   * For every key of the board, the rankings hold an entry of that key with
   * the highest score, the first such entry on ties; no other key is present.
   */
  lemma {:induction false} GlobalRankingsCorrect(board: seq<ScoreEntry>)
    ensures RankingsOk(board, GlobalRankings(board))
    decreases |board|
  {
    if |board| > 0 {
      var init, last := board[..|board| - 1], board[|board| - 1];
      assert board == init + [last];
      var acc := GlobalRankings(init);
      GlobalRankingsCorrect(init);
      RankStepOk(init, acc, last);
      assert GlobalRankings(board) == RankStep(acc, last);
    }
  }

  lemma RankStepOk(init: seq<ScoreEntry>, acc: map<string, ScoreEntry>, e: ScoreEntry)
    requires RankingsOk(init, acc)
    ensures RankingsOk(init + [e], RankStep(acc, e))
  {
    var b, r := init + [e], RankStep(acc, e);
    RankStepKeys(init, acc, e);
    RankStepMax(init, acc, e);
    forall k | k in r ensures FirstBest(b, k, r[k]) {
      RankStepFirst(init, acc, e, k);
    }
  }

  lemma RankStepKeys(init: seq<ScoreEntry>, acc: map<string, ScoreEntry>, e: ScoreEntry)
    requires forall k :: k in acc <==> KeySeen(init, k)
    ensures forall k :: k in RankStep(acc, e) <==> KeySeen(init + [e], k)
  {
    var b := init + [e];
    forall k ensures k in RankStep(acc, e) <==> KeySeen(b, k) {
      if KeySeen(init, k) {
        var i :| 0 <= i < |init| && RankKey(init[i]) == k;
        assert b[i] == init[i];
      }
      if KeySeen(b, k) && k != RankKey(e) {
        var i :| 0 <= i < |b| && RankKey(b[i]) == k;
        assert i < |init| && b[i] == init[i];
      }
      assert b[|init|] == e;
    }
  }

  lemma RankStepMax(init: seq<ScoreEntry>, acc: map<string, ScoreEntry>, e: ScoreEntry)
    requires forall i :: 0 <= i < |init| ==> RankKey(init[i]) in acc && init[i].score <= acc[RankKey(init[i])].score
    ensures var b, r := init + [e], RankStep(acc, e);
      forall i :: 0 <= i < |b| ==> RankKey(b[i]) in r && b[i].score <= r[RankKey(b[i])].score
  {
    var b, r := init + [e], RankStep(acc, e);
    forall i | 0 <= i < |b| ensures RankKey(b[i]) in r && b[i].score <= r[RankKey(b[i])].score {
      if i < |init| {
        assert b[i] == init[i];
      }
    }
  }

  lemma RankStepFirst(init: seq<ScoreEntry>, acc: map<string, ScoreEntry>, e: ScoreEntry, k: string)
    requires RankingsOk(init, acc)
    requires k in RankStep(acc, e)
    ensures FirstBest(init + [e], k, RankStep(acc, e)[k])
  {
    var key := RankKey(e);
    if k == key && (key !in acc || acc[key].score < e.score) {
      forall j | 0 <= j < |init| && RankKey(init[j]) == k ensures init[j].score < e.score {
        assert KeySeen(init, k);
      }
      FirstBestNew(init, e);
    } else {
      FirstBestKept(init, e, k, acc[k]);
    }
  }

  /** An entry that beats every earlier entry of its key is that key's first best. */
  lemma FirstBestNew(init: seq<ScoreEntry>, e: ScoreEntry)
    requires forall j :: 0 <= j < |init| && RankKey(init[j]) == RankKey(e) ==> init[j].score < e.score
    ensures FirstBest(init + [e], RankKey(e), e)
  {
    var b := init + [e];
    assert b[|init|] == e;
    forall j | 0 <= j < |init| && RankKey(b[j]) == RankKey(e) ensures b[j].score < e.score {
      assert b[j] == init[j];
    }
  }

  /** A first best stays the first best when an entry is appended. */
  lemma FirstBestKept(init: seq<ScoreEntry>, e: ScoreEntry, k: string, best: ScoreEntry)
    requires FirstBest(init, k, best)
    ensures FirstBest(init + [e], k, best)
  {
    var b := init + [e];
    var i :| 0 <= i < |init| && init[i] == best && RankKey(best) == k
      && forall j :: 0 <= j < i && RankKey(init[j]) == k ==> init[j].score < best.score;
    assert b[i] == init[i];
    forall j | 0 <= j < i && RankKey(b[j]) == k ensures b[j].score < best.score {
      assert b[j] == init[j];
    }
  }

  // ------------------------------------------------------------ share text

  /** The order `Object.values` lists a table's levels in: each key once. */
  ghost predicate IsKeyOrder(t: LevelTable, order: seq<string>) {
    Distinct(order) && forall k :: k in t <==> k in order
  }

  /** The values of `t` in key order. */
  function ValuesIn(t: LevelTable, order: seq<string>): (r: seq<int>)
    requires forall k :: k in order ==> k in t
    ensures |r| == |order| && forall i :: 0 <= i < |order| ==> r[i] == t[order[i]]
    decreases |order|
  {
    if |order| == 0 then [] else [t[order[0]]] + ValuesIn(t, order[1..])
  }

  function Positive(): int -> bool {
    (x: int) => x > 0
  }

  /**
   * The high scores of the share text: the fretboard-match values, then the
   * chord-input values, keeping the positive ones. The key orders are the
   * orders the tables were filled in.
   */
  function ShareScores(p: Profile, fmOrder: seq<string>, ciOrder: seq<string>): (r: seq<int>)
    requires FretboardMatch in p.highScores && ChordInput in p.highScores
    requires IsKeyOrder(p.highScores[FretboardMatch], fmOrder)
    requires IsKeyOrder(p.highScores[ChordInput], ciOrder)
    ensures forall i :: 0 <= i < |r| ==> r[i] > 0
  {
    Filter(ValuesIn(p.highScores[FretboardMatch], fmOrder) + ValuesIn(p.highScores[ChordInput], ciOrder), Positive())
  }

  /**
   * The shared list holds only positive scores, each a stored high score,
   * and every positive stored high score of either game is in it.
   */
  lemma ShareScoresFacts(p: Profile, fmOrder: seq<string>, ciOrder: seq<string>)
    requires FretboardMatch in p.highScores && ChordInput in p.highScores
    requires IsKeyOrder(p.highScores[FretboardMatch], fmOrder)
    requires IsKeyOrder(p.highScores[ChordInput], ciOrder)
    ensures var r, fm, ci := ShareScores(p, fmOrder, ciOrder), p.highScores[FretboardMatch], p.highScores[ChordInput];
      && (forall i :: 0 <= i < |r| ==> r[i] > 0)
      && (forall i :: 0 <= i < |r| ==> (exists k :: k in fm && fm[k] == r[i]) || (exists k :: k in ci && ci[k] == r[i]))
      && (forall k :: k in fm && fm[k] > 0 ==> fm[k] in r)
      && (forall k :: k in ci && ci[k] > 0 ==> ci[k] in r)
  {
    var fm, ci := p.highScores[FretboardMatch], p.highScores[ChordInput];
    var vf, vc := ValuesIn(fm, fmOrder), ValuesIn(ci, ciOrder);
    var all := vf + vc;
    var r := ShareScores(p, fmOrder, ciOrder);
    forall i | 0 <= i < |r| ensures (exists k :: k in fm && fm[k] == r[i]) || (exists k :: k in ci && ci[k] == r[i]) {
      var j :| 0 <= j < |all| && all[j] == r[i];
      if j < |vf| {
        assert fm[fmOrder[j]] == r[i];
      } else {
        assert vc[j - |vf|] == r[i];
        assert ci[ciOrder[j - |vf|]] == r[i];
      }
    }
    forall k | k in fm && fm[k] > 0 ensures fm[k] in r {
      var j :| 0 <= j < |fmOrder| && fmOrder[j] == k;
      assert all[j] == fm[k];
    }
    forall k | k in ci && ci[k] > 0 ensures ci[k] in r {
      var j :| 0 <= j < |ciOrder| && ciOrder[j] == k;
      assert all[|vf| + j] == ci[k];
    }
  }
}
