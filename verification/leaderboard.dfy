/**
 * Leaderboard entries and the order the leaderboard is kept in: a stable sort
 * by descending score (the engine's `Array.prototype.sort` with comparator
 * `b.score - a.score`), followed by a cap on the number of entries.
 */
module Leaderboard {

  /** One recorded result; `achievedAt` is an opaque clock reading. */
  datatype ScoreEntry = ScoreEntry(nickname: string, score: int, level: string,
                                   gameType: string, achievedAt: nat)

  /** Scores never increase along `s`. */
  predicate SortedDesc(s: seq<ScoreEntry>) {
    forall i, j :: 0 <= i < j < |s| ==> s[i].score >= s[j].score
  }

  /** The entries of `s` whose score is `v`, in their order in `s`. */
  function WithScore(s: seq<ScoreEntry>, v: int): seq<ScoreEntry> {
    if |s| == 0 then []
    else (if s[0].score == v then [s[0]] else []) + WithScore(s[1..], v)
  }

  /**
   * Inserts `e` after every leading entry whose score is at least `e.score`:
   * the step a stable descending sort takes for the last element of its input.
   */
  function Insert(s: seq<ScoreEntry>, e: ScoreEntry): seq<ScoreEntry> {
    if |s| == 0 then [e]
    else if s[0].score >= e.score then [s[0]] + Insert(s[1..], e)
    else [e] + s
  }

  /** Stable sort by descending score (insertion sort from the front of the input). */
  function SortDesc(s: seq<ScoreEntry>): seq<ScoreEntry> {
    if |s| == 0 then [] else Insert(SortDesc(s[..|s| - 1]), s[|s| - 1])
  }

  /** The first `n` entries, or all of them when there are fewer. */
  function Take(s: seq<ScoreEntry>, n: nat): (r: seq<ScoreEntry>)
    ensures |r| == if |s| < n then |s| else n
    ensures r == s[..|r|]
  {
    if |s| <= n then s else s[..n]
  }

  lemma {:induction false} WithScoreAppend(a: seq<ScoreEntry>, b: seq<ScoreEntry>, v: int)
    ensures WithScore(a + b, v) == WithScore(a, v) + WithScore(b, v)
  {
    if |a| == 0 {
      assert a + b == b;
    } else {
      var head := if a[0].score == v then [a[0]] else [];
      assert (a + b)[0] == a[0];
      assert (a + b)[1..] == a[1..] + b;
      assert WithScore(a + b, v) == head + WithScore(a[1..] + b, v);
      WithScoreAppend(a[1..], b, v);
      assert WithScore(a, v) == head + WithScore(a[1..], v);
    }
  }

  /** Inserting adds exactly `e`. */
  lemma {:induction false} InsertMultiset(s: seq<ScoreEntry>, e: ScoreEntry)
    ensures multiset(Insert(s, e)) == multiset(s) + multiset{e}
  {
    if |s| > 0 && s[0].score >= e.score {
      InsertMultiset(s[1..], e);
      assert s == [s[0]] + s[1..];
    }
  }

  /** Inserting into a sorted list keeps it sorted. */
  lemma {:induction false} InsertSorted(s: seq<ScoreEntry>, e: ScoreEntry)
    requires SortedDesc(s)
    ensures SortedDesc(Insert(s, e))
  {
    if |s| > 0 && s[0].score >= e.score {
      InsertSorted(s[1..], e);
      InsertBounded(s[1..], e, s[0].score);
      var r := Insert(s[1..], e);
      var t := [s[0]] + r;
      forall i, j | 0 <= i < j < |t| ensures t[i].score >= t[j].score {
        if i > 0 {
          assert t[i] == r[i - 1] && t[j] == r[j - 1];
        } else {
          assert t[j] == r[j - 1];
        }
      }
    }
  }

  /** Inserting below a bound into a list below that bound stays below it. */
  lemma {:induction false} InsertBounded(s: seq<ScoreEntry>, e: ScoreEntry, bound: int)
    requires forall k :: 0 <= k < |s| ==> s[k].score <= bound
    requires e.score <= bound
    ensures forall k :: 0 <= k < |Insert(s, e)| ==> Insert(s, e)[k].score <= bound
  {
    if |s| > 0 && s[0].score >= e.score {
      InsertBounded(s[1..], e, bound);
    }
  }

  /** `e` joins the entries of its own score at the end; other scores are untouched. */
  lemma {:induction false} InsertWithScore(s: seq<ScoreEntry>, e: ScoreEntry, v: int)
    requires SortedDesc(s)
    ensures WithScore(Insert(s, e), v) == WithScore(s, v) + (if e.score == v then [e] else [])
  {
    if |s| == 0 {
    } else if s[0].score >= e.score {
      InsertWithScore(s[1..], e, v);
      assert ([s[0]] + Insert(s[1..], e))[1..] == Insert(s[1..], e);
    } else {
      assert ([e] + s)[1..] == s;
      if e.score == v {
        NoneWithScore(s, v);
      }
    }
  }

  /** In a descending list that starts below `v`, nothing has score `v`. */
  lemma {:induction false} NoneWithScore(s: seq<ScoreEntry>, v: int)
    requires SortedDesc(s)
    requires |s| > 0 ==> s[0].score < v
    ensures WithScore(s, v) == []
  {
    if |s| > 0 {
      NoneWithScore(s[1..], v);
    }
  }

  /**
   * SortDesc is a stable descending sort: the result is sorted, is a
   * permutation of the input, and keeps the input order among equal scores.
   */
  lemma SortDescCorrect(s: seq<ScoreEntry>)
    ensures SortedDesc(SortDesc(s))
    ensures multiset(SortDesc(s)) == multiset(s)
    ensures forall v :: WithScore(SortDesc(s), v) == WithScore(s, v)
  {
    SortDescSorted(s);
    SortDescMultiset(s);
    forall v ensures WithScore(SortDesc(s), v) == WithScore(s, v) {
      SortDescStable(s, v);
    }
  }

  lemma {:induction false} SortDescSorted(s: seq<ScoreEntry>)
    ensures SortedDesc(SortDesc(s))
  {
    if |s| > 0 {
      SortDescSorted(s[..|s| - 1]);
      InsertSorted(SortDesc(s[..|s| - 1]), s[|s| - 1]);
    }
  }

  lemma {:induction false} SortDescMultiset(s: seq<ScoreEntry>)
    ensures multiset(SortDesc(s)) == multiset(s)
  {
    if |s| > 0 {
      var init, last := s[..|s| - 1], s[|s| - 1];
      assert s == init + [last];
      calc {
        multiset(SortDesc(s));
        multiset(Insert(SortDesc(init), last));
        { InsertMultiset(SortDesc(init), last); }
        multiset(SortDesc(init)) + multiset{last};
        { SortDescMultiset(init); }
        multiset(init) + multiset{last};
        multiset(init + [last]);
      }
    }
  }

  lemma {:induction false} SortDescStable(s: seq<ScoreEntry>, v: int)
    ensures WithScore(SortDesc(s), v) == WithScore(s, v)
  {
    if |s| > 0 {
      var init, last := s[..|s| - 1], s[|s| - 1];
      SortDescStable(init, v);
      SortDescSorted(init);
      InsertWithScore(SortDesc(init), last, v);
      WithScoreAppend(init, [last], v);
      assert s == init + [last];
    }
  }

  /**
   * Appends `e`, stable-sorts by descending score and keeps the first `cap`
   * entries.
   */
  function AppendCapped(board: seq<ScoreEntry>, e: ScoreEntry, cap: nat): seq<ScoreEntry> {
    Take(SortDesc(board + [e]), cap)
  }

  /**
   * After an append the board is sorted, holds at most `cap` entries (exactly
   * `cap` unless there were fewer), comes from the old board plus `e`, and
   * every entry it dropped scores no higher than every entry it kept.
   */
  lemma AppendCappedFacts(board: seq<ScoreEntry>, e: ScoreEntry, cap: nat)
    ensures var r := AppendCapped(board, e, cap);
      && SortedDesc(r)
      && |r| == (if |board| + 1 < cap then |board| + 1 else cap)
      && multiset(r) <= multiset(board) + multiset{e}
      && var sorted := SortDesc(board + [e]);
         r == sorted[..|r|]
         && forall k, d :: 0 <= k < |r| <= d < |sorted| ==> sorted[d].score <= r[k].score
  {
    var all := board + [e];
    var sorted := SortDesc(all);
    SortDescSorted(all);
    SortDescMultiset(all);
    var r := AppendCapped(board, e, cap);
    assert |sorted| == |multiset(sorted)| == |multiset(all)| == |all|;
    assert multiset(all) == multiset(board) + multiset{e};
    assert sorted == r + sorted[|r|..];
    assert multiset(sorted) == multiset(r) + multiset(sorted[|r|..]);
  }
}
