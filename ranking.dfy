/**
 * The rows of `get_leaderboard` (leaderboard.py): the database's sort of the
 * shown records by score, then streak, both descending, and the rank counter
 * the row loop keeps, which starts from a sentinel previous score of 1000.
 */
module Ranking {
  import opened Records

  /** The "impossibly high" previous score the rank loop starts from. */
  const Sentinel: int := 1000

  /** One row of the rendered table: rank, nickname, score, streak. */
  datatype Row = Row(rank: int, username: string, score: int, streak: int)

  /** `a` may come before `b` under the sort `[("score", -1), ("streak", -1)]`. */
  predicate Precedes(a: User, b: User)
  {
    a.score > b.score || (a.score == b.score && a.streak >= b.streak)
  }

  ghost predicate SortedDesc(s: seq<User>)
  {
    forall i, j :: 0 <= i < j < |s| ==> Precedes(s[i], s[j])
  }

  /** Puts `x` in front of the first record it may precede, keeping `s`'s order otherwise. */
  function Insert(x: User, s: seq<User>): (r: seq<User>)
    ensures multiset(r) == multiset(s) + multiset{x}
  {
    if s == [] then [x]
    else if Precedes(x, s[0]) then [x] + s
    else
      assert s == [s[0]] + s[1..];
      [s[0]] + Insert(x, s[1..])
  }

  /** Inserting into sorted records keeps them sorted. */
  lemma {:induction false} InsertSorted(x: User, s: seq<User>)
    requires SortedDesc(s)
    ensures SortedDesc(Insert(x, s))
  {
    if s != [] && !Precedes(x, s[0]) {
      var tail := Insert(x, s[1..]);
      InsertSorted(x, s[1..]);
      forall y | y in tail ensures Precedes(s[0], y) {
        assert y in multiset(tail);
        if y != x {
          var m :| 0 <= m < |s| - 1 && s[1..][m] == y;
          assert s[m + 1] == y;
        }
      }
      assert Insert(x, s) == [s[0]] + tail;
    }
  }

  /** The database's sort of the records it found, as a stable insertion sort. */
  function SortDesc(s: seq<User>): (r: seq<User>)
    ensures multiset(r) == multiset(s)
    ensures SortedDesc(r)
  {
    if s == [] then []
    else
      assert s == [s[0]] + s[1..];
      var rest := SortDesc(s[1..]);
      InsertSorted(s[0], rest);
      Insert(s[0], rest)
  }

  /** Records already in sort order come back unchanged. */
  lemma {:induction false} SortKeepsSorted(s: seq<User>)
    requires SortedDesc(s)
    ensures SortDesc(s) == s
  {
    if s != [] {
      SortKeepsSorted(s[1..]);
      if |s| > 1 {
        assert Precedes(s[0], s[1]);
      }
      assert s == [s[0]] + s[1..];
    }
  }

  /** The loop's two counters: the rank it assigns and the score it compares with. */
  datatype Tracker = Tracker(rank: int, prevScore: int)

  /** One loop step: a strictly lower score opens a new rank and becomes the tracked score. */
  function Advance(t: Tracker, score: int): Tracker
  {
    if score < t.prevScore then Tracker(t.rank + 1, score) else t
  }

  /** The counters after the first `n` records of `s`. */
  function Track(s: seq<User>, n: nat): Tracker
    requires n <= |s|
  {
    if n == 0 then Tracker(0, Sentinel) else Advance(Track(s, n - 1), s[n - 1].score)
  }

  /** The row the loop appends for record `k`. */
  function RankRow(s: seq<User>, k: nat): Row
    requires k < |s|
  {
    Row(Track(s, k + 1).rank, s[k].username, s[k].score, s[k].streak)
  }

  /** The distinct scores below the sentinel among `t`: the ranks used up so far. */
  ghost function Tiers(t: seq<User>): set<int>
  {
    set u | u in t && u.score < Sentinel :: u.score
  }

  /** Over sorted records, the tracked score is the last score seen, capped by the sentinel. */
  lemma {:induction false} TrackedScore(s: seq<User>, n: nat)
    requires SortedDesc(s)
    requires 1 <= n <= |s|
    ensures Track(s, n).prevScore == Min(s[n - 1].score, Sentinel)
  {
    if n > 1 {
      TrackedScore(s, n - 1);
      assert Precedes(s[n - 2], s[n - 1]);
    }
  }

  /** One more record adds its score to the tiers when it is below the sentinel. */
  lemma TiersAppend(t: seq<User>, x: User)
    ensures Tiers(t + [x]) == Tiers(t) + (if x.score < Sentinel then {x.score} else {})
  {
    assert forall u :: u in t + [x] <==> u in t || u == x;
  }

  /** Over sorted records, record `k`'s score is already a tier exactly when it is below the sentinel and ties record `k - 1`. */
  lemma SeenTier(s: seq<User>, k: nat)
    requires SortedDesc(s)
    requires 1 <= k < |s|
    ensures s[k].score in Tiers(s[..k]) <==> s[k].score < Sentinel && s[k].score == s[k - 1].score
  {
    assert Precedes(s[k - 1], s[k]);
    assert s[..k][k - 1] == s[k - 1];
    ScoresAtOrAbove(s, k - 1);
    assert s[..k] == s[..k - 1 + 1];
  }

  /**
   * Over sorted records the rank of a row is the number of distinct scores
   * below 1000 at or above it: a dense rank with 1000 and above sharing rank 0.
   */
  lemma {:induction false} RankCountsTiers(s: seq<User>, n: nat)
    requires SortedDesc(s)
    requires n <= |s|
    ensures Track(s, n).rank == |Tiers(s[..n])|
  {
    if n == 0 {
      assert Tiers(s[..0]) == {};
    } else {
      RankCountsTiers(s, n - 1);
      var x := s[n - 1];
      assert s[..n] == s[..n - 1] + [x];
      TiersAppend(s[..n - 1], x);
      if n > 1 {
        TrackedScore(s, n - 1);
        SeenTier(s, n - 1);
        assert Precedes(s[n - 2], x);
      } else {
        assert Tiers(s[..0]) == {};
      }
    }
  }

  /**
   * Between neighbouring rows of sorted records the rank rises by one exactly
   * when the score drops below both the previous score and the sentinel, and
   * otherwise stays put.
   */
  lemma RankStep(s: seq<User>, k: nat)
    requires SortedDesc(s)
    requires k + 1 < |s|
    ensures RankRow(s, k + 1).rank ==
      RankRow(s, k).rank + (if s[k + 1].score < s[k].score && s[k + 1].score < Sentinel then 1 else 0)
  {
    TrackedScore(s, k + 1);
  }

  /** The first row gets rank 1 when its score is below the sentinel and rank 0 otherwise. */
  lemma FirstRank(s: seq<User>)
    requires |s| > 0
    ensures RankRow(s, 0).rank == if s[0].score < Sentinel then 1 else 0
  {
    assert Track(s, 0) == Tracker(0, Sentinel);
  }

  /** Over sorted records, a row has rank 0 exactly when its score is 1000 or more, and rank 1 or more otherwise. */
  lemma RankZeroIffAboveSentinel(s: seq<User>, k: nat)
    requires SortedDesc(s)
    requires k < |s|
    ensures RankRow(s, k).rank == 0 <==> s[k].score >= Sentinel
    ensures RankRow(s, k).rank >= 0
  {
    RankCountsTiers(s, k + 1);
    assert s[..k + 1][k] == s[k];
    if s[k].score < Sentinel {
      assert s[k].score in Tiers(s[..k + 1]);
    } else {
      assert Tiers(s[..k + 1]) == {} by {
        forall u | u in s[..k + 1] ensures u.score >= Sentinel {
          var j :| 0 <= j < k + 1 && s[j] == u;
          assert j == k || Precedes(s[j], s[k]);
        }
      }
    }
  }

  /** Over sorted records, rows with equal scores share their rank. */
  lemma EqualScoresShareRank(s: seq<User>, j: nat, k: nat)
    requires SortedDesc(s)
    requires j < k < |s|
    requires s[j].score == s[k].score
    ensures RankRow(s, j).rank == RankRow(s, k).rank
  {
    RankCountsTiers(s, j + 1);
    RankCountsTiers(s, k + 1);
    assert Tiers(s[..j + 1]) == Tiers(s[..k + 1]) by {
      assert s[..k + 1] == s[..j + 1] + s[j + 1..k + 1];
      forall u | u in s[j + 1..k + 1] ensures u.score == s[j].score {
        var m :| j + 1 <= m < k + 1 && s[m] == u;
        assert Precedes(s[j], s[m]);
        assert m == k || Precedes(s[m], s[k]);
      }
      assert s[..j + 1][j] == s[j];
    }
  }

  /** Over sorted records, every record up to position `j` scores at least as much as record `j`. */
  lemma ScoresAtOrAbove(s: seq<User>, j: nat)
    requires SortedDesc(s)
    requires j < |s|
    ensures forall u :: u in s[..j + 1] ==> u.score >= s[j].score
  {
    forall u | u in s[..j + 1] ensures u.score >= s[j].score {
      var m :| 0 <= m < j + 1 && s[m] == u;
      assert m == j || Precedes(s[m], s[j]);
    }
  }

  /** A longer prefix has at least the tiers of a shorter one. */
  lemma TiersGrow(s: seq<User>, a: nat, b: nat)
    requires a <= b <= |s|
    ensures Tiers(s[..a]) <= Tiers(s[..b])
  {
    forall u | u in s[..a] ensures u in s[..b] {
      var m :| 0 <= m < a && s[..a][m] == u;
      assert s[..b][m] == u;
    }
  }

  lemma SubsetNoLarger(small: set<int>, large: set<int>)
    requires small <= large
    ensures |small| <= |large|
    decreases small
  {
    if !(forall y :: y !in small) {
      var y :| y in small;
      SubsetNoLarger(small - {y}, large - {y});
    } else {
      assert small == {};
    }
  }

  lemma StrictSubsetSmaller(small: set<int>, large: set<int>, x: int)
    requires small <= large && x in large && x !in small
    ensures |small| < |large|
  {
    SubsetNoLarger(small, large - {x});
  }

  /** Over sorted records, a row whose score is below an earlier row's (and below 1000) ranks strictly lower. */
  lemma LowerScoreRanksBelow(s: seq<User>, j: nat, k: nat)
    requires SortedDesc(s)
    requires j < k < |s|
    requires s[k].score < s[j].score && s[k].score < Sentinel
    ensures RankRow(s, j).rank < RankRow(s, k).rank
  {
    RankCountsTiers(s, j + 1);
    RankCountsTiers(s, k + 1);
    ScoresAtOrAbove(s, j);
    TiersGrow(s, j + 1, k + 1);
    assert s[..k + 1][k] == s[k];
    StrictSubsetSmaller(Tiers(s[..j + 1]), Tiers(s[..k + 1]), s[k].score);
  }
}
