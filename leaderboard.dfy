/**
 * The `Leaderboard` class of leaderboard.py, with its two MongoDB
 * collections held in memory: `users` as a map from `_id` to document plus
 * the collection's natural (insertion) order, and `vars` as the one settings
 * document, which may be missing.
 */
module LeaderboardDb {
  import opened Wrappers
  import opened Records
  import opened Ranking

  /** The ids of `order` whose documents match `f`, in that order: what `find(f)` yields. */
  function MatchingIds(users: map<int, User>, order: seq<int>, f: Filter): (r: seq<int>)
    ensures forall id :: id in r <==> id in order && id in users && Matches(f, users[id])
    ensures forall i :: 0 <= i < |r| ==> r[i] in users && Matches(f, users[r[i]])
    ensures Distinct(order) ==> Distinct(r)
    ensures |r| <= |order|
  {
    if order == [] then []
    else
      var last := order[|order| - 1];
      var front := MatchingIds(users, order[..|order| - 1], f);
      assert order == order[..|order| - 1] + [last];
      front + (if last in users && Matches(f, users[last]) then [last] else [])
  }

  /** `find` over one more document in natural order. */
  lemma MatchingIdsSnoc(users: map<int, User>, order: seq<int>, x: int, f: Filter)
    ensures MatchingIds(users, order + [x], f) ==
      MatchingIds(users, order, f) + (if x in users && Matches(f, users[x]) then [x] else [])
  {
    assert (order + [x])[..|order|] == order;
  }

  /** The documents stored under `ids`. */
  function RecordsOf(users: map<int, User>, ids: seq<int>): (r: seq<User>)
    requires forall i :: 0 <= i < |ids| ==> ids[i] in users
    ensures |r| == |ids|
    ensures forall i :: 0 <= i < |ids| ==> r[i] == users[ids[i]]
  {
    seq(|ids|, i requires 0 <= i < |ids| => users[ids[i]])
  }

  /** The cursor of `get_leaderboard`: `find({"streak": {"$gt": -3}})` sorted by score, then streak, descending. */
  function OnLeaderboard(users: map<int, User>, order: seq<int>): seq<User>
  {
    SortDesc(RecordsOf(users, MatchingIds(users, order, StreakGt(VisibleAbove))))
  }

  /** `s` without `x`, otherwise in order: what `delete_one` leaves of the natural order. */
  function Erase(s: seq<int>, x: int): (r: seq<int>)
    ensures forall y :: y in r <==> y in s && y != x
    ensures Distinct(s) ==> Distinct(r)
  {
    if s == [] then []
    else
      var rest := Erase(s[1..], x);
      assert forall y :: y in s <==> y == s[0] || y in s[1..];
      if s[0] == x then rest
      else
        assert Distinct(s) ==> s[0] !in s[1..];
        [s[0]] + rest
  }

  /** Deleting the id that was appended last gives back the order it was appended to. */
  lemma {:induction false} EraseAppended(order: seq<int>, user: int)
    requires user !in order
    ensures Erase(order + [user], user) == order
  {
    if order != [] {
      EraseAppended(order[1..], user);
      assert (order + [user])[1..] == order[1..] + [user];
      assert order == [order[0]] + order[1..];
    }
  }

  /** The ids of the shown documents. */
  ghost function VisibleIds(users: map<int, User>): set<int>
  {
    set id | id in users && Visible(users[id])
  }

  lemma {:induction false} DistinctCard(s: seq<int>)
    requires Distinct(s)
    ensures |set x | x in s| == |s|
  {
    if s != [] {
      DistinctCard(s[1..]);
      assert (set x | x in s) == (set x | x in s[1..]) + {s[0]};
      assert s[0] !in s[1..];
    }
  }

  class Leaderboard {
    /** The `users` collection by `_id`. */
    var users: map<int, User>
    /** The natural order of the `users` collection: the ids in insertion order. */
    var order: seq<int>
    /** The `vars` collection's one document, if it exists. */
    var vars: Option<Vars>

    /** `_id` is a key: the natural order lists every stored id once. */
    ghost predicate Valid()
      reads this
    {
      && Distinct(order)
      && (forall id :: id in users <==> id in order)
    }

    /**
     * Attaches to the stored collections: the `users` documents already
     * there, in their natural order, and the settings document if any.
     */
    constructor (users0: map<int, User>, order0: seq<int>, settings: Option<Vars>)
      requires Distinct(order0) && (forall id :: id in users0 <==> id in order0)
      ensures Valid()
      ensures users == users0 && order == order0 && vars == settings
    {
      users := users0;
      order := order0;
      vars := settings;
    }

    /** `insert_one` of a fresh document; a duplicate `_id` is refused and changes nothing. */
    method AddUser(user: int, username: string) returns (ok: bool)
      requires Valid()
      modifies this
      ensures Valid()
      ensures ok <==> user !in old(users)
      ensures ok ==> users == old(users)[user := NewUser(username)] && order == old(order) + [user]
      ensures !ok ==> users == old(users) && order == old(order)
      ensures vars == old(vars)
    {
      if user in users {
        ok := false;
      } else {
        users := users[user := NewUser(username)];
        order := order + [user];
        ok := true;
      }
    }

    /** `delete_one` by `_id`; removing an unknown id is a successful no-op. */
    method RemoveUser(user: int) returns (ok: bool)
      requires Valid()
      modifies this
      ensures Valid()
      ensures ok
      ensures users == old(users) - {user}
      ensures order == Erase(old(order), user)
      ensures vars == old(vars)
    {
      users := users - {user};
      order := Erase(order, user);
      ok := true;
    }

    /** The ids of the documents matching `f`, in natural order. */
    method GetUsers(f: Filter) returns (ids: seq<int>)
      requires Valid()
      ensures forall id :: id in ids <==> id in users && Matches(f, users[id])
      ensures Distinct(ids)
      ensures ids == MatchingIds(users, order, f)
    {
      ids := [];
      for i := 0 to |order|
        invariant ids == MatchingIds(users, order[..i], f)
      {
        var id := order[i];
        assert order[..i + 1] == order[..i] + [id];
        MatchingIdsSnoc(users, order[..i], id, f);
        assert id in users;
        if Matches(f, users[id]) {
          ids := ids + [id];
        }
      }
      assert order[..|order|] == order;
    }

    /**
     * The rows of the leaderboard table: one per shown document, in the
     * cursor's order, each with the rank the counter loop assigns.
     */
    method GetLeaderboard() returns (rows: seq<Row>)
      requires Valid()
      ensures |rows| == |OnLeaderboard(users, order)|
      ensures forall k :: 0 <= k < |rows| ==> rows[k] == RankRow(OnLeaderboard(users, order), k)
    {
      var shown := OnLeaderboard(users, order);
      rows := [];
      var prevScore := Sentinel;
      var rank := 0;
      for i := 0 to |shown|
        invariant |rows| == i
        invariant Tracker(rank, prevScore) == Track(shown, i)
        invariant forall k :: 0 <= k < i ==> rows[k] == RankRow(shown, k)
      {
        var score := shown[i].score;
        if score < prevScore {
          rank := rank + 1;
          prevScore := score;
        }
        rows := rows + [Row(rank, shown[i].username, score, shown[i].streak)];
      }
    }

    /** `$inc` of the score by one (the `increment` argument is not used); yields the updated document, or None for an unknown id. */
    method AddScore(user: int, increment: int) returns (doc: Option<User>)
      requires Valid()
      modifies this
      ensures Valid()
      ensures user in old(users) ==>
        users == old(users)[user := old(users)[user].(score := old(users)[user].score + 1)] && doc == Some(users[user])
      ensures user !in old(users) ==> users == old(users) && doc == None
      ensures order == old(order) && vars == old(vars)
    {
      if user in users {
        users := users[user := users[user].(score := users[user].score + 1)];
        doc := Some(users[user]);
      } else {
        doc := None;
      }
    }

    /** Moves one user's streak by the streak table; an unknown id fails and changes nothing. */
    method CalculateStreak(user: int, streaked: bool) returns (ok: bool)
      requires Valid()
      modifies this
      ensures Valid()
      ensures ok <==> user in old(users)
      ensures ok ==> users == old(users)[user := old(users)[user].(streak := NextStreak(streaked, old(users)[user].streak))]
      ensures !ok ==> users == old(users)
      ensures order == old(order) && vars == old(vars)
    {
      if user !in users {
        return false;
      }
      var streak := users[user].streak;
      users := users[user := users[user].(streak := NextStreak(streaked, streak))];
      ok := true;
    }

    /** `$set` of `goal{goalNum}`; an unknown id matches nothing and still reports success. */
    method SetGoal(user: int, goalNum: int, goal: string) returns (ok: bool)
      requires Valid()
      requires goalNum == 1 || goalNum == 2
      modifies this
      ensures Valid()
      ensures ok
      ensures user in old(users) ==> users == old(users)[user := WithGoal(old(users)[user], goalNum, goal)]
      ensures user !in old(users) ==> users == old(users)
      ensures order == old(order) && vars == old(vars)
    {
      if user in users {
        users := users[user := WithGoal(users[user], goalNum, goal)];
      }
      ok := true;
    }

    /**
     * `$set` of `g{goal}status`, guarded: it fails and changes nothing when
     * the id is unknown or the flag already equals `finished`.
     */
    method SetStatus(user: int, goal: int, finished: bool) returns (ok: bool)
      requires Valid()
      requires goal == 1 || goal == 2
      modifies this
      ensures Valid()
      ensures ok <==> user in old(users) && Status(old(users)[user], goal) != finished
      ensures ok ==> users == old(users)[user := WithStatus(old(users)[user], goal, finished)]
      ensures !ok ==> users == old(users)
      ensures order == old(order) && vars == old(vars)
    {
      if user !in users {
        return false;
      }
      if Status(users[user], goal) == finished {
        return false;
      }
      users := users[user := WithStatus(users[user], goal, finished)];
      ok := true;
    }

    /** `$set` of the nickname; an unknown id matches nothing and still reports success. */
    method SetUsername(user: int, username: string) returns (ok: bool)
      requires Valid()
      modifies this
      ensures Valid()
      ensures ok
      ensures user in old(users) ==> users == old(users)[user := old(users)[user].(username := username)]
      ensures user !in old(users) ==> users == old(users)
      ensures order == old(order) && vars == old(vars)
    {
      if user in users {
        users := users[user := users[user].(username := username)];
      }
      ok := true;
    }

    /** The week number, or -1 when there is no settings document. */
    method GetWeek() returns (week: int)
      ensures vars.Some? ==> week == vars.value.week
      ensures vars.None? ==> week == -1
    {
      week := if vars.Some? then vars.value.week else -1;
    }

    /** Stores the new thread id and hands back the one it replaces; -1 and no change without a settings document. */
    method UpdateWorkingThread(threadId: int) returns (previous: int)
      modifies this
      ensures old(vars).Some? ==> previous == old(vars).value.thread && vars == Some(old(vars).value.(thread := threadId))
      ensures old(vars).None? ==> previous == -1 && vars == None
      ensures users == old(users) && order == old(order)
    {
      if vars.None? {
        return -1;
      }
      previous := vars.value.thread;
      vars := Some(vars.value.(thread := threadId));
    }

    /** The current thread id, or -1 without a settings document. */
    method GetWorkingThread() returns (thread: int)
      ensures vars.Some? ==> thread == vars.value.thread
      ensures vars.None? ==> thread == -1
    {
      thread := if vars.Some? then vars.value.thread else -1;
    }

    /** The current buttons message id, or None (the source's `False`) without a settings document. */
    method GetButtons() returns (buttons: Option<int>)
      ensures vars.Some? ==> buttons == Some(vars.value.buttons)
      ensures vars.None? ==> buttons == None
    {
      buttons := if vars.Some? then Some(vars.value.buttons) else None;
    }

    /** Stores the new buttons message id and hands back the one it replaces; -1 and no change without a settings document. */
    method UpdateButtons(buttonId: int) returns (previous: int)
      modifies this
      ensures old(vars).Some? ==> previous == old(vars).value.buttons && vars == Some(old(vars).value.(buttons := buttonId))
      ensures old(vars).None? ==> previous == -1 && vars == None
      ensures users == old(users) && order == old(order)
    {
      if vars.None? {
        return -1;
      }
      previous := vars.value.buttons;
      vars := Some(vars.value.(buttons := buttonId));
    }

    /**
     * The weekly rollover: the week number goes up by one, every shown
     * document is scored by the streak table, then every document has its
     * goals reset.
     */
    method StartNewWeek() returns (ok: bool)
      requires Valid()
      modifies this
      ensures Valid()
      ensures ok
      ensures old(vars).Some? ==> vars == Some(old(vars).value.(week := old(vars).value.week + 1))
      ensures old(vars).None? ==> vars == None
      ensures users == RolloverAll(old(users))
      ensures order == old(order)
    {
      if vars.Some? {
        vars := Some(vars.value.(week := vars.value.week + 1));
      }
      var shown := MatchingIds(users, order, StreakGt(VisibleAbove));
      ghost var before, settings := users, vars;
      assert forall id :: id in shown <==> id in before && Visible(before[id]);
      for i := 0 to |shown|
        invariant order == old(order) && vars == settings
        invariant users.Keys == before.Keys
        invariant forall id :: id in users ==>
          users[id] == if id in shown[..i] then WeekUpdate(before[id]) else before[id]
      {
        var id := shown[i];
        assert shown[..i + 1] == shown[..i] + [id];
        users := users[id := WeekUpdate(users[id])];
      }
      assert shown[..|shown|] == shown;
      ResetAfterScoring(before, users, shown);
      users := map id | id in users :: ResetGoals(users[id]);
      ok := true;
    }

    /** Puts every document back to a zero score and streak with empty goals, keeping its nickname. */
    method HardReset() returns (ok: bool)
      requires Valid()
      modifies this
      ensures Valid()
      ensures ok
      ensures users == map id | id in old(users) :: Cleared(old(users)[id])
      ensures order == old(order) && vars == old(vars)
    {
      users := map id | id in users :: Cleared(users[id]);
      ok := true;
    }
  }

  /** Scoring the shown documents and then resetting every goal is one rollover of the collection. */
  lemma ResetAfterScoring(before: map<int, User>, scored: map<int, User>, shown: seq<int>)
    requires scored.Keys == before.Keys
    requires forall id :: id in shown <==> id in before && Visible(before[id])
    requires forall id :: id in scored ==> scored[id] == if id in shown then WeekUpdate(before[id]) else before[id]
    ensures (map id | id in scored :: ResetGoals(scored[id])) == RolloverAll(before)
  {
    var reset := map id | id in scored :: ResetGoals(scored[id]);
    assert reset.Keys == RolloverAll(before).Keys;
    forall id | id in reset ensures reset[id] == RolloverAll(before)[id] {
      assert id in shown <==> Visible(before[id]);
    }
  }

  lemma SameElements(a: seq<User>, b: seq<User>)
    requires multiset(a) == multiset(b)
    ensures forall u :: u in a <==> u in b
  {
    forall u ensures u in a <==> u in b {
      assert u in a <==> u in multiset(a);
      assert u in b <==> u in multiset(b);
    }
  }

  /** The records `find` yields for `f` are exactly the stored documents matching `f`. */
  lemma MatchingRecords(users: map<int, User>, order: seq<int>, f: Filter)
    requires forall id :: id in users ==> id in order
    ensures forall u :: u in RecordsOf(users, MatchingIds(users, order, f)) <==>
      exists id :: id in users && users[id] == u && Matches(f, u)
  {
    var ids := MatchingIds(users, order, f);
    var recs := RecordsOf(users, ids);
    forall u | u in recs ensures exists id :: id in users && users[id] == u && Matches(f, u) {
      var i :| 0 <= i < |recs| && recs[i] == u;
      var id := ids[i];
      assert id in users && users[id] == u && Matches(f, u);
    }
    forall id | id in users && Matches(f, users[id]) ensures users[id] in recs {
      assert id in ids;
      var i :| 0 <= i < |ids| && ids[i] == id;
      assert recs[i] == users[id];
    }
  }

  /**
   * The leaderboard shows exactly the documents whose streak is above -3,
   * sorted by score and then streak, both descending.
   */
  lemma ShownAreVisible(users: map<int, User>, order: seq<int>)
    requires forall id :: id in users ==> id in order
    ensures SortedDesc(OnLeaderboard(users, order))
    ensures forall u :: u in OnLeaderboard(users, order) <==> exists id :: id in users && users[id] == u && Visible(u)
  {
    MatchingRecords(users, order, StreakGt(VisibleAbove));
    SameElements(OnLeaderboard(users, order), RecordsOf(users, MatchingIds(users, order, StreakGt(VisibleAbove))));
  }

  /** The leaderboard has one row per shown document. */
  lemma ShownCount(users: map<int, User>, order: seq<int>)
    requires Distinct(order)
    requires forall id :: id in users ==> id in order
    ensures |OnLeaderboard(users, order)| == |VisibleIds(users)|
  {
    var ids := MatchingIds(users, order, StreakGt(VisibleAbove));
    var shown := OnLeaderboard(users, order);
    assert |shown| == |multiset(shown)| == |multiset(RecordsOf(users, ids))|;
    DistinctCard(ids);
    forall x ensures x in ids <==> x in VisibleIds(users) {
      if x in users && Visible(users[x]) {
        assert x in order;
      }
    }
    assert (set x | x in ids) == VisibleIds(users);
  }
}
