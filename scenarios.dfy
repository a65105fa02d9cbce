/** Worked cases of the leaderboard's behaviour, checked against the model. */
module Scenarios {
  import opened Wrappers
  import opened Records
  import opened Ranking
  import opened LeaderboardDb
  import opened Helpers

  function Player(name: string, score: int, streak: int): User
  {
    User(name, score, streak, "", "", false, false)
  }

  /** Scores 10, 10, 7, 5, 5, 5 in sorted order get ranks 1, 1, 2, 3, 3, 3. */
  lemma DenseRankExample()
    ensures var s := [Player("a", 10, 0), Player("b", 10, 0), Player("c", 7, 0),
                      Player("d", 5, 0), Player("e", 5, 0), Player("f", 5, 0)];
      && RankRow(s, 0).rank == 1 && RankRow(s, 1).rank == 1 && RankRow(s, 2).rank == 2
      && RankRow(s, 3).rank == 3 && RankRow(s, 4).rank == 3 && RankRow(s, 5).rank == 3
  {
    var s := [Player("a", 10, 0), Player("b", 10, 0), Player("c", 7, 0),
              Player("d", 5, 0), Player("e", 5, 0), Player("f", 5, 0)];
    assert Track(s, 0) == Tracker(0, 1000);
    assert Track(s, 1) == Tracker(1, 10);
    assert Track(s, 2) == Tracker(1, 10);
    assert Track(s, 3) == Tracker(2, 7);
    assert Track(s, 4) == Tracker(3, 5);
  }

  /** A score of 1000 or more sits at rank 0 above the ranked rows. */
  lemma SentinelExample()
    ensures var s := [Player("a", 1200, 0), Player("b", 1000, 0), Player("c", 999, 0)];
      RankRow(s, 0).rank == 0 && RankRow(s, 1).rank == 0 && RankRow(s, 2).rank == 1
  {
    var s := [Player("a", 1200, 0), Player("b", 1000, 0), Player("c", 999, 0)];
    assert Track(s, 0) == Tracker(0, 1000);
    assert Track(s, 2) == Tracker(0, 1000);
  }

  /** Streak 2 with goal 1 done: streak 3, score up by one, goals cleared; streak -5: frozen, goals still cleared. */
  lemma RolloverExamples()
    ensures Rollover(User("a", 4, 2, "run", "read", true, false)) == User("a", 5, 3, NoGoal, NoGoal, false, false)
    ensures Rollover(User("b", 4, -5, "run", "read", true, true)) == User("b", 4, -5, NoGoal, NoGoal, false, false)
  {
  }

  /** Marking a goal done twice succeeds once; the flag changes once. */
  method StatusTwice()
  {
    var ldb := new Leaderboard(map[], [], Some(Vars(1, 10, 20)));
    var added := ldb.AddUser(7, "ann");
    assert added;
    var first := ldb.SetStatus(7, 1, true);
    var second := ldb.SetStatus(7, 1, true);
    assert first && !second;
    assert ldb.users[7].g1status;
  }

  /** Attaching to a collection that already holds a user: adding that id again is refused. */
  method ReopenedStore()
  {
    var ldb := new Leaderboard(map[7 := NewUser("ann")], [7], None);
    var again := ldb.AddUser(7, "bob");
    assert !again && ldb.users[7].username == "ann";
  }

  /** Adding a new user and removing it again restores the store. */
  method AddThenRemove(ldb: Leaderboard, user: int, username: string)
    requires ldb.Valid()
    requires user !in ldb.users
    modifies ldb
  {
    var users, order := ldb.users, ldb.order;
    var added := ldb.AddUser(user, username);
    var removed := ldb.RemoveUser(user);
    EraseAppended(order, user);
    assert ldb.users == users;
    assert added && removed && ldb.order == order;
  }

  /** The week advances by one even with no users; the thread swap hands back the old id. */
  method EmptyRollover()
  {
    var ldb := new Leaderboard(map[], [], Some(Vars(4, 10, 20)));
    var ok := ldb.StartNewWeek();
    var week := ldb.GetWeek();
    assert ok && week == 5;
    var was := ldb.UpdateWorkingThread(11);
    var now := ldb.GetWorkingThread();
    assert was == 10 && now == 11;
  }

  /** Without a settings document the getters fall back to -1 and the rollover still reports success. */
  method MissingSettings()
  {
    var ldb := new Leaderboard(map[], [], None);
    var ok := ldb.StartNewWeek();
    var week := ldb.GetWeek();
    var previous := ldb.UpdateButtons(3);
    var buttons := ldb.GetButtons();
    assert ok && week == -1 && previous == -1 && buttons == None;
  }

  /**
   * Three players, A and B tied on score 10 with streaks 1 and -1, C on 8
   * with streak 0, are already in sort order (so the sort keeps them, by
   * SortKeepsSorted); A and B share rank 1, C gets
   * rank 2, and only B is a slacker.
   */
  lemma EndToEndRows()
    ensures var s := [Player("A", 10, 1), Player("B", 10, -1), Player("C", 8, 0)];
      && SortedDesc(s)
      && RankRow(s, 0) == Row(1, "A", 10, 1) && RankRow(s, 1) == Row(1, "B", 10, -1) && RankRow(s, 2) == Row(2, "C", 8, 0)
      && !Slacker(s[0]) && Slacker(s[1]) && !Slacker(s[2])
  {
    var s := [Player("A", 10, 1), Player("B", 10, -1), Player("C", 8, 0)];
    assert Track(s, 0) == Tracker(0, 1000);
    assert Track(s, 1) == Tracker(1, 10);
    assert Track(s, 2) == Tracker(1, 10);
  }

  /** Of members 1 to 4 only member 2 is returned. */
  lemma EndToEndOutput()
    ensures SlackerMembers([1, 2, 3, 4], [2]) == [2]
  {
    var ms := [1, 2, 3, 4];
    assert ms[..3] == [1, 2, 3] && ms[..3][..2] == [1, 2] && ms[..2][..1] == [1] && ms[..1][..0] == [];
    assert SlackerMembers([1], [2]) == [];
    assert SlackerMembers([1, 2], [2]) == [2];
    assert SlackerMembers([1, 2, 3], [2]) == [2];
  }

  /** Where 3 and 4 held the role, 2 gains it and 3 and 4 (the latter not on the board) lose it. */
  lemma EndToEndRoles()
    ensures Reconciled([1, 2, 3, 4], [2], {3, 4}) == {2}
  {
    var ms := [1, 2, 3, 4];
    assert (set m | m in ms) == {1, 2, 3, 4};
    assert (set m | m in ms && m in [2]) == {2};
  }

  /** The calls made: add the role to 2, remove it from 3 and from 4. */
  lemma EndToEndCalls()
    ensures RoleCalls([1, 2, 3, 4], [2], {3, 4}) == [AddRole(2), RemoveRole(3), RemoveRole(4)]
  {
    var ms := [1, 2, 3, 4];
    assert ms[..3] == [1, 2, 3] && ms[..3][..2] == [1, 2] && ms[..2][..1] == [1] && ms[..1][..0] == [];
    assert RoleCalls([1], [2], {3, 4}) == [];
    assert RoleCalls([1, 2], [2], {3, 4}) == [AddRole(2)];
    assert RoleCalls([1, 2, 3], [2], {3, 4}) == [AddRole(2), RemoveRole(3)];
  }
}
