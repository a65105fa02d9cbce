/**
 * `recalculate_slackers` of helpers.py: make the guild's slacker role agree
 * with the slacker ids stored on the leaderboard. Guild members are their
 * ids in fetch order, the role's holders are a set of ids, and each
 * `add_roles`/`remove_roles` call is recorded in a call log.
 */
module Helpers {
  import opened Records
  import opened LeaderboardDb

  /** A role change requested from the chat platform. */
  datatype RoleCall = AddRole(member: int) | RemoveRole(member: int)

  /** The members whose id is a slacker id, in fetch order: the list the loop returns. */
  function SlackerMembers(members: seq<int>, slackers: seq<int>): (r: seq<int>)
    ensures forall m :: m in r <==> m in members && m in slackers
    ensures |r| <= |members|
  {
    if members == [] then []
    else
      var last := members[|members| - 1];
      assert members == members[..|members| - 1] + [last];
      SlackerMembers(members[..|members| - 1], slackers) + (if last in slackers then [last] else [])
  }

  /** The call the loop makes for member `m`, judged on the role state fetched with the members. */
  function CallFor(m: int, slackers: seq<int>, holders: set<int>): seq<RoleCall>
  {
    if m in slackers then (if m !in holders then [AddRole(m)] else [])
    else (if m in holders then [RemoveRole(m)] else [])
  }

  /** The calls the loop makes over `members`, in order. */
  function RoleCalls(members: seq<int>, slackers: seq<int>, holders: set<int>): seq<RoleCall>
  {
    if members == [] then []
    else
      var last := members[|members| - 1];
      RoleCalls(members[..|members| - 1], slackers, holders) + CallFor(last, slackers, holders)
  }

  /**
   * The intended role state: a fetched member holds the role exactly when
   * it is a slacker, and the role of anyone not fetched is left alone.
   */
  ghost function Reconciled(members: seq<int>, slackers: seq<int>, holders: set<int>): set<int>
  {
    (holders - (set m | m in members)) + (set m | m in members && m in slackers)
  }

  /** How the intended role state grows by one fetched member. */
  lemma ReconciledStep(members: seq<int>, m: int, slackers: seq<int>, holders: set<int>)
    ensures m in slackers ==> Reconciled(members + [m], slackers, holders) == Reconciled(members, slackers, holders) + {m}
    ensures m !in slackers ==> Reconciled(members + [m], slackers, holders) == Reconciled(members, slackers, holders) - {m}
    ensures m in slackers && m in holders ==> m in Reconciled(members, slackers, holders)
    ensures m !in slackers && m !in holders ==> m !in Reconciled(members, slackers, holders)
  {
    assert (set x | x in members + [m]) == (set x | x in members) + {m};
  }

  /** The reconciliation loop over the fetched members. */
  method Reconcile(members: seq<int>, slackers: seq<int>, holders: set<int>)
    returns (output: seq<int>, roleHolders: set<int>, calls: seq<RoleCall>)
    ensures output == SlackerMembers(members, slackers)
    ensures calls == RoleCalls(members, slackers, holders)
    ensures roleHolders == Reconciled(members, slackers, holders)
    ensures forall m :: m in members ==> (m in roleHolders <==> m in slackers)
    ensures forall x :: x !in members ==> (x in roleHolders <==> x in holders)
  {
    output, roleHolders, calls := [], holders, [];
    for i := 0 to |members|
      invariant output == SlackerMembers(members[..i], slackers)
      invariant calls == RoleCalls(members[..i], slackers, holders)
      invariant roleHolders == Reconciled(members[..i], slackers, holders)
    {
      var m := members[i];
      assert members[..i + 1] == members[..i] + [m];
      assert SlackerMembers(members[..i + 1], slackers) ==
        SlackerMembers(members[..i], slackers) + (if m in slackers then [m] else []);
      assert RoleCalls(members[..i + 1], slackers, holders) ==
        RoleCalls(members[..i], slackers, holders) + CallFor(m, slackers, holders);
      ReconciledStep(members[..i], m, slackers, holders);
      if m in slackers {
        output := output + [m];
        if m !in holders {
          roleHolders := roleHolders + {m};
          calls := calls + [AddRole(m)];
        }
      } else {
        if m in holders {
          roleHolders := roleHolders - {m};
          calls := calls + [RemoveRole(m)];
        }
      }
    }
    assert members[..|members|] == members;
  }

  /**
   * The role is added only to slacker members that lack it and removed only
   * from non-slacker members that hold it; every such member gets its call.
   */
  lemma {:induction false} CallsOnlyWhereNeeded(members: seq<int>, slackers: seq<int>, holders: set<int>, m: int)
    ensures AddRole(m) in RoleCalls(members, slackers, holders) <==> m in members && m in slackers && m !in holders
    ensures RemoveRole(m) in RoleCalls(members, slackers, holders) <==> m in members && m !in slackers && m in holders
  {
    if members != [] {
      var front := members[..|members| - 1];
      CallsOnlyWhereNeeded(front, slackers, holders, m);
      assert members == front + [members[|members| - 1]];
    }
  }

  /** No calls are made for members whose role state already agrees with the slacker ids. */
  lemma {:induction false} NoCallsWhenAgreed(members: seq<int>, slackers: seq<int>, holders: set<int>)
    requires forall m :: m in members ==> (m in holders <==> m in slackers)
    ensures RoleCalls(members, slackers, holders) == []
  {
    if members != [] {
      var front := members[..|members| - 1];
      assert members[|members| - 1] in members;
      assert forall m :: m in front ==> m in members;
      NoCallsWhenAgreed(front, slackers, holders);
    }
  }

  /** A second run with the same slacker ids makes no calls and changes nothing. */
  lemma ReconcileIdempotent(members: seq<int>, slackers: seq<int>, holders: set<int>)
    ensures RoleCalls(members, slackers, Reconciled(members, slackers, holders)) == []
    ensures Reconciled(members, slackers, Reconciled(members, slackers, holders)) == Reconciled(members, slackers, holders)
  {
    NoCallsWhenAgreed(members, slackers, Reconciled(members, slackers, holders));
  }

  /**
   * The whole of `recalculate_slackers`: the slacker ids are the stored
   * users with a negative streak; afterwards a fetched member holds the role
   * exactly when it is one of them, the rest of the guild keeps its role
   * state, and the result lists the slacker members in fetch order.
   */
  method RecalculateSlackers(ldb: Leaderboard, members: seq<int>, holders: set<int>)
    returns (output: seq<int>, roleHolders: set<int>, calls: seq<RoleCall>)
    requires ldb.Valid()
    ensures output == SlackerMembers(members, MatchingIds(ldb.users, ldb.order, StreakLt(SlackerBelow)))
    ensures forall m :: m in output <==> m in members && m in ldb.users && Slacker(ldb.users[m])
    ensures forall m :: m in members ==> (m in roleHolders <==> m in ldb.users && Slacker(ldb.users[m]))
    ensures forall x :: x !in members ==> (x in roleHolders <==> x in holders)
    ensures calls == RoleCalls(members, MatchingIds(ldb.users, ldb.order, StreakLt(SlackerBelow)), holders)
  {
    var slackers := ldb.GetUsers(StreakLt(SlackerBelow));
    output, roleHolders, calls := Reconcile(members, slackers, holders);
  }
}
