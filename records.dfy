/**
 * The documents of the `users` collection and the single `vars` document,
 * the two streak thresholds, and the per-record rules of the weekly rollover
 * (leaderboard.py).
 */
module Records {

  /** A record is shown on the leaderboard while its streak is above this. */
  const VisibleAbove: int := -3

  /** A record is a slacker while its streak is below this. */
  const SlackerBelow: int := 0

  /** The goal text written by the weekly rollover. */
  const NoGoal: string := "NONE"

  /** One document of the `users` collection; its `_id` is the map key that holds it. */
  datatype User = User(
    username: string,
    score: int,
    streak: int,
    goal1: string,
    goal2: string,
    g1status: bool,
    g2status: bool)

  /** The single document of the `vars` collection. */
  datatype Vars = Vars(week: int, thread: int, buttons: int)

  /** The query documents the bot hands to `find`: `{}`, `{"streak": {"$lt": b}}`, `{"streak": {"$gt": b}}`. */
  datatype Filter = Everything | StreakLt(bound: int) | StreakGt(bound: int)

  predicate Matches(f: Filter, u: User)
  {
    match f
    case Everything => true
    case StreakLt(b) => u.streak < b
    case StreakGt(b) => u.streak > b
  }

  predicate Visible(u: User)
  {
    Matches(StreakGt(VisibleAbove), u)
  }

  predicate Slacker(u: User)
  {
    Matches(StreakLt(SlackerBelow), u)
  }

  predicate Distinct<T(==)>(s: seq<T>)
  {
    forall i, j :: 0 <= i < j < |s| ==> s[i] != s[j]
  }

  /** The document `add_user` inserts. */
  function NewUser(username: string): User
  {
    User(username, 0, 0, "", "", false, false)
  }

  /** The goal text of slot 1 or 2 (the field `goal{n}`). */
  function Goal(u: User, n: int): string
    requires n == 1 || n == 2
  {
    if n == 1 then u.goal1 else u.goal2
  }

  /** The completion flag of slot 1 or 2 (the field `g{n}status`). */
  function Status(u: User, n: int): bool
    requires n == 1 || n == 2
  {
    if n == 1 then u.g1status else u.g2status
  }

  /** `$set` of the field `goal{n}`: only that field changes. */
  function WithGoal(u: User, n: int, goal: string): (r: User)
    requires n == 1 || n == 2
    ensures Goal(r, n) == goal
    ensures Goal(r, 3 - n) == Goal(u, 3 - n)
    ensures r.(goal1 := u.goal1, goal2 := u.goal2) == u
  {
    if n == 1 then u.(goal1 := goal) else u.(goal2 := goal)
  }

  /** `$set` of the field `g{n}status`: only that flag changes. */
  function WithStatus(u: User, n: int, finished: bool): (r: User)
    requires n == 1 || n == 2
    ensures Status(r, n) == finished
    ensures Status(r, 3 - n) == Status(u, 3 - n)
    ensures r.(g1status := u.g1status, g2status := u.g2status) == u
  {
    if n == 1 then u.(g1status := finished) else u.(g2status := finished)
  }

  function Max(a: int, b: int): int { if a < b then b else a }

  function Min(a: int, b: int): int { if a < b then a else b }

  /**
   * The streak table of `calculate_streak` (and of the rollover): a
   * successful week continues a positive streak or starts a new one at 1;
   * an unsuccessful week ends a positive streak at 0 or extends a run of
   * empty weeks by one.
   */
  function NextStreak(streaked: bool, streak: int): (r: int)
    ensures r == if streaked then Max(streak, 0) + 1 else Min(streak, 1) - 1
    ensures streaked <==> r > 0
  {
    if streaked && streak > 0 then streak + 1
    else if streaked then 1
    else if streak > 0 then 0
    else streak - 1
  }

  /** How many of the two goals are marked done: the score a rollover awards. */
  function Completed(u: User): (n: int)
    ensures 0 <= n <= 2
    ensures n == 0 <==> !u.g1status && !u.g2status
  {
    (if u.g1status then 1 else 0) + (if u.g2status then 1 else 0)
  }

  /** The update `start_new_week` applies to one record it found on the leaderboard. */
  function WeekUpdate(u: User): (r: User)
    ensures r.score == u.score + Completed(u)
    ensures r.streak == NextStreak(Completed(u) > 0, u.streak)
    ensures r.(score := u.score, streak := u.streak) == u
  {
    var gained := Completed(u);
    if gained > 0 && u.streak > 0 then u.(streak := u.streak + 1, score := u.score + gained)
    else if gained > 0 then u.(streak := 1, score := u.score + gained)
    else if u.streak > 0 then u.(streak := 0, score := u.score + gained)
    else u.(streak := u.streak - 1, score := u.score + gained)
  }

  /** The bulk `$set` that ends every rollover. */
  function ResetGoals(u: User): User
  {
    u.(goal1 := NoGoal, goal2 := NoGoal, g1status := false, g2status := false)
  }

  /** What one rollover does to one record: score it if it is shown, then clear its goals. */
  function Rollover(u: User): User
  {
    ResetGoals(if Visible(u) then WeekUpdate(u) else u)
  }

  /** What one rollover does to the whole collection. */
  function RolloverAll(users: map<int, User>): map<int, User>
  {
    map id | id in users :: Rollover(users[id])
  }

  /** The bulk `$set` of `hard_reset`: everything but the name goes back to its start value. */
  function Cleared(u: User): User
  {
    u.(score := 0, streak := 0, goal1 := "", goal2 := "", g1status := false, g2status := false)
  }

  /** `n` consecutive rollovers of one record. */
  function Weeks(u: User, n: nat): User
  {
    if n == 0 then u else Rollover(Weeks(u, n - 1))
  }

  /**
   * One rollover: a shown record gains its completed goals and moves by the
   * streak table; a hidden one keeps score and streak; every record leaves
   * with both goals reset.
   */
  lemma RolloverEffect(u: User)
    ensures var r := Rollover(u);
      && r.username == u.username
      && r.goal1 == NoGoal && r.goal2 == NoGoal && !r.g1status && !r.g2status
      && (Visible(u) ==> r.score == u.score + Completed(u) && r.streak == NextStreak(Completed(u) > 0, u.streak))
      && (!Visible(u) ==> r.score == u.score && r.streak == u.streak)
  {
  }

  /**
   * The streak floor: a record whose streak is at least -3 never goes below
   * -3, however many rollovers follow, and its score never decreases.
   */
  lemma {:induction false} StreakFloor(u: User, n: nat)
    requires u.streak >= VisibleAbove
    ensures Weeks(u, n).streak >= VisibleAbove
    ensures Weeks(u, n).score >= u.score
  {
    if n > 0 {
      StreakFloor(u, n - 1);
      RolloverEffect(Weeks(u, n - 1));
    }
  }

  /**
   * A hidden record is frozen: rollovers never change its score or its
   * streak again, so it stays hidden.
   */
  lemma {:induction false} HiddenStaysFrozen(u: User, n: nat)
    requires !Visible(u)
    ensures Weeks(u, n).score == u.score
    ensures Weeks(u, n).streak == u.streak
  {
    if n > 0 {
      HiddenStaysFrozen(u, n - 1);
      RolloverEffect(Weeks(u, n - 1));
    }
  }

  /** Every hidden record is a slacker, but a slacker at -1 or -2 is still shown. */
  lemma ThresholdsDiffer(u: User)
    ensures !Visible(u) ==> Slacker(u)
    ensures u.streak == -3 ==> Slacker(u) && !Visible(u)
    ensures u.streak == -1 ==> Slacker(u) && Visible(u)
  {
  }
}
