# ChallengesBot leaderboard engine in Dafny

The bot tracks members of a chat community who set two goals a week. This
project models its two pieces of real logic:

- The `Leaderboard` class of `leaderboard.py`. It keeps two MongoDB
  collections. The model holds `users` as a map from user id to document,
  plus the collection's natural (insertion) order. It holds `vars`, the one
  settings document, as an optional record of week number, working-thread
  id and buttons-message id. Every method of the class except
  `check_connection` and `get_status` is a method of the Dafny class
  `LeaderboardDb.Leaderboard` that updates or reads this state.
- `recalculate_slackers` of `helpers.py`. It makes the guild's "slacker"
  role agree with the stored users whose streak is negative. The guild's
  members become their ids in fetch order. The role's holders become a set.
  Each `add_roles`/`remove_roles` call is recorded in a call log.

Modules:

- `Records` (`records.dfy`): the user document,
  the settings document, the two thresholds (shown while `streak > -3`,
  slacker while `streak < 0`), the streak table, and what one weekly
  rollover does to one document.
- `Ranking` (`ranking.dfy`): the database's sort of the shown documents by
  score, then streak, both descending; the rank counter of the row loop,
  with its 1000 sentinel; and the dense-rank properties over sorted rows.
- `LeaderboardDb` (`leaderboard.dfy`): the class, `find` over a filter,
  and the lemmas that the leaderboard shows exactly the visible documents.
- `Helpers` (`helpers.dfy`): the reconciliation loop and its lemmas.
- `Scenarios` (`scenarios.dfy`): worked cases (ranks 1, 1, 2, 3, 3, 3 for
  scores 10, 10, 7, 5, 5, 5; the rollover of a streak-2 and a streak-(-5)
  document; setting a goal status twice; re-adding a user already stored;
  adding a user and removing it again; a rollover with no users; a missing settings document; three
  players A, B, C).

The model keeps these quirks of the code:

- The rank loop starts from a previous score of 1000, so any score of 1000
  or more gets rank 0 and the first row gets rank 1 only below 1000.
- `set_goal`, `set_username` and `remove_user` report success for an
  unknown id. A MongoDB update or delete that matches nothing does not
  raise.
- `add_score` adds exactly 1 and ignores its `increment` argument. It
  returns the updated document, or nothing for an unknown id.
- Without a settings document, `start_new_week` still succeeds and changes
  no week number, because an update that matches nothing does not raise.
  The getters and `update_*` return -1, and `get_buttons` returns `False`
  (modelled as `None`).

## Model

| member | source | states |
|---|---|---|
| Records.NextStreak | leaderboard.py:142-149 | the streak table in closed form: a done week gives max(streak, 0) + 1, an empty week gives min(streak, 1) - 1; the new streak is positive exactly when the week was done |
| Records.Completed | leaderboard.py:223-225 | the points a rollover awards are 0 to 2, and 0 exactly when neither goal is marked done |
| Records.WeekUpdate | leaderboard.py:227-238 | the rollover's four-branch update adds the completed goals to the score, moves the streak exactly as the `calculate_streak` table does, and touches no other field |
| Records.WithGoal | leaderboard.py:159 | `$set` of `goal{n}` stores the text in that slot and leaves the other slot and every other field as they were |
| Records.WithStatus | leaderboard.py:169 | `$set` of `g{n}status` stores the flag in that slot and leaves the other slot and every other field as they were |
| Records.RolloverEffect | leaderboard.py:218-241 | after one rollover a shown document has gained its completed goals and moved by the streak table, a hidden one keeps score and streak, and every one has both goals set to 'NONE' and both flags cleared |
| Records.StreakFloor | leaderboard.py:220-238 | a document whose streak is at least -3 never drops below -3 and never loses score, over any number of rollovers |
| Records.HiddenStaysFrozen | leaderboard.py:220 | a document with streak -3 or below keeps its score and streak through any number of rollovers |
| Records.ThresholdsDiffer | helpers.py:9 | every hidden document is a slacker; streak -3 is a slacker but hidden; streak -1 is a slacker and still shown |
| Ranking.Insert | leaderboard.py:64 | inserting into the sorted cursor adds exactly that one document |
| Ranking.InsertSorted | leaderboard.py:64 | inserting into documents sorted by score, then streak, descending keeps them sorted |
| Ranking.SortDesc | leaderboard.py:64 | the sort yields a permutation of the found documents, ordered by score, then streak, descending |
| Ranking.SortKeepsSorted | leaderboard.py:64 | documents already in sort order come back unchanged |
| Ranking.TrackedScore | leaderboard.py:66-76 | over sorted rows, the tracked previous score after a row is that row's score capped at 1000 |
| Ranking.RankCountsTiers | leaderboard.py:66-78 | over sorted rows, a row's rank is the number of distinct scores below 1000 at or above it: a dense rank |
| Ranking.RankStep | leaderboard.py:73-78 | between neighbouring sorted rows the rank rises by exactly 1 when the score drops below both the previous score and 1000, and stays the same otherwise |
| Ranking.FirstRank | leaderboard.py:66-76 | the first row gets rank 1 when its score is below 1000 and rank 0 otherwise |
| Ranking.RankZeroIffAboveSentinel | leaderboard.py:66-78 | over sorted rows, a row has rank 0 exactly when its score is 1000 or more, and no rank is negative |
| Ranking.EqualScoresShareRank | leaderboard.py:74-78 | over sorted rows, rows with equal scores share a rank, whatever their streaks |
| Ranking.LowerScoreRanksBelow | leaderboard.py:74-78 | over sorted rows, a row whose score is below an earlier row's (and below 1000) has a strictly higher rank number |
| LeaderboardDb.MatchingIds | leaderboard.py:48-50 | `find` yields exactly the stored ids whose documents match the filter, each once, in natural order |
| LeaderboardDb.Erase | leaderboard.py:40 | deleting an id leaves every other id of the natural order, each once |
| LeaderboardDb.EraseAppended | leaderboard.py:20-43 | removing the id that `add_user` just appended gives back the natural order from before the add |
| LeaderboardDb.MatchingRecords | leaderboard.py:64 | the documents `find` yields for a filter are exactly the stored documents that match it |
| LeaderboardDb.ShownAreVisible | leaderboard.py:64 | the leaderboard cursor is sorted by score, then streak, descending, and holds exactly the documents whose streak is above -3 |
| LeaderboardDb.ShownCount | leaderboard.py:64 | the leaderboard cursor has one entry per stored document whose streak is above -3 |
| LeaderboardDb.Leaderboard.constructor | leaderboard.py:6-10 | the store attaches to the stored `users` documents, in their natural order, and to the given settings document |
| LeaderboardDb.Leaderboard.AddUser | leaderboard.py:20-36 | a new id gets a document with score 0, streak 0, empty goals and both flags false, and True; an id already present gets False and nothing changes |
| LeaderboardDb.Leaderboard.RemoveUser | leaderboard.py:38-43 | the id's document is gone, nothing else changes, and the result is True even for an unknown id |
| LeaderboardDb.Leaderboard.GetUsers | leaderboard.py:45-56 | the result lists exactly the stored ids whose documents match the filter, each once, in natural order |
| LeaderboardDb.Leaderboard.GetLeaderboard | leaderboard.py:58-78 | one row per entry of the sorted leaderboard cursor, in that order, each carrying the name, score and streak of its document and the rank of the counter loop |
| LeaderboardDb.Leaderboard.AddScore | leaderboard.py:131-136 | the user's score goes up by exactly 1 whatever `increment` is, and the updated document is returned; an unknown id changes nothing and returns None |
| LeaderboardDb.Leaderboard.CalculateStreak | leaderboard.py:138-155 | a known user's streak moves by the streak table and the result is True; an unknown id gives False and changes nothing |
| LeaderboardDb.Leaderboard.SetGoal | leaderboard.py:157-162 | only the named goal text of that one document changes; the result is True, also for an unknown id |
| LeaderboardDb.Leaderboard.SetStatus | leaderboard.py:164-173 | the result is True exactly when the id is known and its flag differs from `finished`, and then only that flag changes; otherwise nothing changes |
| LeaderboardDb.Leaderboard.SetUsername | leaderboard.py:175-180 | only the nickname of that one document changes; the result is True, also for an unknown id |
| LeaderboardDb.Leaderboard.GetWeek | leaderboard.py:182-186 | the stored week number, or -1 without a settings document |
| LeaderboardDb.Leaderboard.UpdateWorkingThread | leaderboard.py:188-194 | the new thread id is stored and the previous one returned; without a settings document nothing changes and -1 is returned |
| LeaderboardDb.Leaderboard.GetWorkingThread | leaderboard.py:196-200 | the stored thread id, or -1 without a settings document |
| LeaderboardDb.Leaderboard.GetButtons | leaderboard.py:202-206 | the stored buttons-message id, or nothing (`False`) without a settings document |
| LeaderboardDb.Leaderboard.UpdateButtons | leaderboard.py:208-214 | the new buttons-message id is stored and the previous one returned; without a settings document nothing changes and -1 is returned |
| LeaderboardDb.Leaderboard.StartNewWeek | leaderboard.py:216-244 | the week number goes up by exactly 1 (also with no users), and every document becomes its one-document rollover: the shown ones scored by the streak table, all with goals reset |
| LeaderboardDb.Leaderboard.HardReset | leaderboard.py:246-250 | every document goes back to score 0, streak 0, empty goals and cleared flags, keeping its nickname |
| Helpers.SlackerMembers | helpers.py:16-21 | the returned list holds exactly the fetched members whose id is a slacker id, in fetch order |
| Helpers.Reconcile | helpers.py:16-31 | after the loop a fetched member holds the role exactly when it is a slacker; anyone not fetched keeps their role state; the output and the calls are those of the loop |
| Helpers.CallsOnlyWhereNeeded | helpers.py:20-29 | the role is added exactly to the slacker members that lacked it and removed exactly from the non-slacker members that held it |
| Helpers.NoCallsWhenAgreed | helpers.py:23-28 | members whose role state already agrees with the slacker ids get no call |
| Helpers.ReconcileIdempotent | helpers.py:18-31 | a second run with the same slacker ids makes no calls and leaves the role holders as they are |
| Helpers.RecalculateSlackers | helpers.py:7-31 | the slacker ids are the stored users with streak below 0; afterwards a fetched member holds the role exactly when it is one of them, the rest of the guild keeps its role state, the result lists the slacker members in fetch order, and the calls are exactly the reconciliation's (so the role is added only where missing and removed only where held, by CallsOnlyWhereNeeded) |
| Scenarios.DenseRankExample | leaderboard.py:66-78 | sorted scores 10, 10, 7, 5, 5, 5 get ranks 1, 1, 2, 3, 3, 3 |
| Scenarios.SentinelExample | leaderboard.py:66-78 | sorted scores 1200, 1000, 999 get ranks 0, 0, 1 |
| Scenarios.RolloverExamples | leaderboard.py:220-241 | streak 2 with goal 1 done becomes streak 3 and score + 1; streak -5 keeps score and streak; both leave with goals 'NONE' and flags cleared |
| Scenarios.EndToEndRows | leaderboard.py:66-78 | A (10, 1), B (10, -1), C (8, 0) are in sort order and get ranks 1, 1, 2; only B is a slacker |
| Scenarios.EndToEndOutput | helpers.py:16-21 | with slacker id 2, members 1 to 4 return only member 2 |
| Scenarios.EndToEndRoles | helpers.py:18-29 | with slacker id 2 and holders 3 and 4, members 1 to 4 leave only member 2 holding the role |
| Scenarios.EndToEndCalls | helpers.py:18-29 | the calls for that case are: add the role to 2, remove it from 3, remove it from 4 |

## Left out

- MongoDB connection set-up and the `check_connection` ping (leaderboard.py:6-18), so the 'MongoDB is not accessible currently.' reply of `get_leaderboard` is not modelled. These are network liveness.
- The matplotlib rendering in `get_leaderboard` and all of `get_status` (leaderboard.py:80-129). These are image output; the model stops at the rows.
- The unused `real_rank` counter of `get_leaderboard` (leaderboard.py:68, 73), which never reaches a row.
- Exceptions from the database itself (the broad `except` branches returning False, -1 or `[]`). Only failures that follow from the state are modelled: a duplicate id, an unknown id in `set_status` and `calculate_streak`, and a missing settings document. An unknown id in `add_score` is no failure: the update matches nothing and the method returns None.
- LeaderboardDb.Leaderboard.SetGoal: requires goal number 1 or 2, the only numbers the bot passes; another number would write a stray `goal{n}` field that the record does not have.
- LeaderboardDb.Leaderboard.SetStatus: requires goal number 1 or 2 for the same reason; another number would compare a missing field with the flag and write a stray `g{n}status` field.
- The order of the rollover loop (the sort by streak) and its lack of atomicity: the model scores the shown documents one at a time in natural order, which gives the same result because each document is updated on its own.
- The order MongoDB gives documents with equal score and streak is not specified. The model uses a stable insertion sort over the natural order, and its lemmas claim only the score/streak order and the permutation.
- Integers are unbounded: MongoDB's 32/64-bit integer fields and their overflow are not modelled.
- The chat platform: `get_guild`, `get_role`, `fetch_members`, `add_roles`, `remove_roles`, `get_message` (helpers.py:10-14, 24, 29, 34-37) and all of app.py (event handlers, modals, buttons, thread management). The model replaces them with a list of member ids, a set of role holders and a log of role calls.
