# tk-clockins in Dafny

tk-clockins records working time for a game server. It has two halves around one
shift table (`tk_clockins`):

- The **reconciler** (`server/app/index.js`) keeps `currentJob`, an in-memory
  map from a player's identifier to the last job descriptor seen for them
  (`name`, `onduty`). When a player's job or duty flag differs from the cached
  one, it closes the player's open shift (`clockout = now`). If the new job is on
  duty and is not `unemployed`, it inserts a new open shift. It runs a pass over
  all connected players every ten seconds. On startup it closes every open shift,
  then force-reconciles every connected player. On disconnect it closes the
  player's shift.
- The **query service** (`server/public/index.js`) answers four read-only
  queries over the table: a player's hours per job, a player's individual
  shifts, a per-job leaderboard ranked by SQL `RANK()`, and a global per-job
  leaderboard. It also answers an allow-list check. Each query looks back
  `Days || 7` days. The individual shifts and the per-job leaderboard also
  return at most `Limit || 10` rows; the hours and the global leaderboard have
  no limit.

The model:

- `config.dfy` (module `Config`): the table name, `MinimumTime` (30 000 ms) and
  the allow-list of jobs.
- `shifts.dfy` (module `Shifts`): the row type and the two `UPDATE` statements
  as functions on `seq<Row>`. Also `OpenCount`, the number of open shifts of an
  identifier.
- `reconciler.dfy` (module `Reconciler`):
  - A value-level `State` (the cache and the table) and one function per handler
    (`AfterValidate`, `AfterUpdate`, `AfterTick`, `AfterInit`, ...) saying which
    state the handler leaves behind.
  - The class `ClockinManager`. Its fields are the `currentJob` map and the
    `rows` sequence. Each method follows the source's branches and is proved to
    change the fields as the matching function says.
  - The invariant `Tracked`: an identifier has exactly one open shift when its
    cached job opens a shift, and none otherwise. It implies at most one open
    shift per identifier. It is proved to be established by `init` and kept by
    every handler except the disconnect handler as written (see Findings).
  - A weaker invariant `Bounded`: no identifier has more open shifts than its
    cached job calls for. Every handler as written keeps it, the disconnect
    included, so any run of ticks and disconnects after `init` leaves at most one
    open shift per identifier.
- `queries.dfy` (module `Queries`): each query as a pure function.
  - `WHERE` is a filter, `GROUP BY … SUM(total)` is a fold into groups,
    `ORDER BY … DESC` is an insertion sort, `RANK()` is one plus the number of
    strictly larger sums, and `LIMIT` is a prefix.
  - Each one is proved against a reference definition (`SumFor`, `KeysOf`,
    `Rivals`).

JavaScript falsy values are modelled as follows:

- A missing or empty identifier, or a missing or empty job name, is `""`.
- A missing object is `None`.
- An absent or zero `Days`/`Limit` is `None`/`Some(0)`, both replaced by the
  default.

`Date.now()` is a parameter `now`. The host runtime's list of players is a
parameter `sessions`.

## Model

| member | source | states |
|---|---|---|
| Shifts.CloseOpen | server/app/index.js:65-72 | the `UPDATE … WHERE identifier = ? AND clockout IS NULL`: same length; each open row of the identifier gets `clockout = now`; every other row is unchanged |
| Shifts.CloseAll | server/app/index.js:135-137 | the `UPDATE … WHERE clockout IS NULL`: same length; every open row gets `clockout = now`; closed rows are unchanged |
| Shifts.SettleTotals | server/index.js:9-17 | what the `total` column is meant to hold, a step nothing in the program performs: each closed row without a total gets `clockout - clockin`; other rows are unchanged |
| Shifts.CloseOpenCounts | server/app/index.js:65-72 | after closing, the identifier has no open shift and every other identifier keeps its count |
| Shifts.CloseAllCounts | server/app/index.js:135-137 | after closing all, no identifier has an open shift |
| Shifts.AtMostOneIff | server/app/index.js:49-57 | "at most one open shift per identifier", counted, is equivalent to the index-wise form with no two different open rows (both directions) |
| Shifts.CountZero | server/app/index.js:65-72 | an identifier's count is zero exactly when none of its rows is open |
| Reconciler.AfterClockOut | server/app/index.js:65-72 | ForceClockOut: the cache is unchanged; a missing identifier changes nothing; otherwise the table becomes `CloseOpen` of it |
| Reconciler.AfterClockIn | server/app/index.js:81-90 | ClockIn: the cache is unchanged; on duty and not `unemployed` appends `(id, job.name, now, null, null)`; otherwise nothing changes |
| Reconciler.AfterValidate | server/app/index.js:25-40 | ValidateClockin: only the outcome `Updated` writes state; `Unchanged` holds exactly when player, data, job, name and identifier are present and the cache matches in name and duty; `Updated` holds exactly when they are present and the cache differs, and then the state is that of ForceUpdateClockIn |
| Reconciler.AfterStartupPlayer | server/app/index.js:110-127 | the per-player startup body: it writes state exactly when player, data, job and identifier are present (no job-name check); then it does the cache write followed by ForceUpdateClockIn |
| Reconciler.AfterDropForgetting | server/app/index.js:97-101 | corrected disconnect: the table is as ForceClockOut leaves it, and the identifier's cache entry is removed |
| Reconciler.AfterUpdate | server/app/index.js:49-57 | ForceUpdateClockIn: the cache entry becomes `job` even for a missing identifier; a missing identifier leaves the table alone; history is kept and at most one row is added |
| Reconciler.AfterTick | server/app/index.js:12-17 | a pass of UpdateClockins: no cache entry is removed and the table's history is kept (no row removed, closed rows never rewritten) |
| Reconciler.AfterStartupPass | server/app/index.js:108-128 | the startup pass: no cache entry is removed and the table's history is kept |
| Reconciler.AfterInit | server/app/index.js:144-148 | init: no row is removed, and every shift left open by an earlier run is closed |
| Reconciler.AfterDrop | server/app/index.js:97-101 | the disconnect as written: the cache is untouched; the table keeps its length and history |
| Reconciler.AfterEvents | server/app/index.js:12-101 | any sequence of ticks and disconnects keeps the table's history |
| Reconciler.UpdateEffect | server/app/index.js:49-57 | ForceUpdateClockIn with an identifier: the cache entry becomes `job` and no other entry changes; the identifier is left with one open shift if the job opens one and none otherwise; other identifiers keep their counts; other identifiers' rows are untouched; the new row, if any, is `(id, job.name, now, null, null)` at the end |
| Reconciler.ClockOutEffect | server/app/index.js:65-72 | ForceClockOut with an identifier: no open shift of it remains; each of its open rows gets `clockout = now`; identifier, job, clockin and total are unchanged in every row; other rows are unchanged |
| Reconciler.CloseAllEffect | server/app/index.js:135-137 | after ForceClockOutAllOnResourceLoad no row is open; each row that was open has `clockout = now` and is otherwise unchanged; rows that were closed are unchanged |
| Reconciler.TrackedAtMostOne | server/app/index.js:49-57 | the reconciler's invariant implies at most one open shift per identifier, counted and index-wise |
| Reconciler.UpdatePreservesTracked | server/app/index.js:49-57 | ForceUpdateClockIn with an identifier keeps the invariant |
| Reconciler.ValidatePreservesTracked | server/app/index.js:25-40 | ValidateClockin keeps the invariant, whatever the session reports |
| Reconciler.StartupPlayerPreservesTracked | server/app/index.js:110-127 | the per-player startup body keeps the invariant |
| Reconciler.TickPreservesTracked | server/app/index.js:12-17 | a whole UpdateClockins pass keeps the invariant |
| Reconciler.StartupPassPreservesTracked | server/app/index.js:108-128 | a whole ForceClockinOnResourceLoad pass keeps the invariant |
| Reconciler.InitEstablishesTracked | server/app/index.js:144-148 | from the empty cache and any table, init establishes the invariant and at most one open shift per identifier |
| Reconciler.DropForgettingPreservesTracked | server/app/index.js:97-101 | the corrected disconnect keeps the invariant |
| Reconciler.BoundedAtMostOne | server/app/index.js:49-57 | the reconciler's invariant implies the weaker one, and the weaker one implies at most one open shift per identifier |
| Reconciler.UpdatePreservesBounded | server/app/index.js:49-57 | ForceUpdateClockIn keeps the weaker invariant, for any identifier |
| Reconciler.ClockOutPreservesBounded | server/app/index.js:97-101 | ForceClockOut, the disconnect as written and the corrected disconnect keep the weaker invariant |
| Reconciler.ValidatePreservesBounded | server/app/index.js:25-40 | ValidateClockin keeps the weaker invariant |
| Reconciler.StartupPlayerPreservesBounded | server/app/index.js:110-127 | the per-player startup body keeps the weaker invariant |
| Reconciler.TickPreservesBounded | server/app/index.js:12-17 | a whole UpdateClockins pass keeps the weaker invariant |
| Reconciler.StartupPassPreservesBounded | server/app/index.js:108-128 | a whole startup pass keeps the weaker invariant |
| Reconciler.EventsPreserveBounded | server/app/index.js:12-101 | any sequence of ticks and disconnects as written keeps the weaker invariant |
| Reconciler.ProgramKeepsAtMostOne | server/app/index.js:97-148 | the program as written: after init from a fresh process, any sequence of ticks and disconnects leaves at most one open shift per identifier, and none for a player whose cached job opens none |
| Reconciler.NoShiftForUnemployedOrOffDuty | server/app/index.js:81-83 | a transition into `unemployed` or off duty closes the shift, opens none, and adds no row |
| Reconciler.AnyJobIsRecorded | server/app/index.js:81-90 | any named on-duty job other than `unemployed`, allow-listed or not, gets a new shift row |
| Reconciler.OnOffDutyScenario | server/app/index.js:25-90 | on duty as police at t inserts one open row; off duty at t + d closes it with clockout t + d and inserts nothing; the settled total is d |
| Reconciler.DropKeepsStaleCache | server/app/index.js:97-101 | as written, a disconnect breaks the invariant; a reconnect in the same job is seen as no transition and leaves no open shift |
| Reconciler.ReconnectReopens | server/app/index.js:97-101 | with the corrected disconnect, a reconnect in a job that opens a shift gives one open shift at the next tick and keeps the invariant |
| Reconciler.ClockinManager.constructor | server/app/index.js:7 | a fresh process: empty cache over the existing table |
| Reconciler.ClockinManager.ForceClockOut | server/app/index.js:65-72 | changes only the table, as `AfterClockOut` says; keeps the weaker invariant `Bounded` |
| Reconciler.ClockinManager.ClockIn | server/app/index.js:81-90 | changes only the table, as `AfterClockIn` says |
| Reconciler.ClockinManager.ForceUpdateClockIn | server/app/index.js:49-57 | new state is `AfterUpdate` of the old; keeps the invariant for a present identifier; keeps the weaker invariant `Bounded` |
| Reconciler.ClockinManager.ValidateClockin | server/app/index.js:25-40 | the outcome and new state are those of `AfterValidate`; keeps the invariant; keeps the weaker invariant `Bounded` |
| Reconciler.ClockinManager.ForceClockinPlayer | server/app/index.js:110-127 | the outcome and new state are those of `AfterStartupPlayer`; keeps the weaker invariant `Bounded` |
| Reconciler.ClockinManager.PlayerDropped | server/app/index.js:97-101 | the drop as written: the table as ForceClockOut leaves it; the cache is untouched; keeps the weaker invariant `Bounded` |
| Reconciler.ClockinManager.PlayerDroppedForgetting | server/app/index.js:97-101 | the corrected drop: new state is `AfterDropForgetting`; keeps the invariant; keeps the weaker invariant `Bounded` |
| Reconciler.ClockinManager.ForceClockOutAllOnResourceLoad | server/app/index.js:135-137 | the table becomes `CloseAll` of the old table; the cache is unchanged |
| Reconciler.ClockinManager.UpdateClockins | server/app/index.js:12-17 | the players are validated one after another (`AfterTick`); keeps the invariant; keeps the weaker invariant `Bounded` |
| Reconciler.ClockinManager.ForceClockinOnResourceLoad | server/app/index.js:108-128 | the players are force-reconciled one after another (`AfterStartupPass`); keeps the weaker invariant `Bounded` |
| Reconciler.ClockinManager.Init | server/app/index.js:144-148 | close everything, then the startup pass; afterwards the invariant holds and no identifier has two open shifts |
| Queries.DaysOr | server/public/index.js:21 | `Days \|\| 7`: never zero; a non-zero `Days` is used as given; an absent or zero one becomes 7 |
| Queries.LimitOr | server/public/index.js:43 | `Limit \|\| 10`: positive; a non-zero `Limit` is used as given; an absent or zero one becomes 10 |
| Queries.Filter | server/public/index.js:20 | a `WHERE`: keeps exactly the rows satisfying the condition, each as many times as it occurs in the table, and none of the others |
| Queries.DaysAgo | server/public/index.js:102-104 | the cutoff lies in the past exactly when the day count is positive, and is now exactly when it is zero |
| Queries.PlayerHours | server/public/index.js:14-24 | getPlayerHours: nothing exactly when the identifier is missing |
| Queries.PlayerClockins | server/public/index.js:35-46 | getPlayerClockins: empty for a missing identifier or job; never more rows than `Limit \|\| 10` |
| Queries.DepartmentLeaderboard | server/public/index.js:56-66 | getDepartmentClockinLeaderboard: empty for a missing job; never more rows than `Limit \|\| 10` |
| Queries.GlobalLeaderboard | server/public/index.js:75-84 | getGlobalClockinLeaderboard: a reordering of the per-job groups of the window, nothing added or lost |
| Queries.DaysAgoMonotone | server/public/index.js:102-104 | a longer look-back gives an earlier cutoff, by exactly one day's milliseconds per day |
| Queries.DefaultWindow | server/public/index.js:102-104 | the default window excludes a shift started seven days ago and includes one started an hour ago |
| Queries.ZeroMeansDefault | server/public/index.js:14-84 | for every query, passing 0 equals passing nothing equals passing 7 days and 10 rows |
| Queries.UnsettledShiftInvisible | server/public/index.js:14-84 | a row with a null total passes none of the four `WHERE` clauses |
| Queries.GroupByCorrect | server/public/index.js:17-20 | `GROUP BY` with `SUM`: distinct keys; exactly the keys that occur; one group per key; each total is the sum of its rows' totals |
| Queries.SortDescSpec | server/public/index.js:80 | `ORDER BY totalTime DESC`: sorted non-increasing, a permutation, and the same number of groups above any total |
| Queries.SortKeepsKeys | server/public/index.js:80 | sorting keeps the groups, their keys and the keys' distinctness |
| Queries.CountAboveKeys | server/public/index.js:60 | with distinct keys, the number of groups above t equals the number of keys whose total is above t |
| Queries.RankAtBoundary | server/public/index.js:60 | in a sorted list, the first element of a run of equal totals at position i has exactly i elements above it |
| Queries.IsDepartmentClocked | server/public/index.js:92-94 | true exactly when the department is in the configured list |
| Queries.AllowListExamples | server/config/index.js:8-16 | `police` and `unemployed` are listed; `ambulance` and the empty name are not |
| Queries.PlayerHoursSpec | server/public/index.js:14-24 | nothing exactly when the identifier is missing; otherwise the jobs are exactly those of the qualifying rows, each once, with the sum of their totals |
| Queries.PlayerClockinsSpec | server/public/index.js:35-46 | empty for a missing identifier or job; otherwise each entry is a qualifying row (that identifier and job, total above the minimum, started after the cutoff); the window holds every qualifying row as often as it occurs; the result is a sub-multiset of the projected window with `Min(limit, qualifying)` entries, and all of it, in some order, when it fits the limit |
| Queries.MinimumTimeScenario | server/config/index.js:5 | a five-second shift is left out of a player's history and a one-minute shift is kept |
| Queries.LeaderboardEntries | server/public/index.js:59-63 | a ranked, truncated list has `Min(limit, groups)` entries with distinct identifiers, each one of the groups |
| Queries.LeaderboardRanks | server/public/index.js:60 | each rank is one plus the number of groups with a strictly larger total |
| Queries.LeaderboardOrder | server/public/index.js:60-62 | totals are non-increasing and ranks non-decreasing; the first entry of each run of equal totals at position i has rank i + 1 |
| Queries.LeaderboardTop | server/public/index.js:62 | a group cut off by the limit has no larger total than any entry kept |
| Queries.DepartmentGroups | server/public/index.js:60-62 | the per-identifier groups of a department window: distinct; one per identifier; each with its sum; rivals by group equal rivals by identifier |
| Queries.DepartmentLeaderboardEntries | server/public/index.js:56-66 | empty for a missing job; otherwise `Min(limit, identifiers)` entries with distinct identifiers, each an identifier with qualifying rows and its summed total |
| Queries.DepartmentLeaderboardRanks | server/public/index.js:56-66 | each rank is one plus the number of identifiers of that job whose sum is strictly larger (standard `RANK()`) |
| Queries.DepartmentLeaderboardOrder | server/public/index.js:56-66 | ascending rank and non-increasing total; ties share a rank and the next distinct total resumes at its position plus one; an identifier cut off by the limit has no larger sum than any kept |
| Queries.GlobalLeaderboardSpec | server/public/index.js:75-84 | one entry per job with qualifying rows, each with its sum, sorted by non-increasing total |

## Left out

- Concurrency: the source starts every per-player handler without awaiting it, and database calls are asynchronous. The model runs the handlers of one pass one after another and each database statement atomically.
- A failing database statement is not modelled: every `Lib.DB.Run` is taken to succeed. In the source, a rejected `UPDATE` in `ForceClockOut` comes after the cache write of `ForceUpdateClockIn`, so the cache would record the new job while the old shift stays open.
- The ten-second timer of `init` is not modelled; `UpdateClockins` is a single tick.
- `Date.now()` becomes the parameter `now`. One pass uses one value of `now`, while the source reads the clock once per statement.
- Logging (`Logger`), the host runtime calls (`GetPlayers`, `GetPlayer`, `GetStrippedPlayerIdentifier`) and the event wiring are left out. Their results are the `sessions` and `identifier` parameters.
- The SQL engine is not modelled. The queries are stated on the rows directly.
- The schema bootstrap and the export wiring in `server/index.js` are left out. Only the table's columns are modelled.
- The auto-increment `id` column is not modelled. A row's position in the sequence stands in for it.
- Column bounds (`VARCHAR(32)`, `BIGINT`) are not modelled. Integers are unbounded.
- Job objects are copied into the cache because the model has value semantics. The source stores a reference, which the host could mutate in place; that aliasing is not modelled.
- Falsy values other than the empty string (for example `0` or `false` as an identifier) are not modelled.
- Fractional `Days`, and negative or fractional `Limit`, are not modelled: `Days` is an integer and `Limit` a natural number. A negative `Days` is modelled and, as in the source, passes through `Days || 7` unchanged and puts the cutoff in the future.
- `Queries.PlayerClockinsSpec`: no order is promised, because the query has no `ORDER BY`. The function returns table order, but the contract states only which rows come back and how often.
- `Queries.GlobalLeaderboardSpec`: the order among jobs with equal totals is not stated, because SQL leaves it open.
- `Queries.PlayerHoursSpec`: the order of the jobs is not stated, because the query has no `ORDER BY`.
- The `total` column is meant to hold `clockout - clockin` once a shift closes, but nothing in the program writes it: `ForceClockOut` sets only `clockout`. The model follows the code, so `total` stays null after closing. `Shifts.SettleTotals` models that computation separately, and the reconciler never applies it.
- String equality is exact in the model (`OpenFor`, the `WHERE` predicates, `KeyOf`). The table declares no collation, and the usual MySQL/MariaDB defaults compare without regard to case and trailing spaces, so `"Police"` and `"police"` are one group in the database and two in the model.

## Findings

| source | as written | input that shows it | evidently intended | confidence | as-written member | corrected member |
|---|---|---|---|---|---|---|
| server/app/index.js:97-101 | the disconnect handler closes the player's open shift but keeps the cached job | "A" is on duty as police with an open shift, disconnects, and comes back on duty as police: the next tick sees no transition and opens no shift, so the new time is not recorded | a disconnect also forgets the cached job, so the reconnect counts as a transition and opens a shift | medium, not executed | Reconciler.DropKeepsStaleCache | Reconciler.ReconnectReopens |
