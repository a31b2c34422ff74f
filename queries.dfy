/** The read-only query service (server/public/index.js): argument defaulting,
    a time window, filters, group sums, ranking and truncation over the shift table. */
module Queries {
  import opened Shifts
  import Config

  const MsPerDay: int := 24 * 60 * 60 * 1000
  const DefaultDays: int := 7
  const DefaultLimit: nat := 10

  /** The cutoff `days` days before `now`, in epoch milliseconds. */
  function DaysAgo(now: int, days: int): (cutoff: int)
    ensures cutoff < now <==> days > 0
    ensures cutoff == now <==> days == 0
  {
    now - days * MsPerDay
  }

  /** `Days || 7`: an absent or zero day count becomes the default. */
  function DaysOr(days: Option<int>): (d: int)
    ensures d != 0
    ensures days.Some? && days.value != 0 ==> d == days.value
    ensures days.None? || days == Some(0) ==> d == DefaultDays
  {
    if days.None? || days.value == 0 then DefaultDays else days.value
  }

  /** `Limit || 10`: an absent or zero limit becomes the default. */
  function LimitOr(limit: Option<nat>): (n: nat)
    ensures n > 0
    ensures limit.Some? && limit.value != 0 ==> n == limit.value
    ensures limit.None? || limit == Some(0) ==> n == DefaultLimit
  {
    if limit.None? || limit.value == 0 then DefaultLimit else limit.value
  }

  /** `SUM` ignores NULL: a row without a total adds nothing. */
  function Amount(r: Row): int
  {
    if r.total.Some? then r.total.value else 0
  }

  /** The rows that satisfy `p`, in table order, each as often as it occurs. */
  function Filter(rows: seq<Row>, p: Row -> bool): (r: seq<Row>)
    ensures |r| <= |rows|
    ensures forall x :: x in r <==> x in rows && p(x)
    ensures forall x :: multiset(r)[x] == (if p(x) then multiset(rows)[x] else 0)
  {
    if rows == [] then []
    else
      assert rows == [rows[0]] + rows[1..];
      if p(rows[0]) then [rows[0]] + Filter(rows[1..], p)
      else Filter(rows[1..], p)
  }

  /** The first `n` elements, or all of them when there are fewer (`LIMIT n`). */
  function Take<T>(xs: seq<T>, n: nat): (r: seq<T>)
    ensures |r| <= n
    ensures multiset(r) <= multiset(xs)
    ensures |xs| <= n ==> r == xs
  {
    if n < |xs| then
      assert xs == xs[..n] + xs[n..];
      xs[..n]
    else xs
  }

  lemma TakeAt<T>(xs: seq<T>, n: nat)
    ensures |Take(xs, n)| == Min(n, |xs|)
    ensures forall i :: 0 <= i < |Take(xs, n)| ==> Take(xs, n)[i] == xs[i]
  {
  }

  function Min(a: int, b: int): int
  {
    if a <= b then a else b
  }

  // ---------------------------------------------------------------------------
  // GROUP BY with SUM

  datatype GroupKey = ByJob | ByIdentifier

  /** One output row of a `GROUP BY key` with `SUM(total) AS totalTime`. */
  datatype Group = Group(key: string, totalTime: int)

  function KeyOf(r: Row, k: GroupKey): string
  {
    match k
    case ByJob => r.job
    case ByIdentifier => r.identifier
  }

  /** The distinct group keys occurring in the rows. */
  function KeysOf(rows: seq<Row>, k: GroupKey): set<string>
  {
    set r | r in rows :: KeyOf(r, k)
  }

  /** Reference definition of the group sum: the totals of all rows with that key. */
  function SumFor(rows: seq<Row>, k: GroupKey, key: string): int
  {
    if rows == [] then 0
    else (if KeyOf(rows[0], k) == key then Amount(rows[0]) else 0) + SumFor(rows[1..], k, key)
  }

  function Keys(gs: seq<Group>): set<string>
  {
    set g | g in gs :: g.key
  }

  predicate DistinctKeys(gs: seq<Group>)
  {
    forall i, j :: 0 <= i < j < |gs| ==> gs[i].key != gs[j].key
  }

  /** The running total of `key`, 0 if it has no group yet. */
  function Lookup(gs: seq<Group>, key: string): int
  {
    if gs == [] then 0
    else if gs[0].key == key then gs[0].totalTime
    else Lookup(gs[1..], key)
  }

  /** Add `v` to the group of `key`, creating the group if it is missing. */
  function AddTo(gs: seq<Group>, key: string, v: int): seq<Group>
  {
    if gs == [] then [Group(key, v)]
    else if gs[0].key == key then [Group(key, gs[0].totalTime + v)] + gs[1..]
    else [gs[0]] + AddTo(gs[1..], key, v)
  }

  /** Hash-aggregation of the rows into one group per key. */
  function GroupBy(rows: seq<Row>, k: GroupKey): seq<Group>
  {
    if rows == [] then []
    else AddTo(GroupBy(rows[1..], k), KeyOf(rows[0], k), Amount(rows[0]))
  }

  /** The keys of a group list with one more group in front. */
  lemma KeysCons(g: Group, gs: seq<Group>)
    ensures Keys([g] + gs) == {g.key} + Keys(gs)
  {
  }

  /** The tail of a distinct-keyed list is distinct-keyed and does not hold the head's key. */
  lemma TailDistinct(gs: seq<Group>)
    requires gs != [] && DistinctKeys(gs)
    ensures DistinctKeys(gs[1..])
    ensures gs[0].key !in Keys(gs[1..])
  {
  }

  /** A head whose key the distinct-keyed tail lacks keeps the list distinct-keyed. */
  lemma DistinctCons(g: Group, gs: seq<Group>)
    requires DistinctKeys(gs) && g.key !in Keys(gs)
    ensures DistinctKeys([g] + gs)
  {
  }

  lemma {:induction false} AddToKeys(gs: seq<Group>, key: string, v: int)
    ensures Keys(AddTo(gs, key, v)) == Keys(gs) + {key}
  {
    if gs != [] {
      var tail := gs[1..];
      assert gs == [gs[0]] + tail;
      KeysCons(gs[0], tail);
      if gs[0].key == key {
        KeysCons(Group(key, gs[0].totalTime + v), tail);
      } else {
        AddToKeys(tail, key, v);
        KeysCons(gs[0], AddTo(tail, key, v));
      }
    }
  }

  lemma {:induction false} AddToDistinct(gs: seq<Group>, key: string, v: int)
    requires DistinctKeys(gs)
    ensures DistinctKeys(AddTo(gs, key, v))
  {
    if gs != [] {
      var tail := gs[1..];
      TailDistinct(gs);
      if gs[0].key == key {
        DistinctCons(Group(key, gs[0].totalTime + v), tail);
      } else {
        AddToDistinct(tail, key, v);
        AddToKeys(tail, key, v);
        DistinctCons(gs[0], AddTo(tail, key, v));
      }
    }
  }

  lemma {:induction false} AddToLookup(gs: seq<Group>, key: string, v: int, x: string)
    ensures Lookup(AddTo(gs, key, v), x) == Lookup(gs, x) + (if x == key then v else 0)
  {
    if gs != [] {
      var tail := gs[1..];
      if gs[0].key == key {
        assert AddTo(gs, key, v)[1..] == tail;
      } else {
        AddToLookup(tail, key, v, x);
        assert AddTo(gs, key, v)[1..] == AddTo(tail, key, v);
      }
    }
  }

  /** In groups with distinct keys, each group's total is the lookup of its key. */
  lemma {:induction false} LookupMember(gs: seq<Group>, g: Group)
    requires DistinctKeys(gs) && g in gs
    ensures g.totalTime == Lookup(gs, g.key)
  {
    if gs[0] != g {
      var tail := gs[1..];
      assert g in tail;
      TailDistinct(gs);
      assert g.key in Keys(tail);
      LookupMember(tail, g);
    }
  }

  /** Distinct keys exactly when there are as many keys as groups. */
  lemma {:induction false} DistinctIffCard(gs: seq<Group>)
    ensures DistinctKeys(gs) <==> |Keys(gs)| == |gs|
    ensures |Keys(gs)| <= |gs|
  {
    if gs == [] {
      assert Keys(gs) == {};
    } else {
      var tail := gs[1..];
      assert gs == [gs[0]] + tail;
      KeysCons(gs[0], tail);
      DistinctIffCard(tail);
      if DistinctKeys(gs) {
        TailDistinct(gs);
      } else if gs[0].key !in Keys(tail) && DistinctKeys(tail) {
        DistinctCons(gs[0], tail);
        assert false;
      }
    }
  }

  lemma {:induction false} GroupByKeys(rows: seq<Row>, k: GroupKey)
    ensures DistinctKeys(GroupBy(rows, k))
    ensures Keys(GroupBy(rows, k)) == KeysOf(rows, k)
  {
    if rows != [] {
      var inner := GroupBy(rows[1..], k);
      GroupByKeys(rows[1..], k);
      AddToKeys(inner, KeyOf(rows[0], k), Amount(rows[0]));
      AddToDistinct(inner, KeyOf(rows[0], k), Amount(rows[0]));
      assert KeysOf(rows, k) == {KeyOf(rows[0], k)} + KeysOf(rows[1..], k) by {
        assert forall r :: r in rows <==> r == rows[0] || r in rows[1..];
      }
    }
  }

  lemma {:induction false} GroupByLookup(rows: seq<Row>, k: GroupKey, x: string)
    ensures Lookup(GroupBy(rows, k), x) == SumFor(rows, k, x)
  {
    if rows != [] {
      GroupByLookup(rows[1..], k, x);
      AddToLookup(GroupBy(rows[1..], k), KeyOf(rows[0], k), Amount(rows[0]), x);
    }
  }

  /** GROUP BY is correct: one group per key occurring in the rows, keys pairwise
      distinct, and each group's total is the sum of the totals of its rows. */
  lemma GroupByCorrect(rows: seq<Row>, k: GroupKey)
    ensures DistinctKeys(GroupBy(rows, k))
    ensures Keys(GroupBy(rows, k)) == KeysOf(rows, k)
    ensures |GroupBy(rows, k)| == |KeysOf(rows, k)|
    ensures forall x :: Lookup(GroupBy(rows, k), x) == SumFor(rows, k, x)
    ensures forall g :: g in GroupBy(rows, k) ==> g.totalTime == SumFor(rows, k, g.key)
  {
    var gs := GroupBy(rows, k);
    GroupByKeys(rows, k);
    DistinctIffCard(gs);
    forall x ensures Lookup(gs, x) == SumFor(rows, k, x) {
      GroupByLookup(rows, k, x);
    }
    forall g | g in gs ensures g.totalTime == SumFor(rows, k, g.key) {
      LookupMember(gs, g);
      GroupByLookup(rows, k, g.key);
    }
  }

  // ---------------------------------------------------------------------------
  // ORDER BY totalTime DESC, and RANK()

  predicate SortedDesc(gs: seq<Group>)
  {
    forall i, j :: 0 <= i < j < |gs| ==> gs[i].totalTime >= gs[j].totalTime
  }

  function Insert(g: Group, gs: seq<Group>): seq<Group>
  {
    if gs == [] || g.totalTime >= gs[0].totalTime then [g] + gs
    else [gs[0]] + Insert(g, gs[1..])
  }

  /** Insertion sort by non-increasing total. */
  function SortDesc(gs: seq<Group>): seq<Group>
  {
    if gs == [] then [] else Insert(gs[0], SortDesc(gs[1..]))
  }

  /** Number of groups whose total is strictly larger than `t`. */
  function CountAbove(gs: seq<Group>, t: int): nat
  {
    if gs == [] then 0
    else (if gs[0].totalTime > t then 1 else 0) + CountAbove(gs[1..], t)
  }

  lemma {:induction false} InsertMultiset(g: Group, gs: seq<Group>)
    ensures multiset(Insert(g, gs)) == multiset(gs) + multiset{g}
  {
    if !(gs == [] || g.totalTime >= gs[0].totalTime) {
      InsertMultiset(g, gs[1..]);
      assert gs == [gs[0]] + gs[1..];
    }
  }

  /** Every element of a sorted list is bounded by its head. */
  lemma HeadBounds(gs: seq<Group>, h: Group)
    requires SortedDesc(gs) && h in gs
    ensures h.totalTime <= gs[0].totalTime
  {
  }

  /** A head no smaller than every element of a sorted tail keeps the list sorted. */
  lemma SortedCons(g: Group, gs: seq<Group>)
    requires SortedDesc(gs)
    requires forall h :: h in gs ==> h.totalTime <= g.totalTime
    ensures SortedDesc([g] + gs)
  {
  }

  lemma {:induction false} InsertSorted(g: Group, gs: seq<Group>)
    requires SortedDesc(gs)
    ensures SortedDesc(Insert(g, gs))
  {
    if gs == [] || g.totalTime >= gs[0].totalTime {
      if gs != [] {
        forall h | h in gs ensures h.totalTime <= g.totalTime {
          HeadBounds(gs, h);
        }
      }
      SortedCons(g, gs);
    } else {
      var tail := gs[1..];
      assert SortedDesc(tail);
      InsertSorted(g, tail);
      InsertMultiset(g, tail);
      var ins := Insert(g, tail);
      forall h | h in ins ensures h.totalTime <= gs[0].totalTime {
        assert h in multiset(ins);
        if h != g {
          assert h in gs;
          HeadBounds(gs, h);
        }
      }
      SortedCons(gs[0], ins);
    }
  }

  lemma {:induction false} InsertCount(g: Group, gs: seq<Group>, t: int)
    ensures CountAbove(Insert(g, gs), t) == CountAbove(gs, t) + (if g.totalTime > t then 1 else 0)
  {
    if gs == [] || g.totalTime >= gs[0].totalTime {
      assert Insert(g, gs)[1..] == gs;
    } else {
      InsertCount(g, gs[1..], t);
      assert Insert(g, gs)[1..] == Insert(g, gs[1..]);
    }
  }

  lemma {:induction false} SortDescPerm(gs: seq<Group>)
    ensures multiset(SortDesc(gs)) == multiset(gs)
  {
    if gs != [] {
      SortDescPerm(gs[1..]);
      InsertMultiset(gs[0], SortDesc(gs[1..]));
      assert gs == [gs[0]] + gs[1..];
    }
  }

  lemma {:induction false} SortDescSorted(gs: seq<Group>)
    ensures SortedDesc(SortDesc(gs))
  {
    if gs != [] {
      SortDescSorted(gs[1..]);
      InsertSorted(gs[0], SortDesc(gs[1..]));
    }
  }

  lemma {:induction false} SortDescCount(gs: seq<Group>, t: int)
    ensures CountAbove(SortDesc(gs), t) == CountAbove(gs, t)
  {
    if gs != [] {
      SortDescCount(gs[1..], t);
      InsertCount(gs[0], SortDesc(gs[1..]), t);
    }
  }

  /** `ORDER BY totalTime DESC`: sorted, a permutation, and the same counts above any total. */
  lemma SortDescSpec(gs: seq<Group>)
    ensures SortedDesc(SortDesc(gs))
    ensures multiset(SortDesc(gs)) == multiset(gs)
    ensures |SortDesc(gs)| == |gs|
    ensures forall t :: CountAbove(SortDesc(gs), t) == CountAbove(gs, t)
  {
    SortDescSorted(gs);
    SortDescPerm(gs);
    assert |multiset(SortDesc(gs))| == |multiset(gs)|;
    forall t ensures CountAbove(SortDesc(gs), t) == CountAbove(gs, t) {
      SortDescCount(gs, t);
    }
  }

  /** Sorting keeps the groups themselves, hence the set of keys and their distinctness. */
  lemma SortKeepsKeys(gs: seq<Group>)
    requires DistinctKeys(gs)
    ensures forall g :: g in SortDesc(gs) <==> g in gs
    ensures DistinctKeys(SortDesc(gs))
    ensures Keys(SortDesc(gs)) == Keys(gs)
  {
    SortDescSpec(gs);
    var s := SortDesc(gs);
    assert forall g :: g in s <==> g in gs by {
      assert forall g :: g in s <==> g in multiset(s);
    }
    assert Keys(s) == Keys(gs);
    DistinctIffCard(gs);
    DistinctIffCard(s);
  }

  /** A department leaderboard row: identifier, summed time and SQL `RANK()`. */
  datatype Standing = Standing(identifier: string, totalTime: int, rank: nat)

  /** `RANK() OVER (ORDER BY SUM(total) DESC)`: one plus the number of groups with
      a strictly larger total. */
  function Ranked(sorted: seq<Group>): seq<Standing>
  {
    seq(|sorted|, i requires 0 <= i < |sorted| =>
      Standing(sorted[i].key, sorted[i].totalTime, 1 + CountAbove(sorted, sorted[i].totalTime)))
  }

  lemma RankedAt(sorted: seq<Group>)
    ensures |Ranked(sorted)| == |sorted|
    ensures forall i :: 0 <= i < |sorted| ==>
      Ranked(sorted)[i] == Standing(sorted[i].key, sorted[i].totalTime, 1 + CountAbove(sorted, sorted[i].totalTime))
  {
  }

  lemma {:induction false} CountAboveMonotone(gs: seq<Group>, t: int, u: int)
    requires t >= u
    ensures CountAbove(gs, t) <= CountAbove(gs, u)
  {
    if gs != [] {
      CountAboveMonotone(gs[1..], t, u);
    }
  }

  /** In a sorted list, when every element before index `i` is larger than `t` and
      none from `i` on is, exactly `i` elements are above `t`. */
  lemma {:induction false} CountAboveSplit(gs: seq<Group>, i: int, t: int)
    requires 0 <= i <= |gs|
    requires forall j :: 0 <= j < i ==> gs[j].totalTime > t
    requires forall j :: i <= j < |gs| ==> gs[j].totalTime <= t
    ensures CountAbove(gs, t) == i
  {
    if gs != [] {
      var tail := gs[1..];
      assert forall j :: 0 <= j < |tail| ==> tail[j] == gs[j + 1];
      if i == 0 {
        CountAboveSplit(tail, 0, t);
      } else {
        CountAboveSplit(tail, i - 1, t);
      }
    }
  }

  /** The keys of the groups whose total is strictly larger than `t`. */
  function Rivals(gs: seq<Group>, t: int): set<string>
  {
    set g | g in gs && g.totalTime > t :: g.key
  }

  /** With distinct keys, counting groups above `t` counts their keys. */
  lemma {:induction false} CountAboveKeys(gs: seq<Group>, t: int)
    requires DistinctKeys(gs)
    ensures CountAbove(gs, t) == |Rivals(gs, t)|
  {
    if gs == [] {
      assert Rivals(gs, t) == {};
    } else {
      var tail := gs[1..];
      TailDistinct(gs);
      CountAboveKeys(tail, t);
      assert gs[0].key !in Rivals(tail, t) by {
        assert Rivals(tail, t) <= Keys(tail);
      }
      assert forall g :: g in gs <==> g == gs[0] || g in tail;
      if gs[0].totalTime > t {
        assert Rivals(gs, t) == {gs[0].key} + Rivals(tail, t);
      } else {
        assert Rivals(gs, t) == Rivals(tail, t);
      }
    }
  }

  /** In a sorted list, the first element of a run of equal totals, at position i,
      has exactly i elements above it. */
  lemma RankAtBoundary(sorted: seq<Group>, i: int)
    requires SortedDesc(sorted) && 0 <= i < |sorted|
    requires i == 0 || sorted[i - 1].totalTime > sorted[i].totalTime
    ensures CountAbove(sorted, sorted[i].totalTime) == i
  {
    var t := sorted[i].totalTime;
    forall j | 0 <= j < i ensures sorted[j].totalTime > t {
      assert sorted[j].totalTime >= sorted[i - 1].totalTime;
    }
    forall j | i <= j < |sorted| ensures sorted[j].totalTime <= t {
      if j > i {
        assert sorted[i].totalTime >= sorted[j].totalTime;
      }
    }
    CountAboveSplit(sorted, i, t);
  }

  // ---------------------------------------------------------------------------
  // The exported queries

  predicate HoursRow(r: Row, identifier: string, cutoff: int)
  {
    r.total.Some? && r.identifier == identifier && r.clockin > cutoff
  }

  predicate ClockinRow(r: Row, identifier: string, job: string, cutoff: int)
  {
    r.total.Some? && r.identifier == identifier && r.job == job
    && r.total.value > Config.MinimumTime && r.clockin > cutoff
  }

  predicate DepartmentRow(r: Row, job: string, cutoff: int)
  {
    r.job == job && r.total.Some? && r.clockin > cutoff
  }

  predicate GlobalRow(r: Row, cutoff: int)
  {
    r.clockin > cutoff && r.total.Some?
  }

  function HoursWindow(rows: seq<Row>, identifier: string, cutoff: int): seq<Row>
  {
    Filter(rows, r => HoursRow(r, identifier, cutoff))
  }

  function ClockinWindow(rows: seq<Row>, identifier: string, job: string, cutoff: int): seq<Row>
  {
    Filter(rows, r => ClockinRow(r, identifier, job, cutoff))
  }

  function DepartmentWindow(rows: seq<Row>, job: string, cutoff: int): seq<Row>
  {
    Filter(rows, r => DepartmentRow(r, job, cutoff))
  }

  function GlobalWindow(rows: seq<Row>, cutoff: int): seq<Row>
  {
    Filter(rows, r => GlobalRow(r, cutoff))
  }

  /** getPlayerHours: nothing for a missing identifier, else the summed totals per job. */
  function PlayerHours(rows: seq<Row>, identifier: string, days: Option<int>, now: int): (r: Option<seq<Group>>)
    ensures r.None? <==> identifier == ""
  {
    if identifier == "" then None
    else Some(GroupBy(HoursWindow(rows, identifier, DaysAgo(now, DaysOr(days))), ByJob))
  }

  /** One row of getPlayerClockins. */
  datatype Clockin = Clockin(job: string, startTime: int, totalTime: int)

  function Project(rows: seq<Row>): (r: seq<Clockin>)
  {
    seq(|rows|, i requires 0 <= i < |rows| => Clockin(rows[i].job, rows[i].clockin, Amount(rows[i])))
  }

  /** getPlayerClockins: the qualifying shifts, at most `Limit || 10` of them. */
  function PlayerClockins(rows: seq<Row>, identifier: string, job: string, days: Option<int>, limit: Option<nat>, now: int): (r: seq<Clockin>)
    ensures identifier == "" || job == "" ==> r == []
    ensures |r| <= LimitOr(limit)
  {
    if identifier == "" || job == "" then []
    else
      Take(Project(ClockinWindow(rows, identifier, job, DaysAgo(now, DaysOr(days)))), LimitOr(limit))
  }

  /** `ORDER BY rank ASC LIMIT n` over ranked groups. */
  function Leaderboard(groups: seq<Group>, n: nat): seq<Standing>
  {
    Take(Ranked(SortDesc(groups)), n)
  }

  /** getDepartmentClockinLeaderboard: per-identifier sums for one job, ranked, truncated. */
  function DepartmentLeaderboard(rows: seq<Row>, job: string, days: Option<int>, limit: Option<nat>, now: int): (r: seq<Standing>)
    ensures job == "" ==> r == []
    ensures |r| <= LimitOr(limit)
  {
    if job == "" then []
    else
      Leaderboard(GroupBy(DepartmentWindow(rows, job, DaysAgo(now, DaysOr(days))), ByIdentifier), LimitOr(limit))
  }

  /** getGlobalClockinLeaderboard: per-job sums, by non-increasing total. */
  function GlobalLeaderboard(rows: seq<Row>, days: Option<int>, now: int): (r: seq<Group>)
    ensures multiset(r) == multiset(GroupBy(GlobalWindow(rows, DaysAgo(now, DaysOr(days))), ByJob))
  {
    SortDescSpec(GroupBy(GlobalWindow(rows, DaysAgo(now, DaysOr(days))), ByJob));
    SortDesc(GroupBy(GlobalWindow(rows, DaysAgo(now, DaysOr(days))), ByJob))
  }

  /** isDepartmentClocked: membership in the configured allow-list. */
  function IsDepartmentClocked(department: string): (b: bool)
    ensures b <==> exists i :: 0 <= i < |Config.Jobs| && Config.Jobs[i] == department
  {
    department in Config.Jobs
  }

  // ---------------------------------------------------------------------------
  // Properties of the queries

  /** A longer look-back gives a cutoff that is no later. */
  lemma DaysAgoMonotone(now: int, d1: int, d2: int)
    requires d1 <= d2
    ensures DaysAgo(now, d2) <= DaysAgo(now, d1)
    ensures DaysAgo(now, d1) - DaysAgo(now, d2) == (d2 - d1) * MsPerDay
  {
  }

  /** The default window excludes a shift that started seven days ago or earlier and
      includes one that started an hour ago. */
  lemma DefaultWindow(now: int, r: Row)
    ensures r.clockin <= now - 7 * MsPerDay ==> !GlobalRow(r, DaysAgo(now, DaysOr(None)))
    ensures r.clockin == now - 60 * 60 * 1000 && r.total.Some? ==> GlobalRow(r, DaysAgo(now, DaysOr(None)))
  {
  }

  /** `Days || 7` and `Limit || 10`: passing 0 is the same as passing nothing, and
      the same as passing 7 days and 10 rows. */
  lemma ZeroMeansDefault(rows: seq<Row>, identifier: string, job: string, now: int)
    ensures PlayerHours(rows, identifier, Some(0), now) == PlayerHours(rows, identifier, None, now)
                                                    == PlayerHours(rows, identifier, Some(7), now)
    ensures PlayerClockins(rows, identifier, job, Some(0), Some(0), now) == PlayerClockins(rows, identifier, job, None, None, now)
                                                                     == PlayerClockins(rows, identifier, job, Some(7), Some(10), now)
    ensures DepartmentLeaderboard(rows, job, Some(0), Some(0), now) == DepartmentLeaderboard(rows, job, None, None, now)
                                                                 == DepartmentLeaderboard(rows, job, Some(7), Some(10), now)
    ensures GlobalLeaderboard(rows, Some(0), now) == GlobalLeaderboard(rows, None, now) == GlobalLeaderboard(rows, Some(7), now)
  {
  }

  /** A shift whose total is still null is invisible to every query. */
  lemma UnsettledShiftInvisible(r: Row, identifier: string, job: string, cutoff: int)
    requires r.total.None?
    ensures !HoursRow(r, identifier, cutoff) && !ClockinRow(r, identifier, job, cutoff)
    ensures !DepartmentRow(r, job, cutoff) && !GlobalRow(r, cutoff)
  {
  }

  /** getPlayerHours: nothing exactly when the identifier is missing; otherwise one
      entry per job among the qualifying rows (non-null total, that identifier,
      started after the cutoff), each with the sum of their totals. */
  lemma PlayerHoursSpec(rows: seq<Row>, identifier: string, days: Option<int>, now: int)
    ensures PlayerHours(rows, identifier, days, now).None? <==> identifier == ""
    ensures identifier != "" ==>
      var cutoff := DaysAgo(now, DaysOr(days));
      var window := HoursWindow(rows, identifier, cutoff);
      var hours := PlayerHours(rows, identifier, days, now).value;
      && DistinctKeys(hours)
      && (forall job :: job in Keys(hours) <==> exists r :: r in rows && HoursRow(r, identifier, cutoff) && r.job == job)
      && (forall g :: g in hours ==> g.totalTime == SumFor(window, ByJob, g.key))
  {
    if identifier != "" {
      var cutoff := DaysAgo(now, DaysOr(days));
      var window := HoursWindow(rows, identifier, cutoff);
      GroupByCorrect(window, ByJob);
    }
  }

  /** getPlayerClockins: empty when the identifier or the job is missing; otherwise
      every entry is a qualifying row (that identifier and job, non-null total above
      the minimum, started after the cutoff), and as many are returned as qualify,
      up to `Limit || 10`. No order is promised. */
  lemma PlayerClockinsSpec(rows: seq<Row>, identifier: string, job: string, days: Option<int>, limit: Option<nat>, now: int)
    ensures identifier == "" || job == "" ==> PlayerClockins(rows, identifier, job, days, limit, now) == []
    ensures identifier != "" && job != "" ==>
      var cutoff := DaysAgo(now, DaysOr(days));
      var result := PlayerClockins(rows, identifier, job, days, limit, now);
      && |result| == Min(LimitOr(limit), |ClockinWindow(rows, identifier, job, cutoff)|)
      && |result| <= LimitOr(limit)
      && (forall c :: c in result ==>
            && c.job == job && c.totalTime > Config.MinimumTime && c.startTime > cutoff
            && exists r :: r in rows && ClockinRow(r, identifier, job, cutoff) && c == Clockin(r.job, r.clockin, r.total.value))
      && (forall x :: multiset(ClockinWindow(rows, identifier, job, cutoff))[x]
                       == (if ClockinRow(x, identifier, job, cutoff) then multiset(rows)[x] else 0))
      && multiset(result) <= multiset(Project(ClockinWindow(rows, identifier, job, cutoff)))
      && (|ClockinWindow(rows, identifier, job, cutoff)| <= LimitOr(limit) ==>
            multiset(result) == multiset(Project(ClockinWindow(rows, identifier, job, cutoff))))
  {
    if identifier != "" && job != "" {
      var cutoff := DaysAgo(now, DaysOr(days));
      var window := ClockinWindow(rows, identifier, job, cutoff);
      var all := Project(window);
      var result := PlayerClockins(rows, identifier, job, days, limit, now);
      forall c | c in result
        ensures exists r :: r in rows && ClockinRow(r, identifier, job, cutoff) && c == Clockin(r.job, r.clockin, r.total.value)
      {
        var i :| 0 <= i < |result| && result[i] == c;
        assert c == all[i];
        assert window[i] in window;
      }
    }
  }

  /** Entry `i` of the leaderboard is the `i`-th sorted group with its rank. */
  lemma BoardAt(groups: seq<Group>, n: nat, i: int)
    requires 0 <= i < |Leaderboard(groups, n)|
    ensures |Leaderboard(groups, n)| == Min(n, |groups|)
    ensures i < |SortDesc(groups)|
    ensures var s := SortDesc(groups);
      Leaderboard(groups, n)[i] == Standing(s[i].key, s[i].totalTime, 1 + CountAbove(s, s[i].totalTime))
  {
    SortDescSpec(groups);
    RankedAt(SortDesc(groups));
    TakeAt(Ranked(SortDesc(groups)), n);
  }

  lemma BoardLength(groups: seq<Group>, n: nat)
    ensures |Leaderboard(groups, n)| == Min(n, |groups|)
  {
    SortDescSpec(groups);
    RankedAt(SortDesc(groups));
    TakeAt(Ranked(SortDesc(groups)), n);
  }

  /** The leaderboard's entries are the first `Min(n, |groups|)` sorted groups, with
      distinct identifiers. */
  lemma LeaderboardEntries(groups: seq<Group>, n: nat)
    requires DistinctKeys(groups)
    ensures var r := Leaderboard(groups, n);
      && |r| == Min(n, |groups|)
      && (forall i :: 0 <= i < |r| ==> Group(r[i].identifier, r[i].totalTime) in groups)
      && (forall i, j :: 0 <= i < j < |r| ==> r[i].identifier != r[j].identifier)
  {
    var s := SortDesc(groups);
    SortKeepsKeys(groups);
    BoardLength(groups, n);
    var r := Leaderboard(groups, n);
    forall i | 0 <= i < |r| ensures Group(r[i].identifier, r[i].totalTime) in groups {
      BoardAt(groups, n, i);
      assert s[i] in s;
    }
    forall i, j | 0 <= i < j < |r| ensures r[i].identifier != r[j].identifier {
      BoardAt(groups, n, i);
      BoardAt(groups, n, j);
    }
  }

  /** Each leaderboard rank is one plus the number of groups with a strictly larger total. */
  lemma LeaderboardRanks(groups: seq<Group>, n: nat)
    requires DistinctKeys(groups)
    ensures var r := Leaderboard(groups, n);
      forall i :: 0 <= i < |r| ==> r[i].rank == 1 + |Rivals(groups, r[i].totalTime)|
  {
    var s := SortDesc(groups);
    SortDescSpec(groups);
    var r := Leaderboard(groups, n);
    forall i | 0 <= i < |r| ensures r[i].rank == 1 + |Rivals(groups, r[i].totalTime)| {
      BoardAt(groups, n, i);
      CountAboveKeys(groups, s[i].totalTime);
    }
  }

  /** Leaderboard entries come in non-increasing total and non-decreasing rank, and
      the first entry of each run of equal totals, at position i, has rank i + 1. */
  lemma LeaderboardOrder(groups: seq<Group>, n: nat)
    ensures var r := Leaderboard(groups, n);
      && (forall i, j :: 0 <= i < j < |r| ==> r[i].totalTime >= r[j].totalTime && r[i].rank <= r[j].rank)
      && (|r| > 0 ==> r[0].rank == 1)
      && (forall i :: 0 < i < |r| && r[i - 1].totalTime > r[i].totalTime ==> r[i].rank == i + 1)
  {
    var s := SortDesc(groups);
    SortDescSpec(groups);
    var r := Leaderboard(groups, n);
    forall i, j | 0 <= i < j < |r| ensures r[i].totalTime >= r[j].totalTime && r[i].rank <= r[j].rank {
      BoardAt(groups, n, i);
      BoardAt(groups, n, j);
      CountAboveMonotone(s, s[i].totalTime, s[j].totalTime);
    }
    if |r| > 0 {
      BoardBoundary(groups, n, 0);
    }
    forall i | 0 < i < |r| && r[i - 1].totalTime > r[i].totalTime
      ensures r[i].rank == i + 1
    {
      BoardBoundary(groups, n, i);
    }
  }

  lemma BoardBoundary(groups: seq<Group>, n: nat, i: int)
    requires 0 <= i < |Leaderboard(groups, n)|
    requires i == 0 || Leaderboard(groups, n)[i - 1].totalTime > Leaderboard(groups, n)[i].totalTime
    ensures Leaderboard(groups, n)[i].rank == i + 1
  {
    var s := SortDesc(groups);
    SortDescSpec(groups);
    BoardAt(groups, n, i);
    if i > 0 {
      BoardAt(groups, n, i - 1);
    }
    RankAtBoundary(s, i);
  }

  /** The limit keeps the best: a group cut off by it has no larger total than any entry kept. */
  lemma LeaderboardTop(groups: seq<Group>, n: nat)
    requires DistinctKeys(groups)
    ensures var r := Leaderboard(groups, n);
      forall g :: g in groups && (forall i :: 0 <= i < |r| ==> r[i].identifier != g.key) ==>
        forall i :: 0 <= i < |r| ==> g.totalTime <= r[i].totalTime
  {
    var s := SortDesc(groups);
    SortDescSpec(groups);
    SortKeepsKeys(groups);
    BoardLength(groups, n);
    var r := Leaderboard(groups, n);
    forall g, i | g in groups && (forall i :: 0 <= i < |r| ==> r[i].identifier != g.key) && 0 <= i < |r|
      ensures g.totalTime <= r[i].totalTime
    {
      assert g in s;
      var j :| 0 <= j < |s| && s[j] == g;
      BoardAt(groups, n, i);
      if j < |r| {
        BoardAt(groups, n, j);
        assert false;
      }
    }
  }

  /** The identifiers of a department window whose sum is strictly larger than `t`. */
  function RivalIdentifiers(window: seq<Row>, t: int): set<string>
  {
    set id | id in KeysOf(window, ByIdentifier) && SumFor(window, ByIdentifier, id) > t
  }

  /** The groups of a department window contain, for each identifier with
      qualifying rows, exactly the group carrying its sum. */
  lemma DepartmentGroups(window: seq<Row>)
    ensures var groups := GroupBy(window, ByIdentifier);
      && DistinctKeys(groups)
      && |groups| == |KeysOf(window, ByIdentifier)|
      && (forall g :: g in groups ==> g.key in KeysOf(window, ByIdentifier) && g.totalTime == SumFor(window, ByIdentifier, g.key))
      && (forall id :: id in KeysOf(window, ByIdentifier) ==> Group(id, SumFor(window, ByIdentifier, id)) in groups)
      && (forall t :: Rivals(groups, t) == RivalIdentifiers(window, t))
  {
    var groups := GroupBy(window, ByIdentifier);
    GroupByCorrect(window, ByIdentifier);
    forall id | id in KeysOf(window, ByIdentifier)
      ensures Group(id, SumFor(window, ByIdentifier, id)) in groups
    {
      assert id in Keys(groups);
      var g :| g in groups && g.key == id;
    }
    forall g | g in groups ensures g.key in KeysOf(window, ByIdentifier) {
      assert g.key in Keys(groups);
    }
    forall t ensures Rivals(groups, t) == RivalIdentifiers(window, t) {
      forall id | id in RivalIdentifiers(window, t) ensures id in Rivals(groups, t) {
        assert Group(id, SumFor(window, ByIdentifier, id)) in groups;
      }
    }
  }

  /** getDepartmentClockinLeaderboard, its entries: empty for a missing job;
      otherwise one entry per identifier with qualifying rows of that job (non-null
      total, started after the cutoff), as many as there are such identifiers up to
      `Limit || 10`, each carrying the sum of its totals. */
  lemma DepartmentLeaderboardEntries(rows: seq<Row>, job: string, days: Option<int>, limit: Option<nat>, now: int)
    ensures job == "" ==> DepartmentLeaderboard(rows, job, days, limit, now) == []
    ensures job != "" ==>
      var window := DepartmentWindow(rows, job, DaysAgo(now, DaysOr(days)));
      var r := DepartmentLeaderboard(rows, job, days, limit, now);
      && |r| == Min(LimitOr(limit), |KeysOf(window, ByIdentifier)|)
      && |r| <= LimitOr(limit)
      && (forall i, j :: 0 <= i < j < |r| ==> r[i].identifier != r[j].identifier)
      && (forall i :: 0 <= i < |r| ==>
            r[i].identifier in KeysOf(window, ByIdentifier)
            && r[i].totalTime == SumFor(window, ByIdentifier, r[i].identifier))
  {
    if job != "" {
      var window := DepartmentWindow(rows, job, DaysAgo(now, DaysOr(days)));
      var groups := GroupBy(window, ByIdentifier);
      DepartmentGroups(window);
      LeaderboardEntries(groups, LimitOr(limit));
    }
  }

  /** getDepartmentClockinLeaderboard, its ranks: standard `RANK()`, one plus the
      number of identifiers whose sum is strictly larger. */
  lemma DepartmentLeaderboardRanks(rows: seq<Row>, job: string, days: Option<int>, limit: Option<nat>, now: int)
    requires job != ""
    ensures
      var window := DepartmentWindow(rows, job, DaysAgo(now, DaysOr(days)));
      var r := DepartmentLeaderboard(rows, job, days, limit, now);
      forall i :: 0 <= i < |r| ==> r[i].rank == 1 + |RivalIdentifiers(window, r[i].totalTime)|
  {
    var window := DepartmentWindow(rows, job, DaysAgo(now, DaysOr(days)));
    var groups := GroupBy(window, ByIdentifier);
    DepartmentGroups(window);
    LeaderboardRanks(groups, LimitOr(limit));
  }

  /** getDepartmentClockinLeaderboard, its order: ascending rank and non-increasing
      total, ties sharing a rank and the next distinct total resuming at its
      position plus one; an identifier cut off by the limit has no larger sum than
      any entry kept. */
  lemma DepartmentLeaderboardOrder(rows: seq<Row>, job: string, days: Option<int>, limit: Option<nat>, now: int)
    requires job != ""
    ensures
      var window := DepartmentWindow(rows, job, DaysAgo(now, DaysOr(days)));
      var r := DepartmentLeaderboard(rows, job, days, limit, now);
      && (forall i, j :: 0 <= i < j < |r| ==> r[i].totalTime >= r[j].totalTime && r[i].rank <= r[j].rank)
      && (|r| > 0 ==> r[0].rank == 1)
      && (forall i :: 0 < i < |r| && r[i - 1].totalTime > r[i].totalTime ==> r[i].rank == i + 1)
      && (forall id :: id in KeysOf(window, ByIdentifier) && (forall i :: 0 <= i < |r| ==> r[i].identifier != id) ==>
            forall i :: 0 <= i < |r| ==> SumFor(window, ByIdentifier, id) <= r[i].totalTime)
  {
    var window := DepartmentWindow(rows, job, DaysAgo(now, DaysOr(days)));
    var groups := GroupBy(window, ByIdentifier);
    var r := DepartmentLeaderboard(rows, job, days, limit, now);
    DepartmentGroups(window);
    LeaderboardOrder(groups, LimitOr(limit));
    LeaderboardTop(groups, LimitOr(limit));
    forall id | id in KeysOf(window, ByIdentifier) && (forall i :: 0 <= i < |r| ==> r[i].identifier != id)
      ensures forall i :: 0 <= i < |r| ==> SumFor(window, ByIdentifier, id) <= r[i].totalTime
    {
      var g := Group(id, SumFor(window, ByIdentifier, id));
      assert g in groups;
    }
  }

  /** getGlobalClockinLeaderboard: one entry per job with qualifying rows (non-null
      total, started after the cutoff), each with the sum of their totals, in
      non-increasing order of total. */
  lemma GlobalLeaderboardSpec(rows: seq<Row>, days: Option<int>, now: int)
    ensures
      var cutoff := DaysAgo(now, DaysOr(days));
      var window := GlobalWindow(rows, cutoff);
      var r := GlobalLeaderboard(rows, days, now);
      && DistinctKeys(r)
      && |r| == |KeysOf(window, ByJob)|
      && (forall job :: job in Keys(r) <==> exists row :: row in rows && GlobalRow(row, cutoff) && row.job == job)
      && (forall g :: g in r ==> g.totalTime == SumFor(window, ByJob, g.key))
      && SortedDesc(r)
  {
    var cutoff := DaysAgo(now, DaysOr(days));
    var window := GlobalWindow(rows, cutoff);
    var groups := GroupBy(window, ByJob);
    GroupByCorrect(window, ByJob);
    SortDescSpec(groups);
    SortKeepsKeys(groups);
    var r := GlobalLeaderboard(rows, days, now);
    assert forall g :: g in r <==> g in groups by {
      assert forall g :: g in r <==> g in multiset(r);
    }
  }

  /** With the configured minimum of thirty seconds, a player's history leaves out a
      five-second shift and keeps a one-minute shift of the same job. */
  lemma MinimumTimeScenario(now: int)
    ensures
      var short := Row("A", "police", now - 10000, Some(now - 5000), Some(5000));
      var long := Row("A", "police", now - 100000, Some(now - 40000), Some(60000));
      PlayerClockins([short, long], "A", "police", Some(7), Some(10), now) == [Clockin("police", now - 100000, 60000)]
  {
    var short := Row("A", "police", now - 10000, Some(now - 5000), Some(5000));
    var long := Row("A", "police", now - 100000, Some(now - 40000), Some(60000));
    var cutoff := DaysAgo(now, 7);
    assert !ClockinRow(short, "A", "police", cutoff);
    assert ClockinRow(long, "A", "police", cutoff);
    assert [short, long][1..] == [long];
    assert [long][1..] == [];
    var p := (r: Row) => ClockinRow(r, "A", "police", cutoff);
    assert Filter([long], p) == [long] + Filter([], p);
    assert Filter([short, long], p) == Filter([long], p);
  }

  /** The allow-list: the configured departments are clocked, others are not. */
  lemma AllowListExamples()
    ensures IsDepartmentClocked("police") && IsDepartmentClocked("unemployed")
    ensures !IsDepartmentClocked("ambulance") && !IsDepartmentClocked("")
  {
  }
}
