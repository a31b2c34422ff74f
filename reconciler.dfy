/** The clock-in reconciler (server/app/index.js): a last-known-job cache keyed by
    identifier and the shift table, changed on every detected job transition.

    The value-level functions `After...` give the state each handler leaves
    behind; the class `ClockinManager` holds the two pieces of state as fields
    and its methods are proved to change them exactly as those functions say. */
module Reconciler {
  import opened Shifts

  /** The job name that never opens a shift. */
  const Unemployed: string := "unemployed"

  /** What the game runtime reports for one connected player. Each level may be
      missing, and an identifier that cannot be resolved is the empty string. */
  datatype PlayerData = PlayerData(job: Option<Job>)
  datatype Player = Player(playerData: Option<PlayerData>)
  datatype Session = Session(player: Option<Player>, identifier: string)

  /** Which way one per-player handler ended: one of the logged early returns,
      no transition, or an update of cache and table. */
  datatype Outcome =
    | MissingPlayer | MissingPlayerData | MissingJob | MissingJobName | MissingIdentifier
    | Unchanged | Updated

  /** The reconciler's whole state: the `currentJob` cache and the shift table. */
  datatype State = State(currentJob: map<string, Job>, rows: seq<Row>)

  datatype Step = Step(state: State, outcome: Outcome)

  /** The job descriptor behind the player, when player, player data and job all exist. */
  function ReportedJob(p: Session): Option<Job>
  {
    match p.player
    case None => None
    case Some(player) =>
      match player.playerData
      case None => None
      case Some(data) => data.job
  }

  /** The cached snapshot differs from `job`: no entry, another name or another duty flag. */
  predicate Changed(cache: map<string, Job>, id: string, job: Job)
  {
    id !in cache || cache[id].name != job.name || cache[id].onduty != job.onduty
  }

  /** A job whose transition opens a new shift: named, on duty and not the sentinel. */
  predicate Opens(job: Job)
  {
    job.name != "" && job.onduty && job.name != Unemployed
  }

  /** The reconciler's invariant: every identifier has one open shift exactly when it
      is resolvable and its cached job opens a shift, and none otherwise. */
  ghost predicate Tracked(s: State)
  {
    forall id :: OpenCount(s.rows, id) == (if id != "" && id in s.currentJob && Opens(s.currentJob[id]) then 1 else 0)
  }

  /** ForceClockOut: close the identifier's open shifts, unless it is missing. */
  function AfterClockOut(s: State, id: string, now: int): (r: State)
    ensures r.currentJob == s.currentJob
    ensures id == "" ==> r == s
    ensures id != "" ==> r.rows == CloseOpen(s.rows, id, now)
  {
    if id == "" then s else s.(rows := CloseOpen(s.rows, id, now))
  }

  /** ClockIn: insert `(id, job.name, now)` with null clockout and total, unless the
      job is off duty or the sentinel. */
  function AfterClockIn(s: State, id: string, job: Job, now: int): (r: State)
    ensures r.currentJob == s.currentJob
    ensures job.onduty && job.name != Unemployed ==> r.rows == s.rows + [Row(id, job.name, now, None, None)]
    ensures !(job.onduty && job.name != Unemployed) ==> r == s
  {
    if !job.onduty then s
    else if job.name == Unemployed then s
    else s.(rows := s.rows + [Row(id, job.name, now, None, None)])
  }

  /** ForceUpdateClockIn: record the job in the cache, then, for a present identifier,
      close its shift and, for a named job, maybe open a new one. */
  function AfterUpdate(s: State, id: string, job: Job, now: int): (r: State)
    ensures r.currentJob == s.currentJob[id := job]
    ensures id == "" ==> r.rows == s.rows
    ensures History(s.rows, r.rows) && |r.rows| <= |s.rows| + 1
  {
    var cached := s.(currentJob := s.currentJob[id := job]);
    if id == "" then cached
    else
      var closed := AfterClockOut(cached, id, now);
      if job.name == "" then closed
      else AfterClockIn(closed, id, job, now)
  }

  /** ValidateClockin: the guard chain, then the three-way comparison with the cache. */
  function AfterValidate(s: State, p: Session, now: int): (r: Step)
    ensures r.outcome != Updated ==> r.state == s
    ensures r.outcome == Unchanged <==>
      ReportedJob(p).Some? && ReportedJob(p).value.name != "" && p.identifier != ""
      && !Changed(s.currentJob, p.identifier, ReportedJob(p).value)
    ensures r.outcome == Updated <==>
      ReportedJob(p).Some? && ReportedJob(p).value.name != "" && p.identifier != ""
      && Changed(s.currentJob, p.identifier, ReportedJob(p).value)
    ensures r.outcome == Updated ==> r.state == AfterUpdate(s, p.identifier, ReportedJob(p).value, now)
  {
    match p.player
    case None => Step(s, MissingPlayer)
    case Some(player) =>
      match player.playerData
      case None => Step(s, MissingPlayerData)
      case Some(data) =>
        match data.job
        case None => Step(s, MissingJob)
        case Some(job) =>
          if job.name == "" then Step(s, MissingJobName)
          else if p.identifier == "" then Step(s, MissingIdentifier)
          else if Changed(s.currentJob, p.identifier, job) then Step(AfterUpdate(s, p.identifier, job, now), Updated)
          else Step(s, Unchanged)
  }

  /** The per-player body of ForceClockinOnResourceLoad: the guard chain without the
      job-name check, then an unconditional cache write and ForceUpdateClockIn. */
  function AfterStartupPlayer(s: State, p: Session, now: int): (r: Step)
    ensures r.outcome != Updated ==> r.state == s
    ensures r.outcome == Updated <==> ReportedJob(p).Some? && p.identifier != ""
    ensures r.outcome == Updated ==>
      r.state == AfterUpdate(s.(currentJob := s.currentJob[p.identifier := ReportedJob(p).value]),
                             p.identifier, ReportedJob(p).value, now)
  {
    match p.player
    case None => Step(s, MissingPlayer)
    case Some(player) =>
      match player.playerData
      case None => Step(s, MissingPlayerData)
      case Some(data) =>
        match data.job
        case None => Step(s, MissingJob)
        case Some(job) =>
          if p.identifier == "" then Step(s, MissingIdentifier)
          else
            var cached := s.(currentJob := s.currentJob[p.identifier := job]);
            Step(AfterUpdate(cached, p.identifier, job, now), Updated)
  }

  /** One tick of UpdateClockins, with the players taken one after another. */
  function AfterTick(s: State, sessions: seq<Session>, now: int): (r: State)
    ensures s.currentJob.Keys <= r.currentJob.Keys
    ensures History(s.rows, r.rows)
  {
    if sessions == [] then s
    else AfterValidate(AfterTick(s, sessions[..|sessions| - 1], now), sessions[|sessions| - 1], now).state
  }

  /** ForceClockinOnResourceLoad, with the players taken one after another. */
  function AfterStartupPass(s: State, sessions: seq<Session>, now: int): (r: State)
    ensures s.currentJob.Keys <= r.currentJob.Keys
    ensures History(s.rows, r.rows)
  {
    if sessions == [] then s
    else AfterStartupPlayer(AfterStartupPass(s, sessions[..|sessions| - 1], now), sessions[|sessions| - 1], now).state
  }

  /** init: ForceClockOutAllOnResourceLoad, then the startup pass. */
  function AfterInit(s: State, sessions: seq<Session>, now: int): (r: State)
    ensures |s.rows| <= |r.rows|
    ensures forall i :: 0 <= i < |s.rows| ==> r.rows[i].clockout.Some?
  {
    AfterStartupPass(s.(rows := CloseAll(s.rows, now)), sessions, now)
  }

  /** The playerDropped handler as written: close the identifier's shift, keep its cache entry. */
  function AfterDrop(s: State, id: string, now: int): (r: State)
    ensures r.currentJob == s.currentJob
    ensures History(s.rows, r.rows) && |r.rows| == |s.rows|
  {
    AfterClockOut(s, id, now)
  }

  /** The playerDropped handler as evidently intended: close the shift and forget the
      cached job, so that the next tick sees the player as new. */
  function AfterDropForgetting(s: State, id: string, now: int): (r: State)
    ensures r.rows == AfterClockOut(s, id, now).rows
    ensures r.currentJob == s.currentJob - {id}
  {
    AfterClockOut(s, id, now).(currentJob := s.currentJob - {id})
  }

  // ---------------------------------------------------------------------------
  // Properties of a single handler

  /** ForceUpdateClockIn: the cache entry of `id` becomes `job` and no other entry
      changes; `id` is left with one open shift when `job` opens one and none
      otherwise; every other identifier keeps its open shifts; rows of other
      identifiers are untouched; at most one row, the new shift, is appended. */
  lemma UpdateEffect(s: State, id: string, job: Job, now: int)
    requires id != ""
    ensures AfterUpdate(s, id, job, now).currentJob == s.currentJob[id := job]
    ensures OpenCount(AfterUpdate(s, id, job, now).rows, id) == (if Opens(job) then 1 else 0)
    ensures forall x :: x != id ==> OpenCount(AfterUpdate(s, id, job, now).rows, x) == OpenCount(s.rows, x)
    ensures |AfterUpdate(s, id, job, now).rows| == |s.rows| + (if Opens(job) then 1 else 0)
    ensures forall i :: 0 <= i < |s.rows| && s.rows[i].identifier != id ==> AfterUpdate(s, id, job, now).rows[i] == s.rows[i]
    ensures Opens(job) ==> AfterUpdate(s, id, job, now).rows[|s.rows|] == Row(id, job.name, now, None, None)
  {
    var closed := CloseOpen(s.rows, id, now);
    CloseOpenCounts(s.rows, id, now);
    if Opens(job) {
      var r := Row(id, job.name, now, None, None);
      forall x
        ensures OpenCount(closed + [r], x) == OpenCount(closed, x) + (if x == id then 1 else 0)
      {
        CountAppend(closed, r, x);
      }
    }
  }

  /** ForceClockOut with a present identifier: no open shift of `id` remains; every
      row that was open for `id` now has `clockout = now`; every other row, the row
      count, and every `identifier`, `job`, `clockin` and `total` field are unchanged. */
  lemma ClockOutEffect(s: State, id: string, now: int)
    requires id != ""
    ensures OpenCount(AfterClockOut(s, id, now).rows, id) == 0
    ensures forall i :: 0 <= i < |AfterClockOut(s, id, now).rows| ==> !OpenFor(AfterClockOut(s, id, now).rows[i], id)
    ensures |AfterClockOut(s, id, now).rows| == |s.rows|
    ensures forall i :: 0 <= i < |s.rows| ==>
      var (before, after) := (s.rows[i], AfterClockOut(s, id, now).rows[i]);
      && after.identifier == before.identifier && after.job == before.job
      && after.clockin == before.clockin && after.total == before.total
      && (if OpenFor(before, id) then after.clockout == Some(now) else after == before)
  {
    CloseOpenCounts(s.rows, id, now);
    CountZero(AfterClockOut(s, id, now).rows, id);
  }

  /** ForceClockOutAllOnResourceLoad: afterwards no row is open; each row that was
      open has `clockout = now`, and closed rows are unchanged. */
  lemma CloseAllEffect(rows: seq<Row>, now: int)
    ensures forall x :: OpenCount(CloseAll(rows, now), x) == 0
    ensures AtMostOneOpen(CloseAll(rows, now))
    ensures forall i :: 0 <= i < |rows| ==> CloseAll(rows, now)[i].clockout.Some?
    ensures forall i :: 0 <= i < |rows| && rows[i].clockout.None? ==> CloseAll(rows, now)[i] == rows[i].(clockout := Some(now))
    ensures forall i :: 0 <= i < |rows| && rows[i].clockout.Some? ==> CloseAll(rows, now)[i] == rows[i]
  {
  }

  /** The invariant gives the table property: at most one open shift per identifier,
      counted or index by index. */
  lemma TrackedAtMostOne(s: State)
    requires Tracked(s)
    ensures AtMostOneOpen(s.rows)
    ensures forall id, i, j ::
      (0 <= i < |s.rows| && 0 <= j < |s.rows| && OpenFor(s.rows[i], id) && OpenFor(s.rows[j], id)) ==> i == j
  {
    forall id, i, j | 0 <= i < |s.rows| && 0 <= j < |s.rows| && OpenFor(s.rows[i], id) && OpenFor(s.rows[j], id)
      ensures i == j
    {
      assert OpenCount(s.rows, id) <= 1;
      AtMostOneIff(s.rows, id);
    }
  }

  // ---------------------------------------------------------------------------
  // The invariant across handlers

  lemma UpdatePreservesTracked(s: State, id: string, job: Job, now: int)
    requires Tracked(s) && id != ""
    ensures Tracked(AfterUpdate(s, id, job, now))
  {
    UpdateEffect(s, id, job, now);
  }

  lemma ValidatePreservesTracked(s: State, p: Session, now: int)
    requires Tracked(s)
    ensures Tracked(AfterValidate(s, p, now).state)
  {
    if AfterValidate(s, p, now).outcome == Updated {
      UpdatePreservesTracked(s, p.identifier, ReportedJob(p).value, now);
    }
  }

  lemma StartupPlayerPreservesTracked(s: State, p: Session, now: int)
    requires Tracked(s)
    ensures Tracked(AfterStartupPlayer(s, p, now).state)
  {
    if AfterStartupPlayer(s, p, now).outcome == Updated {
      var job := ReportedJob(p).value;
      var cached := s.(currentJob := s.currentJob[p.identifier := job]);
      UpdateEffect(cached, p.identifier, job, now);
    }
  }

  lemma {:induction false} TickPreservesTracked(s: State, sessions: seq<Session>, now: int)
    requires Tracked(s)
    ensures Tracked(AfterTick(s, sessions, now))
  {
    if sessions != [] {
      var n := |sessions| - 1;
      TickPreservesTracked(s, sessions[..n], now);
      ValidatePreservesTracked(AfterTick(s, sessions[..n], now), sessions[n], now);
    }
  }

  lemma {:induction false} StartupPassPreservesTracked(s: State, sessions: seq<Session>, now: int)
    requires Tracked(s)
    ensures Tracked(AfterStartupPass(s, sessions, now))
  {
    if sessions != [] {
      var n := |sessions| - 1;
      StartupPassPreservesTracked(s, sessions[..n], now);
      StartupPlayerPreservesTracked(AfterStartupPass(s, sessions[..n], now), sessions[n], now);
    }
  }

  /** Starting from the empty cache of a fresh process, whatever shifts the table
      held, init establishes the invariant. */
  lemma InitEstablishesTracked(s: State, sessions: seq<Session>, now: int)
    requires s.currentJob == map[]
    ensures Tracked(AfterInit(s, sessions, now))
    ensures AtMostOneOpen(AfterInit(s, sessions, now).rows)
  {
    var closed := s.(rows := CloseAll(s.rows, now));
    CloseAllCounts(s.rows, now);
    assert Tracked(closed);
    StartupPassPreservesTracked(closed, sessions, now);
    TrackedAtMostOne(AfterInit(s, sessions, now));
  }

  /** The forgetting disconnect keeps the invariant. */
  lemma DropForgettingPreservesTracked(s: State, id: string, now: int)
    requires Tracked(s)
    ensures Tracked(AfterDropForgetting(s, id, now))
  {
    if id != "" {
      CloseOpenCounts(s.rows, id, now);
    }
  }

  // ---------------------------------------------------------------------------
  // The weaker invariant, kept by every handler as written

  /** No identifier has more open shifts than its cached job calls for: at most one
      when the cached job opens a shift, none otherwise, and none for the missing
      identifier. Unlike `Tracked` it allows a player whose shift was closed on
      disconnect while the cache still says on duty. */
  ghost predicate Bounded(s: State)
  {
    forall id :: OpenCount(s.rows, id) <= (if id != "" && id in s.currentJob && Opens(s.currentJob[id]) then 1 else 0)
  }

  /** The weaker invariant follows from the reconciler's invariant and gives at most
      one open shift per identifier. */
  lemma BoundedAtMostOne(s: State)
    ensures Tracked(s) ==> Bounded(s)
    ensures Bounded(s) ==> AtMostOneOpen(s.rows)
  {
  }

  lemma UpdatePreservesBounded(s: State, id: string, job: Job, now: int)
    requires Bounded(s)
    ensures Bounded(AfterUpdate(s, id, job, now))
  {
    if id != "" {
      UpdateEffect(s, id, job, now);
    }
  }

  /** ForceClockOut, hence the disconnect handler as written and the corrected one,
      keeps the weaker invariant. */
  lemma ClockOutPreservesBounded(s: State, id: string, now: int)
    requires Bounded(s)
    ensures Bounded(AfterClockOut(s, id, now))
    ensures Bounded(AfterDrop(s, id, now))
    ensures Bounded(AfterDropForgetting(s, id, now))
  {
    if id != "" {
      CloseOpenCounts(s.rows, id, now);
    }
  }

  lemma ValidatePreservesBounded(s: State, p: Session, now: int)
    requires Bounded(s)
    ensures Bounded(AfterValidate(s, p, now).state)
  {
    if AfterValidate(s, p, now).outcome == Updated {
      UpdatePreservesBounded(s, p.identifier, ReportedJob(p).value, now);
    }
  }

  lemma StartupPlayerPreservesBounded(s: State, p: Session, now: int)
    requires Bounded(s)
    ensures Bounded(AfterStartupPlayer(s, p, now).state)
  {
    if AfterStartupPlayer(s, p, now).outcome == Updated {
      var job := ReportedJob(p).value;
      var cached := s.(currentJob := s.currentJob[p.identifier := job]);
      UpdateEffect(cached, p.identifier, job, now);
    }
  }

  lemma {:induction false} TickPreservesBounded(s: State, sessions: seq<Session>, now: int)
    requires Bounded(s)
    ensures Bounded(AfterTick(s, sessions, now))
  {
    if sessions != [] {
      var n := |sessions| - 1;
      TickPreservesBounded(s, sessions[..n], now);
      ValidatePreservesBounded(AfterTick(s, sessions[..n], now), sessions[n], now);
    }
  }

  lemma {:induction false} StartupPassPreservesBounded(s: State, sessions: seq<Session>, now: int)
    requires Bounded(s)
    ensures Bounded(AfterStartupPass(s, sessions, now))
  {
    if sessions != [] {
      var n := |sessions| - 1;
      StartupPassPreservesBounded(s, sessions[..n], now);
      StartupPlayerPreservesBounded(AfterStartupPass(s, sessions[..n], now), sessions[n], now);
    }
  }

  /** What happens to a running reconciler after init: a timer tick over the players
      connected then, or a disconnect, each at its own time. */
  datatype Event = Tick(sessions: seq<Session>, at: int) | Drop(identifier: string, at: int)

  function AfterEvent(s: State, e: Event): State
  {
    match e
    case Tick(sessions, at) => AfterTick(s, sessions, at)
    case Drop(identifier, at) => AfterDrop(s, identifier, at)
  }

  /** The events applied in order, the last one last. */
  function AfterEvents(s: State, events: seq<Event>): (r: State)
    ensures History(s.rows, r.rows)
  {
    if events == [] then s
    else AfterEvent(AfterEvents(s, events[..|events| - 1]), events[|events| - 1])
  }

  lemma {:induction false} EventsPreserveBounded(s: State, events: seq<Event>)
    requires Bounded(s)
    ensures Bounded(AfterEvents(s, events))
  {
    if events != [] {
      var n := |events| - 1;
      var before := AfterEvents(s, events[..n]);
      EventsPreserveBounded(s, events[..n]);
      match events[n]
      case Tick(sessions, at) => TickPreservesBounded(before, sessions, at);
      case Drop(identifier, at) => ClockOutPreservesBounded(before, identifier, at);
    }
  }

  /** The program as written, disconnect handler included: after init from a fresh
      process, any sequence of ticks and disconnects leaves at most one open shift
      per identifier, and none for a player whose cached job does not open one. */
  lemma ProgramKeepsAtMostOne(s: State, startup: seq<Session>, now: int, events: seq<Event>)
    requires s.currentJob == map[]
    ensures Bounded(AfterEvents(AfterInit(s, startup, now), events))
    ensures AtMostOneOpen(AfterEvents(AfterInit(s, startup, now), events).rows)
  {
    var start := AfterInit(s, startup, now);
    InitEstablishesTracked(s, startup, now);
    BoundedAtMostOne(start);
    EventsPreserveBounded(start, events);
    BoundedAtMostOne(AfterEvents(start, events));
  }

  // ---------------------------------------------------------------------------
  // Scenarios

  /** An on-duty transition into the sentinel job closes the previous shift and
      opens none; so does a transition to off duty. */
  lemma NoShiftForUnemployedOrOffDuty(s: State, id: string, job: Job, now: int)
    requires id != "" && (job.name == Unemployed || !job.onduty)
    ensures OpenCount(AfterUpdate(s, id, job, now).rows, id) == 0
    ensures |AfterUpdate(s, id, job, now).rows| == |s.rows|
  {
    UpdateEffect(s, id, job, now);
  }

  /** Jobs outside the allow-list are still recorded: a transition into any named
      on-duty job other than the sentinel opens a shift for it. */
  lemma AnyJobIsRecorded(s: State, id: string, name: string, now: int)
    requires id != "" && name != "" && name != Unemployed
    ensures AfterUpdate(s, id, Job(name, true), now).rows[|s.rows|] == Row(id, name, now, None, None)
  {
  }

  /** "A" goes on duty as police at time t: one row `(A, police, t, null)` is
      inserted. At t + d "A" goes off duty: that row gets clockout t + d and no new
      row is inserted; once the table's total is settled it reads d. */
  lemma OnOffDutyScenario(t: int, d: int)
    ensures
      var on := Session(Some(Player(Some(PlayerData(Some(Job("police", true)))))), "A");
      var off := Session(Some(Player(Some(PlayerData(Some(Job("police", false)))))), "A");
      var s1 := AfterValidate(State(map[], []), on, t);
      var s2 := AfterValidate(s1.state, off, t + d);
      && s1.outcome == Updated
      && s1.state.rows == [Row("A", "police", t, None, None)]
      && s2.outcome == Updated
      && s2.state.rows == [Row("A", "police", t, Some(t + d), None)]
      && SettleTotals(s2.state.rows) == [Row("A", "police", t, Some(t + d), Some(d))]
  {
  }

  /** The disconnect handler as written breaks the invariant: a police officer on
      duty with an open shift drops, the shift is closed, the cache still says on
      duty, and when they reconnect with the same job the next tick sees no
      transition, so the new stint is never recorded. */
  lemma DropKeepsStaleCache()
    ensures
      var job := Job("police", true);
      var s := State(map["A" := job], [Row("A", "police", 0, None, None)]);
      var dropped := AfterDrop(s, "A", 10);
      var back := AfterValidate(dropped, Session(Some(Player(Some(PlayerData(Some(job))))), "A"), 20);
      && Tracked(s)
      && !Tracked(dropped)
      && back.outcome == Unchanged
      && OpenCount(back.state.rows, "A") == 0
  {
    var job := Job("police", true);
    var s := State(map["A" := job], [Row("A", "police", 0, None, None)]);
    forall id ensures OpenCount(s.rows, id) == (if id != "" && id in s.currentJob && Opens(s.currentJob[id]) then 1 else 0)
    {
      assert s.rows[1..] == [];
    }
    var dropped := AfterDrop(s, "A", 10);
    assert dropped.rows == [Row("A", "police", 0, Some(10), None)];
    assert dropped.rows[1..] == [];
    assert OpenCount(dropped.rows, "A") == 0;
    var back := AfterValidate(dropped, Session(Some(Player(Some(PlayerData(Some(job))))), "A"), 20);
    assert back.state == dropped;
  }

  /** With the forgetting disconnect, a player who reconnects in a job that opens a
      shift gets exactly one open shift at the next tick. */
  lemma ReconnectReopens(s: State, id: string, job: Job, dropAt: int, now: int)
    requires Tracked(s) && id != "" && Opens(job)
    ensures
      var back := AfterValidate(AfterDropForgetting(s, id, dropAt), Session(Some(Player(Some(PlayerData(Some(job))))), id), now);
      back.outcome == Updated && OpenCount(back.state.rows, id) == 1 && Tracked(back.state)
  {
    var dropped := AfterDropForgetting(s, id, dropAt);
    DropForgettingPreservesTracked(s, id, dropAt);
    UpdateEffect(dropped, id, job, now);
    ValidatePreservesTracked(dropped, Session(Some(Player(Some(PlayerData(Some(job))))), id), now);
  }

  // ---------------------------------------------------------------------------
  // The stateful reconciler

  class ClockinManager {
    /** The last-known job per identifier. */
    var currentJob: map<string, Job>
    /** The shift table. */
    var rows: seq<Row>

    function Snapshot(): State
      reads this
    {
      State(currentJob, rows)
    }

    /** A fresh process: an empty cache over whatever the table already holds. */
    constructor (table: seq<Row>)
      ensures currentJob == map[] && rows == table
    {
      currentJob := map[];
      rows := table;
    }

    method ForceClockOut(identifier: string, now: int)
      modifies this`rows
      ensures Snapshot() == AfterClockOut(old(Snapshot()), identifier, now)
      ensures Bounded(old(Snapshot())) ==> Bounded(Snapshot())
    {
      if Bounded(Snapshot()) {
        ClockOutPreservesBounded(Snapshot(), identifier, now);
      }
      if identifier == "" {
        return;
      }
      rows := CloseOpen(rows, identifier, now);
    }

    method ClockIn(identifier: string, job: Job, now: int)
      modifies this`rows
      ensures Snapshot() == AfterClockIn(old(Snapshot()), identifier, job, now)
    {
      if !job.onduty {
        return;
      }
      if job.name == Unemployed {
        return;
      }
      rows := rows + [Row(identifier, job.name, now, None, None)];
    }

    method ForceUpdateClockIn(identifier: string, job: Job, now: int)
      modifies this
      ensures Snapshot() == AfterUpdate(old(Snapshot()), identifier, job, now)
      ensures identifier != "" && Tracked(old(Snapshot())) ==> Tracked(Snapshot())
      ensures Bounded(old(Snapshot())) ==> Bounded(Snapshot())
    {
      if identifier != "" && Tracked(Snapshot()) {
        UpdatePreservesTracked(Snapshot(), identifier, job, now);
      }
      if Bounded(Snapshot()) {
        UpdatePreservesBounded(Snapshot(), identifier, job, now);
      }
      currentJob := currentJob[identifier := job];
      if identifier == "" {
        return;
      }
      ForceClockOut(identifier, now);
      if job.name == "" {
        return;
      }
      ClockIn(identifier, job, now);
    }

    method ValidateClockin(session: Session, now: int) returns (outcome: Outcome)
      modifies this
      ensures Step(Snapshot(), outcome) == AfterValidate(old(Snapshot()), session, now)
      ensures Tracked(old(Snapshot())) ==> Tracked(Snapshot())
      ensures Bounded(old(Snapshot())) ==> Bounded(Snapshot())
    {
      if Tracked(Snapshot()) {
        ValidatePreservesTracked(Snapshot(), session, now);
      }
      if Bounded(Snapshot()) {
        ValidatePreservesBounded(Snapshot(), session, now);
      }
      if session.player.None? {
        return MissingPlayer;
      }
      var playerData := session.player.value.playerData;
      if playerData.None? {
        return MissingPlayerData;
      }
      var job := playerData.value.job;
      if job.None? {
        return MissingJob;
      }
      if job.value.name == "" {
        return MissingJobName;
      }
      var identifier := session.identifier;
      if identifier == "" {
        return MissingIdentifier;
      }
      if identifier !in currentJob {
        ForceUpdateClockIn(identifier, job.value, now);
        return Updated;
      }
      var oldJob := currentJob[identifier];
      if oldJob.name != job.value.name {
        ForceUpdateClockIn(identifier, job.value, now);
        return Updated;
      }
      if oldJob.onduty != job.value.onduty {
        ForceUpdateClockIn(identifier, job.value, now);
        return Updated;
      }
      return Unchanged;
    }

    /** The per-player body of ForceClockinOnResourceLoad. */
    method ForceClockinPlayer(session: Session, now: int) returns (outcome: Outcome)
      modifies this
      ensures Step(Snapshot(), outcome) == AfterStartupPlayer(old(Snapshot()), session, now)
      ensures Bounded(old(Snapshot())) ==> Bounded(Snapshot())
    {
      if Bounded(Snapshot()) {
        StartupPlayerPreservesBounded(Snapshot(), session, now);
      }
      if session.player.None? {
        return MissingPlayer;
      }
      var playerData := session.player.value.playerData;
      if playerData.None? {
        return MissingPlayerData;
      }
      var job := playerData.value.job;
      if job.None? {
        return MissingJob;
      }
      var identifier := session.identifier;
      if identifier == "" {
        return MissingIdentifier;
      }
      currentJob := currentJob[identifier := job.value];
      ForceUpdateClockIn(identifier, job.value, now);
      return Updated;
    }

    /** The body of the playerDropped handler, as written. */
    method PlayerDropped(identifier: string, now: int)
      modifies this`rows
      ensures Snapshot() == AfterDrop(old(Snapshot()), identifier, now)
      ensures Bounded(old(Snapshot())) ==> Bounded(Snapshot())
    {
      ForceClockOut(identifier, now);
    }

    /** The playerDropped handler corrected to forget the cached job as well. */
    method PlayerDroppedForgetting(identifier: string, now: int)
      modifies this
      ensures Snapshot() == AfterDropForgetting(old(Snapshot()), identifier, now)
      ensures Tracked(old(Snapshot())) ==> Tracked(Snapshot())
      ensures Bounded(old(Snapshot())) ==> Bounded(Snapshot())
    {
      if Tracked(Snapshot()) {
        DropForgettingPreservesTracked(Snapshot(), identifier, now);
      }
      if Bounded(Snapshot()) {
        ClockOutPreservesBounded(Snapshot(), identifier, now);
      }
      ForceClockOut(identifier, now);
      currentJob := currentJob - {identifier};
    }

    method ForceClockOutAllOnResourceLoad(now: int)
      modifies this`rows
      ensures rows == CloseAll(old(rows), now)
      ensures currentJob == old(currentJob)
    {
      rows := CloseAll(rows, now);
    }

    /** One tick of UpdateClockins over the connected players, one after another. */
    method UpdateClockins(sessions: seq<Session>, now: int)
      modifies this
      ensures Snapshot() == AfterTick(old(Snapshot()), sessions, now)
      ensures Tracked(old(Snapshot())) ==> Tracked(Snapshot())
      ensures Bounded(old(Snapshot())) ==> Bounded(Snapshot())
    {
      var i := 0;
      while i < |sessions|
        invariant 0 <= i <= |sessions|
        invariant Snapshot() == AfterTick(old(Snapshot()), sessions[..i], now)
      {
        assert sessions[..i + 1][..i] == sessions[..i];
        var _ := ValidateClockin(sessions[i], now);
        i := i + 1;
      }
      assert sessions[..i] == sessions;
      if Tracked(old(Snapshot())) {
        TickPreservesTracked(old(Snapshot()), sessions, now);
      }
      if Bounded(old(Snapshot())) {
        TickPreservesBounded(old(Snapshot()), sessions, now);
      }
    }

    /** ForceClockinOnResourceLoad over the connected players, one after another. */
    method ForceClockinOnResourceLoad(sessions: seq<Session>, now: int)
      modifies this
      ensures Snapshot() == AfterStartupPass(old(Snapshot()), sessions, now)
      ensures Bounded(old(Snapshot())) ==> Bounded(Snapshot())
    {
      var i := 0;
      while i < |sessions|
        invariant 0 <= i <= |sessions|
        invariant Snapshot() == AfterStartupPass(old(Snapshot()), sessions[..i], now)
      {
        assert sessions[..i + 1][..i] == sessions[..i];
        var _ := ForceClockinPlayer(sessions[i], now);
        i := i + 1;
      }
      assert sessions[..i] == sessions;
      if Bounded(old(Snapshot())) {
        StartupPassPreservesBounded(old(Snapshot()), sessions, now);
      }
    }

    /** init, without the timer: close every open shift, then the startup pass. */
    method Init(sessions: seq<Session>, now: int)
      requires currentJob == map[]
      modifies this
      ensures Snapshot() == AfterInit(old(Snapshot()), sessions, now)
      ensures Tracked(Snapshot()) && AtMostOneOpen(rows)
    {
      ForceClockOutAllOnResourceLoad(now);
      ForceClockinOnResourceLoad(sessions, now);
      InitEstablishesTracked(old(Snapshot()), sessions, now);
    }
  }
}
