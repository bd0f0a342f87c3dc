/** What a lease request sends (`OnLeaseRequest` in src/coordinator/session.cpp):
    a task goes out only if its parameters build. One that does not is given
    back, and the request ends there. */
module Serving {
  import opened Basics
  import opened TaskStates
  import opened Quorum
  import opened TileGrids
  import opened Coordinator
  import opened Protocol
  import opened Invariants
  import opened Growth
  import opened Coverage
  import opened Marking
  import opened Tables
  import opened Recovery
  import opened Runs
  import opened Worlds
  import opened Progress
  import opened Rendering

  /** The parameter layouts the kernel manifest names. */
  datatype Layout = BruteSearch | PathTrace | Calibrate | Unknown

  /** Kernel by kernel. */
  type Layouts = string -> Layout

  /** Whether `BuildParams` succeeds. */
  predicate Builds(layout: Layout, j: Job, t: Task) {
    match layout
    case BruteSearch => t.count < 0x1_0000_0000
    case PathTrace => BuildParams(j, t).Ok?
    case Calibrate => true
    case Unknown => false
  }

  /** The task can be described to a worker: its kernel is known, and it builds. */
  predicate Sendable(u: Setup, layouts: Layouts, s: State, id: TaskId) {
    id in s.tasks && s.tasks[id].job in s.jobs
    && var j := s.jobs[s.tasks[id].job]; j.kernel in u.kernels && Builds(layouts(j.kernel), j, s.tasks[id])
  }

  /** Per layout: a search of up to 2^32 candidates, a calibration always, a path
      tracing task whose units are samples of one tile of the grid, and nothing else. */
  lemma BuildsIff(layout: Layout, j: Job, t: Task)
    requires t.count > 0
    ensures Builds(layout, j, t)
            <==> layout.Calibrate? || (layout.BruteSearch? && t.count <= 0xFFFF_FFFF)
                 || (layout.PathTrace? && j.render.Some? && j.render.value.samplesPerTile > 0
                     && forall unit: nat | t.start <= unit < t.start + t.count ::
                          TileOfUnit(j, unit) == TileOfUnit(j, t.start) < j.render.value.grid.TileCount())
  {
    if layout.PathTrace? && j.render.Some? && j.render.value.samplesPerTile > 0 {
      var spt := j.render.value.samplesPerTile;
      assert BuildParams(j, t).Ok? <==> t.start % spt + t.count <= spt && TileOfUnit(j, t.start) < j.render.value.grid.TileCount();
      if t.start % spt + t.count <= spt {
        forall unit: nat | t.start <= unit < t.start + t.count ensures TileOfUnit(j, unit) == TileOfUnit(j, t.start) {
          WindowUnit(t.start, t.count, spt, unit);
        }
      } else {
        NextTileBegins(t.start, spt);
        var next := t.start - t.start % spt + spt;
        assert t.start <= next < t.start + t.count && TileOfUnit(j, next) != TileOfUnit(j, t.start);
      }
    }
  }

  /** The tile a unit of a render job belongs to. */
  function TileOfUnit(j: Job, unit: nat): nat
    requires j.render.Some? && j.render.value.samplesPerTile > 0
  {
    unit / j.render.value.samplesPerTile
  }

  lemma NextTileBegins(start: nat, spt: nat)
    requires spt > 0
    ensures (start - start % spt + spt) / spt == start / spt + 1
  {
    assert start - start % spt + spt == (start / spt + 1) * spt;
    QuotientIs(start - start % spt + spt, spt, start / spt + 1);
  }

  function GiveBack(s: State, id: TaskId): State { Requeue(s, id, Release).GetOr(s) }

  /** One slot: what was picked is sent, or given back. */
  function Serve(u: Setup, layouts: Layouts, s: State, a: Ask, now: nat, order: seq<JobId>): (State, Option<TaskId>) {
    var (s1, picked) := OnLease(u, s, a, now, order);
    if picked.Some? && !Sendable(u, layouts, s1, picked.value) then (GiveBack(s1, picked.value), None) else (s1, picked)
  }

  // ---- a slot is one step, or two ---------------------------------------------------------------

  lemma {:induction false} CarveFirstHeld(s: State, order: seq<JobId>, w: WorkerId, now: nat, lease: nat, units: nat)
    ensures var (s1, r) := CarveFirst(s, order, w, now, lease, units); r.Some? ==> HoldsLease(s1, w, r.value)
    decreases order
  {
    if order == [] {
    } else if order[0] !in s.jobs || s.jobs[order[0]].Exhausted() {
      CarveFirstHeld(s, order[1..], w, now, lease, units);
    } else {
      var (s1, r) := Carve(s, order[0], w, now, lease, units);
      if r.None? {
        CarveFirstHeld(s1, order[1..], w, now, lease, units);
      }
    }
  }

  lemma GrantHeld(s: State, w: WorkerId, now: nat, lease: nat, units: nat, cached: seq<AssetId>, order: seq<JobId>)
    ensures var (s1, r) := GrantTask(s, w, now, lease, units, cached, order); r.Some? ==> HoldsLease(s1, w, r.value)
  {
    if QueuePick(s, w, cached).None? {
      CarveFirstHeld(s, PreferredJobs(s, cached, order) + order, w, now, lease, units);
    }
  }

  lemma SwapHeld(s: State, w: WorkerId, granted: TaskId, probe: (nat, nat), now: nat, lease: nat, order: seq<JobId>)
    requires Ids(s) && HoldsLease(s, w, granted)
    ensures var (s1, id) := SwapForProbe(s, w, granted, probe, now, lease, order); HoldsLease(s1, w, id)
  {
    var (s1, issued) := IssueKnownRange(s, w, now, lease, probe.0, probe.1, order);
    if issued.Some? {
      assert issued.value == s.nextId != granted && HoldsLease(s1, w, s.nextId);
      BackKeepsOthers(s1, granted, w, s.nextId);
    }
  }

  /** Giving one task back leaves the leases on others alone. */
  lemma BackKeepsOthers(s: State, id: TaskId, w: WorkerId, x: TaskId)
    requires x != id && HoldsLease(s, w, x)
    ensures HoldsLease(GiveBack(s, id), w, x)
  {
  }

  /** Whoever is picked a task holds it. */
  lemma PickedIsHeld(u: Setup, s: State, a: Ask, now: nat, order: seq<JobId>)
    requires Core(s)
    ensures var (s1, r) := OnLease(u, s, a, now, order); r.Some? ==> HoldsLease(s1, a.worker, r.value)
  {
    var (s1, granted) := GrantTask(s, a.worker, now, u.leaseMs, a.units, a.cached, order);
    GrantHeld(s, a.worker, now, u.leaseMs, a.units, a.cached, order);
    GrantKeeps(s, a.worker, now, u.leaseMs, a.units, a.cached, order);
    if granted.Some? && a.probe.Some? {
      SwapHeld(s1, a.worker, granted.value, a.probe.value, now, u.leaseMs, order);
    }
  }

  lemma {:induction false} CarveFirstSameJobs(s: State, order: seq<JobId>, w: WorkerId, now: nat, lease: nat, units: nat)
    ensures CarveFirst(s, order, w, now, lease, units).0.jobs.Keys == s.jobs.Keys
    decreases order
  {
    if order == [] {
    } else if order[0] !in s.jobs || s.jobs[order[0]].Exhausted() {
      CarveFirstSameJobs(s, order[1..], w, now, lease, units);
    } else {
      var (s1, r) := Carve(s, order[0], w, now, lease, units);
      if r.None? {
        CarveFirstSameJobs(s1, order[1..], w, now, lease, units);
      }
    }
  }

  lemma GrantSameJobs(s: State, w: WorkerId, now: nat, lease: nat, units: nat, cached: seq<AssetId>, order: seq<JobId>)
    ensures GrantTask(s, w, now, lease, units, cached, order).0.jobs.Keys == s.jobs.Keys
  {
    if QueuePick(s, w, cached).None? {
      CarveFirstSameJobs(s, PreferredJobs(s, cached, order) + order, w, now, lease, units);
    }
  }

  /** Leasing creates no job. */
  lemma ServeSameJobs(u: Setup, layouts: Layouts, s: State, a: Ask, now: nat, order: seq<JobId>)
    ensures OnLease(u, s, a, now, order).0.jobs.Keys == s.jobs.Keys
    ensures Serve(u, layouts, s, a, now, order).0.jobs.Keys == s.jobs.Keys
  {
    GrantSameJobs(s, a.worker, now, u.leaseMs, a.units, a.cached, order);
  }

  function ServeEvents(u: Setup, layouts: Layouts, s: State, a: Ask, now: nat, order: seq<JobId>): seq<Event> {
    var (s1, picked) := OnLease(u, s, a, now, order);
    [LeaseRequest(a, now, order)]
    + if picked.Some? && !Sendable(u, layouts, s1, picked.value) then [ReleaseRequest(a.worker, picked.value)] else []
  }

  /** A slot is a lease step; a refused one is a lease step and a release step. */
  lemma ServeIsSteps(u: Setup, layouts: Layouts, s: State, a: Ask, now: nat, order: seq<JobId>)
    requires Core(s) && Enumerates(order, s.jobs.Keys)
    ensures var es := ServeEvents(u, layouts, s, a, now, order);
            Run(u, s, es) && Serve(u, layouts, s, a, now, order).0 == Final(u, s, es)
  {
    var (s1, picked) := OnLease(u, s, a, now, order);
    var es := ServeEvents(u, layouts, s, a, now, order);
    PickedIsHeld(u, s, a, now, order);
    assert Step(u, s, es[0]) == s1;
    if picked.Some? && !Sendable(u, layouts, s1, picked.value) {
      assert es[1..] == [ReleaseRequest(a.worker, picked.value)] && es[1..][1..] == [];
      assert Run(u, Step(u, s1, es[1]), []) && Final(u, s1, es[1..]) == GiveBack(s1, picked.value);
    } else {
      assert es[1..] == [] && Run(u, s1, []);
    }
  }

  // ---- a whole request -------------------------------------------------------------------------------

  /** Slot after slot, until one sends nothing. */
  function ServeSlots(u: Setup, layouts: Layouts, s: State, asks: seq<Ask>, now: nat, order: seq<JobId>): (State, seq<TaskId>)
    decreases asks
  {
    if asks == [] then (s, [])
    else
      var (s1, r) := Serve(u, layouts, s, asks[0], now, order);
      if r.None? then (s1, [])
      else
        var (s2, rest) := ServeSlots(u, layouts, s1, asks[1..], now, order);
        (s2, [r.value] + rest)
  }

  function Behind(sent: seq<TaskId>, rest: (State, seq<TaskId>)): (State, seq<TaskId>) {
    (rest.0, sent + rest.1)
  }

  lemma SlotNext(u: Setup, layouts: Layouts, s: State, sent: seq<TaskId>, asks: seq<Ask>, now: nat, order: seq<JobId>)
    requires asks != []
    ensures var (s1, r) := Serve(u, layouts, s, asks[0], now, order);
            Behind(sent, ServeSlots(u, layouts, s, asks, now, order))
            == if r.None? then (s1, sent) else Behind(sent + [r.value], ServeSlots(u, layouts, s1, asks[1..], now, order))
  {
    var (s1, r) := Serve(u, layouts, s, asks[0], now, order);
    assert sent + [] == sent;
    if r.Some? {
      AppendAssoc(sent, [r.value], ServeSlots(u, layouts, s1, asks[1..], now, order).1);
    }
  }

  /** So a request is a run of lease steps, with a release where a task did not
      build: everything proved of runs holds of it. */
  lemma {:induction false} SlotsAreSteps(u: Setup, layouts: Layouts, s: State, asks: seq<Ask>, now: nat, order: seq<JobId>)
    returns (es: seq<Event>)
    requires Core(s) && Registered(u, s) && Enumerates(order, s.jobs.Keys)
    ensures Run(u, s, es) && ServeSlots(u, layouts, s, asks, now, order).0 == Final(u, s, es)
    ensures forall e <- es :: e.LeaseRequest? || e.ReleaseRequest?
    decreases asks
  {
    if asks == [] {
      es := [];
    } else {
      var (s1, r) := Serve(u, layouts, s, asks[0], now, order);
      var first := ServeEvents(u, layouts, s, asks[0], now, order);
      ServeIsSteps(u, layouts, s, asks[0], now, order);
      es := first;
      if r.Some? {
        RunKeepsCore(u, s, first);
        ServeSameJobs(u, layouts, s, asks[0], now, order);
        var rest := SlotsAreSteps(u, layouts, s1, asks[1..], now, order);
        RunsJoin(u, s, first, rest);
        es := first + rest;
      }
    }
  }

  lemma {:induction false} RunKeepsCore(u: Setup, s: State, es: seq<Event>)
    requires Core(s) && Registered(u, s) && Run(u, s, es)
    ensures Core(Final(u, s, es)) && Registered(u, Final(u, s, es))
    decreases es
  {
    if es != [] {
      StepKeeps(u, s, es[0]);
      StepKeepsRegistered(u, s, es[0]);
      RunKeepsCore(u, Step(u, s, es[0]), es[1..]);
    }
  }

  // ---- when a request sends nothing ----------------------------------------------------------------

  /** Nothing on the queue may go to `w`, and all keyspace is handed out. */
  ghost predicate NothingFor(s: State, w: WorkerId) {
    (forall id <- s.queue :: !Grantable(s, w, id)) && forall j <- s.jobs :: s.jobs[j].Exhausted()
  }

  /** The race a request would enter when there is nothing else. */
  predicate Races(s: State, a: Ask, order: seq<JobId>) {
    a.speculate && RaceJob(s, a.worker, a.threshold, order).Some?
  }

  lemma PicksNothing(s: State, w: WorkerId, cached: seq<AssetId>)
    ensures QueuePick(s, w, cached).None? <==> forall id <- s.queue :: !Grantable(s, w, id)
  {
    var pick := QueuePick(s, w, cached);
    if pick.Some? {
      assert s.queue[pick.value] in s.queue;
    }
  }

  lemma GrantsNothing(s: State, w: WorkerId, now: nat, lease: nat, units: nat, cached: seq<AssetId>, order: seq<JobId>)
    requires JobsOk(s) && Enumerates(order, s.jobs.Keys) && units >= 1
    ensures var (s1, r) := GrantTask(s, w, now, lease, units, cached, order);
            (r.None? <==> NothingFor(s, w)) && (r.None? ==> s1 == s)
  {
    PicksNothing(s, w, cached);
    EnumeratesMembers(order, s.jobs.Keys);
    var jobs := PreferredJobs(s, cached, order) + order;
    assert forall j :: j in jobs <==> j in s.jobs;
    CarveFirstFails(s, jobs, w, now, lease, units);
    if forall j <- s.jobs :: s.jobs[j].Exhausted() {
      AllExhaustedSame(s, jobs, w, now, lease, units);
    }
  }

  lemma {:induction false} AllExhaustedSame(s: State, order: seq<JobId>, w: WorkerId, now: nat, lease: nat, units: nat)
    requires forall j <- s.jobs :: s.jobs[j].Exhausted()
    ensures CarveFirst(s, order, w, now, lease, units) == (s, None)
    decreases order
  {
    if order != [] {
      AllExhaustedSame(s, order[1..], w, now, lease, units);
    }
  }

  /** A request sends nothing if, and only if, there is neither work nor a race for
      the worker, or the task picked for it does not build. */
  lemma SendsNothingIff(u: Setup, layouts: Layouts, s: State, a: Ask, now: nat, order: seq<JobId>)
    requires JobsOk(s) && Enumerates(order, s.jobs.Keys) && a.units >= 1
    ensures var (s1, picked) := OnLease(u, s, a, now, order);
            Serve(u, layouts, s, a, now, order).1.None?
            <==> (NothingFor(s, a.worker) && !Races(s, a, order))
                 || (picked.Some? && !Sendable(u, layouts, s1, picked.value))
  {
    GrantsNothing(s, a.worker, now, u.leaseMs, a.units, a.cached, order);
  }

  // ---- a queue that stays jammed --------------------------------------------------------------------

  /** The queue holds tasks, and none of them builds. */
  ghost predicate Jammed(u: Setup, layouts: Layouts, s: State) {
    s.queue != [] && forall id <- s.queue :: id in s.tasks && s.tasks[id].state.Queued? && !Sendable(u, layouts, s, id)
  }

  /** Requeued at the end; otherwise the task is as it was. */
  ghost predicate Rotated(s: State, s': State) {
    s'.jobs == s.jobs && multiset(s'.queue) == multiset(s.queue) && s'.tasks.Keys == s.tasks.Keys
    && forall id <- s.tasks :: s'.tasks[id] == s.tasks[id] || s'.tasks[id] == s.tasks[id].(holder := NIL, deadline := 0)
  }

  lemma RotatedStaysJammed(u: Setup, layouts: Layouts, s: State, s': State)
    requires Jammed(u, layouts, s) && Rotated(s, s')
    ensures Jammed(u, layouts, s')
  {
    assert multiset(s'.queue)[s.queue[0]] > 0;
    forall id <- s'.queue ensures id in s'.tasks && s'.tasks[id].state.Queued? && !Sendable(u, layouts, s', id) {
      assert multiset(s.queue)[id] > 0 && id in s.queue;
      assert !Sendable(u, layouts, s, id);
    }
  }

  /** Granted from the queue and given back. */
  lemma BackAgain(s: State, w: WorkerId, now: nat, lease: nat, k: nat)
    requires k < |s.queue| && s.queue[k] in s.tasks && s.tasks[s.queue[k]].state.Queued?
    ensures Rotated(s, GiveBack(GrantQueued(s, w, now, lease, k), s.queue[k]))
  {
    var id, s1 := s.queue[k], GrantQueued(s, w, now, lease, k);
    var s' := GiveBack(s1, id);
    assert s'.queue == s1.queue + [id];
    assert multiset(s'.queue) == multiset(s.queue) - multiset{id} + multiset{id};
  }

  /** What is picked is queued, and building it does not depend on who holds it. */
  lemma JammedPick(u: Setup, layouts: Layouts, s: State, a: Ask, now: nat, order: seq<JobId>) returns (k: nat)
    requires Jammed(u, layouts, s) && a.probe.None? && exists id <- s.queue :: Grantable(s, a.worker, id)
    ensures k < |s.queue| && s.queue[k] in s.tasks && s.tasks[s.queue[k]].state.Queued?
    ensures Serve(u, layouts, s, a, now, order) == (GiveBack(GrantQueued(s, a.worker, now, u.leaseMs, k), s.queue[k]), None)
  {
    PicksNothing(s, a.worker, a.cached);
    k := QueuePick(s, a.worker, a.cached).value;
    var id, s1 := s.queue[k], GrantQueued(s, a.worker, now, u.leaseMs, k);
    assert id in s.queue && !Sendable(u, layouts, s, id);
    assert OnLease(u, s, a, now, order) == (s1, Some(id));
    SameBuild(u, layouts, s, s1, id);
  }

  lemma SameBuild(u: Setup, layouts: Layouts, s: State, s1: State, id: TaskId)
    requires s1.jobs == s.jobs && id in s.tasks && id in s1.tasks && SameRange(s.tasks[id], s1.tasks[id])
    ensures Sendable(u, layouts, s1, id) == Sendable(u, layouts, s, id)
  {
  }

  /** A worker that may take some queued task is picked one, it does not build,
      and it goes back: nothing is sent and nothing is carved. */
  lemma JammedSendsNothing(u: Setup, layouts: Layouts, s: State, a: Ask, now: nat, order: seq<JobId>)
    requires Jammed(u, layouts, s) && a.probe.None? && exists id <- s.queue :: Grantable(s, a.worker, id)
    ensures var (s', sent) := Serve(u, layouts, s, a, now, order);
            sent.None? && Rotated(s, s') && Jammed(u, layouts, s')
  {
    var k := JammedPick(u, layouts, s, a, now, order);
    BackAgain(s, a.worker, now, u.leaseMs, k);
    RotatedStaysJammed(u, layouts, s, Serve(u, layouts, s, a, now, order).0);
  }

  /** Request after request, by workers new to the queued tasks. */
  function ServeAll(u: Setup, layouts: Layouts, s: State, asks: seq<(Ask, nat, seq<JobId>)>): (State, seq<Option<TaskId>>)
    decreases asks
  {
    if asks == [] then (s, [])
    else
      var (s1, sent) := Serve(u, layouts, s, asks[0].0, asks[0].1, asks[0].2);
      var (s2, rest) := ServeAll(u, layouts, s1, asks[1..]);
      (s2, [sent] + rest)
  }

  /** For ever: whoever asks is sent nothing, and no keyspace is handed out. */
  lemma {:induction false} JammedForEver(u: Setup, layouts: Layouts, s: State, asks: seq<(Ask, nat, seq<JobId>)>)
    requires Jammed(u, layouts, s)
    requires forall x <- asks :: x.0.probe.None? && forall id <- s.queue :: Grantable(s, x.0.worker, id)
    ensures var (s', sent) := ServeAll(u, layouts, s, asks);
            Jammed(u, layouts, s') && s'.jobs == s.jobs && forall r <- sent :: r.None?
    decreases asks
  {
    if asks != [] {
      var a := asks[0];
      assert a in asks && s.queue[0] in s.queue && Grantable(s, a.0.worker, s.queue[0]);
      JammedSendsNothing(u, layouts, s, a.0, a.1, a.2);
      var s1 := Serve(u, layouts, s, a.0, a.1, a.2).0;
      forall x <- asks[1..], id <- s1.queue ensures x.0.probe.None? && Grantable(s1, x.0.worker, id) {
        assert x in asks && multiset(s.queue)[id] > 0 && id in s.queue && Grantable(s, x.0.worker, id);
      }
      JammedForEver(u, layouts, s1, asks[1..]);
    }
  }

  // ---- renders after a restart ------------------------------------------------------------------------

  lemma {:induction false} RunKeepsJob(u: Setup, s: State, es: seq<Event>, j: JobId)
    requires Core(s) && Registered(u, s) && Run(u, s, es) && j in s.jobs
    ensures j in Final(u, s, es).jobs && SameJob(s.jobs[j], Final(u, s, es).jobs[j])
    decreases es
  {
    if es != [] {
      StepKeeps(u, s, es[0]);
      StepKeepsRegistered(u, s, es[0]);
      StepEvolves(u, s, es[0]);
      RunKeepsJob(u, Step(u, s, es[0]), es[1..], j);
    }
  }

  /** A render job is adopted without its render configuration: whatever happens
      after the restart, no task of it is ever sent. */
  lemma RestartedRenderNeverSent(u: Setup, layouts: Layouts, before: seq<WorldEvent>, o: Orders, es: seq<Event>, j: JobId, id: TaskId)
    requires Possibles(u, START, before) && Possible(u, After(u, START, before), Crash(o))
    requires var r := Next(u, After(u, START, before), Crash(o)).mem;
             j in r.jobs && layouts(r.jobs[j].kernel).PathTrace? && Run(u, r, es)
             && id in Final(u, r, es).tasks && Final(u, r, es).tasks[id].job == j
    ensures !Sendable(u, layouts, Final(u, Next(u, After(u, START, before), Crash(o)).mem, es), id)
  {
    var w := After(u, START, before);
    StartOk(u);
    RunsAreSound(u, START, before);
    NextKeepsOk(u, w, Crash(o));
    RestartedWithoutRender(u, w, o, j);
    RunKeepsJob(u, Next(u, w, Crash(o)).mem, es, j);
  }

  lemma RestartedWithoutRender(u: Setup, w: World, o: Orders, j: JobId)
    requires WorldOk(u, w) && Possible(u, w, Crash(o)) && j in Next(u, w, Crash(o)).mem.jobs
    ensures Next(u, w, Crash(o)).mem.jobs[j].render.None?
  {
    CrashSound(u, w.saved, w.db, o);
    assert RestoredJob(w.saved.jobs[j], Next(u, w, Crash(o)).mem.jobs[j]);
  }
}
