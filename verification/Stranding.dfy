/** The cost of a `Queued` row: after a restart its task is never handed out
    again, whatever happens next, and its job never completes. */
module Stranding {
  import opened Basics
  import opened TaskStates
  import opened Quorum
  import opened Coordinator
  import opened Protocol
  import opened Invariants
  import opened Tables
  import opened Durability
  import opened Recovery
  import opened Worlds

  /** Queued, listed by its job, on no queue, and not marked for writing. */
  ghost predicate Stuck(s: State, id: TaskId, j: JobId) {
    id in s.tasks && s.tasks[id].state.Queued? && s.tasks[id].job == j && id < s.nextId
    && s.tasks[id].job < s.nextId && s.tasks[id].job in s.jobs && id in s.jobs[s.tasks[id].job].tasks
    && multiset(s.queue)[id] == 0 && id !in s.dirtyTasks
  }

  /** The step did nothing to `id` but list more tasks beside it. */
  ghost predicate PassesBy(s: State, s': State, id: TaskId) {
    id in s.tasks && id in s'.tasks && s'.tasks[id] == s.tasks[id] && s.nextId <= s'.nextId
    && (s.tasks[id].job in s.jobs ==> s.tasks[id].job in s'.jobs && s.jobs[s.tasks[id].job].tasks <= s'.jobs[s.tasks[id].job].tasks)
    && multiset(s'.queue)[id] <= multiset(s.queue)[id] && (id in s'.dirtyTasks ==> id in s.dirtyTasks)
  }

  lemma PassedByIsStuck(s: State, s': State, id: TaskId, j: JobId)
    requires Stuck(s, id, j) && PassesBy(s, s', id)
    ensures Stuck(s', id, j)
  {
  }

  lemma {:induction false} RequeueAllPassesBy(s: State, ids: seq<TaskId>, why: TaskEvent, id: TaskId, j: JobId)
    requires Stuck(s, id, j) && why in {Release, LeaseExpired}
    ensures Stuck(RequeueAll(s, ids, why), id, j)
  {
    if ids != [] {
      RequeueAllPassesBy(s, ids[..|ids| - 1], why, id, j);
    }
  }

  lemma {:induction false} CancelEachPassesBy(s: State, winner: TaskId, root: TaskId, ids: seq<TaskId>, id: TaskId, j: JobId)
    requires Stuck(s, id, j)
    ensures Stuck(CancelEach(s, winner, root, ids), id, j)
  {
    if ids != [] {
      CancelEachPassesBy(s, winner, root, ids[..|ids| - 1], id, j);
    }
  }

  lemma ResultPassesBy(u: Setup, s: State, m: Result, seen: bool, required: nat, now: nat, id: TaskId, j: JobId)
    requires Stuck(s, id, j)
    ensures Stuck(OnResult(u, s, m, seen, required, now).0, id, j)
  {
    if HoldsLease(s, m.worker, m.task) && s.tasks[m.task].job in s.jobs && s.jobs[s.tasks[m.task].job].kernel in u.kernels {
      var k := u.kernels[s.jobs[s.tasks[m.task].job].kernel];
      var cfg := u.quorum.(required := required);
      VoteIs(s, m.task, Retained(m, k), k, cfg);
      var action := Decide(k, cfg, s.tasks[m.task].submissions + [Retained(m, k)]).action;
      var s1 := AfterVote(s, m.task, Retained(m, k), action);
      CancelEachPassesBy(s1, m.task, Root(s1, m.task), s1.jobs[s1.tasks[m.task].job].tasks, id, j);
    }
  }

  lemma {:induction false} CarveFirstPassesBy(s: State, order: seq<JobId>, w: WorkerId, now: nat, lease: nat, units: nat, id: TaskId, j: JobId)
    requires Stuck(s, id, j)
    ensures Stuck(CarveFirst(s, order, w, now, lease, units).0, id, j)
    decreases order
  {
    if order == [] {
    } else if order[0] !in s.jobs || s.jobs[order[0]].Exhausted() {
      CarveFirstPassesBy(s, order[1..], w, now, lease, units, id, j);
    } else {
      var (s1, r) := Carve(s, order[0], w, now, lease, units);
      PassedByIsStuck(s, s1, id, j);
      if r.None? {
        CarveFirstPassesBy(s1, order[1..], w, now, lease, units, id, j);
      }
    }
  }

  /** A stuck task is not what a grant hands out, and stays stuck. */
  lemma GrantPassesBy(s: State, w: WorkerId, now: nat, lease: nat, units: nat, cached: seq<AssetId>, order: seq<JobId>, id: TaskId, j: JobId)
    requires Stuck(s, id, j)
    ensures Stuck(GrantTask(s, w, now, lease, units, cached, order).0, id, j)
  {
    match QueuePick(s, w, cached)
    case Some(k) =>
      assert multiset(s.queue)[s.queue[k]] > 0;
      PassedByIsStuck(s, GrantQueued(s, w, now, lease, k), id, j);
    case None =>
      CarveFirstPassesBy(s, PreferredJobs(s, cached, order) + order, w, now, lease, units, id, j);
  }

  lemma ProbePassesBy(s: State, w: WorkerId, granted: TaskId, probe: (nat, nat), now: nat, lease: nat, order: seq<JobId>, id: TaskId, j: JobId)
    requires Stuck(s, id, j)
    ensures Stuck(SwapForProbe(s, w, granted, probe, now, lease, order).0, id, j)
  {
    var (s1, issued) := IssueKnownRange(s, w, now, lease, probe.0, probe.1, order);
    PassedByIsStuck(s, s1, id, j);
  }

  lemma RacePassesBy(s: State, w: WorkerId, now: nat, lease: nat, threshold: real, order: seq<JobId>, id: TaskId, j: JobId)
    requires Stuck(s, id, j)
    ensures Stuck(IssueSpeculative(s, w, now, lease, threshold, order).0, id, j)
  {
    match RaceJob(s, w, threshold, order)
    case None =>
    case Some(k) =>
      PassedByIsStuck(s, AddReplica(s, order[k], RaceIn(s, order[k], w, threshold).value, w, now, lease), id, j);
  }

  lemma PlainStepPassesBy(u: Setup, s: State, e: Event, id: TaskId, j: JobId)
    requires Stuck(s, id, j) && (e.NewJob? || e.NewRender? || e.RenewRequest? || e.ReleaseRequest?)
    ensures Stuck(Step(u, s, e), id, j)
  {
    PassedByIsStuck(s, Step(u, s, e), id, j);
  }

  lemma LeasePassesBy(u: Setup, s: State, a: Ask, now: nat, order: seq<JobId>, id: TaskId, j: JobId)
    requires Stuck(s, id, j)
    ensures Stuck(OnLease(u, s, a, now, order).0, id, j)
  {
    var (s1, granted) := GrantTask(s, a.worker, now, u.leaseMs, a.units, a.cached, order);
    GrantPassesBy(s, a.worker, now, u.leaseMs, a.units, a.cached, order, id, j);
    if granted.Some? && a.probe.Some? {
      ProbePassesBy(s1, a.worker, granted.value, a.probe.value, now, u.leaseMs, order, id, j);
    }
    RacePassesBy(s1, a.worker, now, u.leaseMs, a.threshold, order, id, j);
  }

  lemma StepPassesBy(u: Setup, s: State, e: Event, id: TaskId, j: JobId)
    requires Stuck(s, id, j)
    ensures Stuck(Step(u, s, e), id, j)
  {
    match e
    case LeaseRequest(a, now, order) => LeasePassesBy(u, s, a, now, order, id, j);
    case ResultArrived(m, seen, required, now) => ResultPassesBy(u, s, m, seen, required, now, id, j);
    case SweepTimer(now, order) => RequeueAllPassesBy(s, DueTasks(s, now, order), LeaseExpired, id, j);
    case WorkerGone(w, order) => RequeueAllPassesBy(s, HeldTasks(s, w, order), Release, id, j);
    case _ => PlainStepPassesBy(u, s, e, id, j);
  }

  // ---- across restarts -------------------------------------------------------------------------

  /** The stored row says `Queued`, and memory has the task stuck. */
  ghost predicate StuckRow(w: World, id: TaskId, j: JobId) {
    id in w.db.tasks && w.db.tasks[id].state.Queued? && w.db.tasks[id].job == j && Stuck(w.mem, id, j)
  }

  /** A flush does not write rows that are not dirty. */
  lemma {:induction false} UpsertTasksSkips(s: State, db: Db, order: seq<TaskId>, id: TaskId)
    requires Ids(s) && id in db.tasks && id !in order
    ensures var r := UpsertTasks(db, DirtyTasks(s, order)); id in r.tasks && r.tasks[id] == db.tasks[id]
  {
    if order != [] {
      var last, init := order[|order| - 1], order[..|order| - 1];
      assert last in order && id !in init;
      UpsertTasksSkips(s, db, init, id);
      if last in s.tasks {
        assert DirtyTasks(s, order)[..|DirtyTasks(s, order)| - 1] == DirtyTasks(s, init);
      } else {
        assert DirtyTasks(s, order) == DirtyTasks(s, init);
      }
    }
  }

  lemma {:induction false} UpsertJobsKeepTasks(db: Db, js: seq<Job>)
    ensures UpsertJobs(db, js).tasks == db.tasks
  {
    if js != [] {
      UpsertJobsKeepTasks(db, js[..|js| - 1]);
    }
  }

  lemma BuiltStrands(db: Db, o: Orders, r: State, id: TaskId, j: JobId)
    requires Built(db, o.prior, r) && Ids(r) && id in db.tasks && db.tasks[id].state.Queued? && db.tasks[id].job == j
    ensures Stuck(r, id, j)
  {
    assert r.tasks[id] == Adopted(LoadedTask(db, o.prior, id));
    assert multiset(r.queue)[id] == 0;
  }

  /** A restart that reads a `Queued` row strands its task. */
  lemma RestartStrands(u: Setup, w: World, o: Orders, id: TaskId, j: JobId)
    requires WorldOk(u, w) && ReadsAll(o, w.db)
    requires id in w.db.tasks && w.db.tasks[id].state.Queued? && w.db.tasks[id].job == j
    ensures Stored(o.jobs, w.db.jobs.Keys) && Stored(o.tasks, w.db.tasks.Keys)
    ensures Stuck(Restart(w.db, o), id, j)
  {
    CrashSound(u, w.saved, w.db, o);
    RestartBuilds(w.db, o);
    BuiltStrands(w.db, o, Restart(w.db, o), id, j);
  }

  lemma NextKeepsStuckRow(u: Setup, w: World, e: WorldEvent, id: TaskId, j: JobId)
    requires WorldOk(u, w) && Possible(u, w, e) && StuckRow(w, id, j)
    ensures StuckRow(Next(u, w, e), id, j)
  {
    match e
    case Act(event) => StepPassesBy(u, w.mem, event, id, j);
    case Flush(js, ts, committed) =>
      EnumeratesMembers(ts, w.mem.dirtyTasks);
      UpsertJobsKeepTasks(w.db, DirtyJobs(w.mem, js));
      UpsertTasksSkips(w.mem, UpsertJobs(w.db, DirtyJobs(w.mem, js)), ts, id);
    case Crash(o) => RestartStrands(u, w, o, id, j);
  }

  /** Once stranded, a task stays queued in every continuation, further
      restarts included, and its job is never complete. */
  lemma {:induction false} StrandedForever(u: Setup, w: World, es: seq<WorldEvent>, id: TaskId, j: JobId)
    requires WorldOk(u, w) && Possibles(u, w, es) && StuckRow(w, id, j)
    ensures var s := After(u, w, es).mem;
            id in s.tasks && s.tasks[id].state.Queued? && !JobComplete(s, j)
    decreases es
  {
    if es != [] {
      NextKeepsOk(u, w, es[0]);
      NextKeepsStuckRow(u, w, es[0], id, j);
      StrandedForever(u, Next(u, w, es[0]), es[1..], id, j);
    }
  }

  /** The whole story: crash with a `Queued` row in the file, and the job that
      owns it never completes, in any run that follows. */
  lemma QueuedRowLosesJob(u: Setup, w: World, o: Orders, es: seq<WorldEvent>, id: TaskId, j: JobId)
    requires WorldOk(u, w) && Possible(u, w, Crash(o)) && Possibles(u, Next(u, w, Crash(o)), es)
    requires id in w.db.tasks && w.db.tasks[id].state.Queued? && w.db.tasks[id].job == j
    ensures var s := After(u, Next(u, w, Crash(o)), es).mem;
            id in s.tasks && s.tasks[id].state.Queued? && !JobComplete(s, j)
  {
    RestartStrands(u, w, o, id, j);
    NextKeepsOk(u, w, Crash(o));
    StrandedForever(u, Next(u, w, Crash(o)), es, id, j);
  }
}
