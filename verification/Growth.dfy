/** The steps that create a job or a task keep the invariants too. */
module Growth {
  import opened Basics
  import opened TaskStates
  import opened Coordinator
  import opened Protocol
  import opened Invariants

  /** A fresh leased task `t` appears as `id`; one job, at most, is rewritten,
      and lists the task after the ones it had. */
  ghost predicate Adds(s: State, s': State, id: TaskId, t: Task) {
    s.nextId <= id < s'.nextId && t.id == id && t.job in s.jobs && t.state.Leased?
    && t.prior == [] && t.submissions == [] && t.count > 0
    && s'.tasks == s.tasks[id := t] && s'.queue == s.queue
    && s'.jobs.Keys == s.jobs.Keys
    && (forall j <- s.jobs :: s'.jobs[j].id == j
          && (s'.jobs[j].tasks == s.jobs[j].tasks || (j == t.job && s'.jobs[j].tasks == s.jobs[j].tasks + [id])))
  }

  lemma AddsKeepsIds(s: State, s': State, id: TaskId, t: Task)
    requires Ids(s) && Adds(s, s', id, t)
    ensures Ids(s')
  {
  }

  lemma AddsKeepsDistinct(s: State, s': State, id: TaskId, t: Task, j: JobId)
    requires Ids(s) && Lists(s) && Adds(s, s', id, t) && j in s.jobs
    ensures Distinct(s'.jobs[j].tasks)
  {
    assert Distinct(s.jobs[j].tasks);
    assert id in s.jobs[j].tasks ==> id in s.tasks;
    assert multiset(s.jobs[j].tasks)[id] == 0;
  }

  lemma AddsKeepsListed(s: State, s': State, id: TaskId, t: Task, j: JobId, x: TaskId)
    requires Ids(s) && Lists(s) && Adds(s, s', id, t) && j in s.jobs && x in s'.jobs[j].tasks
    ensures x in s'.tasks && s'.tasks[x].job == j
  {
    if x in s.jobs[j].tasks {
      assert x in s.tasks && s.tasks[x].job == j;
    } else {
      assert s'.jobs[j].tasks == s.jobs[j].tasks + [id];
    }
  }

  lemma AddsKeepsReplica(s: State, s': State, id: TaskId, t: Task, r: TaskId)
    requires Ids(s) && Adds(s, s', id, t) && r in s.tasks && s.tasks[r].replicaOf != NIL && IsReplica(s, r)
    ensures IsReplica(s', r)
  {
  }

  lemma AddsKeepsLists(s: State, s': State, id: TaskId, t: Task)
    requires Ids(s) && Lists(s) && Adds(s, s', id, t)
    requires t.replicaOf != NIL ==> IsReplica(s', id)
    ensures Lists(s')
  {
    forall j <- s'.jobs ensures Distinct(s'.jobs[j].tasks) {
      AddsKeepsDistinct(s, s', id, t, j);
    }
    forall j <- s'.jobs, x | x in s'.jobs[j].tasks ensures x in s'.tasks && s'.tasks[x].job == j {
      AddsKeepsListed(s, s', id, t, j, x);
    }
    forall r <- s'.tasks | s'.tasks[r].replicaOf != NIL ensures IsReplica(s', r) {
      if r != id {
        AddsKeepsReplica(s, s', id, t, r);
      }
    }
  }

  lemma AddsKeepsTasks(s: State, s': State, id: TaskId, t: Task)
    requires Ids(s) && TasksOk(s) && Adds(s, s', id, t)
    ensures TasksOk(s') && (QueueOk(s) ==> QueueOk(s'))
  {
    assert QueueOk(s) ==> multiset(s.queue)[id] == 0;
  }

  lemma OldTasksKeepAccepted(s: State, s': State, c: TaskId)
    requires forall id <- s.tasks :: id in s'.tasks && s'.tasks[id] == s.tasks[id]
    requires c in s.tasks && HasAccepted(s, c)
    ensures HasAccepted(s', c)
  {
    var a :| Sibling(s, a, c) && s.tasks[a].state.Accepted?;
    assert Sibling(s', a, c);
  }

  lemma AddsKeepsFamilies(s: State, s': State, id: TaskId, t: Task)
    requires Ids(s) && Families(s) && Adds(s, s', id, t)
    requires t.replicaOf != NIL ==> forall c <- s.tasks :: !LiveReplica(s, t.replicaOf, c)
    ensures Families(s')
  {
    forall c <- s'.tasks | s'.tasks[c].state.Cancelled? ensures HasAccepted(s', c) {
      OldTasksKeepAccepted(s, s', c);
    }
    forall a <- s'.tasks, b <- s'.tasks | s'.tasks[a].replicaOf == s'.tasks[b].replicaOf != NIL
        && !IsTerminal(s'.tasks[a].state) && !IsTerminal(s'.tasks[b].state)
      ensures a == b
    {
      assert a != id ==> LiveReplica(s, s'.tasks[a].replicaOf, a);
      assert b != id ==> LiveReplica(s, s'.tasks[b].replicaOf, b);
    }
  }

  lemma AddsKeeps(s: State, s': State, id: TaskId, t: Task)
    requires Core(s) && Adds(s, s', id, t)
    requires t.replicaOf != NIL ==> IsReplica(s', id) && forall c <- s.tasks :: !LiveReplica(s, t.replicaOf, c)
    ensures Core(s') && (QueueOk(s) ==> QueueOk(s'))
  {
    AddsKeepsIds(s, s', id, t);
    AddsKeepsLists(s, s', id, t);
    AddsKeepsTasks(s, s', id, t);
    AddsKeepsFamilies(s, s', id, t);
  }

  /** Only the id counter moved, or a job was added that lists no task. */
  ghost predicate NoNewTask(s: State, s': State) {
    s'.tasks == s.tasks && s'.queue == s.queue && s.nextId <= s'.nextId && s.jobs.Keys <= s'.jobs.Keys
    && (forall j <- s.jobs :: s'.jobs[j] == s.jobs[j])
    && (forall j <- s'.jobs | j !in s.jobs :: s'.jobs[j].tasks == [] && s'.jobs[j].id == j && NIL < j < s'.nextId)
  }

  lemma NoNewTaskKeepsLists(s: State, s': State)
    requires Ids(s) && Lists(s) && NoNewTask(s, s')
    ensures Ids(s') && Lists(s')
  {
    forall r <- s'.tasks | s'.tasks[r].replicaOf != NIL ensures IsReplica(s', r) {
      assert IsReplica(s, r);
    }
  }

  lemma NoNewTaskKeeps(s: State, s': State)
    requires Core(s) && NoNewTask(s, s')
    ensures Core(s') && (QueueOk(s) ==> QueueOk(s'))
  {
    NoNewTaskKeepsLists(s, s');
    forall c <- s'.tasks | s'.tasks[c].state.Cancelled? ensures HasAccepted(s', c) {
      OldTasksKeepAccepted(s, s', c);
    }
  }

  lemma CarveKeeps(s: State, j: JobId, w: WorkerId, now: nat, lease: nat, units: nat)
    requires Core(s) && j in s.jobs
    ensures var (s', r) := Carve(s, j, w, now, lease, units); Core(s') && (QueueOk(s) ==> QueueOk(s'))
  {
    var (s', r) := Carve(s, j, w, now, lease, units);
    if r.Some? {
      AddsKeeps(s, s', r.value, s'.tasks[r.value]);
    } else {
      NoNewTaskKeeps(s, s');
    }
  }

  lemma {:induction false} CarveFirstKeeps(s: State, order: seq<JobId>, w: WorkerId, now: nat, lease: nat, units: nat)
    requires Core(s)
    ensures var (s', r) := CarveFirst(s, order, w, now, lease, units); Core(s') && (QueueOk(s) ==> QueueOk(s'))
    decreases order
  {
    if order == [] {
    } else if order[0] !in s.jobs || s.jobs[order[0]].Exhausted() {
      CarveFirstKeeps(s, order[1..], w, now, lease, units);
    } else {
      CarveKeeps(s, order[0], w, now, lease, units);
      var (s1, r) := Carve(s, order[0], w, now, lease, units);
      if r.None? {
        CarveFirstKeeps(s1, order[1..], w, now, lease, units);
      }
    }
  }

  lemma GrantKeeps(s: State, w: WorkerId, now: nat, lease: nat, units: nat, cached: seq<AssetId>, order: seq<JobId>)
    requires Core(s)
    ensures var (s', r) := GrantTask(s, w, now, lease, units, cached, order); Core(s') && (QueueOk(s) ==> QueueOk(s'))
  {
    match QueuePick(s, w, cached)
    case Some(k) =>
      GrantQueuedGood(s, w, now, lease, k);
      MovedKeepsCore(s, GrantQueued(s, w, now, lease, k));
    case None =>
      CarveFirstKeeps(s, PreferredJobs(s, cached, order) + order, w, now, lease, units);
  }

  lemma ProbeKeeps(s: State, w: WorkerId, now: nat, lease: nat, start: nat, count: nat, order: seq<JobId>)
    requires Core(s)
    ensures var (s', r) := IssueKnownRange(s, w, now, lease, start, count, order);
            Core(s') && (QueueOk(s) ==> QueueOk(s'))
  {
    var (s', r) := IssueKnownRange(s, w, now, lease, start, count, order);
    if r.Some? {
      AddsKeeps(s, s', r.value, s'.tasks[r.value]);
    }
  }

  /** A race adds one task, a replica that both it and its original list. */
  lemma AddReplicaAdds(s: State, j: JobId, id: TaskId, w: WorkerId, now: nat, lease: nat)
    requires Ids(s) && Lists(s) && j in s.jobs && id in s.jobs[j].tasks
    requires s.tasks[id].replicaOf == NIL && TaskOk(s.tasks[id])
    ensures var s' := AddReplica(s, j, id, w, now, lease);
            Adds(s, s', s.nextId, s'.tasks[s.nextId]) && IsReplica(s', s.nextId)
  {
  }

  lemma AddReplicaKeeps(s: State, j: JobId, id: TaskId, w: WorkerId, now: nat, lease: nat)
    requires Core(s) && j in s.jobs && id in s.jobs[j].tasks && Raceable(s, w, s.jobs[j].tasks, id)
    ensures var s' := AddReplica(s, j, id, w, now, lease); Core(s') && (QueueOk(s) ==> QueueOk(s'))
  {
    var s' := AddReplica(s, j, id, w, now, lease);
    AddReplicaAdds(s, j, id, w, now, lease);
    forall c <- s.tasks ensures !LiveReplica(s, id, c) {
      if s.tasks[c].replicaOf == id {
        assert IsReplica(s, c) && c in s.jobs[j].tasks;
      }
    }
    AddsKeeps(s, s', s.nextId, s'.tasks[s.nextId]);
  }

  lemma ReplicaKeeps(s: State, w: WorkerId, now: nat, lease: nat, threshold: real, order: seq<JobId>)
    requires Core(s)
    ensures var (s', r) := IssueSpeculative(s, w, now, lease, threshold, order);
            Core(s') && (QueueOk(s) ==> QueueOk(s'))
  {
    match RaceJob(s, w, threshold, order)
    case None =>
    case Some(k) => AddReplicaKeeps(s, order[k], RaceIn(s, order[k], w, threshold).value, w, now, lease);
  }

  // ---- every step, and every run --------------------------------------------------

  /** Static job fields never change, so a registered kernel stays registered. */
  ghost predicate Registered(u: Setup, s: State) {
    forall j <- s.jobs :: s.jobs[j].kernel in u.kernels
  }

  lemma PartialGood(s: State, w: WorkerId, id: TaskId, p: Partial, lease: nat)
    requires Core(s)
    ensures Good(s, RecordPartial(s, w, id, p, lease).GetOr(s))
  {
    if RecordPartial(s, w, id, p, lease).Some? {
      RenewGood(s, w, id, p.receivedAt, lease);
    }
  }

  /** A whole answer for a task the worker holds is voted on. */
  lemma WholeAnswerKeeps(u: Setup, s: State, m: Result, required: nat, now: nat)
    requires Core(s) && Registered(u, s) && HoldsLease(s, m.worker, m.task) && m.lengthOk && m.intact
    requires !(0 < m.unitsDone < s.tasks[m.task].count)
    ensures Good(s, OnResult(u, s, m, false, required, now).0)
  {
    var k := u.kernels[s.jobs[s.tasks[m.task].job].kernel];
    VoteGood(s, m.task, Retained(m, k), k, u.quorum.(required := required));
  }

  lemma ResultKeeps(u: Setup, s: State, m: Result, seen: bool, required: nat, now: nat)
    requires Core(s) && Registered(u, s)
    ensures Good(s, OnResult(u, s, m, seen, required, now).0)
  {
    var s' := OnResult(u, s, m, seen, required, now).0;
    if seen || !m.lengthOk || !HoldsLease(s, m.worker, m.task) {
    } else if !m.intact {
      RequeueGood(s, m.task, Release);
    } else if 0 < m.unitsDone < s.tasks[m.task].count {
      PartialGood(s, m.worker, m.task, Partial(m.worker, m.sequence, m.unitsDone, m.payload, now), u.leaseMs);
    } else {
      WholeAnswerKeeps(u, s, m, required, now);
    }
  }

  lemma SwapKeeps(s: State, w: WorkerId, granted: TaskId, probe: (nat, nat), now: nat, lease: nat, order: seq<JobId>)
    requires Core(s)
    ensures var s' := SwapForProbe(s, w, granted, probe, now, lease, order).0;
            Core(s') && (QueueOk(s) ==> QueueOk(s'))
  {
    var (s1, issued) := IssueKnownRange(s, w, now, lease, probe.0, probe.1, order);
    ProbeKeeps(s, w, now, lease, probe.0, probe.1, order);
    var r := Requeue(s1, granted, Release);
    if issued.Some? && r.Some? {
      RequeueGood(s1, granted, Release);
      MovedKeepsCore(s1, r.value);
    }
  }

  lemma LeaseKeeps(u: Setup, s: State, a: Ask, now: nat, order: seq<JobId>)
    requires Core(s)
    ensures var s' := OnLease(u, s, a, now, order).0; Core(s') && (QueueOk(s) ==> QueueOk(s'))
  {
    var (s1, granted) := GrantTask(s, a.worker, now, u.leaseMs, a.units, a.cached, order);
    GrantKeeps(s, a.worker, now, u.leaseMs, a.units, a.cached, order);
    if granted.Some? && a.probe.Some? {
      SwapKeeps(s1, a.worker, granted.value, a.probe.value, now, u.leaseMs, order);
    } else if granted.None? {
      ReplicaKeeps(s1, a.worker, now, u.leaseMs, a.threshold, order);
    }
  }

  /** Steps that neither create a job nor hand out work. */
  predicate OnlyMoves(e: Event) {
    !e.NewJob? && !e.NewRender? && !e.LeaseRequest?
  }

  lemma MoveStepGood(u: Setup, s: State, e: Event)
    requires Core(s) && Registered(u, s) && OnlyMoves(e)
    ensures Good(s, Step(u, s, e))
  {
    match e
    case RenewRequest(w, id, now) =>
      if HoldsLease(s, w, id) {
        RenewGood(s, w, id, now, u.leaseMs);
      }
    case ReleaseRequest(w, id) =>
      if HoldsLease(s, w, id) {
        RequeueGood(s, id, Release);
      }
    case ResultArrived(m, seen, required, now) =>
      ResultKeeps(u, s, m, seen, required, now);
    case SweepTimer(now, order) =>
      RequeueAllGood(s, DueTasks(s, now, order), LeaseExpired);
    case WorkerGone(w, order) =>
      RequeueAllGood(s, HeldTasks(s, w, order), Release);
  }

  /** Every step of the protocol keeps the invariants. */
  lemma StepKeeps(u: Setup, s: State, e: Event)
    requires Core(s) && Registered(u, s)
    ensures Core(Step(u, s, e)) && (QueueOk(s) ==> QueueOk(Step(u, s, e)))
  {
    if OnlyMoves(e) {
      MoveStepGood(u, s, e);
      MovedKeepsCore(s, Step(u, s, e));
    } else if e.LeaseRequest? {
      LeaseKeeps(u, s, e.ask, e.now, e.jobOrder);
    } else {
      NoNewTaskKeeps(s, Step(u, s, e));
    }
  }
}
