/** Every change to a stored field is marked dirty, and the fields the store
    never rewrites never change. */
module Marking {
  import opened Basics
  import opened TaskStates
  import opened Quorum
  import opened Coordinator
  import opened Protocol
  import opened Invariants
  import opened Growth

  /** Fields fixed when the job was created; the cursor only advances. */
  ghost predicate SameJob(a: Job, b: Job) {
    a.id == b.id && a.kernel == b.kernel && a.seed == b.seed && a.total == b.total && a.group == b.group
    && a.input == b.input && a.render == b.render && a.next <= b.next
  }

  ghost predicate JobsEvolve(s: State, s': State) {
    s.dirtyJobs <= s'.dirtyJobs
    && (forall j <- s.jobs :: j in s'.jobs && SameJob(s.jobs[j], s'.jobs[j])
          && (j in s'.dirtyJobs || s'.jobs[j].next == s.jobs[j].next))
    && (forall j <- s'.jobs | j !in s.jobs :: j in s'.dirtyJobs)
  }

  /** The range is fixed, and workers are only ever added to `prior`. */
  ghost predicate TaskEvolves(a: Task, b: Task) {
    SameRange(a, b) && forall w | w in a.prior :: w in b.prior
  }

  ghost predicate TasksEvolve(s: State, s': State) {
    s.dirtyTasks <= s'.dirtyTasks
    && (forall id <- s.tasks :: id in s'.tasks && TaskEvolves(s.tasks[id], s'.tasks[id])
          && (id in s'.dirtyTasks
              || (s'.tasks[id].state == s.tasks[id].state && s'.tasks[id].prior == s.tasks[id].prior)))
    && (forall id <- s'.tasks | id !in s.tasks :: id in s'.dirtyTasks)
  }

  ghost predicate Evolves(s: State, s': State) {
    JobsEvolve(s, s') && TasksEvolve(s, s')
  }

  lemma EvolvesTrans(s: State, s1: State, s2: State)
    requires Evolves(s, s1) && Evolves(s1, s2)
    ensures Evolves(s, s2)
  {
    forall id <- s.tasks ensures TaskEvolves(s.tasks[id], s2.tasks[id]) {
      assert TaskEvolves(s.tasks[id], s1.tasks[id]) && TaskEvolves(s1.tasks[id], s2.tasks[id]);
    }
  }

  /** Writing one task through `Put` leaves nothing unmarked. */
  lemma PutEvolves(s: State, s': State, id: TaskId)
    requires id in s'.tasks && s'.tasks == s.tasks[id := s'.tasks[id]]
    requires s'.dirtyTasks == s.dirtyTasks + {id}
    requires id in s.tasks ==> TaskEvolves(s.tasks[id], s'.tasks[id])
    requires JobsEvolve(s, s')
    ensures Evolves(s, s')
  {
  }

  lemma RequeueEvolves(s: State, id: TaskId, why: TaskEvent)
    requires Requeue(s, id, why).Some?
    ensures Evolves(s, Requeue(s, id, why).value)
  {
    PutEvolves(s, Requeue(s, id, why).value, id);
  }

  lemma {:induction false} RequeueAllEvolves(s: State, ids: seq<TaskId>, why: TaskEvent)
    ensures Evolves(s, RequeueAll(s, ids, why))
  {
    if ids != [] {
      var s1 := RequeueAll(s, ids[..|ids| - 1], why);
      RequeueAllEvolves(s, ids[..|ids| - 1], why);
      if Requeue(s1, ids[|ids| - 1], why).Some? {
        RequeueEvolves(s1, ids[|ids| - 1], why);
        EvolvesTrans(s, s1, RequeueAll(s, ids, why));
      }
    }
  }

  lemma {:induction false} CancelEachEvolves(s: State, winner: TaskId, root: TaskId, ids: seq<TaskId>)
    ensures Evolves(s, CancelEach(s, winner, root, ids))
  {
    if ids != [] {
      var s1 := CancelEach(s, winner, root, ids[..|ids| - 1]);
      var s2 := CancelEach(s, winner, root, ids);
      CancelEachEvolves(s, winner, root, ids[..|ids| - 1]);
      if s2 != s1 {
        PutEvolves(s1, s2, ids[|ids| - 1]);
        EvolvesTrans(s, s1, s2);
      }
    }
  }

  lemma VoteEvolves(s: State, id: TaskId, sub: Submission, k: Comparator, cfg: Config)
    requires HoldsLease(s, sub.worker, id)
    ensures Evolves(s, Vote(s, id, sub, k, cfg).0)
  {
    VoteIs(s, id, sub, k, cfg);
    var action := Decide(k, cfg, s.tasks[id].submissions + [sub]).action;
    var s1 := AfterVote(s, id, sub, action);
    PutEvolves(s, s1, id);
    if action.Accept? {
      if s1.tasks[id].job in s1.jobs {
        CancelEachEvolves(s1, id, Root(s1, id), s1.jobs[s1.tasks[id].job].tasks);
      }
      EvolvesTrans(s, s1, CancelSiblingsOf(s1, id));
    }
  }

  lemma ResultEvolves(u: Setup, s: State, m: Result, seen: bool, required: nat, now: nat)
    ensures Evolves(s, OnResult(u, s, m, seen, required, now).0)
  {
    var s' := OnResult(u, s, m, seen, required, now).0;
    if seen || !m.lengthOk || !HoldsLease(s, m.worker, m.task) {
    } else if !m.intact {
      RequeueEvolves(s, m.task, Release);
    } else if 0 < m.unitsDone < s.tasks[m.task].count {
      if s' != s {
        PutEvolves(s, s', m.task);
      }
    } else {
      var t := s.tasks[m.task];
      if t.job !in s.jobs || s.jobs[t.job].kernel !in u.kernels {
        PutEvolves(s, s', m.task);
      } else {
        var k := u.kernels[s.jobs[t.job].kernel];
        VoteEvolves(s, m.task, Retained(m, k), k, u.quorum.(required := required));
      }
    }
  }

  lemma {:induction false} CarveFirstEvolves(s: State, order: seq<JobId>, w: WorkerId, now: nat, lease: nat, units: nat)
    requires Core(s)
    ensures var s' := CarveFirst(s, order, w, now, lease, units).0; Evolves(s, s') && s'.jobs.Keys == s.jobs.Keys
    decreases order
  {
    if order == [] {
    } else if order[0] !in s.jobs || s.jobs[order[0]].Exhausted() {
      CarveFirstEvolves(s, order[1..], w, now, lease, units);
    } else {
      var (s1, r) := Carve(s, order[0], w, now, lease, units);
      if r.Some? {
        PutEvolves(s, s1, r.value);
      } else {
        CarveKeeps(s, order[0], w, now, lease, units);
        CarveFirstEvolves(s1, order[1..], w, now, lease, units);
        EvolvesTrans(s, s1, CarveFirst(s1, order[1..], w, now, lease, units).0);
      }
    }
  }

  lemma GrantEvolves(s: State, w: WorkerId, now: nat, lease: nat, units: nat, cached: seq<AssetId>, order: seq<JobId>)
    requires Core(s)
    ensures var s' := GrantTask(s, w, now, lease, units, cached, order).0; Evolves(s, s') && s'.jobs.Keys == s.jobs.Keys
  {
    match QueuePick(s, w, cached)
    case Some(k) => PutEvolves(s, GrantQueued(s, w, now, lease, k), s.queue[k]);
    case None => CarveFirstEvolves(s, PreferredJobs(s, cached, order) + order, w, now, lease, units);
  }

  lemma ReplicaEvolves(s: State, w: WorkerId, now: nat, lease: nat, threshold: real, order: seq<JobId>)
    requires Core(s)
    ensures var s' := IssueSpeculative(s, w, now, lease, threshold, order).0; Evolves(s, s') && s'.jobs.Keys == s.jobs.Keys
  {
    match RaceJob(s, w, threshold, order)
    case None =>
    case Some(k) => AddReplicaEvolves(s, order[k], RaceIn(s, order[k], w, threshold).value, w, now, lease);
  }

  lemma AddReplicaEvolves(s: State, j: JobId, id: TaskId, w: WorkerId, now: nat, lease: nat)
    requires Core(s) && j in s.jobs && id in s.tasks
    ensures var s' := AddReplica(s, j, id, w, now, lease); Evolves(s, s') && s'.jobs.Keys == s.jobs.Keys
  {
    PutEvolves(s, AddReplica(s, j, id, w, now, lease), s.nextId);
  }

  lemma ProbeEvolves(s: State, w: WorkerId, now: nat, lease: nat, start: nat, count: nat, order: seq<JobId>)
    requires Ids(s)
    ensures var s' := IssueKnownRange(s, w, now, lease, start, count, order).0; Evolves(s, s') && s'.jobs == s.jobs
  {
    var (s', issued) := IssueKnownRange(s, w, now, lease, start, count, order);
    if issued.Some? {
      PutEvolves(s, s', issued.value);
    }
  }

  lemma SwapEvolves(s: State, w: WorkerId, granted: TaskId, probe: (nat, nat), now: nat, lease: nat, order: seq<JobId>)
    requires Ids(s)
    ensures var s' := SwapForProbe(s, w, granted, probe, now, lease, order).0; Evolves(s, s') && s'.jobs == s.jobs
  {
    var (s1, issued) := IssueKnownRange(s, w, now, lease, probe.0, probe.1, order);
    ProbeEvolves(s, w, now, lease, probe.0, probe.1, order);
    if issued.Some? && Requeue(s1, granted, Release).Some? {
      RequeueEvolves(s1, granted, Release);
      EvolvesTrans(s, s1, Requeue(s1, granted, Release).value);
    }
  }

  /** Handing out work marks what it changes, and creates no job. */
  lemma LeaseEvolves(u: Setup, s: State, a: Ask, now: nat, order: seq<JobId>)
    requires Core(s)
    ensures var s' := OnLease(u, s, a, now, order).0; Evolves(s, s') && s'.jobs.Keys == s.jobs.Keys
  {
    var (s1, granted) := GrantTask(s, a.worker, now, u.leaseMs, a.units, a.cached, order);
    GrantKeeps(s, a.worker, now, u.leaseMs, a.units, a.cached, order);
    GrantEvolves(s, a.worker, now, u.leaseMs, a.units, a.cached, order);
    var s' := OnLease(u, s, a, now, order).0;
    if granted.Some? && a.probe.Some? {
      SwapEvolves(s1, a.worker, granted.value, a.probe.value, now, u.leaseMs, order);
      EvolvesTrans(s, s1, s');
    } else if granted.None? && a.speculate {
      ReplicaEvolves(s1, a.worker, now, u.leaseMs, a.threshold, order);
      EvolvesTrans(s, s1, s');
    }
  }

  lemma NewJobEvolves(s: State, s': State)
    requires Ids(s) && s'.tasks == s.tasks && s'.dirtyTasks == s.dirtyTasks
    requires s.nextId in s'.jobs && s'.jobs == s.jobs[s.nextId := s'.jobs[s.nextId]]
    requires s'.dirtyJobs == s.dirtyJobs + {s.nextId}
    ensures Evolves(s, s')
  {
  }

  lemma LeaseChangeEvolves(u: Setup, s: State, e: Event)
    requires e.RenewRequest? || e.ReleaseRequest?
    ensures Evolves(s, Step(u, s, e))
  {
    var s' := Step(u, s, e);
    if s' != s {
      if e.RenewRequest? {
        PutEvolves(s, s', e.task);
      } else {
        RequeueEvolves(s, e.task, Release);
      }
    }
  }

  lemma StepEvolves(u: Setup, s: State, e: Event)
    requires Core(s)
    ensures Evolves(s, Step(u, s, e))
  {
    var s' := Step(u, s, e);
    match e
    case NewJob(_, _, _, _) => NewJobEvolves(s, s');
    case NewRender(_, _, _, _) => NewJobEvolves(s, s');
    case RenewRequest(_, _, _) => LeaseChangeEvolves(u, s, e);
    case ReleaseRequest(_, _) => LeaseChangeEvolves(u, s, e);
    case LeaseRequest(a, now, order) => LeaseEvolves(u, s, a, now, order);
    case ResultArrived(m, seen, required, now) => ResultEvolves(u, s, m, seen, required, now);
    case SweepTimer(now, order) => RequeueAllEvolves(s, DueTasks(s, now, order), LeaseExpired);
    case WorkerGone(w, order) => RequeueAllEvolves(s, HeldTasks(s, w, order), Release);
  }

  /** Kernels stay registered, because jobs are created only for registered ones. */
  lemma StepKeepsRegistered(u: Setup, s: State, e: Event)
    requires Core(s) && Registered(u, s) && Admissible(u, s, e)
    ensures Registered(u, Step(u, s, e))
  {
    var s' := Step(u, s, e);
    StepEvolves(u, s, e);
    forall j <- s'.jobs ensures s'.jobs[j].kernel in u.kernels {
      if j !in s.jobs && e.LeaseRequest? {
        LeaseEvolves(u, s, e.ask, e.now, e.jobOrder);
      } else if j !in s.jobs && OnlyMoves(e) {
        MoveStepGood(u, s, e);
      }
    }
  }
}
