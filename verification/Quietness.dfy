/** Steps that decide nothing: no answer is counted, nothing is accepted or
    cancelled. */
module Quietness {
  import opened Basics
  import opened TaskStates
  import opened Quorum
  import opened Coordinator
  import opened Protocol
  import opened Invariants
  import opened Growth

  /** Nothing is accepted or cancelled; new tasks, if any, are originals at work. */
  ghost predicate Grows(s: State, s': State) {
    s'.wasted == s.wasted && s.nextId <= s'.nextId
    && (forall id <- s.tasks :: id in s'.tasks && SameRange(s.tasks[id], s'.tasks[id])
          && (s'.tasks[id].state.Accepted? <==> s.tasks[id].state.Accepted?)
          && (s'.tasks[id].state.Cancelled? <==> s.tasks[id].state.Cancelled?))
    && (forall id <- s'.tasks | id !in s.tasks ::
          id >= s.nextId && !s'.tasks[id].state.Accepted? && !s'.tasks[id].state.Cancelled? && s'.tasks[id].replicaOf == NIL)
  }

  /** No answer was counted or dropped either; new tasks have none. */
  ghost predicate Quiet(s: State, s': State) {
    Grows(s, s')
    && (forall id <- s.tasks :: s'.tasks[id].submissions == s.tasks[id].submissions)
    && (forall id <- s'.tasks | id !in s.tasks :: s'.tasks[id].submissions == [])
  }

  lemma QuietTrans(s: State, s1: State, s2: State)
    requires Quiet(s, s1) && Quiet(s1, s2)
    ensures Quiet(s, s2)
  {
    forall id <- s.tasks ensures SameRange(s.tasks[id], s2.tasks[id]) {
      assert SameRange(s.tasks[id], s1.tasks[id]) && SameRange(s1.tasks[id], s2.tasks[id]);
    }
  }

  /** Rewriting one task, without deciding it or touching its answers. */
  lemma PutQuiet(s: State, s': State, id: TaskId, t: Task)
    requires id in s.tasks && s'.tasks == s.tasks[id := t] && SameRange(s.tasks[id], t)
    requires !IsTerminal(s.tasks[id].state) && !t.state.Accepted? && !t.state.Cancelled?
    requires t.submissions == s.tasks[id].submissions
    requires s'.wasted == s.wasted && s'.nextId == s.nextId
    ensures Quiet(s, s')
  {
  }

  /** A new original at work. */
  lemma AddQuiet(s: State, s': State, id: TaskId, t: Task)
    requires id !in s.tasks && s.nextId <= id && s'.tasks == s.tasks[id := t]
    requires t.state.Leased? && t.replicaOf == NIL && t.submissions == []
    requires s'.wasted == s.wasted && s.nextId <= s'.nextId
    ensures Quiet(s, s')
  {
  }

  lemma RequeueQuiet(s: State, id: TaskId, why: TaskEvent)
    requires why in {Release, LeaseExpired}
    ensures Quiet(s, Requeue(s, id, why).GetOr(s))
  {
    var r := Requeue(s, id, why);
    if r.Some? {
      PutQuiet(s, r.value, id, r.value.tasks[id]);
    }
  }

  lemma {:induction false} RequeueAllQuiet(s: State, ids: seq<TaskId>, why: TaskEvent)
    requires why in {Release, LeaseExpired}
    ensures Quiet(s, RequeueAll(s, ids, why))
  {
    if ids != [] {
      var s1 := RequeueAll(s, ids[..|ids| - 1], why);
      RequeueAllQuiet(s, ids[..|ids| - 1], why);
      RequeueQuiet(s1, ids[|ids| - 1], why);
      QuietTrans(s, s1, RequeueAll(s, ids, why));
    }
  }

  lemma {:induction false} CarveFirstQuiet(s: State, order: seq<JobId>, w: WorkerId, now: nat, lease: nat, units: nat)
    requires Ids(s)
    ensures Quiet(s, CarveFirst(s, order, w, now, lease, units).0)
    decreases order
  {
    if order == [] {
    } else if order[0] !in s.jobs || s.jobs[order[0]].Exhausted() {
      CarveFirstQuiet(s, order[1..], w, now, lease, units);
    } else {
      var (s1, r) := Carve(s, order[0], w, now, lease, units);
      if r.None? {
        CarveFirstQuiet(s1, order[1..], w, now, lease, units);
        QuietTrans(s, s1, CarveFirst(s1, order[1..], w, now, lease, units).0);
      }
    }
  }

  lemma GrantQuiet(s: State, w: WorkerId, now: nat, lease: nat, units: nat, cached: seq<AssetId>, order: seq<JobId>)
    requires Ids(s)
    ensures Quiet(s, GrantTask(s, w, now, lease, units, cached, order).0)
  {
    match QueuePick(s, w, cached)
    case Some(k) =>
      var s' := GrantQueued(s, w, now, lease, k);
      PutQuiet(s, s', s.queue[k], s'.tasks[s.queue[k]]);
    case None =>
      CarveFirstQuiet(s, PreferredJobs(s, cached, order) + order, w, now, lease, units);
  }

  lemma ProbeQuiet(s: State, w: WorkerId, now: nat, lease: nat, start: nat, count: nat, order: seq<JobId>)
    requires Ids(s)
    ensures Quiet(s, IssueKnownRange(s, w, now, lease, start, count, order).0)
  {
    var (s', r) := IssueKnownRange(s, w, now, lease, start, count, order);
    if r.Some? {
      AddQuiet(s, s', r.value, s'.tasks[r.value]);
    }
  }

  lemma SwapQuiet(s: State, w: WorkerId, granted: TaskId, probe: (nat, nat), now: nat, lease: nat, order: seq<JobId>)
    requires Ids(s)
    ensures Quiet(s, SwapForProbe(s, w, granted, probe, now, lease, order).0)
  {
    var s1 := IssueKnownRange(s, w, now, lease, probe.0, probe.1, order).0;
    ProbeQuiet(s, w, now, lease, probe.0, probe.1, order);
    RequeueQuiet(s1, granted, Release);
    QuietTrans(s, s1, Requeue(s1, granted, Release).GetOr(s1));
  }

  lemma MoveGrows(s: State, s': State, id: TaskId, t: Task)
    requires id in s.tasks && s'.tasks == s.tasks[id := t] && SameRange(s.tasks[id], t)
    requires !IsTerminal(s.tasks[id].state) && !t.state.Accepted? && !t.state.Cancelled?
    requires s'.wasted == s.wasted && s'.nextId == s.nextId
    ensures Grows(s, s')
  {
  }

  lemma RenewQuiet(s: State, w: WorkerId, id: TaskId, now: nat, lease: nat)
    ensures Quiet(s, RenewLease(s, w, id, now, lease).GetOr(s))
  {
    var r := RenewLease(s, w, id, now, lease);
    if r.Some? {
      PutQuiet(s, r.value, id, r.value.tasks[id]);
    }
  }

  lemma PartialQuiet(s: State, w: WorkerId, id: TaskId, p: Partial, lease: nat)
    ensures Quiet(s, RecordPartial(s, w, id, p, lease).GetOr(s))
  {
    RenewQuiet(s, w, id, p.receivedAt, lease);
  }

  // ---- the steps that do decide ---------------------------------------------------------------

  /** The step counts an answer for `e.result.task`. */
  ghost predicate Counts(u: Setup, s: State, e: Event) {
    e.ResultArrived? && OnResult(u, s, e.result, e.seen, e.required, e.now).1.Voted?
  }

  ghost predicate CanCount(u: Setup, s: State, m: Result) {
    HoldsLease(s, m.worker, m.task)
    && s.tasks[m.task].job in s.jobs && s.jobs[s.tasks[m.task].job].kernel in u.kernels
  }

  function KernelOf(u: Setup, s: State, id: TaskId): Comparator
    requires id in s.tasks && s.tasks[id].job in s.jobs && s.jobs[s.tasks[id].job].kernel in u.kernels
  {
    u.kernels[s.jobs[s.tasks[id].job].kernel]
  }

  /** The answers the vote looks at. */
  function Answers(u: Setup, s: State, m: Result): seq<Submission>
    requires CanCount(u, s, m)
  {
    s.tasks[m.task].submissions + [Retained(m, KernelOf(u, s, m.task))]
  }

  function Verdicted(u: Setup, s: State, m: Result, required: nat): Verdict
    requires CanCount(u, s, m)
  {
    Decide(KernelOf(u, s, m.task), u.quorum.(required := required), Answers(u, s, m))
  }

  /** A counting step votes on the answers so far and this one. */
  lemma CountingStep(u: Setup, s: State, e: Event)
    requires Counts(u, s, e)
    ensures CanCount(u, s, e.result)
    ensures var m := e.result;
            var action := Verdicted(u, s, m, e.required).action;
            var s1 := AfterVote(s, m.task, Retained(m, KernelOf(u, s, m.task)), action);
            Step(u, s, e) == if action.Accept? then CancelSiblingsOf(s1, m.task) else s1
  {
    var m := e.result;
    VoteIs(s, m.task, Retained(m, KernelOf(u, s, m.task)), KernelOf(u, s, m.task), u.quorum.(required := e.required));
  }

  lemma UncountedQuiet(u: Setup, s: State, e: Event)
    requires Registered(u, s) && Ids(s) && e.ResultArrived? && !Counts(u, s, e)
    ensures Quiet(s, Step(u, s, e))
  {
    var m := e.result;
    if !e.seen && m.lengthOk && HoldsLease(s, m.worker, m.task) {
      if !m.intact {
        RequeueQuiet(s, m.task, Release);
      } else if 0 < m.unitsDone < s.tasks[m.task].count {
        PartialQuiet(s, m.worker, m.task, Partial(m.worker, m.sequence, m.unitsDone, m.payload, e.now), u.leaseMs);
      }
    }
  }

  /** Every step that neither counts an answer nor hands out work is quiet. */
  lemma StepQuiet(u: Setup, s: State, e: Event)
    requires Registered(u, s) && Ids(s) && !Counts(u, s, e) && !e.LeaseRequest?
    ensures Quiet(s, Step(u, s, e))
  {
    match e
    case ResultArrived(_, _, _, _) => UncountedQuiet(u, s, e);
    case SweepTimer(now, order) => RequeueAllQuiet(s, DueTasks(s, now, order), LeaseExpired);
    case WorkerGone(w, order) => RequeueAllQuiet(s, HeldTasks(s, w, order), Release);
    case ReleaseRequest(_, id) => RequeueQuiet(s, id, Release);
    case RenewRequest(w, id, now) => RenewQuiet(s, w, id, now, u.leaseMs);
    case NewJob(_, _, _, _) =>
    case NewRender(_, _, _, _) =>
  }
}
