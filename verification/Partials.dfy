/** Snapshots of unfinished work: what keeps one, what replaces it, and what
    becomes of it when the task changes hands or ends. */
module Partials {
  import opened Basics
  import opened TaskStates
  import opened Quorum
  import opened Coordinator
  import opened Protocol
  import opened Invariants
  import opened Growth
  import opened Quietness
  import opened Speculation
  import opened Runs

  // ---- what a step does to them -----------------------------------------------------

  /** The step delivers a snapshot that is kept. */
  ghost predicate Keeps(u: Setup, s: State, e: Event) {
    e.ResultArrived? && OnResult(u, s, e.result, e.seen, e.required, e.now).1.PartialStored?
  }

  function SnapshotOf(m: Result, now: nat): Partial {
    Partial(m.worker, m.sequence, m.unitsDone, m.payload, now)
  }

  lemma {:induction false} RequeueAllLeaves(s: State, ids: seq<TaskId>, why: TaskEvent)
    ensures RequeueAll(s, ids, why).partials == s.partials
  {
    if ids != [] {
      RequeueAllLeaves(s, ids[..|ids| - 1], why);
    }
  }

  lemma {:induction false} CancelEachLeaves(s: State, winner: TaskId, root: TaskId, ids: seq<TaskId>)
    ensures CancelEach(s, winner, root, ids).partials == s.partials
  {
    if ids != [] {
      CancelEachLeaves(s, winner, root, ids[..|ids| - 1]);
    }
  }

  lemma {:induction false} CarveFirstLeaves(s: State, order: seq<JobId>, w: WorkerId, now: nat, lease: nat, units: nat)
    ensures CarveFirst(s, order, w, now, lease, units).0.partials == s.partials
    decreases order
  {
    if order != [] {
      var s1 := if order[0] !in s.jobs || s.jobs[order[0]].Exhausted() then s else Carve(s, order[0], w, now, lease, units).0;
      CarveFirstLeaves(s1, order[1..], w, now, lease, units);
    }
  }

  lemma GrantLeaves(s: State, w: WorkerId, now: nat, lease: nat, units: nat, cached: seq<AssetId>, order: seq<JobId>)
    ensures GrantTask(s, w, now, lease, units, cached, order).0.partials == s.partials
  {
    CarveFirstLeaves(s, PreferredJobs(s, cached, order) + order, w, now, lease, units);
  }

  lemma SwapLeaves(s: State, w: WorkerId, granted: TaskId, probe: (nat, nat), now: nat, lease: nat, order: seq<JobId>)
    ensures SwapForProbe(s, w, granted, probe, now, lease, order).0.partials == s.partials
  {
    assert IssueKnownRange(s, w, now, lease, probe.0, probe.1, order).0.partials == s.partials;
  }

  lemma RaceLeaves(s: State, w: WorkerId, now: nat, lease: nat, threshold: real, order: seq<JobId>)
    ensures IssueSpeculative(s, w, now, lease, threshold, order).0.partials == s.partials
  {
  }

  lemma LeaseLeaves(u: Setup, s: State, a: Ask, now: nat, order: seq<JobId>)
    ensures OnLease(u, s, a, now, order).0.partials == s.partials
  {
    var (s1, granted) := GrantTask(s, a.worker, now, u.leaseMs, a.units, a.cached, order);
    GrantLeaves(s, a.worker, now, u.leaseMs, a.units, a.cached, order);
    if granted.Some? && a.probe.Some? {
      SwapLeaves(s1, a.worker, granted.value, a.probe.value, now, u.leaseMs, order);
    } else if granted.None? && a.speculate {
      RaceLeaves(s1, a.worker, now, u.leaseMs, a.threshold, order);
    }
  }

  /** A step keeps every snapshot but the one it replaces by a newer one, and
      that of the task it accepts. */
  lemma PartialsAfter(u: Setup, s: State, e: Event)
    requires Registered(u, s)
    ensures Keeps(u, s, e) ==>
              var id := e.result.task;
              HoldsLease(s, e.result.worker, id) && (id in s.partials ==> e.result.sequence > s.partials[id].sequence)
              && Step(u, s, e).partials == s.partials[id := SnapshotOf(e.result, e.now)]
    ensures !Keeps(u, s, e) ==> Step(u, s, e).partials == if Accepts(u, s, e) then s.partials - {e.result.task} else s.partials
  {
    match e
    case NewJob(_, _, _, _) =>
    case NewRender(_, _, _, _) =>
    case LeaseRequest(ask, now, order) => LeaseLeaves(u, s, ask, now, order);
    case RenewRequest(_, _, _) =>
    case ReleaseRequest(_, _) =>
    case ResultArrived(m, seen, required, now) => ResultPartials(u, s, e);
    case SweepTimer(now, order) => RequeueAllLeaves(s, DueTasks(s, now, order), LeaseExpired);
    case WorkerGone(w, order) => RequeueAllLeaves(s, HeldTasks(s, w, order), Release);
  }

  lemma ResultPartials(u: Setup, s: State, e: Event)
    requires e.ResultArrived?
    ensures Keeps(u, s, e) ==>
              var id := e.result.task;
              HoldsLease(s, e.result.worker, id) && (id in s.partials ==> e.result.sequence > s.partials[id].sequence)
              && Step(u, s, e).partials == s.partials[id := SnapshotOf(e.result, e.now)]
    ensures !Keeps(u, s, e) ==> Step(u, s, e).partials == if Accepts(u, s, e) then s.partials - {e.result.task} else s.partials
  {
    if Counts(u, s, e) {
      CountedPartials(u, s, e);
    }
  }

  lemma CountedPartials(u: Setup, s: State, e: Event)
    requires Counts(u, s, e)
    ensures !Keeps(u, s, e) && Step(u, s, e).partials == if Accepts(u, s, e) then s.partials - {e.result.task} else s.partials
  {
    CountingStep(u, s, e);
    var m := e.result;
    var sub := Retained(m, KernelOf(u, s, m.task));
    AcceptLeaves(AfterVote(s, m.task, sub, Action.Accept), m.task);
    if Accepts(u, s, e) {
      AcceptingResult(u, s, e);
    }
  }

  lemma AcceptLeaves(s: State, id: TaskId)
    ensures CancelSiblingsOf(s, id).partials == s.partials
  {
    if id in s.tasks && s.tasks[id].job in s.jobs {
      CancelEachLeaves(s, id, Root(s, id), s.jobs[s.tasks[id].job].tasks);
    }
  }

  // ---- whole runs: a snapshot is only ever replaced by a newer one -----------------------

  /** What was accepted stays so; each snapshot is still there or a newer one
      is, unless its task was accepted. */
  ghost predicate Newer(s: State, s': State) {
    (forall id <- s.tasks | s.tasks[id].state.Accepted? :: id in s'.tasks && s'.tasks[id].state.Accepted?)
    && forall id <- s.partials ::
         (id in s'.partials && s'.partials[id].sequence >= s.partials[id].sequence)
         || (id in s'.tasks && s'.tasks[id].state.Accepted?)
  }

  lemma NewerTrans(s: State, s1: State, s2: State)
    requires Newer(s, s1) && Newer(s1, s2)
    ensures Newer(s, s2)
  {
  }

  /** No task ended, and none was un-ended. */
  ghost predicate SameEnds(s: State, s': State) {
    forall id <- s.tasks :: id in s'.tasks && (IsTerminal(s'.tasks[id].state) <==> IsTerminal(s.tasks[id].state))
                            && (s'.tasks[id].state.Accepted? <==> s.tasks[id].state.Accepted?)
  }

  lemma GrowsKeepsEnds(s: State, s': State)
    requires Grows(s, s') && TasksOk(s) && TasksOk(s')
    ensures SameEnds(s, s')
  {
    forall id <- s.tasks ensures IsTerminal(s'.tasks[id].state) <==> IsTerminal(s.tasks[id].state) {
      assert TaskOk(s.tasks[id]) && TaskOk(s'.tasks[id]);
    }
  }

  lemma RaceSameEnds(s: State, w: WorkerId, now: nat, lease: nat, threshold: real, order: seq<JobId>)
    requires Ids(s)
    ensures SameEnds(s, IssueSpeculative(s, w, now, lease, threshold, order).0)
  {
    assert s.nextId !in s.tasks;
  }

  lemma GrantSameEnds(s: State, w: WorkerId, now: nat, lease: nat, units: nat, cached: seq<AssetId>, order: seq<JobId>)
    requires Core(s)
    ensures var s1 := GrantTask(s, w, now, lease, units, cached, order).0; Core(s1) && SameEnds(s, s1)
  {
    GrantQuiet(s, w, now, lease, units, cached, order);
    GrantKeeps(s, w, now, lease, units, cached, order);
    GrowsKeepsEnds(s, GrantTask(s, w, now, lease, units, cached, order).0);
  }

  lemma SwapSameEnds(s: State, w: WorkerId, granted: TaskId, probe: (nat, nat), now: nat, lease: nat, order: seq<JobId>)
    requires Core(s)
    ensures SameEnds(s, SwapForProbe(s, w, granted, probe, now, lease, order).0)
  {
    SwapQuiet(s, w, granted, probe, now, lease, order);
    SwapKeeps(s, w, granted, probe, now, lease, order);
    GrowsKeepsEnds(s, SwapForProbe(s, w, granted, probe, now, lease, order).0);
  }

  lemma LeaseSameEnds(u: Setup, s: State, a: Ask, now: nat, order: seq<JobId>)
    requires Core(s)
    ensures SameEnds(s, OnLease(u, s, a, now, order).0)
  {
    var (s1, granted) := GrantTask(s, a.worker, now, u.leaseMs, a.units, a.cached, order);
    GrantSameEnds(s, a.worker, now, u.leaseMs, a.units, a.cached, order);
    if granted.Some? && a.probe.Some? {
      SwapSameEnds(s1, a.worker, granted.value, a.probe.value, now, u.leaseMs, order);
    } else if granted.None? && a.speculate {
      RaceSameEnds(s1, a.worker, now, u.leaseMs, a.threshold, order);
    }
  }

  /** Only an accepting step ends a task. */
  lemma OnlyAcceptanceEnds(u: Setup, s: State, e: Event)
    requires Core(s) && Registered(u, s) && !Accepts(u, s, e)
    ensures SameEnds(s, Step(u, s, e))
  {
    if e.LeaseRequest? {
      LeaseSameEnds(u, s, e.ask, e.now, e.jobOrder);
    } else {
      StepGrows(u, s, e);
      StepKeeps(u, s, e);
      GrowsKeepsEnds(s, Step(u, s, e));
    }
  }

  /** What an acceptance makes of each task: the winner is accepted, leased
      siblings are cancelled, and all others keep their state. */
  lemma AcceptanceEnds(u: Setup, s: State, e: Event, x: TaskId)
    requires Core(s) && Registered(u, s) && Accepts(u, s, e) && x in s.tasks
    ensures var r, id := Step(u, s, e), e.result.task;
            id in s.tasks && x in r.tasks
            && (r.tasks[x].state.Accepted? <==> x == id || s.tasks[x].state.Accepted?)
            && (IsTerminal(r.tasks[x].state)
                <==> x == id || IsTerminal(s.tasks[x].state) || (Sibling(s, x, id) && s.tasks[x].state.Leased?))
  {
    AcceptingResult(u, s, e);
    var m := e.result;
    var sub := Retained(m, KernelOf(u, s, m.task));
    var s1 := AfterVote(s, m.task, sub, Action.Accept);
    AfterVoteGood(s, m.task, sub, Action.Accept);
    CancelEachIs(s1, m.task, Root(s1, m.task), s1.jobs[s1.tasks[m.task].job].tasks);
    assert TaskOk(s.tasks[x]) && (x != m.task ==> s1.tasks[x] == s.tasks[x]);
    if x != m.task {
      MovedKeepsLists(s, s1);
      CancelledRival(s, s1, m.task, x);
    }
  }

  lemma CancelledRival(s: State, s1: State, id: TaskId, x: TaskId)
    requires Ids(s1) && Lists(s1) && id in s.tasks && x in s.tasks && x != id && TaskOk(s.tasks[x])
    requires id in s1.tasks && s1.jobs == s.jobs && s1.tasks == s.tasks[id := s1.tasks[id]] && SameRange(s.tasks[id], s1.tasks[id])
    ensures s1.tasks[id].job in s1.jobs
    ensures x in s1.jobs[s1.tasks[id].job].tasks && Cancellable(s1, id, Root(s1, id), x)
            <==> Sibling(s, x, id) && s.tasks[x].state.Leased?
  {
    assert Root(s1, id) == Root(s, id) && s1.tasks[x] == s.tasks[x];
    assert s1.tasks[id].replicaOf != NIL ==> IsReplica(s1, id);
    if Sibling(s, x, id) {
      FamilyIsListed(s1, id, x);
    }
  }

  lemma StepNewer(u: Setup, s: State, e: Event)
    requires Core(s) && Registered(u, s)
    ensures Newer(s, Step(u, s, e))
  {
    PartialsAfter(u, s, e);
    if Accepts(u, s, e) {
      AcceptingResult(u, s, e);
      AcceptanceEnds(u, s, e, e.result.task);
      forall id <- s.tasks | s.tasks[id].state.Accepted? ensures id in Step(u, s, e).tasks && Step(u, s, e).tasks[id].state.Accepted? {
        AcceptanceEnds(u, s, e, id);
      }
    } else {
      OnlyAcceptanceEnds(u, s, e);
    }
  }

  /** Over any run, whoever holds the task meanwhile. */
  lemma {:induction false} RunNewer(u: Setup, s: State, es: seq<Event>)
    requires Safe(u, s) && Run(u, s, es)
    ensures Newer(s, Final(u, s, es))
    decreases es
  {
    if es != [] {
      StepSafe(u, s, es[0]);
      StepNewer(u, s, es[0]);
      RunNewer(u, Step(u, s, es[0]), es[1..]);
      NewerTrans(s, Step(u, s, es[0]), Final(u, s, es));
    }
  }

  // ---- proof of life -------------------------------------------------------------------------

  /** A readable snapshot of unfinished work, from whoever holds the task. */
  ghost predicate ShowsLife(s: State, e: Event) {
    e.ResultArrived? && !e.seen && e.result.lengthOk && e.result.intact && HoldsLease(s, e.result.worker, e.result.task)
    && 0 < e.result.unitsDone < s.tasks[e.result.task].count
  }

  /** It renews the lease if, and only if, it is numbered above the snapshot
      held; otherwise nothing at all happens. */
  lemma RenewsIffNewer(u: Setup, s: State, e: Event)
    requires ShowsLife(s, e)
    ensures var id := e.result.task;
            if id in s.partials && e.result.sequence <= s.partials[id].sequence
            then !Keeps(u, s, e) && Step(u, s, e) == s
            else Keeps(u, s, e) && id in Step(u, s, e).tasks && Step(u, s, e).tasks[id].deadline == e.now + u.leaseMs
  {
  }

  /** The number held is not the holder's own: it outlives the lease it was
      sent under. After any run a new holder must outrun it to be heard. */
  lemma NewHolderMustOutrun(u: Setup, s: State, es: seq<Event>, e: Event)
    requires Safe(u, s) && Run(u, s, es)
    requires var s' := Final(u, s, es);
             ShowsLife(s', e) && e.result.task in s.partials && e.result.sequence <= s.partials[e.result.task].sequence
    ensures Step(u, Final(u, s, es), e) == Final(u, s, es)
  {
    RunNewer(u, s, es);
    RenewsIffNewer(u, Final(u, s, es), e);
  }

  // ---- what is left behind ---------------------------------------------------------------------

  /** Snapshots are held of unfinished tasks only. */
  ghost predicate NoneLeftBehind(s: State) {
    forall id <- s.partials :: id in s.tasks && !IsTerminal(s.tasks[id].state)
  }

  /** Somebody is at work on the same range, and has sent a snapshot. */
  ghost predicate RivalSnapshot(s: State, winner: TaskId) {
    exists x :: Sibling(s, x, winner) && x != winner && s.tasks[x].state.Leased? && x in s.partials
  }

  /** A step frees the snapshots of the tasks it ends if, and only if, it does
      not cancel a sibling that had sent one. */
  lemma StepLeavesNoneIff(u: Setup, s: State, e: Event)
    requires Core(s) && Registered(u, s) && NoneLeftBehind(s)
    ensures NoneLeftBehind(Step(u, s, e)) <==> (Accepts(u, s, e) ==> !RivalSnapshot(s, e.result.task))
  {
    PartialsAfter(u, s, e);
    if Accepts(u, s, e) {
      AcceptedLeavesNoneIff(u, s, e);
    } else {
      OnlyAcceptanceEnds(u, s, e);
    }
  }

  lemma AcceptedLeavesNoneIff(u: Setup, s: State, e: Event)
    requires Core(s) && Registered(u, s) && NoneLeftBehind(s) && Accepts(u, s, e)
    ensures NoneLeftBehind(Step(u, s, e)) <==> !RivalSnapshot(s, e.result.task)
  {
    PartialsAfter(u, s, e);
    var r, id := Step(u, s, e), e.result.task;
    if RivalSnapshot(s, id) {
      var x :| Sibling(s, x, id) && x != id && s.tasks[x].state.Leased? && x in s.partials;
      AcceptanceEnds(u, s, e, x);
      assert x in r.partials;
    } else {
      forall x <- r.partials ensures x in r.tasks && !IsTerminal(r.tasks[x].state) {
        AcceptanceEnds(u, s, e, x);
      }
    }
  }
}
