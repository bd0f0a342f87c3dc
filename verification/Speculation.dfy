/** Racing a straggler: who is cancelled, who is not, and what it costs. */
module Speculation {
  import opened Basics
  import opened TaskStates
  import opened Quorum
  import opened Coordinator
  import opened Protocol
  import opened Invariants
  import opened Growth
  import opened Quietness

  // ---- what cancelling the siblings does, task by task ---------------------------

  /** Exactly the cancellable members of `ids` are cancelled. */
  lemma {:induction false} CancelEachIs(s: State, winner: TaskId, root: TaskId, ids: seq<TaskId>)
    ensures var r := CancelEach(s, winner, root, ids);
            r.jobs == s.jobs && r.nextId == s.nextId && r.tasks.Keys == s.tasks.Keys
            && forall x <- s.tasks :: r.tasks[x]
                 == if x in ids && Cancellable(s, winner, root, x)
                    then s.tasks[x].(state := Cancelled, holder := NIL, deadline := 0) else s.tasks[x]
  {
    if ids != [] {
      var init, last := ids[..|ids| - 1], ids[|ids| - 1];
      CancelEachIs(s, winner, root, init);
      assert forall x :: x in ids <==> x in init || x == last;
    }
  }

  /** Every other member of the winner's family is finished. */
  ghost predicate FamilyClosed(s: State, winner: TaskId) {
    forall x | Sibling(s, x, winner) && x != winner :: IsTerminal(s.tasks[x].state)
  }

  ghost predicate QueuedSibling(s: State, winner: TaskId) {
    exists x :: Sibling(s, x, winner) && x != winner && s.tasks[x].state.Queued?
  }

  /** A family is the root and its replicas, all listed by the job. */
  lemma FamilyIsListed(s: State, winner: TaskId, x: TaskId)
    requires Ids(s) && Lists(s) && Sibling(s, x, winner) && x != winner
    ensures var root := Root(s, winner);
            (x == root || s.tasks[x].replicaOf == root) && s.tasks[x].job == s.tasks[winner].job
            && x in s.jobs[s.tasks[winner].job].tasks
  {
    assert s.tasks[x].replicaOf != NIL ==> IsReplica(s, x);
    assert s.tasks[winner].replicaOf != NIL ==> IsReplica(s, winner);
  }

  /** A listed sibling is finished after the cancelling unless it was queued before. */
  lemma SiblingAfterCancel(s: State, winner: TaskId, x: TaskId)
    requires winner in s.tasks && x in s.tasks && x != winner && TaskOk(s.tasks[x]) && s.tasks[winner].job in s.jobs
    requires (x == Root(s, winner) || s.tasks[x].replicaOf == Root(s, winner)) && x in s.jobs[s.tasks[winner].job].tasks
    ensures var r := CancelSiblingsOf(s, winner);
            x in r.tasks && (IsTerminal(r.tasks[x].state) <==> !s.tasks[x].state.Queued?)
            && (r.tasks[x].state.Cancelled? <==> s.tasks[x].state.Leased? || s.tasks[x].state.Cancelled?)
  {
    CancelEachIs(s, winner, Root(s, winner), s.jobs[s.tasks[winner].job].tasks);
  }

  /** Cancelling the siblings of an accepted task closes its family if, and
      only if, no sibling was waiting in the queue: a queued task cannot be
      cancelled. */
  lemma CancelClosesFamilyIff(s: State, winner: TaskId)
    requires Ids(s) && Lists(s) && TasksOk(s) && winner in s.tasks && s.tasks[winner].state.Accepted?
    ensures FamilyClosed(CancelSiblingsOf(s, winner), winner) <==> !QueuedSibling(s, winner)
  {
    var r := CancelSiblingsOf(s, winner);
    CancelEachIs(s, winner, Root(s, winner), s.jobs[s.tasks[winner].job].tasks);
    forall x | Sibling(s, x, winner) && x != winner
      ensures Sibling(r, x, winner) && (IsTerminal(r.tasks[x].state) <==> !s.tasks[x].state.Queued?)
    {
      FamilyIsListed(s, winner, x);
      SiblingAfterCancel(s, winner, x);
    }
    forall x | Sibling(r, x, winner) ensures Sibling(s, x, winner) {}
  }

  // ---- the cost ------------------------------------------------------------------------------

  /** The sizes of the cancelled tasks with ids below `n`. */
  function CancelledUnits(tasks: map<TaskId, Task>, n: nat): nat {
    if n == 0 then 0
    else CancelledUnits(tasks, n - 1)
         + if n - 1 in tasks && tasks[n - 1].state.Cancelled? then tasks[n - 1].count else 0
  }

  ghost predicate WastedOk(s: State) {
    s.wasted == CancelledUnits(s.tasks, s.nextId)
  }

  lemma {:induction false} CancelledUnitsSame(a: map<TaskId, Task>, b: map<TaskId, Task>, n: nat)
    requires forall id | id < n :: (id in a && a[id].state.Cancelled?) <==> (id in b && b[id].state.Cancelled?)
    requires forall id | id < n && id in a && id in b && a[id].state.Cancelled? :: a[id].count == b[id].count
    ensures CancelledUnits(a, n) == CancelledUnits(b, n)
  {
    if n > 0 {
      CancelledUnitsSame(a, b, n - 1);
    }
  }

  lemma {:induction false} CancelledUnitsPut(a: map<TaskId, Task>, id: TaskId, t: Task, n: nat)
    requires id < n && id in a && !a[id].state.Cancelled? && t.state.Cancelled? && t.count == a[id].count
    ensures CancelledUnits(a[id := t], n) == CancelledUnits(a, n) + t.count
  {
    if id == n - 1 {
      CancelledUnitsSame(a, a[id := t], n - 1);
    } else {
      CancelledUnitsPut(a, id, t, n - 1);
    }
  }

  lemma {:induction false} CancelledUnitsGrow(a: map<TaskId, Task>, m: nat, n: nat)
    requires m <= n && forall id <- a | id >= m :: !a[id].state.Cancelled?
    ensures CancelledUnits(a, n) == CancelledUnits(a, m)
  {
    if m < n {
      CancelledUnitsGrow(a, m, n - 1);
    }
  }

  lemma {:induction false} CancelEachCounts(s: State, winner: TaskId, root: TaskId, ids: seq<TaskId>)
    requires Ids(s) && WastedOk(s)
    ensures WastedOk(CancelEach(s, winner, root, ids))
  {
    if ids != [] {
      var s1, last := CancelEach(s, winner, root, ids[..|ids| - 1]), ids[|ids| - 1];
      CancelEachCounts(s, winner, root, ids[..|ids| - 1]);
      CancelEachIs(s, winner, root, ids[..|ids| - 1]);
      if Cancellable(s1, winner, root, last) {
        var t := s1.tasks[last].(state := Cancelled, holder := NIL, deadline := 0);
        CancelledUnitsPut(s1.tasks, last, t, s1.nextId);
      }
    }
  }

  // ---- one accepted answer per family -----------------------------------------------------------

  /** Once a family has an accepted member all others are cancelled, and no
      original was ever raced twice. */
  ghost predicate OneWinner(s: State) {
    (forall a, b | Sibling(s, a, b) && a != b && s.tasks[a].state.Accepted? :: s.tasks[b].state.Cancelled?)
    && (forall a <- s.tasks, b <- s.tasks | s.tasks[a].replicaOf == s.tasks[b].replicaOf != NIL :: a == b)
  }

  lemma GrowsKeepsOneWinner(s: State, s': State)
    requires Ids(s) && Lists(s) && OneWinner(s) && Grows(s, s')
    ensures OneWinner(s')
  {
    forall a, b | Sibling(s', a, b) && a != b && s'.tasks[a].state.Accepted? ensures s'.tasks[b].state.Cancelled? {
      assert a in s.tasks;
      assert s.tasks[a].replicaOf != NIL ==> IsReplica(s, a);
      assert b in s.tasks && Sibling(s, a, b);
    }
  }

  lemma GrowsKeepsWasted(s: State, s': State)
    requires Ids(s) && WastedOk(s) && Grows(s, s')
    ensures WastedOk(s')
  {
    CancelledUnitsGrow(s'.tasks, s.nextId, s'.nextId);
    CancelledUnitsSame(s.tasks, s'.tasks, s.nextId);
  }

  /** A race is opened only over an original that was never raced. */
  lemma NeverRaced(s: State, j: JobId, id: TaskId, w: WorkerId, c: TaskId)
    requires Lists(s) && TasksOk(s) && Families(s) && OneWinner(s) && j in s.jobs && id in s.jobs[j].tasks
    requires Raceable(s, w, s.jobs[j].tasks, id) && c in s.tasks && id != NIL
    ensures s.tasks[c].replicaOf != id
  {
    if s.tasks[c].replicaOf == id {
      assert IsReplica(s, c) && !LiveReplica(s, id, c) && TaskOk(s.tasks[c]);
      assert Sibling(s, c, id);
      if s.tasks[c].state.Cancelled? {
        var a :| Sibling(s, a, c) && s.tasks[a].state.Accepted?;
        assert Sibling(s, a, id);
      }
    }
  }

  /** Task `n` joins the family of the unraced, unfinished original `id`. */
  lemma ReplicaKeepsOneWinner(s: State, s': State, n: TaskId, t: Task, id: TaskId)
    requires Ids(s) && Lists(s) && OneWinner(s) && id in s.tasks && n !in s.tasks
    requires s.tasks[id].replicaOf == NIL && !IsTerminal(s.tasks[id].state)
    requires s'.tasks == s.tasks[n := t] && t.state.Leased? && t.replicaOf == id
    requires forall c <- s.tasks :: s.tasks[c].replicaOf != id
    ensures OneWinner(s')
  {
    forall a, b | Sibling(s', a, b) && a != b && s'.tasks[a].state.Accepted? ensures s'.tasks[b].state.Cancelled? {
      assert s.tasks[a].replicaOf != NIL ==> IsReplica(s, a);
      assert b != n;
      assert Sibling(s, a, b);
    }
  }

  lemma RaceKeepsOneWinner(s: State, j: JobId, id: TaskId, w: WorkerId, now: nat, lease: nat)
    requires Core(s) && OneWinner(s) && j in s.jobs && id in s.jobs[j].tasks && Raceable(s, w, s.jobs[j].tasks, id)
    ensures OneWinner(AddReplica(s, j, id, w, now, lease))
  {
    assert id in s.tasks && NIL < id;
    forall c <- s.tasks ensures s.tasks[c].replicaOf != id {
      NeverRaced(s, j, id, w, c);
    }
    var s' := AddReplica(s, j, id, w, now, lease);
    ReplicaKeepsOneWinner(s, s', s.nextId, s'.tasks[s.nextId], id);
  }

  // ---- the accepting vote ------------------------------------------------------------------------

  /** `id`, at work before, is accepted; nothing else is, and nothing is un-cancelled. */
  ghost predicate Decides(s: State, r: State, id: TaskId) {
    id in s.tasks && s.tasks[id].state.Leased? && r.tasks.Keys == s.tasks.Keys
    && (forall x <- s.tasks :: SameRange(s.tasks[x], r.tasks[x]) && TaskOk(r.tasks[x]))
    && (forall x <- s.tasks :: r.tasks[x].state.Accepted? <==> s.tasks[x].state.Accepted? || x == id)
    && (forall x <- s.tasks | s.tasks[x].state.Cancelled? :: r.tasks[x].state.Cancelled?)
  }

  lemma DecidesOneWinnerIff(s: State, r: State, id: TaskId)
    requires OneWinner(s) && Decides(s, r, id)
    ensures OneWinner(r) <==> FamilyClosed(r, id)
  {
    forall a, b ensures Sibling(r, a, b) <==> Sibling(s, a, b) {
      assert a in s.tasks ==> SameRange(s.tasks[a], r.tasks[a]);
      assert b in s.tasks ==> SameRange(s.tasks[b], r.tasks[b]);
    }
    if FamilyClosed(r, id) {
      forall a, b | Sibling(r, a, b) && a != b && r.tasks[a].state.Accepted? ensures r.tasks[b].state.Cancelled? {
        assert Sibling(r, b, a) && Sibling(s, b, a) && TaskOk(r.tasks[b]);
      }
    } else {
      var x :| Sibling(r, x, id) && x != id && !IsTerminal(r.tasks[x].state);
      assert Sibling(r, id, x);
    }
  }

  lemma CancelDecides(s: State, s1: State, id: TaskId, t: Task)
    requires id in s.tasks && s.tasks[id].state.Leased? && t.state.Accepted? && SameRange(s.tasks[id], t)
    requires s1.tasks == s.tasks[id := t]
    requires TasksOk(CancelSiblingsOf(s1, id))
    ensures Decides(s, CancelSiblingsOf(s1, id), id)
  {
    var r := CancelSiblingsOf(s1, id);
    if t.job in s1.jobs {
      CancelEachIs(s1, id, Root(s1, id), s1.jobs[t.job].tasks);
    }
    assert r.tasks.Keys == s.tasks.Keys;
    forall x <- s.tasks
      ensures SameRange(s.tasks[x], r.tasks[x])
      ensures r.tasks[x].state.Accepted? <==> s.tasks[x].state.Accepted? || x == id
      ensures s.tasks[x].state.Cancelled? ==> r.tasks[x].state.Cancelled?
    {
      assert s1.tasks[x] == if x == id then t else s.tasks[x];
      assert r.tasks[x] == s1.tasks[x] || Cancellable(s1, id, Root(s1, id), x);
    }
  }

  /** Accepting `id` and cancelling its siblings leaves one winner if, and only
      if, no sibling was queued. */
  lemma AcceptOneWinnerIff(s: State, id: TaskId, sub: Submission)
    requires Core(s) && OneWinner(s) && HoldsLease(s, sub.worker, id)
    ensures OneWinner(CancelSiblingsOf(AfterVote(s, id, sub, Action.Accept), id)) <==> !QueuedSibling(s, id)
  {
    var s1 := AfterVote(s, id, sub, Action.Accept);
    AfterVoteGood(s, id, sub, Action.Accept);
    MovedKeepsLists(s, s1);
    CancelSiblingsGood(s1, id);
    CancelDecides(s, s1, id, s1.tasks[id]);
    DecidesOneWinnerIff(s, CancelSiblingsOf(s1, id), id);
    CancelClosesFamilyIff(s1, id);
    SameQueuedSibling(s, s1, id);
  }

  lemma SameQueuedSibling(s: State, s1: State, id: TaskId)
    requires id in s.tasks && id in s1.tasks && s1.tasks == s.tasks[id := s1.tasks[id]]
    requires SameRange(s.tasks[id], s1.tasks[id])
    ensures QueuedSibling(s1, id) <==> QueuedSibling(s, id)
  {
    forall x ensures Sibling(s1, x, id) <==> Sibling(s, x, id) {}
  }

  // ---- every step ------------------------------------------------------------------------------------

  /** The step accepts an answer for `e.result.task`. */
  ghost predicate Accepts(u: Setup, s: State, e: Event) {
    Counts(u, s, e) && OnResult(u, s, e.result, e.seen, e.required, e.now).1.verdict.action.Accept?
  }

  /** An accepting step is the accepting vote. */
  lemma AcceptingResult(u: Setup, s: State, e: Event)
    requires Accepts(u, s, e)
    ensures CanCount(u, s, e.result)
    ensures Verdicted(u, s, e.result, e.required).action.Accept?
    ensures var m := e.result;
            Step(u, s, e) == CancelSiblingsOf(AfterVote(s, m.task, Retained(m, KernelOf(u, s, m.task)), Action.Accept), m.task)
  {
    var m := e.result;
    VoteIs(s, m.task, Retained(m, KernelOf(u, s, m.task)), KernelOf(u, s, m.task), u.quorum.(required := e.required));
  }

  lemma PendingVoteGrows(s: State, id: TaskId, sub: Submission, action: Action)
    requires HoldsLease(s, sub.worker, id) && !action.Accept?
    ensures Grows(s, AfterVote(s, id, sub, action))
  {
    MoveGrows(s, AfterVote(s, id, sub, action), id, AfterVote(s, id, sub, action).tasks[id]);
  }

  /** Every step that neither accepts nor hands out work decides nothing. */
  lemma StepGrows(u: Setup, s: State, e: Event)
    requires Registered(u, s) && Ids(s) && !Accepts(u, s, e) && !e.LeaseRequest?
    ensures Grows(s, Step(u, s, e))
  {
    if Counts(u, s, e) {
      CountingStep(u, s, e);
      var m := e.result;
      VoteIs(s, m.task, Retained(m, KernelOf(u, s, m.task)), KernelOf(u, s, m.task), u.quorum.(required := e.required));
      PendingVoteGrows(s, m.task, Retained(m, KernelOf(u, s, m.task)), Verdicted(u, s, m, e.required).action);
    } else {
      StepQuiet(u, s, e);
    }
  }

  lemma LeaseOneWinner(u: Setup, s: State, a: Ask, now: nat, order: seq<JobId>)
    requires Core(s) && OneWinner(s)
    ensures OneWinner(OnLease(u, s, a, now, order).0)
  {
    var (s1, granted) := GrantTask(s, a.worker, now, u.leaseMs, a.units, a.cached, order);
    GrantKeeps(s, a.worker, now, u.leaseMs, a.units, a.cached, order);
    GrantQuiet(s, a.worker, now, u.leaseMs, a.units, a.cached, order);
    GrowsKeepsOneWinner(s, s1);
    if granted.Some? && a.probe.Some? {
      SwapQuiet(s1, a.worker, granted.value, a.probe.value, now, u.leaseMs, order);
      GrowsKeepsOneWinner(s1, SwapForProbe(s1, a.worker, granted.value, a.probe.value, now, u.leaseMs, order).0);
    } else if granted.None? && a.speculate {
      match RaceJob(s1, a.worker, a.threshold, order)
      case None =>
      case Some(k) =>
        RaceKeepsOneWinner(s1, order[k], RaceIn(s1, order[k], a.worker, a.threshold).value, a.worker, now, u.leaseMs);
    }
  }

  /** A step keeps "one winner per family, one race per original" if, and only
      if, it does not accept an answer while a sibling is queued. */
  lemma StepOneWinnerIff(u: Setup, s: State, e: Event)
    requires Core(s) && Registered(u, s) && OneWinner(s)
    ensures OneWinner(Step(u, s, e)) <==> (Accepts(u, s, e) ==> !QueuedSibling(s, e.result.task))
  {
    if Accepts(u, s, e) {
      AcceptingResult(u, s, e);
      AcceptOneWinnerIff(s, e.result.task, Retained(e.result, KernelOf(u, s, e.result.task)));
    } else if e.LeaseRequest? {
      LeaseOneWinner(u, s, e.ask, e.now, e.jobOrder);
    } else {
      StepGrows(u, s, e);
      GrowsKeepsOneWinner(s, Step(u, s, e));
    }
  }

  // ---- the cost, over every step -----------------------------------------------------------------------

  lemma RaceKeepsWasted(s: State, w: WorkerId, now: nat, lease: nat, threshold: real, order: seq<JobId>)
    requires Ids(s) && WastedOk(s)
    ensures WastedOk(IssueSpeculative(s, w, now, lease, threshold, order).0)
  {
    var s' := IssueSpeculative(s, w, now, lease, threshold, order).0;
    CancelledUnitsGrow(s'.tasks, s.nextId, s'.nextId);
    CancelledUnitsSame(s.tasks, s'.tasks, s.nextId);
  }

  lemma AfterVoteKeepsWasted(s: State, id: TaskId, sub: Submission, action: Action)
    requires WastedOk(s) && HoldsLease(s, sub.worker, id)
    ensures WastedOk(AfterVote(s, id, sub, action))
  {
    CancelledUnitsSame(s.tasks, AfterVote(s, id, sub, action).tasks, s.nextId);
  }

  lemma AfterVoteKeepsIds(s: State, id: TaskId, sub: Submission, action: Action)
    requires Ids(s) && HoldsLease(s, sub.worker, id)
    ensures Ids(AfterVote(s, id, sub, action))
  {
  }

  lemma AcceptKeepsWasted(s: State, id: TaskId, sub: Submission)
    requires Ids(s) && WastedOk(s) && HoldsLease(s, sub.worker, id)
    ensures WastedOk(CancelSiblingsOf(AfterVote(s, id, sub, Action.Accept), id))
  {
    var s1 := AfterVote(s, id, sub, Action.Accept);
    AfterVoteKeepsWasted(s, id, sub, Action.Accept);
    AfterVoteKeepsIds(s, id, sub, Action.Accept);
    CancelEachCounts(s1, id, Root(s1, id), s1.jobs[s1.tasks[id].job].tasks);
  }

  /** `wasted` is always the total size of the cancelled tasks. */
  lemma StepKeepsWasted(u: Setup, s: State, e: Event)
    requires Core(s) && Registered(u, s) && WastedOk(s)
    ensures WastedOk(Step(u, s, e))
  {
    if Accepts(u, s, e) {
      AcceptingResult(u, s, e);
      AcceptKeepsWasted(s, e.result.task, Retained(e.result, KernelOf(u, s, e.result.task)));
    } else if e.LeaseRequest? {
      var a, order := e.ask, e.jobOrder;
      var (s1, granted) := GrantTask(s, a.worker, e.now, u.leaseMs, a.units, a.cached, order);
      GrantKeeps(s, a.worker, e.now, u.leaseMs, a.units, a.cached, order);
      GrantQuiet(s, a.worker, e.now, u.leaseMs, a.units, a.cached, order);
      GrowsKeepsWasted(s, s1);
      if granted.Some? && a.probe.Some? {
        SwapQuiet(s1, a.worker, granted.value, a.probe.value, e.now, u.leaseMs, order);
        GrowsKeepsWasted(s1, SwapForProbe(s1, a.worker, granted.value, a.probe.value, e.now, u.leaseMs, order).0);
      }
      RaceKeepsWasted(s1, a.worker, e.now, u.leaseMs, a.threshold, order);
    } else {
      StepGrows(u, s, e);
      GrowsKeepsWasted(s, Step(u, s, e));
    }
  }
}
