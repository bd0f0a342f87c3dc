/** Who holds what after a lease request (`OnLeaseRequest` of
    src/coordinator/session.cpp): the worker, what it held and what it is sent;
    anybody else, what they held. */
module Handouts {
  import opened Basics
  import opened TaskStates
  import opened Quorum
  import opened Coordinator
  import opened Protocol
  import opened Invariants
  import opened Growth
  import opened Effects
  import opened Serving

  function Given(r: Option<TaskId>): set<TaskId> { if r.Some? then {r.value} else {} }

  /** Worker `w` got what `r` says, and did not hold it before; nobody else
      gained or lost anything. */
  ghost predicate HandsOut(s: State, s': State, w: WorkerId, r: Option<TaskId>) {
    Given(r) !! WorkOf(s, w)
    && forall x :: WorkOf(s', x) == if x == w then WorkOf(s, x) + Given(r) else WorkOf(s, x)
  }

  lemma SameTasksSameWork(s: State, s': State, w: WorkerId)
    requires s'.tasks == s.tasks
    ensures HandsOut(s, s', w, None)
  {
    forall x ensures WorkOf(s', x) == WorkOf(s, x) {}
  }

  /** One task that was not leased is leased to `w`. */
  lemma LeasedTo(s: State, s': State, w: WorkerId, id: TaskId)
    requires id in s'.tasks && s'.tasks == s.tasks[id := s'.tasks[id]]
    requires s'.tasks[id].state.Leased? && s'.tasks[id].holder == w && (id in s.tasks ==> !s.tasks[id].state.Leased?)
    ensures HandsOut(s, s', w, Some(id))
  {
    forall x ensures WorkOf(s', x) == if x == w then WorkOf(s, x) + {id} else WorkOf(s, x) {}
  }

  /** A task `w` holds is queued again. */
  lemma TakenBack(s: State, s': State, w: WorkerId, id: TaskId, x: WorkerId)
    requires HoldsLease(s, w, id) && id in s'.tasks && s'.tasks == s.tasks[id := s'.tasks[id]] && s'.tasks[id].state.Queued?
    ensures WorkOf(s', x) == if x == w then WorkOf(s, x) - {id} else WorkOf(s, x)
  {
  }

  lemma {:induction false} CarveFirstHands(s: State, order: seq<JobId>, w: WorkerId, now: nat, lease: nat, units: nat)
    requires Ids(s)
    ensures var (s1, r) := CarveFirst(s, order, w, now, lease, units); HandsOut(s, s1, w, r)
    decreases order
  {
    hide HandsOut;
    if order == [] {
      SameTasksSameWork(s, s, w);
    } else if order[0] !in s.jobs || s.jobs[order[0]].Exhausted() {
      CarveFirstHands(s, order[1..], w, now, lease, units);
    } else {
      var (s1, r) := Carve(s, order[0], w, now, lease, units);
      if r.Some? {
        LeasedTo(s, s1, w, r.value);
      } else {
        CarveFirstHands(s1, order[1..], w, now, lease, units);
        var (s2, r2) := CarveFirst(s1, order[1..], w, now, lease, units);
        SameBefore(s, s1, s2, w, r2);
      }
    }
  }

  lemma SameBefore(s: State, s1: State, s2: State, w: WorkerId, r: Option<TaskId>)
    requires s1.tasks == s.tasks && HandsOut(s1, s2, w, r)
    ensures HandsOut(s, s2, w, r)
  {
    forall x ensures WorkOf(s1, x) == WorkOf(s, x) {}
  }

  lemma GrantHands(s: State, w: WorkerId, now: nat, lease: nat, units: nat, cached: seq<AssetId>, order: seq<JobId>)
    requires Ids(s)
    ensures var (s1, r) := GrantTask(s, w, now, lease, units, cached, order); HandsOut(s, s1, w, r)
  {
    hide HandsOut;
    match QueuePick(s, w, cached)
    case Some(k) =>
      LeasedTo(s, GrantQueued(s, w, now, lease, k), w, s.queue[k]);
    case None =>
      if units == 0 {
        SameTasksSameWork(s, s, w);
      } else {
        CarveFirstHands(s, PreferredJobs(s, cached, order) + order, w, now, lease, units);
      }
  }

  lemma Replaced(s: State, s1: State, s2: State, s3: State, w: WorkerId, granted: TaskId, id: TaskId)
    requires HandsOut(s, s1, w, Some(granted)) && HandsOut(s1, s2, w, Some(id))
    requires forall x :: WorkOf(s3, x) == if x == w then WorkOf(s2, x) - {granted} else WorkOf(s2, x)
    ensures HandsOut(s, s3, w, Some(id))
  {
    hide WorkOf;
    assert WorkOf(s1, w) == WorkOf(s, w) + {granted} && WorkOf(s2, w) == WorkOf(s1, w) + {id};
    assert granted !in WorkOf(s, w) && id !in WorkOf(s1, w);
    assert WorkOf(s3, w) == WorkOf(s, w) + {id};
  }

  lemma ProbeHands(s: State, w: WorkerId, now: nat, lease: nat, start: nat, count: nat, order: seq<JobId>)
    requires Ids(s)
    ensures var (s1, r) := IssueKnownRange(s, w, now, lease, start, count, order);
            HandsOut(s, s1, w, r) && forall id <- s.tasks :: id in s1.tasks && s1.tasks[id] == s.tasks[id]
  {
    hide HandsOut, RangeJob;
    var (s1, r) := IssueKnownRange(s, w, now, lease, start, count, order);
    if r.Some? {
      LeasedTo(s, s1, w, r.value);
    } else {
      SameTasksSameWork(s, s1, w);
    }
  }

  /** The probe takes the place of the task granted. */
  lemma SwapHands(s: State, s1: State, w: WorkerId, granted: TaskId, probe: (nat, nat), now: nat, lease: nat, order: seq<JobId>)
    requires Ids(s1) && HoldsLease(s1, w, granted) && HandsOut(s, s1, w, Some(granted))
    ensures var (s2, id) := SwapForProbe(s1, w, granted, probe, now, lease, order); HandsOut(s, s2, w, Some(id))
  {
    hide HandsOut, IssueKnownRange;
    var (s2, issued) := IssueKnownRange(s1, w, now, lease, probe.0, probe.1, order);
    ProbeHands(s1, w, now, lease, probe.0, probe.1, order);
    if issued.Some? {
      var s3 := Requeue(s2, granted, Release).value;
      forall x ensures WorkOf(s3, x) == if x == w then WorkOf(s2, x) - {granted} else WorkOf(s2, x) {
        TakenBack(s2, s3, w, granted, x);
      }
      Replaced(s, s1, s2, s3, w, granted, issued.value);
    }
  }

  lemma RaceHands(s: State, w: WorkerId, now: nat, lease: nat, threshold: real, order: seq<JobId>)
    requires Ids(s)
    ensures var (s1, r) := IssueSpeculative(s, w, now, lease, threshold, order); HandsOut(s, s1, w, r)
  {
    hide HandsOut;
    match RaceJob(s, w, threshold, order)
    case None => SameTasksSameWork(s, s, w);
    case Some(k) => LeasedTo(s, IssueSpeculative(s, w, now, lease, threshold, order).0, w, s.nextId);
  }

  lemma Unhanded(s: State, s1: State, s2: State, w: WorkerId, r: Option<TaskId>)
    requires HandsOut(s, s1, w, None) && HandsOut(s1, s2, w, r)
    ensures HandsOut(s, s2, w, r)
  {
    assert WorkOf(s1, w) == WorkOf(s, w);
  }

  lemma PickHands(u: Setup, s: State, a: Ask, now: nat, order: seq<JobId>)
    requires Core(s)
    ensures var (s1, r) := OnLease(u, s, a, now, order); HandsOut(s, s1, a.worker, r)
  {
    var (s1, granted) := GrantTask(s, a.worker, now, u.leaseMs, a.units, a.cached, order);
    GrantHands(s, a.worker, now, u.leaseMs, a.units, a.cached, order);
    GrantHeld(s, a.worker, now, u.leaseMs, a.units, a.cached, order);
    GrantKeeps(s, a.worker, now, u.leaseMs, a.units, a.cached, order);
    hide HandsOut, GrantTask, SwapForProbe, IssueSpeculative;
    if granted.Some? && a.probe.Some? {
      SwapHands(s, s1, a.worker, granted.value, a.probe.value, now, u.leaseMs, order);
    } else if granted.None? && a.speculate {
      RaceHands(s1, a.worker, now, u.leaseMs, a.threshold, order);
      Unhanded(s, s1, IssueSpeculative(s1, a.worker, now, u.leaseMs, a.threshold, order).0, a.worker,
               IssueSpeculative(s1, a.worker, now, u.leaseMs, a.threshold, order).1);
    }
  }

  lemma BackAsBefore(s: State, s1: State, w: WorkerId, id: TaskId)
    requires HandsOut(s, s1, w, Some(id)) && HoldsLease(s1, w, id)
    ensures HandsOut(s, GiveBack(s1, id), w, None)
  {
    var s2 := GiveBack(s1, id);
    forall x ensures WorkOf(s2, x) == WorkOf(s, x) {
      TakenBack(s1, s2, w, id, x);
    }
  }

  /** What is picked is handed out if it can be described to the worker; if not
      it is taken back, and it is as if nothing had been handed out. */
  lemma ServeHands(u: Setup, layouts: Layouts, s: State, a: Ask, now: nat, order: seq<JobId>)
    requires Core(s)
    ensures var (s1, r) := Serve(u, layouts, s, a, now, order); HandsOut(s, s1, a.worker, r)
  {
    hide OnLease, HandsOut, Core, Sendable;
    var (s1, picked) := OnLease(u, s, a, now, order);
    PickHands(u, s, a, now, order);
    PickedIsHeld(u, s, a, now, order);
    if picked.Some? && !Sendable(u, layouts, s1, picked.value) {
      BackAsBefore(s, s1, a.worker, picked.value);
    }
  }

  function Members(ids: seq<TaskId>): set<TaskId> { set id | id in ids }

  /** Worker `w` got the tasks of `sent`, each once, and did not hold them before;
      nobody else gained or lost anything. */
  ghost predicate HandsAll(s: State, s': State, w: WorkerId, sent: seq<TaskId>) {
    Distinct(sent) && Members(sent) !! WorkOf(s, w)
    && forall x :: WorkOf(s', x) == if x == w then WorkOf(s, x) + Members(sent) else WorkOf(s, x)
  }

  lemma NoneHanded(s: State, s': State, w: WorkerId)
    requires HandsOut(s, s', w, None)
    ensures HandsAll(s, s', w, [])
  {
    assert Members([]) == {};
  }

  lemma OneThenRest(s: State, s1: State, s2: State, w: WorkerId, id: TaskId, rest: seq<TaskId>)
    requires HandsOut(s, s1, w, Some(id)) && HandsAll(s1, s2, w, rest)
    ensures HandsAll(s, s2, w, [id] + rest)
  {
    hide WorkOf;
    assert WorkOf(s1, w) == WorkOf(s, w) + {id};
    assert id !in Members(rest) && Members([id] + rest) == {id} + Members(rest);
    forall x ensures multiset([id] + rest)[x] <= 1 {
      assert multiset(rest)[x] <= 1 && (x in rest <==> x in Members(rest));
    }
  }

  /** After the whole request the worker holds what it held and what it is sent,
      each once, and everybody else holds what they held. */
  lemma {:induction false} RequestHands(u: Setup, layouts: Layouts, s: State, asks: seq<Ask>, now: nat, order: seq<JobId>, w: WorkerId)
    requires Core(s) && Registered(u, s) && Enumerates(order, s.jobs.Keys) && forall a <- asks :: a.worker == w
    ensures var (s', sent) := ServeSlots(u, layouts, s, asks, now, order);
            |sent| <= |asks| && HandsAll(s, s', w, sent)
    decreases asks
  {
    hide Serve, HandsAll, HandsOut, Core, Registered, Enumerates;
    if asks == [] {
      SameTasksSameWork(s, s, w);
      NoneHanded(s, s, w);
    } else {
      var (s1, r) := Serve(u, layouts, s, asks[0], now, order);
      ServeHands(u, layouts, s, asks[0], now, order);
      if r.Some? {
        ServeIsSteps(u, layouts, s, asks[0], now, order);
        RunKeepsCore(u, s, ServeEvents(u, layouts, s, asks[0], now, order));
        ServeSameJobs(u, layouts, s, asks[0], now, order);
        RequestHands(u, layouts, s1, asks[1..], now, order, w);
        var (s2, rest) := ServeSlots(u, layouts, s1, asks[1..], now, order);
        OneThenRest(s, s1, s2, w, r.value, rest);
      } else {
        NoneHanded(s, s1, w);
      }
    }
  }

  /** A request that sends fewer tasks than it has slots ends with the first slot
      that sends none. */
  lemma {:induction false} StopsAtFirst(u: Setup, layouts: Layouts, s: State, asks: seq<Ask>, now: nat, order: seq<JobId>)
    ensures var (s', sent) := ServeSlots(u, layouts, s, asks, now, order);
            |sent| <= |asks|
            && var (s1, before) := ServeSlots(u, layouts, s, asks[..|sent|], now, order);
               before == sent && if |sent| < |asks| then Serve(u, layouts, s1, asks[|sent|], now, order) == (s', None) else s1 == s'
    decreases asks
  {
    hide Serve;
    var sent := ServeSlots(u, layouts, s, asks, now, order).1;
    if asks != [] {
      var (s1, r) := Serve(u, layouts, s, asks[0], now, order);
      if r.Some? {
        StopsAtFirst(u, layouts, s1, asks[1..], now, order);
        assert asks[..|sent|][1..] == asks[1..][..|sent| - 1];
      }
    }
  }
}
