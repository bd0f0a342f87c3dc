/** Honest fleets finish: every counted answer brings the end nearer, nothing
    else pushes it away for free, and somebody always has something to do. */
module Progress {
  import opened Basics
  import opened TaskStates
  import opened TileGrids
  import opened Quorum
  import opened Voting
  import opened Counting
  import opened Coordinator
  import opened Protocol
  import opened Invariants
  import opened Growth
  import opened Coverage
  import opened Quietness
  import opened Speculation
  import opened Runs
  import opened Marking
  import opened Tables
  import opened Worlds
  import opened Honesty

  // ---- sums over ids ---------------------------------------------------------------------------

  function SumTo(f: nat -> nat, n: nat): nat {
    if n == 0 then 0 else SumTo(f, n - 1) + f(n - 1)
  }

  /** `f` exceeds `g` nowhere, and falls short by `d` at `x`. */
  lemma {:induction false} SumShort(f: nat -> nat, g: nat -> nat, n: nat, x: nat, d: int)
    requires forall i | 0 <= i < n && i != x :: f(i) <= g(i)
    requires x < n ==> f(x) + d <= g(x)
    ensures SumTo(f, n) + (if x < n then d else 0) <= SumTo(g, n)
  {
    if n > 0 {
      SumShort(f, g, n - 1, x, d);
    }
  }

  lemma {:induction false} SumTail(f: nat -> nat, m: nat, n: nat)
    requires m <= n && forall i | m <= i < n :: f(i) == 0
    ensures SumTo(f, n) == SumTo(f, m)
  {
    if m < n {
      SumTail(f, m, n - 1);
    }
  }

  lemma {:induction false} SumZero(f: nat -> nat, n: nat)
    ensures SumTo(f, n) == 0 <==> forall i | 0 <= i < n :: f(i) == 0
  {
    if n > 0 {
      SumZero(f, n - 1);
    }
  }

  // ---- what is left to do ------------------------------------------------------------------------

  /** The answers an unfinished task still needs when `k` must agree. */
  function Owed(t: Task, k: nat): nat {
    if IsTerminal(t.state) || |t.submissions| >= k then 0 else k - |t.submissions|
  }

  function Left(s: State): nat -> nat {
    j => if j in s.jobs then s.jobs[j].Remaining() else 0
  }

  function Owing(s: State, k: nat): nat -> nat {
    id => if id in s.tasks then Owed(s.tasks[id], k) else 0
  }

  function Uncarved(s: State): nat { SumTo(Left(s), s.nextId) }

  function Missing(s: State, k: nat): nat { SumTo(Owing(s, k), s.nextId) }

  /** `k` answers for every unit not yet handed out, and the missing answers of
      every unfinished task. */
  function Work(s: State, k: nat): nat { k * Uncarved(s) + Missing(s, k) }

  /** `s'` has at least `d` fewer missing answers, the difference made at `x`. */
  lemma MissingShort(s: State, s': State, k: nat, x: TaskId, d: int)
    requires s.nextId <= s'.nextId && forall id <- s.tasks :: id < s.nextId
    requires forall id | id != x :: Owing(s', k)(id) <= Owing(s, k)(id)
    requires x < s'.nextId && Owing(s', k)(x) + d <= Owing(s, k)(x)
    ensures Missing(s', k) + d <= Missing(s, k)
  {
    SumTail(Owing(s, k), s.nextId, s'.nextId);
    SumShort(Owing(s', k), Owing(s, k), s'.nextId, x, d);
  }

  lemma UncarvedShort(s: State, s': State, x: JobId, d: int)
    requires s.nextId <= s'.nextId && forall j <- s.jobs :: j < s.nextId
    requires forall j | j != x :: Left(s')(j) <= Left(s)(j)
    requires x < s'.nextId && Left(s')(x) + d <= Left(s)(x)
    ensures Uncarved(s') + d <= Uncarved(s)
  {
    SumTail(Left(s), s.nextId, s'.nextId);
    SumShort(Left(s'), Left(s), s'.nextId, x, d);
  }

  /** No more work than before. */
  lemma WorkNotMore(s: State, s': State, k: nat)
    requires Ids(s) && s.nextId <= s'.nextId
    requires forall j :: Left(s')(j) <= Left(s)(j)
    requires forall id :: Owing(s', k)(id) <= Owing(s, k)(id)
    ensures Work(s', k) <= Work(s, k)
  {
    UncarvedShort(s, s', NIL, 0);
    MissingShort(s, s', k, NIL, 0);
    MulMonotone(Uncarved(s'), Uncarved(s), k);
  }

  // ---- honest fleets -------------------------------------------------------------------------------

  /** One quota for everybody, within the replica cap. */
  ghost predicate FixedQuota(u: Setup, k: nat) {
    k >= 1
    && (forall name <- u.kernels :: u.kernels[name].Exact?)
    && (if u.quorum.policy.Unreplicated? then k == 1 else k <= u.quorum.maxReplicas)
  }

  /** Every counted answer is the true one, and `k` must agree. */
  ghost predicate TruthfulEvent(u: Setup, s: State, e: Event, k: nat, truth: Truth) {
    HonestEvent(u, s, e, {}, truth) && (e.ResultArrived? ==> e.required == k)
  }

  /** An unfinished task has fewer than `k` answers. */
  ghost predicate Undecided(s: State, k: nat) {
    forall id <- s.tasks | !IsTerminal(s.tasks[id].state) :: |s.tasks[id].submissions| < k
  }

  lemma {:induction false} UnanimousTimes(subs: seq<Submission>, n: nat, x: nat)
    requires n <= |subs| && forall a :: 0 <= a < n ==> subs[a].checksum == x
    ensures Times(subs, n, x) == n
  {
    if n > 0 {
      UnanimousTimes(subs, n - 1, x);
    }
  }

  lemma UnanimousTop(subs: seq<Submission>, x: nat)
    requires forall a :: 0 <= a < |subs| ==> subs[a].checksum == x
    ensures IsTop(Checksums(subs), |subs|)
  {
    UnanimousTimes(subs, |subs|, x);
    TimesIsMultiplicity(subs, |subs|, x);
    assert Checksums(subs)[..|subs|] == Checksums(subs);
    forall y ensures multiset(Checksums(subs))[y] <= |subs| {
      assert multiset(Checksums(subs))[y] <= |multiset(Checksums(subs))|;
    }
  }

  /** Answers that all agree are accepted exactly at the quota. */
  lemma UnanimousVote(u: Setup, cfg: Config, subs: seq<Submission>, k: nat, x: nat)
    requires FixedQuota(u, k) && cfg == u.quorum.(required := k) && 1 <= |subs| <= k
    requires forall a :: 0 <= a < |subs| ==> subs[a].checksum == x
    ensures Decide(Exact, cfg, subs).action == if |subs| == k then Action.Accept else NeedMoreReplicas
  {
    UnanimousTop(subs, x);
    ExactRule(cfg, subs, |subs|);
  }

  /** In an honest fleet a task is accepted at its `k`-th answer, and not before. */
  lemma AcceptedAtQuota(u: Setup, s: State, e: Event, k: nat, truth: Truth)
    requires FixedQuota(u, k) && TruthfulEvent(u, s, e, k, truth) && Counts(u, s, e)
    requires HonestTasks(s, {}, truth) && Undecided(s, k)
    ensures CanCount(u, s, e.result)
    ensures Verdicted(u, s, e.result, k).action
            == if |s.tasks[e.result.task].submissions| + 1 == k then Action.Accept else NeedMoreReplicas
  {
    AnswersHonest(u, s, e, {}, truth);
    UnanimousVote(u, u.quorum.(required := k), Answers(u, s, e.result), k, TruthOf(truth, s.tasks[e.result.task]));
  }

  // ---- each step -----------------------------------------------------------------------------------

  lemma QuietOwing(s: State, s': State, k: nat, id: TaskId)
    requires Quiet(s, s') && TasksOk(s) && TasksOk(s')
    ensures id in s.tasks || id !in s'.tasks ==> Owing(s', k)(id) == Owing(s, k)(id)
  {
    if id in s.tasks {
      assert TaskOk(s.tasks[id]) && TaskOk(s'.tasks[id]);
    }
  }

  lemma QuietKeepsUndecided(s: State, s': State, k: nat)
    requires Quiet(s, s') && TasksOk(s) && TasksOk(s') && Undecided(s, k) && k >= 1
    ensures Undecided(s', k)
  {
    forall id <- s'.tasks | !IsTerminal(s'.tasks[id].state) ensures |s'.tasks[id].submissions| < k {
      if id in s.tasks {
        assert TaskOk(s.tasks[id]) && TaskOk(s'.tasks[id]);
      }
    }
  }

  /** A quiet step over the same tasks and jobs leaves the work as it is. */
  lemma QuietWork(s: State, s': State, k: nat)
    requires Ids(s) && Quiet(s, s') && TasksOk(s) && TasksOk(s') && s'.jobs == s.jobs && s'.tasks.Keys == s.tasks.Keys
    ensures Work(s', k) <= Work(s, k)
  {
    forall id ensures Owing(s', k)(id) <= Owing(s, k)(id) {
      QuietOwing(s, s', k, id);
    }
    WorkNotMore(s, s', k);
  }

  /** A task appears; the jobs stay. */
  lemma ExtraWork(s: State, s': State, k: nat)
    requires Ids(s) && s.nextId !in s.tasks && s'.nextId == s.nextId + 1
    requires s.nextId in s'.tasks && s'.tasks == s.tasks[s.nextId := s'.tasks[s.nextId]]
    requires forall j :: Left(s')(j) <= Left(s)(j)
    ensures Work(s', k) <= Work(s, k) + k
  {
    UncarvedShort(s, s', NIL, 0);
    MissingShort(s, s', k, s.nextId, 0 - k);
    MulMonotone(Uncarved(s'), Uncarved(s), k);
  }

  lemma TradeWork(s: State, s': State, j: JobId, k: nat)
    requires Ids(s) && j in s.jobs && s.nextId !in s.tasks && s'.nextId == s.nextId + 1
    requires s.nextId in s'.tasks && s'.tasks == s.tasks[s.nextId := s'.tasks[s.nextId]]
    requires j in s'.jobs && s'.jobs == s.jobs[j := s'.jobs[j]] && s'.jobs[j].Remaining() < s.jobs[j].Remaining()
    ensures Work(s', k) <= Work(s, k)
  {
    MissingShort(s, s', k, s.nextId, 0 - k);
    UncarvedShort(s, s', j, 1);
    MulMonotone(Uncarved(s') + 1, Uncarved(s), k);
  }

  /** A carve trades `count >= 1` units for one task. */
  lemma CarveWork(s: State, j: JobId, w: WorkerId, now: nat, lease: nat, units: nat, k: nat)
    requires Ids(s) && j in s.jobs
    ensures Work(Carve(s, j, w, now, lease, units).0, k) <= Work(s, k)
  {
    var (s', r) := Carve(s, j, w, now, lease, units);
    if r.None? {
      WorkNotMore(s, s', k);
    } else {
      TradeWork(s, s', j, k);
    }
  }

  lemma {:induction false} CarveFirstWork(s: State, order: seq<JobId>, w: WorkerId, now: nat, lease: nat, units: nat, k: nat)
    requires Core(s)
    ensures Work(CarveFirst(s, order, w, now, lease, units).0, k) <= Work(s, k)
    decreases order
  {
    if order == [] {
    } else if order[0] !in s.jobs || s.jobs[order[0]].Exhausted() {
      CarveFirstWork(s, order[1..], w, now, lease, units, k);
    } else {
      CarveWork(s, order[0], w, now, lease, units, k);
      CarveKeeps(s, order[0], w, now, lease, units);
      var (s1, r) := Carve(s, order[0], w, now, lease, units);
      if r.None? {
        CarveFirstWork(s1, order[1..], w, now, lease, units, k);
      }
    }
  }

  lemma GrantWork(s: State, w: WorkerId, now: nat, lease: nat, units: nat, cached: seq<AssetId>, order: seq<JobId>, k: nat)
    requires Core(s)
    ensures Work(GrantTask(s, w, now, lease, units, cached, order).0, k) <= Work(s, k)
  {
    hide Quiet;
    GrantQuiet(s, w, now, lease, units, cached, order);
    GrantKeeps(s, w, now, lease, units, cached, order);
    match QueuePick(s, w, cached)
    case Some(i) => QuietWork(s, GrantQueued(s, w, now, lease, i), k);
    case None => CarveFirstWork(s, PreferredJobs(s, cached, order) + order, w, now, lease, units, k);
  }

  lemma ProbeWork(s: State, w: WorkerId, now: nat, lease: nat, start: nat, count: nat, order: seq<JobId>, k: nat)
    requires Core(s)
    ensures var (s', r) := IssueKnownRange(s, w, now, lease, start, count, order);
            Work(s', k) <= Work(s, k) + if r.Some? then k else 0
  {
    var (s', r) := IssueKnownRange(s, w, now, lease, start, count, order);
    if r.Some? {
      ExtraWork(s, s', k);
    }
  }

  lemma RequeueWork(s: State, id: TaskId, k: nat)
    requires Core(s)
    ensures Work(Requeue(s, id, Release).GetOr(s), k) <= Work(s, k)
  {
    var r := Requeue(s, id, Release);
    if r.Some? {
      RequeueQuiet(s, id, Release);
      RequeueGood(s, id, Release);
      QuietWork(s, r.value, k);
    }
  }

  lemma SwapWork(s: State, w: WorkerId, granted: TaskId, probe: (nat, nat), now: nat, lease: nat, order: seq<JobId>, k: nat)
    requires Core(s)
    ensures var issued := IssueKnownRange(s, w, now, lease, probe.0, probe.1, order).1.Some?;
            Work(SwapForProbe(s, w, granted, probe, now, lease, order).0, k) <= Work(s, k) + if issued then k else 0
  {
    ProbeWork(s, w, now, lease, probe.0, probe.1, order, k);
    ProbeKeeps(s, w, now, lease, probe.0, probe.1, order);
    RequeueWork(IssueKnownRange(s, w, now, lease, probe.0, probe.1, order).0, granted, k);
  }

  lemma RaceWork(s: State, w: WorkerId, now: nat, lease: nat, threshold: real, order: seq<JobId>, k: nat)
    requires Core(s)
    ensures var (s', r) := IssueSpeculative(s, w, now, lease, threshold, order);
            Work(s', k) <= Work(s, k) + if r.Some? then k else 0
  {
    var (s', r) := IssueSpeculative(s, w, now, lease, threshold, order);
    hide Work, Families;
    if r.Some? {
      ExtraWork(s, s', k);
    }
  }

  /** The lease request was answered with a probe or with a replica. */
  ghost predicate IssuesExtra(u: Setup, s: State, e: Event) {
    e.LeaseRequest?
    && var a, order := e.ask, e.jobOrder;
       var (s1, granted) := GrantTask(s, a.worker, e.now, u.leaseMs, a.units, a.cached, order);
       if granted.Some? then
         a.probe.Some? && IssueKnownRange(s1, a.worker, e.now, u.leaseMs, a.probe.value.0, a.probe.value.1, order).1.Some?
       else
         a.speculate && IssueSpeculative(s1, a.worker, e.now, u.leaseMs, a.threshold, order).1.Some?
  }

  /** What a step may add: `k` answers for each unit of a new job, and for each
      probe or replica. */
  ghost function Charge(u: Setup, s: State, e: Event, k: nat): nat {
    match e
    case NewJob(_, total, _, _) => k * total
    case NewRender(_, r, _, _) => k * (r.grid.TileCount() * r.samplesPerTile)
    case LeaseRequest(_, _, _) => if IssuesExtra(u, s, e) then k else 0
    case _ => 0
  }

  lemma LeaseWork(u: Setup, s: State, e: Event, k: nat)
    requires Core(s) && e.LeaseRequest?
    ensures Work(Step(u, s, e), k) <= Work(s, k) + Charge(u, s, e, k)
  {
    var a, order := e.ask, e.jobOrder;
    var (s1, granted) := GrantTask(s, a.worker, e.now, u.leaseMs, a.units, a.cached, order);
    GrantKeeps(s, a.worker, e.now, u.leaseMs, a.units, a.cached, order);
    GrantWork(s, a.worker, e.now, u.leaseMs, a.units, a.cached, order, k);
    if granted.Some? && a.probe.Some? {
      SwapWork(s1, a.worker, granted.value, a.probe.value, e.now, u.leaseMs, order, k);
    } else if granted.None? && a.speculate {
      RaceWork(s1, a.worker, e.now, u.leaseMs, a.threshold, order, k);
    }
  }

  lemma NewJobUncarved(s: State, s': State, total: nat)
    requires Ids(s) && s.nextId !in s.jobs && s'.nextId == s.nextId + 1
    requires s.nextId in s'.jobs && s'.jobs == s.jobs[s.nextId := s'.jobs[s.nextId]] && s'.jobs[s.nextId].Remaining() <= total
    ensures Uncarved(s') <= Uncarved(s) + total
  {
    UncarvedShort(s, s', s.nextId, 0 - total);
  }

  lemma SameTasksMissing(s: State, s': State, k: nat)
    requires Ids(s) && s'.tasks == s.tasks && s.nextId <= s'.nextId
    ensures Missing(s', k) <= Missing(s, k)
  {
    MissingShort(s, s', k, NIL, 0);
  }

  lemma NewJobWork(s: State, s': State, k: nat, total: nat)
    requires Ids(s) && s.nextId !in s.jobs && s'.tasks == s.tasks && s'.nextId == s.nextId + 1
    requires s.nextId in s'.jobs && s'.jobs == s.jobs[s.nextId := s'.jobs[s.nextId]] && s'.jobs[s.nextId].Remaining() <= total
    ensures Work(s', k) <= Work(s, k) + k * total
  {
    SameTasksMissing(s, s', k);
    NewJobUncarved(s, s', total);
    hide Uncarved, Missing;
    MoreUnits(k, Uncarved(s'), Uncarved(s), total);
  }

  lemma MoreUnits(k: nat, after: nat, before: nat, total: nat)
    requires after <= before + total
    ensures k * after <= k * before + k * total
  {
    MulMonotone(after, before + total, k);
    assert (before + total) * k == before * k + total * k;
  }

  /** One answer fewer is missing at `id`; the jobs stay. */
  lemma WorkDrops(s: State, s': State, k: nat, id: TaskId)
    requires Ids(s) && s'.jobs == s.jobs && s'.nextId == s.nextId && id in s.tasks
    requires forall x | x != id :: Owing(s', k)(x) <= Owing(s, k)(x)
    requires Owing(s', k)(id) + 1 <= Owing(s, k)(id)
    ensures Work(s', k) < Work(s, k)
  {
    MissingShort(s, s', k, id, 1);
    UncarvedShort(s, s', NIL, 0);
    MulMonotone(Uncarved(s'), Uncarved(s), k);
  }

  /** Cancelling siblings adds no missing answer. */
  lemma CancelOwing(s: State, id: TaskId, k: nat, x: TaskId)
    requires id in s.tasks
    ensures var r := CancelSiblingsOf(s, id);
            r.jobs == s.jobs && r.nextId == s.nextId && Owing(r, k)(x) <= Owing(s, k)(x)
            && (x in r.tasks && !IsTerminal(r.tasks[x].state) ==> x in s.tasks && r.tasks[x] == s.tasks[x])
  {
    if s.tasks[id].job in s.jobs {
      CancelEachIs(s, id, Root(s, id), s.jobs[s.tasks[id].job].tasks);
    }
  }

  /** The vote itself, before siblings are cancelled. */
  lemma AfterVoteOwing(s: State, id: TaskId, sub: Submission, action: Action, k: nat)
    requires HoldsLease(s, sub.worker, id) && |s.tasks[id].submissions| < k
    requires action == if |s.tasks[id].submissions| + 1 == k then Action.Accept else NeedMoreReplicas
    ensures var t := AfterVote(s, id, sub, action).tasks[id];
            Owed(t, k) + 1 == Owed(s.tasks[id], k) && (IsTerminal(t.state) || |t.submissions| < k)
  {
  }

  /** A task rewritten so that it misses one answer fewer. */
  lemma PutLowersWork(s: State, s1: State, id: TaskId, t: Task, k: nat)
    requires Ids(s) && id in s.tasks && s1.jobs == s.jobs && s1.nextId == s.nextId && s1.tasks == s.tasks[id := t]
    requires Owed(t, k) + 1 == Owed(s.tasks[id], k) && SameRange(s.tasks[id], t)
    ensures Ids(s1) && Work(s1, k) < Work(s, k)
  {
    WorkDrops(s, s1, k, id);
  }

  lemma VoteLowersWork(s: State, id: TaskId, sub: Submission, action: Action, k: nat)
    requires Ids(s) && HoldsLease(s, sub.worker, id) && Undecided(s, k)
    requires action == if |s.tasks[id].submissions| + 1 == k then Action.Accept else NeedMoreReplicas
    ensures var s1 := AfterVote(s, id, sub, action); Ids(s1) && Work(s1, k) < Work(s, k) && Undecided(s1, k)
  {
    var s1 := AfterVote(s, id, sub, action);
    AfterVoteOwing(s, id, sub, action, k);
    PutLowersWork(s, s1, id, s1.tasks[id], k);
  }

  lemma CancelWork(s: State, id: TaskId, k: nat)
    requires Ids(s) && id in s.tasks && Undecided(s, k)
    ensures Work(CancelSiblingsOf(s, id), k) <= Work(s, k) && Undecided(CancelSiblingsOf(s, id), k)
  {
    hide CancelSiblingsOf, Root;
    var r := CancelSiblingsOf(s, id);
    forall x ensures Owing(r, k)(x) <= Owing(s, k)(x) && r.jobs == s.jobs && r.nextId == s.nextId
      ensures x in r.tasks && !IsTerminal(r.tasks[x].state) ==> x in s.tasks && r.tasks[x] == s.tasks[x] {
      CancelOwing(s, id, k, x);
    }
    WorkNotMore(s, r, k);
  }

  /** An honest answer that is counted brings the end at least one nearer. */
  lemma CountLowersWork(u: Setup, s: State, e: Event, k: nat, truth: Truth)
    requires Ids(s) && FixedQuota(u, k) && TruthfulEvent(u, s, e, k, truth) && Counts(u, s, e)
    requires HonestTasks(s, {}, truth) && Undecided(s, k)
    ensures Work(Step(u, s, e), k) < Work(s, k) && Undecided(Step(u, s, e), k)
  {
    CountingStep(u, s, e);
    AcceptedAtQuota(u, s, e, k, truth);
    var m := e.result;
    var sub, action := Retained(m, KernelOf(u, s, m.task)), Verdicted(u, s, m, e.required).action;
    VoteLowersWork(s, m.task, sub, action, k);
    if action.Accept? {
      CancelWork(AfterVote(s, m.task, sub, action), m.task, k);
    }
  }

  /** Expiry, release, disconnect, renewal and regrant cost nothing. */
  lemma OtherStepsCost(u: Setup, s: State, e: Event, k: nat)
    requires Core(s) && Registered(u, s) && !Counts(u, s, e)
    ensures Work(Step(u, s, e), k) <= Work(s, k) + Charge(u, s, e, k)
  {
    if e.LeaseRequest? {
      LeaseWork(u, s, e, k);
    } else if e.NewJob? {
      NewJobWork(s, Step(u, s, e), k, e.total);
    } else if e.NewRender? {
      NewJobWork(s, Step(u, s, e), k, e.render.grid.TileCount() * e.render.samplesPerTile);
    } else {
      StepQuiet(u, s, e);
      MoveStepGood(u, s, e);
      QuietWork(s, Step(u, s, e), k);
    }
  }

  // ---- every run --------------------------------------------------------------------------------------

  lemma StepKeepsUndecided(u: Setup, s: State, e: Event, k: nat, truth: Truth)
    requires Core(s) && Registered(u, s) && FixedQuota(u, k) && TruthfulEvent(u, s, e, k, truth)
    requires HonestTasks(s, {}, truth) && Undecided(s, k)
    ensures Undecided(Step(u, s, e), k)
  {
    StepKeeps(u, s, e);
    if Counts(u, s, e) {
      CountLowersWork(u, s, e, k, truth);
    } else if e.LeaseRequest? {
      LeaseKeepsUndecided(u, s, e, k);
    } else {
      StepQuiet(u, s, e);
      QuietKeepsUndecided(s, Step(u, s, e), k);
    }
  }

  lemma LeaseKeepsUndecided(u: Setup, s: State, e: Event, k: nat)
    requires Core(s) && e.LeaseRequest? && Undecided(s, k) && k >= 1
    ensures Undecided(Step(u, s, e), k)
  {
    var a, order := e.ask, e.jobOrder;
    var (s1, granted) := GrantTask(s, a.worker, e.now, u.leaseMs, a.units, a.cached, order);
    GrantKeeps(s, a.worker, e.now, u.leaseMs, a.units, a.cached, order);
    GrantQuiet(s, a.worker, e.now, u.leaseMs, a.units, a.cached, order);
    QuietKeepsUndecided(s, s1, k);
    if granted.Some? && a.probe.Some? {
      var s2 := SwapForProbe(s1, a.worker, granted.value, a.probe.value, e.now, u.leaseMs, order).0;
      SwapQuiet(s1, a.worker, granted.value, a.probe.value, e.now, u.leaseMs, order);
      SwapKeeps(s1, a.worker, granted.value, a.probe.value, e.now, u.leaseMs, order);
      QuietKeepsUndecided(s1, s2, k);
    }
  }

  ghost predicate TruthfulRun(u: Setup, s: State, es: seq<Event>, k: nat, truth: Truth)
    decreases es
  {
    es == [] || (TruthfulEvent(u, s, es[0], k, truth) && TruthfulRun(u, Step(u, s, es[0]), es[1..], k, truth))
  }

  /** The answers counted along a run. */
  ghost function Counted(u: Setup, s: State, es: seq<Event>): nat
    decreases es
  {
    if es == [] then 0
    else (if Counts(u, s, es[0]) then 1 else 0) + Counted(u, Step(u, s, es[0]), es[1..])
  }

  ghost function Charges(u: Setup, s: State, es: seq<Event>, k: nat): nat
    decreases es
  {
    if es == [] then 0 else Charge(u, s, es[0], k) + Charges(u, Step(u, s, es[0]), es[1..], k)
  }

  /** However the leases expire, move and race, an honest run counts at most
      `k` answers per unit created, and per probe or replica issued. */
  lemma {:induction false} AnswersAreBounded(u: Setup, s: State, es: seq<Event>, k: nat, truth: Truth)
    requires Core(s) && Registered(u, s) && HonestTasks(s, {}, truth) && Undecided(s, k)
    requires Run(u, s, es) && FixedQuota(u, k) && TruthfulRun(u, s, es, k, truth)
    ensures Counted(u, s, es) + Work(Final(u, s, es), k) <= Work(s, k) + Charges(u, s, es, k)
    decreases es
  {
    if es != [] {
      var e, s1 := es[0], Step(u, s, es[0]);
      StepKeeps(u, s, e);
      StepKeepsRegistered(u, s, e);
      StepKeepsHonest(u, s, e, {}, truth);
      StepKeepsUndecided(u, s, e, k, truth);
      if Counts(u, s, e) {
        CountLowersWork(u, s, e, k, truth);
      } else {
        OtherStepsCost(u, s, e, k);
      }
      AnswersAreBounded(u, s1, es[1..], k, truth);
    }
  }

  lemma StartIsIdle(k: nat, truth: Truth)
    ensures Work(INITIAL, k) == 0 && HonestTasks(INITIAL, {}, truth) && Undecided(INITIAL, k)
  {
    SumZero(Left(INITIAL), 1);
    SumZero(Owing(INITIAL, k), 1);
  }

  lemma RunAnswersBounded(u: Setup, es: seq<Event>, k: nat, truth: Truth)
    requires Run(u, INITIAL, es) && FixedQuota(u, k) && TruthfulRun(u, INITIAL, es, k, truth)
    ensures Counted(u, INITIAL, es) + Work(Final(u, INITIAL, es), k) <= Charges(u, INITIAL, es, k)
  {
    StartIsSafe(u);
    StartIsIdle(k, truth);
    AnswersAreBounded(u, INITIAL, es, k, truth);
  }

  /** After a crash, wherever it happens: until the next one, the answers counted
      are bounded by what the file left to do and the charges since. */
  lemma AnswersAfterCrash(u: Setup, before: seq<WorldEvent>, o: Orders, es: seq<Event>, k: nat, truth: Truth)
    requires Possibles(u, START, before) && Possible(u, After(u, START, before), Crash(o))
    requires var s := Next(u, After(u, START, before), Crash(o)).mem;
             Run(u, s, es) && FixedQuota(u, k) && TruthfulRun(u, s, es, k, truth)
    ensures var s := Next(u, After(u, START, before), Crash(o)).mem;
            Counted(u, s, es) + Work(Final(u, s, es), k) <= Work(s, k) + Charges(u, s, es, k)
  {
    var w := After(u, START, before);
    StartOk(u);
    RunsAreSound(u, START, before);
    NextKeepsOk(u, w, Crash(o));
    CrashForgets(u, w, o);
    NoAnswersUndecided(Next(u, w, Crash(o)).mem, k, truth);
    AnswersAreBounded(u, Next(u, w, Crash(o)).mem, es, k, truth);
  }

  lemma NoAnswersUndecided(s: State, k: nat, truth: Truth)
    requires k >= 1 && forall id <- s.tasks :: s.tasks[id].submissions == []
    ensures Undecided(s, k) && HonestTasks(s, {}, truth)
  {
  }

  // ---- when nothing is left, and when something is --------------------------------------------------------

  ghost predicate Idle(s: State) {
    (forall j <- s.jobs :: JobComplete(s, j)) && (forall id <- s.tasks :: IsTerminal(s.tasks[id].state))
  }

  lemma NoWorkIff(s: State, k: nat)
    requires k >= 1
    ensures Work(s, k) == 0 <==> Uncarved(s) == 0 && Missing(s, k) == 0
  {
    MulMonotone(1, k, Uncarved(s));
  }

  lemma NothingUncarvedIff(s: State)
    requires Ids(s)
    ensures Uncarved(s) == 0 <==> forall j <- s.jobs :: s.jobs[j].Exhausted()
  {
    SumZero(Left(s), s.nextId);
    forall j <- s.jobs ensures Left(s)(j) == 0 <==> s.jobs[j].Exhausted() {}
  }

  lemma NothingMissingIff(s: State, k: nat)
    requires Ids(s) && Undecided(s, k) && k >= 1
    ensures Missing(s, k) == 0 <==> forall id <- s.tasks :: IsTerminal(s.tasks[id].state)
  {
    SumZero(Owing(s, k), s.nextId);
    forall id <- s.tasks ensures Owing(s, k)(id) == 0 <==> IsTerminal(s.tasks[id].state) {}
  }

  lemma IdleIff(s: State)
    requires Lists(s)
    ensures Idle(s) <==> (forall j <- s.jobs :: s.jobs[j].Exhausted()) && (forall id <- s.tasks :: IsTerminal(s.tasks[id].state))
  {
  }

  /** No work is left exactly when every job is complete and no task is pending. */
  lemma NoWorkIffIdle(s: State, k: nat)
    requires Ids(s) && Lists(s) && Undecided(s, k) && k >= 1
    ensures Work(s, k) == 0 <==> Idle(s)
  {
    NoWorkIff(s, k);
    NothingUncarvedIff(s);
    NothingMissingIff(s, k);
    IdleIff(s);
  }

  /** A job that is not exhausted has a range to carve, of at least one unit. */
  lemma RoomToCarve(j: Job)
    requires JobOk(j) && !j.Exhausted()
    ensures CarveAt(j).Some?
  {
    if j.ByTile() && CarveAt(j).None? {
      SumFull(j.tileGranted, j.render.value.samplesPerTile);
    }
  }

  lemma CarveSucceeds(s: State, j: JobId, w: WorkerId, now: nat, lease: nat, units: nat)
    requires j in s.jobs && JobOk(s.jobs[j]) && !s.jobs[j].Exhausted() && units >= 1
    ensures Carve(s, j, w, now, lease, units).1.Some?
  {
    RoomToCarve(s.jobs[j]);
    var start := CarveAt(s.jobs[j]).value.1;
    assert s.jobs[j].group > 0 ==> start % s.jobs[j].group < s.jobs[j].group;
  }

  lemma {:induction false} CarveFirstFails(s: State, order: seq<JobId>, w: WorkerId, now: nat, lease: nat, units: nat)
    requires JobsOk(s) && units >= 1
    ensures CarveFirst(s, order, w, now, lease, units).1.None? <==> forall j <- order :: j in s.jobs ==> s.jobs[j].Exhausted()
    decreases order
  {
    if order != [] {
      if order[0] in s.jobs && !s.jobs[order[0]].Exhausted() {
        CarveSucceeds(s, order[0], w, now, lease, units);
      } else {
        CarveFirstFails(s, order[1..], w, now, lease, units);
        assert forall j :: j in order <==> j == order[0] || j in order[1..];
      }
    }
  }

  /** Queued, but on no queue: nobody will ever be given it. */
  ghost predicate Stranded(s: State, id: TaskId) {
    id in s.tasks && s.tasks[id].state.Queued? && id !in s.queue
  }

  lemma NoneStranded(s: State, id: TaskId)
    requires QueueOk(s)
    ensures !Stranded(s, id)
  {
    assert id in s.queue <==> multiset(s.queue)[id] > 0;
  }

  lemma PickFailsIff(s: State, w: WorkerId, cached: seq<AssetId>)
    requires forall id <- s.tasks | s.tasks[id].state.Queued? :: w !in s.tasks[id].prior
    ensures QueuePick(s, w, cached).None? <==> forall id <- s.tasks | s.tasks[id].state.Queued? :: Stranded(s, id)
  {
    var pick := QueuePick(s, w, cached);
    if pick.Some? {
      var id := s.queue[pick.value];
      assert s.tasks[id].state.Queued? && !Stranded(s, id);
    } else {
      forall id <- s.tasks | s.tasks[id].state.Queued? ensures Stranded(s, id) {
        assert id in s.queue ==> !Grantable(s, w, id);
      }
    }
  }

  /** A worker that never answered any queued task is sent away empty-handed
      only if every queued task is stranded and every keyspace is exhausted. */
  lemma GrantFailsIff(s: State, w: WorkerId, now: nat, lease: nat, units: nat, cached: seq<AssetId>, order: seq<JobId>)
    requires JobsOk(s) && Enumerates(order, s.jobs.Keys) && units >= 1
    requires forall id <- s.tasks | s.tasks[id].state.Queued? :: w !in s.tasks[id].prior
    ensures GrantTask(s, w, now, lease, units, cached, order).1.None?
            <==> (forall id <- s.tasks | s.tasks[id].state.Queued? :: Stranded(s, id)) && (forall j <- s.jobs :: s.jobs[j].Exhausted())
  {
    PickFailsIff(s, w, cached);
    EnumeratesMembers(order, s.jobs.Keys);
    var jobs := PreferredJobs(s, cached, order) + order;
    assert forall j :: j in jobs <==> j in s.jobs;
    CarveFirstFails(s, jobs, w, now, lease, units);
  }

  /** Nothing is leased any more after a sweep past every deadline. */
  lemma {:induction false} RequeueAllClears(s: State, ids: seq<TaskId>)
    requires forall id <- ids :: id in s.tasks
    ensures var r := RequeueAll(s, ids, LeaseExpired);
            r.tasks.Keys == s.tasks.Keys && r.jobs == s.jobs
            && (forall id <- s.tasks :: r.tasks[id].prior == s.tasks[id].prior)
            && (forall id <- s.tasks :: r.tasks[id].state == if s.tasks[id].state.Leased? && id in ids then Queued else s.tasks[id].state)
  {
    if ids != [] {
      RequeueAllClears(s, ids[..|ids| - 1]);
      assert forall id :: id in ids <==> id in ids[..|ids| - 1] || id == ids[|ids| - 1];
    }
  }

  lemma SweepClears(s: State, now: nat, order: seq<TaskId>)
    requires Enumerates(order, s.tasks.Keys) && forall id <- s.tasks :: s.tasks[id].deadline <= now
    ensures var r := Sweep(s, now, order);
            r.jobs == s.jobs && r.tasks.Keys == s.tasks.Keys
            && forall id <- r.tasks :: !r.tasks[id].state.Leased? && r.tasks[id].prior == s.tasks[id].prior
  {
    EnumeratesMembers(order, s.tasks.Keys);
    RequeueAllClears(s, DueTasks(s, now, order));
  }

  /** All keyspace is handed out, and what is not finished is stranded. */
  ghost predicate Spent(s: State) {
    (forall j <- s.jobs :: s.jobs[j].Exhausted()) && forall id <- s.tasks | !IsTerminal(s.tasks[id].state) :: Stranded(s, id)
  }

  lemma SweptGrantFailsIff(s: State, w: WorkerId, now: nat, lease: nat, units: nat, cached: seq<AssetId>, order: seq<JobId>)
    requires TasksOk(s) && JobsOk(s) && Enumerates(order, s.jobs.Keys) && units >= 1
    requires forall id <- s.tasks :: !s.tasks[id].state.Leased? && w !in s.tasks[id].prior
    ensures GrantTask(s, w, now, lease, units, cached, order).1.None? <==> Spent(s)
  {
    GrantFailsIff(s, w, now, lease, units, cached, order);
    forall id <- s.tasks ensures !IsTerminal(s.tasks[id].state) <==> s.tasks[id].state.Queued? {
      assert TaskOk(s.tasks[id]);
    }
  }

  /** Without stranded tasks, spent is done. */
  lemma SpentIsIdle(s: State)
    requires Lists(s) && QueueOk(s)
    ensures Spent(s) <==> Idle(s)
  {
    IdleIff(s);
    forall id <- s.tasks ensures !Stranded(s, id) {
      NoneStranded(s, id);
    }
  }

  /** No reachable state is stuck, whatever crashed on the way: sweep past every
      deadline, and a worker that answered nothing yet is given a task, unless
      all keyspace is handed out and only stranded tasks are unfinished - which
      is to say that everything is done, if no crash found a queued row. */
  lemma NeverStuck(u: Setup, es: seq<WorldEvent>, now: nat, sweepOrder: seq<TaskId>,
                   w: WorkerId, units: nat, cached: seq<AssetId>, order: seq<JobId>)
    requires Possibles(u, START, es) && units >= 1
    requires var s := After(u, START, es).mem;
             Enumerates(sweepOrder, s.tasks.Keys) && Enumerates(order, s.jobs.Keys)
             && forall id <- s.tasks :: s.tasks[id].deadline <= now && w !in s.tasks[id].prior
    ensures var swept := Sweep(After(u, START, es).mem, now, sweepOrder);
            (GrantTask(swept, w, now, u.leaseMs, units, cached, order).1.None? <==> Spent(swept))
            && (CleanCrashes(u, START, es) ==> (Spent(swept) <==> Idle(swept)))
  {
    StartOk(u);
    RunsAreSound(u, START, es);
    QueueAlongRunsIff(u, START, es);
    SweptNotStuck(u, After(u, START, es).mem, now, sweepOrder, w, units, cached, order);
  }

  lemma SweptState(u: Setup, s: State, now: nat, order: seq<TaskId>, w: WorkerId)
    requires Sound(u, s) && Enumerates(order, s.tasks.Keys)
    requires forall id <- s.tasks :: s.tasks[id].deadline <= now && w !in s.tasks[id].prior
    ensures var swept := Sweep(s, now, order);
            Core(swept) && JobsOk(swept) && swept.jobs == s.jobs && (QueueOk(s) ==> QueueOk(swept))
            && forall id <- swept.tasks :: !swept.tasks[id].state.Leased? && w !in swept.tasks[id].prior
  {
    SweepKeeps(u, s, now, order);
    SweepClears(s, now, order);
  }

  lemma SweepKeeps(u: Setup, s: State, now: nat, order: seq<TaskId>)
    requires Sound(u, s) && Enumerates(order, s.tasks.Keys)
    ensures var swept := Sweep(s, now, order); Core(swept) && JobsOk(swept) && (QueueOk(s) ==> QueueOk(swept))
  {
    hide Core, JobsOk, QueueOk, Registered, Sweep;
    StepKeeps(u, s, SweepTimer(now, order));
    StepKeepsJobsOk(u, s, SweepTimer(now, order));
  }

  lemma SweptNotStuck(u: Setup, s: State, now: nat, sweepOrder: seq<TaskId>,
                      w: WorkerId, units: nat, cached: seq<AssetId>, order: seq<JobId>)
    requires Sound(u, s) && units >= 1 && Enumerates(sweepOrder, s.tasks.Keys) && Enumerates(order, s.jobs.Keys)
    requires forall id <- s.tasks :: s.tasks[id].deadline <= now && w !in s.tasks[id].prior
    ensures var swept := Sweep(s, now, sweepOrder);
            (GrantTask(swept, w, now, u.leaseMs, units, cached, order).1.None? <==> Spent(swept))
            && (QueueOk(s) ==> (Spent(swept) <==> Idle(swept)))
  {
    var swept := Sweep(s, now, sweepOrder);
    SweptState(u, s, now, sweepOrder, w);
    SweptGrantFailsIff(swept, w, now, u.leaseMs, units, cached, order);
    if QueueOk(s) {
      SpentIsIdle(swept);
    }
  }
}
