/** Exactly-once coverage: the ranges handed out tile the keyspace. */
module Coverage {
  import opened Basics
  import opened TaskStates
  import opened TileGrids
  import opened Coordinator
  import opened Protocol
  import opened Invariants
  import opened Growth

  function Sum(q: seq<nat>): nat {
    if q == [] then 0 else Sum(q[..|q| - 1]) + q[|q| - 1]
  }

  /** A render job is cut into tiles of one sample budget each; what each tile
      has given out adds up to the cursor. */
  ghost predicate JobOk(j: Job) {
    j.next <= j.total
    && (j.render.None? ==> j.tileGranted == [])
    && (j.ByTile() ==>
          var budget := j.render.value.samplesPerTile;
          j.group == budget && j.total == |j.tileGranted| * budget && Sum(j.tileGranted) == j.next
          && forall i :: 0 <= i < |j.tileGranted| ==> j.tileGranted[i] <= budget)
    && (j.render.Some? && !j.ByTile() ==> j.total == 0)
  }

  /** Unit `u` belongs to a tile that has given out more than its offset. */
  ghost predicate InTiles(granted: seq<nat>, budget: nat, u: nat)
    requires budget > 0
  {
    u / budget < |granted| && u % budget < granted[u / budget]
  }

  /** Unit `u` has been handed out. */
  ghost predicate Carved(j: Job, u: nat) {
    if j.ByTile() then InTiles(j.tileGranted, j.render.value.samplesPerTile, u) else u < j.next
  }

  ghost predicate Original(s: State, j: JobId, id: TaskId) {
    j in s.jobs && id in s.jobs[j].tasks && id in s.tasks && s.tasks[id].replicaOf == NIL
  }

  ghost predicate InRange(t: Task, u: nat) {
    t.start <= u < t.start + t.count
  }

  ghost predicate Covers(s: State, j: JobId, id: TaskId, u: nat) {
    Original(s, j, id) && InRange(s.tasks[id], u)
  }

  /** The units handed out are those of the original ranges, and no two
      original ranges of a job share one. */
  ghost predicate JobCovered(s: State, j: JobId)
    requires j in s.jobs
  {
    JobOk(s.jobs[j])
    && (forall u | Carved(s.jobs[j], u) :: exists id :: Covers(s, j, id, u))
    && (forall id, u | Covers(s, j, id, u) :: Carved(s.jobs[j], u))
    && (forall a, b, u | Covers(s, j, a, u) && Covers(s, j, b, u) :: a == b)
  }

  ghost predicate Covered(s: State) {
    forall j <- s.jobs :: JobCovered(s, j)
  }

  /** The cursors and tiles of every job add up; this survives what coverage does not. */
  ghost predicate JobsOk(s: State) {
    forall j <- s.jobs :: JobOk(s.jobs[j])
  }

  // ---- the carve arithmetic ------------------------------------------------------------

  lemma {:induction false} SumUpdate(q: seq<nat>, k: nat, v: nat)
    requires k < |q|
    ensures Sum(q[k := v]) == Sum(q) - q[k] + v
  {
    var last := |q| - 1;
    if k == last {
      assert q[k := v][..last] == q[..last];
    } else {
      assert q[k := v][..last] == q[..last][k := v];
      SumUpdate(q[..last], k, v);
    }
  }

  /** If no entry exceeds `b`, the sum reaches `|q| * b` only when all equal `b`. */
  lemma {:induction false} SumAtCap(q: seq<nat>, b: nat)
    requires forall i :: 0 <= i < |q| ==> q[i] <= b
    ensures Sum(q) <= |q| * b
    ensures Sum(q) == |q| * b ==> forall i :: 0 <= i < |q| ==> q[i] == b
  {
    if q != [] {
      var last := |q| - 1;
      SumAtCap(q[..last], b);
      assert |q| * b == last * b + b;
      if Sum(q) == |q| * b {
        forall i | 0 <= i < |q| ensures q[i] == b {
          assert i < last ==> q[..last][i] == b;
        }
      }
    }
  }

  lemma {:induction false} SumFull(q: seq<nat>, b: nat)
    requires forall i :: 0 <= i < |q| ==> q[i] == b
    ensures Sum(q) == |q| * b
  {
    if q != [] {
      SumFull(q[..|q| - 1], b);
      assert |q| * b == (|q| - 1) * b + b;
    }
  }

  /** Only units of the keyspace are handed out, and an exhausted job has
      handed out all of them. */
  lemma CarvedBelowTotal(j: Job, u: nat)
    requires JobOk(j)
    ensures Carved(j, u) ==> u < j.total
    ensures j.Exhausted() && u < j.total ==> Carved(j, u)
  {
    if j.ByTile() {
      var budget := j.render.value.samplesPerTile;
      SumAtCap(j.tileGranted, budget);
      RowAndColumn(u, budget, |j.tileGranted|);
    }
  }

  /** The job after a carve of `count` units at `start`. */
  function Advanced(j: Job, tile: Option<nat>, count: nat, id: TaskId): Job {
    j.(next := j.next + count, tasks := j.tasks + [id],
       tileGranted := if tile.Some? && tile.value < |j.tileGranted|
                      then j.tileGranted[tile.value := j.tileGranted[tile.value] + count] else j.tileGranted)
  }

  /** Inside a tile: `start` is where tile `k` stopped, and the carve stays in it. */
  lemma TileCarve(k: nat, budget: nat, given: nat, count: nat, u: nat)
    requires given < budget && count <= budget - given
    ensures (k * budget + given) % budget == given
    ensures k * budget + given <= u < k * budget + given + count
            <==> u / budget == k && given <= u % budget < given + count
  {
    QuotientIs(k * budget + given, budget, k);
    QuotientIs(u, budget, k);
    assert u == u / budget * budget + u % budget;
  }

  /** A tile with budget left is where a render job carves next, and the carve
      stays inside it. */
  lemma TileCarveSize(j: Job, units: nat)
    requires JobOk(j) && j.ByTile() && CarveAt(j).Some?
    ensures var (tile, start) := CarveAt(j).value;
            var budget := j.render.value.samplesPerTile;
            tile.Some? && IsLeastTile(j.tileGranted, budget, tile.value)
            && start == tile.value * budget + j.tileGranted[tile.value]
            && CarveSize(j, start, units) <= budget - j.tileGranted[tile.value]
  {
    var budget, k := j.render.value.samplesPerTile, CarveAt(j).value.0.value;
    TileCarve(k, budget, j.tileGranted[k], 0, 0);
  }

  lemma CarveKeepsJobOk(j: Job, units: nat, id: TaskId)
    requires JobOk(j) && CarveAt(j).Some?
    ensures var (tile, start) := CarveAt(j).value;
            JobOk(Advanced(j, tile, CarveSize(j, start, units), id))
  {
    if j.ByTile() {
      var (tile, start) := CarveAt(j).value;
      TileCarveSize(j, units);
      SumUpdate(j.tileGranted, tile.value, j.tileGranted[tile.value] + CarveSize(j, start, units));
    }
  }

  lemma TileExtends(granted: seq<nat>, budget: nat, k: nat, count: nat, u: nat)
    requires k < |granted| && granted[k] < budget && count <= budget - granted[k]
    ensures var start := k * budget + granted[k];
            (start <= u < start + count ==> !InTiles(granted, budget, u))
            && (InTiles(granted[k := granted[k] + count], budget, u)
                <==> InTiles(granted, budget, u) || start <= u < start + count)
  {
    TileCarve(k, budget, granted[k], count, u);
  }

  /** A carve hands out exactly `[start, start + count)`, none of it before. */
  lemma CarveExtends(j: Job, units: nat, id: TaskId, u: nat)
    requires JobOk(j) && CarveAt(j).Some?
    ensures var (tile, start) := CarveAt(j).value;
            var count := CarveSize(j, start, units);
            (start <= u < start + count ==> !Carved(j, u))
            && (Carved(Advanced(j, tile, count, id), u) <==> Carved(j, u) || start <= u < start + count)
  {
    var (tile, start) := CarveAt(j).value;
    var count := CarveSize(j, start, units);
    if j.ByTile() {
      TileCarveSize(j, units);
      TileExtends(j.tileGranted, j.render.value.samplesPerTile, tile.value, count, u);
    }
  }

  // ---- every step keeps it ------------------------------------------------------------------

  /** Nothing about the job's originals changed. */
  ghost predicate SameOriginals(s: State, s': State, j: JobId)
    requires j in s.jobs && j in s'.jobs
  {
    forall id :: (Original(s', j, id) <==> Original(s, j, id))
                 && (Original(s, j, id) ==> SameRange(s.tasks[id], s'.tasks[id]))
  }

  lemma SameOriginalsKeep(s: State, s': State, j: JobId)
    requires j in s.jobs && j in s'.jobs && JobCovered(s, j) && SameOriginals(s, s', j)
    requires JobOk(s'.jobs[j]) && forall u: nat :: Carved(s'.jobs[j], u) <==> Carved(s.jobs[j], u)
    ensures JobCovered(s', j)
  {
    forall u: nat | Carved(s'.jobs[j], u) ensures exists id :: Covers(s', j, id, u) {
      assert Carved(s.jobs[j], u);
      var id :| Covers(s, j, id, u);
      assert Covers(s', j, id, u);
    }
    forall id, u: nat | Covers(s', j, id, u) ensures Carved(s'.jobs[j], u) {
      assert Covers(s, j, id, u);
    }
    forall a, b, u: nat | Covers(s', j, a, u) && Covers(s', j, b, u) ensures a == b {
      assert Covers(s, j, a, u) && Covers(s, j, b, u);
    }
  }

  lemma MovedKeepsCovered(s: State, s': State)
    requires Covered(s) && Moved(s, s')
    ensures Covered(s')
  {
    forall j <- s'.jobs ensures JobCovered(s', j) {
      forall id | Original(s, j, id) || Original(s', j, id) ensures SameRange(s.tasks[id], s'.tasks[id]) {}
      SameOriginalsKeep(s, s', j);
    }
  }

  lemma OtherJobsKeep(s: State, j: JobId, w: WorkerId, now: nat, lease: nat, units: nat, i: JobId)
    requires Ids(s) && Lists(s) && j in s.jobs && i in s.jobs && JobCovered(s, i)
    requires i != j || Carve(s, j, w, now, lease, units).1.None?
    ensures i in Carve(s, j, w, now, lease, units).0.jobs && JobCovered(Carve(s, j, w, now, lease, units).0, i)
  {
    var s' := Carve(s, j, w, now, lease, units).0;
    assert s'.jobs[i] == s.jobs[i];
    forall id | id in s'.jobs[i].tasks ensures id in s.tasks && s'.tasks[id] == s.tasks[id] {}
    SameOriginalsKeep(s, s', i);
  }

  /** One original range is added to job `j`, exactly where its carve advanced. */
  lemma CarveKeepsCovered(s: State, j: JobId, w: WorkerId, now: nat, lease: nat, units: nat)
    requires Ids(s) && Lists(s) && Covered(s) && j in s.jobs
    ensures Covered(Carve(s, j, w, now, lease, units).0)
  {
    var (s', r) := Carve(s, j, w, now, lease, units);
    forall i <- s'.jobs ensures JobCovered(s', i) {
      if i != j || r.None? {
        OtherJobsKeep(s, j, w, now, lease, units, i);
      } else {
        CarveCoversJob(s, j, w, now, lease, units);
      }
    }
  }

  /** What the new range covers is exactly what it covers, and the old ranges
      cover what they did. */
  lemma CarveAddsCover(s: State, j: JobId, w: WorkerId, now: nat, lease: nat, units: nat, a: TaskId, u: nat)
    requires Ids(s) && Lists(s) && j in s.jobs && Carve(s, j, w, now, lease, units).1.Some?
    ensures var (s', r) := Carve(s, j, w, now, lease, units);
            Covers(s', j, a, u) <==> Covers(s, j, a, u) || (a == r.value && InRange(s'.tasks[r.value], u))
  {
    assert a in s.jobs[j].tasks ==> a in s.tasks;
  }

  lemma CarveCoversJob(s: State, j: JobId, w: WorkerId, now: nat, lease: nat, units: nat)
    requires Ids(s) && Lists(s) && j in s.jobs && JobCovered(s, j)
    requires Carve(s, j, w, now, lease, units).1.Some?
    ensures JobCovered(Carve(s, j, w, now, lease, units).0, j)
  {
    var (s', r) := Carve(s, j, w, now, lease, units);
    var id, job := r.value, s.jobs[j];
    assert s'.jobs[j] == Advanced(job, CarveAt(job).value.0, s'.tasks[id].count, id);
    CarveKeepsJobOk(job, units, id);
    forall u: nat | Carved(s'.jobs[j], u) ensures exists a :: Covers(s', j, a, u) {
      CarveExtends(job, units, id, u);
      CarveAddsCover(s, j, w, now, lease, units, id, u);
      if Carved(job, u) {
        var a :| Covers(s, j, a, u);
        CarveAddsCover(s, j, w, now, lease, units, a, u);
      }
    }
    forall a, u: nat | Covers(s', j, a, u) ensures Carved(s'.jobs[j], u) {
      CarveExtends(job, units, id, u);
      CarveAddsCover(s, j, w, now, lease, units, a, u);
    }
    forall a, b, u: nat | Covers(s', j, a, u) && Covers(s', j, b, u) ensures a == b {
      CarveExtends(job, units, id, u);
      CarveAddsCover(s, j, w, now, lease, units, a, u);
      CarveAddsCover(s, j, w, now, lease, units, b, u);
    }
  }

  lemma {:induction false} CarveFirstKeepsCovered(s: State, order: seq<JobId>, w: WorkerId, now: nat, lease: nat, units: nat)
    requires Core(s) && Covered(s)
    ensures Covered(CarveFirst(s, order, w, now, lease, units).0)
    decreases order
  {
    if order == [] {
    } else if order[0] !in s.jobs || s.jobs[order[0]].Exhausted() {
      CarveFirstKeepsCovered(s, order[1..], w, now, lease, units);
    } else {
      CarveKeepsCovered(s, order[0], w, now, lease, units);
      CarveKeeps(s, order[0], w, now, lease, units);
      var (s1, r) := Carve(s, order[0], w, now, lease, units);
      if r.None? {
        CarveFirstKeepsCovered(s1, order[1..], w, now, lease, units);
      }
    }
  }

  lemma GrantKeepsCovered(s: State, w: WorkerId, now: nat, lease: nat, units: nat, cached: seq<AssetId>, order: seq<JobId>)
    requires Core(s) && Covered(s)
    ensures Covered(GrantTask(s, w, now, lease, units, cached, order).0)
  {
    match QueuePick(s, w, cached)
    case Some(k) =>
      GrantQueuedGood(s, w, now, lease, k);
      MovedKeepsCovered(s, GrantQueued(s, w, now, lease, k));
    case None =>
      CarveFirstKeepsCovered(s, PreferredJobs(s, cached, order) + order, w, now, lease, units);
  }

  /** A task that no job lists as an original: a probe, or a replica. */
  ghost predicate AddsExtra(s: State, s': State, id: TaskId, t: Task) {
    Adds(s, s', id, t)
    && (forall j <- s.jobs :: s'.jobs[j] == s.jobs[j].(tasks := s'.jobs[j].tasks))
    && (t.replicaOf != NIL || s'.jobs == s.jobs)
  }

  lemma ExtraTaskIsNoOriginal(s: State, s': State, id: TaskId, t: Task, j: JobId, x: TaskId)
    requires Ids(s) && Lists(s) && AddsExtra(s, s', id, t) && j in s.jobs
    ensures Original(s', j, x) <==> Original(s, j, x)
    ensures Original(s, j, x) ==> s'.tasks[x] == s.tasks[x]
  {
    if x == id {
      assert x !in s.tasks && x !in s.jobs[j].tasks;
      assert Original(s', j, x) ==> t.replicaOf == NIL;
    } else {
      assert x in s'.jobs[j].tasks <==> x in s.jobs[j].tasks;
      assert x in s.tasks ==> s'.tasks[x] == s.tasks[x];
    }
  }

  lemma ExtraTaskKeepsCovered(s: State, s': State, id: TaskId, t: Task)
    requires Ids(s) && Lists(s) && Covered(s) && AddsExtra(s, s', id, t)
    ensures Covered(s')
  {
    forall j <- s'.jobs ensures JobCovered(s', j) {
      forall x ensures (Original(s', j, x) <==> Original(s, j, x)) && (Original(s, j, x) ==> SameRange(s.tasks[x], s'.tasks[x])) {
        ExtraTaskIsNoOriginal(s, s', id, t, j, x);
      }
      SameOriginalsKeep(s, s', j);
    }
  }

  lemma AddReplicaIsExtra(s: State, j: JobId, id: TaskId, w: WorkerId, now: nat, lease: nat)
    requires Ids(s) && Lists(s) && TasksOk(s) && j in s.jobs && id in s.jobs[j].tasks && s.tasks[id].replicaOf == NIL
    ensures var s' := AddReplica(s, j, id, w, now, lease); AddsExtra(s, s', s.nextId, s'.tasks[s.nextId])
  {
    AddReplicaAdds(s, j, id, w, now, lease);
  }

  lemma ReplicaKeepsCovered(s: State, w: WorkerId, now: nat, lease: nat, threshold: real, order: seq<JobId>)
    requires Core(s) && Covered(s)
    ensures Covered(IssueSpeculative(s, w, now, lease, threshold, order).0)
  {
    match RaceJob(s, w, threshold, order)
    case None =>
    case Some(k) =>
      var id := RaceIn(s, order[k], w, threshold).value;
      var s' := AddReplica(s, order[k], id, w, now, lease);
      AddReplicaIsExtra(s, order[k], id, w, now, lease);
      ExtraTaskKeepsCovered(s, s', s.nextId, s'.tasks[s.nextId]);
  }

  lemma ProbeKeepsCovered(s: State, w: WorkerId, now: nat, lease: nat, start: nat, count: nat, order: seq<JobId>)
    requires Core(s) && Covered(s)
    ensures Covered(IssueKnownRange(s, w, now, lease, start, count, order).0)
  {
    var (s', r) := IssueKnownRange(s, w, now, lease, start, count, order);
    hide JobCovered;
    if r.Some? {
      ExtraTaskKeepsCovered(s, s', r.value, s'.tasks[r.value]);
    }
  }

  lemma SwapKeepsCovered(s: State, w: WorkerId, granted: TaskId, probe: (nat, nat), now: nat, lease: nat, order: seq<JobId>)
    requires Core(s) && Covered(s)
    ensures Covered(SwapForProbe(s, w, granted, probe, now, lease, order).0)
  {
    var (s1, issued) := IssueKnownRange(s, w, now, lease, probe.0, probe.1, order);
    ProbeKeeps(s, w, now, lease, probe.0, probe.1, order);
    ProbeKeepsCovered(s, w, now, lease, probe.0, probe.1, order);
    if issued.Some? && Requeue(s1, granted, Release).Some? {
      RequeueGood(s1, granted, Release);
      MovedKeepsCovered(s1, Requeue(s1, granted, Release).value);
    }
  }

  lemma LeaseKeepsCovered(u: Setup, s: State, a: Ask, now: nat, order: seq<JobId>)
    requires Core(s) && Covered(s)
    ensures Covered(OnLease(u, s, a, now, order).0)
  {
    var (s1, granted) := GrantTask(s, a.worker, now, u.leaseMs, a.units, a.cached, order);
    GrantKeeps(s, a.worker, now, u.leaseMs, a.units, a.cached, order);
    GrantKeepsCovered(s, a.worker, now, u.leaseMs, a.units, a.cached, order);
    if granted.Some? && a.probe.Some? {
      SwapKeepsCovered(s1, a.worker, granted.value, a.probe.value, now, u.leaseMs, order);
    } else if granted.None? {
      ReplicaKeepsCovered(s1, a.worker, now, u.leaseMs, a.threshold, order);
    }
  }

  lemma {:induction false} SumOfZeros(n: nat)
    ensures Sum(seq(n, _ => 0)) == 0
  {
    if n > 0 {
      assert seq(n, _ => 0)[..n - 1] == seq(n - 1, _ => 0);
      SumOfZeros(n - 1);
    }
  }

  lemma NewJobKeepsCovered(s: State, s': State)
    requires Lists(s) && Covered(s) && NoNewTask(s, s')
    requires forall j <- s'.jobs | j !in s.jobs :: JobOk(s'.jobs[j]) && forall u: nat :: !Carved(s'.jobs[j], u)
    ensures Covered(s')
  {
    forall j <- s'.jobs ensures JobCovered(s', j) {
      if j in s.jobs {
        SameOriginalsKeep(s, s', j);
      }
    }
  }

  lemma NewJobStartsEmpty(u: Setup, s: State, e: Event)
    requires Ids(s) && (e.NewJob? || e.NewRender?)
    ensures var s' := Step(u, s, e);
            NoNewTask(s, s') && forall j <- s'.jobs | j !in s.jobs :: JobOk(s'.jobs[j]) && forall u: nat :: !Carved(s'.jobs[j], u)
  {
    if e.NewRender? {
      SumOfZeros(e.render.grid.TileCount());
    }
  }

  lemma StepKeepsCovered(u: Setup, s: State, e: Event)
    requires Core(s) && Registered(u, s) && Covered(s)
    ensures Covered(Step(u, s, e))
  {
    var s' := Step(u, s, e);
    if OnlyMoves(e) {
      MoveStepGood(u, s, e);
      MovedKeepsCovered(s, s');
    } else if e.LeaseRequest? {
      LeaseKeepsCovered(u, s, e.ask, e.now, e.jobOrder);
    } else {
      NewJobStartsEmpty(u, s, e);
      NewJobKeepsCovered(s, s');
    }
  }

  // ---- the arithmetic alone -------------------------------------------------------------------

  lemma {:induction false} CarveFirstKeepsJobsOk(s: State, order: seq<JobId>, w: WorkerId, now: nat, lease: nat, units: nat)
    requires JobsOk(s)
    ensures JobsOk(CarveFirst(s, order, w, now, lease, units).0)
    decreases order
  {
    if order == [] {
    } else if order[0] !in s.jobs || s.jobs[order[0]].Exhausted() {
      CarveFirstKeepsJobsOk(s, order[1..], w, now, lease, units);
    } else {
      CarveKeepsJobsOk(s, order[0], w, now, lease, units);
      var (s1, r) := Carve(s, order[0], w, now, lease, units);
      if r.None? {
        CarveFirstKeepsJobsOk(s1, order[1..], w, now, lease, units);
      }
    }
  }

  lemma CarveKeepsJobsOk(s: State, j: JobId, w: WorkerId, now: nat, lease: nat, units: nat)
    requires JobsOk(s) && j in s.jobs
    ensures JobsOk(Carve(s, j, w, now, lease, units).0)
  {
    if Carve(s, j, w, now, lease, units).1.Some? {
      CarveKeepsJobOk(s.jobs[j], units, s.nextId);
    }
  }

  lemma GrantKeepsJobsOk(s: State, w: WorkerId, now: nat, lease: nat, units: nat, cached: seq<AssetId>, order: seq<JobId>)
    requires JobsOk(s)
    ensures JobsOk(GrantTask(s, w, now, lease, units, cached, order).0)
  {
    if QueuePick(s, w, cached).None? {
      CarveFirstKeepsJobsOk(s, PreferredJobs(s, cached, order) + order, w, now, lease, units);
    }
  }

  /** Every job of `s'` is one of `s`, but for the list of its tasks. */
  ghost predicate SameCursors(s: State, s': State) {
    forall j <- s'.jobs :: j in s.jobs && s'.jobs[j] == s.jobs[j].(tasks := s'.jobs[j].tasks)
  }

  lemma SameCursorsKeep(s: State, s': State)
    requires JobsOk(s) && SameCursors(s, s')
    ensures JobsOk(s')
  {
  }

  lemma LeaseKeepsJobsOk(u: Setup, s: State, a: Ask, now: nat, order: seq<JobId>)
    requires JobsOk(s)
    ensures JobsOk(OnLease(u, s, a, now, order).0)
  {
    var (s1, granted) := GrantTask(s, a.worker, now, u.leaseMs, a.units, a.cached, order);
    GrantKeepsJobsOk(s, a.worker, now, u.leaseMs, a.units, a.cached, order);
    hide JobOk;
    if granted.Some? && a.probe.Some? {
      SwapSameCursors(s1, a.worker, granted.value, a.probe.value, now, u.leaseMs, order);
    } else {
      RaceSameCursors(s1, a.worker, now, u.leaseMs, a.threshold, order);
    }
    SameCursorsKeep(s1, OnLease(u, s, a, now, order).0);
  }

  lemma SwapSameCursors(s: State, w: WorkerId, granted: TaskId, probe: (nat, nat), now: nat, lease: nat, order: seq<JobId>)
    ensures SameCursors(s, SwapForProbe(s, w, granted, probe, now, lease, order).0)
  {
    assert SwapForProbe(s, w, granted, probe, now, lease, order).0.jobs == s.jobs;
  }

  lemma RaceSameCursors(s: State, w: WorkerId, now: nat, lease: nat, threshold: real, order: seq<JobId>)
    ensures SameCursors(s, s) && SameCursors(s, IssueSpeculative(s, w, now, lease, threshold, order).0)
  {
  }

  lemma StepKeepsJobsOk(u: Setup, s: State, e: Event)
    requires Core(s) && Registered(u, s) && JobsOk(s)
    ensures JobsOk(Step(u, s, e))
  {
    if OnlyMoves(e) {
      MoveStepGood(u, s, e);
    } else if e.LeaseRequest? {
      LeaseKeepsJobsOk(u, s, e.ask, e.now, e.jobOrder);
    } else {
      NewJobStartsEmpty(u, s, e);
    }
  }
}
