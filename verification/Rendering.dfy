/** Render jobs: tiles partition the image, units are (tile, sample) pairs, and
    every task a render job lists renders one window of one tile
    (src/coordinator/composite.cpp, src/coordinator/params.cpp). */
module Rendering {
  import opened Basics
  import opened TaskStates
  import opened TileGrids
  import opened Coordinator
  import opened Protocol
  import opened Invariants
  import opened Growth
  import opened Coverage
  import opened Runs

  // ---- tiles and pixels -------------------------------------------------------------

  predicate Inside(t: Tile, x: nat, y: nat) {
    t.x <= x < t.x + t.w && t.y <= y < t.y + t.h
  }

  /** The tile a pixel of the image belongs to. */
  function TileOf(g: TileGrid, x: nat, y: nat): nat
    requires g.tileW > 0 && g.tileH > 0
  {
    y / g.tileH * g.TilesX() + x / g.tileW
  }

  lemma ColumnOf(extent: nat, size: nat, i: nat, p: nat)
    requires size > 0 && p < extent && i * size < extent
    ensures i * size <= p < i * size + Min(size, extent - i * size) <==> p / size == i
  {
    QuotientIs(p, size, i);
  }

  lemma CellOf(extent: nat, size: nat, p: nat)
    requires size > 0 && p < extent
    ensures p / size < Cells(extent, size)
  {
    QuotientIs(p, size, p / size);
    CellBegins(extent, size, p / size);
  }

  /** Row-major numbering: `i` is `(row, column)` exactly when it is `row * width + column`. */
  lemma RowColumnIs(i: nat, width: nat, row: nat, column: nat)
    requires column < width
    ensures i == row * width + column <==> i / width == row && i % width == column
  {
    QuotientIs(i, width, row);
    assert i == i / width * width + i % width;
  }

  /** Every pixel of the image lies in exactly one tile. */
  lemma TilesPartitionImage(g: TileGrid, x: nat, y: nat, i: nat)
    requires g.tileW > 0 && g.tileH > 0 && x < g.imageW && y < g.imageH
    ensures TileOf(g, x, y) < g.TileCount()
    ensures i < g.TileCount() && Inside(g.TileAt(i).value, x, y) <==> i == TileOf(g, x, y)
  {
    CellOf(g.imageW, g.tileW, x);
    CellOf(g.imageH, g.tileH, y);
    var width := g.TilesX();
    RowColumnIs(TileOf(g, x, y), width, y / g.tileH, x / g.tileW);
    RowAndColumn(TileOf(g, x, y), width, g.TilesY());
    RowColumnIs(i, width, y / g.tileH, x / g.tileW);
    if i < g.TileCount() {
      TileInsideIs(g, x, y, i);
    }
  }

  lemma TileInsideIs(g: TileGrid, x: nat, y: nat, i: nat)
    requires g.tileW > 0 && g.tileH > 0 && x < g.imageW && y < g.imageH && i < g.TileCount() && g.TilesX() > 0
    ensures Inside(g.TileAt(i).value, x, y) <==> x / g.tileW == i % g.TilesX() && y / g.tileH == i / g.TilesX()
  {
    var tx, ty := i % g.TilesX(), i / g.TilesX();
    RowAndColumn(i, g.TilesX(), g.TilesY());
    CellBegins(g.imageW, g.tileW, tx);
    CellBegins(g.imageH, g.tileH, ty);
    ColumnOf(g.imageW, g.tileW, tx, x);
    ColumnOf(g.imageH, g.tileH, ty, y);
  }

  // ---- units and samples ---------------------------------------------------------------

  /** Unit `u` is sample `u % spt` of tile `u / spt`: a bijection between the
      keyspace and the samples of all tiles. */
  lemma UnitsAreSamples(tiles: nat, spt: nat, tile: nat, sample: nat, u: nat)
    requires spt > 0 && sample < spt
    ensures u == tile * spt + sample <==> u / spt == tile && u % spt == sample
    ensures u < tiles * spt <==> u / spt < tiles
  {
    RowColumnIs(u, spt, tile, sample);
    RowAndColumn(u, spt, tiles);
  }

  // ---- what every render task is ---------------------------------------------------------

  /** The range is a window of one tile's samples. */
  predicate FitsTile(j: Job, t: Task) {
    j.ByTile() ==>
      var spt := j.render.value.samplesPerTile;
      t.count >= 1 && t.start / spt < |j.tileGranted| && t.start % spt + t.count <= spt
  }

  /** Any two tiles are at most `m` samples apart. */
  ghost predicate Even(granted: seq<nat>, m: nat) {
    forall a, b :: 0 <= a < |granted| && 0 <= b < |granted| ==> granted[a] <= granted[b] + m
  }

  ghost predicate RenderOk(j: Job, m: nat) {
    (j.render.Some? ==> |j.tileGranted| == j.render.value.grid.TileCount()) && Even(j.tileGranted, m)
  }

  ghost predicate JobFits(s: State, j: JobId)
    requires j in s.jobs
  {
    forall id | id in s.jobs[j].tasks && id in s.tasks :: FitsTile(s.jobs[j], s.tasks[id])
  }

  ghost predicate Aligned(s: State, m: nat) {
    forall j <- s.jobs :: RenderOk(s.jobs[j], m) && JobFits(s, j)
  }

  /** Nobody is handed more than `m` units at once. */
  predicate AtMost(e: Event, m: nat) {
    e.LeaseRequest? ==> e.ask.units <= m
  }

  lemma MovedKeepsAligned(s: State, s': State, m: nat)
    requires Aligned(s, m) && Moved(s, s')
    ensures Aligned(s', m)
  {
    forall j <- s'.jobs ensures JobFits(s', j) {
      forall id | id in s'.jobs[j].tasks && id in s'.tasks ensures FitsTile(s'.jobs[j], s'.tasks[id]) {
        assert JobFits(s, j) && SameRange(s.tasks[id], s'.tasks[id]);
      }
    }
  }

  /** A carve from the least-granted tile fits that tile, and keeps tiles even. */
  lemma CarveFits(j: Job, units: nat, m: nat, id: TaskId, w: nat, deadline: nat)
    requires JobOk(j) && RenderOk(j, m) && CarveAt(j).Some? && units <= m
    ensures var (tile, start) := CarveAt(j).value;
            var count := CarveSize(j, start, units);
            RenderOk(Advanced(j, tile, count, id), m)
            && (count >= 1 ==> FitsTile(j, Task(id, j.id, Leased, start, count, w, deadline, NIL, [], [])))
  {
    if j.ByTile() {
      TileCarveSize(j, units);
      var k := CarveAt(j).value.0.value;
      var given := j.tileGranted[k];
      TileCarve(k, j.render.value.samplesPerTile, given, 0, 0);
      QuotientIs(CarveAt(j).value.1, j.render.value.samplesPerTile, k);
    }
  }

  /** Job `j` lists at most one task more, which fits; it is cut as before. */
  lemma OneMoreFits(s: State, s': State, j: JobId, id: TaskId)
    requires j in s.jobs && j in s'.jobs && JobFits(s, j)
    requires s'.jobs[j].render == s.jobs[j].render && |s'.jobs[j].tileGranted| == |s.jobs[j].tileGranted|
    requires forall x :: x in s'.jobs[j].tasks ==> x in s.jobs[j].tasks || x == id
    requires forall x :: x in s.jobs[j].tasks ==> x in s.tasks && x in s'.tasks && s'.tasks[x] == s.tasks[x]
    requires id in s'.jobs[j].tasks && id !in s.jobs[j].tasks ==> id in s'.tasks && FitsTile(s'.jobs[j], s'.tasks[id])
    ensures JobFits(s', j)
  {
    forall x | x in s'.jobs[j].tasks && x in s'.tasks ensures FitsTile(s'.jobs[j], s'.tasks[x]) {
      assert x in s.jobs[j].tasks ==> FitsTile(s.jobs[j], s.tasks[x]);
    }
  }

  lemma ListedAreOld(s: State, j: JobId)
    requires Ids(s) && Lists(s) && j in s.jobs
    ensures forall x :: x in s.jobs[j].tasks ==> x in s.tasks && x < s.nextId
  {
    forall x | x in s.jobs[j].tasks ensures x in s.tasks && x < s.nextId {
      var i :| 0 <= i < |s.jobs[j].tasks| && s.jobs[j].tasks[i] == x;
      assert s.jobs[j].tasks[i] in s.tasks;
    }
  }

  lemma CarvedTaskFits(s: State, j: JobId, w: WorkerId, now: nat, lease: nat, units: nat, m: nat)
    requires j in s.jobs && JobOk(s.jobs[j]) && RenderOk(s.jobs[j], m) && units <= m
    requires Carve(s, j, w, now, lease, units).1.Some?
    ensures var s' := Carve(s, j, w, now, lease, units).0;
            j in s'.jobs && RenderOk(s'.jobs[j], m) && |s'.jobs[j].tileGranted| == |s.jobs[j].tileGranted|
            && s.nextId in s'.tasks && FitsTile(s'.jobs[j], s'.tasks[s.nextId])
  {
    var s' := Carve(s, j, w, now, lease, units).0;
    CarveFits(s.jobs[j], units, m, s.nextId, w, now + lease);
    assert s'.jobs[j] == Advanced(s.jobs[j], CarveAt(s.jobs[j]).value.0, s'.tasks[s.nextId].count, s.nextId);
  }

  lemma CarveKeepsAligned(s: State, j: JobId, w: WorkerId, now: nat, lease: nat, units: nat, m: nat)
    requires Ids(s) && Lists(s) && j in s.jobs && JobOk(s.jobs[j]) && Aligned(s, m) && units <= m
    ensures Aligned(Carve(s, j, w, now, lease, units).0, m)
  {
    var (s', r) := Carve(s, j, w, now, lease, units);
    if r.Some? {
      CarvedTaskFits(s, j, w, now, lease, units, m);
    }
    forall i <- s'.jobs ensures RenderOk(s'.jobs[i], m) && JobFits(s', i) {
      ListedAreOld(s, i);
      OneMoreFits(s, s', i, s.nextId);
    }
  }

  lemma {:induction false} CarveFirstKeepsAligned(s: State, order: seq<JobId>, w: WorkerId, now: nat, lease: nat, units: nat, m: nat)
    requires Core(s) && Covered(s) && Aligned(s, m) && units <= m
    ensures Aligned(CarveFirst(s, order, w, now, lease, units).0, m)
    decreases order
  {
    if order == [] {
    } else if order[0] !in s.jobs || s.jobs[order[0]].Exhausted() {
      CarveFirstKeepsAligned(s, order[1..], w, now, lease, units, m);
    } else {
      assert JobCovered(s, order[0]);
      CarveKeepsAligned(s, order[0], w, now, lease, units, m);
      CarveKeeps(s, order[0], w, now, lease, units);
      CarveKeepsCovered(s, order[0], w, now, lease, units);
      var (s1, r) := Carve(s, order[0], w, now, lease, units);
      if r.None? {
        CarveFirstKeepsAligned(s1, order[1..], w, now, lease, units, m);
      }
    }
  }

  lemma GrantKeepsAligned(s: State, w: WorkerId, now: nat, lease: nat, units: nat, cached: seq<AssetId>, order: seq<JobId>, m: nat)
    requires Core(s) && Covered(s) && Aligned(s, m) && units <= m
    ensures Aligned(GrantTask(s, w, now, lease, units, cached, order).0, m)
  {
    match QueuePick(s, w, cached)
    case Some(k) =>
      GrantQueuedGood(s, w, now, lease, k);
      MovedKeepsAligned(s, GrantQueued(s, w, now, lease, k), m);
    case None =>
      CarveFirstKeepsAligned(s, PreferredJobs(s, cached, order) + order, w, now, lease, units, m);
  }

  /** A replica has its original's range. */
  lemma RaceKeepsAligned(s: State, w: WorkerId, now: nat, lease: nat, threshold: real, order: seq<JobId>, m: nat)
    requires Ids(s) && Lists(s) && Aligned(s, m)
    ensures Aligned(IssueSpeculative(s, w, now, lease, threshold, order).0, m)
  {
    match RaceJob(s, w, threshold, order)
    case None =>
    case Some(k) => ReplicaKeepsAligned(s, order[k], RaceIn(s, order[k], w, threshold).value, w, now, lease, m);
  }

  lemma ReplicaKeepsAligned(s: State, j: JobId, original: TaskId, w: WorkerId, now: nat, lease: nat, m: nat)
    requires Ids(s) && Lists(s) && Aligned(s, m) && j in s.jobs && original in s.jobs[j].tasks && original in s.tasks
    ensures Aligned(AddReplica(s, j, original, w, now, lease), m)
  {
    var s' := AddReplica(s, j, original, w, now, lease);
    assert JobFits(s, j) && FitsTile(s.jobs[j], s.tasks[original]);
    forall i <- s'.jobs ensures RenderOk(s'.jobs[i], m) && JobFits(s', i) {
      ListedAreOld(s, i);
      OneMoreFits(s, s', i, s.nextId);
    }
  }

  lemma ProbeKeepsAligned(s: State, w: WorkerId, now: nat, lease: nat, start: nat, count: nat, order: seq<JobId>, m: nat)
    requires Ids(s) && Lists(s) && Aligned(s, m)
    ensures Aligned(IssueKnownRange(s, w, now, lease, start, count, order).0, m)
  {
    var (s', r) := IssueKnownRange(s, w, now, lease, start, count, order);
    forall i <- s'.jobs ensures JobFits(s', i) {
      ListedAreOld(s, i);
      OneMoreFits(s, s', i, s.nextId);
    }
  }

  lemma LeaseKeepsAligned(u: Setup, s: State, a: Ask, now: nat, order: seq<JobId>, m: nat)
    requires Core(s) && Covered(s) && Aligned(s, m) && a.units <= m
    ensures Aligned(OnLease(u, s, a, now, order).0, m)
  {
    var (s1, granted) := GrantTask(s, a.worker, now, u.leaseMs, a.units, a.cached, order);
    GrantKeeps(s, a.worker, now, u.leaseMs, a.units, a.cached, order);
    GrantKeepsAligned(s, a.worker, now, u.leaseMs, a.units, a.cached, order, m);
    if granted.Some? && a.probe.Some? {
      var p := a.probe.value;
      var (s2, issued) := IssueKnownRange(s1, a.worker, now, u.leaseMs, p.0, p.1, order);
      ProbeKeepsAligned(s1, a.worker, now, u.leaseMs, p.0, p.1, order, m);
      ProbeKeeps(s1, a.worker, now, u.leaseMs, p.0, p.1, order);
      if issued.Some? && Requeue(s2, granted.value, Release).Some? {
        RequeueGood(s2, granted.value, Release);
        MovedKeepsAligned(s2, Requeue(s2, granted.value, Release).value, m);
      }
    } else if granted.None? && a.speculate {
      RaceKeepsAligned(s1, a.worker, now, u.leaseMs, a.threshold, order, m);
    }
  }

  lemma NewJobKeepsAligned(s: State, s': State, m: nat)
    requires Aligned(s, m) && NoNewTask(s, s')
    requires forall j <- s'.jobs | j !in s.jobs :: RenderOk(s'.jobs[j], m)
    ensures Aligned(s', m)
  {
    forall j <- s'.jobs ensures JobFits(s', j) {
      assert j in s.jobs ==> JobFits(s, j);
    }
  }

  lemma StepKeepsAligned(u: Setup, s: State, e: Event, m: nat)
    requires Core(s) && Covered(s) && Registered(u, s) && Aligned(s, m) && AtMost(e, m)
    ensures Aligned(Step(u, s, e), m)
  {
    hide JobCovered, Aligned;
    if OnlyMoves(e) {
      MoveStepGood(u, s, e);
      MovedKeepsAligned(s, Step(u, s, e), m);
    } else if e.LeaseRequest? {
      LeaseKeepsAligned(u, s, e.ask, e.now, e.jobOrder, m);
    } else {
      NewJobKeepsAligned(s, Step(u, s, e), m);
    }
  }

  ghost predicate AllAtMost(es: seq<Event>, m: nat) {
    forall i :: 0 <= i < |es| ==> AtMost(es[i], m)
  }

  lemma {:induction false} RunIsAligned(u: Setup, s: State, es: seq<Event>, m: nat)
    requires Safe(u, s) && Run(u, s, es) && Aligned(s, m) && AllAtMost(es, m)
    ensures Aligned(Final(u, s, es), m)
    decreases es
  {
    if es != [] {
      StepSafe(u, s, es[0]);
      StepKeepsAligned(u, s, es[0], m);
      RunIsAligned(u, Step(u, s, es[0]), es[1..], m);
    }
  }

  // ---- task parameters -----------------------------------------------------------------------

  /** What the kernel is told: a window of samples, and the tile in the image. */
  datatype PathParams = PathParams(startSample: nat, samples: nat, tile: Tile, imageW: nat, imageH: nat)

  datatype Built = Ok(params: PathParams) | NoRenderConfig | NoSamples | OutsideGrid | SpansTiles

  function BuildParams(j: Job, t: Task): Built {
    if j.render.None? then NoRenderConfig
    else
      var r := j.render.value;
      if r.samplesPerTile == 0 then NoSamples
      else
        var tile := r.grid.TileAt(t.start / r.samplesPerTile);
        var offset := t.start % r.samplesPerTile;
        if tile.None? then OutsideGrid
        else if offset + t.count > r.samplesPerTile then SpansTiles
        else Ok(PathParams(offset, t.count, tile.value, r.grid.imageW, r.grid.imageH))
  }

  /** `unit` is one of the window's samples of the tile. */
  predicate InWindow(unit: nat, spt: nat, tile: nat, p: PathParams)
    requires spt > 0
  {
    unit / spt == tile && p.startSample <= unit % spt < p.startSample + p.samples
  }

  /** The kernel gets the image's size, the tile the task starts in, and samples
      of that tile that are exactly the task's units. */
  ghost predicate RendersExactly(j: Job, t: Task)
    requires j.ByTile()
  {
    var spt, built := j.render.value.samplesPerTile, BuildParams(j, t);
    built.Ok? && built.params.samples == t.count >= 1
    && built.params.imageW == j.render.value.grid.imageW && built.params.imageH == j.render.value.grid.imageH
    && Some(built.params.tile) == j.render.value.grid.TileAt(t.start / spt)
    && forall unit: nat :: t.start <= unit < t.start + t.count ==> InWindow(unit, spt, t.start / spt, built.params)
  }

  lemma WindowUnit(start: nat, count: nat, spt: nat, unit: nat)
    requires spt > 0 && start % spt + count <= spt && start <= unit < start + count
    ensures unit / spt == start / spt && start % spt <= unit % spt < start % spt + count
  {
    QuotientIs(unit, spt, start / spt);
    assert start == start / spt * spt + start % spt;
    assert unit == unit / spt * spt + unit % spt;
  }

  lemma FittingTaskBuilds(j: Job, t: Task, m: nat)
    requires j.ByTile() && FitsTile(j, t) && RenderOk(j, m)
    ensures RendersExactly(j, t)
  {
    var spt := j.render.value.samplesPerTile;
    forall unit: nat | t.start <= unit < t.start + t.count
      ensures unit / spt == t.start / spt && t.start % spt <= unit % spt < t.start % spt + t.count
    {
      WindowUnit(t.start, t.count, spt, unit);
    }
  }

  /** However a render job was split, requeued or raced, each of its tasks gets
      parameters that render exactly its units. */
  lemma EveryRenderTaskBuilds(u: Setup, es: seq<Event>, m: nat, j: JobId, id: TaskId)
    requires Run(u, INITIAL, es) && AllAtMost(es, m)
    requires var s := Final(u, INITIAL, es); j in s.jobs && s.jobs[j].ByTile() && id in s.jobs[j].tasks
    ensures var s := Final(u, INITIAL, es); id in s.tasks && RendersExactly(s.jobs[j], s.tasks[id])
  {
    var s := Final(u, INITIAL, es);
    StartIsSafe(u);
    RunIsSafe(u, INITIAL, es);
    RunIsAligned(u, INITIAL, es, m);
    ListedAreOld(s, j);
    assert JobFits(s, j);
    FittingTaskBuilds(s.jobs[j], s.tasks[id], m);
  }

  /** A task of a render job gets parameters if, and only if, it is a window of
      one tile's samples; and then they render exactly its units. */
  lemma BuildsIffFits(j: Job, t: Task, m: nat)
    requires j.ByTile() && RenderOk(j, m) && t.count > 0
    ensures BuildParams(j, t).Ok? <==> FitsTile(j, t)
    ensures RendersExactly(j, t) <==> FitsTile(j, t)
  {
    if FitsTile(j, t) {
      FittingTaskBuilds(j, t, m);
    }
  }

  /** A probe is attached to the first job long enough, whatever that job's
      tiles: so all tasks of a render job - queued, leased or probing - get their
      parameters if, and only if, each probe is a window of one tile. */
  lemma EveryTaskBuildsIff(u: Setup, es: seq<Event>, m: nat, j: JobId)
    requires Run(u, INITIAL, es) && AllAtMost(es, m)
    requires var s := Final(u, INITIAL, es); j in s.jobs && s.jobs[j].ByTile()
    ensures var s := Final(u, INITIAL, es);
            (forall id <- s.tasks | s.tasks[id].job == j :: RendersExactly(s.jobs[j], s.tasks[id]))
            <==> (forall p <- s.tasks | s.tasks[p].job == j && p !in s.jobs[j].tasks :: FitsTile(s.jobs[j], s.tasks[p]))
  {
    var s := Final(u, INITIAL, es);
    StartIsSafe(u);
    RunIsSafe(u, INITIAL, es);
    RunIsAligned(u, INITIAL, es, m);
    AllBuildIff(s, j, m);
  }

  lemma AllBuildIff(s: State, j: JobId, m: nat)
    requires TasksOk(s) && Aligned(s, m) && j in s.jobs && s.jobs[j].ByTile()
    ensures (forall id <- s.tasks | s.tasks[id].job == j :: RendersExactly(s.jobs[j], s.tasks[id]))
            <==> (forall p <- s.tasks | s.tasks[p].job == j && p !in s.jobs[j].tasks :: FitsTile(s.jobs[j], s.tasks[p]))
  {
    assert RenderOk(s.jobs[j], m) && JobFits(s, j);
    forall id <- s.tasks | s.tasks[id].job == j
      ensures RendersExactly(s.jobs[j], s.tasks[id]) <==> FitsTile(s.jobs[j], s.tasks[id])
    {
      assert TaskOk(s.tasks[id]);
      BuildsIffFits(s.jobs[j], s.tasks[id], m);
    }
  }

  /** The image converges evenly: in every reachable state any two tiles of a
      render job are within one grant of each other, and all are full exactly
      when the keyspace is exhausted. */
  lemma TilesConvergeEvenly(u: Setup, es: seq<Event>, m: nat, j: JobId)
    requires Run(u, INITIAL, es) && AllAtMost(es, m)
    requires j in Final(u, INITIAL, es).jobs && Final(u, INITIAL, es).jobs[j].ByTile()
    ensures var job := Final(u, INITIAL, es).jobs[j];
            Even(job.tileGranted, m)
            && (job.Exhausted() <==> forall i :: 0 <= i < |job.tileGranted| ==> job.tileGranted[i] == job.render.value.samplesPerTile)
  {
    var s := Final(u, INITIAL, es);
    StartIsSafe(u);
    RunIsSafe(u, INITIAL, es);
    RunIsAligned(u, INITIAL, es, m);
    assert JobCovered(s, j);
    FullIffExhausted(s.jobs[j]);
  }

  lemma FullIffExhausted(job: Job)
    requires JobOk(job) && job.ByTile()
    ensures job.Exhausted() <==> forall i :: 0 <= i < |job.tileGranted| ==> job.tileGranted[i] == job.render.value.samplesPerTile
  {
    var spt := job.render.value.samplesPerTile;
    SumAtCap(job.tileGranted, spt);
    if forall i :: 0 <= i < |job.tileGranted| ==> job.tileGranted[i] == spt {
      SumFull(job.tileGranted, spt);
    }
  }
}
