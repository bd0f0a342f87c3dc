/** Whose work a grant hands out, and which part of it (`GrantTask` of
    src/coordinator/job.cpp): affinity, order, and the range carved. */
module Granting {
  import opened Basics
  import opened TaskStates
  import opened TileGrids
  import opened Coordinator
  import opened Protocol
  import opened Invariants
  import opened Growth
  import opened Coverage
  import opened Progress
  import opened Serving

  /** Queued, and never answered by `w`. */
  ghost predicate FreeFor(s: State, w: WorkerId, id: TaskId) {
    id in s.tasks && s.tasks[id].state.Queued? && w !in s.tasks[id].prior
  }

  /** The job reads an asset the worker holds. */
  ghost predicate ReadsHeld(s: State, cached: seq<AssetId>, j: JobId) {
    j in s.jobs && s.jobs[j].input.Some? && s.jobs[j].input.value in cached
  }

  /** Some of the job's keyspace was never handed out. */
  ghost predicate Open(s: State, j: JobId) {
    j in s.jobs && s.jobs[j].next < s.jobs[j].total
  }

  // ---- queued work first ---------------------------------------------------------------

  /** Position `k` holds the first queued task of a job that reads an asset the worker holds. */
  ghost predicate FirstHeld(s: State, cached: seq<AssetId>, k: nat) {
    k < |s.queue| && s.queue[k] in s.tasks && ReadsHeld(s, cached, s.tasks[s.queue[k]].job)
    && forall i :: 0 <= i < k ==> s.queue[i] in s.tasks ==> !ReadsHeld(s, cached, s.tasks[s.queue[i]].job)
  }

  /** The first such task, if it is free for the worker; or else the first task that is. */
  ghost predicate IsDue(s: State, w: WorkerId, cached: seq<AssetId>, k: nat) {
    k < |s.queue| && FreeFor(s, w, s.queue[k])
    && (FirstHeld(s, cached, k)
        || ((forall i: nat | FirstHeld(s, cached, i) :: !FreeFor(s, w, s.queue[i]))
            && forall i :: 0 <= i < k ==> !FreeFor(s, w, s.queue[i])))
  }

  lemma PreferredIs(s: State, cached: seq<AssetId>, k: nat)
    ensures Preferred(s, cached) == Some(k) <==> FirstHeld(s, cached, k)
  {
    if FirstHeld(s, cached, k) {
      FirstMatchUnique(s.queue, id => HasInput(s, cached, id), k);
    }
  }

  lemma PickIs(s: State, w: WorkerId, cached: seq<AssetId>, k: nat)
    ensures QueuePick(s, w, cached) == Some(k) <==> IsDue(s, w, cached, k)
  {
    forall i: nat ensures Preferred(s, cached) == Some(i) <==> FirstHeld(s, cached, i) {
      PreferredIs(s, cached, i);
    }
    if k < |s.queue| && FreeFor(s, w, s.queue[k]) && forall i :: 0 <= i < k ==> !FreeFor(s, w, s.queue[i]) {
      FirstMatchUnique(s.queue, id => Grantable(s, w, id), k);
    }
  }

  /** The task that is due is leased to the worker and leaves the queue. */
  lemma QueuedGrant(s: State, w: WorkerId, now: nat, lease: nat, units: nat, cached: seq<AssetId>, order: seq<JobId>, k: nat)
    requires IsDue(s, w, cached, k)
    ensures var (s', r) := GrantTask(s, w, now, lease, units, cached, order);
            r == Some(s.queue[k])
            && s'.tasks == s.tasks[s.queue[k] := s.tasks[s.queue[k]].(state := Leased, holder := w, deadline := now + lease)]
            && s'.queue == s.queue[..k] + s.queue[k + 1..]
            && s'.jobs == s.jobs && s'.partials == s.partials && s'.nextId == s.nextId && s'.wasted == s.wasted
  {
    PickIs(s, w, cached, k);
  }

  /** Some task is due as soon as one of the queue is free. */
  lemma SomeDue(s: State, w: WorkerId, cached: seq<AssetId>, i: nat)
    requires i < |s.queue| && FreeFor(s, w, s.queue[i])
    ensures exists k :: IsDue(s, w, cached, k)
  {
    assert Grantable(s, w, s.queue[i]) && s.queue[i] in s.queue;
    var k := QueuePick(s, w, cached);
    assert k.Some?;
    PickIs(s, w, cached, k.value);
  }

  // ---- fresh keyspace ---------------------------------------------------------------------

  /** The first job of `order` with keyspace left that reads an asset the worker
      holds; if there is none, the first with keyspace left. */
  ghost predicate IsSource(s: State, cached: seq<AssetId>, order: seq<JobId>, k: nat) {
    k < |order| && Open(s, order[k])
    && if exists j <- order :: Open(s, j) && ReadsHeld(s, cached, j)
       then ReadsHeld(s, cached, order[k]) && forall i :: 0 <= i < k ==> !(Open(s, order[i]) && ReadsHeld(s, cached, order[i]))
       else forall i :: 0 <= i < k ==> !Open(s, order[i])
  }

  lemma {:induction false} SkipClosed(s: State, a: seq<JobId>, b: seq<JobId>, w: WorkerId, now: nat, lease: nat, units: nat)
    requires forall j <- a :: !Open(s, j)
    ensures CarveFirst(s, a + b, w, now, lease, units) == CarveFirst(s, b, w, now, lease, units)
    decreases a
  {
    if a == [] {
      assert a + b == b;
    } else {
      assert (a + b)[0] == a[0] && (a + b)[1..] == a[1..] + b && !Open(s, a[0]);
      SkipClosed(s, a[1..], b, w, now, lease, units);
    }
  }

  /** The first job with keyspace left is the one carved. */
  lemma FirstOpenCarves(s: State, order: seq<JobId>, k: nat, w: WorkerId, now: nat, lease: nat, units: nat)
    requires JobsOk(s) && units >= 1 && k < |order| && Open(s, order[k]) && forall i :: 0 <= i < k ==> !Open(s, order[i])
    ensures CarveFirst(s, order, w, now, lease, units) == Carve(s, order[k], w, now, lease, units)
  {
    SkipClosed(s, order[..k], order[k..], w, now, lease, units);
    assert order[..k] + order[k..] == order;
    CarveSucceeds(s, order[k], w, now, lease, units);
  }

  /** Where the last job of `order` comes in the two passes. */
  function Tail(s: State, cached: seq<AssetId>, last: JobId, rest: seq<JobId>): seq<JobId> {
    if PrefersJob(s, cached, last) then [last] + rest else rest
  }

  lemma PreferredSnoc(s: State, cached: seq<AssetId>, init: seq<JobId>, last: JobId, rest: seq<JobId>)
    ensures PreferredJobs(s, cached, init + [last]) + rest == PreferredJobs(s, cached, init) + Tail(s, cached, last, rest)
  {
    assert (init + [last])[..|init|] == init;
  }

  /** None of the jobs before the source that read an asset held has keyspace left. */
  lemma ClosedBefore(s: State, cached: seq<AssetId>, init: seq<JobId>)
    requires forall j <- init :: !(Open(s, j) && ReadsHeld(s, cached, j))
    ensures forall j <- PreferredJobs(s, cached, init) :: !Open(s, j)
  {
  }

  /** Before the others are looked at, the first of those that read an asset held is carved. */
  lemma {:induction false} HeldCarvesFirst(s: State, cached: seq<AssetId>, order: seq<JobId>, rest: seq<JobId>, k: nat,
                                           w: WorkerId, now: nat, lease: nat, units: nat)
    requires JobsOk(s) && units >= 1 && k < |order| && Open(s, order[k]) && ReadsHeld(s, cached, order[k])
    requires forall i :: 0 <= i < k ==> !(Open(s, order[i]) && ReadsHeld(s, cached, order[i]))
    ensures CarveFirst(s, PreferredJobs(s, cached, order) + rest, w, now, lease, units) == Carve(s, order[k], w, now, lease, units)
    decreases |order|
  {
    var init, last := order[..|order| - 1], order[|order| - 1];
    assert order == init + [last];
    PreferredSnoc(s, cached, init, last, rest);
    if k < |init| {
      HeldCarvesFirst(s, cached, init, Tail(s, cached, last, rest), k, w, now, lease, units);
    } else {
      ClosedBefore(s, cached, init);
      SkipClosed(s, PreferredJobs(s, cached, init), Tail(s, cached, last, rest), w, now, lease, units);
      FirstOpenCarves(s, Tail(s, cached, last, rest), 0, w, now, lease, units);
    }
    hide PreferredJobs, Carve, CarveFirst, JobsOk;
  }

  /** With nothing queued for the worker, the source is the job carved. */
  lemma FreshGrant(s: State, w: WorkerId, now: nat, lease: nat, units: nat, cached: seq<AssetId>, order: seq<JobId>, k: nat)
    requires JobsOk(s) && units >= 1 && IsSource(s, cached, order, k)
    requires forall id <- s.queue :: !FreeFor(s, w, id)
    ensures GrantTask(s, w, now, lease, units, cached, order) == Carve(s, order[k], w, now, lease, units)
  {
    NothingDue(s, w, cached);
    if exists j <- order :: Open(s, j) && ReadsHeld(s, cached, j) {
      HeldCarvesFirst(s, cached, order, order, k, w, now, lease, units);
    } else {
      forall j <- PreferredJobs(s, cached, order) ensures !Open(s, j) {
        assert j in order;
      }
      SkipClosed(s, PreferredJobs(s, cached, order), order, w, now, lease, units);
      FirstOpenCarves(s, order, k, w, now, lease, units);
    }
  }

  lemma NothingDue(s: State, w: WorkerId, cached: seq<AssetId>)
    requires forall id <- s.queue :: !FreeFor(s, w, id)
    ensures QueuePick(s, w, cached).None?
  {
    var k := QueuePick(s, w, cached);
    if k.Some? {
      assert FreeFor(s, w, s.queue[k.value]);
    }
  }

  /** A source exists as soon as some job has keyspace left. */
  lemma SomeSource(s: State, cached: seq<AssetId>, order: seq<JobId>, i: nat)
    requires i < |order| && Open(s, order[i])
    ensures exists k :: IsSource(s, cached, order, k)
  {
    var held := exists j <- order :: Open(s, j) && ReadsHeld(s, cached, j);
    var k := FirstMatch(order, j => Open(s, j) && (held ==> ReadsHeld(s, cached, j)));
    assert Open(s, order[i]);
    assert k.Some? && IsSource(s, cached, order, k.value);
  }

  // ---- the range carved -------------------------------------------------------------------

  /** Least granted of the tiles with samples left, the lowest of several. */
  ghost predicate NextTile(j: Job, k: nat) {
    j.render.Some? && k < |j.tileGranted| && j.tileGranted[k] < j.render.value.samplesPerTile
    && forall i :: 0 <= i < |j.tileGranted| ==> j.tileGranted[k] <= j.tileGranted[i] && (i < k ==> j.tileGranted[k] < j.tileGranted[i])
  }

  /** `count` units from `start` are as many as were asked for, as remain, or as
      fit before the next boundary, whichever is least. */
  ghost predicate AsManyAs(j: Job, start: nat, count: nat, units: nat) {
    1 <= count <= units && j.next + count <= j.total
    && (j.group > 0 ==> start % j.group + count <= j.group)
    && (count == units || j.next + count == j.total || (j.group > 0 && start % j.group + count == j.group))
  }

  /** Job `j` gave `count` units from `start` to task `id` and became `j'`: from
      the next tile if it renders, or else from its cursor. */
  ghost predicate Gives(j: Job, j': Job, id: TaskId, start: nat, count: nat, units: nat) {
    AsManyAs(j, start, count, units)
    && j' == j.(next := j.next + count, tasks := j.tasks + [id], tileGranted := j'.tileGranted)
    && if j.render.Some? && j.render.value.samplesPerTile > 0 && j.tileGranted != []
       then exists k: nat :: NextTile(j, k) && start == k * j.render.value.samplesPerTile + j.tileGranted[k]
                        && j'.tileGranted == j.tileGranted[k := j.tileGranted[k] + count]
       else start == j.next && j'.tileGranted == j.tileGranted
  }

  /** A new task, leased to `w`, over units that its job gave it; nothing else changed. */
  ghost predicate CarvedFor(s: State, s': State, j: JobId, w: WorkerId, deadline: nat, units: nat)
    requires j in s.jobs
  {
    var id := s.nextId;
    j in s'.jobs && s'.jobs == s.jobs[j := s'.jobs[j]] && id in s'.tasks && s'.tasks == s.tasks[id := s'.tasks[id]]
    && var t := s'.tasks[id];
       Gives(s.jobs[j], s'.jobs[j], id, t.start, t.count, units)
       && t == Task(id, j, Leased, t.start, t.count, w, deadline, NIL, [], [])
       && s'.queue == s.queue && s'.partials == s.partials && s'.nextId == id + 1 && s'.wasted == s.wasted
  }

  lemma CarveAtIs(j: Job)
    requires JobOk(j) && j.next < j.total
    ensures CarveAt(j).Some?
    ensures var (tile, start) := CarveAt(j).value;
            if j.ByTile() then
              tile.Some? && NextTile(j, tile.value)
              && start == tile.value * j.render.value.samplesPerTile + j.tileGranted[tile.value]
            else tile.None? && start == j.next
  {
    RoomToCarve(j);
  }

  lemma CarveEffect(s: State, j: JobId, w: WorkerId, now: nat, lease: nat, units: nat)
    requires JobsOk(s) && units >= 1 && Open(s, j)
    ensures var (s', r) := Carve(s, j, w, now, lease, units); r == Some(s.nextId) && CarvedFor(s, s', j, w, now + lease, units)
  {
    CarveSucceeds(s, j, w, now, lease, units);
    CarveAtIs(s.jobs[j]);
    var (s', r) := Carve(s, j, w, now, lease, units);
    var (tile, start) := CarveAt(s.jobs[j]).value;
    var count := CarveSize(s.jobs[j], start, units);
    assert AsManyAs(s.jobs[j], start, count, units) by {
      assert s.jobs[j].group > 0 ==> start % s.jobs[j].group < s.jobs[j].group;
    }
    if s.jobs[j].ByTile() {
      assert NextTile(s.jobs[j], tile.value);
    }
  }

  /** A range of the source, if there is one; or else nothing. */
  ghost predicate Fresh(s: State, s': State, r: Option<TaskId>, cached: seq<AssetId>, order: seq<JobId>, w: WorkerId,
                        deadline: nat, units: nat) {
    if exists j <- order :: Open(s, j)
    then r == Some(s.nextId) && exists k: nat :: IsSource(s, cached, order, k) && CarvedFor(s, s', order[k], w, deadline, units)
    else r.None? && s' == s
  }

  /** With nothing queued for the worker: if a job with keyspace left reads an
      asset the worker holds, the range comes from such a job, the first in the
      order; if none does, from the first that has any left; and if none has,
      there is no grant. */
  lemma FreshEffect(s: State, w: WorkerId, now: nat, lease: nat, units: nat, cached: seq<AssetId>, order: seq<JobId>)
    requires JobsOk(s) && units >= 1 && forall id <- s.queue :: !FreeFor(s, w, id)
    ensures var (s', r) := GrantTask(s, w, now, lease, units, cached, order);
            Fresh(s, s', r, cached, order, w, now + lease, units)
  {
    if j :| j in order && Open(s, j) {
      var i: nat :| i < |order| && order[i] == j;
      SomeSource(s, cached, order, i);
      var k: nat :| IsSource(s, cached, order, k);
      hide GrantTask, CarvedFor, Carve, IsSource;
      assert order[k] in order && Open(s, order[k]) by { SourceIsOpen(s, cached, order, k); }
      FreshGrant(s, w, now, lease, units, cached, order, k);
      CarveEffect(s, order[k], w, now, lease, units);
    } else {
      NothingDue(s, w, cached);
      var jobs := PreferredJobs(s, cached, order) + order;
      assert jobs + [] == jobs;
      SkipClosed(s, jobs, [], w, now, lease, units);
    }
  }

  /** A worker that may take nothing is given nothing fresh. */
  lemma NoUnitsNoGrant(s: State, w: WorkerId, now: nat, lease: nat, cached: seq<AssetId>, order: seq<JobId>)
    requires forall id <- s.queue :: !FreeFor(s, w, id)
    ensures GrantTask(s, w, now, lease, 0, cached, order) == (s, None)
  {
    NothingDue(s, w, cached);
  }

  lemma SourceIsOpen(s: State, cached: seq<AssetId>, order: seq<JobId>, k: nat)
    requires IsSource(s, cached, order, k)
    ensures k < |order| && Open(s, order[k])
    ensures (exists j <- order :: Open(s, j) && ReadsHeld(s, cached, j)) ==> ReadsHeld(s, cached, order[k])
  {
  }

  /** So a worker that can have work for an asset it holds is not sent to fetch another. */
  lemma HeldAssetFirst(s: State, w: WorkerId, now: nat, lease: nat, units: nat, cached: seq<AssetId>, order: seq<JobId>, j: JobId)
    requires JobsOk(s) && units >= 1 && forall id <- s.queue :: !FreeFor(s, w, id)
    requires j in order && j in s.jobs && s.jobs[j].next < s.jobs[j].total
    requires s.jobs[j].input.Some? && s.jobs[j].input.value in cached
    ensures var (s', r) := GrantTask(s, w, now, lease, units, cached, order);
            r.Some? && r.value in s'.tasks && s'.tasks[r.value].job in s.jobs
            && var job := s.jobs[s'.tasks[r.value].job]; job.input.Some? && job.input.value in cached
  {
    assert Open(s, j) && ReadsHeld(s, cached, j);
    hide GrantTask, IsSource, Gives;
    FreshEffect(s, w, now, lease, units, cached, order);
    var s' := GrantTask(s, w, now, lease, units, cached, order).0;
    var k: nat :| IsSource(s, cached, order, k) && CarvedFor(s, s', order[k], w, now + lease, units);
    SourceIsOpen(s, cached, order, k);
  }

  // ---- a whole request ----------------------------------------------------------------------

  /** The first job of `order` whose keyspace the known range fits in. */
  ghost predicate IsRangeJob(s: State, order: seq<JobId>, start: nat, count: nat, k: nat) {
    k < |order| && order[k] in s.jobs && start + count <= s.jobs[order[k]].total
    && forall i :: 0 <= i < k ==> order[i] in s.jobs ==> start + count > s.jobs[order[i]].total
  }

  /** Task `back` went back on the queue, and a probe over the known range was
      leased to `w` in its place, which no job lists. */
  ghost predicate ProbedInstead(s: State, s': State, back: TaskId, job: JobId, start: nat, count: nat, w: WorkerId, deadline: nat)
    requires back in s.tasks
  {
    s'.tasks == s.tasks[s.nextId := Task(s.nextId, job, Leased, start, count, w, deadline, NIL, [], [])]
                       [back := s.tasks[back].(state := Queued, holder := NIL, deadline := 0)]
    && s'.queue == s.queue + [back]
    && s'.jobs == s.jobs && s'.partials == s.partials && s'.nextId == s.nextId + 1 && s'.wasted == s.wasted
  }

  /** A known range that fits somewhere displaces the task granted. */
  ghost predicate MayProbe(s: State, s': State, back: TaskId, probe: (nat, nat), order: seq<JobId>, w: WorkerId, deadline: nat) {
    back in s.tasks
    && if probe.1 > 0 && exists k: nat :: IsRangeJob(s, order, probe.0, probe.1, k)
       then exists k: nat :: IsRangeJob(s, order, probe.0, probe.1, k)
                             && ProbedInstead(s, s', back, order[k], probe.0, probe.1, w, deadline)
       else s' == s
  }

  lemma RangeJobIs(s: State, start: nat, count: nat, order: seq<JobId>)
    ensures var r := RangeJob(s, start, count, order);
            if r.Some? then IsRangeJob(s, order, start, count, r.value) && order[r.value] in s.jobs
            else forall k: nat :: !IsRangeJob(s, order, start, count, k)
  {
  }

  lemma SwapEffect(s: State, w: WorkerId, back: TaskId, probe: (nat, nat), now: nat, lease: nat, order: seq<JobId>)
    requires Ids(s) && back in s.tasks && s.tasks[back].state.Leased?
    ensures MayProbe(s, SwapForProbe(s, w, back, probe, now, lease, order).0, back, probe, order, w, now + lease)
  {
    RangeJobIs(s, probe.0, probe.1, order);
    var r := RangeJob(s, probe.0, probe.1, order);
    hide RangeJob, IsRangeJob;
    if r.Some? && probe.1 > 0 {
      assert s.nextId !in s.tasks;
    }
  }

  lemma GrantedIsLeased(s: State, w: WorkerId, now: nat, lease: nat, units: nat, cached: seq<AssetId>, order: seq<JobId>)
    requires Core(s)
    ensures var (s1, granted) := GrantTask(s, w, now, lease, units, cached, order);
            Ids(s1) && (granted.Some? ==> granted.value in s1.tasks && s1.tasks[granted.value].state.Leased?)
  {
    GrantHeld(s, w, now, lease, units, cached, order);
    GrantKeeps(s, w, now, lease, units, cached, order);
    hide GrantTask;
  }

  /** One request: a grant, which a probe may displace, or else a race. */
  ghost predicate Served(u: Setup, s: State, s': State, a: Ask, now: nat, order: seq<JobId>) {
    var (s1, granted) := GrantTask(s, a.worker, now, u.leaseMs, a.units, a.cached, order);
    if granted.None? then s' == if a.speculate then IssueSpeculative(s1, a.worker, now, u.leaseMs, a.threshold, order).0 else s1
    else if a.probe.Some? then MayProbe(s1, s', granted.value, a.probe.value, order, a.worker, now + u.leaseMs)
    else s' == s1
  }

  lemma PickEffect(u: Setup, s: State, a: Ask, now: nat, order: seq<JobId>)
    requires Core(s)
    ensures Served(u, s, OnLease(u, s, a, now, order).0, a, now, order)
  {
    hide Core, GrantTask, IssueSpeculative, MayProbe, SwapForProbe, Ids;
    var (s1, granted) := GrantTask(s, a.worker, now, u.leaseMs, a.units, a.cached, order);
    GrantedIsLeased(s, a.worker, now, u.leaseMs, a.units, a.cached, order);
    if granted.Some? && a.probe.Some? {
      SwapEffect(s1, a.worker, granted.value, a.probe.value, now, u.leaseMs, order);
    }
  }

  /** That is all a request does to the state. */
  lemma LeaseEffect(u: Setup, s: State, a: Ask, now: nat, order: seq<JobId>)
    requires Core(s)
    ensures Served(u, s, Step(u, s, LeaseRequest(a, now, order)), a, now, order)
  {
    hide Core, Served, OnLease;
    PickEffect(u, s, a, now, order);
  }
}
