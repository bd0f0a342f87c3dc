/** The coordinator's state and what each `JobManager` operation does to it, as
    functions on values (src/coordinator/job.cpp). The class `JobManager` is
    proved against these functions; everything the protocol promises is proved
    about them.

    `std::unordered_map` is walked in an order nobody controls, so every
    operation that walks one takes that order as an argument. */
module Coordinator {
  import opened Basics
  import opened TaskStates
  import opened Quorum
  import opened TileGrids

  datatype Task = Task(
    id: TaskId, job: JobId, state: TaskState, start: nat, count: nat,
    holder: WorkerId, deadline: nat, replicaOf: TaskId,
    submissions: seq<Submission>, prior: seq<WorkerId>)

  datatype Render = Render(grid: TileGrid, samplesPerTile: nat)

  datatype Job = Job(
    id: JobId, kernel: string, seed: nat, total: nat, next: nat, group: nat,
    input: Option<AssetId>, render: Option<Render>, tileGranted: seq<nat>, tasks: seq<TaskId>) {

    predicate Exhausted() { next >= total }

    function Remaining(): nat { if Exhausted() then 0 else total - next }

    /** Carved tile by tile rather than by a cursor. */
    predicate ByTile() {
      render.Some? && render.value.samplesPerTile > 0 && tileGranted != []
    }
  }

  datatype Partial = Partial(worker: WorkerId, sequence: nat, unitsDone: nat, payload: Payload, receivedAt: nat)

  datatype State = State(
    jobs: map<JobId, Job>, tasks: map<TaskId, Task>, queue: seq<TaskId>,
    partials: map<TaskId, Partial>, dirtyTasks: set<TaskId>, dirtyJobs: set<JobId>,
    nextId: nat, wasted: nat)

  const INITIAL := State(map[], map[], [], map[], {}, {}, 1, 0)

  /** Every write to a task goes through here and marks its row. */
  function Put(s: State, id: TaskId, t: Task): State {
    s.(tasks := s.tasks[id := t], dirtyTasks := s.dirtyTasks + {id})
  }

  function Enqueue(s: State, id: TaskId): State {
    s.(queue := s.queue + [id])
  }

  // ---- jobs ---------------------------------------------------------------

  function CreateJob(s: State, kernel: string, total: nat, seed: nat, group: nat): State {
    var j := Job(s.nextId, kernel, seed, total, 0, group, None, None, [], []);
    s.(jobs := s.jobs[s.nextId := j], dirtyJobs := s.dirtyJobs + {s.nextId}, nextId := s.nextId + 1)
  }

  /** A render job: `CreateJob`, then the tile fields the seeding code sets. */
  function CreateRenderJob(s: State, kernel: string, r: Render, seed: nat, input: AssetId): State {
    var tiles := r.grid.TileCount();
    var s1 := CreateJob(s, kernel, tiles * r.samplesPerTile, seed, r.samplesPerTile);
    var j := s1.jobs[s.nextId].(render := Some(r), tileGranted := seq(tiles, _ => 0), input := Some(input));
    s1.(jobs := s1.jobs[s.nextId := j])
  }

  // ---- granting -----------------------------------------------------------

  /** `id` can be handed to `w`: it is queued, and `w` never answered it. */
  predicate Grantable(s: State, w: WorkerId, id: TaskId) {
    id in s.tasks && s.tasks[id].state.Queued? && w !in s.tasks[id].prior
  }

  /** `id` reads an asset the worker already holds. */
  predicate HasInput(s: State, cached: seq<AssetId>, id: TaskId) {
    id in s.tasks && s.tasks[id].job in s.jobs
    && s.jobs[s.tasks[id].job].input.Some? && s.jobs[s.tasks[id].job].input.value in cached
  }

  /** The first queued task whose input the worker holds. */
  function Preferred(s: State, cached: seq<AssetId>): Option<nat> {
    FirstMatch(s.queue, id => HasInput(s, cached, id))
  }

  function FirstGrantable(s: State, w: WorkerId): Option<nat> {
    FirstMatch(s.queue, id => Grantable(s, w, id))
  }

  /** The queue position a grant takes: the first task whose input the worker
      holds if that one is grantable, else the first grantable task. */
  function QueuePick(s: State, w: WorkerId, cached: seq<AssetId>): (r: Option<nat>)
    ensures r.Some? ==> r.value < |s.queue| && Grantable(s, w, s.queue[r.value])
    ensures r.None? ==> forall id <- s.queue :: !Grantable(s, w, id)
  {
    var preferred := Preferred(s, cached);
    if preferred.Some? && Grantable(s, w, s.queue[preferred.value]) then preferred
    else FirstGrantable(s, w)
  }

  function GrantQueued(s: State, w: WorkerId, now: nat, lease: nat, k: nat): State
    requires k < |s.queue| && s.queue[k] in s.tasks
  {
    var id := s.queue[k];
    Put(s, id, s.tasks[id].(state := Leased, holder := w, deadline := now + lease)).(queue := RemoveAt(s.queue, k))
  }

  /** The least-granted tile with budget left, lowest index on ties. */
  ghost predicate IsLeastTile(granted: seq<nat>, budget: nat, k: nat) {
    k < |granted| && granted[k] < budget
    && (forall i :: 0 <= i < |granted| ==> granted[k] <= granted[i])
    && (forall i :: 0 <= i < k ==> granted[k] < granted[i])
  }

  function LeastTile(granted: seq<nat>, budget: nat): (r: Option<nat>)
    ensures r.Some? ==> IsLeastTile(granted, budget, r.value)
    ensures r.None? ==> forall i :: 0 <= i < |granted| ==> granted[i] >= budget
  {
    if granted == [] then None
    else
      var last := |granted| - 1;
      match LeastTile(granted[..last], budget)
      case None => if granted[last] < budget then Some(last) else None
      case Some(k) => if granted[last] < granted[k] then Some(last) else Some(k)
  }

  /** Where the next range of `j` starts: the tile it comes from, if any, and the unit. */
  function CarveAt(j: Job): Option<(Option<nat>, nat)> {
    if j.ByTile() then
      match LeastTile(j.tileGranted, j.render.value.samplesPerTile)
      case None => None
      case Some(k) => Some((Some(k), k * j.render.value.samplesPerTile + j.tileGranted[k]))
    else Some((None, j.next))
  }

  /** How much of it is handed out: what was asked, what remains, and never
      past the end of the group the start lies in. */
  function CarveSize(j: Job, start: nat, units: nat): nat {
    var capped := Min(units, j.Remaining());
    if j.group == 0 then capped else Min(capped, j.group - start % j.group)
  }

  /** Carve a fresh range of job `j`. The id is consumed even when nothing is carved. */
  function Carve(s: State, j: JobId, w: WorkerId, now: nat, lease: nat, units: nat): (State, Option<TaskId>)
    requires j in s.jobs
  {
    var job := s.jobs[j];
    var id := s.nextId;
    var burnt := s.(nextId := id + 1);
    match CarveAt(job)
    case None => (burnt, None)
    case Some((tile, start)) =>
      var count := CarveSize(job, start, units);
      if count == 0 then (burnt, None)
      else
        var granted :=
          if tile.Some? && tile.value < |job.tileGranted|
          then job.tileGranted[tile.value := job.tileGranted[tile.value] + count] else job.tileGranted;
        var job' := job.(next := job.next + count, tileGranted := granted, tasks := job.tasks + [id]);
        var t := Task(id, j, Leased, start, count, w, now + lease, NIL, [], []);
        (Put(burnt, id, t).(jobs := s.jobs[j := job'], dirtyJobs := s.dirtyJobs + {j}), Some(id))
  }

  predicate PrefersJob(s: State, cached: seq<AssetId>, j: JobId) {
    j in s.jobs && s.jobs[j].input.Some? && s.jobs[j].input.value in cached
  }

  function PreferredJobs(s: State, cached: seq<AssetId>, order: seq<JobId>): (r: seq<JobId>)
    ensures forall j :: j in r <==> j in order && PrefersJob(s, cached, j)
  {
    Filter(order, j => PrefersJob(s, cached, j))
  }

  /** The first job of `order` that yields a range. */
  function CarveFirst(s: State, order: seq<JobId>, w: WorkerId, now: nat, lease: nat, units: nat): (State, Option<TaskId>)
    decreases order
  {
    if order == [] then (s, None)
    else if order[0] !in s.jobs || s.jobs[order[0]].Exhausted() then CarveFirst(s, order[1..], w, now, lease, units)
    else
      var (s1, r) := Carve(s, order[0], w, now, lease, units);
      if r.Some? then (s1, r) else CarveFirst(s1, order[1..], w, now, lease, units)
  }

  /** Requeued work first, then fresh keyspace: jobs whose asset the worker
      holds, and then every job. */
  function GrantTask(s: State, w: WorkerId, now: nat, lease: nat, units: nat,
                 cached: seq<AssetId>, order: seq<JobId>): (State, Option<TaskId>)
  {
    match QueuePick(s, w, cached)
    case Some(k) => (GrantQueued(s, w, now, lease, k), Some(s.queue[k]))
    case None =>
      if units == 0 then (s, None)
      else CarveFirst(s, PreferredJobs(s, cached, order) + order, w, now, lease, units)
  }

  // ---- the life of a lease -------------------------------------------------

  predicate HoldsLease(s: State, w: WorkerId, id: TaskId) {
    id in s.tasks && s.tasks[id].state.Leased? && s.tasks[id].holder == w
  }

  function RenewLease(s: State, w: WorkerId, id: TaskId, now: nat, lease: nat): Option<State> {
    if !HoldsLease(s, w, id) then None
    else Some(Put(s, id, s.tasks[id].(deadline := now + lease)))
  }

  /** A snapshot of unfinished work; only a strictly newer one is kept. */
  function RecordPartial(s: State, w: WorkerId, id: TaskId, p: Partial, lease: nat): Option<State> {
    if !HoldsLease(s, w, id) || (id in s.partials && p.sequence <= s.partials[id].sequence) then None
    else
      var renewed := RenewLease(s, w, id, p.receivedAt, lease).value;
      Some(renewed.(partials := s.partials[id := p]))
  }

  function Requeue(s: State, id: TaskId, why: TaskEvent): Option<State> {
    if id !in s.tasks then None
    else match Advance(s.tasks[id].state, why)
      case None => None
      case Some(st) => Some(Enqueue(Put(s, id, s.tasks[id].(state := st, holder := NIL, deadline := 0)), id))
  }

  /** Valid strictly before the deadline, expired at it. */
  predicate Expired(s: State, id: TaskId, now: nat) {
    id in s.tasks && s.tasks[id].state.Leased? && s.tasks[id].deadline <= now
  }

  function RequeueAll(s: State, ids: seq<TaskId>, why: TaskEvent): State {
    if ids == [] then s
    else
      var s1 := RequeueAll(s, ids[..|ids| - 1], why);
      var r := Requeue(s1, ids[|ids| - 1], why);
      if r.Some? then r.value else s1
  }

  function DueTasks(s: State, now: nat, order: seq<TaskId>): (r: seq<TaskId>)
    ensures forall id :: multiset(r)[id] == if Expired(s, id, now) then multiset(order)[id] else 0
    ensures forall id :: id in r <==> id in order && Expired(s, id, now)
  {
    Filter(order, id => Expired(s, id, now))
  }

  function HeldTasks(s: State, w: WorkerId, order: seq<TaskId>): (r: seq<TaskId>)
    ensures forall id :: multiset(r)[id] == if HoldsLease(s, w, id) then multiset(order)[id] else 0
    ensures forall id :: id in r <==> id in order && HoldsLease(s, w, id)
  {
    Filter(order, id => HoldsLease(s, w, id))
  }

  function Sweep(s: State, now: nat, order: seq<TaskId>): State {
    RequeueAll(s, DueTasks(s, now, order), LeaseExpired)
  }

  function ReleaseAllHeldBy(s: State, w: WorkerId, order: seq<TaskId>): State {
    RequeueAll(s, HeldTasks(s, w, order), Release)
  }

  // ---- results ---------------------------------------------------------------

  function SubmitResult(s: State, w: WorkerId, id: TaskId): Option<State> {
    if !HoldsLease(s, w, id) then None
    else
      var t := s.tasks[id];
      Some(Put(s, id, t.(state := Validating, prior := t.prior + [w], holder := NIL)))
  }

  function RecordSubmission(s: State, id: TaskId, sub: Submission): State {
    if id !in s.tasks then s
    else Put(s, id, s.tasks[id].(submissions := s.tasks[id].submissions + [sub]))
  }

  function Finish(s: State, id: TaskId, accepted: bool): Option<State> {
    if id !in s.tasks then None
    else match Advance(s.tasks[id].state, if accepted then TaskEvent.Accept else TaskEvent.Reject)
      case None => None
      case Some(st) =>
        Some(Put(s, id, s.tasks[id].(state := st, submissions := [])).(partials := s.partials - {id}))
  }

  /** Validating -> NeedsReplica -> Queued: the task goes out for another
      opinion, or - when `restart` - drops its answers and starts over. */
  function SendOut(s: State, id: TaskId, restart: bool): Option<State> {
    if id !in s.tasks || !s.tasks[id].state.Validating? then None
    else
      var t := s.tasks[id];
      Some(Enqueue(Put(s, id, t.(state := Queued, holder := NIL, deadline := 0,
                                 submissions := if restart then [] else t.submissions)), id))
  }

  function RequestReplica(s: State, id: TaskId): Option<State> { SendOut(s, id, false) }

  function RestartValidation(s: State, id: TaskId): Option<State> { SendOut(s, id, true) }

  // ---- probes ------------------------------------------------------------------

  /** The first job whose keyspace reaches that far. */
  function RangeJob(s: State, start: nat, count: nat, order: seq<JobId>): (r: Option<nat>)
    ensures r.Some? ==> r.value < |order| && order[r.value] in s.jobs && start + count <= s.jobs[order[r.value]].total
  {
    FirstMatch(order, j => j in s.jobs && start + count <= s.jobs[j].total)
  }

  /** A task over a range whose answer is known: no job lists it and no cursor moves. */
  function IssueKnownRange(s: State, w: WorkerId, now: nat, lease: nat, start: nat, count: nat,
                           order: seq<JobId>): (State, Option<TaskId>)
  {
    if count == 0 then (s, None)
    else match RangeJob(s, start, count, order)
      case None => (s, None)
      case Some(k) =>
        var t := Task(s.nextId, order[k], Leased, start, count, w, now + lease, NIL, [], []);
        (Put(s, s.nextId, t).(nextId := s.nextId + 1), Some(s.nextId))
  }

  // ---- speculation ----------------------------------------------------------------

  function Root(s: State, id: TaskId): TaskId
    requires id in s.tasks
  {
    if s.tasks[id].replicaOf == NIL then id else s.tasks[id].replicaOf
  }

  predicate LiveReplica(s: State, id: TaskId, c: TaskId) {
    c in s.tasks && s.tasks[c].replicaOf == id && !IsTerminal(s.tasks[c].state)
  }

  /** `id` may be raced by `w`: a leased original, held by somebody else, never
      answered by `w`, with no live replica among the job's tasks. */
  predicate Raceable(s: State, w: WorkerId, ids: seq<TaskId>, id: TaskId) {
    id in s.tasks && s.tasks[id].state.Leased? && s.tasks[id].replicaOf == NIL
    && s.tasks[id].holder != w && w !in s.tasks[id].prior
    && !exists c <- ids :: LiveReplica(s, id, c)
  }

  function AcceptedUnits(s: State, ids: seq<TaskId>): nat {
    if ids == [] then 0
    else
      var id := ids[|ids| - 1];
      AcceptedUnits(s, ids[..|ids| - 1])
      + if id in s.tasks && s.tasks[id].state.Accepted? && s.tasks[id].replicaOf == NIL then s.tasks[id].count else 0
  }

  function CompletionFraction(s: State, j: JobId): real {
    if j !in s.jobs || s.jobs[j].total == 0 then 0.0
    else AcceptedUnits(s, s.jobs[j].tasks) as real / s.jobs[j].total as real
  }

  /** A second task over the range of `id`, born leased to `w`. */
  function AddReplica(s: State, j: JobId, id: TaskId, w: WorkerId, now: nat, lease: nat): State
    requires j in s.jobs && id in s.tasks
  {
    var o := s.tasks[id];
    var t := Task(s.nextId, j, Leased, o.start, o.count, w, now + lease, id, [], []);
    Put(s, s.nextId, t).(
      jobs := s.jobs[j := s.jobs[j].(tasks := s.jobs[j].tasks + [s.nextId])],
      nextId := s.nextId + 1)
  }

  function FirstRaceable(s: State, w: WorkerId, ids: seq<TaskId>): (r: Option<nat>)
    ensures r.Some? ==> r.value < |ids| && Raceable(s, w, ids, ids[r.value])
  {
    FirstMatch(ids, id => Raceable(s, w, ids, id))
  }

  /** The task of job `j` that a speculative replica for `w` would race. */
  function RaceIn(s: State, j: JobId, w: WorkerId, threshold: real): (r: Option<TaskId>)
    ensures r.Some? ==> j in s.jobs && r.value in s.jobs[j].tasks && Raceable(s, w, s.jobs[j].tasks, r.value)
  {
    if j !in s.jobs || !s.jobs[j].Exhausted() || CompletionFraction(s, j) < threshold then None
    else match FirstRaceable(s, w, s.jobs[j].tasks)
      case None => None
      case Some(k) => Some(s.jobs[j].tasks[k])
  }

  function RaceJob(s: State, w: WorkerId, threshold: real, order: seq<JobId>): (r: Option<nat>)
    ensures r.Some? ==> r.value < |order| && RaceIn(s, order[r.value], w, threshold).Some?
  {
    FirstMatch(order, j => RaceIn(s, j, w, threshold).Some?)
  }

  function IssueSpeculative(s: State, w: WorkerId, now: nat, lease: nat, threshold: real,
                            order: seq<JobId>): (State, Option<TaskId>)
  {
    match RaceJob(s, w, threshold, order)
    case None => (s, None)
    case Some(k) =>
      (AddReplica(s, order[k], RaceIn(s, order[k], w, threshold).value, w, now, lease), Some(s.nextId))
  }

  /** `x` is another member of the winner's family, and may be cancelled. */
  predicate Cancellable(s: State, winner: TaskId, root: TaskId, x: TaskId) {
    x in s.tasks && x != winner && (x == root || s.tasks[x].replicaOf == root)
    && Advance(s.tasks[x].state, Cancel).Some?
  }

  /** `id` is cancelled: unleased, off the queue, and its size written off. */
  function Withdrawn(s: State, id: TaskId): State
    requires id in s.tasks
  {
    Put(s, id, s.tasks[id].(state := Cancelled, holder := NIL, deadline := 0)).(
      wasted := s.wasted + s.tasks[id].count, queue := Without(s.queue, id))
  }

  /** Cancel one family member, if the lifecycle allows it. */
  function CancelOne(s: State, winner: TaskId, root: TaskId, id: TaskId): State {
    if Cancellable(s, winner, root, id) then Withdrawn(s, id) else s
  }

  function CancelEach(s: State, winner: TaskId, root: TaskId, ids: seq<TaskId>): State {
    if ids == [] then s
    else CancelOne(CancelEach(s, winner, root, ids[..|ids| - 1]), winner, root, ids[|ids| - 1])
  }

  function CancelSiblingsOf(s: State, winner: TaskId): State {
    if winner !in s.tasks || s.tasks[winner].job !in s.jobs then s
    else CancelEach(s, winner, Root(s, winner), s.jobs[s.tasks[winner].job].tasks)
  }

  // ---- completion ---------------------------------------------------------------------

  predicate JobComplete(s: State, j: JobId) {
    j in s.jobs && s.jobs[j].Exhausted()
    && forall id <- s.jobs[j].tasks :: id in s.tasks && IsTerminal(s.tasks[id].state)
  }

  predicate AllComplete(s: State) {
    s.jobs != map[] && forall j <- s.jobs :: JobComplete(s, j)
  }
}
