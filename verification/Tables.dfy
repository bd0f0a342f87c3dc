/** The stored tables and what a flush, a load and a recovery do with them
    (src/coordinator/store.cpp, `JobManager::AdoptRecovered`). */
module Tables {
  import opened Basics
  import opened TaskStates
  import opened Coordinator

  /** The columns. `group`, `input`, `render`, `tileGranted`, `holder`,
      `deadline` and `submissions` have none. */
  datatype JobRow = JobRow(kernel: string, seed: nat, total: nat, next: nat)
  datatype TaskRow = TaskRow(job: JobId, state: TaskState, start: nat, count: nat, replicaOf: TaskId)
  datatype Db = Db(jobs: map<JobId, JobRow>, tasks: map<TaskId, TaskRow>, prior: set<(TaskId, WorkerId)>)

  const EMPTY := Db(map[], map[], {})

  function JobRowOf(j: Job): JobRow { JobRow(j.kernel, j.seed, j.total, j.next) }

  function TaskRowOf(t: Task): TaskRow { TaskRow(t.job, t.state, t.start, t.count, t.replicaOf) }

  // ---- writing ------------------------------------------------------------

  /** An existing job row gets a new cursor and nothing else. */
  function UpsertJob(db: Db, j: Job): Db {
    var row := if j.id in db.jobs then db.jobs[j.id].(next := j.next) else JobRowOf(j);
    db.(jobs := db.jobs[j.id := row])
  }

  /** An existing task row gets a new state and nothing else; prior workers are only added. */
  function UpsertTask(db: Db, t: Task): Db {
    var row := if t.id in db.tasks then db.tasks[t.id].(state := t.state) else TaskRowOf(t);
    db.(tasks := db.tasks[t.id := row], prior := db.prior + set w | w in t.prior :: (t.id, w))
  }

  function UpsertJobs(db: Db, js: seq<Job>): Db {
    if js == [] then db else UpsertJob(UpsertJobs(db, js[..|js| - 1]), js[|js| - 1])
  }

  function UpsertTasks(db: Db, ts: seq<Task>): Db {
    if ts == [] then db else UpsertTask(UpsertTasks(db, ts[..|ts| - 1]), ts[|ts| - 1])
  }

  /** Every row of memory, as one flush from scratch would store it. */
  function Snapshot(s: State): Db {
    Db(map j | j in s.jobs :: JobRowOf(s.jobs[j]),
       map id | id in s.tasks :: TaskRowOf(s.tasks[id]),
       set id, w | id in s.tasks && w in s.tasks[id].prior :: (id, w))
  }

  // ---- reading ------------------------------------------------------------

  function LoadedJob(db: Db, j: JobId): Job
    requires j in db.jobs
  {
    var r := db.jobs[j];
    Job(j, r.kernel, r.seed, r.total, r.next, 0, None, None, [], [])
  }

  /** The stored prior workers of `id`, in the order the rows are read. */
  function PriorOf(rows: seq<(TaskId, WorkerId)>, id: TaskId): seq<WorkerId> {
    if rows == [] then []
    else
      var last := rows[|rows| - 1];
      PriorOf(rows[..|rows| - 1], id) + if last.0 == id then [last.1] else []
  }

  function LoadedTask(db: Db, rows: seq<(TaskId, WorkerId)>, id: TaskId): Task
    requires id in db.tasks
  {
    var r := db.tasks[id];
    Task(id, r.job, r.state, r.start, r.count, NIL, 0, r.replicaOf, [], PriorOf(rows, id))
  }

  function MaxNext(n: nat, ids: seq<nat>): (m: nat)
    ensures m >= n && forall i :: 0 <= i < |ids| ==> ids[i] < m
  {
    if ids == [] then n
    else
      var m := MaxNext(n, ids[..|ids| - 1]);
      if ids[|ids| - 1] < m then m else ids[|ids| - 1] + 1
  }

  // ---- adopting what was read ----------------------------------------------------

  predicate InFlight(st: TaskState) { st.Leased? || st.Validating? }

  /** An adopted task: in flight becomes queued, and nobody holds it. */
  function Adopted(t: Task): Task {
    t.(state := if InFlight(t.state) then Queued else t.state, holder := NIL, deadline := 0)
  }

  function AdoptJob(s: State, j: Job): State {
    if j.id in s.jobs then s else s.(jobs := s.jobs[j.id := j.(tasks := [])])
  }

  /** Only a task that was in flight is put on the queue. */
  function AdoptTask(s: State, t: Task): State {
    var jobs := if t.job in s.jobs then s.jobs[t.job := s.jobs[t.job].(tasks := s.jobs[t.job].tasks + [t.id])] else s.jobs;
    var tasks := if t.id in s.tasks then s.tasks else s.tasks[t.id := Adopted(t)];
    s.(jobs := jobs, tasks := tasks, queue := if InFlight(t.state) then s.queue + [t.id] else s.queue)
  }

  function AdoptJobs(s: State, js: seq<Job>): State {
    if js == [] then s else AdoptJob(AdoptJobs(s, js[..|js| - 1]), js[|js| - 1])
  }

  function AdoptTasks(s: State, ts: seq<Task>): State {
    if ts == [] then s else AdoptTask(AdoptTasks(s, ts[..|ts| - 1]), ts[|ts| - 1])
  }

  /** `AdoptRecovered`, which replaces jobs, tasks, queue, dirty marks and counter. */
  function Adopt(s: State, js: seq<Job>, ts: seq<Task>, nextId: nat): State {
    var cleared := s.(jobs := map[], tasks := map[], queue := [], dirtyTasks := {}, dirtyJobs := {}, nextId := nextId);
    AdoptTasks(AdoptJobs(cleared, js), ts)
  }

  /** The order in which a query happens to return the rows. */
  datatype Orders = Orders(jobs: seq<JobId>, tasks: seq<TaskId>, prior: seq<(TaskId, WorkerId)>)

  ghost predicate ReadsAll(o: Orders, db: Db) {
    Enumerates(o.jobs, db.jobs.Keys) && Enumerates(o.tasks, db.tasks.Keys) && Enumerates(o.prior, db.prior)
  }

  predicate Stored(ids: seq<nat>, keys: set<nat>) {
    forall i :: 0 <= i < |ids| ==> ids[i] in keys
  }

  function LoadJobs(db: Db, js: seq<JobId>): seq<Job>
    requires Stored(js, db.jobs.Keys)
  {
    seq(|js|, (i: nat) requires i < |js| => LoadedJob(db, js[i]))
  }

  function LoadTasks(db: Db, ids: seq<TaskId>, rows: seq<(TaskId, WorkerId)>): seq<Task>
    requires Stored(ids, db.tasks.Keys)
  {
    seq(|ids|, (i: nat) requires i < |ids| => LoadedTask(db, rows, ids[i]))
  }

  /** A new process: load everything and adopt it. */
  function Restart(db: Db, o: Orders): State
    requires Stored(o.jobs, db.jobs.Keys) && Stored(o.tasks, db.tasks.Keys)
  {
    Adopt(INITIAL, LoadJobs(db, o.jobs), LoadTasks(db, o.tasks, o.prior), MaxNext(MaxNext(1, o.jobs), o.tasks))
  }
}
