/** The store follows memory: an incremental flush is a full snapshot. */
module Durability {
  import opened Basics
  import opened TaskStates
  import opened Coordinator
  import opened Invariants
  import opened Marking
  import opened Tables

  /** A stored state may lag memory in one way only: recovery requeued the task
      and left its row as it was. `exact` excludes even that. */
  ghost predicate StateAgrees(stored: TaskState, t: Task, exact: bool) {
    stored == t.state || (!exact && InFlight(stored) && t.state.Queued?)
  }

  ghost predicate JobBehind(s: State, db: Db, j: JobId) {
    j in s.jobs && j in db.jobs && db.jobs[j] == JobRowOf(s.jobs[j]).(next := db.jobs[j].next)
    && (j !in s.dirtyJobs ==> db.jobs[j].next == s.jobs[j].next)
  }

  ghost predicate TaskBehind(s: State, db: Db, id: TaskId, exact: bool) {
    id in s.tasks && id in db.tasks && db.tasks[id] == TaskRowOf(s.tasks[id]).(state := db.tasks[id].state)
    && (id !in s.dirtyTasks ==> StateAgrees(db.tasks[id].state, s.tasks[id], exact))
  }

  /** The tables agree with memory on every row that is not marked dirty; a
      dirty row can only be stale or missing. */
  ghost predicate Behind(s: State, db: Db, exact: bool) {
    (forall j <- db.jobs :: JobBehind(s, db, j))
    && (forall j <- s.jobs :: j in db.jobs || j in s.dirtyJobs)
    && (forall id <- db.tasks :: TaskBehind(s, db, id, exact))
    && (forall id <- s.tasks :: id in db.tasks || id in s.dirtyTasks)
    && (forall p <- db.prior :: p.0 in s.tasks && p.1 in s.tasks[p.0].prior)
    && (forall id <- s.tasks, w <- s.tasks[id].prior :: (id, w) in db.prior || id in s.dirtyTasks)
  }

  /** No step lets the tables and memory drift apart unmarked. */
  lemma EvolvesKeepsBehind(s: State, s': State, db: Db, exact: bool)
    requires Behind(s, db, exact) && Evolves(s, s')
    ensures Behind(s', db, exact)
  {
    forall j <- db.jobs ensures JobBehind(s', db, j) {
      assert JobBehind(s, db, j);
    }
    forall id <- db.tasks ensures TaskBehind(s', db, id, exact) {
      assert TaskBehind(s, db, id, exact) && TaskEvolves(s.tasks[id], s'.tasks[id]);
    }
    forall p <- db.prior ensures p.0 in s'.tasks && p.1 in s'.tasks[p.0].prior {
      assert TaskEvolves(s.tasks[p.0], s'.tasks[p.0]);
    }
  }

  // ---- flushing --------------------------------------------------------------------------

  /** The dirty rows, in the order the dirty set is walked. */
  function DirtyJobs(s: State, order: seq<JobId>): seq<Job> {
    if order == [] then []
    else
      var last := order[|order| - 1];
      DirtyJobs(s, order[..|order| - 1]) + if last in s.jobs then [s.jobs[last]] else []
  }

  function DirtyTasks(s: State, order: seq<TaskId>): seq<Task> {
    if order == [] then []
    else
      var last := order[|order| - 1];
      DirtyTasks(s, order[..|order| - 1]) + if last in s.tasks then [s.tasks[last]] else []
  }

  function Flushed(s: State, db: Db, jobOrder: seq<JobId>, taskOrder: seq<TaskId>): Db {
    UpsertTasks(UpsertJobs(db, DirtyJobs(s, jobOrder)), DirtyTasks(s, taskOrder))
  }

  function ClearDirty(s: State): State {
    s.(dirtyTasks := {}, dirtyJobs := {})
  }

  ghost predicate JobCurrent(s: State, db: Db, j: JobId) {
    j in s.jobs && j in db.jobs && db.jobs[j] == JobRowOf(s.jobs[j])
  }

  ghost predicate TaskCurrent(s: State, db: Db, id: TaskId) {
    id in s.tasks && id in db.tasks && db.tasks[id] == TaskRowOf(s.tasks[id])
    && forall w <- s.tasks[id].prior :: (id, w) in db.prior
  }

  /** Writing a row of memory makes that row current and leaves nothing further behind. */
  lemma UpsertJobCatchesUp(s: State, db: Db, j: JobId, exact: bool)
    requires Behind(s, db, exact) && j in s.jobs && s.jobs[j].id == j
    ensures var r := UpsertJob(db, s.jobs[j]);
            Behind(s, r, exact) && JobCurrent(s, r, j) && forall i | JobCurrent(s, db, i) :: JobCurrent(s, r, i)
  {
    assert j in db.jobs ==> JobBehind(s, db, j);
    var r := UpsertJob(db, s.jobs[j]);
    forall i <- r.jobs ensures JobBehind(s, r, i) {
      assert i != j ==> JobBehind(s, db, i);
    }
    forall id <- r.tasks ensures TaskBehind(s, r, id, exact) {
      assert TaskBehind(s, db, id, exact);
    }
  }

  lemma UpsertTaskCatchesUp(s: State, db: Db, id: TaskId, exact: bool)
    requires Behind(s, db, exact) && id in s.tasks && s.tasks[id].id == id
    ensures var r := UpsertTask(db, s.tasks[id]);
            Behind(s, r, exact) && TaskCurrent(s, r, id) && forall x | TaskCurrent(s, db, x) :: TaskCurrent(s, r, x)
  {
    assert id in db.tasks ==> TaskBehind(s, db, id, exact);
    var r := UpsertTask(db, s.tasks[id]);
    forall j <- r.jobs ensures JobBehind(s, r, j) {
      assert JobBehind(s, db, j);
    }
    forall x <- r.tasks ensures TaskBehind(s, r, x, exact) {
      assert x != id ==> TaskBehind(s, db, x, exact);
    }
  }

  lemma {:induction false} UpsertJobsCatchUp(s: State, db: Db, order: seq<JobId>, exact: bool)
    requires Ids(s) && Behind(s, db, exact)
    ensures var r := UpsertJobs(db, DirtyJobs(s, order));
            Behind(s, r, exact) && forall j | j in s.jobs && (j in order || JobCurrent(s, db, j)) :: JobCurrent(s, r, j)
  {
    if order != [] {
      var last, init := order[|order| - 1], order[..|order| - 1];
      UpsertJobsCatchUp(s, db, init, exact);
      if last in s.jobs {
        assert DirtyJobs(s, order)[..|DirtyJobs(s, order)| - 1] == DirtyJobs(s, init);
        UpsertJobCatchesUp(s, UpsertJobs(db, DirtyJobs(s, init)), last, exact);
      } else {
        assert DirtyJobs(s, order) == DirtyJobs(s, init);
      }
      assert forall j :: j in order <==> j in init || j == last;
    }
  }

  lemma {:induction false} UpsertTasksCatchUp(s: State, db: Db, order: seq<TaskId>, exact: bool)
    requires Ids(s) && Behind(s, db, exact)
    ensures var r := UpsertTasks(db, DirtyTasks(s, order));
            r.jobs == db.jobs && Behind(s, r, exact) && forall id | id in s.tasks && id in order :: TaskCurrent(s, r, id)
  {
    if order != [] {
      var last, init := order[|order| - 1], order[..|order| - 1];
      UpsertTasksCatchUp(s, db, init, exact);
      if last in s.tasks {
        assert DirtyTasks(s, order)[..|DirtyTasks(s, order)| - 1] == DirtyTasks(s, init);
        UpsertTaskCatchesUp(s, UpsertTasks(db, DirtyTasks(s, init)), last, exact);
      } else {
        assert DirtyTasks(s, order) == DirtyTasks(s, init);
      }
      assert forall id :: id in order <==> id in init || id == last;
    }
  }

  /** With every dirty row current, the marks can be cleared. */
  lemma CurrentIsClean(s: State, db: Db, exact: bool)
    requires Behind(s, db, exact)
    requires forall j <- s.dirtyJobs | j in s.jobs :: JobCurrent(s, db, j)
    requires forall id <- s.dirtyTasks | id in s.tasks :: TaskCurrent(s, db, id)
    ensures Behind(ClearDirty(s), db, exact)
  {
    var c := ClearDirty(s);
    forall j <- db.jobs ensures JobBehind(c, db, j) {
      assert JobBehind(s, db, j);
    }
    forall j <- s.jobs ensures j in db.jobs {
      assert j in s.dirtyJobs ==> JobCurrent(s, db, j);
    }
    forall id <- db.tasks ensures TaskBehind(c, db, id, exact) {
      assert TaskBehind(s, db, id, exact);
      assert id in s.dirtyTasks ==> TaskCurrent(s, db, id);
    }
    forall id <- s.tasks ensures id in db.tasks && forall w <- s.tasks[id].prior :: (id, w) in db.prior {
      assert id in s.dirtyTasks ==> TaskCurrent(s, db, id);
    }
  }

  /** After a flush nothing is behind any more. */
  lemma FlushCatchesUp(s: State, db: Db, jobOrder: seq<JobId>, taskOrder: seq<TaskId>, exact: bool)
    requires Ids(s) && Behind(s, db, exact)
    requires Enumerates(jobOrder, s.dirtyJobs) && Enumerates(taskOrder, s.dirtyTasks)
    ensures Behind(ClearDirty(s), Flushed(s, db, jobOrder, taskOrder), exact)
  {
    EnumeratesMembers(jobOrder, s.dirtyJobs);
    EnumeratesMembers(taskOrder, s.dirtyTasks);
    var mid := UpsertJobs(db, DirtyJobs(s, jobOrder));
    UpsertJobsCatchUp(s, db, jobOrder, exact);
    UpsertTasksCatchUp(s, mid, taskOrder, exact);
    var r := Flushed(s, db, jobOrder, taskOrder);
    forall j <- s.dirtyJobs | j in s.jobs ensures JobCurrent(s, r, j) {
      assert JobCurrent(s, mid, j);
    }
    CurrentIsClean(s, r, exact);
  }

  /** Exactly up to date means: the tables are the snapshot of memory. */
  lemma CleanIsSnapshot(s: State, db: Db)
    requires s.dirtyTasks == {} && s.dirtyJobs == {}
    ensures Behind(s, db, true) <==> db == Snapshot(s)
  {
    if Behind(s, db, true) {
      assert db.jobs.Keys == s.jobs.Keys && db.tasks.Keys == s.tasks.Keys;
      forall j <- db.jobs ensures db.jobs[j] == JobRowOf(s.jobs[j]) {
        assert JobBehind(s, db, j);
      }
      forall id <- db.tasks ensures db.tasks[id] == TaskRowOf(s.tasks[id]) {
        assert TaskBehind(s, db, id, true);
      }
      assert db.prior == Snapshot(s).prior;
    }
  }

  /** Writing only the dirty rows stores exactly what writing everything would. */
  lemma FlushIsSnapshot(s: State, db: Db, jobOrder: seq<JobId>, taskOrder: seq<TaskId>)
    requires Ids(s) && Behind(s, db, true)
    requires Enumerates(jobOrder, s.dirtyJobs) && Enumerates(taskOrder, s.dirtyTasks)
    ensures Flushed(s, db, jobOrder, taskOrder) == Snapshot(s)
  {
    FlushCatchesUp(s, db, jobOrder, taskOrder, true);
    CleanIsSnapshot(ClearDirty(s), Flushed(s, db, jobOrder, taskOrder));
  }
}
