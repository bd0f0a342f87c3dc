/** The durable store as the source has it (src/coordinator/store.cpp): tables
    written row by row inside a transaction, and read back whole. */
module Stores {
  import opened Basics
  import opened Coordinator
  import opened Tables
  import opened Durability
  import opened JobManagers

  class Store {
    var db: Db

    constructor ()
      ensures db == EMPTY
    {
      db := EMPTY;
    }

    method WriteJob(j: Job)
      modifies this
      ensures db == UpsertJob(old(db), j)
    {
      if j.id in db.jobs {
        db := db.(jobs := db.jobs[j.id := db.jobs[j.id].(next := j.next)]);
      } else {
        db := db.(jobs := db.jobs[j.id := JobRow(j.kernel, j.seed, j.total, j.next)]);
      }
    }

    /** The row, then one insert per prior worker; a pair already there is ignored. */
    method WriteTask(t: Task)
      modifies this
      ensures db == UpsertTask(old(db), t)
    {
      if t.id in db.tasks {
        db := db.(tasks := db.tasks[t.id := db.tasks[t.id].(state := t.state)]);
      } else {
        db := db.(tasks := db.tasks[t.id := TaskRow(t.job, t.state, t.start, t.count, t.replicaOf)]);
      }
      for i := 0 to |t.prior|
        invariant db == old(db).(tasks := db.tasks, prior := db.prior)
        invariant db.tasks == UpsertTask(old(db), t).tasks
        invariant db.prior == old(db).prior + set a | 0 <= a < i :: (t.id, t.prior[a])
      {
        db := db.(prior := db.prior + {(t.id, t.prior[i])});
      }
    }

    /** All rows in one transaction. `failAt` is the write that fails, if one
        does; then everything is rolled back. */
    method Flush(js: seq<Job>, ts: seq<Task>, failAt: Option<nat>) returns (ok: bool)
      modifies this
      ensures ok <==> failAt.None? || failAt.value >= |js| + |ts|
      ensures db == if ok then UpsertTasks(UpsertJobs(old(db), js), ts) else old(db)
    {
      assert js[..|js|] == js && ts[..|ts|] == ts;
      var before := db;
      for i := 0 to |js|
        invariant db == UpsertJobs(before, js[..i])
        invariant failAt.Some? ==> failAt.value >= i
      {
        assert js[..i + 1][..i] == js[..i];
        if failAt == Some(i) {
          db := before;
          return false;
        }
        WriteJob(js[i]);
      }
      ghost var mid := db;
      for i := 0 to |ts|
        invariant db == UpsertTasks(mid, ts[..i])
        invariant failAt.Some? ==> failAt.value >= |js| + i
      {
        assert ts[..i + 1][..i] == ts[..i];
        if failAt == Some(|js| + i) {
          db := before;
          return false;
        }
        WriteTask(ts[i]);
      }
      ok := true;
    }

    method LoadJobRows(ids: seq<JobId>) returns (js: seq<Job>, nextId: nat)
      requires Stored(ids, db.jobs.Keys)
      ensures js == LoadJobs(db, ids) && nextId == MaxNext(1, ids)
    {
      js, nextId := [], 1;
      for i := 0 to |ids|
        invariant |js| == i && forall a :: 0 <= a < i ==> js[a] == LoadedJob(db, ids[a])
        invariant nextId == MaxNext(1, ids[..i])
      {
        assert ids[..i + 1][..i] == ids[..i];
        js := js + [LoadedJob(db, ids[i])];
        if ids[i] >= nextId { nextId := ids[i] + 1; }
      }
      assert ids[..|ids|] == ids;
    }

    method LoadTaskRows(ids: seq<TaskId>, from: nat) returns (ts: seq<Task>, nextId: nat)
      requires Stored(ids, db.tasks.Keys)
      ensures ts == LoadTasks(db, ids, []) && nextId == MaxNext(from, ids)
    {
      ts, nextId := [], from;
      for i := 0 to |ids|
        invariant |ts| == i && forall a :: 0 <= a < i ==> ts[a] == LoadedTask(db, [], ids[a])
        invariant nextId == MaxNext(from, ids[..i])
      {
        assert ids[..i + 1][..i] == ids[..i];
        ts := ts + [LoadedTask(db, [], ids[i])];
        if ids[i] >= nextId { nextId := ids[i] + 1; }
      }
      assert ids[..|ids|] == ids;
    }

    /** Every stored row, and the first id above all of them. Prior workers are
        attached to their task as their rows come in. */
    method LoadAll(o: Orders) returns (js: seq<Job>, ts: seq<Task>, nextId: nat)
      requires ReadsAll(o, db)
      ensures Stored(o.jobs, db.jobs.Keys) && Stored(o.tasks, db.tasks.Keys)
      ensures js == LoadJobs(db, o.jobs) && ts == LoadTasks(db, o.tasks, o.prior)
      ensures nextId == MaxNext(MaxNext(1, o.jobs), o.tasks)
    {
      EnumeratesMembers(o.jobs, db.jobs.Keys);
      EnumeratesMembers(o.tasks, db.tasks.Keys);
      js, nextId := LoadJobRows(o.jobs);
      ts, nextId := LoadTaskRows(o.tasks, nextId);
      assert o.prior[..0] == [];
      for r := 0 to |o.prior|
        invariant ts == LoadTasks(db, o.tasks, o.prior[..r])
      {
        AttachNext(db, o.tasks, o.prior, r);
        ts := Attach(ts, o.prior[r].0, o.prior[r].1);
      }
      assert o.prior[..|o.prior|] == o.prior;
    }
  }

  function TaskAt(ts: seq<Task>, id: TaskId): (r: Option<nat>)
    ensures r.Some? ==> r.value < |ts| && ts[r.value].id == id
    ensures r.None? ==> forall i :: 0 <= i < |ts| ==> ts[i].id != id
  {
    FirstMatch(ts, (t: Task) => t.id == id)
  }

  /** The row joins the prior workers of the first task with its id. */
  function Attached(ts: seq<Task>, id: TaskId, w: WorkerId): (r: seq<Task>)
    ensures |r| == |ts|
  {
    match TaskAt(ts, id)
    case None => ts
    case Some(k) => ts[k := ts[k].(prior := ts[k].prior + [w])]
  }

  lemma AttachNext(db: Db, ids: seq<TaskId>, rows: seq<(TaskId, WorkerId)>, r: nat)
    requires Stored(ids, db.tasks.Keys) && Distinct(ids) && r < |rows|
    ensures Attached(LoadTasks(db, ids, rows[..r]), rows[r].0, rows[r].1) == LoadTasks(db, ids, rows[..r + 1])
  {
    DistinctIndex(ids);
    assert rows[..r + 1][..r] == rows[..r];
    var ts := LoadTasks(db, ids, rows[..r]);
    forall k | 0 <= k < |ids| ensures Attached(ts, rows[r].0, rows[r].1)[k] == LoadedTask(db, rows[..r + 1], ids[k]) {
      assert ts[k].id == ids[k];
    }
  }

  method Attach(ts: seq<Task>, id: TaskId, w: WorkerId) returns (r: seq<Task>)
    ensures r == Attached(ts, id, w)
  {
    for i := 0 to |ts|
      invariant forall a :: 0 <= a < i ==> ts[a].id != id
    {
      if ts[i].id == id {
        FirstMatchUnique(ts, (t: Task) => t.id == id, i);
        return ts[i := ts[i].(prior := ts[i].prior + [w])];
      }
    }
    r := ts;
  }

  lemma DistinctIndex(q: seq<nat>)
    requires Distinct(q)
    ensures forall a, b :: 0 <= a < b < |q| ==> q[a] != q[b]
  {
    forall a, b | 0 <= a < b < |q| ensures q[a] != q[b] {
      DistinctTail(q, a);
      assert q[b] in q[a + 1..];
    }
  }

  // ---- memory and file together --------------------------------------------------------------

  /** The end of a sweep tick (src/coordinator/net.cpp): write what is dirty,
      and clear the marks only if that worked. */
  method FlushDirty(jm: JobManager, store: Store, jobOrder: seq<JobId>, taskOrder: seq<TaskId>, failAt: Option<nat>)
    returns (ok: bool)
    modifies store, jm`dirtyTasks, jm`dirtyJobs
    ensures ok ==> store.db == Flushed(old(jm.View()), old(store.db), jobOrder, taskOrder)
                   && jm.View() == ClearDirty(old(jm.View()))
    ensures !ok ==> store.db == old(store.db) && jm.View() == old(jm.View())
    ensures failAt.None? ==> ok
  {
    var js, ts := jm.CollectDirty(jobOrder, taskOrder);
    ok := store.Flush(js, ts, failAt);
    if ok { jm.ClearDirty(); }
  }

  /** A new process reads the file (`RecoverInto`). */
  method Recover(store: Store, o: Orders) returns (jm: JobManager)
    requires ReadsAll(o, store.db)
    ensures fresh(jm) && Stored(o.jobs, store.db.jobs.Keys) && Stored(o.tasks, store.db.tasks.Keys)
    ensures jm.View() == Restart(store.db, o)
  {
    jm := new JobManager();
    var js, ts, nextId := store.LoadAll(o);
    jm.AdoptRecovered(js, ts, nextId);
  }
}
