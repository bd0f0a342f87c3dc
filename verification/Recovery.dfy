/** What a restart restores, and what it loses. */
module Recovery {
  import opened Basics
  import opened TaskStates
  import opened TileGrids
  import opened Coordinator
  import opened Invariants
  import opened Coverage
  import opened Tables
  import opened Durability
  import opened Speculation

  // ---- what adopting the loaded rows builds -------------------------------------

  lemma {:induction false} PriorOfIs(rows: seq<(TaskId, WorkerId)>, id: TaskId, w: WorkerId)
    ensures multiset(PriorOf(rows, id))[w] == multiset(rows)[(id, w)]
  {
    if rows != [] {
      var last := |rows| - 1;
      PriorOfIs(rows[..last], id, w);
      assert rows == rows[..last] + [rows[last]];
      assert multiset(rows) == multiset(rows[..last]) + multiset{rows[last]};
    }
  }

  lemma {:induction false} AdoptJobsIs(s: State, db: Db, js: seq<JobId>)
    requires s.jobs == map[] && Stored(js, db.jobs.Keys)
    ensures var r := AdoptJobs(s, LoadJobs(db, js));
            r == s.(jobs := r.jobs)
            && (forall j :: j in r.jobs <==> j in js)
            && (forall j <- r.jobs :: j in db.jobs && r.jobs[j] == LoadedJob(db, j))
  {
    if js != [] {
      var init := js[..|js| - 1];
      assert LoadJobs(db, js)[..|js| - 1] == LoadJobs(db, init);
      assert js == init + [js[|js| - 1]];
      AdoptJobsIs(s, db, init);
    }
  }

  /** The rows of `ids` have been adopted over `s`, which had no tasks. */
  ghost predicate TasksAdopted(s: State, db: Db, ids: seq<TaskId>, rows: seq<(TaskId, WorkerId)>, r: State) {
    r == s.(jobs := r.jobs, tasks := r.tasks, queue := r.queue)
    && (forall id :: id in r.tasks <==> id in ids)
    && (forall id <- r.tasks :: id in db.tasks && r.tasks[id] == Adopted(LoadedTask(db, rows, id)))
    && (forall id :: multiset(r.queue)[id] == if id in ids && id in db.tasks && InFlight(db.tasks[id].state) then 1 else 0)
  }

  /** Job `j` lists the ids of its own rows, once each. */
  ghost predicate JobListsAdopted(s: State, db: Db, ids: seq<TaskId>, r: State, j: JobId)
    requires j in s.jobs && j in r.jobs
  {
    r.jobs[j] == s.jobs[j].(tasks := r.jobs[j].tasks)
    && forall id :: multiset(r.jobs[j].tasks)[id] == if id in ids && id in db.tasks && db.tasks[id].job == j then 1 else 0
  }

  ghost predicate ListsAdopted(s: State, db: Db, ids: seq<TaskId>, r: State) {
    r.jobs.Keys == s.jobs.Keys && forall j <- s.jobs :: JobListsAdopted(s, db, ids, r, j)
  }

  lemma AdoptTaskAdds(s: State, db: Db, ids: seq<TaskId>, rows: seq<(TaskId, WorkerId)>, r: State, last: TaskId)
    requires TasksAdopted(s, db, ids, rows, r) && last in db.tasks && last !in ids
    ensures TasksAdopted(s, db, ids + [last], rows, AdoptTask(r, LoadedTask(db, rows, last)))
  {
    var r' := AdoptTask(r, LoadedTask(db, rows, last));
    assert multiset(r.queue)[last] == 0;
    assert r' == s.(jobs := r'.jobs, tasks := r'.tasks, queue := r'.queue);
  }

  lemma AdoptTaskLists(s: State, db: Db, ids: seq<TaskId>, rows: seq<(TaskId, WorkerId)>, r: State, last: TaskId, j: JobId)
    requires ListsAdopted(s, db, ids, r) && last in db.tasks && last !in ids && j in s.jobs
    ensures JobListsAdopted(s, db, ids + [last], AdoptTask(r, LoadedTask(db, rows, last)), j)
  {
    assert JobListsAdopted(s, db, ids, r, j) && multiset(r.jobs[j].tasks)[last] == 0;
  }

  ghost predicate AllAdopted(s: State, db: Db, ids: seq<TaskId>, rows: seq<(TaskId, WorkerId)>, r: State) {
    TasksAdopted(s, db, ids, rows, r) && ListsAdopted(s, db, ids, r)
  }

  lemma AdoptTaskStep(s: State, db: Db, ids: seq<TaskId>, rows: seq<(TaskId, WorkerId)>, r: State, last: TaskId)
    requires AllAdopted(s, db, ids, rows, r) && last in db.tasks && last !in ids
    ensures AllAdopted(s, db, ids + [last], rows, AdoptTask(r, LoadedTask(db, rows, last)))
  {
    AdoptTaskAdds(s, db, ids, rows, r, last);
    forall j <- s.jobs ensures JobListsAdopted(s, db, ids + [last], AdoptTask(r, LoadedTask(db, rows, last)), j) {
      AdoptTaskLists(s, db, ids, rows, r, last, j);
    }
  }

  lemma AdoptNone(s: State, db: Db, rows: seq<(TaskId, WorkerId)>)
    requires s.tasks == map[] && s.queue == [] && forall j <- s.jobs :: s.jobs[j].tasks == []
    ensures AllAdopted(s, db, [], rows, s)
  {
  }

  lemma AdoptTasksInit(s: State, db: Db, ids: seq<TaskId>, rows: seq<(TaskId, WorkerId)>)
    requires ids != [] && Stored(ids, db.tasks.Keys)
    ensures var init := ids[..|ids| - 1];
            Stored(init, db.tasks.Keys)
            && AdoptTasks(s, LoadTasks(db, ids, rows))
               == AdoptTask(AdoptTasks(s, LoadTasks(db, init, rows)), LoadedTask(db, rows, ids[|ids| - 1]))
  {
    var ts := LoadTasks(db, ids, rows);
    assert ts[..|ts| - 1] == LoadTasks(db, ids[..|ids| - 1], rows);
  }

  /** Stated of any state `r` and `r'` to keep what they are out of the proof. */
  lemma AdoptedNext(s: State, db: Db, init: seq<TaskId>, last: TaskId, ids: seq<TaskId>, rows: seq<(TaskId, WorkerId)>, r: State, r': State)
    requires AllAdopted(s, db, init, rows, r) && last in db.tasks && last !in init && ids == init + [last]
    requires r' == AdoptTask(r, LoadedTask(db, rows, last))
    ensures AllAdopted(s, db, ids, rows, r')
  {
    AdoptTaskStep(s, db, init, rows, r, last);
  }

  lemma AdoptTasksNext(s: State, db: Db, ids: seq<TaskId>, rows: seq<(TaskId, WorkerId)>)
    requires ids != [] && Distinct(ids) && Stored(ids, db.tasks.Keys) && Stored(ids[..|ids| - 1], db.tasks.Keys)
    requires AllAdopted(s, db, ids[..|ids| - 1], rows, AdoptTasks(s, LoadTasks(db, ids[..|ids| - 1], rows)))
    ensures AllAdopted(s, db, ids, rows, AdoptTasks(s, LoadTasks(db, ids, rows)))
  {
    hide AllAdopted, AdoptTasks, AdoptTask, LoadTasks, LoadedTask;
    var init, last := ids[..|ids| - 1], ids[|ids| - 1];
    DistinctInit(ids);
    AdoptTasksInit(s, db, ids, rows);
    AdoptedNext(s, db, init, last, ids, rows, AdoptTasks(s, LoadTasks(db, init, rows)), AdoptTasks(s, LoadTasks(db, ids, rows)));
  }

  lemma {:induction false} AdoptTasksIs(s: State, db: Db, ids: seq<TaskId>, rows: seq<(TaskId, WorkerId)>)
    requires Distinct(ids) && s.tasks == map[] && s.queue == []
    requires Stored(ids, db.tasks.Keys)
    requires forall j <- s.jobs :: s.jobs[j].tasks == []
    ensures AllAdopted(s, db, ids, rows, AdoptTasks(s, LoadTasks(db, ids, rows)))
  {
    if ids == [] {
      AdoptNone(s, db, rows);
    } else {
      DistinctInit(ids);
      AdoptTasksIs(s, db, ids[..|ids| - 1], rows);
      AdoptTasksNext(s, db, ids, rows);
    }
  }

  // ---- restored state ------------------------------------------------------------------

  /** Row for row, `r` is what a restart makes of the memory `saved`: work in
      flight is queued, nobody holds anything, votes are gone, priors are kept. */
  ghost predicate RestoredTask(t: Task, t': Task) {
    SameRange(t, t') && t'.state == (if InFlight(t.state) then Queued else t.state)
    && t'.holder == NIL && t'.deadline == 0 && t'.submissions == []
    && forall w :: multiset(t'.prior)[w] == if w in t.prior then 1 else 0
  }

  /** The cursor survives; grouping, input and render fields do not. */
  ghost predicate RestoredJob(j: Job, j': Job) {
    j' == Job(j.id, j.kernel, j.seed, j.total, j.next, 0, None, None, [], j'.tasks)
  }

  ghost predicate Restored(saved: State, r: State) {
    r.jobs.Keys == saved.jobs.Keys && r.tasks.Keys == saved.tasks.Keys
    && (forall j <- saved.jobs :: RestoredJob(saved.jobs[j], r.jobs[j]))
    && (forall id <- saved.tasks :: RestoredTask(saved.tasks[id], r.tasks[id]))
    && (forall j <- saved.jobs, id :: multiset(r.jobs[j].tasks)[id]
          == if id in saved.tasks && saved.tasks[id].job == j then 1 else 0)
    && r.dirtyTasks == {} && r.dirtyJobs == {} && r.partials == map[] && r.wasted == 0 && r.nextId > NIL
    && (forall j <- r.jobs :: j < r.nextId) && (forall id <- r.tasks :: id < r.nextId)
  }

  /** The tables hold what memory held when they were last written. */
  ghost predicate Reflects(saved: State, db: Db) {
    saved.dirtyTasks == {} && saved.dirtyJobs == {} && Behind(saved, db, false)
  }

  /** A load visits the stored rows, once each. */
  lemma ReadsStored(db: Db, o: Orders)
    requires ReadsAll(o, db)
    ensures Stored(o.jobs, db.jobs.Keys) && Stored(o.tasks, db.tasks.Keys)
    ensures Distinct(o.jobs) && Distinct(o.tasks)
    ensures forall j :: j in o.jobs <==> j in db.jobs
    ensures forall id :: id in o.tasks <==> id in db.tasks
  {
    EnumeratesMembers(o.jobs, db.jobs.Keys);
    EnumeratesMembers(o.tasks, db.tasks.Keys);
    forall i | 0 <= i < |o.jobs| ensures o.jobs[i] in db.jobs {
      assert o.jobs[i] in o.jobs;
    }
    forall i | 0 <= i < |o.tasks| ensures o.tasks[i] in db.tasks {
      assert o.tasks[i] in o.tasks;
    }
  }

  ghost predicate BuiltJob(db: Db, r: State, j: JobId) {
    j in db.jobs && j in r.jobs
    && r.jobs[j] == LoadedJob(db, j).(tasks := r.jobs[j].tasks)
    && forall id :: multiset(r.jobs[j].tasks)[id] == if id in db.tasks && db.tasks[id].job == j then 1 else 0
  }

  /** What a restart builds, row by row. */
  ghost predicate Built(db: Db, rows: seq<(TaskId, WorkerId)>, r: State) {
    r.jobs.Keys == db.jobs.Keys && r.tasks.Keys == db.tasks.Keys
    && (forall j <- db.jobs :: BuiltJob(db, r, j))
    && (forall id <- db.tasks :: r.tasks[id] == Adopted(LoadedTask(db, rows, id)))
    && (forall id :: multiset(r.queue)[id] == if id in db.tasks && InFlight(db.tasks[id].state) then 1 else 0)
    && r.dirtyTasks == {} && r.dirtyJobs == {} && r.partials == map[] && r.wasted == 0 && r.nextId > NIL
    && (forall j <- db.jobs :: j < r.nextId) && (forall id <- db.tasks :: id < r.nextId)
  }

  lemma FreshIds(db: Db, o: Orders, n: nat)
    requires ReadsAll(o, db) && n == MaxNext(MaxNext(1, o.jobs), o.tasks)
    ensures n > 0 && (forall j <- db.jobs :: j < n) && (forall id <- db.tasks :: id < n)
  {
    ReadsStored(db, o);
    forall j <- db.jobs ensures j < n {
      var i :| 0 <= i < |o.jobs| && o.jobs[i] == j;
    }
    forall id <- db.tasks ensures id < n {
      var i :| 0 <= i < |o.tasks| && o.tasks[i] == id;
    }
  }

  /** The state with the jobs adopted and no task yet. */
  ghost predicate JobsLoaded(db: Db, s: State) {
    s == INITIAL.(nextId := s.nextId, jobs := s.jobs) && s.nextId > NIL
    && s.jobs.Keys == db.jobs.Keys && (forall j <- db.jobs :: s.jobs[j] == LoadedJob(db, j) && j < s.nextId)
    && (forall id <- db.tasks :: id < s.nextId)
  }

  lemma AllAdoptedIsBuilt(db: Db, ids: seq<TaskId>, rows: seq<(TaskId, WorkerId)>, s: State, r: State)
    requires JobsLoaded(db, s) && AllAdopted(s, db, ids, rows, r)
    requires forall id :: id in ids <==> id in db.tasks
    ensures Built(db, rows, r)
  {
    forall j <- db.jobs ensures BuiltJob(db, r, j) {
      assert JobListsAdopted(s, db, ids, r, j);
    }
    assert r.tasks.Keys == db.tasks.Keys;
  }

  lemma JobsAreLoaded(db: Db, o: Orders)
    requires ReadsAll(o, db)
    ensures Stored(o.jobs, db.jobs.Keys)
    ensures JobsLoaded(db, AdoptJobs(INITIAL.(nextId := MaxNext(MaxNext(1, o.jobs), o.tasks)), LoadJobs(db, o.jobs)))
  {
    ReadsStored(db, o);
    var s0 := INITIAL.(nextId := MaxNext(MaxNext(1, o.jobs), o.tasks));
    FreshIds(db, o, s0.nextId);
    AdoptJobsIs(s0, db, o.jobs);
    assert AdoptJobs(s0, LoadJobs(db, o.jobs)).jobs.Keys == db.jobs.Keys;
  }

  lemma RestartBuilds(db: Db, o: Orders)
    requires ReadsAll(o, db)
    ensures Stored(o.jobs, db.jobs.Keys) && Stored(o.tasks, db.tasks.Keys) && Built(db, o.prior, Restart(db, o))
  {
    ReadsStored(db, o);
    JobsAreLoaded(db, o);
    var s0 := INITIAL.(nextId := MaxNext(MaxNext(1, o.jobs), o.tasks));
    assert INITIAL.(jobs := map[], tasks := map[], queue := [], dirtyTasks := {}, dirtyJobs := {}, nextId := s0.nextId) == s0;
    var s1 := AdoptJobs(s0, LoadJobs(db, o.jobs));
    AdoptTasksIs(s1, db, o.tasks, o.prior);
    AllAdoptedIsBuilt(db, o.tasks, o.prior, s1, Restart(db, o));
  }

  /** Row by row, in the columns' own terms: a job comes back with its cursor and
      without its grouping, input and tiles; a task that was in flight comes back
      queued and on the queue, any other as it was, and nobody holds it. */
  lemma RestartEffect(db: Db, o: Orders)
    requires ReadsAll(o, db)
    ensures Stored(o.jobs, db.jobs.Keys) && Stored(o.tasks, db.tasks.Keys)
    ensures var r := Restart(db, o);
            r.jobs.Keys == db.jobs.Keys && r.tasks.Keys == db.tasks.Keys
            && (forall j <- db.jobs :: var row := db.jobs[j];
                  r.jobs[j] == Job(j, row.kernel, row.seed, row.total, row.next, 0, None, None, [], r.jobs[j].tasks))
            && (forall id <- db.tasks :: var row, t := db.tasks[id], r.tasks[id];
                  t == Task(id, row.job, if row.state.Leased? || row.state.Validating? then Queued else row.state,
                            row.start, row.count, NIL, 0, row.replicaOf, [], t.prior))
            && (forall id <- db.tasks, w :: multiset(r.tasks[id].prior)[w] == if (id, w) in db.prior then 1 else 0)
            && (forall id :: multiset(r.queue)[id]
                  == if id in db.tasks && (db.tasks[id].state.Leased? || db.tasks[id].state.Validating?) then 1 else 0)
  {
    RestartBuilds(db, o);
    var r := Restart(db, o);
    hide Restart;
    forall j <- db.jobs ensures r.jobs[j] == LoadedJob(db, j).(tasks := r.jobs[j].tasks) {
      assert BuiltJob(db, r, j);
    }
    forall id <- db.tasks, w ensures multiset(r.tasks[id].prior)[w] == if (id, w) in db.prior then 1 else 0 {
      PriorOfIs(o.prior, id, w);
      assert multiset(db.prior)[(id, w)] == if (id, w) in db.prior then 1 else 0;
    }
  }

  lemma RestartedTask(saved: State, db: Db, o: Orders, id: TaskId)
    requires Ids(saved) && Reflects(saved, db) && Enumerates(o.prior, db.prior) && id in saved.tasks
    ensures id in db.tasks && RestoredTask(saved.tasks[id], Adopted(LoadedTask(db, o.prior, id)))
  {
    assert TaskBehind(saved, db, id, false);
    var t' := Adopted(LoadedTask(db, o.prior, id));
    forall w ensures multiset(t'.prior)[w] == if w in saved.tasks[id].prior then 1 else 0 {
      PriorOfIs(o.prior, id, w);
      assert multiset(db.prior)[(id, w)] == if (id, w) in db.prior then 1 else 0;
    }
  }

  lemma ReflectsSameKeys(saved: State, db: Db)
    requires Reflects(saved, db)
    ensures db.jobs.Keys == saved.jobs.Keys && db.tasks.Keys == saved.tasks.Keys
    ensures forall id <- saved.tasks :: db.tasks[id].job == saved.tasks[id].job
  {
    forall j <- db.jobs ensures j in saved.jobs {
      assert JobBehind(saved, db, j);
    }
    forall id <- db.tasks ensures id in saved.tasks && db.tasks[id].job == saved.tasks[id].job {
      assert TaskBehind(saved, db, id, false);
    }
  }

  lemma BuiltIsRestored(saved: State, db: Db, o: Orders, r: State)
    requires Ids(saved) && Reflects(saved, db) && Enumerates(o.prior, db.prior) && Built(db, o.prior, r)
    ensures Restored(saved, r)
  {
    ReflectsSameKeys(saved, db);
    forall j <- saved.jobs ensures RestoredJob(saved.jobs[j], r.jobs[j]) {
      assert JobBehind(saved, db, j) && BuiltJob(db, r, j);
    }
    forall id <- saved.tasks ensures RestoredTask(saved.tasks[id], r.tasks[id]) {
      RestartedTask(saved, db, o, id);
    }
    forall j <- saved.jobs, id ensures multiset(r.jobs[j].tasks)[id] == if id in saved.tasks && saved.tasks[id].job == j then 1 else 0 {
      assert BuiltJob(db, r, j);
    }
  }

  // ---- what a restart keeps ------------------------------------------------------------------

  lemma RestoredMembers(saved: State, r: State, j: JobId)
    requires Restored(saved, r) && j in saved.jobs
    ensures Distinct(r.jobs[j].tasks)
    ensures forall id :: id in r.jobs[j].tasks <==> id in saved.tasks && saved.tasks[id].job == j
  {
    forall id: TaskId ensures multiset(r.jobs[j].tasks)[id] <= 1
                      ensures id in r.jobs[j].tasks <==> id in saved.tasks && saved.tasks[id].job == j
    {
      assert multiset(r.jobs[j].tasks)[id] == if id in saved.tasks && saved.tasks[id].job == j then 1 else 0;
    }
  }

  lemma RestoredIds(saved: State, r: State)
    requires Ids(saved) && Restored(saved, r)
    ensures Ids(r)
  {
    forall j <- r.jobs ensures r.jobs[j].id == j && NIL < j {
      assert RestoredJob(saved.jobs[j], r.jobs[j]);
    }
    forall id <- r.tasks ensures r.tasks[id].id == id && NIL < id && r.tasks[id].job in r.jobs {
      assert RestoredTask(saved.tasks[id], r.tasks[id]);
    }
  }

  lemma RestoredReplica(saved: State, r: State, id: TaskId)
    requires Restored(saved, r) && id in saved.tasks && IsReplica(saved, id)
    ensures IsReplica(r, id)
  {
    var o := saved.tasks[id].replicaOf;
    assert RestoredTask(saved.tasks[id], r.tasks[id]) && RestoredTask(saved.tasks[o], r.tasks[o]);
    RestoredMembers(saved, r, saved.tasks[id].job);
  }

  lemma RestoredLists(saved: State, r: State)
    requires Ids(saved) && Lists(saved) && Restored(saved, r)
    ensures Ids(r) && Lists(r)
  {
    RestoredIds(saved, r);
    forall j <- r.jobs ensures Distinct(r.jobs[j].tasks) {
      RestoredMembers(saved, r, j);
    }
    forall id <- r.tasks ensures RestoredTask(saved.tasks[id], r.tasks[id]) {}
    forall j <- r.jobs, id ensures id in r.jobs[j].tasks <==> id in r.tasks && r.tasks[id].job == j {
      RestoredMembers(saved, r, j);
    }
    forall id <- r.tasks | r.tasks[id].replicaOf != NIL ensures IsReplica(r, id) {
      assert IsReplica(saved, id);
      RestoredReplica(saved, r, id);
    }
  }

  lemma RestoredTasksOk(saved: State, r: State)
    requires TasksOk(saved) && Restored(saved, r)
    ensures TasksOk(r)
  {
    forall id <- r.tasks ensures TaskOk(r.tasks[id]) {
      assert TaskOk(saved.tasks[id]) && RestoredTask(saved.tasks[id], r.tasks[id]);
    }
  }

  lemma RestoredAccepted(saved: State, r: State, id: TaskId)
    requires Restored(saved, r) && HasAccepted(saved, id)
    ensures HasAccepted(r, id)
  {
    var a :| Sibling(saved, a, id) && saved.tasks[a].state.Accepted?;
    assert RestoredTask(saved.tasks[a], r.tasks[a]) && RestoredTask(saved.tasks[id], r.tasks[id]);
    assert Sibling(r, a, id);
  }

  lemma RestoredFamilies(saved: State, r: State)
    requires TasksOk(saved) && Families(saved) && Restored(saved, r)
    ensures Families(r)
  {
    hide Restored, TasksOk;
    forall id <- r.tasks ensures RestoredLike(saved, r, id) {
      RestoredIsLike(saved, r, id);
    }
    forall id <- r.tasks | r.tasks[id].state.Cancelled? ensures HasAccepted(r, id) {
      RestoredAccepted(saved, r, id);
    }
  }

  /** A task has ended after the restart exactly if it had before. */
  ghost predicate RestoredLike(saved: State, r: State, id: TaskId)
    requires id in r.tasks
  {
    id in saved.tasks && r.tasks[id].replicaOf == saved.tasks[id].replicaOf
    && IsTerminal(r.tasks[id].state) == IsTerminal(saved.tasks[id].state)
    && r.tasks[id].state.Cancelled? == saved.tasks[id].state.Cancelled?
  }

  lemma RestoredIsLike(saved: State, r: State, id: TaskId)
    requires TasksOk(saved) && Restored(saved, r) && id in r.tasks
    ensures RestoredLike(saved, r, id)
  {
    assert RestoredTask(saved.tasks[id], r.tasks[id]) && TaskOk(saved.tasks[id]);
  }

  lemma BuiltBehind(db: Db, o: Orders, r: State)
    requires Built(db, o.prior, r) && Enumerates(o.prior, db.prior)
    requires forall p <- db.prior :: p.0 in db.tasks
    ensures Reflects(r, db)
  {
    forall j <- db.jobs ensures JobBehind(r, db, j) {
      assert BuiltJob(db, r, j);
    }
    forall id, w ensures id in db.tasks ==> (w in r.tasks[id].prior <==> (id, w) in db.prior) {
      if id in db.tasks {
        PriorOfIs(o.prior, id, w);
        assert multiset(db.prior)[(id, w)] == if (id, w) in db.prior then 1 else 0;
      }
    }
  }

  // ---- what a restart loses ---------------------------------------------------------------------

  predicate NoQueuedRow(db: Db) {
    forall id <- db.tasks :: !db.tasks[id].state.Queued?
  }

  /** After a restart the queue holds exactly the queued tasks if, and only if,
      no stored row was `Queued`. */
  lemma RestartQueueOkIff(db: Db, o: Orders)
    requires ReadsAll(o, db)
    ensures Stored(o.jobs, db.jobs.Keys) && Stored(o.tasks, db.tasks.Keys)
    ensures QueueOk(Restart(db, o)) <==> NoQueuedRow(db)
  {
    RestartBuilds(db, o);
    var r := Restart(db, o);
    forall id <- db.tasks ensures r.tasks[id].state.Queued? <==> InFlight(db.tasks[id].state) || db.tasks[id].state.Queued? {}
    if !NoQueuedRow(db) {
      var id :| id in db.tasks && db.tasks[id].state.Queued?;
      assert multiset(r.queue)[id] == 0 && Slots(r.tasks[id]) == 1;
    }
  }

  /** Memory right after a restart is what the tables say if, and only if, no
      stored row was in flight - although every adopted row is marked clean. */
  lemma RestartFaithfulIff(db: Db, o: Orders)
    requires ReadsAll(o, db) && forall p <- db.prior :: p.0 in db.tasks
    ensures Stored(o.jobs, db.jobs.Keys) && Stored(o.tasks, db.tasks.Keys)
    ensures Snapshot(Restart(db, o)) == db <==> forall id <- db.tasks :: !InFlight(db.tasks[id].state)
  {
    RestartBuilds(db, o);
    BuiltBehind(db, o, Restart(db, o));
    BuiltFaithfulIff(db, o, Restart(db, o));
  }

  lemma BuiltFaithfulIff(db: Db, o: Orders, r: State)
    requires Built(db, o.prior, r) && Reflects(r, db)
    ensures Snapshot(r) == db <==> forall id <- db.tasks :: !InFlight(db.tasks[id].state)
  {
    if forall id <- db.tasks :: !InFlight(db.tasks[id].state) {
      forall id <- db.tasks ensures TaskBehind(r, db, id, true) {
        assert TaskBehind(r, db, id, false);
      }
      CleanIsSnapshot(r, db);
    } else {
      var id :| id in db.tasks && InFlight(db.tasks[id].state);
      RequeuedRowLags(db, o, r, id);
    }
  }

  lemma RequeuedRowLags(db: Db, o: Orders, r: State, id: TaskId)
    requires Built(db, o.prior, r) && id in db.tasks && InFlight(db.tasks[id].state)
    ensures Snapshot(r) != db
  {
    assert r.tasks[id] == Adopted(LoadedTask(db, o.prior, id));
    assert Snapshot(r).tasks[id].state.Queued?;
  }

  // ---- what a restart does to coverage ----------------------------------------------------------

  /** Every task is listed by its job: none is a probe. */
  ghost predicate NoProbe(s: State) {
    forall id <- s.tasks :: s.tasks[id].job in s.jobs && id in s.jobs[s.tasks[id].job].tasks
  }

  ghost predicate InOrder(granted: seq<nat>, budget: nat) {
    forall a, b :: 0 <= a < b < |granted| && granted[b] > 0 ==> granted[a] == budget
  }

  /** If a render job, it filled one tile after the other, as a cursor would. */
  ghost predicate FilledInOrder(j: Job) {
    j.ByTile() ==> InOrder(j.tileGranted, j.render.value.samplesPerTile)
  }

  lemma {:induction false} InOrderCarved(q: seq<nat>, b: nat, u: nat)
    requires b > 0 && InOrder(q, b) && forall i :: 0 <= i < |q| ==> q[i] <= b
    ensures InTiles(q, b, u) <==> u < Sum(q)
  {
    if q != [] {
      var last := |q| - 1;
      if q[last] == 0 {
        assert forall a :: 0 <= a < last ==> q[..last][a] == q[a];
        InOrderCarved(q[..last], b, u);
      } else {
        SumFull(q[..last], b);
        QuotientIs(u, b, u / b);
        LastTile(u, b, last, q[last]);
      }
    }
  }

  lemma LastTile(u: nat, b: nat, last: nat, given: nat)
    requires b > 0 && 0 < given <= b
    ensures u < last * b + given <==> u / b < last || (u / b == last && u % b < given)
  {
    assert u == u / b * b + u % b;
    if u / b < last {
      MulMonotone(u / b + 1, last, b);
    } else if u / b > last {
      MulMonotone(last + 1, u / b, b);
    }
  }

  /** If nothing beyond the sum was handed out, the tiles were filled in order. */
  /** The last tile's last unit was handed out, so everything before was. */
  lemma LastCarved(q: seq<nat>, b: nat)
    requires b > 0 && q != [] && 0 < q[|q| - 1] <= b && forall u: nat :: InTiles(q, b, u) ==> u < Sum(q)
    ensures (|q| - 1) * b + q[|q| - 1] <= Sum(q)
  {
    var last := |q| - 1;
    var u := last * b + (q[last] - 1);
    QuotientIs(u, b, last);
    assert u % b == q[last] - 1;
    assert InTiles(q, b, u);
  }

  lemma {:induction false} BelowSumInOrder(q: seq<nat>, b: nat)
    requires b > 0 && forall i :: 0 <= i < |q| ==> q[i] <= b
    requires forall u: nat :: InTiles(q, b, u) ==> u < Sum(q)
    ensures InOrder(q, b)
  {
    if q != [] {
      var last, init := |q| - 1, q[..|q| - 1];
      SumAtCap(init, b);
      assert forall a :: 0 <= a < last ==> init[a] == q[a];
      if q[last] == 0 {
        forall u: nat | InTiles(init, b, u) ensures u < Sum(init) {
          assert InTiles(q, b, u);
        }
        BelowSumInOrder(init, b);
      } else {
        LastCarved(q, b);
      }
    }
  }

  /** The units handed out are those below the cursor if, and only if, tiles
      were filled in order; it is enough that none lies beyond. */
  lemma FilledInOrderIff(j: Job)
    requires JobOk(j)
    ensures FilledInOrder(j) <==> forall u: nat :: Carved(j, u) <==> u < j.next
    ensures (forall u: nat :: Carved(j, u) ==> u < j.next) ==> FilledInOrder(j)
  {
    if j.ByTile() {
      var q, b := j.tileGranted, j.render.value.samplesPerTile;
      if FilledInOrder(j) {
        forall u: nat ensures InTiles(q, b, u) <==> u < Sum(q) {
          InOrderCarved(q, b, u);
        }
      }
      if forall u: nat :: Carved(j, u) ==> u < j.next {
        assert forall u: nat :: InTiles(q, b, u) ==> Carved(j, u);
        BelowSumInOrder(q, b);
      }
    }
  }

  lemma RestoredCovers(saved: State, r: State, j: JobId, id: TaskId, u: nat)
    requires Restored(saved, r) && j in saved.jobs && id in saved.tasks && saved.tasks[id].job == j
    requires saved.tasks[id].replicaOf == NIL && InRange(saved.tasks[id], u)
    ensures Covers(r, j, id, u)
  {
    assert RestoredTask(saved.tasks[id], r.tasks[id]);
    RestoredMembers(saved, r, j);
  }

  lemma ProbeIsNoReplica(saved: State, p: TaskId)
    requires Ids(saved) && Lists(saved) && p in saved.tasks
    ensures saved.tasks[p].job in saved.jobs
    ensures p !in saved.jobs[saved.tasks[p].job].tasks ==> saved.tasks[p].replicaOf == NIL
  {
    assert saved.tasks[p].replicaOf != NIL ==> IsReplica(saved, p);
  }

  lemma CoveredOnce(r: State, j: JobId, a: TaskId, b: TaskId, u: nat)
    requires Covered(r) && Covers(r, j, a, u) && Covers(r, j, b, u)
    ensures a == b && Carved(r.jobs[j], u)
  {
    assert JobCovered(r, j);
  }

  lemma CarvedIsCovered(s: State, j: JobId, u: nat) returns (a: TaskId)
    requires Covered(s) && j in s.jobs && Carved(s.jobs[j], u)
    ensures Covers(s, j, a, u)
  {
    assert JobCovered(s, j);
    a :| Covers(s, j, a, u);
  }

  lemma RestoredCarved(saved: State, r: State, j: JobId, u: nat)
    requires Restored(saved, r) && j in saved.jobs
    ensures j in r.jobs && (Carved(r.jobs[j], u) <==> u < saved.jobs[j].next)
  {
    assert RestoredJob(saved.jobs[j], r.jobs[j]);
  }

  /** What was carved is still covered after the restart, by the same range. */
  lemma StillCovered(saved: State, r: State, j: JobId, u: nat) returns (a: TaskId)
    requires Core(saved) && Covered(saved) && Restored(saved, r) && j in saved.jobs && Carved(saved.jobs[j], u)
    ensures Covers(saved, j, a, u) && Covers(r, j, a, u)
  {
    a := CarvedIsCovered(saved, j, u);
    assert a in saved.tasks && a in saved.jobs[j].tasks && saved.tasks[a].job == j;
    RestoredCovers(saved, r, j, a, u);
  }

  /** If coverage survives, the units carved were those below the cursor. */
  lemma CoveredAreFilled(saved: State, r: State, j: JobId)
    requires Core(saved) && Covered(saved) && Restored(saved, r) && Covered(r) && j in saved.jobs
    ensures FilledInOrder(saved.jobs[j])
  {
    forall u: nat | Carved(saved.jobs[j], u) ensures u < saved.jobs[j].next {
      var a := StillCovered(saved, r, j, u);
      CoveredOnce(r, j, a, a, u);
      RestoredCarved(saved, r, j, u);
    }
    assert JobCovered(saved, j);
    FilledInOrderIff(saved.jobs[j]);
  }

  /** And every stored task was listed by its job: the range of any other, once
      listed, is covered by something else too. */
  lemma CoveredAreListed(saved: State, r: State, p: TaskId)
    requires Core(saved) && Covered(saved) && Restored(saved, r) && Covered(r) && p in saved.tasks
    ensures saved.tasks[p].job in saved.jobs && p in saved.jobs[saved.tasks[p].job].tasks
  {
    var j, u := saved.tasks[p].job, saved.tasks[p].start;
    ProbeIsNoReplica(saved, p);
    assert TaskOk(saved.tasks[p]);
    if saved.tasks[p].replicaOf == NIL {
      RestoredCovers(saved, r, j, p, u);
      CoveredOnce(r, j, p, p, u);
      RestoredCarved(saved, r, j, u);
      CoveredAreFilled(saved, r, j);
      assert JobCovered(saved, j);
      FilledInOrderIff(saved.jobs[j]);
      var a := StillCovered(saved, r, j, u);
      CoveredOnce(r, j, a, p, u);
    }
  }

  /** Memory whose coverage survives a restart. */
  ghost predicate Restorable(s: State) {
    NoProbe(s) && forall j <- s.jobs :: FilledInOrder(s.jobs[j])
  }

  lemma RestoredCovered(saved: State, r: State)
    requires Core(saved) && Covered(saved) && Restored(saved, r) && Restorable(saved)
    ensures Covered(r)
  {
    forall j <- r.jobs ensures JobCovered(r, j) {
      assert RestoredJob(saved.jobs[j], r.jobs[j]) && JobCovered(saved, j);
      FilledInOrderIff(saved.jobs[j]);
      RestoredMembers(saved, r, j);
      forall id ensures (Original(r, j, id) <==> Original(saved, j, id))
                        && (Original(saved, j, id) ==> SameRange(saved.tasks[id], r.tasks[id])) {
        assert id in saved.tasks ==> RestoredTask(saved.tasks[id], r.tasks[id]);
      }
      SameOriginalsKeep(saved, r, j);
    }
  }

  lemma RestoredCoveredIff(saved: State, r: State)
    requires Core(saved) && Covered(saved) && Restored(saved, r)
    ensures Covered(r) <==> Restorable(saved)
  {
    if Restorable(saved) {
      RestoredCovered(saved, r);
    } else if Covered(r) {
      forall p <- saved.tasks ensures saved.tasks[p].job in saved.jobs && p in saved.jobs[saved.tasks[p].job].tasks {
        CoveredAreListed(saved, r, p);
      }
      forall j <- saved.jobs ensures FilledInOrder(saved.jobs[j]) {
        CoveredAreFilled(saved, r, j);
      }
    }
  }

  /** A restart keeps coverage if, and only if, no probe was stored and every
      render job had filled its tiles in order: a probe is adopted as one more
      range of its job, and a render job comes back with a cursor for tiles. */
  lemma RestartCoveredIff(saved: State, db: Db, o: Orders)
    requires Core(saved) && Covered(saved) && Reflects(saved, db) && ReadsAll(o, db)
    ensures Stored(o.jobs, db.jobs.Keys) && Stored(o.tasks, db.tasks.Keys)
    ensures Covered(Restart(db, o)) <==> Restorable(saved)
  {
    RestartBuilds(db, o);
    var r := Restart(db, o);
    BuiltIsRestored(saved, db, o, r);
    RestoredCoveredIff(saved, r);
  }

  lemma RestoredSibling(saved: State, r: State, a: TaskId, b: TaskId)
    requires Restored(saved, r) && TasksOk(saved) && Sibling(r, a, b)
    ensures Sibling(saved, a, b) && r.tasks[a].replicaOf == saved.tasks[a].replicaOf
    ensures r.tasks[a].state.Accepted? <==> saved.tasks[a].state.Accepted?
    ensures r.tasks[b].state.Cancelled? <==> saved.tasks[b].state.Cancelled?
  {
    assert RestoredTask(saved.tasks[a], r.tasks[a]) && RestoredTask(saved.tasks[b], r.tasks[b]);
  }

  lemma SameRace(saved: State, r: State, a: TaskId)
    requires Restored(saved, r) && a in r.tasks
    ensures a in saved.tasks && r.tasks[a].replicaOf == saved.tasks[a].replicaOf
  {
    assert RestoredTask(saved.tasks[a], r.tasks[a]);
  }

  /** One race per original and one winner per family survive as they are. */
  lemma RestoredOneWinner(saved: State, r: State)
    requires Core(saved) && Restored(saved, r) && OneWinner(saved)
    ensures OneWinner(r)
  {
    forall a, b | Sibling(r, a, b) && a != b && r.tasks[a].state.Accepted? ensures r.tasks[b].state.Cancelled? {
      RestoredSibling(saved, r, a, b);
    }
    forall a <- r.tasks ensures a in saved.tasks && r.tasks[a].replicaOf == saved.tasks[a].replicaOf {
      SameRace(saved, r, a);
    }
  }
}
