/** Two short runs in which the code does not do what it set out to do. */
module Examples {
  import opened Basics
  import opened TaskStates
  import opened Quorum
  import opened Coordinator
  import opened Protocol
  import opened Invariants
  import opened Quietness
  import opened Speculation
  import opened Runs
  import opened Tables
  import opened Durability
  import opened Worlds
  import opened Stranding

  const SETUP := Setup(map["k" := Exact], Config(Unreplicated, 1, 1), 100)

  /** A job of one unit, with its cursor and its tasks. */
  function OneUnit(next: nat, tasks: seq<TaskId>): Job {
    Job(1, "k", 0, 1, next, 0, None, None, [], tasks)
  }

  function UnitTask(id: TaskId, st: TaskState, holder: WorkerId, deadline: nat, replicaOf: TaskId): Task {
    Task(id, 1, st, 0, 1, holder, deadline, replicaOf, [], [])
  }

  const CREATED := State(map[1 := OneUnit(0, [])], map[], [], map[], {}, {1}, 2, 0)
  const LEASED := State(map[1 := OneUnit(1, [2])], map[2 := UnitTask(2, Leased, 11, 100, NIL)], [], map[], {2}, {1}, 3, 0)

  function AskFor(w: WorkerId): Ask { Ask(w, 1, [], None, true, 0.0) }

  lemma FirstStep()
    ensures Step(SETUP, INITIAL, NewJob("k", 1, 0, 0)) == CREATED
  {
  }

  lemma CarveTheUnit()
    ensures Carve(CREATED, 1, 11, 0, 100, 1) == (LEASED, Some(2))
  {
    var j := CREATED.jobs[1];
    assert CarveAt(j) == Some((None, 0)) && CarveSize(j, 0, 1) == 1;
    var (s1, r) := Carve(CREATED, 1, 11, 0, 100, 1);
    assert [] + [2 as TaskId] == [2];
    assert s1.jobs == LEASED.jobs;
    assert s1.tasks == LEASED.tasks;
    assert s1.dirtyTasks == LEASED.dirtyTasks && s1.dirtyJobs == LEASED.dirtyJobs;
  }

  /** Worker 11 leases the only unit until 100. */
  lemma SecondStep()
    ensures Step(SETUP, CREATED, LeaseRequest(AskFor(11), 0, [1])) == LEASED
  {
    CarveTheUnit();
    var order: seq<JobId> := [1];
    assert QueuePick(CREATED, 11, []).None?;
    var preferred := PreferredJobs(CREATED, [], order);
    assert preferred == [];
    assert preferred + order == order;
    assert CarveFirst(CREATED, order, 11, 0, 100, 1) == (LEASED, Some(2));
    assert GrantTask(CREATED, 11, 0, 100, 1, [], order) == (LEASED, Some(2));
  }

  // ---- a task stored as queued is lost ---------------------------------------------------------

  const SWEPT := State(map[1 := OneUnit(1, [2])], map[2 := UnitTask(2, Queued, NIL, 0, NIL)], [2], map[], {2}, {1}, 3, 0)

  lemma RequeueOne(s: State, id: TaskId)
    ensures RequeueAll(s, [id], LeaseExpired) == Requeue(s, id, LeaseExpired).GetOr(s)
  {
    assert [id][..0] == [];
  }

  lemma SweepTheUnit()
    ensures Step(SETUP, LEASED, SweepTimer(100, [2])) == SWEPT
  {
    var order: seq<TaskId> := [2];
    assert order[..0] == [] && Expired(LEASED, 2, 100);
    assert DueTasks(LEASED, 100, order) == [2];
    RequeueOne(LEASED, 2);
    var r := Requeue(LEASED, 2, LeaseExpired).value;
    assert r.tasks == SWEPT.tasks && r.dirtyTasks == SWEPT.dirtyTasks;
  }

  const STORED := Db(map[1 := JobRow("k", 0, 1, 1)], map[2 := TaskRow(1, Queued, 0, 1, NIL)], {})

  lemma DirtyUnit()
    ensures DirtyJobs(SWEPT, [1]) == [OneUnit(1, [2])] && DirtyTasks(SWEPT, [2]) == [UnitTask(2, Queued, NIL, 0, NIL)]
  {
    assert DirtyJobs(SWEPT, []) == [] && DirtyTasks(SWEPT, []) == [];
    assert [1 as JobId][..0] == [] && [2 as TaskId][..0] == [];
  }

  lemma UpsertOne(db: Db, j: Job, t: Task)
    ensures UpsertJobs(db, [j]) == UpsertJob(db, j) && UpsertTasks(db, [t]) == UpsertTask(db, t)
  {
    assert [j][..0] == [] && [t][..0] == [];
  }

  lemma FlushTheUnit()
    ensures Flushed(SWEPT, EMPTY, [1], [2]) == STORED
  {
    var j, t := OneUnit(1, [2]), UnitTask(2, Queued, NIL, 0, NIL);
    var mid := UpsertJob(EMPTY, j);
    DirtyUnit();
    UpsertOne(EMPTY, j, t);
    UpsertOne(mid, j, t);
    assert mid == Db(STORED.jobs, map[], {});
    var r := UpsertTask(mid, t);
    assert r.jobs == STORED.jobs;
    assert r.tasks == STORED.tasks;
    assert r.prior == {};
  }

  const W1 := World(CREATED, EMPTY, INITIAL)
  const W2 := World(LEASED, EMPTY, INITIAL)
  const W3 := World(SWEPT, EMPTY, INITIAL)
  const W4 := World(ClearDirty(SWEPT), STORED, ClearDirty(SWEPT))

  const E1 := Act(NewJob("k", 1, 0, 0))
  const E2 := Act(LeaseRequest(AskFor(11), 0, [1]))
  const E3 := Act(SweepTimer(100, [2]))
  const E4 := Flush([1], [2], true)

  const HISTORY: seq<WorldEvent> := [E1, E2, E3, E4]

  lemma Singleton(x: nat)
    ensures Enumerates([x], {x})
  {
  }

  lemma W1ToW2()
    ensures Possible(SETUP, W1, E2) && Next(SETUP, W1, E2) == W2
  {
    SecondStep();
    Singleton(1);
    assert CREATED.jobs.Keys == {1};
  }

  lemma W2ToW3()
    ensures Possible(SETUP, W2, E3) && Next(SETUP, W2, E3) == W3
  {
    SweepTheUnit();
    Singleton(2);
    assert LEASED.tasks.Keys == {2};
  }

  lemma W3ToW4()
    ensures Possible(SETUP, W3, E4) && Next(SETUP, W3, E4) == W4
  {
    FlushTheUnit();
    Singleton(1);
    Singleton(2);
  }

  lemma Continues(w: World, e: WorldEvent, w': World, es: seq<WorldEvent>, final: World)
    requires es != [] && es[0] == e && Possible(SETUP, w, e) && Next(SETUP, w, e) == w'
    requires Possibles(SETUP, w', es[1..]) && After(SETUP, w', es[1..]) == final
    ensures Possibles(SETUP, w, es) && After(SETUP, w, es) == final
  {
  }

  lemma HistoryLeadsThere()
    ensures Possibles(SETUP, START, HISTORY) && After(SETUP, START, HISTORY) == W4
  {
    W3ToW4();
    Continues(W3, E4, W4, [E4], W4);
    W2ToW3();
    assert [E3, E4][1..] == [E4];
    Continues(W2, E3, W3, [E3, E4], W4);
    W1ToW2();
    assert [E2, E3, E4][1..] == [E3, E4];
    Continues(W1, E2, W2, [E2, E3, E4], W4);
    FirstStep();
    assert HISTORY[1..] == [E2, E3, E4];
    Continues(START, E1, W1, HISTORY, W4);
  }

  /** The process dies there, and its file is read. */
  const DEATH := Crash(Orders([1], [2], []))

  lemma DeathIsPossible()
    ensures Possible(SETUP, W4, DEATH)
  {
    Singleton(1);
    Singleton(2);
    assert STORED.jobs.Keys == {1} && STORED.tasks.Keys == {2};
    assert multiset([]) == multiset(STORED.prior);
  }

  /** One lease expires, the requeued task is flushed, the process dies: its
      job never completes, whatever happens after the restart. The store
      promises that a lost tail can only repeat work. */
  lemma ExpiredThenCrashedIsLost()
    ensures Possibles(SETUP, START, HISTORY) && Possible(SETUP, After(SETUP, START, HISTORY), DEATH)
    ensures forall es | Possibles(SETUP, Next(SETUP, After(SETUP, START, HISTORY), DEATH), es) ::
              !JobComplete(After(SETUP, Next(SETUP, After(SETUP, START, HISTORY), DEATH), es).mem, 1)
  {
    HistoryLeadsThere();
    DeathIsPossible();
    StartOk(SETUP);
    RunsAreSound(SETUP, START, HISTORY);
    forall es | Possibles(SETUP, Next(SETUP, W4, DEATH), es) ensures !JobComplete(After(SETUP, Next(SETUP, W4, DEATH), es).mem, 1) {
      QueuedRowLosesJob(SETUP, W4, DEATH.orders, es, 2, 1);
    }
  }

  // ---- two accepted answers for one range ---------------------------------------------------------

  function Answered(id: TaskId, st: TaskState, holder: WorkerId, deadline: nat, replicaOf: TaskId, prior: seq<WorkerId>): Task {
    Task(id, 1, st, 0, 1, holder, deadline, replicaOf, [], prior)
  }

  function Racing(original: Task, replica: Task, queue: seq<TaskId>): State {
    State(map[1 := OneUnit(1, [2, 3])], map[2 := original, 3 := replica], queue, map[], {2, 3}, {1}, 4, 0)
  }

  const ORIGINAL := UnitTask(2, Leased, 11, 100, NIL)
  const REPLICA := UnitTask(3, Leased, 12, 150, 2)
  const EXPIRED := UnitTask(2, Queued, NIL, 0, NIL)
  const REPLICA_WON := Answered(3, Accepted, NIL, 150, 2, [12])
  const REGRANTED := UnitTask(2, Leased, 13, 201, NIL)
  const ORIGINAL_WON := Answered(2, Accepted, NIL, 201, NIL, [13])

  function ResultOf(w: WorkerId, id: TaskId): Result {
    Result(w, id, 5, 1, 0, [], true, true)
  }

  lemma RaceReplicates()
    ensures IssueSpeculative(LEASED, 12, 50, 100, 0.0, [1]) == (Racing(ORIGINAL, REPLICA, []), Some(3))
  {
    var s, order := LEASED, [1 as JobId];
    var ids := s.jobs[1].tasks;
    assert ids == [2] && Raceable(s, 12, ids, 2);
    FirstMatchUnique(ids, id => Raceable(s, 12, ids, id), 0);
    assert CompletionFraction(s, 1) >= 0.0;
    assert RaceIn(s, 1, 12, 0.0) == Some(2);
    FirstMatchUnique(order, j => RaceIn(s, j, 12, 0.0).Some?, 0);
    var s' := AddReplica(s, 1, 2, 12, 50, 100);
    assert [2 as TaskId] + [3] == [2, 3];
    assert s'.tasks == Racing(ORIGINAL, REPLICA, []).tasks && s'.jobs == Racing(ORIGINAL, REPLICA, []).jobs;
    assert s'.dirtyTasks == {2, 3};
  }

  /** Worker 12, with nothing left to carve, races worker 11. */
  lemma RaceStep()
    ensures Step(SETUP, LEASED, LeaseRequest(AskFor(12), 50, [1])) == Racing(ORIGINAL, REPLICA, [])
  {
    RaceReplicates();
    var order: seq<JobId> := [1];
    assert QueuePick(LEASED, 12, []).None?;
    var preferred := PreferredJobs(LEASED, [], order);
    assert preferred == [] && preferred + order == order;
    assert LEASED.jobs[1].Exhausted();
    assert CarveFirst(LEASED, order, 12, 50, 100, 1) == (LEASED, None);
  }

  /** At 100 the original's lease is over and the replica's is not. */
  lemma ExpiryStep()
    ensures Step(SETUP, Racing(ORIGINAL, REPLICA, []), SweepTimer(100, [2, 3])) == Racing(EXPIRED, REPLICA, [2])
  {
    var s, order := Racing(ORIGINAL, REPLICA, []), [2 as TaskId, 3];
    OneDue();
    RequeueOne(s, 2);
    RequeueOriginal();
  }

  lemma OneDue()
    ensures DueTasks(Racing(ORIGINAL, REPLICA, []), 100, [2, 3]) == [2]
  {
    var s, order := Racing(ORIGINAL, REPLICA, []), [2 as TaskId, 3];
    assert order[..1] == [2 as TaskId] && order[..1][..0] == [];
    assert Expired(s, 2, 100) && !Expired(s, 3, 100);
  }

  lemma RequeueOriginal()
    ensures Requeue(Racing(ORIGINAL, REPLICA, []), 2, LeaseExpired) == Some(Racing(EXPIRED, REPLICA, [2]))
  {
    var r := Requeue(Racing(ORIGINAL, REPLICA, []), 2, LeaseExpired).value;
    assert r.tasks == Racing(EXPIRED, REPLICA, [2]).tasks && r.dirtyTasks == {2, 3};
    assert [] + [2 as TaskId] == [2];
  }

  /** The replica is accepted; the original, back in the queue, is not cancelled. */
  lemma ReplicaWinsStep()
    ensures Step(SETUP, Racing(EXPIRED, REPLICA, [2]), ResultArrived(ResultOf(12, 3), false, 1, 90))
            == Racing(EXPIRED, REPLICA_WON, [2])
    ensures Accepts(SETUP, Racing(EXPIRED, REPLICA, [2]), ResultArrived(ResultOf(12, 3), false, 1, 90))
  {
    var s, m, r := Racing(EXPIRED, REPLICA, [2]), ResultOf(12, 3), Racing(EXPIRED, REPLICA_WON, [2]);
    assert SETUP.kernels["k"].Exact?;
    CountingStep(SETUP, s, ResultArrived(m, false, 1, 90));
    var s1 := AfterVote(s, 3, Retained(m, Exact), Action.Accept);
    assert [] + [12 as WorkerId] == [12];
    assert s1.tasks == r.tasks && s1.dirtyTasks == {2, 3} && s1.partials == map[];
    NothingCancelled(s1, 3);
  }

  lemma CancelNeither(s: State, winner: TaskId, root: TaskId)
    requires CancelOne(s, winner, root, 2) == s && CancelOne(s, winner, root, 3) == s
    ensures CancelEach(s, winner, root, [2, 3]) == s
  {
    var ids := [2 as TaskId, 3];
    assert ids[..1] == [2] && ids[..1][..0] == [];
    assert CancelEach(s, winner, root, [2]) == s;
  }

  lemma CancelSpares(s: State, winner: TaskId, root: TaskId, id: TaskId)
    requires id == winner || (id in s.tasks && (s.tasks[id].state.Queued? || s.tasks[id].state.Accepted?))
    ensures CancelOne(s, winner, root, id) == s
  {
  }

  /** With one task queued and the other the winner there is nobody to cancel. */
  lemma NothingCancelled(s: State, winner: TaskId)
    requires s.tasks.Keys == {2, 3} && winner in {2, 3} && s.jobs.Keys == {1} && s.jobs[1].tasks == [2, 3]
    requires s.tasks[2].job == 1 && s.tasks[3].job == 1
    requires forall x <- s.tasks | x != winner :: s.tasks[x].state.Queued? || s.tasks[x].state.Accepted?
    ensures CancelSiblingsOf(s, winner) == s
  {
    CancelSpares(s, winner, Root(s, winner), 2);
    CancelSpares(s, winner, Root(s, winner), 3);
    CancelNeither(s, winner, Root(s, winner));
  }

  /** The original is handed out again. */
  lemma RegrantStep()
    ensures Step(SETUP, Racing(EXPIRED, REPLICA_WON, [2]), LeaseRequest(AskFor(13), 101, [1]))
            == Racing(REGRANTED, REPLICA_WON, [])
  {
    var s, q := Racing(EXPIRED, REPLICA_WON, [2]), [2 as TaskId];
    assert Grantable(s, 13, 2) && !HasInput(s, [], 2);
    FirstMatchUnique(q, id => Grantable(s, 13, id), 0);
    assert QueuePick(s, 13, []) == Some(0);
    var r := GrantQueued(s, 13, 101, 100, 0);
    assert r.tasks == Racing(REGRANTED, REPLICA_WON, []).tasks && r.dirtyTasks == {2, 3} && r.queue == [];
  }

  lemma OriginalWinsStep()
    ensures Step(SETUP, Racing(REGRANTED, REPLICA_WON, []), ResultArrived(ResultOf(13, 2), false, 1, 120))
            == Racing(ORIGINAL_WON, REPLICA_WON, [])
  {
    var s, m, r := Racing(REGRANTED, REPLICA_WON, []), ResultOf(13, 2), Racing(ORIGINAL_WON, REPLICA_WON, []);
    assert SETUP.kernels["k"].Exact?;
    CountingStep(SETUP, s, ResultArrived(m, false, 1, 120));
    var s1 := AfterVote(s, 2, Retained(m, Exact), Action.Accept);
    assert [] + [13 as WorkerId] == [13];
    assert s1.tasks == r.tasks && s1.dirtyTasks == {2, 3} && s1.partials == map[];
    NothingCancelled(s1, 2);
  }

  const DOUBLE_WIN: seq<Event> := [
    NewJob("k", 1, 0, 0), LeaseRequest(AskFor(11), 0, [1]), LeaseRequest(AskFor(12), 50, [1]), SweepTimer(100, [2, 3]),
    ResultArrived(ResultOf(12, 3), false, 1, 90), LeaseRequest(AskFor(13), 101, [1]), ResultArrived(ResultOf(13, 2), false, 1, 120)]

  lemma RunStep(s: State, s': State, es: seq<Event>, final: State)
    requires es != [] && Admissible(SETUP, s, es[0]) && Step(SETUP, s, es[0]) == s'
    requires Run(SETUP, s', es[1..]) && Final(SETUP, s', es[1..]) == final
    ensures Run(SETUP, s, es) && Final(SETUP, s, es) == final
  {
  }

  lemma LateRun(es: seq<Event>, final: State)
    requires es == DOUBLE_WIN[4..] && final == Racing(ORIGINAL_WON, REPLICA_WON, [])
    ensures Run(SETUP, Racing(EXPIRED, REPLICA, [2]), es) && Final(SETUP, Racing(EXPIRED, REPLICA, [2]), es) == final
  {
    Singleton(1);
    OriginalWinsStep();
    RunStep(Racing(REGRANTED, REPLICA_WON, []), final, es[2..], final);
    RegrantStep();
    assert es[1..][1..] == es[2..];
    RunStep(Racing(EXPIRED, REPLICA_WON, [2]), Racing(REGRANTED, REPLICA_WON, []), es[1..], final);
    ReplicaWinsStep();
    RunStep(Racing(EXPIRED, REPLICA, [2]), Racing(EXPIRED, REPLICA_WON, [2]), es, final);
  }

  lemma RacingRun(es: seq<Event>, final: State)
    requires es == DOUBLE_WIN
    requires Run(SETUP, Racing(EXPIRED, REPLICA, [2]), es[4..]) && Final(SETUP, Racing(EXPIRED, REPLICA, [2]), es[4..]) == final
    ensures Run(SETUP, Racing(ORIGINAL, REPLICA, []), es[3..]) && Final(SETUP, Racing(ORIGINAL, REPLICA, []), es[3..]) == final
  {
    ExpiryStep();
    assert es[3..][1..] == es[4..];
    assert multiset([2 as nat, 3]) == multiset({2 as nat, 3}) && Racing(ORIGINAL, REPLICA, []).tasks.Keys == {2, 3};
    RunStep(Racing(ORIGINAL, REPLICA, []), Racing(EXPIRED, REPLICA, [2]), es[3..], final);
  }

  lemma MiddleRun(es: seq<Event>, final: State)
    requires es == DOUBLE_WIN
    requires Run(SETUP, Racing(EXPIRED, REPLICA, [2]), es[4..]) && Final(SETUP, Racing(EXPIRED, REPLICA, [2]), es[4..]) == final
    ensures Run(SETUP, LEASED, es[2..]) && Final(SETUP, LEASED, es[2..]) == final
  {
    RacingRun(es, final);
    RaceStep();
    Singleton(1);
    assert es[2..][1..] == es[3..];
    RunStep(LEASED, Racing(ORIGINAL, REPLICA, []), es[2..], final);
  }

  lemma EarlyRun(es: seq<Event>, final: State)
    requires es == DOUBLE_WIN && Run(SETUP, LEASED, es[2..]) && Final(SETUP, LEASED, es[2..]) == final
    ensures Run(SETUP, INITIAL, es) && Final(SETUP, INITIAL, es) == final
  {
    Singleton(1);
    SecondStep();
    assert es[1..][1..] == es[2..];
    RunStep(CREATED, LEASED, es[1..], final);
    FirstStep();
    RunStep(INITIAL, CREATED, es, final);
  }

  /** A job of one unit, and two accepted answers for it. */
  lemma RaceAcceptedTwice()
    ensures Run(SETUP, INITIAL, DOUBLE_WIN)
    ensures Final(SETUP, INITIAL, DOUBLE_WIN) == Racing(ORIGINAL_WON, REPLICA_WON, [])
    ensures !OneWinner(Final(SETUP, INITIAL, DOUBLE_WIN))
  {
    var es, final := DOUBLE_WIN, Racing(ORIGINAL_WON, REPLICA_WON, []);
    LateRun(es[4..], final);
    MiddleRun(es, final);
    EarlyRun(es, final);
    assert Sibling(final, 2, 3);
  }
}
