/** A run in which a worker that keeps reporting loses its lease for silence, and
    one that leaves the snapshot of a cancelled task behind. */
module PartialExamples {
  import opened Basics
  import opened TaskStates
  import opened Coordinator
  import opened Protocol
  import opened Invariants
  import opened Quietness
  import opened Speculation
  import opened Runs
  import opened Examples
  import opened Partials

  function Half(next: nat, tasks: seq<TaskId>): Job {
    Job(1, "k", 0, 2, next, 0, None, None, [], tasks)
  }

  /** A job of two units, carved as one task. */
  function Working(t: Task, queue: seq<TaskId>, partials: map<TaskId, Partial>): State {
    State(map[1 := Half(2, [2])], map[2 := t], queue, partials, {2}, {1}, 3, 0)
  }

  function Pair(st: TaskState, holder: WorkerId, deadline: nat): Task {
    Task(2, 1, st, 0, 2, holder, deadline, NIL, [], [])
  }

  function Wants(w: WorkerId): Ask { Ask(w, 2, [], None, false, 0.0) }

  function Report(w: WorkerId, sequence: nat): Result {
    Result(w, 2, 5, sequence, 1, [], true, true)
  }

  const OPENED := State(map[1 := Half(0, [])], map[], [], map[], {}, {1}, 2, 0)
  const SENT: map<TaskId, Partial> := map[2 := Partial(11, 5, 1, [], 10)]
  const TAKEN := Working(Pair(Leased, 11, 100), [], map[])
  const HEARD := Working(Pair(Leased, 11, 110), [], SENT)
  const LEFT := Working(Pair(Queued, NIL, 0), [2], SENT)
  const TAKEN_OVER := Working(Pair(Leased, 12, 150), [], SENT)

  lemma OpenStep()
    ensures Step(SETUP, INITIAL, NewJob("k", 2, 0, 0)) == OPENED
  {
  }

  lemma CarveBoth()
    ensures Carve(OPENED, 1, 11, 0, 100, 2) == (TAKEN, Some(2))
  {
    var j := OPENED.jobs[1];
    assert CarveAt(j) == Some((None, 0)) && CarveSize(j, 0, 2) == 2;
    var s1 := Carve(OPENED, 1, 11, 0, 100, 2).0;
    assert [] + [2 as TaskId] == [2];
    assert s1.jobs == TAKEN.jobs && s1.tasks == TAKEN.tasks;
    assert s1.dirtyTasks == {2} && s1.dirtyJobs == {1};
  }

  lemma TakeStep()
    ensures Step(SETUP, OPENED, LeaseRequest(Wants(11), 0, [1])) == TAKEN
  {
    CarveBoth();
    var order: seq<JobId> := [1];
    assert QueuePick(OPENED, 11, []).None?;
    var preferred := PreferredJobs(OPENED, [], order);
    assert preferred == [] && preferred + order == order;
    assert CarveFirst(OPENED, order, 11, 0, 100, 2) == (TAKEN, Some(2));
  }

  /** Its fifth report, at 10, extends the lease to 110. */
  lemma HearStep()
    ensures Step(SETUP, TAKEN, ResultArrived(Report(11, 5), false, 1, 10)) == HEARD
  {
    var r := RecordPartial(TAKEN, 11, 2, Partial(11, 5, 1, [], 10), 100).value;
    assert r.tasks == HEARD.tasks && r.partials == HEARD.partials && r.dirtyTasks == {2};
  }

  lemma RequeueAlone(s: State, id: TaskId, why: TaskEvent)
    ensures RequeueAll(s, [id], why) == Requeue(s, id, why).GetOr(s)
  {
    assert [id][..0] == [];
  }

  lemma ReleaseAlone(s: State, w: WorkerId, id: TaskId)
    requires HoldsLease(s, w, id)
    ensures ReleaseAllHeldBy(s, w, [id]) == Requeue(s, id, Release).GetOr(s)
  {
    var order := [id];
    assert order[..0] == [];
    assert HeldTasks(s, w, order) == [id];
    RequeueAlone(s, id, Release);
  }

  lemma SweepAlone(s: State, now: nat, id: TaskId)
    requires Expired(s, id, now)
    ensures Sweep(s, now, [id]) == Requeue(s, id, LeaseExpired).GetOr(s)
  {
    var order := [id];
    assert order[..0] == [];
    assert DueTasks(s, now, order) == [id];
    RequeueAlone(s, id, LeaseExpired);
  }

  lemma GiveUp()
    ensures Requeue(HEARD, 2, Release) == Some(LEFT)
  {
    var r := Requeue(HEARD, 2, Release).value;
    assert r.tasks == LEFT.tasks && r.dirtyTasks == {2} && [] + [2 as TaskId] == [2];
  }

  lemma LeaveStep()
    ensures Step(SETUP, HEARD, WorkerGone(11, [2])) == LEFT
  {
    assert HoldsLease(HEARD, 11, 2);
    ReleaseAlone(HEARD, 11, 2);
    GiveUp();
  }

  lemma TakeOverStep()
    ensures Step(SETUP, LEFT, LeaseRequest(Wants(12), 50, [1])) == TAKEN_OVER
  {
    var q := [2 as TaskId];
    assert Grantable(LEFT, 12, 2) && !HasInput(LEFT, [], 2);
    FirstMatchUnique(q, id => Grantable(LEFT, 12, id), 0);
    assert QueuePick(LEFT, 12, []) == Some(0);
    var r := GrantQueued(LEFT, 12, 50, 100, 0);
    assert r.tasks == TAKEN_OVER.tasks && r.dirtyTasks == {2} && r.queue == [];
  }

  lemma RequeuePair()
    ensures Requeue(TAKEN_OVER, 2, LeaseExpired) == Some(LEFT)
  {
    var r := Requeue(TAKEN_OVER, 2, LeaseExpired).value;
    assert r.tasks == LEFT.tasks && r.dirtyTasks == {2} && [] + [2 as TaskId] == [2];
  }

  lemma DropStep()
    ensures Step(SETUP, TAKEN_OVER, SweepTimer(150, [2])) == LEFT
  {
    assert Expired(TAKEN_OVER, 2, 150);
    SweepAlone(TAKEN_OVER, 150, 2);
    RequeuePair();
  }

  const BEFORE: seq<Event> := [
    NewJob("k", 2, 0, 0), LeaseRequest(Wants(11), 0, [1]), ResultArrived(Report(11, 5), false, 1, 10),
    WorkerGone(11, [2]), LeaseRequest(Wants(12), 50, [1])]

  lemma BeforeRun()
    ensures Run(SETUP, INITIAL, BEFORE) && Final(SETUP, INITIAL, BEFORE) == TAKEN_OVER
  {
    Singleton(1);
    Singleton(2);
    assert HEARD.tasks.Keys == {2} && LEFT.jobs.Keys == {1} && OPENED.jobs.Keys == {1};
    TakeOverStep();
    RunStep(LEFT, TAKEN_OVER, BEFORE[4..], TAKEN_OVER);
    LeaveStep();
    assert BEFORE[3..][1..] == BEFORE[4..];
    RunStep(HEARD, LEFT, BEFORE[3..], TAKEN_OVER);
    HearStep();
    assert BEFORE[2..][1..] == BEFORE[3..];
    RunStep(TAKEN, HEARD, BEFORE[2..], TAKEN_OVER);
    TakeStep();
    assert BEFORE[1..][1..] == BEFORE[2..];
    RunStep(OPENED, TAKEN, BEFORE[1..], TAKEN_OVER);
    OpenStep();
    RunStep(INITIAL, OPENED, BEFORE, TAKEN_OVER);
  }

  /** Worker 12 reports for the first time just before its lease runs out, is
      not heard because worker 11 had got to its fifth report, and loses the lease. */
  lemma ReportingWorkerLosesLease()
    ensures Run(SETUP, INITIAL, BEFORE)
    ensures var s, e := Final(SETUP, INITIAL, BEFORE), ResultArrived(Report(12, 1), false, 1, 149);
            ShowsLife(s, e) && Step(SETUP, s, e) == s && Step(SETUP, s, SweepTimer(150, [2])) == LEFT
  {
    BeforeRun();
    RenewsIffNewer(SETUP, TAKEN_OVER, ResultArrived(Report(12, 1), false, 1, 149));
    DropStep();
  }

  // ---- a cancelled task keeps its snapshot ---------------------------------------------------

  function Raced(original: Task, replica: Task, partials: map<TaskId, Partial>): State {
    State(map[1 := Half(2, [2, 3])], map[2 := original, 3 := replica], [], partials, {2, 3}, {1}, 4, 0)
  }

  const RACING := Raced(Pair(Leased, 11, 110), Task(3, 1, Leased, 0, 2, 12, 120, 2, [], []), SENT)

  function Races(w: WorkerId): Ask { Ask(w, 2, [], None, true, 0.0) }

  lemma RaceReported()
    ensures IssueSpeculative(HEARD, 12, 20, 100, 0.0, [1]) == (RACING, Some(3))
  {
    var s, order := HEARD, [1 as JobId];
    var ids := s.jobs[1].tasks;
    assert ids == [2] && Raceable(s, 12, ids, 2);
    FirstMatchUnique(ids, id => Raceable(s, 12, ids, id), 0);
    assert CompletionFraction(s, 1) >= 0.0;
    assert RaceIn(s, 1, 12, 0.0) == Some(2);
    FirstMatchUnique(order, j => RaceIn(s, j, 12, 0.0).Some?, 0);
    var s' := AddReplica(s, 1, 2, 12, 20, 100);
    assert [2 as TaskId] + [3] == [2, 3];
    assert s'.tasks == RACING.tasks && s'.jobs == RACING.jobs && s'.dirtyTasks == {2, 3};
  }

  lemma RaceStep()
    ensures Step(SETUP, HEARD, LeaseRequest(Races(12), 20, [1])) == RACING
  {
    RaceReported();
    var order: seq<JobId> := [1];
    assert QueuePick(HEARD, 12, []).None?;
    var preferred := PreferredJobs(HEARD, [], order);
    assert preferred == [] && preferred + order == order;
    assert HEARD.jobs[1].Exhausted();
    assert CarveFirst(HEARD, order, 12, 20, 100, 2) == (HEARD, None);
  }

  const UNTIL_RACE: seq<Event> := [
    NewJob("k", 2, 0, 0), LeaseRequest(Wants(11), 0, [1]), ResultArrived(Report(11, 5), false, 1, 10),
    LeaseRequest(Races(12), 20, [1])]

  lemma RaceHappens()
    ensures Run(SETUP, INITIAL, UNTIL_RACE) && Final(SETUP, INITIAL, UNTIL_RACE) == RACING
  {
    Singleton(1);
    assert HEARD.jobs.Keys == {1} && OPENED.jobs.Keys == {1};
    RaceStep();
    RunStep(HEARD, RACING, UNTIL_RACE[3..], RACING);
    HearStep();
    assert UNTIL_RACE[2..][1..] == UNTIL_RACE[3..];
    RunStep(TAKEN, HEARD, UNTIL_RACE[2..], RACING);
    TakeStep();
    assert UNTIL_RACE[1..][1..] == UNTIL_RACE[2..];
    RunStep(OPENED, TAKEN, UNTIL_RACE[1..], RACING);
    OpenStep();
    RunStep(INITIAL, OPENED, UNTIL_RACE, RACING);
  }

  const FINISHES := ResultArrived(Result(12, 3, 5, 1, 0, [], true, true), false, 1, 30)

  lemma ReplicaAccepted()
    ensures Accepts(SETUP, RACING, FINISHES) && RivalSnapshot(RACING, 3) && NoneLeftBehind(RACING)
  {
    assert SETUP.kernels["k"].Exact?;
    CountingStep(SETUP, RACING, FINISHES);
    assert Sibling(RACING, 2, 3);
  }

  /** Worker 11 reports, worker 12 races it and wins: the cancelled task's
      snapshot stays behind. */
  lemma CancelledKeepsSnapshot()
    ensures Run(SETUP, INITIAL, UNTIL_RACE) && Accepts(SETUP, Final(SETUP, INITIAL, UNTIL_RACE), FINISHES)
    ensures !NoneLeftBehind(Step(SETUP, Final(SETUP, INITIAL, UNTIL_RACE), FINISHES))
  {
    RaceHappens();
    ReplicaAccepted();
    StartIsSafe(SETUP);
    RunIsSafe(SETUP, INITIAL, UNTIL_RACE);
    StepLeavesNoneIff(SETUP, RACING, FINISHES);
  }
}
