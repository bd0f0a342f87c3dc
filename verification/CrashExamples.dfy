/** Histories from the start that end in a crash: one after which memory is not
    what the file says, one after which a range is covered twice, and one after
    which a tile's sample is carved again. */
module CrashExamples {
  import opened Basics
  import opened TaskStates
  import opened TileGrids
  import opened Quorum
  import opened Coordinator
  import opened Protocol
  import opened Invariants
  import opened Quietness
  import opened Coverage
  import opened Tables
  import opened Durability
  import opened Recovery
  import opened Worlds
  import opened Examples

  // ---- a leased task is stored, and adopted as queued and clean -----------------------------

  const CREATE := Act(NewJob("k", 1, 0, 0))
  const LEASE := Act(LeaseRequest(AskFor(11), 0, [1]))
  const LEASE_STORED: seq<WorldEvent> := [] + [CREATE] + [LEASE] + [Flush([1], [2], true)]

  lemma {:induction false} NoCrashOn(u: Setup, w: World, es: seq<WorldEvent>, e: WorldEvent)
    requires Possibles(u, w, es) && Possible(u, After(u, w, es), e) && RestorableCrashes(u, w, es) && !e.Crash?
    ensures Possibles(u, w, es + [e]) && RestorableCrashes(u, w, es + [e])
    decreases es
  {
    HistoryOn(u, w, es, e);
    if es == [] {
      assert (es + [e])[1..] == [] && Possibles(u, Next(u, w, e), []);
    } else {
      assert (es + [e])[1..] == es[1..] + [e];
      NoCrashOn(u, Next(u, w, es[0]), es[1..], e);
    }
  }

  /** `es` is possible, meets no crash, and leaves memory at `s` with nothing stored. */
  ghost predicate Reaches(u: Setup, es: seq<WorldEvent>, s: State) {
    Possibles(u, START, es) && RestorableCrashes(u, START, es) && After(u, START, es) == World(s, EMPTY, INITIAL)
  }

  lemma ActOn(u: Setup, es: seq<WorldEvent>, s: State, e: Event, s': State)
    requires Reaches(u, es, s) && Admissible(u, s, e) && Step(u, s, e) == s'
    ensures Reaches(u, es + [Act(e)], s')
  {
    HistoryOn(u, START, es, Act(e));
    NoCrashOn(u, START, es, Act(e));
  }

  lemma FlushOn(u: Setup, es: seq<WorldEvent>, s: State, js: seq<JobId>, ts: seq<TaskId>)
    requires Reaches(u, es, s) && Enumerates(js, s.dirtyJobs) && Enumerates(ts, s.dirtyTasks)
    ensures var all := es + [Flush(js, ts, true)];
            Possibles(u, START, all) && RestorableCrashes(u, START, all)
            && After(u, START, all).mem == After(u, START, all).saved == ClearDirty(s)
  {
    HistoryOn(u, START, es, Flush(js, ts, true));
    NoCrashOn(u, START, es, Flush(js, ts, true));
  }

  lemma LeaseIsStored()
    ensures Possibles(SETUP, START, LEASE_STORED) && After(SETUP, START, LEASE_STORED).saved == ClearDirty(LEASED)
  {
    FirstStep();
    ActOn(SETUP, [], INITIAL, CREATE.event, CREATED);
    Singleton(1);
    Singleton(2);
    assert CREATED.jobs.Keys == {1};
    SecondStep();
    ActOn(SETUP, [] + [CREATE], CREATED, LEASE.event, LEASED);
    FlushOn(SETUP, [] + [CREATE] + [LEASE], LEASED, [1], [2]);
  }

  lemma LeasedRowInFlight(saved: State, db: Db, id: TaskId)
    requires Reflects(saved, db) && id in saved.tasks && saved.tasks[id].state.Leased?
    ensures id in db.tasks && InFlight(db.tasks[id].state) && forall p <- db.prior :: p.0 in db.tasks
  {
    assert TaskBehind(saved, db, id, false);
    ReflectsSameKeys(saved, db);
  }

  /** The history goes on to a crash, and however the rows are then read, `bad` holds. */
  ghost predicate CrashLeads(u: Setup, es: seq<WorldEvent>, bad: World -> bool) {
    Possibles(u, START, es) && (exists o :: Possible(u, After(u, START, es), Crash(o)))
    && forall o | Possible(u, After(u, START, es), Crash(o)) :: bad(Next(u, After(u, START, es), Crash(o)))
  }

  ghost predicate CleanAndDifferent(w: World) {
    w.mem.dirtyTasks == {} && w.mem.dirtyJobs == {} && Snapshot(w.mem) != w.db
  }

  ghost predicate Uncovered(w: World) { !Covered(w.mem) }

  /** Create, lease, flush, crash: everything is clean, and memory is not what
      the file holds. */
  lemma CleanButDifferent()
    ensures CrashLeads(SETUP, LEASE_STORED, CleanAndDifferent)
  {
    LeaseIsStored();
    StartOk(SETUP);
    RunsAreSound(SETUP, START, LEASE_STORED);
    var w := After(SETUP, START, LEASE_STORED);
    LeasedRowInFlight(w.saved, w.db, 2);
    var _ := CrashIsPossible(SETUP, w);
    forall o | Possible(SETUP, w, Crash(o)) ensures CleanAndDifferent(Next(SETUP, w, Crash(o))) {
      RestartFaithfulIff(w.db, o);
      RestartBuilds(w.db, o);
    }
  }

  // ---- a probe is stored, and adopted as a range --------------------------------------------------

  /** Two agreeing answers are asked for. */
  const TWICE := Setup(map["k" := Exact], Config(Fixed2x, 2, 4), 100)

  function TwoUnits(next: nat, tasks: seq<TaskId>): Job {
    Job(1, "k", 0, 2, next, 0, None, None, [], tasks)
  }

  function First(st: TaskState, holder: WorkerId, deadline: nat, subs: seq<Submission>, prior: seq<WorkerId>): Task {
    Task(2, 1, st, 0, 1, holder, deadline, NIL, subs, prior)
  }

  function OneCarved(t: Task, queue: seq<TaskId>): State {
    State(map[1 := TwoUnits(1, [2])], map[2 := t], queue, map[], {2}, {1}, 3, 0)
  }

  const OPENED := State(map[1 := TwoUnits(0, [])], map[], [], map[], {}, {1}, 2, 0)
  const VOTE := Submission(11, 7, [])
  const ASKED := OneCarved(First(Leased, 11, 100, [], []), [])
  const OPEN_VOTE := OneCarved(First(Queued, NIL, 0, [VOTE], [11]), [2])
  const ASKED_AGAIN := OneCarved(First(Leased, 12, 100, [VOTE], [11]), [])
  const AGREED := First(Accepted, NIL, 100, [], [11, 12])
  const DECIDED := OneCarved(AGREED, [])
  const SECOND := Task(3, 1, Leased, 1, 1, 13, 100, NIL, [], [])
  const CARVED := State(map[1 := TwoUnits(2, [2, 3])], map[2 := AGREED, 3 := SECOND], [], map[], {2, 3}, {1}, 4, 0)
  const PROBE := Task(4, 1, Leased, 0, 1, 13, 100, NIL, [], [])
  const PROBED := State(map[1 := TwoUnits(2, [2, 3])],
                        map[2 := AGREED, 3 := SECOND.(state := Queued, holder := NIL, deadline := 0), 4 := PROBE],
                        [3], map[], {2, 3, 4}, {1}, 5, 0)

  function Wants(w: WorkerId, probe: Option<(nat, nat)>): Event { LeaseRequest(Ask(w, 1, [], probe, false, 0.0), 0, [1]) }

  function Seven(w: WorkerId): Event { ResultArrived(Result(w, 2, 7, 0, 0, [], true, true), false, 2, 0) }

  lemma OpenStep()
    ensures Step(TWICE, INITIAL, NewJob("k", 2, 0, 0)) == OPENED
  {
  }

  /** What a fresh carve of one unit yields, when nothing is queued. */
  lemma CarveOne(s: State, w: WorkerId, s': State)
    requires s.queue == [] && 1 in s.jobs && !s.jobs[1].Exhausted()
    requires Carve(s, 1, w, 0, 100, 1) == (s', Some(s.nextId))
    ensures GrantTask(s, w, 0, 100, 1, [], [1]) == (s', Some(s.nextId))
  {
    var order: seq<JobId> := [1];
    assert QueuePick(s, w, []).None?;
    var preferred := PreferredJobs(s, [], order);
    assert preferred == [] && preferred + order == order;
    assert CarveFirst(s, order, w, 0, 100, 1) == (s', Some(s.nextId));
  }

  lemma FirstCarve()
    ensures Carve(OPENED, 1, 11, 0, 100, 1) == (ASKED, Some(2))
  {
    assert CarveAt(OPENED.jobs[1]) == Some((None, 0)) && CarveSize(OPENED.jobs[1], 0, 1) == 1;
    var r := Carve(OPENED, 1, 11, 0, 100, 1).0;
    assert [] + [2 as TaskId] == [2];
    assert r.jobs == ASKED.jobs && r.tasks == ASKED.tasks && r.dirtyTasks == {2} && r.dirtyJobs == {1};
  }

  lemma AskStep()
    ensures Step(TWICE, OPENED, Wants(11, None)) == ASKED
  {
    FirstCarve();
    CarveOne(OPENED, 11, ASKED);
  }

  /** One answer is not enough, two equal ones are. */
  lemma Verdicts()
    ensures Decide(Exact, TWICE.quorum, [VOTE]).action == NeedMoreReplicas
    ensures Decide(Exact, TWICE.quorum, [VOTE, Submission(12, 7, [])]).action == Action.Accept
  {
    var one, two := [VOTE], [VOTE, Submission(12, 7, [])];
    assert Clusters(Exact, one, 0) == [] && Clusters(Exact, one, 1) == [[0]];
    assert Clusters(Exact, two, 0) == [] && Clusters(Exact, two, 1) == [[0]];
    var c: seq<nat> := [0];
    assert c[0] == 0 && Agrees(Exact, two[1], two[0]);
    assert Fits(Exact, two, 1, c);
    assert Home(Exact, two, 1, [[0]]) == Some(0);
    assert [0 as nat] + [1] == [0, 1];
    assert Clusters(Exact, two, 2) == [[0, 1]];
  }

  /** A whole answer from the holder, voted on by checksum alone. */
  lemma CountedStep(u: Setup, s: State, e: Event, action: Action, s1: State)
    requires e.ResultArrived? && !e.seen && e.result.lengthOk && e.result.intact && e.result.unitsDone == 0
    requires CanCount(u, s, e.result) && KernelOf(u, s, e.result.task).Exact?
    requires var m, sub := e.result, Submission(e.result.worker, e.result.checksum, []);
             Decide(Exact, u.quorum.(required := e.required), s.tasks[m.task].submissions + [sub]).action == action
             && AfterVote(s, m.task, sub, action) == s1 && (action.Accept? ==> CancelSiblingsOf(s1, m.task) == s1)
    ensures Step(u, s, e) == s1
  {
    CountingStep(u, s, e);
  }

  lemma AnswerStep()
    ensures Step(TWICE, ASKED, Seven(11)) == OPEN_VOTE
  {
    Verdicts();
    assert [] + [VOTE] == [VOTE] && [] + [11 as WorkerId] == [11] && [] + [2 as TaskId] == [2];
    var r := AfterVote(ASKED, 2, VOTE, NeedMoreReplicas);
    assert r.tasks == OPEN_VOTE.tasks && r.dirtyTasks == {2};
    CountedStep(TWICE, ASKED, Seven(11), NeedMoreReplicas, OPEN_VOTE);
  }

  lemma AskAgainStep()
    ensures Step(TWICE, OPEN_VOTE, Wants(12, None)) == ASKED_AGAIN
  {
    var s, q := OPEN_VOTE, [2 as TaskId];
    assert Grantable(s, 12, 2) && !HasInput(s, [], 2);
    FirstMatchUnique(q, id => Grantable(s, 12, id), 0);
    assert QueuePick(s, 12, []) == Some(0);
    var r := GrantQueued(s, 12, 0, 100, 0);
    assert r.tasks == ASKED_AGAIN.tasks && r.dirtyTasks == {2} && r.queue == [];
  }

  /** A task alone in its job has no siblings. */
  lemma NobodyElse(s: State, id: TaskId)
    requires s.tasks.Keys == {id} && s.tasks[id].job in s.jobs && s.jobs[s.tasks[id].job].tasks == [id]
    ensures CancelSiblingsOf(s, id) == s
  {
    var ids := [id];
    assert ids[..0] == [] && CancelEach(s, id, Root(s, id), ids[..0]) == s;
    assert !Cancellable(s, id, Root(s, id), id);
    assert CancelEach(s, id, Root(s, id), ids) == s;
  }

  lemma AgreeStep()
    ensures Step(TWICE, ASKED_AGAIN, Seven(12)) == DECIDED
  {
    Verdicts();
    var sub := Submission(12, 7, []);
    assert [VOTE] + [sub] == [VOTE, sub] && [11 as WorkerId] + [12] == [11, 12];
    var r := AfterVote(ASKED_AGAIN, 2, sub, Action.Accept);
    assert r.tasks == DECIDED.tasks && r.dirtyTasks == {2} && r.partials == map[];
    NobodyElse(r, 2);
    CountedStep(TWICE, ASKED_AGAIN, Seven(12), Action.Accept, DECIDED);
  }

  lemma SecondCarve()
    ensures Carve(DECIDED, 1, 13, 0, 100, 1) == (CARVED, Some(3))
  {
    assert CarveAt(DECIDED.jobs[1]) == Some((None, 1)) && CarveSize(DECIDED.jobs[1], 1, 1) == 1;
    var r := Carve(DECIDED, 1, 13, 0, 100, 1).0;
    assert [2 as TaskId] + [3] == [2, 3];
    assert r.jobs == CARVED.jobs && r.tasks == CARVED.tasks && r.dirtyTasks == {2, 3} && r.dirtyJobs == {1};
  }

  lemma ProbeIssued()
    ensures SwapForProbe(CARVED, 13, 3, (0, 1), 0, 100, [1]) == (PROBED, 4)
  {
    var order := [1 as JobId];
    FirstMatchUnique(order, j => j in CARVED.jobs && 0 + 1 <= CARVED.jobs[j].total, 0);
    assert RangeJob(CARVED, 0, 1, order) == Some(0);
    var (s1, issued) := IssueKnownRange(CARVED, 13, 0, 100, 0, 1, order);
    assert issued == Some(4) && s1.tasks == map[2 := AGREED, 3 := SECOND, 4 := PROBE];
    var r := Requeue(s1, 3, Release).value;
    assert r.tasks == PROBED.tasks && r.dirtyTasks == {2, 3, 4} && [] + [3 as TaskId] == [3];
  }

  /** The range agreed on comes back as a probe, in the place of a new one. */
  lemma ProbeStep()
    ensures Step(TWICE, DECIDED, Wants(13, Some((0, 1)))) == PROBED
  {
    SecondCarve();
    CarveOne(DECIDED, 13, CARVED);
    ProbeIssued();
  }

  const ASK := Act(Wants(11, None))
  const ANSWER := Act(Seven(11))
  const ASK_AGAIN := Act(Wants(12, None))
  const AGREE := Act(Seven(12))
  const ASK_PROBED := Act(Wants(13, Some((0, 1))))
  const ANSWERED: seq<WorldEvent> := [] + [Act(NewJob("k", 2, 0, 0))] + [ASK] + [ANSWER]
  const VOTED: seq<WorldEvent> := ANSWERED + [ASK_AGAIN] + [AGREE]
  const PROBE_STORED: seq<WorldEvent> := VOTED + [ASK_PROBED] + [Flush([1], [2, 3, 4], true)]

  lemma MayAsk(s: State, w: WorkerId, probe: Option<(nat, nat)>)
    requires s.jobs.Keys == {1}
    ensures Admissible(TWICE, s, Wants(w, probe))
  {
    Singleton(1);
  }

  lemma AnswerHappens()
    ensures Reaches(TWICE, ANSWERED, OPEN_VOTE)
  {
    OpenStep();
    var es: seq<WorldEvent> := [] + [Act(NewJob("k", 2, 0, 0))];
    ActOn(TWICE, [], INITIAL, NewJob("k", 2, 0, 0), OPENED);
    MayAsk(OPENED, 11, None);
    AskStep();
    ActOn(TWICE, es, OPENED, ASK.event, ASKED);
    AnswerStep();
    ActOn(TWICE, es + [ASK], ASKED, ANSWER.event, OPEN_VOTE);
  }

  lemma VoteHappens()
    ensures Reaches(TWICE, VOTED, DECIDED)
  {
    AnswerHappens();
    MayAsk(OPEN_VOTE, 12, None);
    AskAgainStep();
    ActOn(TWICE, ANSWERED, OPEN_VOTE, ASK_AGAIN.event, ASKED_AGAIN);
    AgreeStep();
    ActOn(TWICE, ANSWERED + [ASK_AGAIN], ASKED_AGAIN, AGREE.event, DECIDED);
  }

  lemma ProbeIsStored()
    ensures Possibles(TWICE, START, PROBE_STORED) && RestorableCrashes(TWICE, START, PROBE_STORED)
    ensures After(TWICE, START, PROBE_STORED).saved == ClearDirty(PROBED)
  {
    VoteHappens();
    MayAsk(DECIDED, 13, Some((0, 1)));
    ProbeStep();
    ActOn(TWICE, VOTED, DECIDED, ASK_PROBED.event, PROBED);
    Singleton(1);
    assert multiset([2 as nat, 3, 4]) == multiset({2 as nat, 3, 4});
    FlushOn(TWICE, VOTED + [ASK_PROBED], PROBED, [1], [2, 3, 4]);
  }

  lemma ProbedIsNotRestorable()
    ensures !Restorable(ClearDirty(PROBED))
  {
    assert 4 in PROBED.tasks && 4 !in PROBED.jobs[1].tasks;
  }

  /** Two workers agree on the first unit, which is then probed while the second
      is handed out. After a flush and a crash the first unit is covered by two
      ranges of its job. */
  lemma ProbeCoversTwice()
    ensures CrashLeads(TWICE, PROBE_STORED, Uncovered) && Covered(After(TWICE, START, PROBE_STORED).mem)
  {
    ProbeIsStored();
    ProbedIsNotRestorable();
    CrashUncovers(TWICE, PROBE_STORED);
  }

  lemma CrashUncovers(u: Setup, es: seq<WorldEvent>)
    requires Possibles(u, START, es) && RestorableCrashes(u, START, es) && !Restorable(After(u, START, es).saved)
    ensures CrashLeads(u, es, Uncovered) && Covered(After(u, START, es).mem)
  {
    StartOk(u);
    RunsAreSound(u, START, es);
    CoveredAlongRunsIff(u, START, es);
    var w := After(u, START, es);
    var _ := CrashIsPossible(u, w);
    forall o | Possible(u, w, Crash(o)) ensures Uncovered(Next(u, w, Crash(o))) {
      NextCoveredIff(u, w, Crash(o));
    }
  }

  // ---- tiles are stored as a cursor -------------------------------------------------------------

  /** An image of two tiles, two samples each. */
  const PAIR := Render(TileGrid(2, 1, 1, 1), 2)

  function TwoTiles(next: nat, granted: seq<nat>, tasks: seq<TaskId>): Job {
    Job(1, "k", 0, 4, next, 2, Some(0), Some(PAIR), granted, tasks)
  }

  const BLANK := State(map[1 := TwoTiles(0, [0, 0], [])], map[], [], map[], {}, {1}, 2, 0)
  const LEFT := Task(2, 1, Leased, 0, 1, 11, 100, NIL, [], [])
  const RIGHT := Task(3, 1, Leased, 2, 1, 12, 100, NIL, [], [])
  const BEGUN := State(map[1 := TwoTiles(1, [1, 0], [2])], map[2 := LEFT], [], map[], {2}, {1}, 3, 0)
  const SPREAD := State(map[1 := TwoTiles(2, [1, 1], [2, 3])], map[2 := LEFT, 3 := RIGHT], [], map[], {2, 3}, {1}, 4, 0)

  lemma RenderStep()
    ensures Step(TWICE, INITIAL, NewRender("k", PAIR, 0, 0)) == BLANK
  {
    assert PAIR.grid.TileCount() == 2;
    assert seq(2, _ => 0 as nat) == [0, 0];
    assert Step(TWICE, INITIAL, NewRender("k", PAIR, 0, 0)).jobs == BLANK.jobs;
  }

  lemma LeftStep()
    ensures Step(TWICE, BLANK, Wants(11, None)) == BEGUN
  {
    var j := BLANK.jobs[1];
    assert [0 as nat, 0][..1] == [0] && LeastTile([0], 2) == Some(0) && LeastTile([0, 0], 2) == Some(0);
    assert CarveAt(j) == Some((Some(0), 0)) && CarveSize(j, 0, 1) == 1;
    var r := Carve(BLANK, 1, 11, 0, 100, 1).0;
    assert [0 as nat, 0][0 := 1] == [1, 0] && [] + [2 as TaskId] == [2];
    assert r.jobs == BEGUN.jobs && r.tasks == BEGUN.tasks && r.dirtyTasks == {2} && r.dirtyJobs == {1};
    CarveOne(BLANK, 11, BEGUN);
  }

  /** The next range comes from the other tile, which has given out less. */
  lemma RightStep()
    ensures Step(TWICE, BEGUN, Wants(12, None)) == SPREAD
  {
    var j := BEGUN.jobs[1];
    assert [1 as nat, 0][..1] == [1] && LeastTile([1], 2) == Some(0) && LeastTile([1, 0], 2) == Some(1);
    assert CarveAt(j) == Some((Some(1), 2)) && CarveSize(j, 2, 1) == 1;
    var r := Carve(BEGUN, 1, 12, 0, 100, 1).0;
    assert [1 as nat, 0][1 := 1] == [1, 1] && [2 as TaskId] + [3] == [2, 3];
    assert r.jobs == SPREAD.jobs && r.tasks == SPREAD.tasks && r.dirtyTasks == {2, 3} && r.dirtyJobs == {1};
    CarveOne(BEGUN, 12, SPREAD);
  }

  const RENDER := Act(NewRender("k", PAIR, 0, 0))
  const ASK_OTHER := Act(Wants(12, None))
  const SPREAD_STORED: seq<WorldEvent> := [] + [RENDER] + [ASK] + [ASK_OTHER] + [Flush([1], [2, 3], true)]

  lemma SpreadIsStored()
    ensures Possibles(TWICE, START, SPREAD_STORED) && RestorableCrashes(TWICE, START, SPREAD_STORED)
    ensures After(TWICE, START, SPREAD_STORED).saved == ClearDirty(SPREAD)
  {
    RenderStep();
    ActOn(TWICE, [], INITIAL, RENDER.event, BLANK);
    MayAsk(BLANK, 11, None);
    LeftStep();
    ActOn(TWICE, [] + [RENDER], BLANK, ASK.event, BEGUN);
    MayAsk(BEGUN, 12, None);
    RightStep();
    ActOn(TWICE, [] + [RENDER] + [ASK], BEGUN, ASK_OTHER.event, SPREAD);
    Singleton(1);
    assert multiset([2 as nat, 3]) == multiset({2 as nat, 3});
    FlushOn(TWICE, [] + [RENDER] + [ASK] + [ASK_OTHER], SPREAD, [1], [2, 3]);
  }

  lemma SpreadIsNotRestorable()
    ensures !Restorable(ClearDirty(SPREAD))
  {
    var j := SPREAD.jobs[1];
    assert j.ByTile() && j.tileGranted[1] > 0 && j.tileGranted[0] != 2;
  }

  /** One sample of each of two tiles is handed out. After a flush and a crash
      the cursor stands at two: the second tile's sample would be carved again. */
  lemma SpreadLosesCoverage()
    ensures CrashLeads(TWICE, SPREAD_STORED, Uncovered) && Covered(After(TWICE, START, SPREAD_STORED).mem)
  {
    SpreadIsStored();
    SpreadIsNotRestorable();
    CrashUncovers(TWICE, SPREAD_STORED);
  }
}
