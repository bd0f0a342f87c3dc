/** A run from the start after which a finished render shows one of the two
    samples that were accepted for its only tile. */
module PictureExamples {
  import opened Basics
  import opened TaskStates
  import opened TileGrids
  import opened Quorum
  import opened Coordinator
  import opened Protocol
  import opened Invariants
  import opened Quietness
  import opened Speculation
  import opened Runs
  import opened Compositing
  import opened Picture
  import Examples
  import CrashExamples

  const SETUP := Examples.SETUP

  /** One pixel, one tile, two samples. */
  const TWO_SAMPLES := Render(TileGrid(1, 1, 1, 1), 2)

  function Dot(next: nat, tasks: seq<TaskId>): Job {
    Job(1, "k", 0, 2, next, 2, Some(0), Some(TWO_SAMPLES), [next], tasks)
  }

  function Sample(id: TaskId, st: TaskState, start: nat, holder: WorkerId, prior: seq<WorkerId>): Task {
    Task(id, 1, st, start, 1, holder, 100, NIL, [], prior)
  }

  const SHOWN := Sample(2, Accepted, 0, NIL, [11])

  function One(t: Task): State { State(map[1 := Dot(1, [2])], map[2 := t], [], map[], {2}, {1}, 3, 0) }

  function Two(t: Task): State { State(map[1 := Dot(2, [2, 3])], map[2 := SHOWN, 3 := t], [], map[], {2, 3}, {1}, 4, 0) }

  const BLANK := State(map[1 := Dot(0, [])], map[], [], map[], {}, {1}, 2, 0)
  const ASKED := One(Sample(2, Leased, 0, 11, []))
  const HALF := One(SHOWN)
  const ASKED_AGAIN := Two(Sample(3, Leased, 1, 11, []))
  const DONE := Two(Sample(3, Accepted, 1, NIL, [11]))

  const DRAW := NewRender("k", TWO_SAMPLES, 0, 0)
  const ASK := LeaseRequest(Examples.AskFor(11), 0, [1])

  function Answer(id: TaskId): Event { ResultArrived(Examples.ResultOf(11, id), false, 1, 0) }

  lemma DrawStep()
    ensures Step(SETUP, INITIAL, DRAW) == BLANK
  {
    assert TWO_SAMPLES.grid.TileCount() == 1;
    assert seq(1, _ => 0 as nat) == [0];
    assert Step(SETUP, INITIAL, DRAW).jobs == BLANK.jobs;
  }

  lemma FirstCarve()
    ensures Carve(BLANK, 1, 11, 0, 100, 1) == (ASKED, Some(2))
  {
    assert LeastTile([0], 2) == Some(0);
    assert CarveAt(BLANK.jobs[1]) == Some((Some(0), 0)) && CarveSize(BLANK.jobs[1], 0, 1) == 1;
    var r := Carve(BLANK, 1, 11, 0, 100, 1).0;
    assert [0 as nat][0 := 1] == [1] && [] + [2 as TaskId] == [2];
    assert r.jobs == ASKED.jobs && r.tasks == ASKED.tasks && r.dirtyTasks == {2} && r.dirtyJobs == {1};
  }

  lemma SecondCarve()
    ensures Carve(HALF, 1, 11, 0, 100, 1) == (ASKED_AGAIN, Some(3))
  {
    assert LeastTile([1], 2) == Some(0);
    assert CarveAt(HALF.jobs[1]) == Some((Some(0), 1)) && CarveSize(HALF.jobs[1], 1, 1) == 1;
    var r := Carve(HALF, 1, 11, 0, 100, 1).0;
    assert [1 as nat][0 := 2] == [2] && [2 as TaskId] + [3] == [2, 3];
    assert r.jobs == ASKED_AGAIN.jobs && r.tasks == ASKED_AGAIN.tasks && r.dirtyTasks == {2, 3} && r.dirtyJobs == {1};
  }

  lemma AskSteps()
    ensures Step(SETUP, BLANK, ASK) == ASKED && Step(SETUP, HALF, ASK) == ASKED_AGAIN
  {
    FirstCarve();
    CrashExamples.CarveOne(BLANK, 11, ASKED);
    SecondCarve();
    CrashExamples.CarveOne(HALF, 11, ASKED_AGAIN);
  }

  /** Without replication the first answer is accepted. */
  lemma AcceptedAtOnce(s: State, id: TaskId, s1: State)
    requires HoldsLease(s, 11, id) && s.tasks[id].job in s.jobs && s.jobs[s.tasks[id].job].kernel == "k"
    requires s.tasks[id].submissions == [] && s.tasks[id].count == 1
    requires s1 == AfterVote(s, id, Submission(11, 5, []), Action.Accept) && CancelSiblingsOf(s1, id) == s1
    ensures Step(SETUP, s, Answer(id)) == s1 && Accepts(SETUP, s, Answer(id)) && CanCount(SETUP, s, Answer(id).result)
  {
    assert SETUP.kernels["k"].Exact?;
    CountingStep(SETUP, s, Answer(id));
  }

  lemma FirstAccepted()
    ensures Step(SETUP, ASKED, Answer(2)) == HALF && Accepts(SETUP, ASKED, Answer(2))
  {
    var s1 := AfterVote(ASKED, 2, Submission(11, 5, []), Action.Accept);
    assert [] + [11 as WorkerId] == [11];
    assert s1.tasks == HALF.tasks && s1.dirtyTasks == {2} && s1.partials == map[];
    CrashExamples.NobodyElse(s1, 2);
    AcceptedAtOnce(ASKED, 2, s1);
  }

  lemma SecondAccepted()
    ensures Step(SETUP, ASKED_AGAIN, Answer(3)) == DONE && Accepts(SETUP, ASKED_AGAIN, Answer(3))
  {
    var s1 := AfterVote(ASKED_AGAIN, 3, Submission(11, 5, []), Action.Accept);
    assert [] + [11 as WorkerId] == [11];
    assert s1.tasks == DONE.tasks && s1.dirtyTasks == {2, 3} && s1.partials == map[];
    Examples.NothingCancelled(s1, 3);
    AcceptedAtOnce(ASKED_AGAIN, 3, s1);
  }

  /** From `s` the events lead to `DONE`, painting `log`. */
  ghost predicate Leads(s: State, es: seq<Event>, log: seq<Painted>) {
    Run(SETUP, s, es) && Final(SETUP, s, es) == DONE && PaintLog(SETUP, s, es) == log
  }

  lemma LeadsFrom(s: State, e: Event, s': State, es: seq<Event>, log: seq<Painted>)
    requires Admissible(SETUP, s, e) && Step(SETUP, s, e) == s' && Leads(s', es, log)
    ensures Leads(s, [e] + es, PaintedBy(SETUP, s, e) + log)
  {
    assert ([e] + es)[1..] == es;
  }

  const FIRST := Painted(2, 1, 0, 1, 0, [])
  const SECOND := Painted(3, 1, 1, 1, 0, [])
  const HISTORY: seq<Event> := [DRAW] + ([ASK] + ([Answer(2)] + ([ASK] + ([Answer(3)] + []))))

  lemma LastHalf()
    ensures Leads(HALF, [ASK] + ([Answer(3)] + []), [] + ([SECOND] + []))
  {
    assert Run(SETUP, DONE, []) && PaintLog(SETUP, DONE, []) == [];
    SecondAccepted();
    assert PaintedBy(SETUP, ASKED_AGAIN, Answer(3)) == [SECOND];
    LeadsFrom(ASKED_AGAIN, Answer(3), DONE, [], []);
    AskSteps();
    Examples.Singleton(1);
    LeadsFrom(HALF, ASK, ASKED_AGAIN, [Answer(3)] + [], [SECOND] + []);
  }

  lemma MostOfIt()
    ensures Leads(ASKED, [Answer(2)] + ([ASK] + ([Answer(3)] + [])), [FIRST] + ([] + ([SECOND] + [])))
  {
    LastHalf();
    FirstAccepted();
    assert PaintedBy(SETUP, ASKED, Answer(2)) == [FIRST];
    LeadsFrom(ASKED, Answer(2), HALF, [ASK] + ([Answer(3)] + []), [] + ([SECOND] + []));
  }

  lemma AfterDrawing()
    ensures Leads(BLANK, [ASK] + ([Answer(2)] + ([ASK] + ([Answer(3)] + []))), [FIRST, SECOND])
  {
    MostOfIt();
    AskSteps();
    Examples.Singleton(1);
    assert PaintedBy(SETUP, BLANK, ASK) == [];
    LeadsFrom(BLANK, ASK, ASKED, [Answer(2)] + ([ASK] + ([Answer(3)] + [])), [FIRST] + ([] + ([SECOND] + [])));
    assert [] + ([FIRST] + ([] + ([SECOND] + []))) == [FIRST, SECOND];
  }

  lemma WholeHistory()
    ensures Leads(INITIAL, HISTORY, [FIRST, SECOND])
  {
    AfterDrawing();
    DrawStep();
    assert PaintedBy(SETUP, INITIAL, DRAW) == [] && [] + [FIRST, SECOND] == [FIRST, SECOND];
    LeadsFrom(INITIAL, DRAW, BLANK, [ASK] + ([Answer(2)] + ([ASK] + ([Answer(3)] + []))), [FIRST, SECOND]);
  }

  lemma SecondIsLast(floats: Decoder)
    requires |floats([])| == 4
    ensures LastFor(TWO_SAMPLES.grid, Decoded([FIRST, SECOND], floats), 0, 1)
  {
    var g, log := TWO_SAMPLES.grid, Decoded([FIRST, SECOND], floats);
    assert Pixels(g.TileAt(0).value) == 1;
    assert log[1] == (0, floats([])) && FitsAt(g, log, 0, 1);
  }

  /** The job is complete, and task 2 was accepted for the tile's first sample. */
  ghost predicate BothAccepted(s: State) {
    JobComplete(s, 1) && s.jobs[1].ByTile() && OfTile(s.jobs[1], 0, 0)
    && 2 in s.tasks && s.tasks[2].state.Accepted? && Holds(s.tasks[2].start, s.tasks[2].count, 0)
  }

  lemma DoneIsBoth()
    ensures BothAccepted(DONE)
  {
  }

  /** Both samples were accepted and the job is complete, but the tile shows the
      second sample alone. */
  lemma SampleIsReplaced(floats: Decoder)
    requires |floats([])| == 4
    ensures Run(SETUP, INITIAL, HISTORY) && BothAccepted(Final(SETUP, INITIAL, HISTORY))
    ensures Shows(SETUP, HISTORY, TWO_SAMPLES.grid, floats, 0, 1)
    ensures PaintLog(SETUP, INITIAL, HISTORY)[1] == SECOND && !Holds(SECOND.start, SECOND.count, 0)
  {
    WholeHistory();
    DoneIsBoth();
    SecondIsLast(floats);
  }
}
