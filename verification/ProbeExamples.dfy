/** A run from the start in which a probe is given to a render job it does not
    fit: its parameters are refused, and once it is alone on the queue nobody is
    sent anything any more, though most of the image is still to be rendered. */
module ProbeExamples {
  import opened Basics
  import opened TaskStates
  import opened TileGrids
  import opened Quorum
  import opened Coordinator
  import opened Protocol
  import opened Invariants
  import opened Runs
  import opened Rendering
  import opened Serving
  import CrashExamples

  /** Two kernels, and two agreeing answers asked for. */
  const MIXED := Setup(map["k" := Exact, "trace" := Exact], CrashExamples.TWICE.quorum, 100)

  function LayoutOf(kernel: string): Layout { if kernel == "trace" then PathTrace else BruteSearch }

  /** An image of two tiles, two samples each; and a keyspace of three units. */
  const PAIR := CrashExamples.PAIR

  function Picture(next: nat, granted: seq<nat>, tasks: seq<TaskId>): Job {
    Job(1, "trace", 0, 4, next, 2, Some(0), Some(PAIR), granted, tasks)
  }

  function Keyspace(next: nat, tasks: seq<TaskId>): Job { Job(2, "k", 0, 3, next, 0, None, None, [], tasks) }

  const FRESH := Picture(0, [0, 0], [])
  const VOTE := CrashExamples.VOTE

  /** The keyspace is one task, in this state. */
  function Searching(st: TaskState, holder: WorkerId, deadline: nat, subs: seq<Submission>, prior: seq<WorkerId>, queue: seq<TaskId>): State {
    State(map[1 := FRESH, 2 := Keyspace(3, [3])], map[3 := Task(3, 2, st, 0, 3, holder, deadline, NIL, subs, prior)],
          queue, map[], {3}, {1, 2}, 4, 0)
  }

  const DRAWN := State(map[1 := FRESH], map[], [], map[], {}, {1}, 2, 0)
  const OPENED := State(map[1 := FRESH, 2 := Keyspace(0, [])], map[], [], map[], {}, {1, 2}, 3, 0)
  const ASKED := Searching(Leased, 11, 100, [], [], [])
  const OPEN_VOTE := Searching(Queued, NIL, 0, [VOTE], [11], [3])
  const ASKED_AGAIN := Searching(Leased, 12, 100, [VOTE], [11], [])
  const DECIDED := Searching(Accepted, NIL, 100, [], [11, 12], [])

  const FOUND := Task(3, 2, Accepted, 0, 3, NIL, 100, NIL, [], [11, 12])
  const BEGUN := map[1 := Picture(1, [1, 0], [4]), 2 := Keyspace(3, [3])]

  function Sample(st: TaskState, holder: WorkerId, deadline: nat): Task { Task(4, 1, st, 0, 1, holder, deadline, NIL, [], []) }

  function Probe(st: TaskState, holder: WorkerId, deadline: nat): Task { Task(5, 1, st, 0, 3, holder, deadline, NIL, [], []) }

  const CARVED := State(BEGUN, map[3 := FOUND, 4 := Sample(Leased, 13, 100)], [], map[], {3, 4}, {1, 2}, 5, 0)

  function Probing(sample: Task, probe: Task, queue: seq<TaskId>): State {
    State(BEGUN, map[3 := FOUND, 4 := sample, 5 := probe], queue, map[], {3, 4, 5}, {1, 2}, 6, 0)
  }

  const PROBED := Probing(Sample(Queued, NIL, 0), Probe(Leased, 13, 100), [4])
  const GIVEN_BACK := Probing(Sample(Queued, NIL, 0), Probe(Queued, NIL, 0), [4, 5])
  const JAMMED := Probing(Sample(Leased, 14, 100), Probe(Queued, NIL, 0), [5])

  function Wants(w: WorkerId, units: nat, probe: Option<(nat, nat)>): Ask { Ask(w, units, [], probe, false, 0.0) }

  function Seven(w: WorkerId): Event { ResultArrived(Result(w, 3, 7, 0, 0, [], true, true), false, 2, 0) }

  // ---- step by step ------------------------------------------------------------------------------

  lemma DrawStep()
    ensures Step(MIXED, INITIAL, NewRender("trace", PAIR, 0, 0)) == DRAWN
  {
    assert PAIR.grid.TileCount() == 2;
    assert seq(2, _ => 0 as nat) == [0, 0];
    assert Step(MIXED, INITIAL, NewRender("trace", PAIR, 0, 0)).jobs == DRAWN.jobs;
  }

  lemma OpenStep()
    ensures Step(MIXED, DRAWN, NewJob("k", 3, 0, 0)) == OPENED
  {
    assert Step(MIXED, DRAWN, NewJob("k", 3, 0, 0)).jobs == OPENED.jobs;
  }

  /** Nothing queued: the first job of the order is carved. */
  lemma CarveFrom(s: State, j: JobId, rest: seq<JobId>, w: WorkerId, units: nat, s': State)
    requires s.queue == [] && j in s.jobs && !s.jobs[j].Exhausted() && units > 0
    requires Carve(s, j, w, 0, 100, units) == (s', Some(s.nextId))
    ensures GrantTask(s, w, 0, 100, units, [], [j] + rest) == (s', Some(s.nextId))
  {
    var order := [j] + rest;
    assert QueuePick(s, w, []).None?;
    var preferred := PreferredJobs(s, [], order);
    assert preferred == [] && preferred + order == order;
    assert CarveFirst(s, order, w, 0, 100, units) == (s', Some(s.nextId));
  }

  lemma SearchCarve()
    ensures Carve(OPENED, 2, 11, 0, 100, 3) == (ASKED, Some(3))
  {
    assert CarveAt(OPENED.jobs[2]) == Some((None, 0)) && CarveSize(OPENED.jobs[2], 0, 3) == 3;
    var r := Carve(OPENED, 2, 11, 0, 100, 3).0;
    assert [] + [3 as TaskId] == [3];
    assert r.jobs == ASKED.jobs && r.tasks == ASKED.tasks && r.dirtyTasks == {3} && r.dirtyJobs == {1, 2};
  }

  lemma AskStep()
    ensures Step(MIXED, OPENED, LeaseRequest(Wants(11, 3, None), 0, [2, 1])) == ASKED
  {
    SearchCarve();
    CarveFrom(OPENED, 2, [1], 11, 3, ASKED);
    assert [2 as JobId] + [1] == [2, 1];
  }

  lemma AnswerKept()
    ensures AfterVote(ASKED, 3, VOTE, NeedMoreReplicas) == OPEN_VOTE
  {
    var r := AfterVote(ASKED, 3, VOTE, NeedMoreReplicas);
    assert [] + [VOTE] == [VOTE] && [] + [11 as WorkerId] == [11] && [] + [3 as TaskId] == [3];
    assert r.tasks == OPEN_VOTE.tasks && r.dirtyTasks == {3};
  }

  lemma AnswerStep()
    ensures Step(MIXED, ASKED, Seven(11)) == OPEN_VOTE
  {
    CrashExamples.Verdicts();
    assert [] + [VOTE] == [VOTE];
    AnswerKept();
    CrashExamples.CountedStep(MIXED, ASKED, Seven(11), NeedMoreReplicas, OPEN_VOTE);
  }

  /** The first queued task goes to a worker new to it. */
  lemma TakeFirst(s: State, w: WorkerId, units: nat, order: seq<JobId>)
    requires s.queue != [] && Grantable(s, w, s.queue[0])
    ensures GrantTask(s, w, 0, 100, units, [], order) == (GrantQueued(s, w, 0, 100, 0), Some(s.queue[0]))
  {
    assert forall id :: !HasInput(s, [], id);
    FirstMatchUnique(s.queue, id => Grantable(s, w, id), 0);
    assert QueuePick(s, w, []) == Some(0);
  }

  lemma AskAgainStep()
    ensures Step(MIXED, OPEN_VOTE, LeaseRequest(Wants(12, 3, None), 0, [2, 1])) == ASKED_AGAIN
  {
    TakeFirst(OPEN_VOTE, 12, 3, [2, 1]);
    VoteTaken();
  }

  lemma VoteTaken()
    ensures GrantQueued(OPEN_VOTE, 12, 0, 100, 0) == ASKED_AGAIN
  {
    var r := GrantQueued(OPEN_VOTE, 12, 0, 100, 0);
    assert r.tasks == ASKED_AGAIN.tasks && r.dirtyTasks == {3} && r.queue == [];
  }

  lemma AgreementKept()
    ensures AfterVote(ASKED_AGAIN, 3, Submission(12, 7, []), Action.Accept) == DECIDED
  {
    var r := AfterVote(ASKED_AGAIN, 3, Submission(12, 7, []), Action.Accept);
    assert [11 as WorkerId] + [12] == [11, 12];
    assert r.tasks == DECIDED.tasks && r.dirtyTasks == {3} && r.partials == map[];
  }

  lemma AgreeStep()
    ensures Step(MIXED, ASKED_AGAIN, Seven(12)) == DECIDED
  {
    CrashExamples.Verdicts();
    assert [VOTE] + [Submission(12, 7, [])] == [VOTE, Submission(12, 7, [])];
    AgreementKept();
    CrashExamples.NobodyElse(DECIDED, 3);
    CrashExamples.CountedStep(MIXED, ASKED_AGAIN, Seven(12), Action.Accept, DECIDED);
  }

  lemma SampleCarve()
    ensures Carve(DECIDED, 1, 13, 0, 100, 1) == (CARVED, Some(4))
  {
    var j := DECIDED.jobs[1];
    assert [0 as nat, 0][..1] == [0] && LeastTile([0], 2) == Some(0) && LeastTile([0, 0], 2) == Some(0);
    assert CarveAt(j) == Some((Some(0), 0)) && CarveSize(j, 0, 1) == 1;
    var r := Carve(DECIDED, 1, 13, 0, 100, 1).0;
    assert [0 as nat, 0][0 := 1] == [1, 0] && [] + [4 as TaskId] == [4];
    assert r.jobs == CARVED.jobs && r.tasks == CARVED.tasks && r.dirtyTasks == {3, 4} && r.dirtyJobs == {1, 2};
  }

  /** The picture comes first in the order, and is four units long. */
  lemma ProbeIssued()
    ensures SwapForProbe(CARVED, 13, 4, (0, 3), 0, 100, [1, 2]) == (PROBED, 5)
  {
    var order := [1 as JobId, 2];
    FirstMatchUnique(order, j => j in CARVED.jobs && 0 + 3 <= CARVED.jobs[j].total, 0);
    assert RangeJob(CARVED, 0, 3, order) == Some(0);
    var (s1, issued) := IssueKnownRange(CARVED, 13, 0, 100, 0, 3, order);
    assert issued == Some(5) && s1.tasks == map[3 := FOUND, 4 := Sample(Leased, 13, 100), 5 := Probe(Leased, 13, 100)];
    var r := Requeue(s1, 4, Release).value;
    assert r.tasks == PROBED.tasks && r.dirtyTasks == {3, 4, 5} && [] + [4 as TaskId] == [4];
  }

  lemma ProbeStep()
    ensures OnLease(MIXED, DECIDED, Wants(13, 1, Some((0, 3))), 0, [1, 2]) == (PROBED, Some(5))
  {
    SampleCarve();
    CarveFrom(DECIDED, 1, [2], 13, 1, CARVED);
    assert [1 as JobId] + [2] == [1, 2];
    ProbeIssued();
  }

  lemma BackStep()
    ensures GiveBack(PROBED, 5) == GIVEN_BACK
  {
    var r := Requeue(PROBED, 5, Release).value;
    assert r.tasks == GIVEN_BACK.tasks && r.dirtyTasks == {3, 4, 5} && [4 as TaskId] + [5] == [4, 5];
  }

  lemma SampleStep()
    ensures OnLease(MIXED, GIVEN_BACK, Wants(14, 1, None), 0, [1, 2]) == (JAMMED, Some(4))
  {
    TakeFirst(GIVEN_BACK, 14, 1, [1, 2]);
    SampleTaken();
  }

  lemma SampleTaken()
    ensures GrantQueued(GIVEN_BACK, 14, 0, 100, 0) == JAMMED
  {
    var s, r := GIVEN_BACK, GrantQueued(GIVEN_BACK, 14, 0, 100, 0);
    assert r.tasks == s.tasks[4 := Sample(Leased, 14, 100)];
    assert s.tasks[4 := Sample(Leased, 14, 100)] == JAMMED.tasks;
    assert r.dirtyTasks == {3, 4, 5};
    assert [4 as TaskId, 5][..0] + [4 as TaskId, 5][1..] == [5];
  }

  // ---- what is sent --------------------------------------------------------------------------------

  /** Three units starting in the first tile, which has two. */
  lemma ProbeSpans(probe: Task)
    requires probe.start == 0 && probe.count == 3
    ensures BuildParams(BEGUN[1], probe) == SpansTiles
  {
    assert PAIR.grid.TileAt(0).Some?;
  }

  /** The request that was picked the probe is sent nothing. */
  lemma ProbeRefused()
    ensures Serve(MIXED, LayoutOf, DECIDED, Wants(13, 1, Some((0, 3))), 0, [1, 2]) == (GIVEN_BACK, None)
  {
    ProbeStep();
    ProbeSpans(PROBED.tasks[5]);
    BackStep();
  }

  const SEARCH: seq<Event> := [] + [NewRender("trace", PAIR, 0, 0)] + [NewJob("k", 3, 0, 0)]
                              + [LeaseRequest(Wants(11, 3, None), 0, [2, 1])] + [Seven(11)]
  const DECIDE: seq<Event> := SEARCH + [LeaseRequest(Wants(12, 3, None), 0, [2, 1])] + [Seven(12)]
  const PROBING: seq<Event> := DECIDE + [LeaseRequest(Wants(13, 1, Some((0, 3))), 0, [1, 2])]
  const JAMMING: seq<Event> := PROBING + [ReleaseRequest(13, 5)] + [LeaseRequest(Wants(14, 1, None), 0, [1, 2])]

  lemma BothOrders()
    ensures Enumerates([2, 1], {1, 2}) && Enumerates([1, 2], {1, 2})
  {
    assert multiset([2, 1]) == multiset({1, 2}) && multiset([1, 2]) == multiset({1, 2});
  }

  ghost predicate Leads(es: seq<Event>, s: State) { Run(MIXED, INITIAL, es) && Final(MIXED, INITIAL, es) == s }

  lemma LeadsOn(es: seq<Event>, s: State, e: Event, s': State)
    requires Leads(es, s) && Admissible(MIXED, s, e) && Step(MIXED, s, e) == s'
    ensures Leads(es + [e], s')
  {
    RunOn(MIXED, INITIAL, es, e);
  }

  lemma MayAsk(s: State, a: Ask)
    requires s.jobs.Keys == {1, 2}
    ensures Admissible(MIXED, s, LeaseRequest(a, 0, [1, 2])) && Admissible(MIXED, s, LeaseRequest(a, 0, [2, 1]))
  {
    BothOrders();
  }

  lemma SearchHappens()
    ensures Leads(SEARCH, OPEN_VOTE)
  {
    var draw, open, ask := NewRender("trace", PAIR, 0, 0), NewJob("k", 3, 0, 0), LeaseRequest(Wants(11, 3, None), 0, [2, 1]);
    DrawStep();
    LeadsOn([], INITIAL, draw, DRAWN);
    OpenStep();
    LeadsOn([] + [draw], DRAWN, open, OPENED);
    MayAsk(OPENED, ask.ask);
    AskStep();
    LeadsOn([] + [draw] + [open], OPENED, ask, ASKED);
    AnswerStep();
    LeadsOn([] + [draw] + [open] + [ask], ASKED, Seven(11), OPEN_VOTE);
  }

  lemma DecideHappens()
    ensures Leads(DECIDE, DECIDED)
  {
    var ask := LeaseRequest(Wants(12, 3, None), 0, [2, 1]);
    SearchHappens();
    MayAsk(OPEN_VOTE, ask.ask);
    AskAgainStep();
    LeadsOn(SEARCH, OPEN_VOTE, ask, ASKED_AGAIN);
    AgreeStep();
    LeadsOn(SEARCH + [ask], ASKED_AGAIN, Seven(12), DECIDED);
  }

  lemma ProbeHappens()
    ensures Leads(PROBING, PROBED)
  {
    DecideHappens();
    MayAsk(DECIDED, Wants(13, 1, Some((0, 3))));
    ProbeStep();
    LeadsOn(DECIDE, DECIDED, LeaseRequest(Wants(13, 1, Some((0, 3))), 0, [1, 2]), PROBED);
  }

  /** Two workers agree on a range of a search; it is then probed, and the probe
      goes to a render job, where it crosses a tile. */
  lemma ProbeCrossesTiles()
    ensures Run(MIXED, INITIAL, PROBING)
    ensures var s := Final(MIXED, INITIAL, PROBING);
            5 in s.tasks && s.tasks[5].job == 1 && 1 in s.jobs && s.jobs[1].ByTile() && BuildParams(s.jobs[1], s.tasks[5]) == SpansTiles
  {
    ProbeHappens();
    ProbeSpans(PROBED.tasks[5]);
  }

  /** The probe is given back, the sample goes to the next worker, and the queue
      holds nothing but the probe. */
  lemma JamHappens()
    ensures Leads(JAMMING, JAMMED)
  {
    ProbeHappens();
    BackStep();
    LeadsOn(PROBING, PROBED, ReleaseRequest(13, 5), GIVEN_BACK);
    MayAsk(GIVEN_BACK, Wants(14, 1, None));
    SampleStep();
    LeadsOn(PROBING + [ReleaseRequest(13, 5)], GIVEN_BACK, LeaseRequest(Wants(14, 1, None), 0, [1, 2]), JAMMED);
  }

  /** From there on, whoever asks - unless picked for a probe - is sent nothing,
      and the three samples left are never handed out. */
  lemma ProbeStarvesAll(asks: seq<(Ask, nat, seq<JobId>)>)
    requires forall x <- asks :: x.0.probe.None?
    ensures Run(MIXED, INITIAL, JAMMING)
    ensures var s := Final(MIXED, INITIAL, JAMMING);
            var (s', sent) := ServeAll(MIXED, LayoutOf, s, asks);
            s'.jobs == s.jobs && 1 in s.jobs && !s.jobs[1].Exhausted() && forall r <- sent :: r.None?
  {
    JamHappens();
    ProbeSpans(JAMMED.tasks[5]);
    assert Jammed(MIXED, LayoutOf, JAMMED);
    JammedForEver(MIXED, LayoutOf, JAMMED, asks);
  }
}
