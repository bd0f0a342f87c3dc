/** Every vote can happen: any sequence of answers that leaves a vote open is
    what some run of the coordinator has on record. So the conditions under which
    a vote publishes what it accepted are exact for histories, not just for votes. */
module Polls {
  import opened Basics
  import opened TaskStates
  import opened TileGrids
  import opened Quorum
  import opened Coordinator
  import opened Protocol
  import opened Invariants
  import opened Quietness
  import opened Speculation
  import opened Runs
  import opened Worlds
  import opened Remembering
  import opened Attribution

  /** An image of one pixel, in one tile, of one sample. */
  const DOT := Render(TileGrid(1, 1, 1, 1), 1)

  /** A render job of that image. */
  function OneDot(kernel: string, next: nat, tasks: seq<TaskId>): Job {
    Job(1, kernel, 0, 1, next, 1, Some(0), Some(DOT), [next], tasks)
  }

  function VotersOf(subs: seq<Submission>): (r: seq<WorkerId>)
    ensures |r| == |subs| && forall i :: 0 <= i < |r| ==> r[i] == subs[i].worker
  {
    seq(|subs|, (i: nat) requires i < |subs| => subs[i].worker)
  }

  function Polled(st: TaskState, w: WorkerId, deadline: nat, subs: seq<Submission>): Task {
    Task(2, 1, st, 0, 1, w, deadline, NIL, subs, VotersOf(subs))
  }

  /** The task waits for another voter; before the first, it is not yet carved. */
  function Waiting(kernel: string, subs: seq<Submission>): State {
    if subs == [] then State(map[1 := OneDot(kernel, 0, [])], map[], [], map[], {}, {1}, 2, 0)
    else State(map[1 := OneDot(kernel, 1, [2])], map[2 := Polled(Queued, NIL, 0, subs)], [2], map[], {2}, {1}, 3, 0)
  }

  /** Voter `w` holds it. */
  function Held(kernel: string, subs: seq<Submission>, w: WorkerId, lease: nat): State {
    State(map[1 := OneDot(kernel, 1, [2])], map[2 := Polled(Leased, w, lease, subs)], [], map[], {2}, {1}, 3, 0)
  }

  function Asks(w: WorkerId): Event { LeaseRequest(Ask(w, 1, [], None, false, 0.0), 0, [1]) }

  function Says(sub: Submission, required: nat): Event {
    ResultArrived(Result(sub.worker, 2, sub.checksum, 0, 0, sub.payload, true, true), false, required, 0)
  }

  lemma CarveForVoter(kernel: string, w: WorkerId, lease: nat)
    ensures Carve(Waiting(kernel, []), 1, w, 0, lease, 1) == (Held(kernel, [], w, lease), Some(2))
  {
    var s := Waiting(kernel, []);
    assert LeastTile([0], 1) == Some(0);
    assert CarveAt(s.jobs[1]) == Some((Some(0), 0)) && CarveSize(s.jobs[1], 0, 1) == 1;
    var s1 := Carve(s, 1, w, 0, lease, 1).0;
    assert [] + [2 as TaskId] == [2] && VotersOf([]) == [];
    assert [0 as nat][0 := 1] == [1];
    assert s1.jobs[1] == OneDot(kernel, 1, [2]);
    assert s1.jobs == Held(kernel, [], w, lease).jobs && s1.tasks == Held(kernel, [], w, lease).tasks;
    assert s1.dirtyTasks == {2} && s1.dirtyJobs == {1};
  }

  lemma FirstVoterAsks(u: Setup, kernel: string, w: WorkerId)
    ensures Step(u, Waiting(kernel, []), Asks(w)) == Held(kernel, [], w, u.leaseMs)
  {
    var s, order := Waiting(kernel, []), [1 as JobId];
    CarveForVoter(kernel, w, u.leaseMs);
    assert QueuePick(s, w, []).None?;
    var preferred := PreferredJobs(s, [], order);
    assert preferred == [] && preferred + order == order;
    assert CarveFirst(s, order, w, 0, u.leaseMs, 1) == (Held(kernel, [], w, u.leaseMs), Some(2));
  }

  lemma NextVoterAsks(u: Setup, kernel: string, subs: seq<Submission>, w: WorkerId)
    requires subs != [] && w !in VotersOf(subs)
    ensures Step(u, Waiting(kernel, subs), Asks(w)) == Held(kernel, subs, w, u.leaseMs)
  {
    var s, q := Waiting(kernel, subs), [2 as TaskId];
    assert Grantable(s, w, 2) && !HasInput(s, [], 2);
    FirstMatchUnique(q, id => Grantable(s, w, id), 0);
    assert QueuePick(s, w, []) == Some(0);
    var r := GrantQueued(s, w, 0, u.leaseMs, 0);
    assert r.tasks == Held(kernel, subs, w, u.leaseMs).tasks && r.dirtyTasks == {2} && r.queue == [];
  }

  lemma VoterAsks(u: Setup, kernel: string, subs: seq<Submission>, sub: Submission)
    requires DistinctVoters(subs + [sub])
    ensures Step(u, Waiting(kernel, subs), Asks(sub.worker)) == Held(kernel, subs, sub.worker, u.leaseMs)
  {
    if subs == [] {
      FirstVoterAsks(u, kernel, sub.worker);
    } else {
      forall i | 0 <= i < |subs| ensures VotersOf(subs)[i] != sub.worker {
        assert (subs + [sub])[i].worker != (subs + [sub])[|subs|].worker;
      }
      NextVoterAsks(u, kernel, subs, sub.worker);
    }
  }

  /** Its answer is counted as it was sent. */
  lemma VoterCounts(u: Setup, kernel: string, subs: seq<Submission>, sub: Submission, required: nat)
    requires kernel in u.kernels && (u.kernels[kernel].Exact? ==> sub.payload == [])
    ensures var s, e := Held(kernel, subs, sub.worker, u.leaseMs), Says(sub, required);
            Counts(u, s, e) && CanCount(u, s, e.result) && KernelOf(u, s, 2) == u.kernels[kernel]
            && Retained(e.result, KernelOf(u, s, 2)) == sub && Answers(u, s, e.result) == subs + [sub]
  {
  }

  lemma VoterSays(u: Setup, kernel: string, subs: seq<Submission>, sub: Submission, required: nat)
    requires kernel in u.kernels && (u.kernels[kernel].Exact? ==> sub.payload == [])
    requires Decide(u.kernels[kernel], u.quorum.(required := required), subs + [sub]).action.NeedMoreReplicas?
    ensures Step(u, Held(kernel, subs, sub.worker, u.leaseMs), Says(sub, required)) == Waiting(kernel, subs + [sub])
  {
    var s, e := Held(kernel, subs, sub.worker, u.leaseMs), Says(sub, required);
    VoterCounts(u, kernel, subs, sub, required);
    CountingStep(u, s, e);
    var r, r' := AfterVote(s, 2, sub, NeedMoreReplicas), Waiting(kernel, subs + [sub]);
    assert VotersOf(subs + [sub]) == VotersOf(subs) + [sub.worker];
    assert r.tasks == r'.tasks && r.dirtyTasks == {2} && [] + [2 as TaskId] == [2];
  }

  lemma TwoMore(u: Setup, rated: bool, es: seq<Event>, e: Event, s: State, e': Event, s': State)
    requires Run(u, INITIAL, es) && AllGraded(u, rated, es) && Graded(u, rated, e) && Graded(u, rated, e')
    requires Admissible(u, Final(u, INITIAL, es), e) && Step(u, Final(u, INITIAL, es), e) == s
    requires Admissible(u, s, e') && Step(u, s, e') == s'
    ensures var more := es + [e] + [e'];
            Run(u, INITIAL, more) && AllGraded(u, rated, more) && Final(u, INITIAL, more) == s'
  {
    RunOn(u, INITIAL, es, e);
    RunOn(u, INITIAL, es + [e], e');
  }

  lemma VoterMayAsk(u: Setup, kernel: string, subs: seq<Submission>, w: WorkerId)
    ensures Admissible(u, Waiting(kernel, subs), Asks(w))
  {
    assert Waiting(kernel, subs).jobs.Keys == {1};
    assert multiset([1 as JobId]) == multiset({1 as JobId});
  }

  lemma AskedPrefix(k: Comparator, cfg: Config, rated: bool, init: seq<Submission>, sub: Submission) returns (st: Standing)
    requires Asked(k, cfg, rated, init + [sub])
    ensures Asked(k, cfg, rated, init) && Decide(k, Asking(cfg, rated, st), init + [sub]).action.NeedMoreReplicas?
  {
    var subs := init + [sub];
    assert forall i | 1 <= i <= |init| :: init[..i] == subs[..i];
    assert subs[..|subs|] == subs && StillAsking(k, cfg, rated, subs);
    st :| Decide(k, Asking(cfg, rated, st), subs).action.NeedMoreReplicas?;
  }

  /** The payload is kept for inexact kernels only. */
  ghost predicate Bare(k: Comparator, subs: seq<Submission>) {
    k.Exact? ==> forall a :: 0 <= a < |subs| ==> subs[a].payload == []
  }

  lemma DotIsOneTile()
    ensures DOT.grid.TileCount() == 1
  {
  }

  lemma JobOpens(u: Setup, rated: bool, kernel: string)
    requires kernel in u.kernels
    ensures var es := [NewRender(kernel, DOT, 0, 0)];
            Run(u, INITIAL, es) && AllGraded(u, rated, es) && Final(u, INITIAL, es) == Waiting(kernel, [])
  {
    var es := [NewRender(kernel, DOT, 0, 0)];
    DotIsOneTile();
    assert seq(1, _ => 0 as nat) == [0];
    assert Step(u, INITIAL, es[0]).jobs == Waiting(kernel, []).jobs;
    assert Step(u, INITIAL, es[0]) == Waiting(kernel, []);
    assert es[1..] == [] && Run(u, Step(u, INITIAL, es[0]), []);
  }

  lemma OneVoterMore(u: Setup, rated: bool, kernel: string, init: seq<Submission>, sub: Submission, st: Standing, before: seq<Event>)
    returns (es: seq<Event>)
    requires kernel in u.kernels && Bare(u.kernels[kernel], init + [sub]) && DistinctVoters(init + [sub])
    requires Decide(u.kernels[kernel], Asking(u.quorum, rated, st), init + [sub]).action.NeedMoreReplicas?
    requires Run(u, INITIAL, before) && AllGraded(u, rated, before) && Final(u, INITIAL, before) == Waiting(kernel, init)
    ensures Run(u, INITIAL, es) && AllGraded(u, rated, es) && Final(u, INITIAL, es) == Waiting(kernel, init + [sub])
  {
    var required := Asking(u.quorum, rated, st).required;
    assert u.quorum.(required := required) == Asking(u.quorum, rated, st) && (init + [sub])[|init|] == sub;
    VoterMayAsk(u, kernel, init, sub.worker);
    VoterAsks(u, kernel, init, sub);
    VoterSays(u, kernel, init, sub, required);
    TwoMore(u, rated, before, Asks(sub.worker), Held(kernel, init, sub.worker, u.leaseMs),
            Says(sub, required), Waiting(kernel, init + [sub]));
    es := before + [Asks(sub.worker)] + [Says(sub, required)];
  }

  /** Every open vote is reached by a run from the start. */
  lemma {:induction false} OpenVoteHappens(u: Setup, rated: bool, kernel: string, subs: seq<Submission>) returns (es: seq<Event>)
    requires kernel in u.kernels && Bare(u.kernels[kernel], subs)
    requires DistinctVoters(subs) && Asked(u.kernels[kernel], u.quorum, rated, subs)
    ensures Run(u, INITIAL, es) && AllGraded(u, rated, es) && Final(u, INITIAL, es) == Waiting(kernel, subs)
    decreases |subs|
  {
    if subs == [] {
      es := [NewRender(kernel, DOT, 0, 0)];
      JobOpens(u, rated, kernel);
    } else {
      var init, sub := subs[..|subs| - 1], subs[|subs| - 1];
      assert subs == init + [sub];
      var st := AskedPrefix(u.kernels[kernel], u.quorum, rated, init, sub);
      var before := OpenVoteHappens(u, rated, kernel, init);
      es := OneVoterMore(u, rated, kernel, init, sub, st, before);
    }
  }

  lemma Accepted(u: Setup, kernel: string, subs: seq<Submission>, sub: Submission, required: nat)
    requires kernel in u.kernels && (u.kernels[kernel].Exact? ==> sub.payload == [])
    requires Decide(u.kernels[kernel], u.quorum.(required := required), subs + [sub]).action.Accept?
    ensures Accepts(u, Held(kernel, subs, sub.worker, u.leaseMs), Says(sub, required))
  {
    var s, e := Held(kernel, subs, sub.worker, u.leaseMs), Says(sub, required);
    VoterCounts(u, kernel, subs, sub, required);
    VoteIs(s, 2, sub, u.kernels[kernel], u.quorum.(required := required));
  }

  /** Every vote that completes does so at the end of some run. */
  lemma CompletionHappens(u: Setup, rated: bool, kernel: string, st: Standing, init: seq<Submission>, last: Submission)
    returns (es: seq<Event>, e: Event)
    requires kernel in u.kernels && Bare(u.kernels[kernel], init + [last])
    requires Completes(u.kernels[kernel], u.quorum, rated, st, init, last)
    ensures Run(u, INITIAL, es) && AllGraded(u, rated, es) && Graded(u, rated, e) && e == Says(last, Asking(u.quorum, rated, st).required)
    ensures Final(u, INITIAL, es) == Held(kernel, init, last.worker, u.leaseMs) && Accepts(u, Final(u, INITIAL, es), e)
  {
    var required := Asking(u.quorum, rated, st).required;
    var all := init + [last];
    assert u.quorum.(required := required) == Asking(u.quorum, rated, st) && all[|init|] == last;
    assert Bare(u.kernels[kernel], init) by {
      assert forall a | 0 <= a < |init| :: init[a] == all[a];
    }
    assert DistinctVoters(init) by {
      assert forall a | 0 <= a < |init| :: init[a] == all[a];
    }
    var before := OpenVoteHappens(u, rated, kernel, init);
    VoterMayAsk(u, kernel, init, last.worker);
    VoterAsks(u, kernel, init, last);
    RunOn(u, INITIAL, before, Asks(last.worker));
    Accepted(u, kernel, init, last, required);
    es, e := before + [Asks(last.worker)], Says(last, required);
  }

  // ---- the conditions are exact for histories ----------------------------------------------

  /** The next event `e` of a history accepts an answer. */
  ghost predicate EndsAccepting(u: Setup, rated: bool, es: seq<WorldEvent>, e: Event) {
    Possibles(u, START, es) && GradedHistory(u, rated, es) && Graded(u, rated, e)
    && Accepts(u, After(u, START, es).mem, e) && CanCount(u, After(u, START, es).mem, e.result)
  }

  /** Whatever the history, a tile that an acceptance paints is one it accepted. */
  ghost predicate PaintsAgreed(u: Setup, rated: bool) {
    forall es, e | EndsAccepting(u, rated, es, e) && Paints(u, After(u, START, es).mem, e) ::
      PublishesAgreed(u, After(u, START, es).mem, e)
  }

  /** And what it remembers, if anything, is of the cluster it accepted. */
  ghost predicate RemembersAgreed(u: Setup, rated: bool) {
    forall es, e | EndsAccepting(u, rated, es, e) && Remembers(u, After(u, START, es).mem, e) ::
      PublishesAgreed(u, After(u, START, es).mem, e)
  }

  lemma SplitIsBare(k: Comparator, x: Payload, y: Payload, s: nat, m: nat)
    requires TellsApart(k, x, y)
    ensures Bare(k, Split(x, y, s, m))
  {
  }

  /** A run of one process is a history. */
  lemma AcceptingRun(u: Setup, rated: bool, es: seq<Event>, e: Event)
    requires Run(u, INITIAL, es) && AllGraded(u, rated, es) && Graded(u, rated, e) && Accepts(u, Final(u, INITIAL, es), e)
    requires CanCount(u, Final(u, INITIAL, es), e.result)
    ensures EndsAccepting(u, rated, Acts(es), e) && After(u, START, Acts(es)).mem == Final(u, INITIAL, es)
  {
    RunIsHistory(u, START, es);
  }

  /** A vote that publishes dissent happens, for any kernel that can tell two answers apart. */
  lemma DissentHappens(u: Setup, rated: bool, kernel: string, x: Payload, y: Payload, st: Standing, s: nat, m: nat)
    returns (es: seq<WorldEvent>, e: Event)
    requires kernel in u.kernels && TellsApart(u.kernels[kernel], x, y)
    requires PublishesDissent(u.kernels[kernel], x, y, u.quorum, rated, st, s, m)
    ensures EndsAccepting(u, rated, es, e) && Paints(u, After(u, START, es).mem, e)
    ensures !PublishesAgreed(u, After(u, START, es).mem, e)
    ensures Verdicted(u, After(u, START, es).mem, e.result, e.required)
            == Decide(u.kernels[kernel], Asking(u.quorum, rated, st), Split(x, y, s, m))
  {
    var init, last := Split(x, y, s, m - 1), Split(x, y, s, m)[m - 1];
    SplitIsBare(u.kernels[kernel], x, y, s, m);
    var run;
    run, e := CompletionHappens(u, rated, kernel, st, init, last);
    VoterCounts(u, kernel, init, last, e.required);
    assert u.quorum.(required := e.required) == Asking(u.quorum, rated, st);
    AcceptingRun(u, rated, run, e);
    es := Acts(run);
  }

  /** Over all histories: what is painted is what was accepted if, and only if,
      the replica cap is safe - or, with thresholds that vary, nothing is replicated. */
  lemma RunsPaintAgreedIff(u: Setup, rated: bool, kernel: string, x: Payload, y: Payload)
    requires kernel in u.kernels && TellsApart(u.kernels[kernel], x, y)
    ensures PaintsAgreed(u, rated) <==> PictureIsSafe(u.quorum, rated)
  {
    if PictureIsSafe(u.quorum, rated) {
      forall es, e | EndsAccepting(u, rated, es, e) && Paints(u, After(u, START, es).mem, e)
        ensures PublishesAgreed(u, After(u, START, es).mem, e)
      {
        PaintedIsAccepted(u, rated, es, e);
      }
    } else {
      var st, s, m := UnsafePicturePaintsDissent(u.kernels[kernel], x, y, u.quorum, rated);
      var es, e := DissentHappens(u, rated, kernel, x, y, st, s, m);
    }
  }

  /** Over all histories: what is remembered is what was accepted if, and only if,
      the replica cap is safe - or, with thresholds that vary, at most two. */
  lemma RunsRememberAgreedIff(u: Setup, rated: bool, kernel: string, x: Payload, y: Payload)
    requires kernel in u.kernels && TellsApart(u.kernels[kernel], x, y)
    ensures RemembersAgreed(u, rated) <==> PoolIsSafe(u.quorum, rated)
  {
    if PoolIsSafe(u.quorum, rated) {
      forall es, e | EndsAccepting(u, rated, es, e) && Remembers(u, After(u, START, es).mem, e)
        ensures PublishesAgreed(u, After(u, START, es).mem, e)
      {
        RememberedIsAccepted(u, rated, es, e);
      }
    } else {
      var st, s, m := UnsafePoolRemembersDissent(u.kernels[kernel], x, y, u.quorum, rated);
      var es, e := DissentHappens(u, rated, kernel, x, y, st, s, m);
      assert Remembers(u, After(u, START, es).mem, e);
    }
  }
}
