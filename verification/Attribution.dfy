/** Whose answer a vote publishes, end to end: on every history, crashes
    included, the submission whose checksum is remembered and whose payload is
    painted is one that the vote accepted, for the configurations in which that is so at all. */
module Attribution {
  import opened Basics
  import opened Quorum
  import opened Counting
  import opened Coordinator
  import opened Protocol
  import opened Invariants
  import opened Growth
  import opened Marking
  import opened Quietness
  import opened Speculation
  import opened Remembering
  import opened Worlds

  /** The agreement an answer needs is what its sender's record asks for. */
  ghost predicate Graded(u: Setup, rated: bool, e: Event) {
    e.ResultArrived? ==> exists st :: e.required == Asking(u.quorum, rated, st).required
  }

  ghost predicate AllGraded(u: Setup, rated: bool, es: seq<Event>) {
    forall i :: 0 <= i < |es| ==> Graded(u, rated, es[i])
  }

  /** The same on a history with flushes and crashes. */
  ghost predicate GradedHistory(u: Setup, rated: bool, es: seq<WorldEvent>) {
    forall i :: 0 <= i < |es| && es[i].Act? ==> Graded(u, rated, es[i].event)
  }

  /** The answers on record are those of a vote that is still open. */
  ghost predicate VoteIsOpen(u: Setup, rated: bool, s: State, id: TaskId)
    requires id in s.tasks
  {
    s.tasks[id].job in s.jobs && s.jobs[s.tasks[id].job].kernel in u.kernels
    && Asked(KernelOf(u, s, id), u.quorum, rated, s.tasks[id].submissions)
  }

  ghost predicate VotesAreOpen(u: Setup, rated: bool, s: State) {
    forall id <- s.tasks :: VoteIsOpen(u, rated, s, id)
  }

  // ---- what a step does to the answers on record --------------------------------------

  /** Those of old tasks are kept, new tasks have none. */
  ghost predicate SameAnswers(s: State, s': State) {
    forall id <- s'.tasks :: s'.tasks[id].submissions == if id in s.tasks then s.tasks[id].submissions else []
  }

  lemma RaceSameAnswers(s: State, w: WorkerId, now: nat, lease: nat, threshold: real, order: seq<JobId>)
    requires Ids(s)
    ensures SameAnswers(s, IssueSpeculative(s, w, now, lease, threshold, order).0)
  {
    assert s.nextId !in s.tasks;
  }

  lemma QuietSameAnswers(s: State, s': State)
    requires Quiet(s, s')
    ensures SameAnswers(s, s')
  {
  }

  lemma LeaseSameAnswers(u: Setup, s: State, a: Ask, now: nat, order: seq<JobId>)
    requires Core(s)
    ensures SameAnswers(s, OnLease(u, s, a, now, order).0)
  {
    var (s1, granted) := GrantTask(s, a.worker, now, u.leaseMs, a.units, a.cached, order);
    GrantKeeps(s, a.worker, now, u.leaseMs, a.units, a.cached, order);
    GrantQuiet(s, a.worker, now, u.leaseMs, a.units, a.cached, order);
    if granted.Some? && a.probe.Some? {
      SwapQuiet(s1, a.worker, granted.value, a.probe.value, now, u.leaseMs, order);
    } else if granted.None? && a.speculate {
      RaceSameAnswers(s1, a.worker, now, u.leaseMs, a.threshold, order);
    }
  }

  /** Only a counted answer changes them: it joins the others if more are asked
      for, and otherwise they are dropped. */
  lemma CountAnswers(u: Setup, s: State, e: Event, id: TaskId)
    requires Core(s) && Counts(u, s, e) && id in Step(u, s, e).tasks
    ensures CanCount(u, s, e.result) && id in s.tasks
    ensures var m := e.result;
            Step(u, s, e).tasks[id].submissions
            == if id != m.task then s.tasks[id].submissions
               else if Verdicted(u, s, m, e.required).action.NeedMoreReplicas? then Answers(u, s, m) else []
  {
    CountingStep(u, s, e);
    var m := e.result;
    var s1 := AfterVote(s, m.task, Retained(m, KernelOf(u, s, m.task)), Verdicted(u, s, m, e.required).action);
    CancelEachIs(s1, m.task, Root(s1, m.task), s1.jobs[s1.tasks[m.task].job].tasks);
  }

  lemma SameAnswersStayOpen(u: Setup, rated: bool, s: State, s': State, id: TaskId)
    requires Evolves(s, s') && Registered(u, s') && Ids(s') && VotesAreOpen(u, rated, s) && id in s'.tasks
    requires s'.tasks[id].submissions == [] || (id in s.tasks && s'.tasks[id].submissions == s.tasks[id].submissions)
    ensures VoteIsOpen(u, rated, s', id)
  {
    if s'.tasks[id].submissions != [] {
      assert VoteIsOpen(u, rated, s, id) && TaskEvolves(s.tasks[id], s'.tasks[id]);
    }
  }

  lemma AskedOnceMore(u: Setup, rated: bool, s: State, e: Event)
    requires e.ResultArrived? && CanCount(u, s, e.result) && VotesAreOpen(u, rated, s) && Graded(u, rated, e)
    requires Verdicted(u, s, e.result, e.required).action.NeedMoreReplicas?
    ensures Asked(KernelOf(u, s, e.result.task), u.quorum, rated, Answers(u, s, e.result))
  {
    var id := e.result.task;
    var before, subs, k := s.tasks[id].submissions, Answers(u, s, e.result), KernelOf(u, s, id);
    assert VoteIsOpen(u, rated, s, id);
    forall n | 1 <= n <= |subs| ensures StillAsking(k, u.quorum, rated, subs[..n]) {
      if n == |subs| {
        var st :| e.required == Asking(u.quorum, rated, st).required;
        assert subs[..n] == subs && u.quorum.(required := e.required) == Asking(u.quorum, rated, st);
      } else {
        assert subs[..n] == before[..n];
      }
    }
  }

  lemma CountKeepsOpen(u: Setup, rated: bool, s: State, e: Event, id: TaskId)
    requires Core(s) && Registered(u, Step(u, s, e)) && Ids(Step(u, s, e)) && Evolves(s, Step(u, s, e))
    requires VotesAreOpen(u, rated, s) && Graded(u, rated, e) && Counts(u, s, e) && id in Step(u, s, e).tasks
    ensures VoteIsOpen(u, rated, Step(u, s, e), id)
  {
    var s', m := Step(u, s, e), e.result;
    CountAnswers(u, s, e, id);
    if id == m.task && Verdicted(u, s, m, e.required).action.NeedMoreReplicas? {
      AskedOnceMore(u, rated, s, e);
      assert TaskEvolves(s.tasks[id], s'.tasks[id]);
    } else {
      SameAnswersStayOpen(u, rated, s, s', id);
    }
  }

  lemma StepKeepsOpen(u: Setup, rated: bool, s: State, e: Event)
    requires Core(s) && Registered(u, s) && Admissible(u, s, e) && VotesAreOpen(u, rated, s) && Graded(u, rated, e)
    ensures VotesAreOpen(u, rated, Step(u, s, e))
  {
    var s' := Step(u, s, e);
    StepKeeps(u, s, e);
    StepKeepsRegistered(u, s, e);
    StepEvolves(u, s, e);
    if !Counts(u, s, e) {
      if e.LeaseRequest? {
        LeaseSameAnswers(u, s, e.ask, e.now, e.jobOrder);
      } else {
        StepQuiet(u, s, e);
        QuietSameAnswers(s, s');
      }
    }
    forall id <- s'.tasks ensures VoteIsOpen(u, rated, s', id) {
      if Counts(u, s, e) {
        CountKeepsOpen(u, rated, s, e, id);
      } else {
        SameAnswersStayOpen(u, rated, s, s', id);
      }
    }
  }

  lemma NextKeepsOpen(u: Setup, rated: bool, w: World, e: WorldEvent)
    requires WorldOk(u, w) && Possible(u, w, e) && VotesAreOpen(u, rated, w.mem) && (e.Act? ==> Graded(u, rated, e.event))
    ensures VotesAreOpen(u, rated, Next(u, w, e).mem)
  {
    match e
    case Act(event) => StepKeepsOpen(u, rated, w.mem, event);
    case Flush(_, _, _) =>
      forall id <- w.mem.tasks ensures VoteIsOpen(u, rated, Next(u, w, e).mem, id) {
        assert VoteIsOpen(u, rated, w.mem, id);
      }
    case Crash(o) =>
      NextKeepsOk(u, w, e);
      CrashForgets(u, w, o);
      var s := Next(u, w, e).mem;
      forall id <- s.tasks ensures VoteIsOpen(u, rated, s, id) {
        assert s.tasks[id].submissions == [];
      }
  }

  lemma {:induction false} HistoryKeepsOpen(u: Setup, rated: bool, w: World, es: seq<WorldEvent>)
    requires WorldOk(u, w) && Possibles(u, w, es) && VotesAreOpen(u, rated, w.mem) && GradedHistory(u, rated, es)
    ensures VotesAreOpen(u, rated, After(u, w, es).mem)
    decreases es
  {
    if es != [] {
      NextKeepsOk(u, w, es[0]);
      NextKeepsOpen(u, rated, w, es[0]);
      HistoryKeepsOpen(u, rated, Next(u, w, es[0]), es[1..]);
    }
  }

  // ---- what is published -----------------------------------------------------------------

  lemma OpenVoteEnds(u: Setup, rated: bool, s: State, e: Event) returns (st: Standing)
    requires e.ResultArrived? && CanCount(u, s, e.result) && Graded(u, rated, e)
    requires TaskOk(s.tasks[e.result.task]) && VoteIsOpen(u, rated, s, e.result.task)
    requires Verdicted(u, s, e.result, e.required).action.Accept?
    ensures e.required == Asking(u.quorum, rated, st).required
    ensures Completes(KernelOf(u, s, e.result.task), u.quorum, rated, st, s.tasks[e.result.task].submissions,
                      Retained(e.result, KernelOf(u, s, e.result.task)))
  {
    st :| e.required == Asking(u.quorum, rated, st).required;
    assert u.quorum.(required := e.required) == Asking(u.quorum, rated, st);
  }

  /** An accepting step completes a vote in the sense of `Remembering`. */
  lemma AcceptanceCompletes(u: Setup, rated: bool, es: seq<WorldEvent>, e: Event) returns (st: Standing)
    requires Possibles(u, START, es) && GradedHistory(u, rated, es) && Graded(u, rated, e)
    requires Accepts(u, After(u, START, es).mem, e)
    ensures var s, m := After(u, START, es).mem, e.result;
            CanCount(u, s, m) && e.required == Asking(u.quorum, rated, st).required
            && Completes(KernelOf(u, s, m.task), u.quorum, rated, st, s.tasks[m.task].submissions, Retained(m, KernelOf(u, s, m.task)))
  {
    var s := After(u, START, es).mem;
    StartOk(u);
    RunsAreSound(u, START, es);
    HistoryKeepsOpen(u, rated, START, es);
    AcceptingResult(u, s, e);
    assert TaskOk(s.tasks[e.result.task]) && VoteIsOpen(u, rated, s, e.result.task);
    st := OpenVoteEnds(u, rated, s, e);
  }

  /** The submission that completes a vote is one that the vote accepted. */
  ghost predicate PublishesAgreed(u: Setup, s: State, e: Event)
    requires e.ResultArrived? && CanCount(u, s, e.result)
  {
    |s.tasks[e.result.task].submissions| in Winning(KernelOf(u, s, e.result.task), Answers(u, s, e.result))
  }

  /** The acceptance puts a checksum into the spot-check pool. */
  ghost predicate Remembers(u: Setup, s: State, e: Event)
    requires e.ResultArrived? && CanCount(u, s, e.result)
  {
    Remembered(Verdicted(u, s, e.result, e.required), Retained(e.result, KernelOf(u, s, e.result.task))).Some?
  }

  /** The acceptance puts a tile into the picture: the job renders. */
  ghost predicate Paints(u: Setup, s: State, e: Event)
    requires e.ResultArrived? && CanCount(u, s, e.result)
  {
    s.jobs[s.tasks[e.result.task].job].render.Some? && s.jobs[s.tasks[e.result.task].job].render.value.samplesPerTile > 0
  }

  /** On every history, crashes included: what is painted is what was accepted. */
  lemma PaintedIsAccepted(u: Setup, rated: bool, es: seq<WorldEvent>, e: Event)
    requires PictureIsSafe(u.quorum, rated) && Possibles(u, START, es) && GradedHistory(u, rated, es) && Graded(u, rated, e)
    requires Accepts(u, After(u, START, es).mem, e)
    ensures CanCount(u, After(u, START, es).mem, e.result) && PublishesAgreed(u, After(u, START, es).mem, e)
  {
    var s, m := After(u, START, es).mem, e.result;
    var st := AcceptanceCompletes(u, rated, es, e);
    SafePictureAccepts(KernelOf(u, s, m.task), u.quorum, rated, st, s.tasks[m.task].submissions, Retained(m, KernelOf(u, s, m.task)));
  }

  /** On every history: what is remembered is what was accepted. */
  lemma RememberedIsAccepted(u: Setup, rated: bool, es: seq<WorldEvent>, e: Event)
    requires PoolIsSafe(u.quorum, rated) && Possibles(u, START, es) && GradedHistory(u, rated, es) && Graded(u, rated, e)
    requires var s := After(u, START, es).mem;
             Accepts(u, s, e) && CanCount(u, s, e.result) && Remembers(u, s, e)
    ensures PublishesAgreed(u, After(u, START, es).mem, e)
  {
    var s, m := After(u, START, es).mem, e.result;
    var st := AcceptanceCompletes(u, rated, es, e);
    assert u.quorum.(required := e.required) == Asking(u.quorum, rated, st);
    SafePoolAccepts(KernelOf(u, s, m.task), u.quorum, rated, st, s.tasks[m.task].submissions, Retained(m, KernelOf(u, s, m.task)));
  }
}
