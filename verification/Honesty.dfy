/** Vote soundness, end to end: in every run, an accepted exact answer is the
    true one while liars are a minority of its voters. */
module Honesty {
  import opened Basics
  import opened Quorum
  import opened Counting
  import opened Coordinator
  import opened Protocol
  import opened Invariants
  import opened Growth
  import opened Quietness
  import opened Speculation
  import opened Worlds

  /** The right checksum of a range of a job. */
  type Truth = (JobId, nat, nat) -> nat

  function TruthOf(truth: Truth, t: Task): nat { truth(t.job, t.start, t.count) }

  /** Every answer on record from an honest worker is the true one. */
  ghost predicate HonestTasks(s: State, liars: set<WorkerId>, truth: Truth) {
    forall id <- s.tasks :: HonestVotes(s.tasks[id].submissions, liars, TruthOf(truth, s.tasks[id]))
  }

  /** An answer that is counted is true unless a liar sent it. */
  ghost predicate HonestEvent(u: Setup, s: State, e: Event, liars: set<WorkerId>, truth: Truth) {
    Counts(u, s, e) && e.result.worker !in liars && e.result.task in s.tasks ==>
      e.result.checksum == TruthOf(truth, s.tasks[e.result.task])
  }

  /** Every answer counted on a history is, across flushes and crashes. */
  ghost predicate HonestHistory(u: Setup, w: World, es: seq<WorldEvent>, liars: set<WorkerId>, truth: Truth)
    requires Possibles(u, w, es)
    decreases es
  {
    es == []
    || ((es[0].Act? ==> HonestEvent(u, w.mem, es[0].event, liars, truth))
        && HonestHistory(u, Next(u, w, es[0]), es[1..], liars, truth))
  }

  lemma QuietKeepsHonest(s: State, s': State, liars: set<WorkerId>, truth: Truth)
    requires HonestTasks(s, liars, truth) && Quiet(s, s')
    ensures HonestTasks(s', liars, truth)
  {
    forall id <- s'.tasks ensures HonestVotes(s'.tasks[id].submissions, liars, TruthOf(truth, s'.tasks[id])) {
      assert id in s.tasks ==> SameRange(s.tasks[id], s'.tasks[id]);
    }
  }

  lemma RaceKeepsHonest(s: State, w: WorkerId, now: nat, lease: nat, threshold: real, order: seq<JobId>,
                        liars: set<WorkerId>, truth: Truth)
    requires HonestTasks(s, liars, truth)
    ensures HonestTasks(IssueSpeculative(s, w, now, lease, threshold, order).0, liars, truth)
  {
  }

  lemma LeaseKeepsHonest(u: Setup, s: State, e: Event, liars: set<WorkerId>, truth: Truth)
    requires Core(s) && HonestTasks(s, liars, truth) && e.LeaseRequest?
    ensures HonestTasks(Step(u, s, e), liars, truth)
  {
    var a, order := e.ask, e.jobOrder;
    var (s1, granted) := GrantTask(s, a.worker, e.now, u.leaseMs, a.units, a.cached, order);
    GrantKeeps(s, a.worker, e.now, u.leaseMs, a.units, a.cached, order);
    GrantQuiet(s, a.worker, e.now, u.leaseMs, a.units, a.cached, order);
    QuietKeepsHonest(s, s1, liars, truth);
    if granted.Some? && a.probe.Some? {
      SwapQuiet(s1, a.worker, granted.value, a.probe.value, e.now, u.leaseMs, order);
      QuietKeepsHonest(s1, SwapForProbe(s1, a.worker, granted.value, a.probe.value, e.now, u.leaseMs, order).0, liars, truth);
    }
    RaceKeepsHonest(s1, a.worker, e.now, u.leaseMs, a.threshold, order, liars, truth);
  }

  lemma AnswersHonest(u: Setup, s: State, e: Event, liars: set<WorkerId>, truth: Truth)
    requires HonestTasks(s, liars, truth) && HonestEvent(u, s, e, liars, truth) && Counts(u, s, e)
    ensures CanCount(u, s, e.result)
    ensures HonestVotes(Answers(u, s, e.result), liars, TruthOf(truth, s.tasks[e.result.task]))
  {
    assert HonestVotes(s.tasks[e.result.task].submissions, liars, TruthOf(truth, s.tasks[e.result.task]));
  }

  lemma CountKeepsHonest(u: Setup, s: State, e: Event, liars: set<WorkerId>, truth: Truth)
    requires HonestTasks(s, liars, truth) && HonestEvent(u, s, e, liars, truth) && Counts(u, s, e)
    ensures HonestTasks(Step(u, s, e), liars, truth)
  {
    CountingStep(u, s, e);
    AnswersHonest(u, s, e, liars, truth);
    var m := e.result;
    var s1 := AfterVote(s, m.task, Retained(m, KernelOf(u, s, m.task)), Verdicted(u, s, m, e.required).action);
    VoteKeepsHonest(u, s, e, liars, truth);
    CancelKeepsHonest(s1, m.task, liars, truth);
  }

  /** The vote adds the answer, or drops all of them. */
  lemma VoteKeepsHonest(u: Setup, s: State, e: Event, liars: set<WorkerId>, truth: Truth)
    requires HonestTasks(s, liars, truth) && e.ResultArrived? && CanCount(u, s, e.result)
    requires HonestVotes(Answers(u, s, e.result), liars, TruthOf(truth, s.tasks[e.result.task]))
    ensures var m := e.result;
            HonestTasks(AfterVote(s, m.task, Retained(m, KernelOf(u, s, m.task)), Verdicted(u, s, m, e.required).action), liars, truth)
  {
  }

  lemma CancelKeepsHonest(s: State, id: TaskId, liars: set<WorkerId>, truth: Truth)
    requires HonestTasks(s, liars, truth) && id in s.tasks
    ensures HonestTasks(CancelSiblingsOf(s, id), liars, truth)
  {
    if s.tasks[id].job in s.jobs {
      CancelEachIs(s, id, Root(s, id), s.jobs[s.tasks[id].job].tasks);
    }
    var s' := CancelSiblingsOf(s, id);
    forall x <- s'.tasks ensures HonestVotes(s'.tasks[x].submissions, liars, TruthOf(truth, s'.tasks[x])) {
      assert s'.tasks[x].submissions == s.tasks[x].submissions && TruthOf(truth, s'.tasks[x]) == TruthOf(truth, s.tasks[x]);
    }
  }

  lemma StepKeepsHonest(u: Setup, s: State, e: Event, liars: set<WorkerId>, truth: Truth)
    requires Core(s) && Registered(u, s) && HonestTasks(s, liars, truth) && HonestEvent(u, s, e, liars, truth)
    ensures HonestTasks(Step(u, s, e), liars, truth)
  {
    if Counts(u, s, e) {
      CountKeepsHonest(u, s, e, liars, truth);
    } else if e.LeaseRequest? {
      LeaseKeepsHonest(u, s, e, liars, truth);
    } else {
      StepQuiet(u, s, e);
      QuietKeepsHonest(s, Step(u, s, e), liars, truth);
    }
  }

  /** A crash forgets the answers on record. */
  lemma NextKeepsHonest(u: Setup, w: World, e: WorldEvent, liars: set<WorkerId>, truth: Truth)
    requires WorldOk(u, w) && Possible(u, w, e) && HonestTasks(w.mem, liars, truth)
    requires e.Act? ==> HonestEvent(u, w.mem, e.event, liars, truth)
    ensures HonestTasks(Next(u, w, e).mem, liars, truth)
  {
    match e
    case Act(event) => StepKeepsHonest(u, w.mem, event, liars, truth);
    case Flush(_, _, _) =>
    case Crash(o) =>
      CrashForgets(u, w, o);
  }

  lemma {:induction false} HistoryKeepsHonest(u: Setup, w: World, es: seq<WorldEvent>, liars: set<WorkerId>, truth: Truth)
    requires WorldOk(u, w) && Possibles(u, w, es) && HonestTasks(w.mem, liars, truth) && HonestHistory(u, w, es, liars, truth)
    ensures HonestTasks(After(u, w, es).mem, liars, truth)
    decreases es
  {
    if es != [] {
      NextKeepsOk(u, w, es[0]);
      NextKeepsHonest(u, w, es[0], liars, truth);
      HistoryKeepsHonest(u, Next(u, w, es[0]), es[1..], liars, truth);
    }
  }

  // ---- distinct voters ------------------------------------------------------------------------

  /** Whoever holds a lease on a task has not answered it before. */
  lemma AnswersAreDistinct(u: Setup, s: State, m: Result)
    requires TasksOk(s) && CanCount(u, s, m)
    ensures DistinctVoters(Answers(u, s, m))
  {
    assert TaskOk(s.tasks[m.task]);
  }

  /** The liars among the voters. */
  function LiarsIn(subs: seq<Submission>, n: nat, liars: set<WorkerId>): set<WorkerId>
    requires n <= |subs|
  {
    set a | 0 <= a < n && subs[a].worker in liars :: subs[a].worker
  }

  /** With distinct voters, counting lies is counting liars. */
  lemma {:induction false} LiarVotesAreLiars(subs: seq<Submission>, n: nat, liars: set<WorkerId>)
    requires n <= |subs| && DistinctVoters(subs)
    ensures LiarVotes(subs, n, liars) == |LiarsIn(subs, n, liars)|
  {
    if n == 0 {
      assert LiarsIn(subs, 0, liars) == {};
    } else {
      LiarVotesAreLiars(subs, n - 1, liars);
      var w := subs[n - 1].worker;
      assert w !in LiarsIn(subs, n - 1, liars);
      assert LiarsIn(subs, n, liars) == LiarsIn(subs, n - 1, liars) + if w in liars then {w} else {};
    }
  }

  /** On any history, whatever crashed on the way: when an exact answer is
      accepted under replication, and among the voters the liars are fewer than
      the agreement required and at most half, the accepted answer is the true one
      and only liars dissented. */
  lemma AcceptedIsTrue(u: Setup, es: seq<WorldEvent>, e: Event, liars: set<WorkerId>, truth: Truth)
    requires Possibles(u, START, es) && HonestHistory(u, START, es, liars, truth)
    requires HonestEvent(u, After(u, START, es).mem, e, liars, truth)
    requires var s := After(u, START, es).mem;
             Accepts(u, s, e) && CanCount(u, s, e.result)
             && KernelOf(u, s, e.result.task).Exact? && !u.quorum.policy.Unreplicated?
             && var voters := Answers(u, s, e.result);
             var lying := |LiarsIn(voters, |voters|, liars)|;
             lying < e.required && 2 * lying <= |voters|
    ensures var s := After(u, START, es).mem;
            var voters, t := Answers(u, s, e.result), s.tasks[e.result.task];
            (forall a <- Winning(Exact, voters) :: voters[a].checksum == TruthOf(truth, t))
            && (forall a | 0 <= a < |voters| && voters[a].checksum != TruthOf(truth, t) :: voters[a].worker in liars)
  {
    var s := After(u, START, es).mem;
    StartOk(u);
    RunsAreSound(u, START, es);
    HistoryKeepsHonest(u, START, es, liars, truth);
    AcceptingResult(u, s, e);
    AnswersHonest(u, s, e, liars, truth);
    AnswersAreDistinct(u, s, e.result);
    var voters := Answers(u, s, e.result);
    LiarVotesAreLiars(voters, |voters|, liars);
    VoteIsSound(u.quorum.(required := e.required), voters, liars, TruthOf(truth, s.tasks[e.result.task]));
  }
}
