/** Whole runs of one process: any interleaving of leases, renders, probes,
    races, results, releases, sweeps and disconnects. */
module Runs {
  import opened Basics
  import opened TaskStates
  import opened Coordinator
  import opened Protocol
  import opened Invariants
  import opened Growth
  import opened Coverage
  import opened Marking
  import opened Speculation

  ghost predicate Run(u: Setup, s: State, es: seq<Event>)
    decreases es
  {
    es == [] || (Admissible(u, s, es[0]) && Run(u, Step(u, s, es[0]), es[1..]))
  }

  function Final(u: Setup, s: State, es: seq<Event>): State
    decreases es
  {
    if es == [] then s else Final(u, Step(u, s, es[0]), es[1..])
  }

  /** A run goes on by one event. */
  lemma {:induction false} RunOn(u: Setup, s: State, es: seq<Event>, e: Event)
    requires Run(u, s, es) && Admissible(u, Final(u, s, es), e)
    ensures Run(u, s, es + [e]) && Final(u, s, es + [e]) == Step(u, Final(u, s, es), e)
    decreases es
  {
    if es == [] {
      assert Run(u, Step(u, s, e), []);
      assert (es + [e])[1..] == [];
    } else {
      assert (es + [e])[1..] == es[1..] + [e];
      RunOn(u, Step(u, s, es[0]), es[1..], e);
    }
  }

  /** Two runs end to end. */
  lemma {:induction false} RunsJoin(u: Setup, s: State, es: seq<Event>, more: seq<Event>)
    requires Run(u, s, es) && Run(u, Final(u, s, es), more)
    ensures Run(u, s, es + more) && Final(u, s, es + more) == Final(u, Final(u, s, es), more)
    decreases es
  {
    if es == [] {
      assert es + more == more;
    } else {
      assert (es + more)[1..] == es[1..] + more;
      RunsJoin(u, Step(u, s, es[0]), es[1..], more);
    }
  }

  ghost predicate Safe(u: Setup, s: State) {
    Core(s) && QueueOk(s) && Covered(s) && Registered(u, s) && WastedOk(s)
  }

  lemma StepSafe(u: Setup, s: State, e: Event)
    requires Safe(u, s) && Admissible(u, s, e)
    ensures Safe(u, Step(u, s, e))
  {
    StepKeeps(u, s, e);
    StepKeepsCovered(u, s, e);
    StepKeepsRegistered(u, s, e);
    StepKeepsWasted(u, s, e);
  }

  /** Every reachable state is safe. */
  lemma {:induction false} RunIsSafe(u: Setup, s: State, es: seq<Event>)
    requires Safe(u, s) && Run(u, s, es)
    ensures Safe(u, Final(u, s, es))
    decreases es
  {
    if es != [] {
      StepSafe(u, s, es[0]);
      RunIsSafe(u, Step(u, s, es[0]), es[1..]);
    }
  }

  lemma StartIsSafe(u: Setup)
    ensures Safe(u, INITIAL) && OneWinner(INITIAL)
  {
  }

  // ---- one accepted task per range ------------------------------------------------------------

  /** No answer was accepted while a rival for the same range sat in the queue. */
  ghost predicate NoQueuedRival(u: Setup, s: State, es: seq<Event>)
    decreases es
  {
    es == []
    || ((Accepts(u, s, es[0]) ==> !QueuedSibling(s, es[0].result.task)) && NoQueuedRival(u, Step(u, s, es[0]), es[1..]))
  }

  lemma {:induction false} RunHasOneWinner(u: Setup, s: State, es: seq<Event>)
    requires Safe(u, s) && OneWinner(s) && Run(u, s, es) && NoQueuedRival(u, s, es)
    ensures OneWinner(Final(u, s, es))
    decreases es
  {
    if es != [] {
      StepSafe(u, s, es[0]);
      StepOneWinnerIff(u, s, es[0]);
      RunHasOneWinner(u, Step(u, s, es[0]), es[1..]);
    }
  }

  ghost predicate AlwaysOneWinner(u: Setup, s: State, es: seq<Event>)
    decreases es
  {
    OneWinner(s) && (es == [] || AlwaysOneWinner(u, Step(u, s, es[0]), es[1..]))
  }

  /** Over a whole run no range ever has two winners if, and only if, no answer
      is accepted while a rival sits in the queue. */
  lemma {:induction false} RunOneWinnerIff(u: Setup, s: State, es: seq<Event>)
    requires Safe(u, s) && OneWinner(s) && Run(u, s, es)
    ensures AlwaysOneWinner(u, s, es) <==> NoQueuedRival(u, s, es)
    decreases es
  {
    if es != [] {
      StepSafe(u, s, es[0]);
      StepOneWinnerIff(u, s, es[0]);
      if OneWinner(Step(u, s, es[0])) {
        RunOneWinnerIff(u, Step(u, s, es[0]), es[1..]);
      }
    }
  }

  /** `id` is the one original range of job `j` that holds `unit`, and some task
      of its family was accepted. */
  ghost predicate DoneOnce(s: State, j: JobId, unit: nat, id: TaskId) {
    Covers(s, j, id, unit) && (forall b | Covers(s, j, b, unit) :: b == id) && HasAccepted(s, id)
  }

  lemma CompleteIsDone(s: State, j: JobId, unit: nat)
    requires Core(s) && Covered(s) && JobComplete(s, j) && unit < s.jobs[j].total
    ensures exists id :: DoneOnce(s, j, unit, id)
  {
    assert JobCovered(s, j);
    CarvedBelowTotal(s.jobs[j], unit);
    var id :| Covers(s, j, id, unit);
    assert TaskOk(s.tasks[id]) && IsTerminal(s.tasks[id].state);
    if s.tasks[id].state.Accepted? {
      assert Sibling(s, id, id);
    }
    assert DoneOnce(s, j, unit, id);
  }

  /** Exactly one task of the family of `id` was accepted. */
  ghost predicate OneAccepted(s: State, id: TaskId) {
    HasAccepted(s, id)
    && forall a, b | Sibling(s, a, id) && Sibling(s, b, id) && s.tasks[a].state.Accepted? && s.tasks[b].state.Accepted? :: a == b
  }

  lemma DoneOnceAccepted(s: State, j: JobId, unit: nat)
    requires Core(s) && Covered(s) && OneWinner(s) && JobComplete(s, j) && unit < s.jobs[j].total
    ensures exists id :: DoneOnce(s, j, unit, id) && OneAccepted(s, id)
  {
    CompleteIsDone(s, j, unit);
    var id :| DoneOnce(s, j, unit, id);
    forall a, b | Sibling(s, a, id) && Sibling(s, b, id) && s.tasks[a].state.Accepted? && s.tasks[b].state.Accepted?
      ensures a == b
    {
      assert Sibling(s, a, b);
    }
    assert OneAccepted(s, id);
  }

  /** A finished job computed each of its units under exactly one original
      range, and accepted exactly one answer for that range. */
  lemma FinishedOnce(u: Setup, es: seq<Event>, j: JobId, unit: nat)
    requires Run(u, INITIAL, es) && NoQueuedRival(u, INITIAL, es)
    requires JobComplete(Final(u, INITIAL, es), j) && unit < Final(u, INITIAL, es).jobs[j].total
    ensures exists id :: DoneOnce(Final(u, INITIAL, es), j, unit, id) && OneAccepted(Final(u, INITIAL, es), id)
  {
    StartIsSafe(u);
    RunIsSafe(u, INITIAL, es);
    RunHasOneWinner(u, INITIAL, es);
    DoneOnceAccepted(Final(u, INITIAL, es), j, unit);
  }
}
