/** The coordinator with its store, across flushes, failed flushes and crashes. */
module Worlds {
  import opened Basics
  import opened Coordinator
  import opened Protocol
  import opened Invariants
  import opened Growth
  import opened Coverage
  import opened Marking
  import opened Tables
  import opened Durability
  import opened Recovery
  import opened Speculation
  import opened Runs

  /** Memory, the file, and - for reasoning only - the memory the file was last
      written from. */
  datatype World = World(mem: State, db: Db, saved: State)

  datatype WorldEvent =
    | Act(event: Event)
    | Flush(jobOrder: seq<JobId>, taskOrder: seq<TaskId>, committed: bool)
    | Crash(orders: Orders)

  const START := World(INITIAL, EMPTY, INITIAL)

  ghost predicate Possible(u: Setup, w: World, e: WorldEvent) {
    match e
    case Act(event) => Admissible(u, w.mem, event)
    case Flush(js, ts, _) => Enumerates(js, w.mem.dirtyJobs) && Enumerates(ts, w.mem.dirtyTasks)
    case Crash(o) => ReadsAll(o, w.db) && Stored(o.jobs, w.db.jobs.Keys) && Stored(o.tasks, w.db.tasks.Keys)
  }

  /** A failed transaction writes nothing and leaves the rows dirty. */
  ghost function Next(u: Setup, w: World, e: WorldEvent): World
    requires Possible(u, w, e)
  {
    match e
    case Act(event) => w.(mem := Step(u, w.mem, event))
    case Flush(js, ts, committed) =>
      if committed then World(ClearDirty(w.mem), Flushed(w.mem, w.db, js, ts), ClearDirty(w.mem)) else w
    case Crash(o) => w.(mem := Restart(w.db, o))
  }

  ghost predicate Possibles(u: Setup, w: World, es: seq<WorldEvent>)
    decreases es
  {
    es == [] || (Possible(u, w, es[0]) && Possibles(u, Next(u, w, es[0]), es[1..]))
  }

  ghost function After(u: Setup, w: World, es: seq<WorldEvent>): World
    requires Possibles(u, w, es)
    decreases es
  {
    if es == [] then w else After(u, Next(u, w, es[0]), es[1..])
  }

  /** A history goes on by one event. */
  lemma {:induction false} HistoryOn(u: Setup, w: World, es: seq<WorldEvent>, e: WorldEvent)
    requires Possibles(u, w, es) && Possible(u, After(u, w, es), e)
    ensures Possibles(u, w, es + [e]) && After(u, w, es + [e]) == Next(u, After(u, w, es), e)
    decreases es
  {
    if es == [] {
      assert (es + [e])[1..] == [] && Possibles(u, Next(u, w, e), []);
    } else {
      assert (es + [e])[1..] == es[1..] + [e];
      HistoryOn(u, Next(u, w, es[0]), es[1..], e);
    }
  }

  /** A process can die at any time, and its file is then read in some order. */
  lemma CrashIsPossible(u: Setup, w: World) returns (o: Orders)
    ensures Possible(u, w, Crash(o))
  {
    var js := SomeOrder(w.db.jobs.Keys);
    var ts := SomeOrder(w.db.tasks.Keys);
    var prior := SomeOrder(w.db.prior);
    o := Orders(js, ts, prior);
    ReadsStored(w.db, o);
  }

  /** A run of one process, as a history without flushes and crashes. */
  function Acts(es: seq<Event>): seq<WorldEvent> {
    seq(|es|, (i: nat) requires i < |es| => Act(es[i]))
  }

  lemma {:induction false} RunIsHistory(u: Setup, w: World, es: seq<Event>)
    requires Run(u, w.mem, es)
    ensures Possibles(u, w, Acts(es)) && After(u, w, Acts(es)) == w.(mem := Final(u, w.mem, es))
    decreases es
  {
    if es != [] {
      assert Acts(es)[1..] == Acts(es[1..]);
      RunIsHistory(u, Next(u, w, Act(es[0])), es[1..]);
    }
  }

  // ---- invariants ------------------------------------------------------------------------

  ghost predicate Sound(u: Setup, s: State) {
    Core(s) && Registered(u, s) && JobsOk(s)
  }

  ghost predicate WorldOk(u: Setup, w: World) {
    Sound(u, w.mem) && Behind(w.mem, w.db, false)
    && Sound(u, w.saved) && Reflects(w.saved, w.db)
  }

  lemma ClearKeepsSound(u: Setup, s: State)
    requires Sound(u, s)
    ensures Sound(u, ClearDirty(s)) && (QueueOk(s) ==> QueueOk(ClearDirty(s)))
  {
    NoNewTaskKeeps(s, ClearDirty(s));
  }

  lemma CrashSound(u: Setup, saved: State, db: Db, o: Orders)
    requires Sound(u, saved) && Reflects(saved, db) && ReadsAll(o, db)
    ensures Stored(o.jobs, db.jobs.Keys) && Stored(o.tasks, db.tasks.Keys)
    ensures Sound(u, Restart(db, o)) && Restored(saved, Restart(db, o)) && Reflects(Restart(db, o), db)
  {
    RestartBuilds(db, o);
    var r := Restart(db, o);
    BuiltIsRestored(saved, db, o, r);
    RestoredLists(saved, r);
    RestoredTasksOk(saved, r);
    RestoredFamilies(saved, r);
    forall j <- r.jobs ensures r.jobs[j].kernel in u.kernels && JobOk(r.jobs[j]) {
      assert RestoredJob(saved.jobs[j], r.jobs[j]) && JobOk(saved.jobs[j]);
    }
    ReflectsSameKeys(saved, db);
    BuiltBehind(db, o, r);
  }

  /** Answers on record are in no table. */
  lemma CrashForgets(u: Setup, w: World, o: Orders)
    requires WorldOk(u, w) && Possible(u, w, Crash(o))
    ensures forall id <- Next(u, w, Crash(o)).mem.tasks :: Next(u, w, Crash(o)).mem.tasks[id].submissions == []
  {
    CrashSound(u, w.saved, w.db, o);
    var r := Restart(w.db, o);
    forall id <- r.tasks ensures r.tasks[id].submissions == [] {
      assert RestoredTask(w.saved.tasks[id], r.tasks[id]);
    }
  }

  lemma NextKeepsOk(u: Setup, w: World, e: WorldEvent)
    requires WorldOk(u, w) && Possible(u, w, e)
    ensures WorldOk(u, Next(u, w, e))
  {
    match e
    case Act(event) =>
      StepKeeps(u, w.mem, event);
      StepKeepsRegistered(u, w.mem, event);
      StepKeepsJobsOk(u, w.mem, event);
      StepEvolves(u, w.mem, event);
      EvolvesKeepsBehind(w.mem, Step(u, w.mem, event), w.db, false);
    case Flush(js, ts, _) =>
      FlushCatchesUp(w.mem, w.db, js, ts, false);
      ClearKeepsSound(u, w.mem);
    case Crash(o) =>
      CrashSound(u, w.saved, w.db, o);
  }

  /** In every reachable state - keyspace jobs or renders, with or without probes,
      whatever crashed, failed or expired on the way - the core invariant holds,
      and the file agrees with memory on every clean row. */
  lemma {:induction false} RunsAreSound(u: Setup, w: World, es: seq<WorldEvent>)
    requires WorldOk(u, w) && Possibles(u, w, es)
    ensures WorldOk(u, After(u, w, es))
    decreases es
  {
    if es != [] {
      NextKeepsOk(u, w, es[0]);
      RunsAreSound(u, Next(u, w, es[0]), es[1..]);
    }
  }

  lemma StartOk(u: Setup)
    ensures WorldOk(u, START) && QueueOk(INITIAL) && Covered(INITIAL) && OneWinner(INITIAL) && Behind(INITIAL, EMPTY, true)
  {
  }

  // ---- the queue, across crashes --------------------------------------------------------------

  /** Every crash of the run finds no `Queued` row in the file. */
  ghost predicate CleanCrashes(u: Setup, w: World, es: seq<WorldEvent>)
    requires Possibles(u, w, es)
    decreases es
  {
    es == [] || ((es[0].Crash? ==> NoQueuedRow(w.db)) && CleanCrashes(u, Next(u, w, es[0]), es[1..]))
  }

  ghost predicate KeepsQueue(u: Setup, w: World, es: seq<WorldEvent>)
    requires Possibles(u, w, es)
    decreases es
  {
    QueueOk(w.mem) && (es == [] || KeepsQueue(u, Next(u, w, es[0]), es[1..]))
  }

  /** The queue holds the queued tasks in every state of a run if, and only if,
      its crashes find no queued row. */
  lemma {:induction false} QueueAlongRunsIff(u: Setup, w: World, es: seq<WorldEvent>)
    requires WorldOk(u, w) && QueueOk(w.mem) && Possibles(u, w, es)
    ensures KeepsQueue(u, w, es) <==> CleanCrashes(u, w, es)
    ensures CleanCrashes(u, w, es) ==> QueueOk(After(u, w, es).mem)
    decreases es
  {
    if es != [] {
      NextKeepsOk(u, w, es[0]);
      match es[0] {
        case Act(event) => StepKeeps(u, w.mem, event);
        case Flush(_, _, _) => ClearKeepsSound(u, w.mem);
        case Crash(o) => RestartQueueOkIff(w.db, o);
      }
      if QueueOk(Next(u, w, es[0]).mem) {
        QueueAlongRunsIff(u, Next(u, w, es[0]), es[1..]);
      }
    }
  }

  // ---- coverage, across crashes -----------------------------------------------------------------

  /** Every crash happens while the file describes coverable memory. */
  ghost predicate RestorableCrashes(u: Setup, w: World, es: seq<WorldEvent>)
    requires Possibles(u, w, es)
    decreases es
  {
    es == [] || ((es[0].Crash? ==> Restorable(w.saved)) && RestorableCrashes(u, Next(u, w, es[0]), es[1..]))
  }

  ghost predicate KeepsCovered(u: Setup, w: World, es: seq<WorldEvent>)
    requires Possibles(u, w, es)
    decreases es
  {
    Covered(w.mem) && (es == [] || KeepsCovered(u, Next(u, w, es[0]), es[1..]))
  }

  lemma ClearKeepsCovered(s: State)
    requires Covered(s)
    ensures Covered(ClearDirty(s))
  {
    var c := ClearDirty(s);
    forall j <- c.jobs ensures JobCovered(c, j) {
      SameOriginalsKeep(s, c, j);
    }
  }

  lemma NextCoveredIff(u: Setup, w: World, e: WorldEvent)
    requires WorldOk(u, w) && Covered(w.mem) && Covered(w.saved) && Possible(u, w, e)
    ensures Covered(Next(u, w, e).mem) <==> (e.Crash? ==> Restorable(w.saved))
    ensures Covered(Next(u, w, e).saved)
  {
    match e
    case Act(event) => StepKeepsCovered(u, w.mem, event);
    case Flush(_, _, _) => ClearKeepsCovered(w.mem);
    case Crash(o) => RestartCoveredIff(w.saved, w.db, o);
  }

  /** Original ranges cover exactly what was carved, in every state of a run, if
      and only if its crashes find no probe in the file and no render job that
      left a gap in its tiles. */
  lemma {:induction false} CoveredAlongRunsIff(u: Setup, w: World, es: seq<WorldEvent>)
    requires WorldOk(u, w) && Covered(w.mem) && Covered(w.saved) && Possibles(u, w, es)
    ensures KeepsCovered(u, w, es) <==> RestorableCrashes(u, w, es)
    ensures RestorableCrashes(u, w, es) ==> Covered(After(u, w, es).mem) && Covered(After(u, w, es).saved)
    decreases es
  {
    if es != [] {
      NextKeepsOk(u, w, es[0]);
      NextCoveredIff(u, w, es[0]);
      if Covered(Next(u, w, es[0]).mem) {
        CoveredAlongRunsIff(u, Next(u, w, es[0]), es[1..]);
      }
    }
  }

  // ---- flushing -----------------------------------------------------------------------------------

  predicate NoneInFlight(db: Db) {
    forall id <- db.tasks :: !InFlight(db.tasks[id].state)
  }

  /** Every crash finds no row in flight. */
  ghost predicate FaithfulCrashes(u: Setup, w: World, es: seq<WorldEvent>)
    requires Possibles(u, w, es)
    decreases es
  {
    es == [] || ((es[0].Crash? ==> NoneInFlight(w.db)) && FaithfulCrashes(u, Next(u, w, es[0]), es[1..]))
  }

  ghost predicate KeepsExact(u: Setup, w: World, es: seq<WorldEvent>)
    requires Possibles(u, w, es)
    decreases es
  {
    Behind(w.mem, w.db, true) && (es == [] || KeepsExact(u, Next(u, w, es[0]), es[1..]))
  }

  lemma CrashExactIff(saved: State, db: Db, o: Orders)
    requires Ids(saved) && Reflects(saved, db) && ReadsAll(o, db)
    ensures Stored(o.jobs, db.jobs.Keys) && Stored(o.tasks, db.tasks.Keys)
    ensures Behind(Restart(db, o), db, true) <==> NoneInFlight(db)
  {
    ReflectsSameKeys(saved, db);
    RestartBuilds(db, o);
    RestartFaithfulIff(db, o);
    CleanIsSnapshot(Restart(db, o), db);
  }

  lemma NextExactIff(u: Setup, w: World, e: WorldEvent)
    requires WorldOk(u, w) && Behind(w.mem, w.db, true) && Possible(u, w, e)
    ensures Behind(Next(u, w, e).mem, Next(u, w, e).db, true) <==> (e.Crash? ==> NoneInFlight(w.db))
  {
    match e
    case Act(event) =>
      StepEvolves(u, w.mem, event);
      EvolvesKeepsBehind(w.mem, Step(u, w.mem, event), w.db, true);
    case Flush(js, ts, _) => FlushCatchesUp(w.mem, w.db, js, ts, true);
    case Crash(o) => CrashExactIff(w.saved, w.db, o);
  }

  /** The file agrees with memory on every clean row, exactly, in every state of
      a run if, and only if, its crashes find no row in flight. */
  lemma {:induction false} ExactAlongRunsIff(u: Setup, w: World, es: seq<WorldEvent>)
    requires WorldOk(u, w) && Behind(w.mem, w.db, true) && Possibles(u, w, es)
    ensures KeepsExact(u, w, es) <==> FaithfulCrashes(u, w, es)
    ensures FaithfulCrashes(u, w, es) ==> Behind(After(u, w, es).mem, After(u, w, es).db, true)
    decreases es
  {
    if es != [] {
      NextKeepsOk(u, w, es[0]);
      NextExactIff(u, w, es[0]);
      if Behind(Next(u, w, es[0]).mem, Next(u, w, es[0]).db, true) {
        ExactAlongRunsIff(u, Next(u, w, es[0]), es[1..]);
      }
    }
  }

  /** Along every such run, a flush of the dirty rows leaves the file equal to a
      full snapshot of memory. */
  lemma EveryFlushIsSnapshot(u: Setup, es: seq<WorldEvent>, js: seq<JobId>, ts: seq<TaskId>)
    requires Possibles(u, START, es) && FaithfulCrashes(u, START, es)
    requires var w := After(u, START, es); Enumerates(js, w.mem.dirtyJobs) && Enumerates(ts, w.mem.dirtyTasks)
    ensures var w := After(u, START, es); Flushed(w.mem, w.db, js, ts) == Snapshot(w.mem)
  {
    StartOk(u);
    RunsAreSound(u, START, es);
    ExactAlongRunsIff(u, START, es);
    FlushIsSnapshot(After(u, START, es).mem, After(u, START, es).db, js, ts);
  }

  // ---- one winner, across crashes ---------------------------------------------------------------

  /** No answer is accepted while a rival for the same range sits in the queue. */
  ghost predicate NoRivalPassed(u: Setup, w: World, es: seq<WorldEvent>)
    requires Possibles(u, w, es)
    decreases es
  {
    es == []
    || ((es[0].Act? && Accepts(u, w.mem, es[0].event) ==> !QueuedSibling(w.mem, es[0].event.result.task))
        && NoRivalPassed(u, Next(u, w, es[0]), es[1..]))
  }

  ghost predicate KeepsOneWinner(u: Setup, w: World, es: seq<WorldEvent>)
    requires Possibles(u, w, es)
    decreases es
  {
    OneWinner(w.mem) && (es == [] || KeepsOneWinner(u, Next(u, w, es[0]), es[1..]))
  }

  lemma ClearKeepsOneWinner(s: State)
    requires OneWinner(s)
    ensures OneWinner(ClearDirty(s))
  {
    forall a, b | Sibling(ClearDirty(s), a, b) ensures Sibling(s, a, b) {}
  }

  lemma CrashOneWinner(u: Setup, saved: State, db: Db, o: Orders)
    requires Sound(u, saved) && OneWinner(saved) && Reflects(saved, db) && ReadsAll(o, db)
    ensures Stored(o.jobs, db.jobs.Keys) && Stored(o.tasks, db.tasks.Keys) && OneWinner(Restart(db, o))
  {
    CrashSound(u, saved, db, o);
    RestoredOneWinner(saved, Restart(db, o));
  }

  lemma NextOneWinnerIff(u: Setup, w: World, e: WorldEvent)
    requires WorldOk(u, w) && OneWinner(w.mem) && OneWinner(w.saved) && Possible(u, w, e)
    ensures OneWinner(Next(u, w, e).mem)
            <==> (e.Act? && Accepts(u, w.mem, e.event) ==> !QueuedSibling(w.mem, e.event.result.task))
    ensures OneWinner(Next(u, w, e).saved)
  {
    match e
    case Act(event) => StepOneWinnerIff(u, w.mem, event);
    case Flush(_, _, _) => ClearKeepsOneWinner(w.mem);
    case Crash(o) => CrashOneWinner(u, w.saved, w.db, o);
  }

  lemma {:induction false} OneWinnerAlongRunsIff(u: Setup, w: World, es: seq<WorldEvent>)
    requires WorldOk(u, w) && OneWinner(w.mem) && OneWinner(w.saved) && Possibles(u, w, es)
    ensures KeepsOneWinner(u, w, es) <==> NoRivalPassed(u, w, es)
    ensures NoRivalPassed(u, w, es) ==> OneWinner(After(u, w, es).mem)
    decreases es
  {
    if es != [] {
      NextKeepsOk(u, w, es[0]);
      NextOneWinnerIff(u, w, es[0]);
      if OneWinner(Next(u, w, es[0]).mem) {
        OneWinnerAlongRunsIff(u, Next(u, w, es[0]), es[1..]);
      }
    }
  }

  // ---- exactly once -----------------------------------------------------------------------------

  /** A finished job lost nothing and carved nothing twice, and accepted exactly
      one answer for each range, in any run with any number of such crashes. */
  lemma ExactlyOnce(u: Setup, es: seq<WorldEvent>, j: JobId, unit: nat)
    requires Possibles(u, START, es) && RestorableCrashes(u, START, es) && NoRivalPassed(u, START, es)
    requires var s := After(u, START, es).mem; JobComplete(s, j) && unit < s.jobs[j].total
    ensures var s := After(u, START, es).mem;
            exists id :: DoneOnce(s, j, unit, id) && OneAccepted(s, id)
  {
    StartOk(u);
    RunsAreSound(u, START, es);
    CoveredAlongRunsIff(u, START, es);
    OneWinnerAlongRunsIff(u, START, es);
    DoneOnceAccepted(After(u, START, es).mem, j, unit);
  }
}
