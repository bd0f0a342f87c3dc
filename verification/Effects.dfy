/** What a step leaves of the state, field by field (src/coordinator/session.cpp,
    src/coordinator/job.cpp). The lemmas are about `Step` and about nothing
    between it and the state. */
module Effects {
  import opened Basics
  import opened TaskStates
  import opened TileGrids
  import opened Quorum
  import opened Coordinator
  import opened Protocol
  import opened Invariants
  import opened Quietness
  import opened Speculation
  import opened Partials

  /** Task `id` became `t`, is marked for the next flush, and `again` joined the
      end of the queue. No other task, no job, no snapshot and no counter changed. */
  ghost predicate OnlyTask(s: State, s': State, id: TaskId, t: Task, again: seq<TaskId>) {
    s'.tasks == s.tasks[id := t] && s'.queue == s.queue + again
    && s'.dirtyTasks == s.dirtyTasks + {id} && s'.dirtyJobs == s.dirtyJobs
    && s'.jobs == s.jobs && s'.partials == s.partials && s'.nextId == s.nextId && s'.wasted == s.wasted
  }

  // ---- new jobs -------------------------------------------------------------------------

  /** Job `j` appeared, as `s.nextId`, and nothing else changed. */
  ghost predicate OnlyNewJob(s: State, s': State, j: Job) {
    s'.jobs == s.jobs[s.nextId := j] && j.id == s.nextId && s'.nextId == s.nextId + 1
    && s'.dirtyJobs == s.dirtyJobs + {s.nextId} && s'.dirtyTasks == s.dirtyTasks
    && s'.tasks == s.tasks && s'.queue == s.queue && s'.partials == s.partials && s'.wasted == s.wasted
  }

  /** Nothing of `j` has been handed out. */
  ghost predicate Untouched(j: Job) {
    j.next == 0 && j.tasks == [] && forall i :: 0 <= i < |j.tileGranted| ==> j.tileGranted[i] == 0
  }

  lemma NewJobEffect(u: Setup, s: State, kernel: string, total: nat, seed: nat, group: nat)
    ensures var s' := Step(u, s, NewJob(kernel, total, seed, group));
            s.nextId in s'.jobs
            && var j := s'.jobs[s.nextId];
               OnlyNewJob(s, s', j) && Untouched(j) && j.kernel == kernel && j.total == total && j.seed == seed && j.group == group
               && j.input.None? && j.render.None? && j.tileGranted == []
  {
  }

  /** A render job has one unit per tile and sample, and a counter per tile. */
  lemma NewRenderEffect(u: Setup, s: State, kernel: string, r: Render, seed: nat, input: AssetId)
    ensures var s' := Step(u, s, NewRender(kernel, r, seed, input));
            s.nextId in s'.jobs
            && var j := s'.jobs[s.nextId];
               OnlyNewJob(s, s', j) && Untouched(j) && j.kernel == kernel && j.seed == seed
               && j.input == Some(input) && j.render == Some(r) && j.group == r.samplesPerTile
               && |j.tileGranted| == r.grid.TileCount() && j.total == |j.tileGranted| * r.samplesPerTile
  {
  }

  // ---- one lease ------------------------------------------------------------------------

  /** A renewal moves the holder's deadline, and nobody else's request does anything. */
  lemma RenewalEffect(u: Setup, s: State, w: WorkerId, id: TaskId, now: nat)
    ensures var s' := Step(u, s, RenewRequest(w, id, now));
            if id in s.tasks && s.tasks[id].state.Leased? && s.tasks[id].holder == w
            then OnlyTask(s, s', id, s.tasks[id].(deadline := now + u.leaseMs), [])
            else s' == s
  {
  }

  lemma ReleaseEffect(u: Setup, s: State, w: WorkerId, id: TaskId)
    ensures var s' := Step(u, s, ReleaseRequest(w, id));
            if id in s.tasks && s.tasks[id].state.Leased? && s.tasks[id].holder == w
            then OnlyTask(s, s', id, s.tasks[id].(state := Queued, holder := NIL, deadline := 0), [id])
            else s' == s
  {
  }

  // ---- many leases at once ---------------------------------------------------------------

  /** The tasks of `due`, and no others, were given back, at the end of the queue. */
  ghost predicate GivenBack(s: State, s': State, due: set<TaskId>) {
    s'.tasks == (map id | id in s.tasks ::
                   if id in due then s.tasks[id].(state := Queued, holder := NIL, deadline := 0) else s.tasks[id])
    && s.queue <= s'.queue && multiset(s'.queue) == multiset(s.queue) + multiset(due)
    && s'.dirtyTasks == s.dirtyTasks + due && s'.dirtyJobs == s.dirtyJobs
    && s'.jobs == s.jobs && s'.partials == s.partials && s'.nextId == s.nextId && s'.wasted == s.wasted
  }

  lemma OneMoreBack(s: State, s1: State, due: set<TaskId>, id: TaskId, why: TaskEvent)
    requires GivenBack(s, s1, due) && why in {Release, LeaseExpired}
    requires id in s.tasks && s.tasks[id].state.Leased? && id !in due
    ensures Requeue(s1, id, why).Some? && GivenBack(s, Requeue(s1, id, why).value, due + {id})
  {
    assert s1.tasks[id] == s.tasks[id];
    assert multiset(due + {id}) == multiset(due) + multiset{id};
  }

  lemma {:induction false} RequeueAllEffect(s: State, ids: seq<TaskId>, due: set<TaskId>, why: TaskEvent)
    requires Enumerates(ids, due) && why in {Release, LeaseExpired}
    requires forall id <- due :: id in s.tasks && s.tasks[id].state.Leased?
    ensures GivenBack(s, RequeueAll(s, ids, why), due)
    decreases |ids|
  {
    if ids == [] {
      assert due == {};
    } else {
      var init, last := ids[..|ids| - 1], ids[|ids| - 1];
      LastOf(ids, due);
      RequeueAllEffect(s, init, due - {last}, why);
      OneMoreBack(s, RequeueAll(s, init, why), due - {last}, last, why);
      assert due - {last} + {last} == due;
      hide GivenBack, Requeue;
    }
  }

  lemma LastOf(ids: seq<TaskId>, due: set<TaskId>)
    requires Enumerates(ids, due) && ids != []
    ensures ids[|ids| - 1] in due && Enumerates(ids[..|ids| - 1], due - {ids[|ids| - 1]})
  {
    var init, last := ids[..|ids| - 1], ids[|ids| - 1];
    assert ids == init + [last];
    assert multiset(ids)[last] > 0;
    forall x ensures multiset(init)[x] == multiset(due - {last})[x] {
      assert multiset(ids)[x] == multiset(due)[x];
    }
  }

  lemma PickedOnce(order: seq<TaskId>, keys: set<TaskId>, picked: seq<TaskId>, due: set<TaskId>)
    requires Enumerates(order, keys) && due <= keys
    requires forall id :: multiset(picked)[id] == if id in due then multiset(order)[id] else 0
    ensures Enumerates(picked, due)
  {
    forall id ensures multiset(picked)[id] == multiset(due)[id] {
      assert multiset(order)[id] == multiset(keys)[id];
    }
  }

  /** The tasks whose lease has run out at `now`. */
  ghost function LapsedAt(s: State, now: nat): set<TaskId> {
    set id | id in s.tasks && s.tasks[id].state.Leased? && s.tasks[id].deadline <= now
  }

  /** The tasks `w` is at work on. */
  ghost function WorkOf(s: State, w: WorkerId): set<TaskId> {
    set id | id in s.tasks && s.tasks[id].state.Leased? && s.tasks[id].holder == w
  }

  /** The timer gives back exactly the leases whose deadline has come. */
  lemma SweepEffect(u: Setup, s: State, now: nat, order: seq<TaskId>)
    requires Enumerates(order, s.tasks.Keys)
    ensures GivenBack(s, Step(u, s, SweepTimer(now, order)), LapsedAt(s, now))
  {
    hide GivenBack, RequeueAll, Enumerates;
    PickedOnce(order, s.tasks.Keys, DueTasks(s, now, order), LapsedAt(s, now));
    RequeueAllEffect(s, DueTasks(s, now, order), LapsedAt(s, now), LeaseExpired);
  }

  /** A worker that goes away gives back exactly the leases it held. */
  lemma DepartureEffect(u: Setup, s: State, w: WorkerId, order: seq<TaskId>)
    requires Enumerates(order, s.tasks.Keys)
    ensures GivenBack(s, Step(u, s, WorkerGone(w, order)), WorkOf(s, w))
  {
    hide GivenBack, RequeueAll, Enumerates;
    PickedOnce(order, s.tasks.Keys, HeldTasks(s, w, order), WorkOf(s, w));
    RequeueAllEffect(s, HeldTasks(s, w, order), WorkOf(s, w), Release);
  }

  // ---- answers --------------------------------------------------------------------------

  /** `w` is at work on task `id`. */
  ghost predicate WorksOn(s: State, w: WorkerId, id: TaskId) {
    id in s.tasks && s.tasks[id].state.Leased? && s.tasks[id].holder == w
  }

  /** An answer seen before, of the wrong length, or from anyone but the holder
      changes nothing. */
  lemma IgnoredEffect(u: Setup, s: State, m: Result, seen: bool, required: nat, now: nat)
    requires seen || !m.lengthOk || !WorksOn(s, m.worker, m.task)
    ensures Step(u, s, ResultArrived(m, seen, required, now)) == s
  {
  }

  /** One that arrives damaged puts its task back on the queue at once, free for
      anybody, with the answers it had. */
  lemma DamagedEffect(u: Setup, s: State, m: Result, required: nat, now: nat)
    requires m.lengthOk && !m.intact && WorksOn(s, m.worker, m.task)
    ensures OnlyTask(s, Step(u, s, ResultArrived(m, false, required, now)), m.task,
                     s.tasks[m.task].(state := Queued, holder := NIL, deadline := 0), [m.task])
  {
  }

  /** A snapshot numbered above the one held takes its place and renews the
      lease; any other changes nothing. */
  lemma SnapshotEffect(u: Setup, s: State, m: Result, required: nat, now: nat)
    requires m.lengthOk && m.intact && WorksOn(s, m.worker, m.task) && 0 < m.unitsDone < s.tasks[m.task].count
    ensures var s', id := Step(u, s, ResultArrived(m, false, required, now)), m.task;
            if id in s.partials && m.sequence <= s.partials[id].sequence then s' == s
            else s'.partials == s.partials[id := Partial(m.worker, m.sequence, m.unitsDone, m.payload, now)]
                 && OnlyTask(s, s'.(partials := s.partials), id, s.tasks[id].(deadline := now + u.leaseMs), [])
  {
  }

  /** What the worker's session makes of an answer, case by case. */
  lemma Reactions(u: Setup, s: State, m: Result, seen: bool, required: nat, now: nat)
    ensures var r := OnResult(u, s, m, seen, required, now).1;
            (r.Discarded? <==> seen)
            && (r.Malformed? <==> !seen && !m.lengthOk)
            && (r.LeaseNotHeld? <==> !seen && m.lengthOk && !WorksOn(s, m.worker, m.task))
            && (r.ChecksumMismatch? <==> !seen && m.lengthOk && !m.intact && WorksOn(s, m.worker, m.task))
            && (r.PartialStored? || r.PartialStale?
                <==> !seen && m.lengthOk && m.intact && WorksOn(s, m.worker, m.task) && 0 < m.unitsDone < s.tasks[m.task].count)
            && (r.PartialStale? ==> m.task in s.partials && m.sequence <= s.partials[m.task].sequence)
            && (r.PartialStored? ==> m.task in s.partials ==> m.sequence > s.partials[m.task].sequence)
            && (r.Voted? <==> !seen && Countable(u, s, m))
            && (r.Voted? ==> r.verdict == VerdictOn(u, s, m, required))
  {
    if !seen && Countable(u, s, m) {
      CountingStep(u, s, ResultArrived(m, false, required, now));
    }
  }

  /** A whole answer to a task the worker holds, for a kernel that is known. */
  ghost predicate Countable(u: Setup, s: State, m: Result) {
    m.lengthOk && m.intact && WorksOn(s, m.worker, m.task) && !(0 < m.unitsDone < s.tasks[m.task].count)
    && s.tasks[m.task].job in s.jobs && s.jobs[s.tasks[m.task].job].kernel in u.kernels
  }

  /** The answers the task then has: the payload is kept only where answers are
      compared by it. */
  ghost function AnswersWith(u: Setup, s: State, m: Result): seq<Submission>
    requires Countable(u, s, m)
  {
    var exact := u.kernels[s.jobs[s.tasks[m.task].job].kernel].Exact?;
    s.tasks[m.task].submissions + [Submission(m.worker, m.checksum, if exact then [] else m.payload)]
  }

  ghost function VerdictOn(u: Setup, s: State, m: Result, required: nat): Verdict
    requires Countable(u, s, m)
  {
    Decide(u.kernels[s.jobs[s.tasks[m.task].job].kernel], u.quorum.(required := required), AnswersWith(u, s, m))
  }

  ghost function ActionOn(u: Setup, s: State, m: Result, required: nat): Action
    requires Countable(u, s, m)
  {
    VerdictOn(u, s, m, required).action
  }

  /** An undecided vote puts the task back on the queue: with its answers while
      more are wanted, with none when they came to nothing. The worker is
      remembered either way. */
  lemma UndecidedEffect(u: Setup, s: State, m: Result, required: nat, now: nat)
    requires Countable(u, s, m) && !ActionOn(u, s, m, required).Accept?
    ensures var t := s.tasks[m.task];
            OnlyTask(s, Step(u, s, ResultArrived(m, false, required, now)), m.task,
                     t.(state := Queued, holder := NIL, deadline := 0, prior := t.prior + [m.worker],
                        submissions := if ActionOn(u, s, m, required).Inconclusive? then [] else AnswersWith(u, s, m)),
                     [m.task])
  {
    var e := ResultArrived(m, false, required, now);
    CountingStep(u, s, e);
  }

  /** What an acceptance makes of task `x`: the winner is accepted, leased
      members of its family are cancelled, everything else stays. */
  ghost function AfterAcceptance(s: State, m: Result, x: TaskId): Task
    requires WorksOn(s, m.worker, m.task) && x in s.tasks
  {
    var t := s.tasks[m.task];
    var root := if t.replicaOf == NIL then m.task else t.replicaOf;
    if x == m.task then t.(state := Accepted, holder := NIL, prior := t.prior + [m.worker], submissions := [])
    else if (x == root || s.tasks[x].replicaOf == root) && s.tasks[x].state.Leased?
    then s.tasks[x].(state := Cancelled, holder := NIL, deadline := 0)
    else s.tasks[x]
  }

  lemma {:induction false} CancelEachQueue(s: State, winner: TaskId, root: TaskId, ids: seq<TaskId>)
    requires forall x <- s.queue :: x in s.tasks && s.tasks[x].state.Queued?
    ensures var r := CancelEach(s, winner, root, ids);
            multiset(r.queue) == multiset(s.queue) && forall x <- r.queue :: x in r.tasks && r.tasks[x].state.Queued?
  {
    if ids != [] {
      var s1, id := CancelEach(s, winner, root, ids[..|ids| - 1]), ids[|ids| - 1];
      CancelEachQueue(s, winner, root, ids[..|ids| - 1]);
      if Cancellable(s1, winner, root, id) {
        assert id !in s1.queue;
        assert multiset(Without(s1.queue, id)) == multiset(s1.queue);
      }
    }
  }

  lemma AcceptanceEffect(u: Setup, s: State, m: Result, required: nat, now: nat)
    requires Core(s) && QueueOk(s) && Countable(u, s, m) && ActionOn(u, s, m, required).Accept?
    ensures var s' := Step(u, s, ResultArrived(m, false, required, now));
            s'.tasks == (map x | x in s.tasks :: AfterAcceptance(s, m, x))
            && multiset(s'.queue) == multiset(s.queue) && s'.partials == s.partials - {m.task}
            && s'.jobs == s.jobs && s'.nextId == s.nextId
  {
    var e := ResultArrived(m, false, required, now);
    CountingStep(u, s, e);
    var s1 := AfterVote(s, m.task, Retained(m, KernelOf(u, s, m.task)), Action.Accept);
    hide OnResult, Decide, CancelSiblingsOf;
    AcceptedTasks(s, s1, m);
    AcceptedRest(s, s1, m);
    hide Core, QueueOk;
  }

  lemma AcceptedRest(s: State, s1: State, m: Result)
    requires QueueOk(s) && WorksOn(s, m.worker, m.task) && s.tasks[m.task].job in s.jobs
    requires s1.jobs == s.jobs && s1.tasks == s.tasks[m.task := AfterAcceptance(s, m, m.task)]
    requires s1.nextId == s.nextId && s1.queue == s.queue
    ensures var s' := CancelSiblingsOf(s1, m.task);
            multiset(s'.queue) == multiset(s.queue) && s'.partials == s1.partials && s'.jobs == s.jobs && s'.nextId == s.nextId
  {
    var ids, root := s1.jobs[s1.tasks[m.task].job].tasks, Root(s1, m.task);
    forall x <- s1.queue ensures x in s1.tasks && s1.tasks[x].state.Queued? {
      assert multiset(s.queue)[x] > 0;
    }
    CancelEachQueue(s1, m.task, root, ids);
    CancelEachLeaves(s1, m.task, root, ids);
    CancelEachIs(s1, m.task, root, ids);
  }

  /** The family as `AfterAcceptance` names it is the one the invariants speak of. */
  lemma FamilyIs(s: State, id: TaskId, x: TaskId)
    requires Ids(s) && Lists(s) && id in s.tasks && x in s.tasks && x != id
    ensures var root := if s.tasks[id].replicaOf == NIL then id else s.tasks[id].replicaOf;
            x == root || s.tasks[x].replicaOf == root <==> Sibling(s, x, id)
  {
    assert s.tasks[id].replicaOf != NIL ==> IsReplica(s, id);
    assert s.tasks[x].replicaOf != NIL ==> IsReplica(s, x);
  }

  lemma RivalIs(s: State, s1: State, m: Result, x: TaskId)
    requires Core(s) && WorksOn(s, m.worker, m.task) && x in s.tasks && x != m.task
    requires s1.jobs == s.jobs && s1.nextId == s.nextId && s1.tasks == s.tasks[m.task := AfterAcceptance(s, m, m.task)]
    ensures s1.tasks[m.task].job in s1.jobs
    ensures x in s1.jobs[s1.tasks[m.task].job].tasks && Cancellable(s1, m.task, Root(s1, m.task), x)
            <==> AfterAcceptance(s, m, x) != s.tasks[x]
  {
    MovedOne(s, s1, m);
    CancelledRival(s, s1, m.task, x);
    FamilyIs(s, m.task, x);
    hide Core, Ids, Lists, Sibling, Cancellable, Root;
  }

  lemma MovedOne(s: State, s1: State, m: Result)
    requires Core(s) && WorksOn(s, m.worker, m.task)
    requires s1.jobs == s.jobs && s1.nextId == s.nextId && s1.tasks == s.tasks[m.task := AfterAcceptance(s, m, m.task)]
    ensures Ids(s1) && Lists(s1)
  {
    PutMoved(s, s1, m.task, AfterAcceptance(s, m, m.task));
    MovedKeepsLists(s, s1);
  }

  lemma AcceptedTasks(s: State, s1: State, m: Result)
    requires Core(s) && WorksOn(s, m.worker, m.task)
    requires s1.jobs == s.jobs && s1.tasks == s.tasks[m.task := AfterAcceptance(s, m, m.task)]
    requires s1.nextId == s.nextId
    ensures CancelSiblingsOf(s1, m.task).tasks == (map x | x in s.tasks :: AfterAcceptance(s, m, x))
  {
    var ids, root := s1.jobs[s1.tasks[m.task].job].tasks, Root(s1, m.task);
    CancelEachIs(s1, m.task, root, ids);
    forall x <- s.tasks | x != m.task
      ensures x in ids && Cancellable(s1, m.task, root, x) <==> AfterAcceptance(s, m, x) != s.tasks[x]
    {
      RivalIs(s, s1, m, x);
    }
    hide Core, CancelEach, Cancellable;
  }
}
