/** One connected worker's handlers as the source has them
    (src/coordinator/session.cpp): they drive the job manager and keep the list
    of tasks this session completed. Each is proved to be a step, or a run of
    steps, of `Protocol`. */
module Sessions {
  import opened Basics
  import opened TaskStates
  import opened TileGrids
  import opened Quorum
  import opened Coordinator
  import opened Protocol
  import opened Serving
  import opened Quietness
  import opened Remembering
  import opened Ballots
  import opened JobManagers

  /** A lease request asks for one to four tasks. */
  function Wanted(maxTasks: nat): (n: nat)
    ensures 1 <= n <= 4 && (1 <= maxTasks <= 4 ==> n == maxTasks) && (maxTasks > 4 ==> n == 4) && (maxTasks == 0 ==> n == 1)
  {
    Min(if maxTasks < 1 then 1 else maxTasks, 4)
  }

  datatype Known = Known(start: nat, count: nat, checksum: nat)
  datatype Paint = Paint(tile: nat, payload: Payload)

  /** The range and the last submission's checksum, once two voters agree. */
  function Remember(t: Task, m: Result, v: Verdict): seq<Known> {
    if Remembered(v, Submission(m.worker, m.checksum, m.payload)).Some? then [Known(t.start, t.count, m.checksum)] else []
  }

  /** The last submission's payload, for the tile of a render job. */
  function Published(j: Job, t: Task, m: Result, v: Verdict): seq<Paint> {
    if v.action.Accept? && j.render.Some? && j.render.value.samplesPerTile > 0
    then [Paint(t.start / j.render.value.samplesPerTile, m.payload)] else []
  }

  /** Two agreeing voters, and the range and the checksum are remembered; a render
      job with samples, and the payload goes to the tile the range starts in. */
  lemma LeftBehind(j: Job, t: Task, m: Result, v: Verdict)
    ensures Remember(t, m, v) == if v.action.Accept? && |v.agreeing| >= 2 then [Known(t.start, t.count, m.checksum)] else []
    ensures Published(j, t, m, v) == [] <==> !v.action.Accept? || j.render.None? || j.render.value.samplesPerTile == 0
    ensures Published(j, t, m, v) != [] ==> Published(j, t, m, v) == [Paint(t.start / j.render.value.samplesPerTile, m.payload)]
  {
  }

  class Session {
    const setup: Setup
    const worker: WorkerId
    const jobs: JobManager
    const layouts: Layouts
    var completed: seq<TaskId>
    /** What was given to the spot-check pool, and to the compositor, in order. */
    var known: seq<Known>
    var painted: seq<Paint>

    constructor (setup: Setup, worker: WorkerId, jobs: JobManager, layouts: Layouts)
      ensures this.setup == setup && this.worker == worker && this.jobs == jobs && this.layouts == layouts
      ensures completed == [] && known == [] && painted == []
    {
      this.setup, this.worker, this.jobs, this.layouts := setup, worker, jobs, layouts;
      completed, known, painted := [], [], [];
    }

    // ---- leases ----------------------------------------------------------------

    method PickTask(a: Ask, now: nat, order: seq<JobId>) returns (r: Option<TaskId>)
      requires a.worker == worker
      modifies jobs
      ensures (jobs.View(), r) == OnLease(setup, old(jobs.View()), a, now, order)
    {
      r := jobs.Grant(worker, now, setup.leaseMs, a.units, a.cached, order);
      if r.Some? && a.probe.Some? {
        var probe := jobs.IssueKnownRange(worker, now, setup.leaseMs, a.probe.value.0, a.probe.value.1, order);
        if probe.Some? {
          var _ := jobs.Requeue(r.value, Release);
          r := probe;
        }
      } else if r.None? && a.speculate {
        r := jobs.IssueSpeculative(worker, now, setup.leaseMs, a.threshold, order);
      }
    }

    /** A task whose kernel is unknown or whose parameters do not build is given
        back, and nothing is sent. */
    method OneSlot(a: Ask, now: nat, order: seq<JobId>) returns (r: Option<TaskId>)
      requires a.worker == worker
      modifies jobs
      ensures (jobs.View(), r) == Serve(setup, layouts, old(jobs.View()), a, now, order)
    {
      r := PickTask(a, now, order);
      if r.None? { return; }
      var builds := false;
      if r.value in jobs.tasks && jobs.tasks[r.value].job in jobs.jobs {
        var t := jobs.tasks[r.value];
        var j := jobs.jobs[t.job];
        builds := j.kernel in setup.kernels && Builds(layouts(j.kernel), j, t);
      }
      if !builds {
        var _ := jobs.Requeue(r.value, Release);
        r := None;
      }
    }

    method OnLeaseRequest(maxTasks: nat, asks: seq<Ask>, now: nat, order: seq<JobId>) returns (sent: seq<TaskId>)
      requires |asks| >= Wanted(maxTasks) && forall a <- asks :: a.worker == worker
      modifies jobs
      ensures (jobs.View(), sent) == ServeSlots(setup, layouts, old(jobs.View()), asks[..Wanted(maxTasks)], now, order)
    {
      var slots := asks[..Wanted(maxTasks)];
      ghost var s := jobs.View();
      sent := [];
      ghost var all := ServeSlots(setup, layouts, s, slots, now, order);
      assert slots[0..] == slots && [] + all.1 == all.1;
      for i := 0 to |slots|
        invariant all == Behind(sent, ServeSlots(setup, layouts, jobs.View(), slots[i..], now, order))
      {
        SlotNext(setup, layouts, jobs.View(), sent, slots[i..], now, order);
        assert slots[i..][1..] == slots[i + 1..] && slots[i] == asks[i];
        var task := OneSlot(slots[i], now, order);
        if task.None? { return; }
        sent := sent + [task.value];
      }
      assert slots[|slots|..] == [] && sent + [] == sent;
    }

    method OnRelease(id: TaskId) returns (ok: bool)
      modifies jobs
      ensures jobs.View() == Step(setup, old(jobs.View()), ReleaseRequest(worker, id))
      ensures ok <==> HoldsLease(old(jobs.View()), worker, id)
    {
      ok := jobs.CheckLease(worker, id);
      if !ok { return; }
      ok := jobs.Requeue(id, Release);
    }

    /** A heartbeat that asks for no renewal does nothing. */
    method OnProgress(id: TaskId, renew: bool, now: nat) returns (ok: bool)
      modifies jobs
      ensures jobs.View() == if renew then Step(setup, old(jobs.View()), RenewRequest(worker, id, now)) else old(jobs.View())
      ensures ok <==> renew ==> HoldsLease(old(jobs.View()), worker, id)
    {
      if !renew { return true; }
      ok := jobs.RenewLease(worker, id, now, setup.leaseMs);
    }

    method OnDisconnect(order: seq<TaskId>)
      requires Enumerates(order, jobs.tasks.Keys)
      modifies jobs
      ensures jobs.View() == Step(setup, old(jobs.View()), WorkerGone(worker, order))
      ensures forall id :: !HoldsLease(jobs.View(), worker, id)
    {
      var _ := jobs.ReleaseAllHeldBy(worker, order);
    }

    // ---- results ---------------------------------------------------------------

    /** Submit, record, decide, and act on the decision. */
    method Validate(id: TaskId, sub: Submission, k: Comparator, cfg: Config) returns (v: Verdict)
      requires HoldsLease(jobs.View(), sub.worker, id)
      modifies jobs
      ensures (jobs.View(), v) == Vote(old(jobs.View()), id, sub, k, cfg)
    {
      var _ := jobs.Submit(sub.worker, id);
      jobs.RecordSubmission(id, sub);
      v := Judge(k, cfg, jobs.tasks[id].submissions);
      match v.action {
        case NeedMoreReplicas =>
          var _ := jobs.RequestReplica(id);
        case Inconclusive =>
          var _ := jobs.RestartValidation(id);
        case Accept =>
          var _ := jobs.Finish(id, true);
          var _ := jobs.CancelSiblingsOf(id);
      }
    }

    method OnResultHeader(m: Result, required: nat, now: nat) returns (r: Reaction)
      requires m.worker == worker
      modifies this`completed, this`known, this`painted, jobs
      ensures (jobs.View(), r) == OnResult(setup, old(jobs.View()), m, m.task in old(completed), required, now)
      ensures completed == old(completed) + if r.Voted? && r.verdict.action.Accept? then [m.task] else []
      ensures r.Voted? ==> CanCount(setup, old(jobs.View()), m)
      ensures known == old(known) + if r.Voted? then Remember(old(jobs.tasks)[m.task], m, r.verdict) else []
      ensures painted == old(painted)
              + if r.Voted? then Published(old(jobs.jobs)[old(jobs.tasks)[m.task].job], old(jobs.tasks)[m.task], m, r.verdict) else []
    {
      assert completed + [] == completed && known + [] == known && painted + [] == painted;
      if m.task in completed { return Discarded; }
      if !m.lengthOk { return Malformed; }
      var held := jobs.CheckLease(worker, m.task);
      if !held { return LeaseNotHeld; }
      if !m.intact {
        var _ := jobs.Requeue(m.task, Release);
        return ChecksumMismatch;
      }
      var t := jobs.tasks[m.task];
      if 0 < m.unitsDone < t.count {
        var kept := jobs.RecordPartial(worker, m.task, Partial(worker, m.sequence, m.unitsDone, m.payload, now), setup.leaseMs);
        return if kept then PartialStored else PartialStale;
      }
      if t.job !in jobs.jobs || jobs.jobs[t.job].kernel !in setup.kernels {
        var _ := jobs.Submit(worker, m.task);
        return KernelMissing;
      }
      var j := jobs.jobs[t.job];
      var k := setup.kernels[j.kernel];
      var v := Validate(m.task, Retained(m, k), k, setup.quorum.(required := required));
      Publish(j, t, m, v);
      if v.action.Accept? { completed := completed + [m.task]; }
      r := Voted(v);
    }

    /** What an acceptance leaves behind for later spot checks and for the picture. */
    method Publish(j: Job, t: Task, m: Result, v: Verdict)
      modifies this`known, this`painted
      ensures known == old(known) + Remember(t, m, v) && painted == old(painted) + Published(j, t, m, v)
    {
      assert known + [] == known && painted + [] == painted;
      if !v.action.Accept? { return; }
      if |v.agreeing| >= 2 { known := known + [Known(t.start, t.count, m.checksum)]; }
      if j.render.Some? && j.render.value.samplesPerTile > 0 {
        painted := painted + [Paint(t.start / j.render.value.samplesPerTile, m.payload)];
      }
    }
  }
}
