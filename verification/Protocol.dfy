/** The session handlers as steps of one state machine (src/coordinator/session.cpp,
    src/coordinator/net.cpp). One handler call is one atomic step: the
    coordinator is a single-threaded event loop. */
module Protocol {
  import opened Basics
  import opened TaskStates
  import opened Quorum
  import opened Coordinator

  /** Everything fixed at start-up. `kernels` is the registry. */
  datatype Setup = Setup(kernels: map<string, Comparator>, quorum: Config, leaseMs: nat)

  /** A verified `ResultHeader` and its payload. `lengthOk` and `intact` say
      whether the declared length and checksum matched the bytes. */
  datatype Result = Result(
    worker: WorkerId, task: TaskId, checksum: nat, sequence: nat, unitsDone: nat,
    payload: Payload, lengthOk: bool, intact: bool)

  datatype Reaction =
    | Discarded
    | Malformed
    | LeaseNotHeld
    | ChecksumMismatch
    | PartialStored
    | PartialStale
    | KernelMissing
    | Voted(verdict: Verdict)

  /** Judge a complete, intact answer for a task the worker holds: submit it,
      record it, decide, and act on the decision. `required` is the agreement
      this worker's answer needs. */
  function Vote(s: State, id: TaskId, sub: Submission, k: Comparator, cfg: Config): (State, Verdict)
    requires HoldsLease(s, sub.worker, id)
  {
    var s1 := RecordSubmission(SubmitResult(s, sub.worker, id).value, id, sub);
    var verdict := Decide(k, cfg, s1.tasks[id].submissions);
    match verdict.action
    case NeedMoreReplicas => (RequestReplica(s1, id).value, verdict)
    case Inconclusive => (RestartValidation(s1, id).value, verdict)
    case Accept => (CancelSiblingsOf(Finish(s1, id, true).value, id), verdict)
  }

  /** The answer as it is kept: exact kernels need the checksum only. */
  function Retained(m: Result, k: Comparator): Submission {
    Submission(m.worker, m.checksum, if k.Exact? then [] else m.payload)
  }

  /** `OnResultHeader`. `seen` says the session already had this task accepted. */
  function OnResult(u: Setup, s: State, m: Result, seen: bool, required: nat, now: nat): (State, Reaction) {
    if seen then (s, Discarded)
    else if !m.lengthOk then (s, Malformed)
    else if !HoldsLease(s, m.worker, m.task) then (s, LeaseNotHeld)
    else if !m.intact then (Requeue(s, m.task, Release).value, ChecksumMismatch)
    else if 0 < m.unitsDone < s.tasks[m.task].count then
      match RecordPartial(s, m.worker, m.task, Partial(m.worker, m.sequence, m.unitsDone, m.payload, now), u.leaseMs)
      case None => (s, PartialStale)
      case Some(s1) => (s1, PartialStored)
    else
      var t := s.tasks[m.task];
      if t.job !in s.jobs || s.jobs[t.job].kernel !in u.kernels then
        (SubmitResult(s, m.worker, m.task).value, KernelMissing)
      else
        var k := u.kernels[s.jobs[t.job].kernel];
        var (s1, verdict) := Vote(s, m.task, Retained(m, k), k, u.quorum.(required := required));
        (s1, Voted(verdict))
  }

  /** What a worker asks for. `probe` is the known range the spot-check pool
      chose to inject, if any. */
  datatype Ask = Ask(
    worker: WorkerId, units: nat, cached: seq<AssetId>, probe: Option<(nat, nat)>,
    speculate: bool, threshold: real)

  /** A probe displaces the task `w` was just granted, which is given back. */
  function SwapForProbe(s: State, w: WorkerId, granted: TaskId, probe: (nat, nat), now: nat, lease: nat,
                        order: seq<JobId>): (State, TaskId)
  {
    var (s1, issued) := IssueKnownRange(s, w, now, lease, probe.0, probe.1, order);
    if issued.None? then (s, granted) else (Requeue(s1, granted, Release).GetOr(s1), issued.value)
  }

  /** One slot of `OnLeaseRequest`: a normal grant, which a probe may displace;
      with nothing to grant, race a straggler. */
  function OnLease(u: Setup, s: State, a: Ask, now: nat, order: seq<JobId>): (State, Option<TaskId>) {
    var (s1, granted) := GrantTask(s, a.worker, now, u.leaseMs, a.units, a.cached, order);
    if granted.Some? && a.probe.Some? then
      var (s2, id) := SwapForProbe(s1, a.worker, granted.value, a.probe.value, now, u.leaseMs, order);
      (s2, Some(id))
    else if granted.None? && a.speculate then
      IssueSpeculative(s1, a.worker, now, u.leaseMs, a.threshold, order)
    else (s1, granted)
  }

  datatype Event =
    | NewJob(kernel: string, total: nat, seed: nat, group: nat)
    | NewRender(kernel: string, render: Render, seed: nat, input: AssetId)
    | LeaseRequest(ask: Ask, now: nat, jobOrder: seq<JobId>)
    | RenewRequest(worker: WorkerId, task: TaskId, now: nat)
    | ReleaseRequest(worker: WorkerId, task: TaskId)
    | ResultArrived(result: Result, seen: bool, required: nat, now: nat)
    | SweepTimer(now: nat, taskOrder: seq<TaskId>)
    | WorkerGone(worker: WorkerId, taskOrder: seq<TaskId>)

  /** Jobs name registered kernels, and hash tables are walked completely. */
  ghost predicate Admissible(u: Setup, s: State, e: Event) {
    match e
    case NewJob(kernel, _, _, _) => kernel in u.kernels
    case NewRender(kernel, _, _, _) => kernel in u.kernels
    case LeaseRequest(_, _, order) => Enumerates(order, s.jobs.Keys)
    case SweepTimer(_, order) => Enumerates(order, s.tasks.Keys)
    case WorkerGone(_, order) => Enumerates(order, s.tasks.Keys)
    case _ => true
  }

  function Step(u: Setup, s: State, e: Event): State {
    match e
    case NewJob(kernel, total, seed, group) => CreateJob(s, kernel, total, seed, group)
    case NewRender(kernel, r, seed, input) => CreateRenderJob(s, kernel, r, seed, input)
    case LeaseRequest(ask, now, order) => OnLease(u, s, ask, now, order).0
    case RenewRequest(w, id, now) => RenewLease(s, w, id, now, u.leaseMs).GetOr(s)
    case ReleaseRequest(w, id) => if HoldsLease(s, w, id) then Requeue(s, id, Release).GetOr(s) else s
    case ResultArrived(m, seen, required, now) => OnResult(u, s, m, seen, required, now).0
    case SweepTimer(now, order) => Sweep(s, now, order)
    case WorkerGone(w, order) => ReleaseAllHeldBy(s, w, order)
  }
}
