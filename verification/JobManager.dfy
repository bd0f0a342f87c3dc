/** The job manager as the source has it: fields updated in place by methods
    (src/coordinator/job.cpp). Each method is proved against its function in
    `Coordinator`. */
module JobManagers {
  import opened Basics
  import opened TaskStates
  import opened Quorum
  import opened TileGrids
  import opened Coordinator
  import opened Tables
  import opened Durability
  import Effects
  import opened Speculation

  /** A lease taken back: the task, who held it, and its size. */
  datatype Revocation = Revocation(task: TaskId, holder: WorkerId, units: nat)

  class JobManager {
    var jobs: map<JobId, Job>
    var tasks: map<TaskId, Task>
    var queue: seq<TaskId>
    var partials: map<TaskId, Partial>
    var dirtyTasks: set<TaskId>
    var dirtyJobs: set<JobId>
    var nextId: nat
    var wastedUnits: nat

    ghost function View(): State
      reads this
    {
      State(jobs, tasks, queue, partials, dirtyTasks, dirtyJobs, nextId, wastedUnits)
    }

    constructor ()
      ensures View() == INITIAL
    {
      jobs, tasks, queue, partials := map[], map[], [], map[];
      dirtyTasks, dirtyJobs := {}, {};
      nextId, wastedUnits := 1, 0;
    }

    method CreateJob(kernel: string, total: nat, seed: nat, group: nat) returns (id: JobId)
      modifies this
      ensures View() == Coordinator.CreateJob(old(View()), kernel, total, seed, group) && id == old(nextId)
    {
      id := nextId;
      nextId := nextId + 1;
      jobs := jobs[id := Job(id, kernel, seed, total, 0, group, None, None, [], [])];
      dirtyJobs := dirtyJobs + {id};
    }

    /** Every transition goes through here, so every transition marks its row. */
    method Apply(id: TaskId, ev: TaskEvent) returns (ok: bool)
      requires id in tasks
      modifies `tasks, `dirtyTasks
      ensures ok <==> Advance(old(tasks)[id].state, ev).Some?
      ensures View() == if ok then Put(old(View()), id, old(tasks)[id].(state := Advance(old(tasks)[id].state, ev).value))
                        else old(View())
    {
      var next := Advance(tasks[id].state, ev);
      ok := next.Some?;
      if ok {
        tasks := tasks[id := tasks[id].(state := next.value)];
        dirtyTasks := dirtyTasks + {id};
      }
    }

    method CheckLease(w: WorkerId, id: TaskId) returns (ok: bool)
      ensures ok <==> HoldsLease(View(), w, id)
    {
      ok := id in tasks && tasks[id].state.Leased? && tasks[id].holder == w;
    }

    // ---- the life of a lease --------------------------------------------------

    method RenewLease(w: WorkerId, id: TaskId, now: nat, lease: nat) returns (ok: bool)
      modifies `tasks, `dirtyTasks
      ensures var r := Coordinator.RenewLease(old(View()), w, id, now, lease);
              ok == r.Some? && View() == r.GetOr(old(View()))
    {
      ok := CheckLease(w, id);
      if !ok { return; }
      ok := Apply(id, Renew);
      tasks := tasks[id := tasks[id].(deadline := now + lease)];
    }

    method RecordPartial(w: WorkerId, id: TaskId, p: Partial, lease: nat) returns (ok: bool)
      modifies `tasks, `dirtyTasks, `partials
      ensures var r := Coordinator.RecordPartial(old(View()), w, id, p, lease);
              ok == r.Some? && View() == r.GetOr(old(View()))
    {
      ok := CheckLease(w, id);
      if !ok { return; }
      if id in partials && p.sequence <= partials[id].sequence { return false; }
      ok := RenewLease(w, id, p.receivedAt, lease);
      partials := partials[id := p];
    }

    method Submit(w: WorkerId, id: TaskId) returns (ok: bool)
      modifies `tasks, `dirtyTasks
      ensures var r := SubmitResult(old(View()), w, id);
              ok == r.Some? && View() == r.GetOr(old(View()))
    {
      ok := CheckLease(w, id);
      if !ok { return; }
      ok := Apply(id, TaskEvent.Submit);
      tasks := tasks[id := tasks[id].(prior := tasks[id].prior + [w])];
      tasks := tasks[id := tasks[id].(holder := NIL)];
    }

    method RecordSubmission(id: TaskId, sub: Submission)
      modifies `tasks, `dirtyTasks
      ensures View() == Coordinator.RecordSubmission(old(View()), id, sub)
    {
      if id !in tasks { return; }
      tasks := tasks[id := tasks[id].(submissions := tasks[id].submissions + [sub])];
      dirtyTasks := dirtyTasks + {id};
    }

    method Finish(id: TaskId, accepted: bool) returns (ok: bool)
      modifies `tasks, `dirtyTasks, `partials
      ensures var r := Coordinator.Finish(old(View()), id, accepted);
              ok == r.Some? && View() == r.GetOr(old(View()))
    {
      if id !in tasks { return false; }
      ok := Apply(id, if accepted then TaskEvent.Accept else TaskEvent.Reject);
      if ok {
        tasks := tasks[id := tasks[id].(submissions := [])];
        partials := partials - {id};
      }
    }

    method Requeue(id: TaskId, why: TaskEvent) returns (ok: bool)
      modifies `tasks, `dirtyTasks, `queue
      ensures var r := Coordinator.Requeue(old(View()), id, why);
              ok == r.Some? && View() == r.GetOr(old(View()))
    {
      if id !in tasks { return false; }
      ok := Apply(id, why);
      if ok {
        tasks := tasks[id := tasks[id].(holder := NIL, deadline := 0)];
        queue := queue + [id];
      }
    }

    /** Two transitions, so the reason is witnessed and not only the outcome. */
    method RequestReplica(id: TaskId) returns (ok: bool)
      modifies `tasks, `dirtyTasks, `queue
      ensures var r := Coordinator.RequestReplica(old(View()), id);
              ok == r.Some? && View() == r.GetOr(old(View()))
    {
      if id !in tasks { return false; }
      ok := Apply(id, Disagreement);
      if !ok { return; }
      ok := Apply(id, IssueReplica);
      tasks := tasks[id := tasks[id].(holder := NIL, deadline := 0)];
      queue := queue + [id];
    }

    method RestartValidation(id: TaskId) returns (ok: bool)
      modifies `tasks, `dirtyTasks, `queue
      ensures var r := Coordinator.RestartValidation(old(View()), id);
              ok == r.Some? && View() == r.GetOr(old(View()))
    {
      if id !in tasks { return false; }
      ok := Apply(id, Disagreement);
      if !ok { return; }
      ok := Apply(id, IssueReplica);
      tasks := tasks[id := tasks[id].(submissions := [])];
      tasks := tasks[id := tasks[id].(holder := NIL, deadline := 0)];
      queue := queue + [id];
    }

    // ---- granting ---------------------------------------------------------------

    method PreferCached(cached: seq<AssetId>) returns (r: Option<nat>)
      ensures r == Preferred(View(), cached)
    {
      if cached == [] { return None; }
      for i := 0 to |queue|
        invariant forall a :: 0 <= a < i ==> !HasInput(View(), cached, queue[a])
      {
        var id := queue[i];
        if id in tasks && tasks[id].job in jobs {
          var needs := jobs[tasks[id].job].input;
          if needs.Some? && needs.value in cached { return Some(i); }
        }
      }
      r := None;
    }

    /** The queue in affinity order: the preferred position, then all others. */
    method ScanOrder(preferred: Option<nat>) returns (scan: seq<nat>)
      requires preferred.Some? ==> preferred.value < |queue|
      ensures IsScan(scan, |queue|, preferred)
    {
      scan := if preferred.Some? then [preferred.value] else [];
      for i := 0 to |queue|
        invariant IsScan(scan, i, preferred)
      {
        if preferred != Some(i) {
          ghost var before := scan;
          scan := scan + [i];
          forall k | 0 <= k < i + 1 && preferred != Some(k) ensures k in scan {
            assert k < i ==> k in before;
          }
        }
      }
    }

    /** Hand the task at queue position `k` to `w`, if that is allowed. */
    method TryGrant(k: nat, w: WorkerId, now: nat, lease: nat) returns (ok: bool)
      requires k < |queue|
      modifies `tasks, `dirtyTasks, `queue
      ensures ok <==> Grantable(old(View()), w, old(queue)[k])
      ensures View() == if ok then GrantQueued(old(View()), w, now, lease, k) else old(View())
    {
      var id := queue[k];
      if id !in tasks { return false; }
      if w in tasks[id].prior { return false; }
      ok := Apply(id, TaskEvent.Grant);
      if !ok { return; }
      tasks := tasks[id := tasks[id].(holder := w, deadline := now + lease)];
      queue := queue[..k] + queue[k + 1..];
    }

    method GrantFromQueue(w: WorkerId, now: nat, lease: nat, cached: seq<AssetId>) returns (r: Option<TaskId>)
      modifies `tasks, `dirtyTasks, `queue
      ensures var k := QueuePick(old(View()), w, cached);
              if k.None? then r.None? && View() == old(View())
              else r == Some(old(queue)[k.value]) && View() == GrantQueued(old(View()), w, now, lease, k.value)
    {
      var preferred := PreferCached(cached);
      var scan := ScanOrder(preferred);
      for n := 0 to |scan|
        invariant View() == old(View())
        invariant forall m :: 0 <= m < n ==> !Grantable(View(), w, queue[scan[m]])
      {
        var id := queue[scan[n]];
        var ok := TryGrant(scan[n], w, now, lease);
        if ok {
          ScanFinds(old(View()), w, cached, scan, n);
          return Some(id);
        }
      }
      ScanMisses(View(), w, cached, scan);
      r := None;
    }

    method PickTile(j: JobId) returns (r: Option<nat>)
      requires j in jobs && jobs[j].ByTile()
      ensures r == LeastTile(jobs[j].tileGranted, jobs[j].render.value.samplesPerTile)
    {
      var granted, budget := jobs[j].tileGranted, jobs[j].render.value.samplesPerTile;
      r := None;
      for i := 0 to |granted|
        invariant r == LeastTile(granted[..i], budget)
      {
        assert granted[..i + 1][..i] == granted[..i];
        if granted[i] >= budget { continue; }
        if r.None? || granted[i] < granted[r.value] { r := Some(i); }
      }
      assert granted[..|granted|] == granted;
    }

    /** The next range of job `j`, at most `units` long; nothing if none is left. */
    method NextRange(j: JobId, units: nat) returns (tile: Option<nat>, start: nat, count: nat)
      requires j in jobs
      ensures var at := CarveAt(jobs[j]);
              if at.None? then count == 0
              else (tile, start) == at.value && count == CarveSize(jobs[j], start, units)
    {
      var job := jobs[j];
      tile, start, count := None, job.next, 0;
      if job.ByTile() {
        tile := PickTile(j);
        if tile.None? { return; }
        start := tile.value * job.render.value.samplesPerTile + job.tileGranted[tile.value];
      }
      count := Min(units, job.Remaining());
      if job.group != 0 {
        var toBoundary := job.group - start % job.group;
        count := Min(count, toBoundary);
      }
    }

    /** Carve a fresh range of one job. */
    method CarveFrom(j: JobId, w: WorkerId, now: nat, lease: nat, units: nat) returns (r: Option<TaskId>)
      requires j in jobs
      modifies `jobs, `tasks, `dirtyTasks, `dirtyJobs, `nextId
      ensures (View(), r) == Carve(old(View()), j, w, now, lease, units)
    {
      var id := nextId;
      nextId := nextId + 1;
      var tile, start, count := NextRange(j, units);
      if count == 0 { return None; }
      var job := jobs[j];
      if tile.Some? && tile.value < |job.tileGranted| {
        job := job.(tileGranted := job.tileGranted[tile.value := job.tileGranted[tile.value] + count]);
      }
      jobs := jobs[j := job.(next := job.next + count, tasks := job.tasks + [id])];
      dirtyJobs := dirtyJobs + {j};
      dirtyTasks := dirtyTasks + {id};
      tasks := tasks[id := Task(id, j, Leased, start, count, w, now + lease, NIL, [], [])];
      r := Some(id);
    }

    /** One job of a pass; in the affinity pass only if the worker holds its input. */
    method TryJob(affinity: bool, j: JobId, w: WorkerId, now: nat, lease: nat, units: nat, cached: seq<AssetId>)
      returns (r: Option<TaskId>)
      modifies `jobs, `tasks, `dirtyTasks, `dirtyJobs, `nextId
      ensures (View(), r) == TriedJob(old(View()), affinity, j, w, now, lease, units, cached)
    {
      if j !in jobs || (affinity && (jobs[j].input.None? || jobs[j].input.value !in cached)) { return None; }
      if jobs[j].Exhausted() { return None; }
      r := CarveFrom(j, w, now, lease, units);
    }

    /** The first job of `order` that yields a range. */
    method CarvePass(affinity: bool, w: WorkerId, now: nat, lease: nat, units: nat, cached: seq<AssetId>, order: seq<JobId>)
      returns (r: Option<TaskId>)
      modifies `jobs, `tasks, `dirtyTasks, `dirtyJobs, `nextId
      ensures (View(), r) == Pass(old(View()), affinity, order, w, now, lease, units, cached)
    {
      r := None;
      for i := 0 to |order|
        invariant r.None?
        invariant Pass(old(View()), affinity, order, w, now, lease, units, cached)
                  == Pass(View(), affinity, order[i..], w, now, lease, units, cached)
      {
        r := TryJob(affinity, order[i], w, now, lease, units, cached);
        assert order[i..][1..] == order[i + 1..];
        if r.Some? { return; }
      }
    }

    /** Requeued work first; then, in two passes, fresh work of the jobs whose
        input the worker holds, and of any job. */
    method Grant(w: WorkerId, now: nat, lease: nat, units: nat, cached: seq<AssetId>, order: seq<JobId>)
      returns (r: Option<TaskId>)
      modifies `jobs, `tasks, `queue, `dirtyTasks, `dirtyJobs, `nextId
      ensures (View(), r) == GrantTask(old(View()), w, now, lease, units, cached, order)
    {
      ghost var s := View();
      r := GrantFromQueue(w, now, lease, cached);
      if r.Some? || units == 0 { return; }
      TwoPasses(s, w, now, lease, units, cached, order);
      if cached != [] {
        r := CarvePass(true, w, now, lease, units, cached, order);
        if r.Some? { return; }
      }
      r := CarvePass(false, w, now, lease, units, cached, order);
    }

    // ---- taking leases back ------------------------------------------------------------

    /** Half-open leases: valid strictly before the deadline, taken back at it. */
    method ExpireIfDue(now: nat, id: TaskId) returns (r: Option<Revocation>)
      modifies `tasks, `dirtyTasks, `queue
      ensures r == if Expired(old(View()), id, now) then Some(Revocation(id, old(tasks)[id].holder, old(tasks)[id].count)) else None
      ensures View() == if r.None? then old(View()) else Coordinator.Requeue(old(View()), id, LeaseExpired).GetOr(old(View()))
    {
      if id !in tasks || !tasks[id].state.Leased? || now < tasks[id].deadline { return None; }
      r := Some(Revocation(id, tasks[id].holder, tasks[id].count));
      var _ := Requeue(id, LeaseExpired);
    }

    method SweepExpiredLeases(now: nat, order: seq<TaskId>) returns (expired: seq<Revocation>)
      requires Enumerates(order, tasks.Keys)
      modifies `tasks, `dirtyTasks, `queue
      ensures View() == Sweep(old(View()), now, order)
      ensures expired == Taken(old(View()), DueTasks(old(View()), now, order))
      ensures Reports(expired, old(tasks), Effects.LapsedAt(old(View()), now))
      ensures forall id :: !Expired(View(), id, now)
    {
      EnumeratesMembers(order, tasks.Keys);
      ghost var s := View();
      FilterDistinct(order, DueTasks(s, now, order));
      TakenReports(s, DueTasks(s, now, order), Effects.LapsedAt(s, now));
      expired := [];
      for i := 0 to |order|
        invariant Swept(s, View(), now, order, i, expired)
      {
        ghost var before, told := View(), expired;
        var r := ExpireIfDue(now, order[i]);
        if r.Some? { expired := expired + [r.value]; }
        SweptNext(s, before, View(), now, order, i, told, expired);
      }
      assert order[..|order|] == order;
      NothingStaysDue(s, now, order);
    }

    method HeldBy(w: WorkerId, order: seq<TaskId>) returns (held: seq<TaskId>)
      requires Enumerates(order, tasks.Keys)
      ensures held == HeldTasks(View(), w, order) && Distinct(held)
      ensures forall id :: id in held <==> HoldsLease(View(), w, id)
      ensures forall id :: id in held <==> id in tasks && tasks[id].state.Leased? && tasks[id].holder == w
    {
      EnumeratesMembers(order, tasks.Keys);
      held := [];
      for i := 0 to |order|
        invariant held == HeldTasks(View(), w, order[..i])
      {
        HeldNext(View(), w, order, i);
        var mine := CheckLease(w, order[i]);
        if mine { held := held + [order[i]]; }
      }
      assert order[..|order|] == order;
    }

    method ReleaseAllHeldBy(w: WorkerId, order: seq<TaskId>) returns (released: nat)
      requires Enumerates(order, tasks.Keys)
      modifies `tasks, `dirtyTasks, `queue
      ensures View() == Coordinator.ReleaseAllHeldBy(old(View()), w, order)
      ensures released == |Effects.WorkOf(old(View()), w)|
      ensures forall id :: !HoldsLease(View(), w, id)
    {
      ghost var s := View();
      var held := HeldBy(w, order);
      AsManyAs(held, Effects.WorkOf(s, w));
      hide Effects.WorkOf;
      released := 0;
      for i := 0 to |held|
        invariant View() == RequeueAll(s, held[..i], Release)
        invariant released == Requeued(s, held[..i])
      {
        RequeueAllNext(s, held, i, Release);
        assert held[..i + 1][..i] == held[..i];
        var ok := Requeue(held[i], Release);
        if ok { released := released + 1; }
      }
      assert held[..|held|] == held;
      AllRequeued(s, held);
      NothingStaysHeld(s, w, held);
    }

    // ---- probes and races ----------------------------------------------------------------

    method IssueKnownRange(w: WorkerId, now: nat, lease: nat, start: nat, count: nat, order: seq<JobId>)
      returns (r: Option<TaskId>)
      modifies `tasks, `dirtyTasks, `nextId
      ensures (View(), r) == Coordinator.IssueKnownRange(old(View()), w, now, lease, start, count, order)
    {
      if order == [] || count == 0 { return None; }
      for i := 0 to |order|
        invariant View() == old(View())
        invariant forall a :: 0 <= a < i ==> !(order[a] in jobs && start + count <= jobs[order[a]].total)
      {
        var j := order[i];
        if j !in jobs || start + count > jobs[j].total { continue; }
        RangeJobIs(View(), start, count, order, i);
        var id := nextId;
        nextId := nextId + 1;
        tasks := tasks[id := Task(id, j, Leased, start, count, w, now + lease, NIL, [], [])];
        dirtyTasks := dirtyTasks + {id};
        return Some(id);
      }
      r := None;
    }

    method CompletionFraction(j: JobId) returns (fraction: real)
      ensures fraction == Coordinator.CompletionFraction(View(), j)
    {
      if j !in jobs || jobs[j].total == 0 { return 0.0; }
      var ids, done := jobs[j].tasks, 0;
      for i := 0 to |ids|
        invariant done == AcceptedUnits(View(), ids[..i])
      {
        assert ids[..i + 1][..i] == ids[..i];
        var id := ids[i];
        if id in tasks && tasks[id].state.Accepted? && tasks[id].replicaOf == NIL { done := done + tasks[id].count; }
      }
      assert ids[..|ids|] == ids;
      fraction := done as real / jobs[j].total as real;
    }

    method HasLiveReplica(id: TaskId, ids: seq<TaskId>) returns (found: bool)
      ensures found <==> exists c <- ids :: LiveReplica(View(), id, c)
    {
      for i := 0 to |ids|
        invariant forall a :: 0 <= a < i ==> !LiveReplica(View(), id, ids[a])
      {
        var c := ids[i];
        if c in tasks && tasks[c].replicaOf == id && !IsTerminal(tasks[c].state) {
          assert c in ids && LiveReplica(View(), id, c);
          return true;
        }
      }
      found := false;
    }

    /** The first task of the list that `w` may race. */
    method FindRaceable(w: WorkerId, ids: seq<TaskId>) returns (r: Option<nat>)
      ensures r == FirstRaceable(View(), w, ids)
    {
      for i := 0 to |ids|
        invariant forall a :: 0 <= a < i ==> !Raceable(View(), w, ids, ids[a])
      {
        var id := ids[i];
        if id !in tasks { continue; }
        var original := tasks[id];
        if !original.state.Leased? { continue; }
        if original.replicaOf != NIL { continue; }
        if original.holder == w || w in original.prior { continue; }
        var raced := HasLiveReplica(id, ids);
        if raced { continue; }
        FirstRaceableIs(View(), w, ids, i);
        return Some(i);
      }
      r := None;
    }

    method IssueSpeculative(w: WorkerId, now: nat, lease: nat, threshold: real, order: seq<JobId>)
      returns (r: Option<TaskId>)
      modifies `jobs, `tasks, `dirtyTasks, `nextId
      ensures (View(), r) == Coordinator.IssueSpeculative(old(View()), w, now, lease, threshold, order)
    {
      for i := 0 to |order|
        invariant View() == old(View())
        invariant forall a :: 0 <= a < i ==> RaceIn(View(), order[a], w, threshold).None?
      {
        var j := order[i];
        if j !in jobs || !jobs[j].Exhausted() { continue; }
        var fraction := CompletionFraction(j);
        if fraction < threshold { continue; }
        var at := FindRaceable(w, jobs[j].tasks);
        if at.None? { continue; }
        RaceJobIs(View(), w, threshold, order, i);
        r := Replicate(j, jobs[j].tasks[at.value], w, now, lease);
        return;
      }
      r := None;
    }

    method Replicate(j: JobId, id: TaskId, w: WorkerId, now: nat, lease: nat) returns (r: Option<TaskId>)
      requires j in jobs && id in tasks
      modifies `jobs, `tasks, `dirtyTasks, `nextId
      ensures View() == AddReplica(old(View()), j, id, w, now, lease) && r == Some(old(nextId))
    {
      var replica := nextId;
      nextId := nextId + 1;
      var original := tasks[id];
      jobs := jobs[j := jobs[j].(tasks := jobs[j].tasks + [replica])];
      tasks := tasks[replica := Task(replica, j, Leased, original.start, original.count, w, now + lease, id, [], [])];
      dirtyTasks := dirtyTasks + {replica};
      r := Some(replica);
    }

    method CancelSiblingsOf(winner: TaskId) returns (out: seq<Revocation>)
      modifies `tasks, `dirtyTasks, `queue, `wastedUnits
      ensures View() == Coordinator.CancelSiblingsOf(old(View()), winner)
      ensures out == if winner in old(tasks) && old(tasks)[winner].job in jobs
                     then Revoked(old(View()), winner, Root(old(View()), winner), jobs[old(tasks)[winner].job].tasks) else []
    {
      out := [];
      if winner !in tasks || tasks[winner].job !in jobs { return; }
      ghost var s := View();
      var root := if tasks[winner].replicaOf == NIL then winner else tasks[winner].replicaOf;
      var ids := jobs[tasks[winner].job].tasks;
      for i := 0 to |ids|
        invariant View() == CancelEach(s, winner, root, ids[..i])
        invariant out == Revoked(s, winner, root, ids[..i])
      {
        assert ids[..i + 1][..i] == ids[..i];
        var revoked := CancelSibling(winner, root, ids[i]);
        if revoked.Some? { out := out + [revoked.value]; }
      }
      assert ids[..|ids|] == ids;
    }

    /** The body of the loop above. */
    method CancelSibling(winner: TaskId, root: TaskId, id: TaskId) returns (revoked: Option<Revocation>)
      modifies `tasks, `dirtyTasks, `queue, `wastedUnits
      ensures View() == CancelOne(old(View()), winner, root, id)
      ensures revoked == RevokedOne(old(View()), winner, root, id)
    {
      if id == winner || id !in tasks { return None; }
      var sameFamily := id == root || tasks[id].replicaOf == root;
      if !sameFamily || IsTerminal(tasks[id].state) { return None; }
      revoked := Withdraw(id);
    }

    method Withdraw(id: TaskId) returns (revoked: Option<Revocation>)
      requires id in tasks
      modifies `tasks, `dirtyTasks, `queue, `wastedUnits
      ensures revoked == if Advance(old(tasks)[id].state, Cancel).None? then None
                         else Some(Revocation(id, old(tasks)[id].holder, old(tasks)[id].count))
      ensures View() == if revoked.None? then old(View()) else Withdrawn(old(View()), id)
    {
      hide Without;
      var ok := Apply(id, Cancel);
      if !ok { return None; }
      revoked := Some(Revocation(id, tasks[id].holder, tasks[id].count));
      wastedUnits := wastedUnits + tasks[id].count;
      tasks := tasks[id := tasks[id].(holder := NIL, deadline := 0)];
      queue := Without(queue, id);
    }

    // ---- completion -------------------------------------------------------------------------

    method JobComplete(j: JobId) returns (done: bool)
      ensures done <==> Coordinator.JobComplete(View(), j)
      ensures done <==> j in jobs && jobs[j].next >= jobs[j].total
                        && forall id <- jobs[j].tasks :: id in tasks && (tasks[id].state.Accepted? || tasks[id].state.Rejected? || tasks[id].state.Cancelled?)
    {
      if j !in jobs || !jobs[j].Exhausted() { return false; }
      var ids := jobs[j].tasks;
      for i := 0 to |ids|
        invariant forall a :: 0 <= a < i ==> ids[a] in tasks && IsTerminal(tasks[ids[a]].state)
      {
        if ids[i] !in tasks || !IsTerminal(tasks[ids[i]].state) { return false; }
      }
      done := true;
    }

    method AllComplete(order: seq<JobId>) returns (done: bool)
      requires Enumerates(order, jobs.Keys)
      ensures done <==> Coordinator.AllComplete(View())
      ensures done <==> jobs.Keys != {} && forall j <- jobs :: Coordinator.JobComplete(View(), j)
    {
      EnumeratesMembers(order, jobs.Keys);
      if order == [] {
        assert jobs.Keys == {};
        return false;
      }
      assert order[0] in jobs;
      for i := 0 to |order|
        invariant forall a :: 0 <= a < i ==> Coordinator.JobComplete(View(), order[a])
      {
        var one := JobComplete(order[i]);
        assert order[i] in jobs;
        if !one { return false; }
      }
      done := true;
    }

    // ---- durability ---------------------------------------------------------------------------

    method CollectDirty(jobOrder: seq<JobId>, taskOrder: seq<TaskId>) returns (js: seq<Job>, ts: seq<Task>)
      ensures js == DirtyJobs(View(), jobOrder) && ts == DirtyTasks(View(), taskOrder)
    {
      js, ts := [], [];
      for i := 0 to |jobOrder|
        invariant js == DirtyJobs(View(), jobOrder[..i])
      {
        assert jobOrder[..i + 1][..i] == jobOrder[..i];
        if jobOrder[i] in jobs { js := js + [jobs[jobOrder[i]]]; }
      }
      assert jobOrder[..|jobOrder|] == jobOrder;
      for i := 0 to |taskOrder|
        invariant ts == DirtyTasks(View(), taskOrder[..i])
      {
        assert taskOrder[..i + 1][..i] == taskOrder[..i];
        if taskOrder[i] in tasks { ts := ts + [tasks[taskOrder[i]]]; }
      }
      assert taskOrder[..|taskOrder|] == taskOrder;
    }

    method ClearDirty()
      modifies `dirtyTasks, `dirtyJobs
      ensures View() == Durability.ClearDirty(old(View()))
    {
      dirtyTasks, dirtyJobs := {}, {};
    }

    /** Replace everything by what the store held; in-flight work goes back on
        the queue, and nobody holds anything. */
    method AdoptRecovered(js: seq<Job>, ts: seq<Task>, next: nat)
      modifies this
      ensures View() == Adopt(old(View()), js, ts, next)
    {
      jobs, tasks, queue := map[], map[], [];
      dirtyTasks, dirtyJobs := {}, {};
      nextId := next;
      ghost var cleared := View();
      assert js[..0] == [];
      for i := 0 to |js|
        invariant View() == AdoptJobs(cleared, js[..i])
      {
        assert js[..i + 1][..i] == js[..i];
        if js[i].id !in jobs { jobs := jobs[js[i].id := js[i].(tasks := [])]; }
      }
      assert js[..|js|] == js;
      ghost var withJobs := View();
      for i := 0 to |ts|
        invariant View() == AdoptTasks(withJobs, ts[..i])
      {
        assert ts[..i + 1][..i] == ts[..i];
        AdoptOne(ts[i]);
      }
      assert ts[..|ts|] == ts;
    }

    method AdoptOne(t: Task)
      modifies `jobs, `tasks, `queue
      ensures View() == AdoptTask(old(View()), t)
    {
      var copy := t;
      if copy.state.Leased? || copy.state.Validating? {
        copy := copy.(state := Queued);
        queue := queue + [copy.id];
      }
      copy := copy.(holder := NIL, deadline := 0);
      if copy.job in jobs {
        jobs := jobs[copy.job := jobs[copy.job].(tasks := jobs[copy.job].tasks + [copy.id])];
      }
      if copy.id !in tasks { tasks := tasks[copy.id := copy]; }
    }
  }

  // ---- the affinity scan ------------------------------------------------------------

  /** `scan` visits the preferred position first, then every other position
      below `n`, each once and in order. */
  ghost predicate IsScan(scan: seq<nat>, n: nat, preferred: Option<nat>) {
    (preferred.Some? ==> scan != [] && scan[0] == preferred.value)
    && (forall k | 0 <= k < n && preferred != Some(k) :: k in scan)
    && (forall a | Skip(preferred) <= a < |scan| :: scan[a] < n && preferred != Some(scan[a]))
    && (forall a, b | Skip(preferred) <= a < b < |scan| :: scan[a] < scan[b])
  }

  function Skip(preferred: Option<nat>): nat { if preferred.Some? then 1 else 0 }

  lemma ScanFinds(s: State, w: WorkerId, cached: seq<AssetId>, scan: seq<nat>, n: nat)
    requires IsScan(scan, |s.queue|, Preferred(s, cached)) && n < |scan| && scan[n] < |s.queue|
    requires Grantable(s, w, s.queue[scan[n]])
    requires forall m :: 0 <= m < n ==> scan[m] < |s.queue| && !Grantable(s, w, s.queue[scan[m]])
    ensures QueuePick(s, w, cached) == Some(scan[n])
  {
    var preferred := Preferred(s, cached);
    if preferred != Some(scan[n]) {
      forall k | 0 <= k < scan[n] ensures !Grantable(s, w, s.queue[k]) {
        if preferred == Some(k) {
          assert scan[0] == k;
        } else {
          assert k in scan;
          var m :| 0 <= m < |scan| && scan[m] == k;
          assert m < n;
        }
      }
      FirstMatchUnique(s.queue, id => Grantable(s, w, id), scan[n]);
    }
  }

  lemma ScanMisses(s: State, w: WorkerId, cached: seq<AssetId>, scan: seq<nat>)
    requires IsScan(scan, |s.queue|, Preferred(s, cached))
    requires forall m :: 0 <= m < |scan| ==> scan[m] < |s.queue| && !Grantable(s, w, s.queue[scan[m]])
    ensures QueuePick(s, w, cached).None?
  {
    forall k | 0 <= k < |s.queue| ensures !Grantable(s, w, s.queue[k]) {
      assert Preferred(s, cached) == Some(k) || k in scan;
    }
  }

  // ---- sweeping -----------------------------------------------------------------------------

  function Taken(s: State, ids: seq<TaskId>): seq<Revocation> {
    if ids == [] then []
    else
      var last := ids[|ids| - 1];
      Taken(s, ids[..|ids| - 1]) + if last in s.tasks then [Revocation(last, s.tasks[last].holder, s.tasks[last].count)] else []
  }

  /** One report for each task of `due`: who held it, and how big it is. */
  ghost predicate Reports(out: seq<Revocation>, tasks: map<TaskId, Task>, due: set<TaskId>) {
    |out| == |due| && (forall r <- out :: r.task in due)
    && (forall id <- due :: id in tasks && Revocation(id, tasks[id].holder, tasks[id].count) in out)
  }

  lemma AsManyAs(ids: seq<TaskId>, due: set<TaskId>)
    requires Distinct(ids) && forall id :: id in ids <==> id in due
    ensures |ids| == |due|
  {
    assert multiset(ids) == multiset(due) by {
      forall x ensures multiset(ids)[x] == multiset(due)[x] {
        assert x in ids <==> multiset(ids)[x] > 0;
      }
    }
    assert |multiset(ids)| == |ids| && |multiset(due)| == |due|;
  }

  lemma {:induction false} TakenHas(s: State, ids: seq<TaskId>)
    requires forall id <- ids :: id in s.tasks
    ensures |Taken(s, ids)| == |ids| && (forall r <- Taken(s, ids) :: r.task in ids)
    ensures forall id <- ids :: Revocation(id, s.tasks[id].holder, s.tasks[id].count) in Taken(s, ids)
  {
    if ids != [] {
      var init, last := ids[..|ids| - 1], ids[|ids| - 1];
      assert ids == init + [last];
      TakenHas(s, init);
    }
  }

  lemma TakenReports(s: State, ids: seq<TaskId>, due: set<TaskId>)
    requires Distinct(ids) && (forall id :: id in ids <==> id in due) && forall id <- due :: id in s.tasks
    ensures Reports(Taken(s, ids), s.tasks, due)
  {
    TakenHas(s, ids);
    AsManyAs(ids, due);
  }

  lemma FilterDistinct(q: seq<TaskId>, picked: seq<TaskId>)
    requires Distinct(q) && forall x :: multiset(picked)[x] <= multiset(q)[x]
    ensures Distinct(picked)
  {
    forall x ensures multiset(picked)[x] <= 1 {
      assert multiset(q)[x] <= 1;
    }
  }

  /** The tasks of `ids` are as they were. */
  ghost predicate Untouched(s: State, s': State, ids: seq<TaskId>) {
    forall id <- ids :: (id in s'.tasks <==> id in s.tasks) && (id in s.tasks ==> s'.tasks[id] == s.tasks[id])
  }

  lemma RequeueAllNext(s: State, ids: seq<TaskId>, i: nat, why: TaskEvent)
    requires i < |ids|
    ensures var before := RequeueAll(s, ids[..i], why);
            RequeueAll(s, ids[..i + 1], why) == Coordinator.Requeue(before, ids[i], why).GetOr(before)
  {
    assert ids[..i + 1][..i] == ids[..i];
  }

  lemma DueSnoc(s: State, now: nat, order: seq<TaskId>, i: nat)
    requires i < |order|
    ensures DueTasks(s, now, order[..i + 1])
            == DueTasks(s, now, order[..i]) + if Expired(s, order[i], now) then [order[i]] else []
  {
    assert order[..i + 1] == order[..i] + [order[i]];
    FilterSnoc(order[..i], order[i], (id: TaskId) => Expired(s, id, now));
  }

  lemma RequeueAllSnoc(s: State, ids: seq<TaskId>, id: TaskId, why: TaskEvent)
    ensures var before := RequeueAll(s, ids, why);
            RequeueAll(s, ids + [id], why) == Coordinator.Requeue(before, id, why).GetOr(before)
  {
    assert (ids + [id])[..|ids|] == ids;
  }

  lemma TakenSnoc(s: State, ids: seq<TaskId>, id: TaskId)
    requires id in s.tasks
    ensures Taken(s, ids + [id]) == Taken(s, ids) + [Revocation(id, s.tasks[id].holder, s.tasks[id].count)]
  {
    assert (ids + [id])[..|ids|] == ids;
  }

  lemma TakeNext(s: State, before: State, now: nat, ids: seq<TaskId>, id: TaskId)
    requires before == RequeueAll(s, ids, LeaseExpired)
    requires (id in s.tasks <==> id in before.tasks) && (id in s.tasks ==> before.tasks[id] == s.tasks[id])
    ensures var after := ids + (if Expired(s, id, now) then [id] else []);
            RequeueAll(s, after, LeaseExpired)
              == (if Expired(before, id, now) then Coordinator.Requeue(before, id, LeaseExpired).GetOr(before) else before)
            && Taken(s, after)
              == Taken(s, ids) + (if Expired(before, id, now) then [Revocation(id, before.tasks[id].holder, before.tasks[id].count)] else [])
  {
    if Expired(s, id, now) {
      RequeueAllSnoc(s, ids, id, LeaseExpired);
      TakenSnoc(s, ids, id);
    } else {
      assert ids + [] == ids;
    }
  }

  lemma UntouchedHere(s: State, s': State, order: seq<TaskId>, i: nat)
    requires i < |order| && Untouched(s, s', order[i..])
    ensures (order[i] in s.tasks <==> order[i] in s'.tasks) && (order[i] in s.tasks ==> s'.tasks[order[i]] == s.tasks[order[i]])
  {
    assert order[i..][0] == order[i];
  }

  /** The first `i` tasks of the walk are dealt with; the rest are as they were. */
  ghost predicate Swept(s: State, s': State, now: nat, order: seq<TaskId>, i: nat, expired: seq<Revocation>)
    requires i <= |order|
  {
    s' == RequeueAll(s, DueTasks(s, now, order[..i]), LeaseExpired)
    && expired == Taken(s, DueTasks(s, now, order[..i])) && Untouched(s, s', order[i..])
  }

  lemma SweptNext(s: State, before: State, after: State, now: nat, order: seq<TaskId>, i: nat,
                  told: seq<Revocation>, expired: seq<Revocation>)
    requires i < |order| && Distinct(order) && Swept(s, before, now, order, i, told)
    requires var id := order[i];
             if Expired(before, id, now)
             then after == Coordinator.Requeue(before, id, LeaseExpired).GetOr(before)
                  && expired == told + [Revocation(id, before.tasks[id].holder, before.tasks[id].count)]
             else after == before && expired == told
    ensures Swept(s, after, now, order, i + 1, expired)
  {
    UntouchedHere(s, before, order, i);
    DueSnoc(s, now, order, i);
    TakeNext(s, before, now, DueTasks(s, now, order[..i]), order[i]);
    assert told + [] == told;
    RequeueTouchesOne(before, order[i]);
    StillUntouched(s, before, after, order, i);
  }

  lemma RequeueTouchesOne(s: State, id: TaskId)
    ensures var after := Coordinator.Requeue(s, id, LeaseExpired).GetOr(s);
            after.tasks == s.tasks || (id in after.tasks && after.tasks == s.tasks[id := after.tasks[id]])
  {
  }

  /** How many of `ids` were given back, one after the other. */
  function Requeued(s: State, ids: seq<TaskId>): nat {
    if ids == [] then 0
    else
      var init := ids[..|ids| - 1];
      Requeued(s, init) + if Coordinator.Requeue(RequeueAll(s, init, Release), ids[|ids| - 1], Release).Some? then 1 else 0
  }

  lemma {:induction false} RequeueAllSpares(s: State, ids: seq<TaskId>, id: TaskId)
    requires id !in ids
    ensures var r := RequeueAll(s, ids, Release); (id in r.tasks <==> id in s.tasks) && (id in s.tasks ==> r.tasks[id] == s.tasks[id])
  {
    if ids != [] {
      assert ids[|ids| - 1] in ids && forall x :: x in ids[..|ids| - 1] ==> x in ids;
      RequeueAllSpares(s, ids[..|ids| - 1], id);
    }
  }

  /** What is requeued is leased no more, and nothing else changes. */
  lemma {:induction false} RequeueAllFrees(s: State, ids: seq<TaskId>, why: TaskEvent, id: TaskId)
    requires why in {Release, LeaseExpired} && id in s.tasks
    ensures id in RequeueAll(s, ids, why).tasks
    ensures RequeueAll(s, ids, why).tasks[id] == s.tasks[id] || !RequeueAll(s, ids, why).tasks[id].state.Leased?
    ensures id in ids ==> !RequeueAll(s, ids, why).tasks[id].state.Leased?
  {
    if ids != [] {
      var init, last := ids[..|ids| - 1], ids[|ids| - 1];
      RequeueAllFrees(s, init, why, id);
      assert id in ids <==> id in init || id == last;
    }
  }

  lemma {:induction false} RequeueAllSameTasks(s: State, ids: seq<TaskId>, why: TaskEvent)
    ensures RequeueAll(s, ids, why).tasks.Keys == s.tasks.Keys
  {
    if ids != [] {
      RequeueAllSameTasks(s, ids[..|ids| - 1], why);
    }
  }

  lemma NothingStaysDue(s: State, now: nat, order: seq<TaskId>)
    requires forall id :: id in order <==> id in s.tasks
    ensures forall id :: !Expired(Sweep(s, now, order), id, now)
  {
    var due := DueTasks(s, now, order);
    RequeueAllSameTasks(s, due, LeaseExpired);
    forall id ensures !Expired(Sweep(s, now, order), id, now) {
      if id in s.tasks {
        RequeueAllFrees(s, due, LeaseExpired, id);
      }
    }
  }

  lemma NothingStaysHeld(s: State, w: WorkerId, held: seq<TaskId>)
    requires forall id :: id in held <==> HoldsLease(s, w, id)
    ensures forall id :: !HoldsLease(RequeueAll(s, held, Release), w, id)
  {
    RequeueAllSameTasks(s, held, Release);
    forall id ensures !HoldsLease(RequeueAll(s, held, Release), w, id) {
      if id in s.tasks {
        RequeueAllFrees(s, held, Release, id);
      }
    }
  }

  /** Distinct leased tasks are all given back. */
  lemma {:induction false} AllRequeued(s: State, ids: seq<TaskId>)
    requires Distinct(ids) && forall id <- ids :: id in s.tasks && s.tasks[id].state.Leased?
    ensures Requeued(s, ids) == |ids|
  {
    if ids != [] {
      DistinctInit(ids);
      var init := ids[..|ids| - 1];
      assert forall x :: x in init ==> x in ids;
      AllRequeued(s, init);
      assert ids[|ids| - 1] in ids;
      RequeueAllSpares(s, init, ids[|ids| - 1]);
    }
  }

  lemma HeldNext(s: State, w: WorkerId, order: seq<TaskId>, i: nat)
    requires i < |order|
    ensures HeldTasks(s, w, order[..i + 1])
            == HeldTasks(s, w, order[..i]) + if HoldsLease(s, w, order[i]) then [order[i]] else []
  {
    assert order[..i + 1] == order[..i] + [order[i]];
    FilterSnoc(order[..i], order[i], (id: TaskId) => HoldsLease(s, w, id));
  }

  /** Touching one task of a distinct list leaves those after it untouched. */
  lemma StillUntouched(s: State, before: State, after: State, ids: seq<TaskId>, i: nat)
    requires i < |ids| && Distinct(ids) && Untouched(s, before, ids[i..])
    requires after.tasks == before.tasks || (ids[i] in after.tasks && after.tasks == before.tasks[ids[i] := after.tasks[ids[i]]])
    ensures Untouched(s, after, ids[i + 1..])
  {
    DistinctTail(ids, i);
  }

  lemma DistinctTail<T(!new)>(q: seq<T>, i: nat)
    requires i < |q| && Distinct(q)
    ensures q[i] !in q[i + 1..]
  {
    assert q == q[..i] + [q[i]] + q[i + 1..];
    assert multiset(q)[q[i]] <= 1;
  }

  // ---- probes and races ---------------------------------------------------------------------

  lemma RangeJobIs(s: State, start: nat, count: nat, order: seq<JobId>, k: nat)
    requires k < |order| && order[k] in s.jobs && start + count <= s.jobs[order[k]].total
    requires forall a :: 0 <= a < k ==> !(order[a] in s.jobs && start + count <= s.jobs[order[a]].total)
    ensures RangeJob(s, start, count, order) == Some(k)
  {
    FirstMatchUnique(order, (j: JobId) => j in s.jobs && start + count <= s.jobs[j].total, k);
  }

  lemma FirstRaceableIs(s: State, w: WorkerId, ids: seq<TaskId>, k: nat)
    requires k < |ids| && Raceable(s, w, ids, ids[k])
    requires forall a :: 0 <= a < k ==> !Raceable(s, w, ids, ids[a])
    ensures FirstRaceable(s, w, ids) == Some(k)
  {
    FirstMatchUnique(ids, (id: TaskId) => Raceable(s, w, ids, id), k);
  }

  lemma RaceJobIs(s: State, w: WorkerId, threshold: real, order: seq<JobId>, k: nat)
    requires k < |order| && RaceIn(s, order[k], w, threshold).Some?
    requires forall a :: 0 <= a < k ==> RaceIn(s, order[a], w, threshold).None?
    ensures RaceJob(s, w, threshold, order) == Some(k)
  {
    FirstMatchUnique(order, (j: JobId) => RaceIn(s, j, w, threshold).Some?, k);
  }

  /** What a losing holder is told. */
  function RevokedOne(s: State, winner: TaskId, root: TaskId, id: TaskId): Option<Revocation> {
    if Cancellable(s, winner, root, id) then Some(Revocation(id, s.tasks[id].holder, s.tasks[id].count)) else None
  }

  function Revoked(s: State, winner: TaskId, root: TaskId, ids: seq<TaskId>): seq<Revocation> {
    if ids == [] then []
    else
      var init := ids[..|ids| - 1];
      match RevokedOne(CancelEach(s, winner, root, init), winner, root, ids[|ids| - 1])
      case None => Revoked(s, winner, root, init)
      case Some(r) => Revoked(s, winner, root, init) + [r]
  }

  /** The unfinished listed members of the family, other than the winner, that are not queued. */
  ghost function Losers(s: State, winner: TaskId, root: TaskId, ids: seq<TaskId>): set<TaskId> {
    set x | x in ids && x in s.tasks && x != winner && (x == root || s.tasks[x].replicaOf == root)
            && (s.tasks[x].state.Leased? || s.tasks[x].state.Validating? || s.tasks[x].state.NeedsReplica?)
  }

  lemma LosersSnoc(s: State, winner: TaskId, root: TaskId, init: seq<TaskId>, last: TaskId)
    requires last !in init
    ensures Losers(s, winner, root, init + [last])
            == Losers(s, winner, root, init) + if Cancellable(s, winner, root, last) then {last} else {}
    ensures last !in Losers(s, winner, root, init)
  {
  }

  /** Each loser is told once what it lost: its task, and how much it was. */
  lemma {:induction false} RevokedReports(s: State, winner: TaskId, root: TaskId, ids: seq<TaskId>)
    requires Distinct(ids)
    ensures Reports(Revoked(s, winner, root, ids), s.tasks, Losers(s, winner, root, ids))
  {
    if ids == [] {
      assert Losers(s, winner, root, ids) == {};
    } else {
      var init, last := ids[..|ids| - 1], ids[|ids| - 1];
      DistinctInit(ids);
      RevokedReports(s, winner, root, init);
      RevokedSame(s, winner, root, init, last);
      hide Losers, CancelEach, Cancellable, Reports;
      LosersSnoc(s, winner, root, init, last);
      assert ids == init + [last];
      var told := Revoked(s, winner, root, init);
      if Cancellable(s, winner, root, last) {
        OneMoreReport(told, s.tasks, Losers(s, winner, root, init), last);
      } else {
        assert told + [] == told && Losers(s, winner, root, init) + {} == Losers(s, winner, root, init);
      }
    }
  }

  lemma RevokedSame(s: State, winner: TaskId, root: TaskId, init: seq<TaskId>, last: TaskId)
    requires last !in init
    ensures RevokedOne(CancelEach(s, winner, root, init), winner, root, last) == RevokedOne(s, winner, root, last)
  {
    CancelEachIs(s, winner, root, init);
  }

  lemma OneMoreReport(out: seq<Revocation>, tasks: map<TaskId, Task>, due: set<TaskId>, id: TaskId)
    requires Reports(out, tasks, due) && id in tasks && id !in due
    ensures Reports(out + [Revocation(id, tasks[id].holder, tasks[id].count)], tasks, due + {id})
  {
  }

  // ---- the carving passes -------------------------------------------------------------------

  function TriedJob(s: State, affinity: bool, j: JobId, w: WorkerId, now: nat, lease: nat, units: nat,
                    cached: seq<AssetId>): (State, Option<TaskId>)
  {
    if j !in s.jobs || (affinity && !PrefersJob(s, cached, j)) || s.jobs[j].Exhausted() then (s, None)
    else Carve(s, j, w, now, lease, units)
  }

  function Pass(s: State, affinity: bool, q: seq<JobId>, w: WorkerId, now: nat, lease: nat, units: nat,
                cached: seq<AssetId>): (State, Option<TaskId>)
    decreases q
  {
    if q == [] then (s, None)
    else
      var (s1, r) := TriedJob(s, affinity, q[0], w, now, lease, units, cached);
      if r.Some? then (s1, r) else Pass(s1, affinity, q[1..], w, now, lease, units, cached)
  }

  lemma FilterSnoc<T(!new)>(q: seq<T>, x: T, p: T -> bool)
    ensures Filter(q + [x], p) == Filter(q, p) + (if p(x) then [x] else [])
  {
    assert (q + [x])[..|q|] == q;
  }

  lemma {:induction false} FilterCons<T(!new)>(x: T, q: seq<T>, p: T -> bool)
    ensures Filter([x] + q, p) == (if p(x) then [x] else []) + Filter(q, p)
  {
    if q == [] {
      FilterSnoc([], x, p);
      assert [x] + q == [] + [x];
    } else {
      var init, last := q[..|q| - 1], q[|q| - 1];
      assert q == init + [last];
      AppendAssoc([x], init, [last]);
      FilterCons(x, init, p);
      FilterSnoc([x] + init, last, p);
      FilterSnoc(init, last, p);
      AppendAssoc(if p(x) then [x] else [], Filter(init, p), if p(last) then [last] else []);
    }
  }

  /** The plain pass carves from the first job that yields anything. */
  lemma {:induction false} PlainPass(s: State, q: seq<JobId>, w: WorkerId, now: nat, lease: nat, units: nat, cached: seq<AssetId>)
    ensures Pass(s, false, q, w, now, lease, units, cached) == CarveFirst(s, q, w, now, lease, units)
    decreases q
  {
    if q != [] {
      PlainPass(TriedJob(s, false, q[0], w, now, lease, units, cached).0, q[1..], w, now, lease, units, cached);
    }
  }

  /** The affinity pass carves from the first such job among the preferred ones;
      carving nothing leaves the preferences as they are. */
  lemma {:induction false} AffinityPass(s: State, p: JobId -> bool, q: seq<JobId>, w: WorkerId, now: nat, lease: nat,
                                        units: nat, cached: seq<AssetId>)
    requires forall j :: p(j) <==> PrefersJob(s, cached, j)
    ensures Pass(s, true, q, w, now, lease, units, cached) == CarveFirst(s, Filter(q, p), w, now, lease, units)
    decreases q
  {
    if q != [] {
      assert q == [q[0]] + q[1..];
      FilterCons(q[0], q[1..], p);
      var (s1, r) := TriedJob(s, true, q[0], w, now, lease, units, cached);
      var rest := Filter(q[1..], p);
      assert ([q[0]] + rest)[1..] == rest && [] + rest == rest;
      if r.None? {
        AffinityPass(s1, p, q[1..], w, now, lease, units, cached);
        if p(q[0]) && s.jobs[q[0]].Exhausted() {
          assert CarveFirst(s, [q[0]] + rest, w, now, lease, units) == CarveFirst(s, rest, w, now, lease, units);
        }
      }
    }
  }

  lemma {:induction false} CarveFirstAppend(s: State, p: seq<JobId>, q: seq<JobId>, w: WorkerId, now: nat, lease: nat, units: nat)
    ensures CarveFirst(s, p + q, w, now, lease, units)
            == var (s1, r) := CarveFirst(s, p, w, now, lease, units);
               if r.Some? then (s1, r) else CarveFirst(s1, q, w, now, lease, units)
    decreases p
  {
    if p == [] {
      assert p + q == q;
    } else {
      assert (p + q)[1..] == p[1..] + q;
      CarveFirstAppend(s, p[1..], q, w, now, lease, units);
      if p[0] in s.jobs && !s.jobs[p[0]].Exhausted() {
        CarveFirstAppend(Carve(s, p[0], w, now, lease, units).0, p[1..], q, w, now, lease, units);
      }
    }
  }

  /** The two passes one after the other are what a grant carves; with nothing
      cached the affinity pass finds nothing. */
  lemma TwoPasses(s: State, w: WorkerId, now: nat, lease: nat, units: nat, cached: seq<AssetId>, order: seq<JobId>)
    requires QueuePick(s, w, cached).None? && units > 0
    ensures GrantTask(s, w, now, lease, units, cached, order)
            == var (s1, r) := if cached == [] then (s, None) else Pass(s, true, order, w, now, lease, units, cached);
               if r.Some? then (s1, r) else Pass(s1, false, order, w, now, lease, units, cached)
  {
    var preferred := PreferredJobs(s, cached, order);
    CarveFirstAppend(s, preferred, order, w, now, lease, units);
    PreferredPass(s, order, w, now, lease, units, cached);
    assert preferred == [] || preferred[0] in preferred;
    PlainPass(CarveFirst(s, preferred, w, now, lease, units).0, order, w, now, lease, units, cached);
  }

  lemma PreferredPass(s: State, order: seq<JobId>, w: WorkerId, now: nat, lease: nat, units: nat, cached: seq<AssetId>)
    ensures Pass(s, true, order, w, now, lease, units, cached)
            == CarveFirst(s, PreferredJobs(s, cached, order), w, now, lease, units)
  {
    AffinityPass(s, (j: JobId) => PrefersJob(s, cached, j), order, w, now, lease, units, cached);
  }
}
