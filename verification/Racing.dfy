/** When a straggler is raced, and by what (`IssueSpeculative` of
    src/coordinator/job.cpp). */
module Racing {
  import opened Basics
  import opened TaskStates
  import opened Coordinator
  import opened Protocol
  import opened Invariants
  import opened Coverage

  // ---- how much of a job is done --------------------------------------------------------

  /** The task is an original, and accepted. */
  ghost predicate DoneOriginal(s: State, id: TaskId) {
    id in s.tasks && s.tasks[id].state.Accepted? && s.tasks[id].replicaOf == NIL
  }

  /** The task's units, each with the task's id. */
  ghost function UnitsOf(id: TaskId, start: nat, count: nat): set<(TaskId, nat)> {
    set u | start <= u < start + count :: (id, u)
  }

  /** Every accepted original of `ids`, with each unit of its range. */
  ghost function DoneIn(s: State, ids: seq<TaskId>): set<(TaskId, nat)> {
    set id, u | id in ids && DoneOriginal(s, id) && s.tasks[id].start <= u < s.tasks[id].start + s.tasks[id].count :: (id, u)
  }

  lemma {:induction false} AsManyUnits(id: TaskId, start: nat, count: nat)
    ensures |UnitsOf(id, start, count)| == count
  {
    if count == 0 {
      assert UnitsOf(id, start, count) == {};
    } else {
      AsManyUnits(id, start, count - 1);
      assert UnitsOf(id, start, count) == UnitsOf(id, start, count - 1) + {(id, start + count - 1)};
    }
  }

  /** The sum over the list counts them. */
  lemma {:induction false} AcceptedCounts(s: State, ids: seq<TaskId>)
    requires Distinct(ids)
    ensures AcceptedUnits(s, ids) == |DoneIn(s, ids)|
  {
    if ids == [] {
      assert DoneIn(s, ids) == {};
    } else {
      var init, id := ids[..|ids| - 1], ids[|ids| - 1];
      DistinctInit(ids);
      AcceptedCounts(s, init);
      DoneSnoc(s, init, id);
      assert ids == init + [id];
    }
  }

  lemma DoneSnoc(s: State, init: seq<TaskId>, id: TaskId)
    requires id !in init
    ensures |DoneIn(s, init + [id])| == |DoneIn(s, init)| + if DoneOriginal(s, id) then s.tasks[id].count else 0
  {
    if DoneOriginal(s, id) {
      var own := UnitsOf(id, s.tasks[id].start, s.tasks[id].count);
      AsManyUnits(id, s.tasks[id].start, s.tasks[id].count);
      OwnUnits(s, init, id);
      hide DoneIn, UnitsOf;
    } else {
      assert DoneIn(s, init + [id]) == DoneIn(s, init);
    }
  }

  lemma OwnUnits(s: State, init: seq<TaskId>, id: TaskId)
    requires id !in init && DoneOriginal(s, id)
    ensures var own := UnitsOf(id, s.tasks[id].start, s.tasks[id].count);
            DoneIn(s, init + [id]) == DoneIn(s, init) + own && DoneIn(s, init) !! own
  {
    var own := UnitsOf(id, s.tasks[id].start, s.tasks[id].count);
    forall p ensures p in DoneIn(s, init + [id]) <==> p in DoneIn(s, init) || p in own {
      assert p.0 in init + [id] <==> p.0 in init || p.0 == id;
    }
  }

  // ---- where ranges do not overlap, that is the units done -------------------------------

  ghost predicate DoneUnit(s: State, j: JobId, u: nat) {
    exists id :: Covers(s, j, id, u) && s.tasks[id].state.Accepted?
  }

  /** The units of the job that lie in an accepted original range. */
  ghost function DoneUnits(s: State, j: JobId): set<nat>
    requires j in s.jobs
  {
    set u: nat | u < s.jobs[j].total && DoneUnit(s, j, u)
  }

  lemma {:induction false} SameSize(pairs: set<(TaskId, nat)>, units: set<nat>)
    requires forall p <- pairs :: p.1 in units
    requires forall u <- units :: exists id :: (id, u) in pairs
    requires forall p <- pairs, q <- pairs :: p.1 == q.1 ==> p == q
    ensures |pairs| == |units|
    decreases units
  {
    if u :| u in units {
      var id :| (id, u) in pairs;
      var p := (id, u);
      forall v <- units - {u} ensures exists i :: (i, v) in pairs - {p} {
        var i :| (i, v) in pairs;
        assert (i, v) in pairs - {p};
      }
      SameSize(pairs - {p}, units - {u});
    } else {
      assert pairs == {};
    }
  }

  /** No unit is counted twice, and none is missed. */
  lemma DoneIsUnits(s: State, j: JobId)
    requires Lists(s) && j in s.jobs && JobCovered(s, j)
    ensures |DoneIn(s, s.jobs[j].tasks)| == |DoneUnits(s, j)|
  {
    var ids := s.jobs[j].tasks;
    forall p <- DoneIn(s, ids) ensures p.1 in DoneUnits(s, j) {
      assert Covers(s, j, p.0, p.1);
      CarvedBelowTotal(s.jobs[j], p.1);
      assert DoneUnit(s, j, p.1);
    }
    forall u <- DoneUnits(s, j) ensures exists id :: (id, u) in DoneIn(s, ids) {
      var id :| Covers(s, j, id, u) && s.tasks[id].state.Accepted?;
      assert (id, u) in DoneIn(s, ids);
    }
    forall p <- DoneIn(s, ids), q <- DoneIn(s, ids) | p.1 == q.1 ensures p == q {
      assert Covers(s, j, p.0, p.1) && Covers(s, j, q.0, q.1);
    }
    SameSize(DoneIn(s, ids), DoneUnits(s, j));
  }

  // ---- the race -----------------------------------------------------------------------------

  /** All of the job is handed out, and of what its originals cover at least
      the threshold's share is accepted. */
  ghost predicate LastStretch(s: State, j: JobId, threshold: real) {
    j in s.jobs && s.jobs[j].next >= s.jobs[j].total
    && var total, done := s.jobs[j].total, |DoneIn(s, s.jobs[j].tasks)|;
       if total == 0 then threshold <= 0.0 else done as real >= threshold * total as real
  }

  /** Leased to somebody else, an original, never answered by `w`, and raced by nobody yet. */
  ghost predicate Straggler(s: State, w: WorkerId, j: JobId, id: TaskId) {
    j in s.jobs && id in s.jobs[j].tasks
    && id in s.tasks && s.tasks[id].state.Leased? && s.tasks[id].replicaOf == NIL
    && s.tasks[id].holder != w && w !in s.tasks[id].prior
    && forall c <- s.jobs[j].tasks :: c in s.tasks && s.tasks[c].replicaOf == id ==> IsTerminal(s.tasks[c].state)
  }

  lemma ShareReached(done: nat, total: nat, threshold: real)
    requires total > 0
    ensures done as real / total as real < threshold <==> done as real < threshold * total as real
  {
    var share := done as real / total as real;
    assert share * total as real == done as real;
    if share < threshold {
      Times(share, threshold, total as real);
    } else if threshold < share {
      Times(threshold, share, total as real);
    }
  }

  lemma Times(a: real, b: real, c: real)
    requires a < b && c > 0.0
    ensures a * c < b * c
  {
  }

  lemma StretchIs(s: State, j: JobId, threshold: real)
    requires Lists(s)
    ensures LastStretch(s, j, threshold)
            <==> j in s.jobs && s.jobs[j].Exhausted() && !(CompletionFraction(s, j) < threshold)
  {
    if j in s.jobs {
      AcceptedCounts(s, s.jobs[j].tasks);
      if s.jobs[j].total > 0 {
        ShareReached(|DoneIn(s, s.jobs[j].tasks)|, s.jobs[j].total, threshold);
      }
    }
  }

  lemma RaceableIs(s: State, w: WorkerId, j: JobId, id: TaskId)
    requires j in s.jobs && id in s.jobs[j].tasks
    ensures Raceable(s, w, s.jobs[j].tasks, id) <==> Straggler(s, w, j, id)
  {
    if id in s.tasks && forall c <- s.jobs[j].tasks :: c in s.tasks && s.tasks[c].replicaOf == id ==> IsTerminal(s.tasks[c].state) {
      assert forall c <- s.jobs[j].tasks :: !LiveReplica(s, id, c);
    }
  }

  /** A job in its last stretch is raced for if, and only if, it lists a straggler. */
  lemma RaceInIff(s: State, w: WorkerId, j: JobId, threshold: real)
    requires Lists(s)
    ensures RaceIn(s, j, w, threshold).Some? <==> LastStretch(s, j, threshold) && exists id :: Straggler(s, w, j, id)
    ensures RaceIn(s, j, w, threshold).Some? ==> Straggler(s, w, j, RaceIn(s, j, w, threshold).value)
  {
    StretchIs(s, j, threshold);
    if j in s.jobs {
      forall id <- s.jobs[j].tasks ensures Raceable(s, w, s.jobs[j].tasks, id) <==> Straggler(s, w, j, id) {
        RaceableIs(s, w, j, id);
      }
      hide Raceable, LastStretch, CompletionFraction;
      if id :| Straggler(s, w, j, id) {
        var i :| 0 <= i < |s.jobs[j].tasks| && s.jobs[j].tasks[i] == id;
        assert Raceable(s, w, s.jobs[j].tasks, s.jobs[j].tasks[i]);
      }
    }
  }

  /** `to` is a second task over the range of `id`, listed by its job and leased to `w`. */
  ghost predicate Raced(s: State, s': State, j: JobId, id: TaskId, w: WorkerId, deadline: nat)
    requires j in s.jobs && id in s.tasks
  {
    var n := s.nextId;
    s'.tasks == s.tasks[n := Task(n, j, Leased, s.tasks[id].start, s.tasks[id].count, w, deadline, id, [], [])]
    && s'.jobs == s.jobs[j := s.jobs[j].(tasks := s.jobs[j].tasks + [n])]
    && s'.queue == s.queue && s'.partials == s.partials && s'.nextId == n + 1 && s'.wasted == s.wasted
  }

  /** A worker is given a race if, and only if, some job is in its last stretch
      with a straggler left in it. */
  lemma RaceIff(s: State, w: WorkerId, now: nat, lease: nat, threshold: real, order: seq<JobId>)
    requires Lists(s)
    ensures IssueSpeculative(s, w, now, lease, threshold, order).1.Some?
            <==> exists j <- order, id :: LastStretch(s, j, threshold) && Straggler(s, w, j, id)
  {
    forall j ensures RaceIn(s, j, w, threshold).Some? <==> LastStretch(s, j, threshold) && exists id :: Straggler(s, w, j, id) {
      RaceInIff(s, w, j, threshold);
    }
    hide LastStretch, Straggler, RaceIn;
    if j, id :| j in order && LastStretch(s, j, threshold) && Straggler(s, w, j, id) {
      var i :| 0 <= i < |order| && order[i] == j;
      assert RaceIn(s, order[i], w, threshold).Some?;
    }
  }

  /** The first such job of the order, and the first straggler it lists. */
  ghost predicate IsRace(s: State, w: WorkerId, threshold: real, order: seq<JobId>, k: nat, i: nat) {
    k < |order| && LastStretch(s, order[k], threshold)
    && i < |s.jobs[order[k]].tasks| && Straggler(s, w, order[k], s.jobs[order[k]].tasks[i])
    && (forall a :: 0 <= a < i ==> !Straggler(s, w, order[k], s.jobs[order[k]].tasks[a]))
    && (forall a, id | 0 <= a < k :: !(LastStretch(s, order[a], threshold) && Straggler(s, w, order[a], id)))
  }

  lemma FirstStraggler(s: State, w: WorkerId, j: JobId, i: nat)
    requires j in s.jobs && FirstRaceable(s, w, s.jobs[j].tasks) == Some(i)
    ensures Straggler(s, w, j, s.jobs[j].tasks[i]) && forall a :: 0 <= a < i ==> !Straggler(s, w, j, s.jobs[j].tasks[a])
  {
    var ids := s.jobs[j].tasks;
    RaceableIs(s, w, j, ids[i]);
    forall a | 0 <= a < i ensures !Straggler(s, w, j, ids[a]) {
      RaceableIs(s, w, j, ids[a]);
    }
  }

  lemma RaceIs(s: State, w: WorkerId, threshold: real, order: seq<JobId>, k: nat) returns (i: nat)
    requires Lists(s) && RaceJob(s, w, threshold, order) == Some(k)
    ensures IsRace(s, w, threshold, order, k, i) && RaceIn(s, order[k], w, threshold) == Some(s.jobs[order[k]].tasks[i])
  {
    RaceInIff(s, w, order[k], threshold);
    i := FirstRaceable(s, w, s.jobs[order[k]].tasks).value;
    FirstStraggler(s, w, order[k], i);
    forall a, id | 0 <= a < k ensures !(LastStretch(s, order[a], threshold) && Straggler(s, w, order[a], id)) {
      RaceInIff(s, w, order[a], threshold);
    }
    hide LastStretch, Straggler, FirstRaceable;
  }

  /** That one is raced; without one nothing changes. */
  lemma RaceEffect(s: State, w: WorkerId, now: nat, lease: nat, threshold: real, order: seq<JobId>)
    requires Lists(s)
    ensures var (s', r) := IssueSpeculative(s, w, now, lease, threshold, order);
            if r.None? then s' == s
            else r.value == s.nextId
                 && exists k: nat, i: nat :: IsRace(s, w, threshold, order, k, i)
                                             && s.jobs[order[k]].tasks[i] in s.tasks
                                             && Raced(s, s', order[k], s.jobs[order[k]].tasks[i], w, now + lease)
  {
    match RaceJob(s, w, threshold, order)
    case None =>
    case Some(k) =>
      var i := RaceIs(s, w, threshold, order, k);
  }
}
