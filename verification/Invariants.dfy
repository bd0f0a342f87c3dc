/** What every step keeps: identity, bookkeeping, the queue, votes and families. */
module Invariants {
  import opened Basics
  import opened TaskStates
  import opened Quorum
  import opened Coordinator
  import opened Protocol

  // ---- the invariants -------------------------------------------------------

  /** Ids are below `nextId`, and a task's job exists. */
  ghost predicate Ids(s: State) {
    s.nextId > NIL
    && (forall j <- s.jobs :: s.jobs[j].id == j && NIL < j < s.nextId)
    && (forall id <- s.tasks :: s.tasks[id].id == id && NIL < id < s.nextId && s.tasks[id].job in s.jobs)
  }

  /** A job lists its tasks once each; a replica and its original are both
      listed and cover the same range; no replica has a replica. */
  ghost predicate Lists(s: State) {
    (forall j <- s.jobs :: Distinct(s.jobs[j].tasks))
    && (forall j <- s.jobs, id | id in s.jobs[j].tasks :: id in s.tasks && s.tasks[id].job == j)
    && (forall id <- s.tasks | s.tasks[id].replicaOf != NIL :: IsReplica(s, id))
  }

  ghost predicate IsReplica(s: State, id: TaskId)
    requires id in s.tasks
  {
    var t := s.tasks[id];
    t.replicaOf in s.tasks && t.job in s.jobs
    && id in s.jobs[t.job].tasks && t.replicaOf in s.jobs[t.job].tasks
    && s.tasks[t.replicaOf].replicaOf == NIL && s.tasks[t.replicaOf].job == t.job
    && s.tasks[t.replicaOf].start == t.start && s.tasks[t.replicaOf].count == t.count
  }

  ghost predicate VotesOk(t: Task) {
    Distinct(t.prior)
    && (forall a, b :: 0 <= a < b < |t.submissions| ==> t.submissions[a].worker != t.submissions[b].worker)
    && (forall a :: 0 <= a < |t.submissions| ==> t.submissions[a].worker in t.prior)
  }

  /** Between steps a task is queued, leased, accepted or cancelled, and has
      units to compute; only a leased task has a holder, who never answered it before; its answers come
      from distinct workers, all of them remembered. */
  ghost predicate TaskOk(t: Task) {
    (t.state.Queued? || t.state.Leased? || t.state.Accepted? || t.state.Cancelled?)
    && (t.state.Leased? ==> t.holder !in t.prior)
    && (!t.state.Leased? ==> t.holder == NIL)
    && t.count > 0 && VotesOk(t)
  }

  ghost predicate TasksOk(s: State) {
    forall id <- s.tasks :: TaskOk(s.tasks[id])
  }

  /** The queue holds exactly the queued tasks, once each. */
  ghost predicate QueueOk(s: State) {
    forall id :: multiset(s.queue)[id] == if id in s.tasks then Slots(s.tasks[id]) else 0
  }

  function Slots(t: Task): nat {
    if t.state.Queued? then 1 else 0
  }

  ghost predicate Sibling(s: State, a: TaskId, b: TaskId) {
    a in s.tasks && b in s.tasks && Root(s, a) == Root(s, b)
  }

  /** A task is cancelled only when a sibling was accepted; an original has at
      most one live replica. */
  ghost predicate Families(s: State) {
    (forall id <- s.tasks | s.tasks[id].state.Cancelled? :: HasAccepted(s, id))
    && (forall a <- s.tasks, b <- s.tasks | s.tasks[a].replicaOf == s.tasks[b].replicaOf != NIL
          && !IsTerminal(s.tasks[a].state) && !IsTerminal(s.tasks[b].state) :: a == b)
  }

  ghost predicate HasAccepted(s: State, id: TaskId) {
    exists a :: Sibling(s, a, id) && s.tasks[a].state.Accepted?
  }

  ghost predicate Core(s: State) {
    Ids(s) && Lists(s) && TasksOk(s) && Families(s)
  }

  // ---- steps that only move existing tasks through the lifecycle --------------

  ghost predicate SameRange(a: Task, b: Task) {
    a.id == b.id && a.job == b.job && a.start == b.start && a.count == b.count && a.replicaOf == b.replicaOf
  }

  /** No task appears, disappears or changes its range; finished tasks stay as
      they are; nothing is revived into a live replica. */
  ghost predicate Moved(s: State, s': State) {
    s'.jobs == s.jobs && s'.nextId == s.nextId && s'.tasks.Keys == s.tasks.Keys
    && (forall id <- s.tasks :: SameRange(s.tasks[id], s'.tasks[id]))
    && (forall id <- s.tasks | IsTerminal(s.tasks[id].state) :: s'.tasks[id].state == s.tasks[id].state)
    && (forall id <- s.tasks | s'.tasks[id].state.Cancelled? && !s.tasks[id].state.Cancelled? :: HasAccepted(s', id))
  }

  lemma MovedKeepsLists(s: State, s': State)
    requires Ids(s) && Lists(s) && Moved(s, s')
    ensures Ids(s') && Lists(s')
  {
    forall id <- s'.tasks | s'.tasks[id].replicaOf != NIL ensures IsReplica(s', id) {
      assert IsReplica(s, id) && SameRange(s.tasks[id], s'.tasks[id]);
      assert SameRange(s.tasks[s.tasks[id].replicaOf], s'.tasks[s.tasks[id].replicaOf]);
    }
  }

  /** A family's accepted member is still there after the step. */
  lemma MovedKeepsAccepted(s: State, s': State, id: TaskId)
    requires Moved(s, s') && id in s.tasks && HasAccepted(s, id)
    ensures HasAccepted(s', id)
  {
    var a :| Sibling(s, a, id) && s.tasks[a].state.Accepted?;
    assert Sibling(s', a, id) && s'.tasks[a].state.Accepted? by {
      assert SameRange(s.tasks[a], s'.tasks[a]) && SameRange(s.tasks[id], s'.tasks[id]);
    }
  }

  lemma MovedKeepsFamilies(s: State, s': State)
    requires Families(s) && Moved(s, s')
    ensures Families(s')
  {
    forall id <- s'.tasks | s'.tasks[id].state.Cancelled? ensures HasAccepted(s', id) {
      if s.tasks[id].state.Cancelled? {
        MovedKeepsAccepted(s, s', id);
      }
    }
    forall a <- s'.tasks, b <- s'.tasks | s'.tasks[a].replicaOf == s'.tasks[b].replicaOf != NIL
        && !IsTerminal(s'.tasks[a].state) && !IsTerminal(s'.tasks[b].state)
      ensures a == b
    {
      assert SameRange(s.tasks[a], s'.tasks[a]) && SameRange(s.tasks[b], s'.tasks[b]);
    }
  }

  lemma MovedKeepsCore(s: State, s': State)
    requires Core(s) && Moved(s, s') && TasksOk(s')
    ensures Core(s')
  {
    MovedKeepsLists(s, s');
    MovedKeepsFamilies(s, s');
  }

  lemma MovedTrans(s: State, s1: State, s2: State)
    requires Moved(s, s1) && Moved(s1, s2)
    ensures Moved(s, s2)
  {
    forall id <- s.tasks ensures SameRange(s.tasks[id], s2.tasks[id]) {
      assert SameRange(s.tasks[id], s1.tasks[id]) && SameRange(s1.tasks[id], s2.tasks[id]);
    }
    forall id <- s.tasks | s2.tasks[id].state.Cancelled? && !s.tasks[id].state.Cancelled?
      ensures HasAccepted(s2, id)
    {
      if s1.tasks[id].state.Cancelled? {
        MovedKeepsAccepted(s1, s2, id);
      }
    }
  }

  /** Rewriting one unfinished task is a move, if it is cancelled with cause. */
  lemma PutMoved(s: State, s': State, id: TaskId, t: Task)
    requires id in s.tasks && !IsTerminal(s.tasks[id].state) && SameRange(s.tasks[id], t)
    requires s'.jobs == s.jobs && s'.nextId == s.nextId && s'.tasks == s.tasks[id := t]
    requires t.state.Cancelled? ==> HasAccepted(s', id)
    ensures Moved(s, s')
  {
  }

  /** A step that moves tasks and keeps each one well-formed. */
  ghost predicate Good(s: State, s': State) {
    Moved(s, s') && TasksOk(s') && (QueueOk(s) ==> QueueOk(s'))
  }

  lemma GoodTrans(s: State, s1: State, s2: State)
    requires Good(s, s1) && Good(s1, s2)
    ensures Good(s, s2)
  {
    MovedTrans(s, s1, s2);
  }

  /** The queue changed only in how often it holds `id`, and by what the
      task's state changed. */
  ghost predicate QueueFollows(s: State, s': State, id: TaskId, t: Task)
    requires id in s.tasks
  {
    forall x :: if x == id then multiset(s'.queue)[x] + Slots(s.tasks[id]) == multiset(s.queue)[x] + Slots(t)
                else multiset(s'.queue)[x] == multiset(s.queue)[x]
  }

  lemma PutGood(s: State, s': State, id: TaskId, t: Task)
    requires TasksOk(s) && TaskOk(t) && id in s.tasks
    requires !IsTerminal(s.tasks[id].state) && SameRange(s.tasks[id], t)
    requires s'.jobs == s.jobs && s'.nextId == s.nextId && s'.tasks == s.tasks[id := t]
    requires t.state.Cancelled? ==> HasAccepted(s', id)
    requires QueueOk(s) ==> QueueFollows(s, s', id, t)
    ensures Good(s, s')
  {
    PutMoved(s, s', id, t);
  }

  lemma GrantQueuedGood(s: State, w: WorkerId, now: nat, lease: nat, k: nat)
    requires TasksOk(s) && k < |s.queue| && Grantable(s, w, s.queue[k])
    ensures Good(s, GrantQueued(s, w, now, lease, k))
  {
    var s' := GrantQueued(s, w, now, lease, k);
    assert multiset(s.queue)[s.queue[k]] >= 1;
    assert TaskOk(s.tasks[s.queue[k]]);
    PutGood(s, s', s.queue[k], s'.tasks[s.queue[k]]);
  }

  lemma RenewGood(s: State, w: WorkerId, id: TaskId, now: nat, lease: nat)
    requires TasksOk(s) && HoldsLease(s, w, id)
    ensures Good(s, RenewLease(s, w, id, now, lease).value)
  {
    assert TaskOk(s.tasks[id]);
    var s' := RenewLease(s, w, id, now, lease).value;
    PutGood(s, s', id, s'.tasks[id]);
  }

  lemma RequeueGood(s: State, id: TaskId, why: TaskEvent)
    requires TasksOk(s) && why in {Release, LeaseExpired} && Requeue(s, id, why).Some?
    ensures Good(s, Requeue(s, id, why).value)
  {
    assert TaskOk(s.tasks[id]);
    var s' := Requeue(s, id, why).value;
    PutGood(s, s', id, s'.tasks[id]);
  }

  lemma {:induction false} RequeueAllGood(s: State, ids: seq<TaskId>, why: TaskEvent)
    requires TasksOk(s) && why in {Release, LeaseExpired}
    ensures Good(s, RequeueAll(s, ids, why))
  {
    if ids != [] {
      var s1 := RequeueAll(s, ids[..|ids| - 1], why);
      RequeueAllGood(s, ids[..|ids| - 1], why);
      if Requeue(s1, ids[|ids| - 1], why).Some? {
        RequeueGood(s1, ids[|ids| - 1], why);
        GoodTrans(s, s1, RequeueAll(s, ids, why));
      }
    }
  }

  // ---- cancelling ---------------------------------------------------------------

  /** `root` names the family of `winner`, which was accepted. */
  ghost predicate WonBy(s: State, winner: TaskId, root: TaskId) {
    winner in s.tasks && s.tasks[winner].state.Accepted? && root == Root(s, winner) != NIL
    && (root in s.tasks ==> s.tasks[root].replicaOf == NIL)
  }

  lemma CancelOneGood(s: State, winner: TaskId, root: TaskId, id: TaskId)
    requires TasksOk(s) && WonBy(s, winner, root)
    ensures Good(s, CancelOne(s, winner, root, id)) && WonBy(CancelOne(s, winner, root, id), winner, root)
  {
    var s' := CancelOne(s, winner, root, id);
    if s' != s {
      assert TaskOk(s.tasks[id]);
      assert Sibling(s', winner, id) && HasAccepted(s', id);
      PutGood(s, s', id, s'.tasks[id]);
    }
  }

  lemma {:induction false} CancelEachGood(s: State, winner: TaskId, root: TaskId, ids: seq<TaskId>)
    requires TasksOk(s) && WonBy(s, winner, root)
    ensures Good(s, CancelEach(s, winner, root, ids)) && WonBy(CancelEach(s, winner, root, ids), winner, root)
  {
    if ids != [] {
      var s1 := CancelEach(s, winner, root, ids[..|ids| - 1]);
      CancelEachGood(s, winner, root, ids[..|ids| - 1]);
      CancelOneGood(s1, winner, root, ids[|ids| - 1]);
      GoodTrans(s, s1, CancelEach(s, winner, root, ids));
    }
  }

  lemma CancelSiblingsGood(s: State, winner: TaskId)
    requires TasksOk(s) && Ids(s) && Lists(s) && winner in s.tasks && s.tasks[winner].state.Accepted?
    ensures Good(s, CancelSiblingsOf(s, winner)) && WonBy(s, winner, Root(s, winner))
  {
    assert s.tasks[winner].replicaOf != NIL ==> IsReplica(s, winner);
    CancelEachGood(s, winner, Root(s, winner), s.jobs[s.tasks[winner].job].tasks);
  }

  // ---- the vote --------------------------------------------------------------------

  /** The task once its holder's answer is counted. */
  function Counted(t: Task, sub: Submission): Task {
    t.(state := Validating, prior := t.prior + [sub.worker], holder := NIL, submissions := t.submissions + [sub])
  }

  /** What the vote writes before any sibling is cancelled. */
  function AfterVote(s: State, id: TaskId, sub: Submission, action: Action): State
    requires id in s.tasks
  {
    var t := Counted(s.tasks[id], sub);
    match action
    case NeedMoreReplicas => Enqueue(Put(s, id, t.(state := Queued, deadline := 0)), id)
    case Inconclusive => Enqueue(Put(s, id, t.(state := Queued, deadline := 0, submissions := [])), id)
    case Accept => Put(s, id, t.(state := Accepted, submissions := [])).(partials := s.partials - {id})
  }

  lemma PutTwice(s: State, id: TaskId, a: Task, b: Task)
    ensures Put(Put(s, id, a), id, b) == Put(s, id, b)
  {
  }

  lemma SubmittedIs(s: State, id: TaskId, sub: Submission)
    requires HoldsLease(s, sub.worker, id)
    ensures RecordSubmission(SubmitResult(s, sub.worker, id).value, id, sub) == Put(s, id, Counted(s.tasks[id], sub))
  {
    PutTwice(s, id, SubmitResult(s, sub.worker, id).value.tasks[id], Counted(s.tasks[id], sub));
  }

  lemma VoteIs(s: State, id: TaskId, sub: Submission, k: Comparator, cfg: Config)
    requires HoldsLease(s, sub.worker, id)
    ensures var (s', verdict) := Vote(s, id, sub, k, cfg);
            verdict == Decide(k, cfg, s.tasks[id].submissions + [sub])
            && var s1 := AfterVote(s, id, sub, verdict.action);
            s' == if verdict.action.Accept? then CancelSiblingsOf(s1, id) else s1
  {
    SubmittedIs(s, id, sub);
    var t := Counted(s.tasks[id], sub);
    PutTwice(s, id, t, t.(state := Queued, deadline := 0));
    PutTwice(s, id, t, t.(state := Queued, deadline := 0, submissions := []));
    PutTwice(s, id, t, t.(state := Accepted, submissions := []));
  }

  lemma CountedOk(t: Task, sub: Submission)
    requires TaskOk(t) && t.state.Leased? && t.holder == sub.worker
    ensures VotesOk(Counted(t, sub))
  {
    var t' := Counted(t, sub);
    forall a | 0 <= a < |t'.submissions| ensures t'.submissions[a].worker in t'.prior {
      if a < |t.submissions| {
        assert t.submissions[a].worker in t.prior;
      }
    }
  }

  lemma AfterVoteGood(s: State, id: TaskId, sub: Submission, action: Action)
    requires TasksOk(s) && HoldsLease(s, sub.worker, id)
    ensures Good(s, AfterVote(s, id, sub, action))
  {
    assert TaskOk(s.tasks[id]);
    CountedOk(s.tasks[id], sub);
    var s' := AfterVote(s, id, sub, action);
    PutGood(s, s', id, s'.tasks[id]);
  }

  lemma VoteGood(s: State, id: TaskId, sub: Submission, k: Comparator, cfg: Config)
    requires Core(s) && HoldsLease(s, sub.worker, id)
    ensures Good(s, Vote(s, id, sub, k, cfg).0)
  {
    VoteIs(s, id, sub, k, cfg);
    var action := Decide(k, cfg, s.tasks[id].submissions + [sub]).action;
    var s1 := AfterVote(s, id, sub, action);
    AfterVoteGood(s, id, sub, action);
    if action.Accept? {
      MovedKeepsLists(s, s1);
      CancelSiblingsGood(s1, id);
      GoodTrans(s, s1, CancelSiblingsOf(s1, id));
    }
  }
}
