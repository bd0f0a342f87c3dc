/** The task lifecycle (include/p2pgpu/coordinator/task_state.hpp). */
module TaskStates {
  import opened Basics

  datatype TaskState = Queued | Leased | Validating | NeedsReplica | Accepted | Rejected | Cancelled

  datatype TaskEvent =
    | Grant | Renew | Submit | LeaseExpired | Release
    | Accept | Disagreement | IssueReplica | Reject | Cancel

  predicate IsTerminal(s: TaskState) {
    s.Accepted? || s.Rejected? || s.Cancelled?
  }

  /** The transition table; `None` is an illegal transition. A queued task can
      only be granted: in particular it cannot be cancelled. */
  function Advance(from: TaskState, ev: TaskEvent): Option<TaskState> {
    match (from, ev)
    case (Queued, Grant) => Some(Leased)
    case (Leased, Renew) => Some(Leased)
    case (Leased, Submit) => Some(Validating)
    case (Leased, LeaseExpired) => Some(Queued)
    case (Leased, Release) => Some(Queued)
    case (Leased, Cancel) => Some(Cancelled)
    case (Validating, Accept) => Some(Accepted)
    case (Validating, Reject) => Some(Rejected)
    case (Validating, Disagreement) => Some(NeedsReplica)
    case (Validating, Cancel) => Some(Cancelled)
    case (NeedsReplica, IssueReplica) => Some(Queued)
    case (NeedsReplica, Cancel) => Some(Cancelled)
    case (_, _) => None
  }
}
