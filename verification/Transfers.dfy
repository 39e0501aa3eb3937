/** The life of a transfer: its states, the moves between them, and when it may be tried again
    (src/stashd/domain/transfers.py). */
module Transfers {
  import opened Options

  datatype Kind = Warm | Flush | Release {
    predicate MovesData() { !Release? }
  }

  datatype State = Submitted | Assigned | Running | Succeeded | Failed | Cancelled

  datatype FailureClass =
    | PermissionDenied | SourceMissing | TargetMissing | NoSpace | QuotaExceeded | Network
    | Timeout | CancelledByUser | DaemonUnreachable | DaemonShutdown | ToolError | Internal

  function Targets(current: State): set<State> {
    match current
    case Submitted => {Assigned, Failed, Cancelled}
    case Assigned => {Running, Submitted, Failed, Cancelled}
    case Running => {Succeeded, Failed, Cancelled}
    case Failed => {Submitted}
    case Succeeded => {}
    case Cancelled => {}
  }

  /** next_transfer_state raises InvalidTransition exactly when this is false. */
  predicate Legal(current: State, target: State) {
    target in Targets(current)
  }

  /** What the table comes to: work only succeeds once it runs, it can be cancelled or fail wherever it is not over, it
      only gets further, and going back is for a dispatch that never arrived and for a retry of what has failed. */
  lemma Lifecycle(s: State, t: State)
    ensures Legal(s, Succeeded) <==> s == Running
    ensures Legal(s, Cancelled) <==> CanCancel(s)
    ensures Legal(s, Failed) <==> CanCancel(s)
    ensures Legal(s, t) && t != Submitted ==> Rank(t) > Rank(s)
    ensures Legal(s, Submitted) <==> s in {Assigned, Failed}
    ensures Legal(s, Assigned) <==> s == Submitted
    ensures Legal(s, Running) <==> s == Assigned
  {
  }

  function Rank(state: State): nat {
    match state
    case Submitted => 0
    case Assigned => 1
    case Running => 2
    case _ => 3
  }

  predicate IsTerminal(state: State) {
    state in {Succeeded, Failed, Cancelled}
  }

  predicate CanCancel(state: State) {
    !IsTerminal(state)
  }

  predicate InFlight(state: State) {
    state in {Assigned, Running}
  }

  predicate IsBackwards(current: State, target: State) {
    Rank(target) <= Rank(current)
  }

  const NEVER_RETRIED := {PermissionDenied, QuotaExceeded, SourceMissing, CancelledByUser}

  predicate ShouldRetry(failure: FailureClass, attempt: nat, count: nat, retryOn: set<FailureClass>) {
    failure !in NEVER_RETRIED && failure in retryOn && attempt <= count
  }

  /** The wire names of the failure classes; any other text names none. */
  function FailureNamed(text: string): Option<FailureClass> {
    match text
    case "permission_denied" => Some(PermissionDenied)
    case "source_missing" => Some(SourceMissing)
    case "target_missing" => Some(TargetMissing)
    case "no_space" => Some(NoSpace)
    case "quota_exceeded" => Some(QuotaExceeded)
    case "network" => Some(Network)
    case "timeout" => Some(Timeout)
    case "cancelled" => Some(CancelledByUser)
    case "daemon_unreachable" => Some(DaemonUnreachable)
    case "daemon_shutdown" => Some(DaemonShutdown)
    case "tool_error" => Some(ToolError)
    case "internal" => Some(Internal)
    case _ => None
  }

  function WireName(failure: FailureClass): string {
    match failure
    case PermissionDenied => "permission_denied"
    case SourceMissing => "source_missing"
    case TargetMissing => "target_missing"
    case NoSpace => "no_space"
    case QuotaExceeded => "quota_exceeded"
    case Network => "network"
    case Timeout => "timeout"
    case CancelledByUser => "cancelled"
    case DaemonUnreachable => "daemon_unreachable"
    case DaemonShutdown => "daemon_shutdown"
    case ToolError => "tool_error"
    case Internal => "internal"
  }

  /** A text names a failure class if and only if it is the class's own name, so no two classes share one. */
  lemma NamedIff(text: string, failure: FailureClass)
    ensures FailureNamed(text) == Some(failure) <==> text == WireName(failure)
  {
  }
}
