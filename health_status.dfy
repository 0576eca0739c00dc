/**
 * The database status indicator: a three-state machine driven by completed
 * health checks, with the time of the last completed check, and the colour
 * and label shown for each state.
 */
module HealthStatus {
  import opened Optional
  import Actions

  datatype Status = Checking | Healthy | Error

  /** How one call of the `healthCheck` action ended: it returned a result, or it threw. */
  datatype CheckOutcome = Returned(result: Actions.HealthResult) | Threw

  /** One completed check: its outcome and the time at which it completed. */
  datatype Completion = Completion(outcome: CheckOutcome, at: Actions.Timestamp)

  /** The component's two state fields. */
  datatype MonitorState = MonitorState(status: Status, lastCheck: Option<Actions.Timestamp>)

  const Initial := MonitorState(Checking, None)

  /** `result.success ? 'healthy' : 'error'`, and `'error'` when the call throws. */
  function StatusAfter(outcome: CheckOutcome): Status {
    match outcome
    case Returned(result) => if result.Success() then Healthy else Error
    case Threw => Error
  }

  /** The state after one completed check. Either path sets the status and the stamp. */
  function Step(state: MonitorState, c: Completion): MonitorState {
    MonitorState(StatusAfter(c.outcome), Some(c.at))
  }

  /** The state after the given checks have completed, in completion order. */
  function Replay(completions: seq<Completion>): MonitorState
    decreases |completions|
  {
    if completions == [] then Initial
    else Step(Replay(completions[..|completions| - 1]), completions[|completions| - 1])
  }

  /** The state is `checking` exactly when no check has completed yet. */
  predicate Consistent(state: MonitorState) {
    state.status == Checking <==> state.lastCheck == None
  }

  /**
   * After at least one completed check the state is never `checking` again, the
   * stamp is that of the last completion and the status is decided by its outcome alone.
   */
  lemma {:induction false} ReplayAfterChecks(completions: seq<Completion>)
    ensures Consistent(Replay(completions))
    ensures completions == [] <==> Replay(completions).status == Checking
    ensures completions != [] ==>
              Replay(completions) == MonitorState(StatusAfter(completions[|completions| - 1].outcome),
                                                  Some(completions[|completions| - 1].at))
  {
  }

  /** A returned result gives `healthy` exactly when the ping query did not throw; a thrown call gives `error`. */
  lemma StatusFollowsPing(queryThrows: bool, now: Actions.Timestamp)
    ensures StatusAfter(Returned(Actions.HealthCheck(queryThrows, now))) == if queryThrows then Error else Healthy
    ensures StatusAfter(Threw) == Error
    ensures forall o :: StatusAfter(o) != Checking
  {
  }

  function StatusColor(status: Status): string {
    match status
    case Healthy => "text-green-500"
    case Error => "text-red-500"
    case Checking => "text-yellow-500"
  }

  function StatusText(status: Status): string {
    match status
    case Healthy => "Database Connected"
    case Error => "Database Error"
    case Checking => "Checking..."
  }

  /** Distinct states are shown with distinct colours and distinct labels. */
  lemma StatusDisplayInjective(a: Status, b: Status)
    ensures StatusColor(a) == StatusColor(b) <==> a == b
    ensures StatusText(a) == StatusText(b) <==> a == b
  {
  }

  class HealthIndicator {
    var status: Status
    var lastCheck: Option<Actions.Timestamp>

    ghost function State(): MonitorState
      reads this
    {
      MonitorState(status, lastCheck)
    }

    ghost predicate Valid()
      reads this
    {
      Consistent(State())
    }

    constructor ()
      ensures Valid()
      ensures State() == Initial
    {
      status := Checking;
      lastCheck := None;
    }

    /** `checkHealth` once its call has completed at time `now`. */
    method CheckHealth(outcome: CheckOutcome, now: Actions.Timestamp)
      requires Valid()
      modifies this
      ensures Valid()
      ensures State() == Step(old(State()), Completion(outcome, now))
      ensures status != Checking && lastCheck == Some(now)
    {
      match outcome {
        case Returned(result) =>
          status := if result.Success() then Healthy else Error;
          lastCheck := Some(now);
        case Threw =>
          status := Error;
          lastCheck := Some(now);
      }
    }
  }
}
