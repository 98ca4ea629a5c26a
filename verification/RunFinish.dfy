/** How one run is closed: AgentLoop.run, run_native's handlers and finally block,
    and run_lifecycle.finalize_run. Storage and trace calls are taken to succeed. */
module RunFinish {
  import opened Options
  import opened RunLoop

  datatype Status = Active | Complete | Stopped | Failed

  datatype StopReason =
    | NoReason | FinalAnswerReturned | BudgetExhausted | ConvergenceGuardTriggered | RetryLimitReached
    | UserCancelled | ProcessCleanupFailed | RuntimeError | CompletionGateFailed

  /** One run_finished event, with the status it carries. */
  datatype Finished = Finished(state: TaskState, status: Status)

  /** What escapes from Python code; the third kind no handler catches. */
  datatype Escape = Cancellation | Error | Interrupt

  class TaskState {
    var status: Status
    var stopReason: StopReason
    var emitted: bool

    constructor ()
      ensures status == Active && stopReason == NoReason && !emitted
    {
      status, stopReason, emitted := Active, NoReason, false;
    }

    method Stop(reason: StopReason, next: Status)
      modifies this`status, this`stopReason
      ensures status == next && stopReason == reason
    {
      status, stopReason := next, reason;
    }

    method FinishSuccess()
      modifies this`status, this`stopReason
      ensures status == Complete && stopReason == FinalAnswerReturned
    {
      status, stopReason := Complete, FinalAnswerReturned;
    }
  }

  /** How AgentLoop.run begins: it may fail before its own TaskState is installed,
      or after that but before its try block. */
  datatype Opening = FailsBeforeState(escape: Escape) | FailsBeforeTry(escape: Escape) | Opens

  /** The completion gate after the loop. */
  datatype Gate = Passes | NeedsFix | Raises(escape: Escape)

  /** What ends the loop by an exception: its own fault, or one between the final
      status and the event, in durable memory or the checkpoint. */
  function FaultOf(end: End, closing: Option<Fault>): Option<Fault> {
    if end.Raised? then Some(end.fault) else closing
  }

  /** How `AgentLoop.run` leaves a state: its status and reason, whether the event has
      been sent, and what escapes. */
  datatype Outcome = Outcome(status: Status, reason: StopReason, sent: bool, escape: Option<Escape>)

  /** Cancellation is stopped by the user and a failed cleanup is failed, with an event
      each; other exceptions escape before the event. */
  predicate ByFault(fault: Fault, o: Outcome) {
    match fault
    case Cancelled => o == Outcome(Stopped, UserCancelled, true, None)
    case CleanupFailed => o == Outcome(Failed, StopReason.ProcessCleanupFailed, true, None)
    case Interrupted => o.escape == Some(Interrupt) && !o.sent
    case Failure => o.escape == Some(Error) && !o.sent
    case UnboundTools => o.escape == Some(Error) && !o.sent
  }

  /** Every way in which the loop ends without an exception. The caps and two rejected
      finals return without an event. */
  predicate ByEnd(end: End, o: Outcome) {
    match end
    case Completed => o == Outcome(Complete, FinalAnswerReturned, true, None)
    case BudgetCap => o == Outcome(Stopped, BudgetExhausted, false, None)
    case RejectedFinals => o == Outcome(Stopped, ConvergenceGuardTriggered, false, None)
    case RetryLimit => o == Outcome(Stopped, RetryLimitReached, true, None)
    case ConvergenceGuard => o == Outcome(Stopped, ConvergenceGuardTriggered, true, None)
    case _ => false
  }

  /** What is left of the status when an exception escapes: that of the end of the loop,
      or none if the loop itself raised. */
  predicate LeftAt(end: End, o: Outcome) {
    if end.Raised? then o.status == Active && o.reason == NoReason
    else ByEnd(end, o.(sent := end != BudgetCap && end != RejectedFinals, escape := None))
  }

  predicate EndsAs(end: End, closing: Option<Fault>, o: Outcome) {
    match FaultOf(end, closing)
    case None => ByEnd(end, o)
    case Some(fault) => ByFault(fault, o) && (o.escape.Some? ==> LeftAt(end, o))
  }

  /** The final status and reason of a run, and the status its one event carries. Only a
      completed run whose completion gate then stops or fails it differs from its event. */
  predicate FinalAs(end: End, closing: Option<Fault>, gate: Gate, status: Status, reason: StopReason, event: Status) {
    match FaultOf(end, closing)
    case Some(Cancelled) => status == Stopped == event && reason == UserCancelled
    case Some(CleanupFailed) => status == Failed == event && reason == StopReason.ProcessCleanupFailed
    case Some(Interrupted) =>
      status == event &&
      if end.Raised? then status == Failed && reason == RuntimeError
      else LeftAt(end, Outcome(status, reason, false, None))
    case Some(_) => status == Failed == event && reason == RuntimeError
    case None =>
      match end
      case Completed =>
        && event == Complete
        && (match gate
            case Passes => status == Complete && reason == FinalAnswerReturned
            case NeedsFix => status == Stopped && reason == CompletionGateFailed
            case Raises(Cancellation) => status == Stopped && reason == UserCancelled
            case Raises(Error) => status == Failed && reason == RuntimeError
            case Raises(Interrupt) => status == Complete && reason == FinalAnswerReturned)
      case BudgetCap => status == Stopped == event && reason == BudgetExhausted
      case RejectedFinals => status == Stopped == event && reason == ConvergenceGuardTriggered
      case RetryLimit => status == Stopped == event && reason == RetryLimitReached
      case ConvergenceGuard => status == Stopped == event && reason == ConvergenceGuardTriggered
      case _ => false
  }

  /** Whether an exception no handler catches leaves the run. */
  predicate Interrupts(end: End, opening: Opening, closing: Option<Fault>, gate: Gate) {
    if opening.Opens? then
      FaultOf(end, closing) == Some(Interrupted) ||
      (FaultOf(end, closing) == None && end == Completed && gate == Raises(Interrupt))
    else opening.escape == Interrupt
  }

  class Agent {
    var current: TaskState?
    var finished: seq<Finished>

    method EmitFinished(state: TaskState)
      modifies this`finished
      ensures finished == old(finished) + [Finished(state, state.status)]
    {
      finished := finished + [Finished(state, state.status)];
    }

    /** `AgentLoop.run`, over any run of the loop; `closing` is what fails between
        the final status and the event. */
    method RunLoopOnce(opening: Opening, closing: Option<Fault>, enabled: bool, cancelled: bool,
                       inputs: nat -> TurnInput) returns (escape: Option<Escape>)
      modifies this
      ensures opening.FailsBeforeState? ==>
              current == old(current) && finished == old(finished) && escape == Some(opening.escape)
      ensures !opening.FailsBeforeState? ==> current != null && fresh(current)
      ensures opening.FailsBeforeTry? ==>
                finished == old(finished) && !current.emitted && current.status == Active &&
                    escape == Some(opening.escape)
      ensures opening.Opens? ==>
                && EndsAs(Run(enabled, cancelled, inputs).state.end, closing,
                          Outcome(current.status, current.stopReason, current.emitted, escape))
                && finished == old(finished) + (if current.emitted then [Finished(current, current.status)] else [])
    {
      hide Run, EndsAs;
      if opening.FailsBeforeState? {
        return Some(opening.escape);
      }
      current := new TaskState();
      if opening.FailsBeforeTry? {
        return Some(opening.escape);
      }
      var s: Loop, log: seq<Turn>;
      s, log := RunTheLoop(enabled, cancelled, inputs);
      LoopIsOver(enabled, cancelled, inputs);
      escape := Conclude(s.end, closing);
    }

    /** The final status, what may fail behind it, the handlers and the event. */
    method Conclude(end: End, closing: Option<Fault>) returns (escape: Option<Escape>)
      requires current != null && !current.emitted && current.status == Active && current.stopReason == NoReason
      requires end != Running && end != Left
      modifies this`finished, current
      ensures EndsAs(end, closing, Outcome(current.status, current.stopReason, current.emitted, escape))
      ensures finished == old(finished) + (if current.emitted then [Finished(current, current.status)] else [])
    {
      escape := None;
      match end {
        case Completed => current.FinishSuccess();
        case BudgetCap => current.Stop(BudgetExhausted, Stopped);
        case RejectedFinals => current.Stop(ConvergenceGuardTriggered, Stopped);
        case RetryLimit => current.Stop(RetryLimitReached, Stopped);
        case ConvergenceGuard => current.Stop(ConvergenceGuardTriggered, Stopped);
        case _ =>
      }
      var fault := if end.Raised? then Some(end.fault) else closing;
      match fault {
        case None =>
          if end != BudgetCap && end != RejectedFinals {
            current.emitted := true;
            EmitFinished(current);
          }
        case Some(Cancelled) =>
          current.Stop(UserCancelled, Stopped);
          current.emitted := true;
          EmitFinished(current);
        case Some(CleanupFailed) =>
          current.Stop(StopReason.ProcessCleanupFailed, Failed);
          current.emitted := true;
          EmitFinished(current);
        case Some(Interrupted) => escape := Some(Interrupt);
        case Some(_) => escape := Some(Error);
      }
    }

    /** `finalize_run`: the event is only sent if the run has not sent it yet. */
    method Finalize(state: TaskState)
      modifies this`finished, state`emitted
      ensures state.emitted
      ensures finished == old(finished) + (if old(state.emitted) then [] else [Finished(state, state.status)])
    {
      if !state.emitted {
        EmitFinished(state);
        state.emitted := true;
      }
    }

    /** `run_native` from its try block on. `setup` is what escapes before it has
        created its provisional TaskState. */
    method RunNative(setup: Option<Escape>, opening: Opening, closing: Option<Fault>, gate: Gate,
                     enabled: bool, cancelled: bool, inputs: nat -> TurnInput) returns (escape: Option<Escape>)
      modifies this, current
      ensures setup.None? ==> current != null && fresh(current) && current.status != Active && current.emitted
      ensures setup.None? ==>
                |finished| == |old(finished)| + 1 && finished[..|old(finished)|] == old(finished) &&
                finished[|old(finished)|].state == current
      ensures setup.None? && opening.Opens? ==>
                FinalAs(Run(enabled, cancelled, inputs).state.end, closing, gate,
                        current.status, current.stopReason, finished[|old(finished)|].status)
      ensures setup.None? && !opening.Opens? ==>
                finished[|old(finished)|].status == current.status &&
                if opening.escape == Cancellation then current.status == Stopped && current.stopReason == UserCancelled
                else current.status == Failed && current.stopReason == RuntimeError
      ensures setup.Some? ==>
                current == old(current) &&
                finished == old(finished) +
                  (if current == null || old(current.emitted) then [] else [Finished(current, current.status)])
      ensures setup.Some? && current != null ==> current.emitted && current.status != Active
      ensures setup == Some(Error) && old(current) != null ==>
              current.status == Failed && current.stopReason == RuntimeError
      ensures escape.Some? ==> escape == Some(Interrupt)
      ensures escape.Some? <==>
                setup == Some(Interrupt) ||
                (setup.None? && Interrupts(Run(enabled, cancelled, inputs).state.end, opening, closing, gate))
    {
      hide Run;
      escape := setup;
      if escape.None? {
        current := new TaskState();
        escape := RunLoopOnce(opening, closing, enabled, cancelled, inputs);
      }
      if escape.None? && current.status == Complete {
        match gate {
          case Passes =>
          case NeedsFix => current.Stop(CompletionGateFailed, Stopped);
          case Raises(e) => escape := Some(e);
        }
      }
      escape := Settle(escape);
    }

    /** The handlers and the finally block of `run_native`. */
    method Settle(raised: Option<Escape>) returns (escape: Option<Escape>)
      modifies this`finished, current
      ensures escape == if raised == Some(Interrupt) then raised else None
      ensures current == null ==> finished == old(finished)
      ensures current != null ==>
                && current.emitted
                && current.status == (match raised
                                      case Some(Cancellation) => Stopped
                                      case Some(Error) => Failed
                                      case _ => if old(current.status) == Active then Failed else old(current.status))
                && current.stopReason ==
                   (match raised
                    case Some(Cancellation) => UserCancelled
                    case Some(Error) => RuntimeError
                    case _ => if old(current.status) == Active then RuntimeError else old(current.stopReason))
                && finished == old(finished) +
                    (if old(current.emitted) then [] else [Finished(current, current.status)])
    {
      escape := raised;
      match raised {
        case None =>
        case Some(Cancellation) =>
          if current != null {
            current.Stop(UserCancelled, Stopped);
          }
          escape := None;
        case Some(Error) =>
          if current != null {
            current.Stop(RuntimeError, Failed);
          }
          escape := None;
        case Some(Interrupt) =>
      }
      if current != null && current.status == Active {
        current.Stop(RuntimeError, Failed);
      }
      if current != null {
        Finalize(current);
      }
    }
  }

  lemma {:induction false} LoopIsOver(enabled: bool, cancelled: bool, inputs: nat -> TurnInput)
    ensures var end := Run(enabled, cancelled, inputs).state.end; end != Running && end != Left
  {
    hide After;
  }
}
