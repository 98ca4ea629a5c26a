/** The control loop of pico/agent_loop.py over model turns. The model, the tools,
    the reviewer, the clock and every exception are inputs, one `TurnInput` a turn. */
module RunLoop {
  import opened Options

  const MAX_CONSECUTIVE_TALKS := 2
  const MAX_PROTOCOL_REPAIRS := 1
  const MAX_ATTEMPTS_SAFETY := 500
  const STAGNATION_TOLERANCE := 3
  const REVIEW_POLL_ACTIONS := 6
  const REVIEW_BATTLE_MAX_ROUNDS := 2

  datatype Verdict = Finalize | Continue | Redirect

  datatype Decision = Decision(verdict: Verdict, reason: string, failed: bool)

  const READ_ONLY_REASON := "read_only_no_result_review"
  const DISABLED := Decision(Continue, "review_subagent_disabled", false)

  /** Reasons that let a final answer pass without a second confirmation. */
  predicate Reserved(reason: string) {
    reason == "review_subagent_disabled" || reason == "review_skipped_read_only" || reason == READ_ONLY_REASON
  }

  /** `Interrupted` is what no handler catches; `UnboundTools` is Python's
      UnboundLocalError on the name `tools`. */
  datatype Fault = Cancelled | CleanupFailed | Failure | Interrupted | UnboundTools

  /** A parsed model reply with what its tools turn out to do: `repeated` is the
      commit's judgement, `allBad` that no call of the batch was new and ok. */
  datatype Reply =
    | Talk
    | OneTool(repeated: bool, writes: bool)
    | Batch(size: nat, allBad: bool, writes: bool)
    | Retry
    | Final

  datatype TurnInput = TurnInput(
    topFault: Option<Fault>,
    capped: bool,
    modelFault: Option<Fault>,
    reply: Reply,
    plainText: bool,
    toolFault: Option<Fault>,
    finalFault: Option<Fault>,
    reviewFault: Option<Fault>,
    review: Decision)

  datatype Judgement = NotJudged | Good | Bad

  datatype Kind =
    | Faulted | Capped | ConvergedOnRejections
    | Talked | RanTools | EmptyBatch | Repaired | GaveUp
    | FinalizationRefused | FinalRejected | FinalHeld | Accepted

  /** One iteration: the judgement of the turn before it, whether the model was
      called, how many tools it chose ran, the final-stage review, and what it was. */
  datatype Turn = Turn(judged: Judgement, called: bool, ran: nat, review: Option<Decision>, kind: Kind)

  datatype End = Running | Left | Completed | BudgetCap | RejectedFinals | RetryLimit | ConvergenceGuard
    | Raised(fault: Fault)

  /** What the last turn did, for the next one to judge. */
  datatype Signals = Signals(toolCalled: bool, toolRepeated: bool, talked: bool, finalRejected: bool)

  const NO_SIGNALS := Signals(false, false, false, false)

  /** Stagnation detection: the audit of turns and the run of rejected finals. */
  datatype Guard = Guard(started: bool, signals: Signals, finalRejections: nat, audit: seq<bool>)

  /** The review handshake and the periodic review. */
  datatype Review = Review(hasWrite: bool, awaiting: bool, rounds: nat, actions: nat, interval: nat,
    trackingRejects: nat)

  datatype Protocol = Protocol(talks: nat, repairs: nat, failed: bool, toolsBound: bool)

  datatype Loop = Loop(
    attempts: nat,
    finalizationAttempted: bool,
    guard: Guard,
    review: Review,
    protocol: Protocol,
    end: End)

  const START := Loop(0, false, Guard(false, NO_SIGNALS, 0, []), Review(false, false, 0, 0, REVIEW_POLL_ACTIONS, 0),
                      Protocol(0, 0, false, false), Running)

  predicate IsBad(s: Signals) {
    (!s.finalRejected && !s.toolCalled && !s.talked) || (s.toolCalled && s.toolRepeated)
  }

  predicate Stagnant(audit: seq<bool>) {
    |audit| >= STAGNATION_TOLERANCE && forall i :: |audit| - STAGNATION_TOLERANCE <= i < |audit| ==> audit[i]
  }

  // ----- the top of the loop -----

  function Audited(g: Guard): seq<bool> {
    if g.started then g.audit + [IsBad(g.signals)] else g.audit
  }

  function Rejections(g: Guard): nat {
    if g.signals.finalRejected && !g.signals.toolCalled then g.finalRejections + 1 else 0
  }

  /** The turn before is judged; its signals are reset. */
  function Judged(g: Guard): Guard {
    Guard(true, NO_SIGNALS, Rejections(g), Audited(g))
  }

  function JudgementOf(g: Guard): Judgement {
    if !g.started then NotJudged else if IsBad(g.signals) then Bad else Good
  }

  predicate FinalizationOnly(g: Guard) {
    g.started && Stagnant(Audited(g))
  }

  // ----- the answer to one reply -----

  /** The state after an iteration and the record of it. */
  datatype Step = Step(state: Loop, turn: Turn)

  function Signal(s: Loop, signals: Signals): Loop {
    s.(guard := s.guard.(signals := signals))
  }

  function Fails(s: Loop, fault: Fault, turn: Turn): Step {
    Step(s.(end := Raised(fault)), turn.(kind := Faulted))
  }

  /** The tool calls of a turn, and what they mean for the handshake. */
  function Acted(r: Review, size: nat, writes: bool): Review {
    r.(awaiting := false, actions := r.actions + size, hasWrite := r.hasWrite || writes)
  }

  function HalvedInterval(interval: nat): nat {
    if interval / 2 < 2 then 2 else interval / 2
  }

  /** The review state after a poll. */
  function Polled(r: Review, d: Decision): Review {
    if d.verdict == Redirect then r.(actions := 0, interval := HalvedInterval(r.interval),
        trackingRejects := r.trackingRejects + 1)
    else r.(actions := 0, interval := REVIEW_POLL_ACTIONS, trackingRejects := 0)
  }

  function Deciding(enabled: bool, input: TurnInput): Decision {
    if enabled then input.review else DISABLED
  }

  /** `size` tools were run, with the given signals. */
  function AfterTools(enabled: bool, s: Loop, input: TurnInput, judged: Judgement, size: nat, repeated: bool,
      writes: bool): Step {
    var turn := Turn(judged, true, size, None, RanTools);
    if input.toolFault.Some? then Fails(s, input.toolFault.value, turn)
    else
      var acted := Acted(s.review, size, writes);
      var t := Signal(s, Signals(true, repeated, false, false)).(review := acted);
      if acted.actions < acted.interval then Step(t, turn)
      else if enabled && input.reviewFault.Some? then Fails(t, input.reviewFault.value, turn)
      else
        var polled := Polled(acted, Deciding(enabled, input));
        if polled.trackingRejects >= 2 then Step(t.(review := polled, finalizationAttempted := true, end := Left), turn)
        else Step(t.(review := polled), turn)
  }

  /** Review rounds after a review of a final answer. */
  function Rounds(r: Review, d: Decision): nat {
    if d.reason != READ_ONLY_REASON then r.rounds + 1 else r.rounds
  }

  predicate Accepts(r: Review, d: Decision) {
    d.verdict != Redirect && (r.awaiting || Reserved(d.reason) || d.failed || Rounds(r, d) >= REVIEW_BATTLE_MAX_ROUNDS)
  }

  /** A final answer: rejected, held for confirmation, or accepted. */
  function AtFinal(enabled: bool, s: Loop, input: TurnInput, judged: Judgement): Step {
    var turn := Turn(judged, true, 0, None, Accepted);
    if input.finalFault.Some? then Fails(s, input.finalFault.value, turn)
    else if !s.review.hasWrite then Step(s.(review := s.review.(awaiting := false), end := Completed), turn)
    else if enabled && input.reviewFault.Some? then Fails(s, input.reviewFault.value, turn)
    else
      var d := Deciding(enabled, input);
      var settled := s.review.(rounds := Rounds(s.review, d), awaiting := false);
      if d.verdict == Redirect then
        Step(Signal(s, s.guard.signals.(finalRejected := true)).(review := settled),
            Turn(judged, true, 0, Some(d), FinalRejected))
      else if Accepts(s.review, d) then
        Step(s.(review := settled, end := Completed), Turn(judged, true, 0, Some(d), Accepted))
      else Step(s.(review := settled.(awaiting := true)), Turn(judged, true, 0, Some(d), FinalHeld))
  }

  function AfterTalk(s: Loop, judged: Judgement): Step {
    var talks := if s.protocol.talks >= MAX_CONSECUTIVE_TALKS then s.protocol.talks else s.protocol.talks + 1;
    Step(Signal(s, s.guard.signals.(talked := true)).(protocol := s.protocol.(talks := talks)),
        Turn(judged, true, 0, None, Talked))
  }

  function AfterRetry(s: Loop, judged: Judgement): Step {
    if s.protocol.repairs < MAX_PROTOCOL_REPAIRS then
      Step(s.(protocol := s.protocol.(talks := 0, repairs := s.protocol.repairs + 1)),
          Turn(judged, true, 0, None, Repaired))
    else Step(s.(protocol := s.protocol.(talks := 0, failed := true), end := Left), Turn(judged, true, 0, None, GaveUp))
  }

  function AfterBatch(enabled: bool, s: Loop, input: TurnInput, judged: Judgement, size: nat, allBad: bool,
      writes: bool): Step {
    if s.review.awaiting && !s.protocol.toolsBound then Fails(s, UnboundTools, Turn(judged, true, 0, None, Faulted))
    else
      var t := s.(protocol := s.protocol.(talks := 0, toolsBound := true));
      if size == 0 then Step(t.(review := s.review.(awaiting := false)), Turn(judged, true, 0, None, EmptyBatch))
      else AfterTools(enabled, t, input, judged, size, allBad, writes)
  }

  function Responded(enabled: bool, s: Loop, input: TurnInput, judged: Judgement, reply: Reply): Step {
    match reply
    case Talk => AfterTalk(s, judged)
    case OneTool(repeated, writes) =>
      AfterTools(enabled, s.(protocol := s.protocol.(talks := 0)), input, judged, 1, repeated, writes)
    case Batch(size, allBad, writes) => AfterBatch(enabled, s, input, judged, size, allBad, writes)
    case Retry => AfterRetry(s, judged)
    case Final => AtFinal(enabled, s, input, judged)
  }

  /** A turn after the checks at the top of the loop. */
  function Called(enabled: bool, s: Loop, input: TurnInput, judged: Judgement, finalizationOnly: bool): Step {
    if input.modelFault.Some? then Fails(s, input.modelFault.value, Turn(judged, true, 0, None, Faulted))
    else if finalizationOnly && input.reply != Final then
      if !s.review.hasWrite && input.plainText then AtFinal(enabled, s, input, judged)
      else Step(s.(end := Left), Turn(judged, true, 0, None, FinalizationRefused))
    else Responded(enabled, s, input, judged, input.reply)
  }

  /** The state in which the model is called. */
  function Topped(s: Loop): Loop {
    s.(guard := Judged(s.guard), attempts := s.attempts + 1,
       finalizationAttempted := s.finalizationAttempted || FinalizationOnly(s.guard))
  }

  /** One iteration of the loop. */
  function Next(enabled: bool, s: Loop, input: TurnInput): Step {
    if input.topFault.Some? then Fails(s, input.topFault.value, Turn(NotJudged, false, 0, None, Faulted))
    else if input.capped then Step(s.(end := BudgetCap), Turn(NotJudged, false, 0, None, Capped))
    else if Rejections(s.guard) >= 2 then
      Step(Topped(s).(attempts := s.attempts, end := RejectedFinals),
          Turn(JudgementOf(s.guard), false, 0, None, ConvergedOnRejections))
    else Called(enabled, Topped(s), input, JudgementOf(s.guard), FinalizationOnly(s.guard))
  }

  predicate Goes(s: Loop) {
    s.end == Running && s.attempts < MAX_ATTEMPTS_SAFETY && !s.finalizationAttempted
  }

  datatype History = History(state: Loop, log: seq<Turn>)

  /** The state and the record after k iterations, or fewer if the loop ends. */
  function After(enabled: bool, inputs: nat -> TurnInput, k: nat): History {
    if k == 0 then History(START, [])
    else
      var h := After(enabled, inputs, k - 1);
      if !Goes(h.state) then h
      else
        var step := Next(enabled, h.state, inputs(k - 1));
        History(step.state, h.log + [step.turn])
  }

  /** What follows the loop: an exit that has not returned is a retry limit or a
      convergence stop. */
  function Ended(s: Loop): Loop {
    if s.end != Running && s.end != Left then s
    else s.(end := if s.protocol.failed || s.attempts >= MAX_ATTEMPTS_SAFETY then RetryLimit else ConvergenceGuard)
  }

  /** `_run_loop` from boundary 1 on: 500 iterations are always enough. */
  function Run(enabled: bool, cancelled: bool, inputs: nat -> TurnInput): History {
    if cancelled then History(START.(end := Raised(Cancelled)), [])
    else
      var h := After(enabled, inputs, MAX_ATTEMPTS_SAFETY);
      History(Ended(h.state), h.log)
  }

  // ----- 500 iterations are enough -----

  lemma {:induction false} ToolsCount(enabled: bool, s: Loop, input: TurnInput, judged: Judgement, size: nat,
      repeated: bool, writes: bool)
    ensures var step := AfterTools(enabled, s, input, judged, size, repeated, writes);
            step.state.attempts == s.attempts && step.turn.called && step.turn.judged == judged
  {
    hide Polled, Acted, Deciding;
  }

  lemma {:induction false} FinalCounts(enabled: bool, s: Loop, input: TurnInput, judged: Judgement)
    ensures var step := AtFinal(enabled, s, input, judged);
            step.state.attempts == s.attempts && step.turn.called && step.turn.judged == judged
  {
    hide Accepts, Deciding;
  }

  lemma {:induction false} RespondedCounts(enabled: bool, s: Loop, input: TurnInput, judged: Judgement, reply: Reply)
    ensures var step := Responded(enabled, s, input, judged, reply);
            step.state.attempts == s.attempts && step.turn.called && step.turn.judged == judged
  {
    hide AfterTools, AtFinal;
    var t := s.(protocol := s.protocol.(talks := 0));
    match reply
    case OneTool(repeated, writes) => ToolsCount(enabled, t, input, judged, 1, repeated, writes);
    case Batch(size, allBad, writes) => ToolsCount(enabled, t.(protocol := t.protocol.(toolsBound := true)), input,
        judged, size, allBad, writes);
    case Final => FinalCounts(enabled, s, input, judged);
    case _ =>
  }

  lemma {:induction false} CalledCounts(enabled: bool, s: Loop, input: TurnInput, judged: Judgement,
      finalizationOnly: bool)
    ensures var step := Called(enabled, s, input, judged, finalizationOnly);
            step.state.attempts == s.attempts && step.turn.called && step.turn.judged == judged
  {
    hide Responded, AtFinal;
    RespondedCounts(enabled, s, input, judged, input.reply);
    FinalCounts(enabled, s, input, judged);
  }

  lemma {:induction false} NextCounts(enabled: bool, s: Loop, input: TurnInput)
    ensures var step := Next(enabled, s, input);
            && step.state.attempts == (if step.turn.called then s.attempts + 1 else s.attempts)
            && (!step.turn.called ==> step.state.end != Running)
  {
    hide Called, Judged, FinalizationOnly;
    CalledCounts(enabled, Topped(s), input, JudgementOf(s.guard), FinalizationOnly(s.guard));
  }

  lemma {:induction false} AfterCounts(enabled: bool, inputs: nat -> TurnInput, k: nat)
    ensures var h := After(enabled, inputs, k);
            && |h.log| <= k
            && (Goes(h.state) ==> |h.log| == k)
            && (h.state.end == Running ==> h.state.attempts == |h.log|)
            && h.state.attempts <= |h.log|
  {
    hide Next;
    if k > 0 {
      AfterCounts(enabled, inputs, k - 1);
      NextCounts(enabled, After(enabled, inputs, k - 1).state, inputs(k - 1));
    }
  }

  lemma {:induction false} StoppedStays(enabled: bool, inputs: nat -> TurnInput, k: nat, n: nat)
    requires k <= n && !Goes(After(enabled, inputs, k).state)
    ensures After(enabled, inputs, n) == After(enabled, inputs, k)
    decreases n - k
  {
    hide Next;
    if k < n { StoppedStays(enabled, inputs, k, n - 1); }
  }

  // ----- the loop in its own form -----

  method RunTheLoop(enabled: bool, cancelled: bool, inputs: nat -> TurnInput) returns (s: Loop, log: seq<Turn>)
    ensures History(s, log) == Run(enabled, cancelled, inputs)
    ensures !cancelled ==> !Goes(After(enabled, inputs, MAX_ATTEMPTS_SAFETY).state)
  {
    hide Next, Ended, After;
    s, log := START, [];
    if cancelled {
      return s.(end := Raised(Cancelled)), log;
    }
    FirstHistory(enabled, inputs);
    while s.end == Running && s.attempts < MAX_ATTEMPTS_SAFETY && !s.finalizationAttempted
      invariant History(s, log) == After(enabled, inputs, |log|)
      invariant |log| <= MAX_ATTEMPTS_SAFETY && (Goes(s) ==> s.attempts == |log|)
      decreases MAX_ATTEMPTS_SAFETY - |log|
    {
      NextHistory(enabled, inputs, |log|);
      AfterCounts(enabled, inputs, |log| + 1);
      var turn: Turn;
      s, turn := OneTurn(enabled, s, inputs(|log|));
      log := log + [turn];
    }
    StoppedStays(enabled, inputs, |log|, MAX_ATTEMPTS_SAFETY);
    s := Leave(s);
  }

  lemma {:induction false} FirstHistory(enabled: bool, inputs: nat -> TurnInput)
    ensures After(enabled, inputs, 0) == History(START, [])
  {
  }

  lemma {:induction false} NextHistory(enabled: bool, inputs: nat -> TurnInput, k: nat)
    requires Goes(After(enabled, inputs, k).state)
    ensures var h := After(enabled, inputs, k);
            var step := Next(enabled, h.state, inputs(k));
            After(enabled, inputs, k + 1) == History(step.state, h.log + [step.turn])
  {
    hide Next;
  }

  method Leave(s0: Loop) returns (s: Loop)
    ensures s == Ended(s0)
  {
    s := s0;
    if s.end == Running || s.end == Left {
      if s.protocol.failed || s.attempts >= MAX_ATTEMPTS_SAFETY {
        s := s.(end := RetryLimit);
      } else {
        s := s.(end := ConvergenceGuard);
      }
    }
  }

  /** The body of the while loop up to the model's reply. */
  method OneTurn(enabled: bool, s0: Loop, input: TurnInput) returns (s: Loop, turn: Turn)
    ensures Step(s, turn) == Next(enabled, s0, input)
  {
    hide AtFinal, Responded;
    s, turn := s0, Turn(NotJudged, false, 0, None, Faulted);
    if input.topFault.Some? {
      s := s.(end := Raised(input.topFault.value));
      return;
    }
    if input.capped {
      return s.(end := BudgetCap), turn.(kind := Capped);
    }
    var guard := s.guard;
    var finalizationOnly, finalizationAttempted := false, s.finalizationAttempted;
    if guard.started {
      var bad := IsBad(guard.signals);
      turn := turn.(judged := if bad then Bad else Good);
      guard := guard.(audit := guard.audit + [bad]);
      if Stagnant(guard.audit) {
        finalizationOnly, finalizationAttempted := true, true;
      }
    }
    var rejections := 0;
    if guard.signals.finalRejected && !guard.signals.toolCalled {
      rejections := guard.finalRejections + 1;
    }
    guard := Guard(true, NO_SIGNALS, rejections, guard.audit);
    s := s.(guard := guard, finalizationAttempted := finalizationAttempted);
    if rejections >= 2 {
      return s.(end := RejectedFinals), turn.(kind := ConvergedOnRejections);
    }
    s := s.(attempts := s.attempts + 1);
    turn := turn.(called := true);
    if input.modelFault.Some? {
      s := s.(end := Raised(input.modelFault.value));
      return;
    }
    var reply := input.reply;
    if finalizationOnly && reply != Final {
      if !s.review.hasWrite && input.plainText {
        s, turn := TakeFinal(enabled, s, input, turn.judged);
        return;
      }
      return s.(end := Left), turn.(kind := FinalizationRefused);
    }
    s, turn := Respond(enabled, s, input, turn.judged, reply);
  }

  /** The branches on the kind of the reply. */
  method Respond(enabled: bool, s0: Loop, input: TurnInput, judged: Judgement, reply: Reply)
      returns (s: Loop, turn: Turn)
    ensures Step(s, turn) == Responded(enabled, s0, input, judged, reply)
  {
    hide AtFinal, AfterTools;
    s, turn := s0, Turn(judged, true, 0, None, Faulted);
    var protocol := s.protocol;
    match reply {
      case Talk =>
        s := s.(guard := s.guard.(signals := s.guard.signals.(talked := true)));
        if protocol.talks < MAX_CONSECUTIVE_TALKS {
          s := s.(protocol := protocol.(talks := protocol.talks + 1));
        }
        turn := turn.(kind := Talked);
      case OneTool(repeated, writes) =>
        s := s.(protocol := protocol.(talks := 0));
        s, turn := RunTools(enabled, s, input, judged, 1, repeated, writes);
      case Batch(size, allBad, writes) =>
        if s.review.awaiting && !protocol.toolsBound {
          s := s.(end := Raised(UnboundTools));
          return;
        }
        s := s.(protocol := protocol.(talks := 0, toolsBound := true));
        if size == 0 {
          return s.(review := s.review.(awaiting := false)), turn.(kind := EmptyBatch);
        }
        s, turn := RunTools(enabled, s, input, judged, size, allBad, writes);
      case Retry =>
        protocol := protocol.(talks := 0);
        if protocol.repairs < MAX_PROTOCOL_REPAIRS {
          return s.(protocol := protocol.(repairs := protocol.repairs + 1)), turn.(kind := Repaired);
        }
        return s.(protocol := protocol.(failed := true), end := Left), turn.(kind := GaveUp);
      case Final =>
        s, turn := TakeFinal(enabled, s, input, judged);
    }
  }

  /** A tool or tool_batch branch from the execution of the calls on. */
  method RunTools(enabled: bool, s0: Loop, input: TurnInput, judged: Judgement, size: nat, repeated: bool, writes: bool)
    returns (s: Loop, turn: Turn)
    ensures Step(s, turn) == AfterTools(enabled, s0, input, judged, size, repeated, writes)
  {
    s, turn := s0, Turn(judged, true, size, None, RanTools);
    if input.toolFault.Some? {
      return s.(end := Raised(input.toolFault.value)), turn.(kind := Faulted);
    }
    var review := s.review.(awaiting := false, actions := s.review.actions + size);
    if writes {
      review := review.(hasWrite := true);
    }
    s := s.(guard := s.guard.(signals := Signals(true, repeated, false, false)), review := review);
    if review.actions >= review.interval {
      if enabled && input.reviewFault.Some? {
        return s.(end := Raised(input.reviewFault.value)), turn.(kind := Faulted);
      }
      var decision := if enabled then input.review else DISABLED;
      review := review.(actions := 0);
      if decision.verdict == Redirect {
        review := review.(interval := HalvedInterval(review.interval), trackingRejects := review.trackingRejects + 1);
        if review.trackingRejects >= 2 {
          s := s.(finalizationAttempted := true, end := Left);
        }
      } else {
        review := review.(interval := REVIEW_POLL_ACTIONS, trackingRejects := 0);
      }
      s := s.(review := review);
    }
  }

  /** A final answer, from boundary 8 on. */
  method TakeFinal(enabled: bool, s0: Loop, input: TurnInput, judged: Judgement) returns (s: Loop, turn: Turn)
    ensures Step(s, turn) == AtFinal(enabled, s0, input, judged)
  {
    s, turn := s0, Turn(judged, true, 0, None, Faulted);
    if input.finalFault.Some? {
      s := s.(end := Raised(input.finalFault.value));
      return;
    }
    var review := s.review;
    var decision := Decision(Finalize, READ_ONLY_REASON, false);
    if review.hasWrite {
      if enabled && input.reviewFault.Some? {
        s := s.(end := Raised(input.reviewFault.value));
        return;
      }
      decision := if enabled then input.review else DISABLED;
      turn := turn.(review := Some(decision));
    }
    if decision.reason != READ_ONLY_REASON {
      review := review.(rounds := review.rounds + 1);
    }
    if decision.verdict == Redirect {
      s := s.(guard := s.guard.(signals := s.guard.signals.(finalRejected := true)),
          review := review.(awaiting := false));
      return s, turn.(kind := FinalRejected);
    }
    if review.awaiting {
      review := review.(awaiting := false);
    } else if Reserved(decision.reason) || decision.failed {
      review := review.(awaiting := false);
    } else if review.rounds >= REVIEW_BATTLE_MAX_ROUNDS {
      review := review.(awaiting := false);
    } else {
      return s.(review := review.(awaiting := true)), turn.(kind := FinalHeld);
    }
    return s.(review := review, end := Completed), turn.(kind := Accepted);
  }
}
