/** What every run of the control loop keeps, whatever the model, the tools and the
    reviewer do: guaranteed stopping and the review handshake. */
module RunLoopSafety {
  import opened Options
  import opened RunLoop

  /** The reply's tools changed the workspace. */
  predicate Wrote(reply: Reply) {
    (reply.OneTool? || reply.Batch?) && reply.writes
  }

  // ----- one turn, concern by concern -----

  /** The guard only changes in its signals; a final rejection is signalled. */
  predicate GuardKept(s: Loop, step: Step) {
    && step.state.guard == s.guard.(signals := step.state.guard.signals)
    && (s.finalizationAttempted ==> step.state.finalizationAttempted)
    && (step.state.end == Running && s.guard.signals == NO_SIGNALS ==>
          && (step.state.guard.signals.finalRejected <==> step.turn.kind == FinalRejected)
          && (step.state.guard.signals.finalRejected ==> !step.state.guard.signals.toolCalled))
  }

  lemma {:induction false} ToolsKeepGuard(enabled: bool, s: Loop, input: TurnInput, judged: Judgement, size: nat,
      repeated: bool, writes: bool)
    ensures GuardKept(s, AfterTools(enabled, s, input, judged, size, repeated, writes))
  {
    hide Polled, Acted, Deciding;
  }

  lemma {:induction false} FinalKeepsGuard(enabled: bool, s: Loop, input: TurnInput, judged: Judgement)
    ensures GuardKept(s, AtFinal(enabled, s, input, judged))
    ensures AtFinal(enabled, s, input, judged).turn.ran == 0
  {
    hide Accepts, Deciding;
  }

  lemma {:induction false} GuardAcross(s: Loop, protocol: Protocol, step: Step)
    requires GuardKept(s.(protocol := protocol), step)
    ensures GuardKept(s, step)
  {
  }

  lemma {:induction false} OthersKeepGuard(s: Loop, judged: Judgement, end: End, kind: Kind)
    ensures GuardKept(s, AfterTalk(s, judged)) && GuardKept(s, AfterRetry(s, judged))
    ensures kind != FinalRejected ==> GuardKept(s, Step(s.(end := end), Turn(judged, true, 0, None, kind)))
  {
  }

  lemma {:induction false} BatchKeepsGuard(enabled: bool, s: Loop, input: TurnInput, judged: Judgement, size: nat,
      allBad: bool, writes: bool)
    ensures GuardKept(s, AfterBatch(enabled, s, input, judged, size, allBad, writes))
  {
    hide AfterTools;
    var p := s.protocol.(talks := 0, toolsBound := true);
    ToolsKeepGuard(enabled, s.(protocol := p), input, judged, size, allBad, writes);
  }

  lemma {:induction false} RespondedKeepsGuard(enabled: bool, s: Loop, input: TurnInput, judged: Judgement)
    ensures GuardKept(s, Responded(enabled, s, input, judged, input.reply))
  {
    hide AfterTools, AtFinal, AfterTalk, AfterRetry, AfterBatch, GuardKept;
    match input.reply
    case OneTool(repeated, writes) =>
      var p := s.protocol.(talks := 0);
      ToolsKeepGuard(enabled, s.(protocol := p), input, judged, 1, repeated, writes);
      GuardAcross(s, p, AfterTools(enabled, s.(protocol := p), input, judged, 1, repeated, writes));
    case Batch(size, allBad, writes) => BatchKeepsGuard(enabled, s, input, judged, size, allBad, writes);
    case Final => FinalKeepsGuard(enabled, s, input, judged);
    case _ => OthersKeepGuard(s, judged, Running, Talked);
  }

  lemma {:induction false} TurnKeepsGuard(enabled: bool, s: Loop, input: TurnInput, judged: Judgement,
      finalizationOnly: bool)
    ensures var step := Called(enabled, s, input, judged, finalizationOnly);
            GuardKept(s, step) && (finalizationOnly ==> step.turn.ran == 0)
  {
    hide AfterTools, AtFinal, AfterTalk, AfterRetry, AfterBatch, GuardKept;
    FinalKeepsGuard(enabled, s, input, judged);
    RespondedKeepsGuard(enabled, s, input, judged);
    OthersKeepGuard(s, judged, Left, FinalizationRefused);
    if input.modelFault.Some? { OthersKeepGuard(s, judged, Raised(input.modelFault.value), Faulted); }
  }

  /** What a turn does to the handshake. */
  predicate ReviewKept(s: Loop, input: TurnInput, step: Step) {
    var r, r' := s.review, step.state.review;
    && (step.state.end == Completed <==> step.turn.kind == Accepted)
    && (step.turn.review == None ==> r'.rounds == r.rounds)
    && (step.turn.review.Some? ==>
          && r.hasWrite && r.rounds <= r'.rounds <= r.rounds + 1
          && (step.turn.kind == Accepted ==> Accepts(r, step.turn.review.value)))
    && (step.turn.kind == FinalRejected || (step.turn.kind == Accepted && r.hasWrite) ==> step.turn.review.Some?)
    && (step.state.end == Running ==>
          && (r'.hasWrite <==> r.hasWrite || (step.turn.kind == RanTools && Wrote(input.reply)))
          && (r'.awaiting <==>
                step.turn.kind == FinalHeld || (r.awaiting && (step.turn.kind == Talked || step.turn.kind == Repaired)))
          && (step.turn.kind == FinalHeld ==> step.turn.review.Some? && r'.rounds == r.rounds + 1 && r.hasWrite))
  }

  lemma {:induction false} ToolsKeepReview(enabled: bool, s: Loop, input: TurnInput, judged: Judgement, size: nat,
      repeated: bool, writes: bool)
    requires Wrote(input.reply) == writes && s.end == Running
    ensures ReviewKept(s, input, AfterTools(enabled, s, input, judged, size, repeated, writes))
  {
    hide Deciding, HalvedInterval;
  }

  lemma {:induction false} FinalKeepsReview(enabled: bool, s: Loop, input: TurnInput, judged: Judgement)
    requires s.end == Running
    ensures ReviewKept(s, input, AtFinal(enabled, s, input, judged))
  {
    hide Deciding;
  }

  lemma {:induction false} KeptAcrossProtocol(s: Loop, protocol: Protocol, input: TurnInput, step: Step)
    requires ReviewKept(s.(protocol := protocol), input, step)
    ensures ReviewKept(s, input, step)
  {
    hide Accepts;
  }

  lemma {:induction false} OthersKeepReview(s: Loop, input: TurnInput, judged: Judgement, end: End, kind: Kind)
    requires s.end == Running
    ensures ReviewKept(s, input, AfterTalk(s, judged)) && ReviewKept(s, input, AfterRetry(s, judged))
    ensures kind != Accepted && kind != FinalRejected && end != Running && end != Completed ==>
              ReviewKept(s, input, Step(s.(end := end), Turn(judged, true, 0, None, kind)))
  {
    hide Accepts;
  }

  lemma {:induction false} BatchKeepsReview(enabled: bool, s: Loop, input: TurnInput, judged: Judgement, size: nat,
      allBad: bool, writes: bool)
    requires Wrote(input.reply) == writes && s.end == Running
    ensures ReviewKept(s, input, AfterBatch(enabled, s, input, judged, size, allBad, writes))
  {
    hide AfterTools, Accepts;
    var p := s.protocol.(talks := 0, toolsBound := true);
    ToolsKeepReview(enabled, s.(protocol := p), input, judged, size, allBad, writes);
  }

  lemma {:induction false} RespondedKeepsReview(enabled: bool, s: Loop, input: TurnInput, judged: Judgement)
    requires s.end == Running
    ensures ReviewKept(s, input, Responded(enabled, s, input, judged, input.reply))
  {
    hide AfterTools, AtFinal, AfterTalk, AfterRetry, AfterBatch, ReviewKept;
    match input.reply
    case OneTool(repeated, writes) =>
      var p := s.protocol.(talks := 0);
      ToolsKeepReview(enabled, s.(protocol := p), input, judged, 1, repeated, writes);
      KeptAcrossProtocol(s, p, input, AfterTools(enabled, s.(protocol := p), input, judged, 1, repeated, writes));
    case Batch(size, allBad, writes) => BatchKeepsReview(enabled, s, input, judged, size, allBad, writes);
    case Final => FinalKeepsReview(enabled, s, input, judged);
    case _ => OthersKeepReview(s, input, judged, Left, Talked);
  }

  lemma {:induction false} TurnKeepsReview(enabled: bool, s: Loop, input: TurnInput, judged: Judgement,
      finalizationOnly: bool)
    requires s.end == Running
    ensures ReviewKept(s, input, Called(enabled, s, input, judged, finalizationOnly))
  {
    hide AfterTools, AtFinal, AfterTalk, AfterRetry, AfterBatch, ReviewKept;
    FinalKeepsReview(enabled, s, input, judged);
    RespondedKeepsReview(enabled, s, input, judged);
    OthersKeepReview(s, input, judged, Left, FinalizationRefused);
    if input.modelFault.Some? { OthersKeepReview(s, input, judged, Raised(input.modelFault.value), Faulted); }
  }

  /** What a turn does to the protocol state, and when `tools` is unbound. */
  predicate ProtocolKept(s: Loop, input: TurnInput, step: Step) {
    && step.state.protocol.repairs ==
       (if step.turn.kind == Repaired then s.protocol.repairs + 1 else s.protocol.repairs)
    && (step.turn.kind == Repaired ==> s.protocol.repairs < MAX_PROTOCOL_REPAIRS)
    && (step.state.end == Running ==> (step.state.protocol.toolsBound <==> s.protocol.toolsBound || input.reply.Batch?))
  }

  lemma {:induction false} ToolsKeepProtocol(enabled: bool, s: Loop, input: TurnInput, judged: Judgement, size: nat,
      repeated: bool, writes: bool)
    ensures var step := AfterTools(enabled, s, input, judged, size, repeated, writes);
            step.state.protocol == s.protocol && step.turn.kind != Repaired
  {
    hide Polled, Acted, Deciding;
  }

  lemma {:induction false} FinalKeepsProtocol(enabled: bool, s: Loop, input: TurnInput, judged: Judgement)
    ensures var step := AtFinal(enabled, s, input, judged);
            && step.state.protocol == s.protocol && step.turn.kind != Repaired
            && (step.state.end == Running ==> s.review.hasWrite || s.end != Running)
  {
    hide Accepts, Deciding;
  }

  lemma {:induction false} OthersKeepProtocol(s: Loop, input: TurnInput, judged: Judgement, end: End, kind: Kind)
    requires s.end == Running
    ensures !input.reply.Batch? ==>
            ProtocolKept(s, input, AfterTalk(s, judged)) && ProtocolKept(s, input, AfterRetry(s, judged))
    ensures kind != Repaired && end != Running ==>
            ProtocolKept(s, input, Step(s.(end := end), Turn(judged, true, 0, None, kind)))
  {
  }

  lemma {:induction false} BatchKeepsProtocol(enabled: bool, s: Loop, input: TurnInput, judged: Judgement, size: nat,
      allBad: bool, writes: bool)
    requires s.end == Running && input.reply.Batch?
    ensures ProtocolKept(s, input, AfterBatch(enabled, s, input, judged, size, allBad, writes))
  {
    hide AfterTools;
    ToolsKeepProtocol(enabled, s.(protocol := s.protocol.(talks := 0, toolsBound := true)), input, judged, size,
        allBad, writes);
  }

  lemma {:induction false} OneToolKeepsProtocol(enabled: bool, s: Loop, input: TurnInput, judged: Judgement)
    requires input.reply.OneTool?
    ensures ProtocolKept(s, input, Responded(enabled, s, input, judged, input.reply))
  {
    hide AfterTools;
    ToolsKeepProtocol(enabled, s.(protocol := s.protocol.(talks := 0)), input, judged, 1, input.reply.repeated,
        input.reply.writes);
  }

  lemma {:induction false} FinalIsProtocolKept(enabled: bool, s: Loop, input: TurnInput, judged: Judgement)
    requires s.end == Running && (input.reply.Batch? ==> !s.review.hasWrite)
    ensures ProtocolKept(s, input, AtFinal(enabled, s, input, judged))
  {
    hide AtFinal;
    FinalKeepsProtocol(enabled, s, input, judged);
  }

  lemma {:induction false} TurnKeepsProtocol(enabled: bool, s: Loop, input: TurnInput, judged: Judgement,
      finalizationOnly: bool)
    requires s.end == Running
    ensures ProtocolKept(s, input, Called(enabled, s, input, judged, finalizationOnly))
  {
    hide AfterTools, AtFinal, AfterTalk, AfterRetry, AfterBatch, ProtocolKept;
    if input.modelFault.Some? {
      OthersKeepProtocol(s, input, judged, Raised(input.modelFault.value), Faulted);
    } else if finalizationOnly && input.reply != Final {
      if !s.review.hasWrite { FinalIsProtocolKept(enabled, s, input, judged); }
      OthersKeepProtocol(s, input, judged, Left, FinalizationRefused);
    } else {
      match input.reply
      case OneTool(_, _) => OneToolKeepsProtocol(enabled, s, input, judged);
      case Batch(size, allBad, writes) => BatchKeepsProtocol(enabled, s, input, judged, size, allBad, writes);
      case Final => FinalIsProtocolKept(enabled, s, input, judged);
      case _ => OthersKeepProtocol(s, input, judged, Left, Talked);
    }
  }

  // ----- stagnation -----

  /** Three consecutive turns judged bad, the last judgement made by record i. */
  predicate ThreeBad(log: seq<Turn>, i: nat) {
    2 <= i < |log| && log[i].judged == Bad && log[i - 1].judged == Bad && log[i - 2].judged == Bad
  }

  /** The audit holds the judgements in order; the first record judges nothing. */
  predicate AuditMatches(h: History) {
    && h.state.guard.started == (|h.log| > 0)
    && |h.state.guard.audit| == (if |h.log| == 0 then 0 else |h.log| - 1)
    && (|h.log| > 0 ==> h.log[0].judged == NotJudged)
    && (forall i :: 0 < i < |h.log| ==> (h.state.guard.audit[i - 1] <==> h.log[i].judged == Bad))
  }

  predicate StopsOnStagnation(h: History) {
    forall i :: 0 <= i < |h.log| && ThreeBad(h.log, i) ==> i == |h.log| - 1 && h.log[i].ran == 0 && !Goes(h.state)
  }

  ghost predicate Watched(h: History) {
    (Goes(h.state) ==> AuditMatches(h)) && StopsOnStagnation(h)
  }

  function Extend(h: History, step: Step): History {
    History(step.state, h.log + [step.turn])
  }

  lemma {:induction false} JudgedThree(h: History, turn: Turn)
    requires AuditMatches(h) && |h.log| >= 2 && ThreeBad(h.log + [turn], |h.log|) &&
             turn.judged == JudgementOf(h.state.guard)
    ensures FinalizationOnly(h.state.guard)
  {
    var log := h.log + [turn];
    var n := |h.log|;
    assert log[n - 1] == h.log[n - 1] && log[n - 2] == h.log[n - 2];
    var audit := Audited(h.state.guard);
    assert |audit| == n;
    assert audit[n - 1] && audit[n - 2];
    assert n - 2 > 0;
    assert audit[n - 3] by { assert h.state.guard.audit[n - 3] <==> h.log[n - 2].judged == Bad; }
  }

  lemma {:induction false} NextMatchesAudit(enabled: bool, h: History, input: TurnInput)
    requires Goes(h.state) && AuditMatches(h) && Goes(Next(enabled, h.state, input).state)
    ensures AuditMatches(Extend(h, Next(enabled, h.state, input)))
  {
    hide Called, IsBad, Stagnant;
    TurnKeepsGuard(enabled, Topped(h.state), input, JudgementOf(h.state.guard), FinalizationOnly(h.state.guard));
    CalledCounts(enabled, Topped(h.state), input, JudgementOf(h.state.guard), FinalizationOnly(h.state.guard));
    var step := Next(enabled, h.state, input);
    assert step.state.guard.audit == Audited(h.state.guard);
  }

  lemma {:induction false} ThreeBadEarlier(log: seq<Turn>, turn: Turn, i: nat)
    requires i < |log|
    ensures ThreeBad(log + [turn], i) <==> ThreeBad(log, i)
  {
  }

  lemma {:induction false} StagnantTurnIsLast(enabled: bool, h: History, input: TurnInput)
    requires Goes(h.state) && AuditMatches(h) && FinalizationOnly(h.state.guard)
    ensures var step := Next(enabled, h.state, input); step.turn.ran == 0 && !Goes(step.state)
  {
    hide Called;
    TurnKeepsGuard(enabled, Topped(h.state), input, JudgementOf(h.state.guard), true);
  }

  lemma {:induction false} NextJudges(enabled: bool, s: Loop, input: TurnInput)
    ensures var turn := Next(enabled, s, input).turn; turn.judged == NotJudged || turn.judged == JudgementOf(s.guard)
  {
    hide Called, Judged, FinalizationOnly;
    CalledCounts(enabled, Topped(s), input, JudgementOf(s.guard), FinalizationOnly(s.guard));
  }

  lemma {:induction false} NextIsWatched(enabled: bool, h: History, input: TurnInput)
    requires Goes(h.state) && Watched(h)
    ensures Watched(Extend(h, Next(enabled, h.state, input)))
  {
    hide Next, AuditMatches, ThreeBad, FinalizationOnly;
    var step := Next(enabled, h.state, input);
    var log := h.log + [step.turn];
    if Goes(step.state) { NextMatchesAudit(enabled, h, input); }
    forall i | 0 <= i < |log| && ThreeBad(log, i) ensures i == |log| - 1 && step.turn.ran == 0 && !Goes(step.state) {
      InRange(log, i);
      if i < |h.log| { ThreeBadEarlier(h.log, step.turn, i); }
      NextJudges(enabled, h.state, input);
      JudgedThree(h, step.turn);
      StagnantTurnIsLast(enabled, h, input);
    }
  }

  lemma {:induction false} InRange(log: seq<Turn>, i: nat)
    requires ThreeBad(log, i)
    ensures 2 <= i < |log| && log[i].judged == Bad
  {
  }

  lemma {:induction false} AlwaysWatched(enabled: bool, inputs: nat -> TurnInput, k: nat)
    ensures Watched(After(enabled, inputs, k))
  {
    hide Next, Watched;
    if k == 0 {
      assert Watched(History(START, [])) by { NothingWatched(); }
    } else {
      var h := After(enabled, inputs, k - 1);
      AlwaysWatched(enabled, inputs, k - 1);
      if Goes(h.state) { NextIsWatched(enabled, h, inputs(k - 1)); }
    }
  }

  lemma {:induction false} NothingWatched()
    ensures Watched(History(START, []))
  {
  }

  /** After three consecutive turns judged bad the model is called at most once
      more and none of the tools it chooses runs: that record is the last. */
  lemma {:induction false} ThreeBadTurnsStopTheRun(enabled: bool, inputs: nat -> TurnInput, i: nat)
    requires var log := Run(enabled, false, inputs).log; ThreeBad(log, i)
    ensures var log := Run(enabled, false, inputs).log; i == |log| - 1 && log[i].ran == 0
  {
    hide After, ThreeBad;
    AlwaysWatched(enabled, inputs, MAX_ATTEMPTS_SAFETY);
    InRange(Run(enabled, false, inputs).log, i);
  }

  // ----- periodic review -----

  /** Fewer actions than the interval since the last periodic review; the interval
      is halved exactly after one redirect; and at most two talks are published in a row. */
  predicate Paced(s: Loop) {
    && s.review.actions < s.review.interval && s.protocol.talks <= MAX_CONSECUTIVE_TALKS
    && ((s.review.interval == 6 && s.review.trackingRejects == 0) ||
        (s.review.interval == 3 && s.review.trackingRejects == 1))
  }

  lemma {:induction false} ToolsKeepPace(enabled: bool, s: Loop, input: TurnInput, judged: Judgement, size: nat,
      repeated: bool, writes: bool)
    requires Paced(s)
    ensures var step := AfterTools(enabled, s, input, judged, size, repeated, writes);
            step.state.end == Running ==> Paced(step.state)
  {
    hide Deciding;
  }

  lemma {:induction false} OthersKeepPace(enabled: bool, s: Loop, input: TurnInput, judged: Judgement)
    requires Paced(s)
    ensures Paced(AfterTalk(s, judged).state) && Paced(AfterRetry(s, judged).state) &&
            Paced(AtFinal(enabled, s, input, judged).state)
    ensures forall end :: Paced(s.(end := end))
  {
    hide Accepts, Deciding;
  }

  lemma {:induction false} NewProtocolKeepsPace(s: Loop, protocol: Protocol)
    requires Paced(s) && protocol.talks == 0
    ensures Paced(s.(protocol := protocol)) && Paced(s.(protocol := protocol, review := s.review.(awaiting := false)))
  {
  }

  lemma {:induction false} TurnKeepsPace(enabled: bool, s: Loop, input: TurnInput, judged: Judgement,
      finalizationOnly: bool)
    requires Paced(s)
    ensures var step := Called(enabled, s, input, judged, finalizationOnly);
            step.state.end == Running ==> Paced(step.state)
  {
    hide AfterTools, AtFinal, AfterTalk, AfterRetry, Paced;
    OthersKeepPace(enabled, s, input, judged);
    match input.reply
    case OneTool(repeated, writes) =>
      var p := s.protocol.(talks := 0);
      NewProtocolKeepsPace(s, p);
      ToolsKeepPace(enabled, s.(protocol := p), input, judged, 1, repeated, writes);
    case Batch(size, allBad, writes) =>
      var p := s.protocol.(talks := 0, toolsBound := true);
      NewProtocolKeepsPace(s, p);
      ToolsKeepPace(enabled, s.(protocol := p), input, judged, size, allBad, writes);
    case _ =>
  }

  lemma {:induction false} NextKeepsPace(enabled: bool, s: Loop, input: TurnInput)
    requires Goes(s) && Paced(s)
    ensures Next(enabled, s, input).state.end == Running ==> Paced(Next(enabled, s, input).state)
  {
    hide Called, Judged, FinalizationOnly;
    TurnKeepsPace(enabled, Topped(s), input, JudgementOf(s.guard), FinalizationOnly(s.guard));
  }

  /** As long as a run goes on it is fewer than six actions past its last periodic
      review, or three once the last one redirected, and no two periodic reviews
      in a row have redirected. */
  lemma {:induction false} ReviewsKeepPace(enabled: bool, inputs: nat -> TurnInput, k: nat)
    ensures After(enabled, inputs, k).state.end == Running ==> Paced(After(enabled, inputs, k).state)
  {
    hide Next;
    if k > 0 {
      ReviewsKeepPace(enabled, inputs, k - 1);
      var h := After(enabled, inputs, k - 1);
      if Goes(h.state) { NextKeepsPace(enabled, h.state, inputs(k - 1)); }
    }
  }
}
