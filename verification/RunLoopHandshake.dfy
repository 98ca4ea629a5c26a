/** Runs of the control loop: rejected finals, repairs, the review handshake, the
    rebuttal by a batch, and how every run ends. */
module RunLoopHandshake {
  import opened Options
  import opened RunLoop
  import opened RunLoopSafety

  function Count(log: seq<Turn>, kind: Kind): nat {
    if log == [] then 0 else Count(log[..|log| - 1], kind) + if log[|log| - 1].kind == kind then 1 else 0
  }

  /** How many turns at the end of the log are rejected finals. */
  function Trailing(log: seq<Turn>): nat {
    if log == [] || log[|log| - 1].kind != FinalRejected then 0 else Trailing(log[..|log| - 1]) + 1
  }

  /** Reviews of final answers so far. */
  function FinalReviews(log: seq<Turn>): nat {
    if log == [] then 0 else FinalReviews(log[..|log| - 1]) + if log[|log| - 1].review.Some? then 1 else 0
  }

  /** A held final is still waiting: only talk and repairs came after it. */
  predicate Awaits(log: seq<Turn>) {
    log != [] &&
    var last := log[|log| - 1].kind;
    last == FinalHeld || ((last == Talked || last == Repaired) && Awaits(log[..|log| - 1]))
  }

  /** Some tool among the first n turns changed the workspace. */
  predicate Written(inputs: nat -> TurnInput, log: seq<Turn>, n: nat)
    requires n <= |log|
  {
    exists i :: 0 <= i < n && log[i].kind == RanTools && Wrote(inputs(i).reply)
  }

  predicate Batched(inputs: nat -> TurnInput, n: nat) {
    exists i :: 0 <= i < n && inputs(i).reply.Batch?
  }

  lemma {:induction false} Snoc(log: seq<Turn>, turn: Turn, inputs: nat -> TurnInput)
    ensures var next := log + [turn];
            && Trailing(next) == (if turn.kind == FinalRejected then Trailing(log) + 1 else 0)
            && FinalReviews(next) == FinalReviews(log) + (if turn.review.Some? then 1 else 0)
            && (Awaits(next) <==>
                  turn.kind == FinalHeld || ((turn.kind == Talked || turn.kind == Repaired) && Awaits(log)))
            && (Written(inputs, next, |next|) <==>
                Written(inputs, log, |log|) || (turn.kind == RanTools && Wrote(inputs(|log|).reply)))
            && (Batched(inputs, |next|) <==> Batched(inputs, |log|) || inputs(|log|).reply.Batch?)
            && forall kind :: Count(next, kind) == Count(log, kind) + if turn.kind == kind then 1 else 0
  {
    var next := log + [turn];
    assert next[..|next| - 1] == log;
    if Written(inputs, log, |log|) {
      var i :| 0 <= i < |log| && log[i].kind == RanTools && Wrote(inputs(i).reply);
      assert next[i] == log[i];
    }
    if Written(inputs, next, |next|) {
      var i :| 0 <= i < |next| && next[i].kind == RanTools && Wrote(inputs(i).reply);
      if i < |log| { assert next[i] == log[i]; }
    }
  }

  /** What the loop knows at its head, read off the record of the run. */
  ghost predicate HeadInvariant(inputs: nat -> TurnInput, h: History) {
    var s := h.state;
    && s.guard.started == (h.log != [])
    && (forall i :: 0 <= i < |h.log| ==> h.log[i].called)
    && Rejections(s.guard) == Trailing(h.log) <= 2 && Trailing(h.log) <= |h.log| &&
        Trailing(h.log) <= FinalReviews(h.log)
    && s.protocol.repairs == Count(h.log, Repaired) <= MAX_PROTOCOL_REPAIRS
    && (s.protocol.toolsBound <==> Batched(inputs, |h.log|))
    && (s.review.hasWrite <==> Written(inputs, h.log, |h.log|))
    && (s.review.awaiting <==> Awaits(h.log))
    && s.review.rounds <= FinalReviews(h.log)
    && (s.review.awaiting ==> s.review.rounds >= 1 && s.review.hasWrite)
  }

  lemma {:induction false} HeadAtStart(inputs: nat -> TurnInput)
    ensures HeadInvariant(inputs, History(START, []))
  {
  }

  /** The facts about the turn taken from a head, in terms of the head. */
  lemma {:induction false} TurnFromHead(enabled: bool, s: Loop, input: TurnInput)
    requires Goes(s) && Next(enabled, s, input).state.end == Running
    ensures var step := Next(enabled, s, input);
            && step == Called(enabled, Topped(s), input, JudgementOf(s.guard), FinalizationOnly(s.guard))
            && Rejections(s.guard) < 2 && step.turn.called
            && GuardKept(Topped(s), step) && ReviewKept(Topped(s), input, step) && ProtocolKept(Topped(s), input, step)
  {
    hide Called, Judged, FinalizationOnly, GuardKept, ReviewKept, ProtocolKept;
    CalledCounts(enabled, Topped(s), input, JudgementOf(s.guard), FinalizationOnly(s.guard));
    TurnKeepsGuard(enabled, Topped(s), input, JudgementOf(s.guard), FinalizationOnly(s.guard));
    TurnKeepsReview(enabled, Topped(s), input, JudgementOf(s.guard), FinalizationOnly(s.guard));
    TurnKeepsProtocol(enabled, Topped(s), input, JudgementOf(s.guard), FinalizationOnly(s.guard));
  }

  lemma {:induction false} NextKeepsHead(enabled: bool, inputs: nat -> TurnInput, h: History)
    requires Goes(h.state) && HeadInvariant(inputs, h) && Next(enabled, h.state, inputs(|h.log|)).state.end == Running
    ensures HeadInvariant(inputs, Extend(h, Next(enabled, h.state, inputs(|h.log|))))
  {
    hide Next, Called, FinalizationOnly, Written, Batched, Awaits, Trailing, FinalReviews, Count, Audited, Accepts;
    var input := inputs(|h.log|);
    var step := Next(enabled, h.state, input);
    TurnFromHead(enabled, h.state, input);
    Snoc(h.log, step.turn, inputs);
  }

  lemma {:induction false} AlwaysAtHead(enabled: bool, inputs: nat -> TurnInput, k: nat)
    ensures var h := After(enabled, inputs, k);
            h.state.end == Running ==> HeadInvariant(inputs, h) && |h.log| <= k && (Goes(h.state) ==> |h.log| == k)
  {
    hide Next, HeadInvariant;
    AfterCounts(enabled, inputs, k);
    if k == 0 {
      HeadAtStart(inputs);
    } else {
      var h := After(enabled, inputs, k - 1);
      AlwaysAtHead(enabled, inputs, k - 1);
      if Goes(h.state) && Next(enabled, h.state, inputs(k - 1)).state.end == Running {
        NextKeepsHead(enabled, inputs, h);
      }
    }
  }

  // ----- the whole record of a run -----

  /** Two rejected finals in a row: the next record is the last and calls no model. */
  predicate StopsOnRejections(log: seq<Turn>) {
    forall i :: 1 <= i < |log| - 1 && log[i].kind == FinalRejected && log[i - 1].kind == FinalRejected ==>
      i + 1 == |log| - 1 && !log[i + 1].called && log[i + 1].ran == 0
  }

  /** The convergence exit comes after a judgement, so `remaining_turns` is assigned. */
  predicate JudgedBeforeConverging(log: seq<Turn>) {
    forall i :: 0 <= i < |log| && log[i].kind == ConvergedOnRejections ==> log[i].judged != NotJudged
  }

  /** An accepted final of a run that wrote: reviewed now, and either reviewed
      before or passed by a reserved reason or a failed review. */
  predicate AcceptedByHandshake(inputs: nat -> TurnInput, log: seq<Turn>) {
    forall i :: 0 <= i < |log| && log[i].kind == Accepted && Written(inputs, log, i) ==>
      && i == |log| - 1
      && log[i].review.Some? && log[i].review.value.verdict != Redirect
      && (FinalReviews(log) >= 2 || Reserved(log[i].review.value.reason) || log[i].review.value.failed)
  }

  ghost predicate RecordInvariant(inputs: nat -> TurnInput, h: History) {
    && StopsOnRejections(h.log) && JudgedBeforeConverging(h.log) && AcceptedByHandshake(inputs, h.log)
    && Count(h.log, Repaired) <= MAX_PROTOCOL_REPAIRS
    && (h.state.end == Completed <==> h.log != [] && h.log[|h.log| - 1].kind == Accepted)
    && (h.state.end == Running ==> Count(h.log, Accepted) == 0)
  }

  lemma {:induction false} RejectedTwice(log: seq<Turn>)
    requires |log| >= 2 && log[|log| - 1].kind == FinalRejected && log[|log| - 2].kind == FinalRejected
    ensures Trailing(log) >= 2
  {
    var init := log[..|log| - 1];
    assert init[|init| - 1] == log[|log| - 2];
  }

  lemma {:induction false} NextAfterRejections(enabled: bool, s: Loop, input: TurnInput)
    requires Goes(s)
    ensures var step := Next(enabled, s, input);
            && (Rejections(s.guard) >= 2 ==> !step.turn.called && step.turn.ran == 0 && step.state.end != Running)
            && (step.turn.kind == ConvergedOnRejections ==>
                Rejections(s.guard) >= 2 && step.turn.judged == JudgementOf(s.guard))
  {
    hide Called, Judged, FinalizationOnly;
    CalledNeverConverges(enabled, Topped(s), input, JudgementOf(s.guard), FinalizationOnly(s.guard));
  }

  lemma {:induction false} CalledNeverConverges(enabled: bool, s: Loop, input: TurnInput, judged: Judgement,
      finalizationOnly: bool)
    ensures Called(enabled, s, input, judged, finalizationOnly).turn.kind != ConvergedOnRejections
  {
    hide Accepts, Polled, Acted, Deciding;
  }

  lemma {:induction false} NoEarlierPair(log: seq<Turn>)
    requires StopsOnRejections(log) && forall i :: 0 <= i < |log| ==> log[i].called
    ensures forall i :: 1 <= i < |log| - 1 ==> !(log[i].kind == FinalRejected && log[i - 1].kind == FinalRejected)
  {
    forall i | 1 <= i < |log| - 1 ensures !(log[i].kind == FinalRejected && log[i - 1].kind == FinalRejected) {
      assert log[i + 1].called;
    }
  }

  lemma {:induction false} KeepsStoppingOnRejections(enabled: bool, inputs: nat -> TurnInput, h: History)
    requires Goes(h.state) && HeadInvariant(inputs, h) && StopsOnRejections(h.log) && JudgedBeforeConverging(h.log)
    ensures var log := Extend(h, Next(enabled, h.state, inputs(|h.log|))).log;
            StopsOnRejections(log) && JudgedBeforeConverging(log)
  {
    hide Next, Trailing, Awaits, Written, Batched, Count, FinalReviews;
    var step := Next(enabled, h.state, inputs(|h.log|));
    var log := h.log + [step.turn];
    NextAfterRejections(enabled, h.state, inputs(|h.log|));
    NoEarlierPair(h.log);
    forall i | 1 <= i < |log| - 1 && log[i].kind == FinalRejected && log[i - 1].kind == FinalRejected
      ensures i + 1 == |log| - 1 && !log[i + 1].called && log[i + 1].ran == 0
    {
      assert log[i] == h.log[i] && log[i - 1] == h.log[i - 1];
      if i == |h.log| - 1 {
        RejectedTwice(h.log);
      }
    }
  }

  /** What the turn says about the end of the loop and about an accepted final. */
  lemma {:induction false} NextEnds(enabled: bool, s: Loop, input: TurnInput)
    requires Goes(s)
    ensures var step := Next(enabled, s, input);
            && (step.state.end == Completed <==> step.turn.kind == Accepted)
            && (step.turn.kind == Accepted && s.review.hasWrite ==>
                  step.turn.review.Some? && Accepts(s.review, step.turn.review.value))
            && (step.turn.kind == Repaired ==> s.protocol.repairs < MAX_PROTOCOL_REPAIRS)
  {
    hide Called, Judged, FinalizationOnly, Accepts;
    TurnKeepsReview(enabled, Topped(s), input, JudgementOf(s.guard), FinalizationOnly(s.guard));
    TurnKeepsProtocol(enabled, Topped(s), input, JudgementOf(s.guard), FinalizationOnly(s.guard));
  }

  lemma {:induction false} NoneAccepted(log: seq<Turn>, i: nat)
    requires i < |log| && Count(log, Accepted) == 0
    ensures log[i].kind != Accepted
    decreases |log|
  {
    if i < |log| - 1 { NoneAccepted(log[..|log| - 1], i); }
  }

  lemma {:induction false} WrittenPrefix(inputs: nat -> TurnInput, log: seq<Turn>, turn: Turn)
    requires Written(inputs, log + [turn], |log|)
    ensures Written(inputs, log, |log|)
  {
    var i :| 0 <= i < |log| && (log + [turn])[i].kind == RanTools && Wrote(inputs(i).reply);
    assert log[i].kind == RanTools;
  }

  lemma {:induction false} KeepsHandshake(enabled: bool, inputs: nat -> TurnInput, h: History)
    requires Goes(h.state) && HeadInvariant(inputs, h) && Count(h.log, Accepted) == 0
    ensures AcceptedByHandshake(inputs, Extend(h, Next(enabled, h.state, inputs(|h.log|))).log)
  {
    hide Next, Trailing, Awaits, Written, Batched, Count, FinalReviews, Reserved;
    var step := Next(enabled, h.state, inputs(|h.log|));
    var log := h.log + [step.turn];
    NextEnds(enabled, h.state, inputs(|h.log|));
    Snoc(h.log, step.turn, inputs);
    forall i | 0 <= i < |log| && log[i].kind == Accepted && Written(inputs, log, i)
      ensures i == |log| - 1 && log[i].review.Some? && log[i].review.value.verdict != Redirect
      ensures FinalReviews(log) >= 2 || Reserved(log[i].review.value.reason) || log[i].review.value.failed
    {
      if i < |h.log| { NoneAccepted(h.log, i); }
      assert i == |h.log|;
      WrittenPrefix(inputs, h.log, step.turn);
    }
  }

  lemma {:induction false} NextKeepsRecord(enabled: bool, inputs: nat -> TurnInput, h: History)
    requires Goes(h.state) && HeadInvariant(inputs, h) && RecordInvariant(inputs, h)
    ensures RecordInvariant(inputs, Extend(h, Next(enabled, h.state, inputs(|h.log|))))
  {
    hide Next, Trailing, Awaits, Written, Batched, Count, FinalReviews, StopsOnRejections, JudgedBeforeConverging,
         AcceptedByHandshake, Accepts;
    var step := Next(enabled, h.state, inputs(|h.log|));
    KeepsStoppingOnRejections(enabled, inputs, h);
    KeepsHandshake(enabled, inputs, h);
    NextEnds(enabled, h.state, inputs(|h.log|));
    Snoc(h.log, step.turn, inputs);
  }

  lemma {:induction false} AlwaysRecorded(enabled: bool, inputs: nat -> TurnInput, k: nat)
    ensures RecordInvariant(inputs, After(enabled, inputs, k))
  {
    hide Next, HeadInvariant, RecordInvariant;
    if k == 0 {
      assert RecordInvariant(inputs, History(START, [])) by { NothingRecorded(inputs); }
    } else {
      var h := After(enabled, inputs, k - 1);
      AlwaysRecorded(enabled, inputs, k - 1);
      AlwaysAtHead(enabled, inputs, k - 1);
      if Goes(h.state) { NextKeepsRecord(enabled, inputs, h); }
    }
  }

  lemma {:induction false} NothingRecorded(inputs: nat -> TurnInput)
    ensures RecordInvariant(inputs, History(START, []))
  {
  }

  // ----- the theorems -----

  /** Never more than two rejected finals in a row: after two, one last record that
      calls no model and runs no tool. At most one protocol repair. And the exit
      on rejections always follows a judgement, where `remaining_turns` is set. */
  lemma {:induction false} RejectionsAndRepairsAreBounded(enabled: bool, inputs: nat -> TurnInput)
    ensures var log := Run(enabled, false, inputs).log;
            && StopsOnRejections(log) && Count(log, Repaired) <= MAX_PROTOCOL_REPAIRS
            && JudgedBeforeConverging(log)
  {
    hide After;
    AlwaysRecorded(enabled, inputs, MAX_ATTEMPTS_SAFETY);
  }

  lemma {:induction false} EndedIsOver(s: Loop)
    ensures var end := Ended(s).end;
            && end != Running && end != Left
            && (end == Completed <==> s.end == Completed)
            && (end == RetryLimit && s.end in {Running, Left} ==>
                s.protocol.failed || s.attempts >= MAX_ATTEMPTS_SAFETY)
  {
  }

  /** Every run is over after at most 500 iterations, in a final status, and it has
      completed exactly when its last record is an accepted final. */
  lemma {:induction false} EveryRunEnds(enabled: bool, cancelled: bool, inputs: nat -> TurnInput)
    ensures var run := Run(enabled, cancelled, inputs);
            && |run.log| <= MAX_ATTEMPTS_SAFETY
            && run.state.end != Running && run.state.end != Left
            && !Goes(After(enabled, inputs, MAX_ATTEMPTS_SAFETY).state)
            && (run.state.end == Completed <==> run.log != [] && run.log[|run.log| - 1].kind == Accepted)
  {
    hide After, Ended;
    AlwaysRecorded(enabled, inputs, MAX_ATTEMPTS_SAFETY);
    AfterCounts(enabled, inputs, MAX_ATTEMPTS_SAFETY);
    EndedIsOver(After(enabled, inputs, MAX_ATTEMPTS_SAFETY).state);
  }

  predicate WroteBeforeLast(inputs: nat -> TurnInput, log: seq<Turn>) {
    log != [] && Written(inputs, log, |log| - 1)
  }

  /** The last record accepts a final that was reviewed and not redirected, and it
      is the second final review at least, or one that needs no confirmation. */
  predicate LastAccepted(log: seq<Turn>) {
    log != [] &&
    var last := log[|log| - 1];
    && last.kind == Accepted && last.review.Some? && last.review.value.verdict != Redirect
    && (FinalReviews(log) >= 2 || Reserved(last.review.value.reason) || last.review.value.failed)
  }

  /** The handshake: a run that wrote and completed was reviewed at the accepting
      final, not redirected there, and reviewed at an earlier final too, unless
      the accepting review failed or carries one of the three reserved reasons. */
  lemma {:induction false} CompletionNeedsTwoReviews(enabled: bool, inputs: nat -> TurnInput)
    requires Run(enabled, false, inputs).state.end == Completed &&
             WroteBeforeLast(inputs, Run(enabled, false, inputs).log)
    ensures LastAccepted(Run(enabled, false, inputs).log)
  {
    hide After, Written, FinalReviews, Reserved;
    AlwaysRecorded(enabled, inputs, MAX_ATTEMPTS_SAFETY);
    EndedIsOver(After(enabled, inputs, MAX_ATTEMPTS_SAFETY).state);
  }

  lemma {:induction false} FirstReview(enabled: bool, s: Loop, input: TurnInput, judged: Judgement)
    requires s.end == Running && s.review.hasWrite && !s.review.awaiting && s.review.rounds == 0
    requires input.finalFault == None && (enabled ==> input.reviewFault == None)
    ensures var step := AtFinal(enabled, s, input, judged);
            var d := Deciding(enabled, input);
            && step.turn.review == Some(d)
            && (step.turn.kind == Accepted <==> d.verdict != Redirect && (Reserved(d.reason) || d.failed))
            && (step.turn.kind == FinalHeld <==> d.verdict != Redirect && !Reserved(d.reason) && !d.failed)
            && (step.turn.kind == FinalHeld ==> step.state == s.(review := step.state.review))
  {
  }

  /** The run has written, no final was reviewed yet, and the next reply is a final
      that reaches its review. */
  predicate FirstReviewedFinal(enabled: bool, inputs: nat -> TurnInput, h: History) {
    var input := inputs(|h.log|);
    && Goes(h.state) && Written(inputs, h.log, |h.log|) && FinalReviews(h.log) == 0
    && input.reply == Final && input.topFault == None && !input.capped && input.modelFault == None
    && input.finalFault == None && (enabled ==> input.reviewFault == None)
  }

  /** The exception to the handshake is exact: the first final review of a run that
      wrote accepts if and only if it does not redirect and either failed or gives
      a reserved reason. With reviews switched off every first final is accepted.
      In a finalization turn, any other approval ends the run unaccepted. */
  lemma {:induction false} FirstReviewExactly(enabled: bool, inputs: nat -> TurnInput, k: nat)
    ensures var h := After(enabled, inputs, k);
            FirstReviewedFinal(enabled, inputs, h) ==>
              var step := Next(enabled, h.state, inputs(|h.log|));
              var d := Deciding(enabled, inputs(|h.log|));
              && (step.turn.kind == Accepted <==> d.verdict != Redirect && (Reserved(d.reason) || d.failed))
              && (!enabled ==> step.turn.kind == Accepted)
              && (FinalizationOnly(h.state.guard) && d.verdict != Redirect && !Reserved(d.reason) && !d.failed ==>
                    step.turn.kind == FinalHeld && !Goes(step.state) &&
                        Ended(step.state).end in {RetryLimit, ConvergenceGuard})
  {
    hide After, Next, AtFinal, Written, Awaits, Reserved, FinalReviews, Trailing, Rejections, Judged,
         FinalizationOnly, Deciding;
    var h := After(enabled, inputs, k);
    if FirstReviewedFinal(enabled, inputs, h) {
      var input := inputs(|h.log|);
      AlwaysAtHead(enabled, inputs, k);
      FinalIsReviewed(enabled, h.state, input);
      FirstReview(enabled, Topped(h.state), input, JudgementOf(h.state.guard));
      DisabledIsReserved(input);
    }
  }

  /** With no fault at the top, no cap and no pending convergence, a final reply
      goes to the review. */
  lemma {:induction false} FinalIsReviewed(enabled: bool, s: Loop, input: TurnInput)
    requires input.reply == Final && input.topFault == None && !input.capped && input.modelFault == None
    requires Rejections(s.guard) < 2
    ensures Next(enabled, s, input) == AtFinal(enabled, Topped(s), input, JudgementOf(s.guard))
  {
    hide AtFinal, Judged, FinalizationOnly;
  }

  lemma {:induction false} DisabledIsReserved(input: TurnInput)
    ensures var d := Deciding(false, input); d.verdict != Redirect && Reserved(d.reason)
  {
  }

  // ----- a rebuttal by a batch -----

  /** No injected fault is itself an UnboundLocalError. */
  predicate OrdinaryFaults(input: TurnInput) {
    && input.toolFault != Some(UnboundTools) && input.finalFault != Some(UnboundTools)
    && input.reviewFault != Some(UnboundTools)
  }

  lemma {:induction false} ToolsNeverUnbound(enabled: bool, s: Loop, input: TurnInput, judged: Judgement, size: nat,
      repeated: bool, writes: bool)
    requires OrdinaryFaults(input) && s.end == Running
    ensures AfterTools(enabled, s, input, judged, size, repeated, writes).state.end != Raised(UnboundTools)
  {
    hide Polled, Acted, Deciding;
  }

  lemma {:induction false} FinalNeverUnbound(enabled: bool, s: Loop, input: TurnInput, judged: Judgement)
    requires OrdinaryFaults(input) && s.end == Running
    ensures AtFinal(enabled, s, input, judged).state.end != Raised(UnboundTools)
  {
    hide Accepts, Deciding;
  }

  lemma {:induction false} UnboundOnlyInBatch(enabled: bool, s: Loop, input: TurnInput, judged: Judgement)
    requires OrdinaryFaults(input) && s.end == Running
    ensures Responded(enabled, s, input, judged, input.reply).state.end == Raised(UnboundTools) <==>
            input.reply.Batch? && s.review.awaiting && !s.protocol.toolsBound
  {
    hide AfterTools, AtFinal;
    FinalNeverUnbound(enabled, s, input, judged);
    var t := s.(protocol := s.protocol.(talks := 0));
    match input.reply
    case OneTool(repeated, writes) => ToolsNeverUnbound(enabled, t, input, judged, 1, repeated, writes);
    case Batch(size, allBad, writes) =>
      ToolsNeverUnbound(enabled, t.(protocol := t.protocol.(toolsBound := true)), input, judged, size, allBad, writes);
    case _ =>
  }

  /** The loop goes on to the reply itself: no fault or cap before it, no
      convergence, no finalization turn. */
  predicate Taken(h: History, input: TurnInput) {
    && Goes(h.state) && Trailing(h.log) < 2 && !FinalizationOnly(h.state.guard)
    && OrdinaryFaults(input) && input.topFault == None && !input.capped && input.modelFault == None
  }

  /** A reply that is taken raises UnboundLocalError exactly when it is the first
      batch of the run and a held final is waiting for confirmation. */
  lemma {:induction false} FirstBatchRebuttalRaises(enabled: bool, inputs: nat -> TurnInput, k: nat)
    ensures var h := After(enabled, inputs, k);
            var input := inputs(|h.log|);
            Taken(h, input) ==>
              (Next(enabled, h.state, input).state.end == Raised(UnboundTools) <==>
               input.reply.Batch? && Awaits(h.log) && !Batched(inputs, |h.log|))
  {
    hide After, Responded, Awaits, Batched, Written, FinalReviews, Trailing, Judged, FinalizationOnly;
    var h := After(enabled, inputs, k);
    var input := inputs(|h.log|);
    if Taken(h, input) {
      AlwaysAtHead(enabled, inputs, k);
      UnboundOnlyInBatch(enabled, Topped(h.state), input, JudgementOf(h.state.guard));
    }
  }

  function Quiet(reply: Reply, review: Decision): TurnInput {
    TurnInput(None, false, None, reply, false, None, None, None, review)
  }

  function Rebuttal(): nat -> TurnInput {
    k => if k == 0 then Quiet(OneTool(false, true), DISABLED)
         else if k == 1 then Quiet(Final, Decision(Finalize, "done", false))
         else Quiet(Batch(2, false, true), DISABLED)
  }

  const WRITTEN := Loop(1, false, Guard(true, Signals(true, false, false, false), 0, []),
      Review(true, false, 0, 1, REVIEW_POLL_ACTIONS, 0),
                        Protocol(0, 0, false, false), Running)

  const HELD := Loop(2, false, Guard(true, NO_SIGNALS, 0, [false]), Review(true, true, 1, 1, REVIEW_POLL_ACTIONS, 0),
                     Protocol(0, 0, false, false), Running)

  lemma {:induction false} RebuttalWrites()
    ensures Next(true, START, Quiet(OneTool(false, true), DISABLED)).state == WRITTEN
  {
  }

  lemma {:induction false} RebuttalHeld()
    ensures Next(true, WRITTEN, Quiet(Final, Decision(Finalize, "done", false))).state == HELD
  {
    assert !Reserved("done");
  }

  lemma {:induction false} RebuttalRaises()
    ensures Next(true, HELD, Quiet(Batch(2, false, true), DISABLED)).state.end == Raised(UnboundTools)
  {
    assert !Stagnant(Audited(HELD.guard));
  }

  /** A run that does: write a file, submit a final that the review approves, then
      go on with two tool calls in one batch. */
  lemma {:induction false} BatchRebuttalRun()
    ensures Run(true, false, Rebuttal()).state.end == Raised(UnboundTools)
  {
    hide Next, After;
    var inputs := Rebuttal();
    FirstHistory(true, inputs);
    RebuttalWrites();
    NextHistory(true, inputs, 0);
    RebuttalHeld();
    NextHistory(true, inputs, 1);
    RebuttalRaises();
    NextHistory(true, inputs, 2);
    StoppedStays(true, inputs, 3, MAX_ATTEMPTS_SAFETY);
  }

  /** Holding a final for confirmation counts as a silent turn, and so as bad. */
  lemma {:induction false} HeldFinalIsBad(enabled: bool, s: Loop, input: TurnInput)
    ensures var step := Next(enabled, s, input); step.turn.kind == FinalHeld ==> JudgementOf(step.state.guard) == Bad
  {
    hide AtFinal, AfterTools;
    var called := Topped(s);
    FinalHoldsQuietly(enabled, called, input, JudgementOf(s.guard));
    ToolsNeverHold(enabled, called.(protocol := called.protocol.(talks := 0)), input, JudgementOf(s.guard), 1);
    if input.reply.Batch? {
      ToolsNeverHold(enabled, called.(protocol := called.protocol.(talks := 0, toolsBound := true)), input,
          JudgementOf(s.guard), input.reply.size);
    }
  }

  lemma {:induction false} FinalHoldsQuietly(enabled: bool, s: Loop, input: TurnInput, judged: Judgement)
    ensures var step := AtFinal(enabled, s, input, judged); step.turn.kind == FinalHeld ==> step.state.guard == s.guard
  {
    hide Accepts, Deciding;
  }

  lemma {:induction false} ToolsNeverHold(enabled: bool, s: Loop, input: TurnInput, judged: Judgement, size: nat)
    ensures forall repeated, writes ::
              AfterTools(enabled, s, input, judged, size, repeated, writes).turn.kind != FinalHeld
  {
    hide Polled, Acted, Deciding;
  }
}
