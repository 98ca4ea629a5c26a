/** Every turn of every run, exactly: what it becomes, and how the run ends, as a
    function of the inputs and of the record so far. */
module RunLoopOutcomes {
  import opened Basics
  import opened Options
  import opened RunLoop
  import opened RunLoopSafety
  import opened RunLoopHandshake

  // ----- what the record says -----

  /** The reply's tools brought nothing: a repeated call, or a batch without a new ok one. */
  predicate Useless(reply: Reply) {
    (reply.OneTool? && reply.repeated) || (reply.Batch? && reply.allBad)
  }

  /** Turn i was silent or brought nothing. */
  predicate BadTurn(inputs: nat -> TurnInput, log: seq<Turn>, i: nat)
    requires i < |log|
  {
    var kind := log[i].kind;
    kind == Repaired || kind == EmptyBatch || kind == FinalHeld || (kind == RanTools && Useless(inputs(i).reply))
  }

  /** The last three turns were bad: the next one may only give the final answer. */
  predicate Stalled(inputs: nat -> TurnInput, log: seq<Turn>) {
    |log| >= 3 && forall i :: |log| - 3 <= i < |log| ==> BadTurn(inputs, log, i)
  }

  /** Reviews of finals other than the placeholder of a read-only run. */
  function RealReviews(log: seq<Turn>): nat {
    if log == [] then 0
    else
      var last := log[|log| - 1];
      RealReviews(log[..|log| - 1]) +
      if last.review.Some? && last.review.value.reason != "read_only_no_result_review" then 1 else 0
  }

  /** Actions since the last periodic review, and whether that review redirected. */
  datatype Pace = Pace(since: nat, redirected: bool)

  function Verdicts(enabled: bool, input: TurnInput): Verdict {
    if enabled then input.review.verdict else Continue
  }

  /** A periodic review is due at six actions, at three after a redirect. */
  predicate Due(p: Pace, ran: nat) {
    p.since + ran >= if p.redirected then 3 else 6
  }

  function PaceOf(enabled: bool, inputs: nat -> TurnInput, log: seq<Turn>): Pace {
    if log == [] then Pace(0, false)
    else
      var init, last := log[..|log| - 1], log[|log| - 1];
      var p := PaceOf(enabled, inputs, init);
      if last.kind != RanTools then p
      else if !Due(p, last.ran) then Pace(p.since + last.ran, p.redirected)
      else Pace(0, Verdicts(enabled, inputs(|init|)) == Redirect)
  }

  /** Talks in a row, as far as they are counted: a final in between does not end the row. */
  function TalkRow(log: seq<Turn>): nat {
    if log == [] then 0
    else
      var before, kind := TalkRow(log[..|log| - 1]), log[|log| - 1].kind;
      if kind == Talked then (if before < 2 then before + 1 else before)
      else if kind == RanTools || kind == EmptyBatch || kind == Repaired then 0
      else before
  }

  lemma {:induction false} RecordSnoc(enabled: bool, inputs: nat -> TurnInput, log: seq<Turn>, turn: Turn)
    ensures var next := log + [turn];
            && RealReviews(next) == RealReviews(log) +
                 (if turn.review.Some? && turn.review.value.reason != READ_ONLY_REASON then 1 else 0)
            && PaceOf(enabled, inputs, next) ==
                 (var p := PaceOf(enabled, inputs, log);
                  if turn.kind != RanTools then p
                  else if !Due(p, turn.ran) then Pace(p.since + turn.ran, p.redirected)
                  else Pace(0, Verdicts(enabled, inputs(|log|)) == Redirect))
            && TalkRow(next) ==
                 (if turn.kind == Talked then (if TalkRow(log) < 2 then TalkRow(log) + 1 else TalkRow(log))
                  else if turn.kind == RanTools || turn.kind == EmptyBatch || turn.kind == Repaired then 0
                  else TalkRow(log))
            && BadTurn(inputs, next, |log|) ==
                 (turn.kind == Repaired || turn.kind == EmptyBatch || turn.kind == FinalHeld ||
                  (turn.kind == RanTools && Useless(inputs(|log|).reply)))
  {
    assert (log + [turn])[..|log|] == log;
  }

  lemma {:induction false} BadStays(inputs: nat -> TurnInput, log: seq<Turn>, turn: Turn, i: nat)
    requires i < |log|
    ensures BadTurn(inputs, log + [turn], i) == BadTurn(inputs, log, i)
  {
  }

  // ----- what a turn does to the rest of the state -----

  function SizeOf(reply: Reply): nat {
    if reply.Batch? then reply.size else 1
  }

  function PaceIn(r: Review): Pace {
    Pace(r.actions, r.trackingRejects > 0)
  }

  /** Interval and redirect count say the same. */
  predicate PaceFits(r: Review) {
    (r.interval == 6 && r.trackingRejects == 0) || (r.interval == 3 && r.trackingRejects == 1)
  }

  /** A turn that goes on leaves in the state what its record says. */
  predicate Recorded(enabled: bool, s: Loop, input: TurnInput, step: Step) {
    var t, r, turn := step.state, s.review, step.turn;
    && t.review.rounds == r.rounds +
         (if turn.review.Some? && turn.review.value.reason != READ_ONLY_REASON then 1 else 0)
    && (turn.kind != RanTools ==> PaceIn(t.review) == PaceIn(r) && turn.ran == 0)
    && (turn.kind == RanTools ==>
          && (input.reply.OneTool? || input.reply.Batch?) && turn.ran == SizeOf(input.reply)
          && PaceIn(t.review) == (if Due(PaceIn(r), turn.ran) then Pace(0, Verdicts(enabled, input) == Redirect)
                                  else Pace(r.actions + turn.ran, r.trackingRejects > 0)))
    && PaceFits(t.review)
    && t.guard.signals == Signals(turn.kind == RanTools, turn.kind == RanTools && Useless(input.reply),
                                  turn.kind == Talked, turn.kind == FinalRejected)
    && t.protocol.talks ==
         (if turn.kind == Talked then (if s.protocol.talks < 2 then s.protocol.talks + 1 else s.protocol.talks)
          else if turn.kind == RanTools || turn.kind == EmptyBatch || turn.kind == Repaired then 0
          else s.protocol.talks)
    && t.protocol.failed == s.protocol.failed
    && turn.kind in {Talked, RanTools, EmptyBatch, Repaired, FinalRejected, FinalHeld}
  }

  lemma {:induction false} PolledPace(r: Review, d: Decision)
    requires PaceFits(r)
    ensures var polled := Polled(r, d);
            && polled.rounds == r.rounds
            && (polled.trackingRejects < 2 ==> PaceFits(polled) && PaceIn(polled) == Pace(0, d.verdict == Redirect))
  {
  }

  lemma {:induction false} VerdictsAre(enabled: bool, input: TurnInput)
    ensures Verdicts(enabled, input) == Deciding(enabled, input).verdict
  {
  }

  lemma {:induction false} ToolsRecorded(enabled: bool, s: Loop, p: Protocol, input: TurnInput, judged: Judgement,
      size: nat, repeated: bool, writes: bool)
    requires s.guard.signals == NO_SIGNALS && PaceFits(s.review) && p.talks == 0 && p.failed == s.protocol.failed
    requires (input.reply.OneTool? || input.reply.Batch?) && size == SizeOf(input.reply)
    requires repeated == Useless(input.reply)
    ensures var step := AfterTools(enabled, s.(protocol := p), input, judged, size, repeated, writes);
            step.state.end == Running ==> Recorded(enabled, s, input, step)
  {
    hide Useless, SizeOf, Polled, Deciding, HalvedInterval;
    PolledPace(Acted(s.review, size, writes), Deciding(enabled, input));
    VerdictsAre(enabled, input);
  }

  lemma {:induction false} FinalRecorded(enabled: bool, s: Loop, input: TurnInput, judged: Judgement)
    requires s.guard.signals == NO_SIGNALS && PaceFits(s.review) && s.end == Running
    ensures var step := AtFinal(enabled, s, input, judged);
            step.state.end == Running ==> Recorded(enabled, s, input, step)
  {
  }

  lemma {:induction false} OthersRecorded(enabled: bool, s: Loop, input: TurnInput, judged: Judgement)
    requires s.guard.signals == NO_SIGNALS && PaceFits(s.review)
    ensures Recorded(enabled, s, input, AfterTalk(s, judged))
    ensures AfterRetry(s, judged).state.end == Running ==> Recorded(enabled, s, input, AfterRetry(s, judged))
  {
  }

  lemma {:induction false} BatchRecorded(enabled: bool, s: Loop, input: TurnInput, judged: Judgement)
    requires s.guard.signals == NO_SIGNALS && PaceFits(s.review) && input.reply.Batch?
    ensures var step := Responded(enabled, s, input, judged, input.reply);
            step.state.end == Running ==> Recorded(enabled, s, input, step)
  {
    hide AfterTools;
    var p := s.protocol.(talks := 0, toolsBound := true);
    ToolsRecorded(enabled, s, p, input, judged, input.reply.size, input.reply.allBad, input.reply.writes);
  }

  lemma {:induction false} TurnRecorded(enabled: bool, s: Loop, input: TurnInput, judged: Judgement,
      finalizationOnly: bool)
    requires s.guard.signals == NO_SIGNALS && PaceFits(s.review) && s.end == Running
    ensures var step := Called(enabled, s, input, judged, finalizationOnly);
            step.state.end == Running ==> Recorded(enabled, s, input, step)
  {
    hide AfterTools, AtFinal, AfterTalk, AfterRetry, AfterBatch, Recorded, PaceFits;
    FinalRecorded(enabled, s, input, judged);
    OthersRecorded(enabled, s, input, judged);
    match input.reply
    case OneTool(repeated, writes) =>
      ToolsRecorded(enabled, s, s.protocol.(talks := 0), input, judged, 1, repeated, writes);
    case Batch(_, _, _) => BatchRecorded(enabled, s, input, judged);
    case _ =>
  }

  // ----- the state at the head of the loop is a function of the record -----

  /** The audit and the signals at the head hold exactly which turns were bad. */
  ghost predicate Audits(inputs: nat -> TurnInput, h: History) {
    var audit := Audited(h.state.guard);
    && h.state.guard.started == (h.log != [])
    && (h.log != [] ==> |audit| == |h.log| && forall i :: 0 <= i < |h.log| ==> audit[i] == BadTurn(inputs, h.log, i))
    && (h.log == [] ==> h.state.guard.audit == [])
  }

  ghost predicate Mirrors(enabled: bool, inputs: nat -> TurnInput, h: History) {
    var s := h.state;
    && HeadInvariant(inputs, h) && Audits(inputs, h)
    && s.attempts == |h.log| && !s.protocol.failed
    && s.review.rounds == RealReviews(h.log)
    && PaceIn(s.review) == PaceOf(enabled, inputs, h.log) && PaceFits(s.review)
    && s.protocol.talks == TalkRow(h.log)
  }

  lemma {:induction false} MirrorsAtStart(enabled: bool, inputs: nat -> TurnInput)
    ensures Mirrors(enabled, inputs, History(START, []))
  {
  }

  lemma {:induction false} AuditsGrow(inputs: nat -> TurnInput, h: History, step: Step, audit: seq<bool>)
    requires audit == Audited(h.state.guard) && Audits(inputs, h)
    requires step.state.guard.started && step.state.guard.audit == audit
    requires IsBad(step.state.guard.signals) == BadTurn(inputs, h.log + [step.turn], |h.log|)
    ensures Audits(inputs, Extend(h, step))
  {
    hide BadTurn, IsBad;
    var log := h.log + [step.turn];
    forall i | 0 <= i < |h.log| ensures BadTurn(inputs, log, i) == BadTurn(inputs, h.log, i) {
      BadStays(inputs, h.log, step.turn, i);
    }
  }

  lemma {:induction false} NextMirrors(enabled: bool, inputs: nat -> TurnInput, h: History)
    requires Goes(h.state) && Mirrors(enabled, inputs, h)
    requires Next(enabled, h.state, inputs(|h.log|)).state.end == Running
    ensures Mirrors(enabled, inputs, Extend(h, Next(enabled, h.state, inputs(|h.log|))))
  {
    hide Next, Called, FinalizationOnly, HeadInvariant, Audited, PaceOf, TalkRow, RealReviews, Useless, BadTurn, Audits;
    var s, input := h.state, inputs(|h.log|);
    var step := Next(enabled, s, input);
    NextKeepsHead(enabled, inputs, h);
    TurnFromHead(enabled, s, input);
    TurnRecorded(enabled, Topped(s), input, JudgementOf(s.guard), FinalizationOnly(s.guard));
    CalledCounts(enabled, Topped(s), input, JudgementOf(s.guard), FinalizationOnly(s.guard));
    RecordSnoc(enabled, inputs, h.log, step.turn);
    BadSignals(input, step);
    AuditsGrow(inputs, h, step, Audited(s.guard));
  }

  /** Which signals are bad. */
  lemma {:induction false} BadSignals(input: TurnInput, step: Step)
    requires var turn := step.turn;
             && step.state.guard.signals ==
                  Signals(turn.kind == RanTools, turn.kind == RanTools && Useless(input.reply),
                          turn.kind == Talked, turn.kind == FinalRejected)
             && turn.kind in {Talked, RanTools, EmptyBatch, Repaired, FinalRejected, FinalHeld}
    ensures IsBad(step.state.guard.signals) ==
            (step.turn.kind == Repaired || step.turn.kind == EmptyBatch || step.turn.kind == FinalHeld ||
             (step.turn.kind == RanTools && Useless(input.reply)))
  {
    hide Useless;
  }

  lemma {:induction false} AlwaysMirrors(enabled: bool, inputs: nat -> TurnInput, k: nat)
    ensures var h := After(enabled, inputs, k);
            h.state.end == Running ==> Mirrors(enabled, inputs, h) && |h.log| <= k && (Goes(h.state) ==> |h.log| == k)
  {
    hide Next, Mirrors;
    AfterCounts(enabled, inputs, k);
    if k == 0 {
      MirrorsAtStart(enabled, inputs);
    } else {
      var h := After(enabled, inputs, k - 1);
      AlwaysMirrors(enabled, inputs, k - 1);
      if Goes(h.state) && Next(enabled, h.state, inputs(k - 1)).state.end == Running {
        NextMirrors(enabled, inputs, h);
      }
    }
  }

  // ----- what each turn becomes -----

  /** The k-th turn of a run that gets so far, and how the loop stands after it. */
  ghost function TurnOf(enabled: bool, inputs: nat -> TurnInput, k: nat): (Turn, End)
    requires Goes(After(enabled, inputs, k).state)
  {
    AfterCounts(enabled, inputs, k);
    (After(enabled, inputs, k + 1).log[k], After(enabled, inputs, k + 1).state.end)
  }

  /** The model is called and answers. */
  predicate Answered(inputs: nat -> TurnInput, log: seq<Turn>) {
    var input := inputs(|log|);
    input.topFault == None && !input.capped && Trailing(log) < 2 && input.modelFault == None
  }

  /** The answer is taken as a final: a final, or plain text in the last turn of a
      stalled run that has not written. */
  predicate Submits(inputs: nat -> TurnInput, log: seq<Turn>) {
    var input := inputs(|log|);
    input.reply == Final || (Stalled(inputs, log) && input.plainText && !Written(inputs, log, |log|))
  }

  lemma {:induction false} HeadOf(enabled: bool, inputs: nat -> TurnInput, k: nat)
    requires Goes(After(enabled, inputs, k).state)
    ensures var h := After(enabled, inputs, k);
            var step := Next(enabled, h.state, inputs(k));
            && |h.log| == k && Mirrors(enabled, inputs, h)
            && TurnOf(enabled, inputs, k) == (step.turn, step.state.end)
            && (FinalizationOnly(h.state.guard) <==> Stalled(inputs, h.log))
            && Rejections(h.state.guard) == Trailing(h.log)
            && After(enabled, inputs, k + 1) == History(step.state, h.log + [step.turn])
  {
    hide After, Next, BadTurn;
    AlwaysMirrors(enabled, inputs, k);
    NextHistory(enabled, inputs, k);
  }

  /** A fault, a cap and two rejected finals in a row end the run before the model is
      called, in this order; nothing else keeps it from being called. */
  lemma {:induction false} BeforeTheModel(enabled: bool, inputs: nat -> TurnInput, k: nat)
    requires Goes(After(enabled, inputs, k).state)
    ensures var input, log := inputs(k), After(enabled, inputs, k).log;
            var (turn, end) := TurnOf(enabled, inputs, k);
            && |log| == k
            && (turn.called <==> input.topFault == None && !input.capped && Trailing(log) < 2)
            && (input.topFault.Some? ==> turn.kind == Faulted && end == Raised(input.topFault.value))
            && (input.topFault == None && input.capped ==> turn.kind == Capped && end == BudgetCap)
            && (input.topFault == None && !input.capped && Trailing(log) >= 2 ==>
                  turn.kind == ConvergedOnRejections && end == RejectedFinals)
            && (turn.called && input.modelFault.Some? ==>
                  turn.kind == Faulted && end == Raised(input.modelFault.value))
            && (input.topFault == None && !input.capped ==>
                  turn.judged == if k == 0 then NotJudged else if BadTurn(inputs, log, k - 1) then Bad else Good)
  {
    hide After, Called, FinalizationOnly, Mirrors, Stalled, TurnOf, BadTurn;
    HeadOf(enabled, inputs, k);
    JudgedAtHead(enabled, inputs, After(enabled, inputs, k));
    var s := After(enabled, inputs, k).state;
    CalledCounts(enabled, Topped(s), inputs(k), JudgementOf(s.guard), FinalizationOnly(s.guard));
    FaultyCall(enabled, Topped(s), inputs(k), JudgementOf(s.guard), FinalizationOnly(s.guard));
  }

  lemma {:induction false} JudgedAtHead(enabled: bool, inputs: nat -> TurnInput, h: History)
    requires Mirrors(enabled, inputs, h)
    ensures JudgementOf(h.state.guard) ==
            if h.log == [] then NotJudged else if BadTurn(inputs, h.log, |h.log| - 1) then Bad else Good
  {
    hide BadTurn, HeadInvariant, IsBad;
  }

  lemma {:induction false} FaultyCall(enabled: bool, s: Loop, input: TurnInput, judged: Judgement, only: bool)
    ensures input.modelFault.Some? ==>
              var step := Called(enabled, s, input, judged, only);
              step.turn.kind == Faulted && step.state.end == Raised(input.modelFault.value)
  {
  }

  /** What the review of a final decides; with reviews off it is the standing decision. */
  function ReviewOf(enabled: bool, input: TurnInput): Decision {
    if enabled then input.review else Decision(Continue, "review_subagent_disabled", false)
  }

  /** A final of a run that has written nothing is accepted; otherwise it is reviewed,
      and rejected exactly on a redirect, accepted exactly if it was held before, is
      the second one reviewed, or its review failed or has a reserved reason, and
      else held. */
  lemma {:induction false} FinalExactly(enabled: bool, inputs: nat -> TurnInput, k: nat)
    requires Goes(After(enabled, inputs, k).state)
    requires Answered(inputs, After(enabled, inputs, k).log) && Submits(inputs, After(enabled, inputs, k).log)
    ensures var input, log := inputs(k), After(enabled, inputs, k).log;
            var (turn, end) := TurnOf(enabled, inputs, k);
            var d := ReviewOf(enabled, input);
            if input.finalFault.Some? then turn.kind == Faulted && end == Raised(input.finalFault.value)
            else if !Written(inputs, log, |log|) then turn.kind == Accepted && turn.review == None && end == Completed
            else if enabled && input.reviewFault.Some? then
              turn.kind == Faulted && end == Raised(input.reviewFault.value)
            else
              && turn.review == Some(d)
              && (turn.kind == FinalRejected <==> d.verdict == Redirect)
              && (turn.kind == Accepted <==>
                    d.verdict != Redirect &&
                    (Awaits(log) || RealReviews(log) >= 1 || d.failed ||
                     d.reason in {"review_subagent_disabled", "review_skipped_read_only",
                         "read_only_no_result_review"}))
              && turn.kind in {FinalRejected, Accepted, FinalHeld}
              && (turn.kind == Accepted <==> end == Completed) && (turn.kind != Accepted <==> end == Running)
  {
    hide After, Called, AtFinal, FinalizationOnly, Stalled, TurnOf, Audits, Written, Awaits, RealReviews, Trailing;
    hide PaceOf, TalkRow, Batched, Count, FinalReviews, Judged;
    HeadOf(enabled, inputs, k);
    var h := After(enabled, inputs, k);
    var s := h.state;
    FinalIsTaken(enabled, Topped(s), inputs(k), JudgementOf(s.guard), FinalizationOnly(s.guard));
    FinalDecided(enabled, Topped(s), inputs(k), JudgementOf(s.guard));
  }

  lemma {:induction false} FinalIsTaken(enabled: bool, s: Loop, input: TurnInput, judged: Judgement, only: bool)
    requires input.modelFault == None
    requires input.reply == Final || (only && input.plainText && !s.review.hasWrite)
    ensures Called(enabled, s, input, judged, only) == AtFinal(enabled, s, input, judged)
  {
    hide AtFinal;
  }

  lemma {:induction false} FinalDecided(enabled: bool, s: Loop, input: TurnInput, judged: Judgement)
    requires s.end == Running
    ensures var step := AtFinal(enabled, s, input, judged);
            var turn, end := step.turn, step.state.end;
            var d := ReviewOf(enabled, input);
            if input.finalFault.Some? then turn.kind == Faulted && end == Raised(input.finalFault.value)
            else if !s.review.hasWrite then turn.kind == Accepted && turn.review == None && end == Completed
            else if enabled && input.reviewFault.Some? then
              turn.kind == Faulted && end == Raised(input.reviewFault.value)
            else
              && turn.review == Some(d)
              && (turn.kind == FinalRejected <==> d.verdict == Redirect)
              && (turn.kind == Accepted <==>
                    d.verdict != Redirect &&
                    (s.review.awaiting || s.review.rounds >= 1 || d.failed ||
                     d.reason in {"review_subagent_disabled", "review_skipped_read_only",
                         "read_only_no_result_review"}))
              && turn.kind in {FinalRejected, Accepted, FinalHeld}
              && (turn.kind == Accepted <==> end == Completed) && (turn.kind != Accepted <==> end == Running)
  {
  }

  /** In the last turn of a stalled run whatever is no final is refused. */
  lemma {:induction false} StalledExactly(enabled: bool, inputs: nat -> TurnInput, k: nat)
    requires Goes(After(enabled, inputs, k).state)
    requires Answered(inputs, After(enabled, inputs, k).log) && Stalled(inputs, After(enabled, inputs, k).log)
    ensures var (turn, end) := TurnOf(enabled, inputs, k);
            && (turn.kind == FinalizationRefused <==> !Submits(inputs, After(enabled, inputs, k).log))
            && (turn.kind == FinalizationRefused ==> turn.ran == 0 && end == Left)
            && !Goes(After(enabled, inputs, k + 1).state)
  {
    hide After, Called, AtFinal, FinalizationOnly, Stalled, TurnOf, Audits, Written, Awaits, RealReviews, Trailing;
    hide PaceOf, TalkRow, Batched, Count, FinalReviews, Judged;
    HeadOf(enabled, inputs, k);
    var s := After(enabled, inputs, k).state;
    TurnKeepsGuard(enabled, Topped(s), inputs(k), JudgementOf(s.guard), true);
    OnlyAFinal(enabled, Topped(s), inputs(k), JudgementOf(s.guard));
  }

  lemma {:induction false} OnlyAFinal(enabled: bool, s: Loop, input: TurnInput, judged: Judgement)
    requires input.modelFault == None
    ensures var step := Called(enabled, s, input, judged, true);
            && (step.turn.kind == FinalizationRefused <==>
                  !(input.reply == Final || (input.plainText && !s.review.hasWrite)))
            && (step.turn.kind == FinalizationRefused ==> step.turn.ran == 0 && step.state.end == Left)
  {
    hide Accepts, Deciding;
  }

  /** Talk is passed on; the first malformed reply of a run is repaired and a second
      one given up on. */
  lemma {:induction false} TalkAndRetryExactly(enabled: bool, inputs: nat -> TurnInput, k: nat)
    requires Goes(After(enabled, inputs, k).state)
    requires Answered(inputs, After(enabled, inputs, k).log) && !Stalled(inputs, After(enabled, inputs, k).log)
    ensures var input, log := inputs(k), After(enabled, inputs, k).log;
            var (turn, end) := TurnOf(enabled, inputs, k);
            && (input.reply == Talk ==> turn.kind == Talked && end == Running)
            && (input.reply == Retry ==>
                  if Count(log, Repaired) == 0 then turn.kind == Repaired && end == Running
                  else turn.kind == GaveUp && end == Left)
            && (input.reply == Talk || input.reply == Retry ==> turn.ran == 0 && turn.review == None)
  {
    hide After, FinalizationOnly, Stalled, TurnOf, Audits, Written, Awaits, RealReviews, Trailing;
    hide PaceOf, TalkRow, Batched, Count, FinalReviews, Judged, AtFinal, AfterTools, AfterBatch;
    HeadOf(enabled, inputs, k);
  }

  /** The number of tools a reply asks for. */
  predicate AsksTools(reply: Reply) {
    reply.OneTool? || (reply.Batch? && reply.size > 0)
  }

  /** Tools run unless they fail; a batch that is the first one and answers a held
      final raises, an empty one runs nothing. When a periodic review is due it may
      fail, and if it and the one before it redirect the loop is left. */
  lemma {:induction false} ToolsExactly(enabled: bool, inputs: nat -> TurnInput, k: nat)
    requires Goes(After(enabled, inputs, k).state)
    requires Answered(inputs, After(enabled, inputs, k).log) && !Stalled(inputs, After(enabled, inputs, k).log)
    requires inputs(k).reply.OneTool? || inputs(k).reply.Batch?
    ensures var input, log := inputs(k), After(enabled, inputs, k).log;
            var (turn, end) := TurnOf(enabled, inputs, k);
            var p := PaceOf(enabled, inputs, log);
            if input.reply.Batch? && Awaits(log) && !Batched(inputs, k) then
              turn.kind == Faulted && end == Raised(UnboundTools)
            else if !AsksTools(input.reply) then turn.kind == EmptyBatch && turn.ran == 0 && end == Running
            else if input.toolFault.Some? then turn.kind == Faulted && end == Raised(input.toolFault.value)
            else if Due(p, SizeOf(input.reply)) && enabled && input.reviewFault.Some? then
              turn.kind == Faulted && end == Raised(input.reviewFault.value)
            else
              && turn.kind == RanTools && turn.ran == SizeOf(input.reply)
              && end == if Due(p, turn.ran) && p.redirected &&
                  Verdicts(enabled, input) == Redirect then Left else Running
  {
    hide After, FinalizationOnly, Stalled, TurnOf, Audits, Written, Awaits, RealReviews, Trailing, Next;
    hide PaceOf, TalkRow, Batched, Count, FinalReviews, Judged, AtFinal, AfterTools, Called;
    HeadOf(enabled, inputs, k);
    var s := After(enabled, inputs, k).state;
    ToolsAreTaken(enabled, s, inputs(k));
    var t, input := Topped(s), inputs(k);
    match input.reply
    case OneTool(repeated, writes) =>
      ToolsDecided(enabled, t.(protocol := t.protocol.(talks := 0)), input, JudgementOf(s.guard), 1, repeated, writes);
    case Batch(size, allBad, writes) =>
      ToolsDecided(enabled, t.(protocol := t.protocol.(talks := 0, toolsBound := true)), input, JudgementOf(s.guard),
                   size, allBad, writes);
  }

  lemma {:induction false} ToolsAreTaken(enabled: bool, s: Loop, input: TurnInput)
    requires input.topFault == None && !input.capped && Rejections(s.guard) < 2 && input.modelFault == None
    requires !FinalizationOnly(s.guard)
    ensures Next(enabled, s, input) == Responded(enabled, Topped(s), input, JudgementOf(s.guard), input.reply)
  {
    hide Responded, Judged;
  }

  lemma {:induction false} ToolsDecided(enabled: bool, s: Loop, input: TurnInput, judged: Judgement, size: nat,
      repeated: bool, writes: bool)
    requires s.end == Running && PaceFits(s.review)
    ensures var step := AfterTools(enabled, s, input, judged, size, repeated, writes);
            var turn, end := step.turn, step.state.end;
            var p := PaceIn(s.review);
            if input.toolFault.Some? then turn.kind == Faulted && end == Raised(input.toolFault.value)
            else if Due(p, size) && enabled && input.reviewFault.Some? then
              turn.kind == Faulted && end == Raised(input.reviewFault.value)
            else
              && turn.kind == RanTools && turn.ran == size
              && end == if Due(p, size) && p.redirected && Verdicts(enabled, input) == Redirect then Left else Running
  {
  }

  // ----- when a run goes on, and how it ends -----

  /** Which stand of the loop belongs to which kind of turn. */
  predicate EndFits(kind: Kind, end: End) {
    match kind
    case Accepted => end == Completed
    case Capped => end == BudgetCap
    case ConvergedOnRejections => end == RejectedFinals
    case Faulted => end.Raised?
    case GaveUp => end == Left
    case FinalizationRefused => end == Left
    case _ => end == Running || end == Left
  }

  /** What a turn says about the end of the loop. */
  predicate Closes(s: Loop, step: Step) {
    && EndFits(step.turn.kind, step.state.end)
    && (step.state.protocol.failed <==> s.protocol.failed || step.turn.kind == GaveUp)
    && (step.state.end == Running ==> step.state.finalizationAttempted == s.finalizationAttempted)
  }

  lemma {:induction false} ToolsClose(enabled: bool, s: Loop, p: Protocol, input: TurnInput, judged: Judgement,
      size: nat, repeated: bool, writes: bool)
    requires s.end == Running && p.failed == s.protocol.failed
    ensures Closes(s, AfterTools(enabled, s.(protocol := p), input, judged, size, repeated, writes))
  {
    hide Polled, Acted, Deciding;
  }

  lemma {:induction false} FinalCloses(enabled: bool, s: Loop, input: TurnInput, judged: Judgement)
    requires s.end == Running
    ensures Closes(s, AtFinal(enabled, s, input, judged))
  {
    hide Accepts, Deciding;
  }

  lemma {:induction false} OthersClose(enabled: bool, s: Loop, input: TurnInput, judged: Judgement)
    requires s.end == Running
    ensures Closes(s, AfterTalk(s, judged)) && Closes(s, AfterRetry(s, judged))
    ensures forall fault :: Closes(s, Fails(s, fault, Turn(judged, true, 0, None, Faulted)))
    ensures Closes(s, Step(s.(end := Left), Turn(judged, true, 0, None, FinalizationRefused)))
  {
  }

  lemma {:induction false} BatchCloses(enabled: bool, s: Loop, input: TurnInput, judged: Judgement, size: nat,
      allBad: bool, writes: bool)
    requires s.end == Running
    ensures Closes(s, AfterBatch(enabled, s, input, judged, size, allBad, writes))
  {
    hide AfterTools;
    ToolsClose(enabled, s, s.protocol.(talks := 0, toolsBound := true), input, judged, size, allBad, writes);
  }

  lemma {:induction false} TurnCloses(enabled: bool, s: Loop, input: TurnInput, judged: Judgement, only: bool)
    requires s.end == Running
    ensures Closes(s, Called(enabled, s, input, judged, only))
  {
    hide AfterTools, AtFinal, AfterTalk, AfterRetry, AfterBatch, Closes, Fails;
    FinalCloses(enabled, s, input, judged);
    OthersClose(enabled, s, input, judged);
    match input.reply
    case OneTool(repeated, writes) =>
      ToolsClose(enabled, s, s.protocol.(talks := 0), input, judged, 1, repeated, writes);
    case Batch(size, allBad, writes) => BatchCloses(enabled, s, input, judged, size, allBad, writes);
    case _ =>
  }

  /** The run goes on behind a turn exactly if that turn left the loop running, the
      run was not stalled before it, and fewer than 500 turns are done. */
  lemma {:induction false} GoesOnExactly(enabled: bool, inputs: nat -> TurnInput, k: nat)
    requires Goes(After(enabled, inputs, k).state)
    ensures Goes(After(enabled, inputs, k + 1).state) <==>
            TurnOf(enabled, inputs, k).1 == Running && !Stalled(inputs, After(enabled, inputs, k).log) && k + 1 < 500
  {
    hide After, Called, FinalizationOnly, Stalled, TurnOf, Audits, Written, Awaits, RealReviews, Trailing;
    hide PaceOf, TalkRow, Batched, Count, FinalReviews, Judged;
    HeadOf(enabled, inputs, k);
    var s := After(enabled, inputs, k).state;
    CalledCounts(enabled, Topped(s), inputs(k), JudgementOf(s.guard), FinalizationOnly(s.guard));
    TurnCloses(enabled, Topped(s), inputs(k), JudgementOf(s.guard), FinalizationOnly(s.guard));
  }

  lemma {:induction false} LastTurn(enabled: bool, inputs: nat -> TurnInput, m: nat) returns (n: nat)
    requires !Goes(After(enabled, inputs, m).state)
    ensures 1 <= n <= m && Goes(After(enabled, inputs, n - 1).state) && !Goes(After(enabled, inputs, n).state)
  {
    hide After;
    FirstHistory(enabled, inputs);
    if Goes(After(enabled, inputs, m - 1).state) { n := m; } else { n := LastTurn(enabled, inputs, m - 1); }
  }

  /** What follows a loop that has stopped behind its n-th turn. */
  function Settled(last: Turn, end: End, n: nat): End {
    if end != Running && end != Left then end
    else if last.kind == GaveUp || n == 500 then RetryLimit
    else ConvergenceGuard
  }

  /** The last turn of a loop that has stopped, and what follows the loop. */
  lemma {:induction false} StoppedAt(enabled: bool, inputs: nat -> TurnInput, n: nat, t: (Turn, End))
    requires 1 <= n <= MAX_ATTEMPTS_SAFETY
    requires Goes(After(enabled, inputs, n - 1).state) && t == TurnOf(enabled, inputs, n - 1)
    requires !Goes(After(enabled, inputs, n).state)
    ensures Run(enabled, false, inputs).log == After(enabled, inputs, n - 1).log + [t.0]
    ensures |After(enabled, inputs, n - 1).log| == n - 1
    ensures EndFits(t.0.kind, t.1) && Run(enabled, false, inputs).state.end == Settled(t.0, t.1, n)
  {
    hide After, Called, FinalizationOnly, Stalled, TurnOf, Audits, Written, Awaits, RealReviews, Trailing;
    hide PaceOf, TalkRow, Batched, Count, FinalReviews, Judged;
    HeadOf(enabled, inputs, n - 1);
    StoppedStays(enabled, inputs, n, MAX_ATTEMPTS_SAFETY);
    var s := After(enabled, inputs, n - 1).state;
    CalledCounts(enabled, Topped(s), inputs(n - 1), JudgementOf(s.guard), FinalizationOnly(s.guard));
    TurnCloses(enabled, Topped(s), inputs(n - 1), JudgementOf(s.guard), FinalizationOnly(s.guard));
  }

  /** How a run ends is read off its last turn: an accepted final, a cap, two rejected
      finals, a fault; and otherwise a retry limit if the model's replies were given up
      on or 500 turns were made, and a convergence stop if not. A cancelled run has no
      turn at all. */
  lemma {:induction false} RunEndsExactly(enabled: bool, inputs: nat -> TurnInput)
    ensures var run := Run(enabled, false, inputs);
            && 1 <= |run.log| <= 500
            && var last := run.log[|run.log| - 1].kind;
               match run.state.end
               case Completed => last == Accepted
               case BudgetCap => last == Capped
               case RejectedFinals => last == ConvergedOnRejections
               case Raised(_) => last == Faulted
               case RetryLimit =>
                 last == GaveUp || (|run.log| == 500 && last !in {Accepted, Capped, ConvergedOnRejections, Faulted})
               case ConvergenceGuard =>
                 |run.log| < 500 && last !in {Accepted, Capped, ConvergedOnRejections, Faulted, GaveUp}
               case _ => false
    ensures Run(enabled, true, inputs) == History(Run(enabled, true, inputs).state, [])
    ensures Run(enabled, true, inputs).state.end == Raised(Cancelled)
  {
    hide After, TurnOf, Ended;
    EveryRunEnds(enabled, false, inputs);
    var n := LastTurn(enabled, inputs, MAX_ATTEMPTS_SAFETY);
    StoppedAt(enabled, inputs, n, TurnOf(enabled, inputs, n - 1));
  }

  /** A run that has written nothing completes with the first final it submits. */
  lemma {:induction false} ReadOnlyFinalCompletes(enabled: bool, inputs: nat -> TurnInput, k: nat)
    requires Goes(After(enabled, inputs, k).state)
    requires Answered(inputs, After(enabled, inputs, k).log) && Submits(inputs, After(enabled, inputs, k).log)
    requires !Written(inputs, After(enabled, inputs, k).log, |After(enabled, inputs, k).log|)
    requires inputs(k).finalFault == None
    ensures var run := Run(enabled, false, inputs);
            run.state.end == Completed && |run.log| == k + 1 && run.log[k].kind == Accepted && run.log[k].review == None
  {
    hide After, TurnOf, Ended, Stalled, Written, Awaits, RealReviews, Trailing;
    FinalExactly(enabled, inputs, k);
    GoesOnExactly(enabled, inputs, k);
    HeadOf(enabled, inputs, k);
    AfterCounts(enabled, inputs, k);
    StoppedAt(enabled, inputs, k + 1, TurnOf(enabled, inputs, k));
  }
}
