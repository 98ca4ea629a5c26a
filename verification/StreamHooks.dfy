/** `RemoteExecutionHooks` of threadforge_worker/runtime.py: the object that owns
    the stream parser and the redaction buffer during one model call. */
module StreamHooks {
  import opened Text
  import opened Redaction
  import opened StreamParser
  import opened PlainFinals
  import opened SecretLists

  const CHUNK_LIMIT := 4000

  /** An `assistant.delta` event. */
  datatype Delta = Delta(text: string, isFinal: bool)

  /** The pieces of at most 4000 characters in which visible text is sent. */
  function Pieces(text: string): (r: seq<string>)
    ensures forall i :: 0 <= i < |r| ==> 0 < |r[i]| <= CHUNK_LIMIT
    decreases |text|
  {
    if text == "" then []
    else
      var n := if |text| < CHUNK_LIMIT then |text| else CHUNK_LIMIT;
      [text[..n]] + Pieces(text[n..])
  }

  lemma {:induction false} PiecesJoin(text: string)
    ensures Concat(Pieces(text)) == text
    decreases |text|
  {
    if text != "" {
      var n := if |text| < CHUNK_LIMIT then |text| else CHUNK_LIMIT;
      PiecesJoin(text[n..]);
      assert ([text[..n]] + Pieces(text[n..]))[1..] == Pieces(text[n..]);
      TakeAndDrop(text, n);
    }
  }

  /** All pieces but the last are full. */
  lemma {:induction false} PiecesFull(text: string)
    ensures forall i :: 0 <= i < |Pieces(text)| - 1 ==> |Pieces(text)[i]| == 4000
    decreases |text|
  {
    if text != "" {
      var n := if |text| < CHUNK_LIMIT then |text| else CHUNK_LIMIT;
      PiecesFull(text[n..]);
      if n < CHUNK_LIMIT { assert text[n..] == ""; }
    }
  }

  lemma {:induction false} NextPiece(text: string, offset: nat, pieces: seq<string>)
    requires offset < |text| && pieces + Pieces(text[offset..]) == Pieces(text)
    ensures var end := if offset + CHUNK_LIMIT < |text| then offset + CHUNK_LIMIT else |text|;
            (pieces + [text[offset..end]]) + Pieces(text[end..]) == Pieces(text)
  {
    var end := if offset + CHUNK_LIMIT < |text| then offset + CHUNK_LIMIT else |text|;
    var rest := text[offset..];
    assert rest[..end - offset] == text[offset..end] && rest[end - offset..] == text[end..];
  }

  lemma {:induction false} PiecesEnds(text: string, isFinal: bool)
    ensures Pieces("") == [] && Deltas([], isFinal) == []
    ensures text[0..] == text && [] + Pieces(text) == Pieces(text)
  {
  }

  lemma {:induction false} DeltasSnoc(pieces: seq<string>, chunk: string, isFinal: bool)
    ensures Deltas(pieces + [chunk], isFinal) == Deltas(pieces, isFinal) + [Delta(chunk, isFinal)]
  {
  }

  function Deltas(pieces: seq<string>, isFinal: bool): seq<Delta> {
    seq(|pieces|, i requires 0 <= i < |pieces| => Delta(pieces[i], isFinal))
  }

  function TextSent(deltas: seq<Delta>): string {
    if deltas == [] then "" else deltas[0].text + TextSent(deltas[1..])
  }

  /** The events and the held pieces after visible text has gone where it goes. */
  function Delivered(
    active: bool, sent: seq<Delta>, held: seq<string>, text: string, isFinal: bool): (seq<Delta>, seq<string>)
  {
    if active then (sent, held + Pieces(text)) else (sent + Deltas(Pieces(text), isFinal), held)
  }

  /** All that the destination has: the candidate while one is active, else the reader. */
  function TextAt(active: bool, sent: seq<Delta>, held: seq<string>): string {
    if active then Concat(held) else TextSent(sent)
  }

  lemma {:induction false} ConcatAppend(a: seq<string>, b: seq<string>)
    ensures Concat(a + b) == Concat(a) + Concat(b)
  {
    if a == [] {
      assert a + b == b;
    } else {
      assert (a + b)[1..] == a[1..] + b;
      ConcatAppend(a[1..], b);
      Assoc3(a[0], Concat(a[1..]), Concat(b));
    }
  }

  lemma {:induction false} TextSentAppend(deltas: seq<Delta>, pieces: seq<string>, isFinal: bool)
    ensures TextSent(deltas + Deltas(pieces, isFinal)) == TextSent(deltas) + Concat(pieces)
    decreases |deltas| + |pieces|
  {
    var more := Deltas(pieces, isFinal);
    if deltas != [] {
      assert (deltas + more)[1..] == deltas[1..] + more;
      TextSentAppend(deltas[1..], pieces, isFinal);
      Assoc3(deltas[0].text, TextSent(deltas[1..]), Concat(pieces));
    } else if pieces != [] {
      assert [] + more == more;
      assert more[1..] == Deltas(pieces[1..], isFinal);
      TextSentAppend([], pieces[1..], isFinal);
      assert [] + more[1..] == more[1..];
    } else {
      assert deltas + more == [];
    }
  }

  /** Visible text arrives whole and in order. */
  lemma {:induction false} DeliveredArrives(
    active: bool, sent: seq<Delta>, held: seq<string>, text: string, isFinal: bool)
    ensures var (now, kept) := Delivered(active, sent, held, text, isFinal);
            TextAt(active, now, kept) == TextAt(active, sent, held) + text
  {
    hide Pieces, Deltas;
    PiecesJoin(text);
    if active { ConcatAppend(held, Pieces(text)); } else { TextSentAppend(sent, Pieces(text), isFinal); }
  }

  lemma {:induction false} NothingDelivered(active: bool, sent: seq<Delta>, held: seq<string>, isFinal: bool)
    ensures Delivered(active, sent, held, "", isFinal) == (sent, held)
  {
    assert held + Pieces("") == held && sent + Deltas([], isFinal) == sent;
  }

  /** What a run of deltas, and the flush of `after_model`, has published. */
  function Published(
    allowPlain: bool, order: seq<string>, secrets: seq<string>, texts: seq<string>, flushed: bool): Flow
    requires AllNonEmpty(order) && AllNonEmpty(secrets)
  {
    var flow := PublishAll(order, secrets, Emissions(allowPlain, texts));
    if flushed then AfterEmission(order, secrets, flow, FLUSH) else flow
  }

  const FLUSH := Emit("", true, false)

  lemma {:induction false} NothingPublished(allowPlain: bool, order: seq<string>, secrets: seq<string>)
    requires AllNonEmpty(order) && AllNonEmpty(secrets)
    ensures Published(allowPlain, order, secrets, [], false) == Flow("", "")
    ensures AfterDeltas(allowPlain, []) == START
  {
  }

  /** What one more emission adds depends on the pending text only. */
  lemma {:induction false} OneMoreEmission(order: seq<string>, secrets: seq<string>, flow: Flow, e: Emission)
    requires AllNonEmpty(order) && AllNonEmpty(secrets)
    ensures var now := AfterEmission(order, secrets, Flow("", flow.pending), e);
            AfterEmission(order, secrets, flow, e) == Flow(flow.shown + now.shown, now.pending)
  {
    hide Publish;
    if e.Silent? { assert flow.shown + "" == flow.shown; }
  }

  lemma {:induction false} OneMoreDelta(
    allowPlain: bool, order: seq<string>, secrets: seq<string>, received: seq<string>, text: string)
    requires AllNonEmpty(order) && AllNonEmpty(secrets)
    ensures var (q, e) := Feed(allowPlain, AfterDeltas(allowPlain, received), text);
            var flow := Published(allowPlain, order, secrets, received, false);
            var now := AfterEmission(order, secrets, Flow("", flow.pending), e);
            && AfterDeltas(allowPlain, received + [text]) == q
            && Published(allowPlain, order, secrets, received + [text], false) ==
               Flow(flow.shown + now.shown, now.pending)
  {
    hide Feed, Publish, AfterEmission;
    var texts := received + [text];
    assert texts[..|texts| - 1] == received && texts[|texts| - 1] == text;
    var es := Emissions(allowPlain, received);
    var now := Feed(allowPlain, AfterDeltas(allowPlain, received), text).1;
    OneMoreEmission(order, secrets, PublishAll(order, secrets, es), now);
    if now.Silent? {
      assert es + [] == es;
      SilentAdds(order, secrets, PublishAll(order, secrets, es));
    } else {
      assert (es + [now])[..|es + [now]| - 1] == es;
    }
  }

  lemma {:induction false} SilentAdds(order: seq<string>, secrets: seq<string>, flow: Flow)
    requires AllNonEmpty(order) && AllNonEmpty(secrets)
    ensures AfterEmission(order, secrets, flow, Silent) == flow
  {
  }

  lemma {:induction false} FinalFlag(allowPlain: bool, p: Parser, text: string)
    ensures var e := Feed(allowPlain, p, text).1; e.Emit? ==> e.isFinal == (p.mode == PlainFinal)
  {
    hide FirstMarker, LStrip;
  }

  class RemoteExecutionHooks {
    const allowPlainTextFinal: bool
    /** Secret values in name order, and the same values longest first. */
    const streamSecrets: seq<string>
    const redactOrder: seq<string>

    var streamBuffer: string
    var streamMode: Mode
    var redactionBuffer: string
    var modelReply: string
    var answerCandidateActive: bool
    var answerCandidateDeltas: seq<string>
    var sent: seq<Delta>

    /** The execute-stage deltas received since the stream was last reset, whether
        `after_model` has flushed a plain answer since, and what the reply and its
        destination held at the reset. */
    ghost var received: seq<string>
    ghost var flushed: bool
    ghost var replyBase: string
    ghost var destinationBase: string

    function ParserState(): Parser
      reads this
    {
      Parser(streamMode, streamBuffer)
    }

    /** What the candidate holds while one is active, else what the reader has. */
    function Destination(): string
      reads this`sent, this`answerCandidateDeltas, this`answerCandidateActive
    {
      TextAt(answerCandidateActive, sent, answerCandidateDeltas)
    }

    predicate Ready() {
      AllNonEmpty(redactOrder) && AllNonEmpty(streamSecrets)
    }

    /** Reply and destination have grown, since the reset, by what the received
        deltas publish. */
    ghost predicate Valid()
      reads this
    {
      && Ready()
      && (if flushed then
            ParserState() == Parser(Blocked, "") && AfterDeltas(allowPlainTextFinal, received).mode == PlainFinal
          else
            ParserState() == AfterDeltas(allowPlainTextFinal, received))
      && Holds(Published(allowPlainTextFinal, redactOrder, streamSecrets, received, flushed))
    }

    ghost predicate Holds(flow: Flow)
      reads this`replyBase, this`destinationBase, this`redactionBuffer
      reads this`modelReply, this`sent, this`answerCandidateDeltas, this`answerCandidateActive
    {
      && modelReply == replyBase + flow.shown
      && redactionBuffer == flow.pending
      && Destination() == destinationBase + flow.shown
    }

    /** For a regular text, the received deltas have been shown as one function of
        the text, and exactly that has arrived. */
    ghost predicate ShowsWholeText()
      requires Ready()
      reads this
    {
      Regular(allowPlainTextFinal, redactOrder, streamSecrets, Concat(received)) ==>
        var visible := VisibleText(allowPlainTextFinal, redactOrder, streamSecrets, Concat(received), flushed);
        modelReply == replyBase + visible && Destination() == destinationBase + visible
    }

    ghost predicate StandsAt(texts: seq<string>, wasFlushed: bool, reply: string, destination: string)
      reads this
    {
      received == texts && flushed == wasFlushed && replyBase == reply && destinationBase == destination
    }

    /** The reply has grown, and what is new in it has been sent or held in pieces. */
    ghost predicate Grew(reply: string, was: seq<Delta>, held: seq<string>, isFinal: bool)
      reads this`modelReply, this`sent, this`answerCandidateDeltas, this`answerCandidateActive
    {
      && |reply| <= |modelReply| && modelReply[..|reply|] == reply
      && (sent, answerCandidateDeltas) ==
         Delivered(answerCandidateActive, was, held, modelReply[|reply|..], isFinal)
    }

    /** What one emission does to reply, redaction buffer and destination. */
    ghost predicate Emitted(flow: Flow, was: seq<Delta>, held: seq<string>, e: Emission)
      requires Ready()
      reads this`redactionBuffer
      reads this`modelReply, this`sent, this`answerCandidateDeltas, this`answerCandidateActive
    {
      var now := AfterEmission(redactOrder, streamSecrets, Flow("", flow.pending), e);
      && modelReply == flow.shown + now.shown
      && redactionBuffer == now.pending
      && (sent, answerCandidateDeltas) ==
         Delivered(answerCandidateActive, was, held, now.shown, e.Emit? && e.isFinal)
    }

    constructor (allowPlain: bool, secrets: seq<string>, order: seq<string>)
      requires AllNonEmpty(order) && AllNonEmpty(secrets)
      ensures Valid() && sent == [] && !answerCandidateActive && StandsAt([], false, "", "")
      ensures allowPlainTextFinal == allowPlain && streamSecrets == secrets && redactOrder == order
    {
      hide Published, AfterDeltas;
      allowPlainTextFinal, streamSecrets, redactOrder := allowPlain, secrets, order;
      streamBuffer, streamMode, redactionBuffer, modelReply := "", Pending, "", "";
      answerCandidateActive, answerCandidateDeltas, sent, received := false, [], [], [];
      flushed, replyBase, destinationBase := false, "", "";
      NothingPublished(allowPlain, order, secrets);
    }

    /** The lines that reset the stream; the ghost fields follow. */
    method ResetStream()
      requires Ready()
      modifies this`streamBuffer, this`streamMode, this`redactionBuffer
      modifies this`received, this`flushed, this`replyBase, this`destinationBase
      ensures Valid() && StandsAt([], false, modelReply, Destination())
    {
      hide Published, AfterDeltas, TextAt;
      streamBuffer := "";
      streamMode := Pending;
      redactionBuffer := "";
      received, flushed, replyBase, destinationBase := [], false, modelReply, Destination();
      NothingPublished(allowPlainTextFinal, redactOrder, streamSecrets);
      assert modelReply + "" == modelReply && Destination() + "" == Destination();
    }

    /** The stream part of `before_model`. */
    method BeforeModel(cancelled: bool) returns (raised: bool)
      requires Valid()
      modifies this
      ensures Valid() && raised == cancelled
      ensures sent == old(sent) && answerCandidateActive == old(answerCandidateActive)
      ensures answerCandidateDeltas == old(answerCandidateDeltas)
      ensures if cancelled then StandsAt(old(received), old(flushed), old(replyBase), old(destinationBase))
              else modelReply == "" && StandsAt([], false, "", old(Destination()))
    {
      hide Published, AfterDeltas, TextAt;
      raised := cancelled;
      if !cancelled {
        modelReply := "";
        ResetStream();
      }
    }

    /** `_emit_public_delta`. */
    method EmitPublicDelta(text: string, completed: bool, isFinal: bool)
      requires Ready()
      modifies this`redactionBuffer, this`modelReply, this`sent, this`answerCandidateDeltas
      ensures Emitted(Flow(old(modelReply), old(redactionBuffer)), old(sent), old(answerCandidateDeltas),
                      Emit(text, completed, isFinal))
    {
      hide RedactAll, HeldBy, Delivered;
      redactionBuffer := redactionBuffer + text;
      var visible: string;
      if completed {
        visible := RedactAll(redactOrder, redactionBuffer);
        redactionBuffer := "";
      } else {
        redactionBuffer := RedactAll(redactOrder, redactionBuffer);
        var keep := HeldBack(redactionBuffer);
        visible := redactionBuffer[..|redactionBuffer| - keep];
        redactionBuffer := redactionBuffer[|redactionBuffer| - keep..];
      }
      NothingDelivered(answerCandidateActive, sent, answerCandidateDeltas, isFinal);
      if visible != "" {
        modelReply := modelReply + visible;
        Send(visible, isFinal);
      }
      assert "" + visible == visible && old(modelReply) + "" == old(modelReply);
    }

    /** The loops over the secrets and their prefix lengths. */
    method HeldBack(buffer: string) returns (keep: nat)
      requires Ready()
      ensures keep == HeldBy(buffer, streamSecrets, 0)
      ensures keep <= |buffer|
    {
      keep := 0;
      for i := 0 to |streamSecrets|
        invariant keep <= |buffer|
        invariant HeldBy(buffer, streamSecrets[i..], keep) == HeldBy(buffer, streamSecrets, 0)
      {
        var secret := streamSecrets[i];
        assert streamSecrets[i..][0] == secret && streamSecrets[i..][1..] == streamSecrets[i + 1..];
        var maximum := MaximumHeld(buffer, secret);
        var size, floor := maximum, keep;
        while size > floor
          invariant 0 <= size <= maximum && keep == floor
          invariant LargestHeld(buffer, secret, size, floor) == LargestHeld(buffer, secret, maximum, floor)
        {
          if EndsWith(buffer, secret[..size]) {
            keep := size;
            break;
          }
          size := size - 1;
        }
        assert keep == LargestHeld(buffer, secret, maximum, floor);
      }
    }

    method Send(visible: string, isFinal: bool)
      modifies this`sent, this`answerCandidateDeltas
      ensures (sent, answerCandidateDeltas) ==
              Delivered(answerCandidateActive, old(sent), old(answerCandidateDeltas), visible, isFinal)
    {
      hide Pieces, Deltas;
      var offset := 0;
      ghost var pieces: seq<string> := [];
      PiecesEnds(visible, isFinal);
      while offset < |visible|
        invariant offset <= |visible|
        invariant pieces + Pieces(visible[offset..]) == Pieces(visible)
        invariant if answerCandidateActive then
                    sent == old(sent) && answerCandidateDeltas == old(answerCandidateDeltas) + pieces
                  else
                    sent == old(sent) + Deltas(pieces, isFinal) &&
                    answerCandidateDeltas == old(answerCandidateDeltas)
      {
        var end := if offset + CHUNK_LIMIT < |visible| then offset + CHUNK_LIMIT else |visible|;
        var chunk := visible[offset..end];
        NextPiece(visible, offset, pieces);
        DeltasSnoc(pieces, chunk, isFinal);
        if answerCandidateActive {
          answerCandidateDeltas := answerCandidateDeltas + [chunk];
        } else {
          sent := sent + [Delta(chunk, isFinal)];
        }
        pieces := pieces + [chunk];
        offset := end;
      }
      assert visible[offset..] == "" && pieces + [] == pieces;
    }

    /** `model_text_delta`. The stage is compared with "execute"; a cancelled token
        raises before anything is changed. */
    method ModelTextDelta(cancelled: bool, stage: string, text: string) returns (raised: bool)
      requires Valid()
      modifies this
      ensures Valid() && raised == cancelled && answerCandidateActive == old(answerCandidateActive)
      ensures StandsAt(if cancelled || stage != "execute" || old(flushed) then old(received)
                       else old(received) + [text],
                       old(flushed), old(replyBase), old(destinationBase))
      ensures Grew(old(modelReply), old(sent), old(answerCandidateDeltas), old(streamMode) == PlainFinal)
      ensures cancelled || stage != "execute" ==> modelReply == old(modelReply)
      ensures ShowsWholeText()
    {
      hide Published, AfterDeltas, Feed, Delivered, TextAt, AfterEmission;
      hide Emitted, ShowsWholeText, Grew, Holds;
      if cancelled || stage != "execute" || streamMode == Blocked {
        NothingGrew(streamMode == PlainFinal);
        if !cancelled && stage == "execute" && !flushed {
          OneMoreDelta(allowPlainTextFinal, redactOrder, streamSecrets, received, text);
          BlockedAdds(text, Published(allowPlainTextFinal, redactOrder, streamSecrets, received, false));
          received := received + [text];
        }
        SeenIsWholeText();
        return cancelled;
      }
      ghost var flow := Published(allowPlainTextFinal, redactOrder, streamSecrets, received, false);
      HoldsParts(flow);
      ghost var p := ParserState();
      ghost var e := Feed(allowPlainTextFinal, p, text).1;
      ReadDelta(text);
      OneMoreDelta(allowPlainTextFinal, redactOrder, streamSecrets, received, text);
      FinalFlag(allowPlainTextFinal, p, text);
      EmittedHolds(flow, old(modelReply), old(sent), old(answerCandidateDeltas), e, p.mode == PlainFinal);
      received := received + [text];
      SeenIsWholeText();
      raised := false;
    }

    /** The rest of `model_text_delta`, by the stream mode. */
    method ReadDelta(text: string)
      requires Ready() && streamMode != Blocked
      modifies this`streamBuffer, this`streamMode
      modifies this`redactionBuffer, this`modelReply, this`sent, this`answerCandidateDeltas
      ensures ParserState() == Feed(allowPlainTextFinal, old(ParserState()), text).0
      ensures Emitted(Flow(old(modelReply), old(redactionBuffer)), old(sent), old(answerCandidateDeltas),
                      Feed(allowPlainTextFinal, old(ParserState()), text).1)
    {
      hide FirstMarker, FeedBody, LStrip, Last, Emitted;
      match streamMode {
        case Blocked =>
        case PlainFinal => EmitPublicDelta(text, false, true);
        case Final =>
          streamBuffer := streamBuffer + text;
          ReadBody();
        case Pending =>
          streamBuffer := streamBuffer + text;
          match FirstMarker(streamBuffer) {
            case NoMarker =>
              var stripped := LStrip(streamBuffer);
              if allowPlainTextFinal && stripped != "" && stripped[0] != '<' {
                streamMode := PlainFinal;
                var visible := streamBuffer;
                streamBuffer := "";
                EmitPublicDelta(visible, false, false);
              } else {
                streamBuffer := Last(streamBuffer, PENDING_WINDOW);
                SilentEmits();
              }
            case Refusing =>
              streamMode := Blocked;
              streamBuffer := "";
              SilentEmits();
            case Answer(position) =>
              streamMode := Final;
              streamBuffer := streamBuffer[position + |OPENING|..];
              ReadBody();
          }
      }
    }

    /** The tail of `model_text_delta`, once inside `<final>`. */
    method ReadBody()
      requires Ready() && streamMode == Final
      modifies this`streamBuffer, this`streamMode
      modifies this`redactionBuffer, this`modelReply, this`sent, this`answerCandidateDeltas
      ensures ParserState() == FeedBody(old(streamBuffer)).0
      ensures Emitted(Flow(old(modelReply), old(redactionBuffer)), old(sent), old(answerCandidateDeltas),
                      FeedBody(old(streamBuffer)).1)
    {
      hide FindFrom, Emitted;
      var closeAt := Find(streamBuffer, CLOSING);
      var completed := closeAt >= 0;
      var visible: string;
      if completed {
        visible := streamBuffer[..closeAt];
        streamBuffer := "";
        streamMode := Blocked;
      } else {
        var keep := |CLOSING| - 1;
        if |streamBuffer| <= keep {
          SilentEmits();
          return;
        }
        visible := streamBuffer[..|streamBuffer| - keep];
        streamBuffer := streamBuffer[|streamBuffer| - keep..];
      }
      EmitPublicDelta(visible, completed, false);
    }

    lemma HoldsParts(flow: Flow)
      requires Holds(flow)
      ensures modelReply == replyBase + flow.shown && redactionBuffer == flow.pending
      ensures TextAt(answerCandidateActive, sent, answerCandidateDeltas) == destinationBase + flow.shown
    {
    }

    lemma SilentEmits()
      requires Ready()
      ensures Emitted(Flow(modelReply, redactionBuffer), sent, answerCandidateDeltas, Silent)
    {
      NothingDelivered(answerCandidateActive, sent, answerCandidateDeltas, false);
      assert modelReply + "" == modelReply;
    }

    lemma NothingGrew(isFinal: bool)
      ensures Grew(modelReply, sent, answerCandidateDeltas, isFinal)
    {
      hide Delivered;
      NothingDelivered(answerCandidateActive, sent, answerCandidateDeltas, isFinal);
      assert modelReply[|modelReply|..] == "";
    }

    lemma BlockedAdds(text: string, flow: Flow)
      requires Ready() && streamMode == Blocked
      ensures Feed(allowPlainTextFinal, ParserState(), text) == (ParserState(), Silent)
      ensures AfterEmission(redactOrder, streamSecrets, Flow("", flow.pending), Silent) == Flow("", flow.pending)
      ensures flow.shown + "" == flow.shown
    {
    }

    /** After an emission reply and destination hold what was published before and
        what it adds. */
    lemma EmittedHolds(flow: Flow, reply: string, was: seq<Delta>, held: seq<string>, e: Emission, isFinal: bool)
      requires Ready() && reply == replyBase + flow.shown && Emitted(Flow(reply, flow.pending), was, held, e)
      requires TextAt(answerCandidateActive, was, held) == destinationBase + flow.shown
      requires e.Emit? ==> e.isFinal == isFinal
      ensures var now := AfterEmission(redactOrder, streamSecrets, Flow("", flow.pending), e);
              Holds(Flow(flow.shown + now.shown, now.pending))
      ensures Grew(reply, was, held, isFinal)
    {
      hide AfterEmission, Delivered, TextAt;
      var now := AfterEmission(redactOrder, streamSecrets, Flow("", flow.pending), e);
      DeliveredArrives(answerCandidateActive, was, held, now.shown, e.Emit? && e.isFinal);
      Assoc3(replyBase, flow.shown, now.shown);
      Assoc3(destinationBase, flow.shown, now.shown);
      assert modelReply[|reply|..] == now.shown;
      if e.Silent? {
        SilentAdds(redactOrder, streamSecrets, Flow("", flow.pending));
        NothingDelivered(answerCandidateActive, was, held, isFinal);
        NothingDelivered(answerCandidateActive, was, held, false);
      }
    }

    lemma SeenIsWholeText()
      requires Valid()
      ensures ShowsWholeText()
    {
      hide Published, AfterDeltas, VisibleText, Regular, TextAt;
      if Regular(allowPlainTextFinal, redactOrder, streamSecrets, Concat(received)) {
        ReplyIsOneFunction(allowPlainTextFinal, redactOrder, streamSecrets, received, flushed);
      }
    }

    /** `after_model`: a plain answer is flushed when the call returns. */
    method AfterModel(cancelled: bool) returns (raised: bool)
      requires Valid()
      modifies this
      ensures Valid() && raised == cancelled && answerCandidateActive == old(answerCandidateActive)
      ensures StandsAt(old(received), old(flushed) || (!cancelled && old(streamMode) == PlainFinal),
                       old(replyBase), old(destinationBase))
      ensures Grew(old(modelReply), old(sent), old(answerCandidateDeltas), false)
      ensures cancelled || old(streamMode) != PlainFinal ==>
                modelReply == old(modelReply) && ParserState() == old(ParserState())
      ensures ShowsWholeText()
    {
      hide Published, Emissions, AfterDeltas, Delivered, TextAt, AfterEmission;
      hide Emitted, ShowsWholeText, Grew;
      raised := cancelled;
      if !cancelled && streamMode == PlainFinal {
        ghost var flow := Published(allowPlainTextFinal, redactOrder, streamSecrets, received, false);
        PlainBuffer(allowPlainTextFinal, received);
        EmitPublicDelta("", true, false);
        streamMode := Blocked;
        EmittedHolds(flow, old(modelReply), old(sent), old(answerCandidateDeltas), FLUSH, false);
        Flushes(allowPlainTextFinal, redactOrder, streamSecrets, received);
        flushed := true;
      } else {
        NothingGrew(false);
      }
      SeenIsWholeText();
    }

    method BeginAnswerCandidate(cancelled: bool) returns (raised: bool)
      requires Valid()
      modifies this
      ensures Valid() && raised == cancelled && sent == old(sent) && modelReply == old(modelReply)
      ensures if cancelled then
                && StandsAt(old(received), old(flushed), old(replyBase), old(destinationBase))
                && answerCandidateActive == old(answerCandidateActive)
                && answerCandidateDeltas == old(answerCandidateDeltas)
              else
                answerCandidateActive && answerCandidateDeltas == [] && StandsAt([], false, modelReply, "")
    {
      hide Published, AfterDeltas;
      raised := cancelled;
      if !cancelled {
        answerCandidateActive := true;
        answerCandidateDeltas := [];
        ResetStream();
      }
    }

    /** An accepted candidate is sent exactly as it was held, in order, and the
        stream goes on as it was. */
    method CommitAnswerCandidate(cancelled: bool) returns (raised: bool)
      requires Valid()
      modifies this
      ensures Valid() && raised == cancelled
      ensures modelReply == old(modelReply) && ParserState() == old(ParserState())
      ensures redactionBuffer == old(redactionBuffer)
      ensures if !cancelled && old(answerCandidateActive) then
                && sent == old(sent) + Deltas(old(answerCandidateDeltas), false)
                && Destination() == TextSent(old(sent)) + old(Destination())
                && !answerCandidateActive && answerCandidateDeltas == []
                && StandsAt(old(received), old(flushed), old(replyBase), TextSent(old(sent)) + old(destinationBase))
              else
                && sent == old(sent) && answerCandidateDeltas == old(answerCandidateDeltas)
                && answerCandidateActive == old(answerCandidateActive)
                && StandsAt(old(received), old(flushed), old(replyBase), old(destinationBase))
    {
      hide Published, AfterDeltas, TextSent, Concat;
      raised := cancelled;
      if cancelled || !answerCandidateActive {
        return;
      }
      var pending := answerCandidateDeltas;
      answerCandidateActive := false;
      answerCandidateDeltas := [];
      for i := 0 to |pending|
        invariant !answerCandidateActive && answerCandidateDeltas == []
        invariant sent == old(sent) + Deltas(pending[..i], false)
        invariant StandsAt(old(received), old(flushed), old(replyBase), old(destinationBase))
        invariant modelReply == old(modelReply) && ParserState() == old(ParserState())
        invariant redactionBuffer == old(redactionBuffer)
      {
        assert Deltas(pending[..i + 1], false) == Deltas(pending[..i], false) + [Delta(pending[i], false)];
        sent := sent + [Delta(pending[i], false)];
      }
      assert pending[..|pending|] == pending;
      TextSentAppend(old(sent), pending, false);
      ghost var flow := Published(allowPlainTextFinal, redactOrder, streamSecrets, received, flushed);
      Assoc3(TextSent(old(sent)), destinationBase, flow.shown);
      destinationBase := TextSent(old(sent)) + destinationBase;
    }

    /** A rejected candidate leaves nothing behind and sends nothing. */
    method DiscardAnswerCandidate()
      requires Valid()
      modifies this
      ensures Valid() && sent == old(sent) && modelReply == old(modelReply)
      ensures !answerCandidateActive && answerCandidateDeltas == []
      ensures StandsAt([], false, modelReply, TextSent(sent))
    {
      hide Published, AfterDeltas;
      answerCandidateActive := false;
      answerCandidateDeltas := [];
      ResetStream();
    }
  }

  lemma {:induction false} PlainBuffer(allowPlain: bool, texts: seq<string>)
    requires AfterDeltas(allowPlain, texts).mode == PlainFinal
    ensures AfterDeltas(allowPlain, texts).buffer == ""
    decreases |texts|
  {
    hide FirstMarker, LStrip, Find, Last;
    if texts != [] {
      var p := AfterDeltas(allowPlain, texts[..|texts| - 1]);
      if p.mode == PlainFinal { PlainBuffer(allowPlain, texts[..|texts| - 1]); }
    }
  }

  lemma {:induction false} Flushes(allowPlain: bool, order: seq<string>, secrets: seq<string>, texts: seq<string>)
    requires AllNonEmpty(order) && AllNonEmpty(secrets)
    ensures var flow := Published(allowPlain, order, secrets, texts, false);
            var now := AfterEmission(order, secrets, Flow("", flow.pending), FLUSH);
            Published(allowPlain, order, secrets, texts, true) == Flow(flow.shown + now.shown, now.pending)
  {
    hide AfterEmission, PublishAll, Emissions;
    OneMoreEmission(order, secrets, PublishAll(order, secrets, Emissions(allowPlain, texts)), FLUSH);
  }

  // ----- the whole pipeline is one function of the text -----

  /** The configurations the filter is faithful for: one safe secret, or any list
      that is untangled and apart from the marker. */
  ghost predicate Faithful(order: seq<string>, secrets: seq<string>) {
    || (|order| == 1 && order == secrets && order[0] != "" && SafeSecret(order[0]))
    || (Configured(order, secrets) && Untangled(order))
  }

  /** The texts whose display does not depend on the cutting. */
  ghost predicate Regular(allowPlain: bool, order: seq<string>, secrets: seq<string>, text: string) {
    Faithful(order, secrets) && (allowPlain ==> NeverPlain(text) || PlainThroughout(text))
  }

  /** The redaction without the tail that may be the beginning of a secret. */
  function Unheld(order: seq<string>, secrets: seq<string>, text: string): string
    requires AllNonEmpty(order) && AllNonEmpty(secrets)
  {
    var whole := RedactAll(order, text);
    whole[..|whole| - HeldBy(whole, secrets, 0)]
  }

  /** The body without its closing tag, or the plain answer, redacted; before its
      end has come, without what may still change. */
  function VisibleText(
    allowPlain: bool, order: seq<string>, secrets: seq<string>, text: string, flushed: bool): string
    requires AllNonEmpty(order) && AllNonEmpty(secrets)
  {
    if allowPlain && PlainThroughout(text) then
      if flushed then RedactAll(order, text) else Unheld(order, secrets, text)
    else
      match ReadText(text)
      case Closed(body) => RedactAll(order, body)
      case r => Unheld(order, secrets, PassedOn(r))
  }

  lemma {:induction false} PublishSingle(secret: string, pending: string, text: string, completed: bool)
    requires secret != ""
    ensures Publish([secret], [secret], pending, text, completed) ==
            if completed then Flow(Redact(secret, pending + text), "") else Push(secret, pending, text)
  {
    RedactAllSingle(secret, pending + text);
    HeldBySingle(secret, Redact(secret, pending + text));
  }

  lemma {:induction false} OpenRun(secret: string, es: seq<Emission>)
    requires secret != "" && SafeSecret(secret) && NoneCompletes(es)
    ensures Splits(secret, PublishAll([secret], [secret], es), Passed(es))
    decreases |es|
  {
    hide Publish, Redact, Held;
    if es == [] {
      EmptySplits(secret);
    } else {
      var init, last := es[..|es| - 1], es[|es| - 1];
      OpenRun(secret, init);
      var before := PublishAll([secret], [secret], init);
      match last {
        case Silent => assert Passed(init) + "" == Passed(init);
        case Emit(text, completed, _) =>
          PublishSingle(secret, before.pending, text, completed);
          PushSplits(secret, before, Passed(init), text);
      }
    }
  }

  lemma {:induction false} EmptySplits(secret: string)
    requires secret != ""
    ensures Splits(secret, Flow("", ""), "")
  {
    ReplaceNone("", secret, REDACTED_VALUE);
  }

  lemma {:induction false} ClosedRun(secret: string, es: seq<Emission>)
    requires secret != "" && SafeSecret(secret) && EndsAtCompletion(es) && Complete(es)
    ensures PublishAll([secret], [secret], es).shown == Redact(secret, Passed(es))
  {
    hide Publish, Redact, Held;
    var init, last := es[..|es| - 1], es[|es| - 1];
    OpenRun(secret, init);
    var before := PublishAll([secret], [secret], init);
    PublishSingle(secret, before.pending, last.text, true);
    SplitResumes(secret, before, Passed(init), last.text);
  }

  lemma {:induction false} OpenShows(order: seq<string>, secrets: seq<string>, es: seq<Emission>)
    requires AllNonEmpty(order) && AllNonEmpty(secrets) && Faithful(order, secrets) && NoneCompletes(es)
    ensures PublishAll(order, secrets, es).shown == Unheld(order, secrets, Passed(es))
  {
    hide PublishAll, RedactAll, HeldBy, Redact, Held, Configured, Untangled;
    var flow := PublishAll(order, secrets, es);
    var whole := RedactAll(order, Passed(es));
    if Configured(order, secrets) && Untangled(order) {
      OpenRunAll(order, secrets, es);
    } else {
      assert order == [order[0]];
      OpenRun(order[0], es);
      RedactAllSingle(order[0], Passed(es));
      HeldBySingle(order[0], whole);
    }
    assert whole[..|flow.shown|] == flow.shown;
  }

  lemma {:induction false} ClosedShows(order: seq<string>, secrets: seq<string>, es: seq<Emission>)
    requires AllNonEmpty(order) && AllNonEmpty(secrets) && Faithful(order, secrets)
    requires EndsAtCompletion(es) && Complete(es)
    ensures PublishAll(order, secrets, es).shown == RedactAll(order, Passed(es))
  {
    hide PublishAll, RedactAll, Redact, Configured, Untangled;
    if Configured(order, secrets) && Untangled(order) {
      ClosedRunAll(order, secrets, es);
    } else {
      assert order == [order[0]];
      ClosedRun(order[0], es);
      RedactAllSingle(order[0], Passed(es));
    }
  }

  lemma {:induction false} PlainShows(order: seq<string>, secrets: seq<string>, texts: seq<string>, flushed: bool)
    requires AllNonEmpty(order) && AllNonEmpty(secrets) && Faithful(order, secrets)
    requires PlainThroughout(Concat(texts))
    ensures Published(true, order, secrets, texts, flushed).shown ==
            if flushed then RedactAll(order, Concat(texts)) else Unheld(order, secrets, Concat(texts))
  {
    hide RedactAll, Emissions, AfterDeltas, Faithful, Unheld, PlainThroughout, AfterEmission;
    ShownAs(texts);
    var es := Emissions(true, texts);
    OpenShows(order, secrets, es);
    if flushed {
      var all := es + [FLUSH];
      assert all[..|all| - 1] == es && all[|all| - 1] == FLUSH;
      PassedSnoc(es, FLUSH);
      assert Passed(es) + "" == Passed(es);
      ClosedShows(order, secrets, all);
    }
  }

  lemma {:induction false} NeverFlushed(texts: seq<string>)
    requires NeverPlain(Concat(texts))
    ensures AfterDeltas(true, texts).mode != PlainFinal
  {
    hide NeverPlain, AfterDeltas, ReadText;
    assert Concat(texts) + "" == Concat(texts);
    NeverPlainReads(texts, "");
    ChunkInvariance(texts);
  }

  lemma {:induction false} NeverFlushedTagged(texts: seq<string>)
    ensures AfterDeltas(false, texts).mode != PlainFinal
  {
    hide AfterDeltas, ReadText;
    ChunkInvariance(texts);
  }

  /** Parser and redaction together: what has been shown depends on the text received
      so far and not on how it was cut. */
  lemma {:induction false} ReplyIsOneFunction(
    allowPlain: bool, order: seq<string>, secrets: seq<string>, texts: seq<string>, flushed: bool)
    requires AllNonEmpty(order) && AllNonEmpty(secrets)
    requires Regular(allowPlain, order, secrets, Concat(texts))
    requires flushed ==> AfterDeltas(allowPlain, texts).mode == PlainFinal
    ensures Published(allowPlain, order, secrets, texts, flushed).shown ==
            VisibleText(allowPlain, order, secrets, Concat(texts), flushed)
  {
    hide Emissions, AfterDeltas, PublishAll, NeverPlain, Faithful, RedactAll, Unheld, AfterEmission;
    hide ReadText, Passed, PlainThroughout;
    if allowPlain && PlainThroughout(Concat(texts)) {
      PlainShows(order, secrets, texts, flushed);
    } else {
      if allowPlain {
        ShownAs(texts);
        NeverFlushed(texts);
      } else {
        NeverFlushedTagged(texts);
      }
      ChunkInvariance(texts);
      var es := Emissions(false, texts);
      if Complete(es) {
        ClosedShows(order, secrets, es);
        PassedClosed(ReadText(Concat(texts)).body);
      } else {
        OpenShows(order, secrets, es);
      }
    }
  }
}
