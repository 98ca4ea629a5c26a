/** The incremental `<final>` extractor of threadforge_worker/runtime.py and the
    whole-text function it refines. */
module StreamParser {
  import opened Text

  const OPENING := "<final>"
  const CLOSING := "</final>"
  const TOOL := "<tool"
  const TALK := "<talk>"
  const PENDING_WINDOW := 32

  datatype Mode = Pending | Final | Blocked | PlainFinal

  datatype Parser = Parser(mode: Mode, buffer: string)

  /** What one delta passes on to `_emit_public_delta`, if anything. */
  datatype Emission = Silent | Emit(text: string, completed: bool, isFinal: bool)

  datatype Marker = NoMarker | Refusing | Answer(position: nat)

  /** `min(marker_positions)` over the three markers that are present. */
  function FirstMarker(text: string): (m: Marker)
    ensures m.Answer? ==> m.position == Find(text, OPENING)
  {
    var f, t, k := Find(text, OPENING), Find(text, TOOL), Find(text, TALK);
    if f == -1 && t == -1 && k == -1 then NoMarker
    else if f != -1 && (t == -1 || f <= t) && (k == -1 || f <= k) then Answer(f)
    else Refusing
  }

  function Last(text: string, n: nat): (r: string)
    ensures |r| <= n && |r| <= |text| && EndsWith(text, r)
  {
    if |text| <= n then text else text[|text| - n..]
  }

  /** The part of `model_text_delta` after `<final>` has been seen. */
  function FeedBody(buffer: string): (Parser, Emission) {
    var closeAt := Find(buffer, CLOSING);
    var keep := |CLOSING| - 1;
    if closeAt != -1 then (Parser(Blocked, ""), Emit(buffer[..closeAt], true, false))
    else if |buffer| <= keep then (Parser(Final, buffer), Silent)
    else (Parser(Final, buffer[|buffer| - keep..]), Emit(buffer[..|buffer| - keep], false, false))
  }

  /** `model_text_delta` for an execute-stage delta. */
  function Feed(allowPlain: bool, p: Parser, text: string): (Parser, Emission) {
    match p.mode
    case Blocked => (p, Silent)
    case PlainFinal => (p, Emit(text, false, true))
    case Final => FeedBody(p.buffer + text)
    case Pending =>
      var buffer := p.buffer + text;
      match FirstMarker(buffer)
      case Refusing => (Parser(Blocked, ""), Silent)
      case Answer(position) => FeedBody(buffer[position + |OPENING|..])
      case NoMarker =>
        var stripped := LStrip(buffer);
        if allowPlain && stripped != "" && stripped[0] != '<' then
          (Parser(PlainFinal, ""), Emit(buffer, false, false))
        else
          (Parser(Pending, Last(buffer, PENDING_WINDOW)), Silent)
  }

  const START := Parser(Pending, "")

  function AfterDeltas(allowPlain: bool, texts: seq<string>): Parser {
    if texts == [] then START
    else Feed(allowPlain, AfterDeltas(allowPlain, texts[..|texts| - 1]), texts[|texts| - 1]).0
  }

  /** Everything passed on, in order. */
  function Emissions(allowPlain: bool, texts: seq<string>): seq<Emission> {
    if texts == [] then []
    else
      var init := texts[..|texts| - 1];
      var now := Feed(allowPlain, AfterDeltas(allowPlain, init), texts[|texts| - 1]).1;
      Emissions(allowPlain, init) + (if now.Silent? then [] else [now])
  }

  // ----- the whole-text function -----

  datatype Reading = Waiting | Refused | Open(body: string) | Closed(body: string)

  function ReadText(text: string): Reading {
    match FirstMarker(text)
    case NoMarker => Waiting
    case Refusing => Refused
    case Answer(position) =>
      var rest := text[position + |OPENING|..];
      var closeAt := Find(rest, CLOSING);
      if closeAt == -1 then Open(rest) else Closed(rest[..closeAt])
  }

  /** The text passed on for a whole model reply: the body of the first `<final>`
      when no tool or talk tag precedes it, all but its last 7 characters while
      the closing tag is still missing. */
  function PassedOn(r: Reading): string {
    match r
    case Waiting => ""
    case Refused => ""
    case Open(body) => if |body| <= 7 then "" else body[..|body| - 7]
    case Closed(body) => body
  }

  // ----- a bounded window loses no marker -----

  lemma {:induction false} NoEarlyMatch(text: string, more: string, pat: string, window: nat, j: nat)
    requires Find(text, pat) == -1 && |pat| <= window + 1
    requires j + |Last(text, window)| < |text|
    ensures !OccursAt(text + more, pat, j)
  {
    hide FindFrom;
    FindIsFirst(text, pat);
    OccursExtend(text, more, pat, j);
  }

  lemma {:induction false} SplitLast(text: string, more: string, window: nat)
    ensures text + more == text[..|text| - |Last(text, window)|] + (Last(text, window) + more)
  {
  }

  /** Searching the kept window and the new delta finds what searching the whole
      text would find. */
  lemma {:induction false} WindowFind(text: string, more: string, pat: string, window: nat)
    requires Find(text, pat) == -1 && |pat| <= window + 1
    ensures var dropped := |text| - |Last(text, window)|;
            var here := Find(Last(text, window) + more, pat);
            Find(text + more, pat) == if here == -1 then -1 else dropped + here
  {
    hide FindFrom;
    var head := text[..|text| - |Last(text, window)|];
    SplitLast(text, more, window);
    forall j | 0 <= j < |head| ensures !OccursAt(head + (Last(text, window) + more), pat, j) {
      NoEarlyMatch(text, more, pat, window, j);
    }
    FindDrop(head, Last(text, window) + more, pat);
  }

  lemma {:induction false} WindowMarker(text: string, more: string)
    requires FirstMarker(text) == NoMarker
    ensures var dropped := |text| - |Last(text, PENDING_WINDOW)|;
            FirstMarker(text + more) ==
              match FirstMarker(Last(text, PENDING_WINDOW) + more)
              case Answer(position) => Answer(dropped + position)
              case m => m
  {
    hide Find;
    WindowFind(text, more, OPENING, PENDING_WINDOW);
    WindowFind(text, more, TOOL, PENDING_WINDOW);
    WindowFind(text, more, TALK, PENDING_WINDOW);
  }

  /** A marker completed by new text cannot begin at or right before an old one. */
  lemma {:induction false} NewMatchIsLate(text: string, more: string, pat: string)
    requires Find(text, pat) == -1 && Find(text + more, pat) != -1
    ensures Find(text + more, pat) + |pat| > |text|
  {
    hide FindFrom;
    var j := Find(text + more, pat);
    FindIsFirst(text, pat);
    FindIsFirst(text + more, pat);
    if j + |pat| <= |text| { OccursExtend(text, more, pat, j); }
  }

  lemma {:induction false} CharAt(text: string, pat: string, j: int, k: nat)
    requires OccursAt(text, pat, j) && k < |pat|
    ensures text[j + k] == pat[k]
  {
    assert text[j..j + |pat|][k] == text[j + k];
  }

  lemma {:induction false} MarkersApart(text: string, other: string, f: int, t: int)
    requires other == TOOL || other == TALK
    requires OccursAt(text, OPENING, f) && OccursAt(text, other, t)
    ensures f != t && f + 1 != t
  {
    CharAt(text, OPENING, f, 1);
    CharAt(text, other, t, 0);
    CharAt(text, other, t, 1);
  }

  lemma {:induction false} LateOpening(text: string, more: string, other: string)
    requires other == TOOL || other == TALK
    requires Find(text, other) != -1 && Find(text, OPENING) == -1
    ensures var f := Find(text + more, OPENING); f == -1 || Find(text, other) < f
  {
    hide FindFrom;
    var f, t := Find(text + more, OPENING), Find(text, other);
    FindStable(text, more, other);
    FindIsFirst(text + more, OPENING);
    FindIsFirst(text + more, other);
    if f != -1 {
      NewMatchIsLate(text, more, OPENING);
      MarkersApart(text + more, other, f, t);
    }
  }

  /** Once a first marker is there, more text does not change which it is. */
  lemma {:induction false} FirstMarkerStable(text: string, more: string)
    requires FirstMarker(text) != NoMarker
    ensures FirstMarker(text + more) == FirstMarker(text)
  {
    hide FindFrom;
    var f, t, k := Find(text, OPENING), Find(text, TOOL), Find(text, TALK);
    if f != -1 { FindStable(text, more, OPENING); }
    if t != -1 {
      FindStable(text, more, TOOL);
    } else if Find(text + more, TOOL) != -1 {
      NewMatchIsLate(text, more, TOOL);
    }
    if k != -1 {
      FindStable(text, more, TALK);
    } else if Find(text + more, TALK) != -1 {
      NewMatchIsLate(text, more, TALK);
    }
    if f == -1 {
      if t != -1 { LateOpening(text, more, TOOL); }
      if k != -1 { LateOpening(text, more, TALK); }
    }
  }

  // ----- the parser follows the whole-text function -----

  /** The parser state after reading exactly `text`. */
  ghost predicate Tracks(text: string, p: Parser) {
    match ReadText(text)
    case Waiting => p == Parser(Pending, Last(text, PENDING_WINDOW))
    case Refused => p == Parser(Blocked, "")
    case Open(body) => p == Parser(Final, Last(body, 7))
    case Closed(_) => p == Parser(Blocked, "")
  }

  function TextOf(e: Emission): string {
    if e.Silent? then "" else e.text
  }

  predicate Completes(e: Emission) {
    e.Emit? && e.completed
  }

  /** Reading a body from its beginning. */
  lemma {:induction false} FeedFreshBody(body: string)
    ensures var (p, e) := FeedBody(body);
            var closeAt := Find(body, CLOSING);
            if closeAt == -1 then
              p == Parser(Final, Last(body, 7)) && TextOf(e) == PassedOn(Open(body)) && !Completes(e)
            else
              p == Parser(Blocked, "") && e == Emit(body[..closeAt], true, false)
  {
    hide Find;
  }

  lemma {:induction false} LastOfLast(body: string, more: string, n: nat)
    ensures Last(Last(body, n) + more, n) == Last(body + more, n)
  {
    hide EndsWith;
  }

  lemma {:induction false} LastStillWhole(body: string, more: string, n: nat)
    requires |Last(body, n) + more| <= n
    ensures Last(body, n) + more == Last(body + more, n)
  {
    hide EndsWith;
  }

  lemma {:induction false} PassedGrows(body: string, more: string)
    requires |Last(body, 7) + more| > 7
    ensures var buffer := Last(body, 7) + more;
            PassedOn(Open(body + more)) == PassedOn(Open(body)) + buffer[..|buffer| - 7]
  {
    if |body| > 7 {
      var buffer := Last(body, 7) + more;
      assert (body + more)[..|body + more| - 7] == body[..|body| - 7] + buffer[..|buffer| - 7];
    }
  }

  lemma {:induction false} PassedSame(body: string, more: string)
    requires |Last(body, 7) + more| <= 7
    ensures PassedOn(Open(body + more)) == PassedOn(Open(body))
  {
    if |body| > 7 { assert body + more == body; }
  }

  lemma {:induction false} PassedThenClosed(body: string, more: string, closeAt: nat)
    requires closeAt <= |Last(body, 7) + more|
    ensures (body + more)[..|body| - |Last(body, 7)| + closeAt] ==
            PassedOn(Open(body)) + (Last(body, 7) + more)[..closeAt]
  {
  }

  lemma {:induction false} LastCut(buffer: string)
    requires |buffer| > 7
    ensures Last(buffer, 7) == buffer[|buffer| - 7..]
  {
  }

  /** Continuing an open body. */
  lemma {:induction false} FeedOpenBody(body: string, more: string)
    requires Find(body, CLOSING) == -1
    ensures var (p, e) := FeedBody(Last(body, 7) + more);
            var closeAt := Find(body + more, CLOSING);
            if closeAt == -1 then
              && p == Parser(Final, Last(body + more, 7)) && !Completes(e)
              && PassedOn(Open(body + more)) == PassedOn(Open(body)) + TextOf(e)
            else
              && p == Parser(Blocked, "") && Completes(e)
              && (body + more)[..closeAt] == PassedOn(Open(body)) + TextOf(e)
  {
    hide Find, PassedOn, Last, EndsWith, FeedBody;
    WindowFind(body, more, CLOSING, 7);
    var buffer := Last(body, 7) + more;
    FeedBodyCases(buffer);
    if Find(buffer, CLOSING) != -1 {
      PassedThenClosed(body, more, Find(buffer, CLOSING));
    } else if |buffer| <= 7 {
      LastStillWhole(body, more, 7);
      PassedSame(body, more);
      var same := PassedOn(Open(body));
      assert same + "" == same;
    } else {
      LastOfLast(body, more, 7);
      LastCut(buffer);
      PassedGrows(body, more);
    }
  }

  lemma {:induction false} FeedBodyCases(buffer: string)
    ensures Find(buffer, CLOSING) != -1 ==>
              FeedBody(buffer) == (Parser(Blocked, ""), Emit(buffer[..Find(buffer, CLOSING)], true, false))
    ensures Find(buffer, CLOSING) == -1 && |buffer| <= 7 ==> FeedBody(buffer) == (Parser(Final, buffer), Silent)
    ensures Find(buffer, CLOSING) == -1 && |buffer| > 7 ==>
              FeedBody(buffer) == (Parser(Final, buffer[|buffer| - 7..]), Emit(buffer[..|buffer| - 7], false, false))
  {
    hide Find;
  }

  /** One delta keeps the parser on track and passes on exactly the new part. */
  ghost predicate Follows(text: string, more: string, q: Parser, e: Emission) {
    && Tracks(text + more, q)
    && PassedOn(ReadText(text + more)) == PassedOn(ReadText(text)) + TextOf(e)
    && (Completes(e) <==> ReadText(text + more).Closed? && !ReadText(text).Closed?)
  }

  lemma {:induction false} FeedWaiting(text: string, more: string)
    requires FirstMarker(text) == NoMarker
    ensures var (q, e) := Feed(false, Parser(Pending, Last(text, PENDING_WINDOW)), more);
            Follows(text, more, q, e)
  {
    hide Find, FeedBody, FirstMarker, Last, LStrip, Follows;
    match FirstMarker(Last(text, PENDING_WINDOW) + more) {
      case NoMarker => FeedStillWaiting(text, more);
      case Refusing => FeedRefused(text, more);
      case Answer(position) => FeedOpening(text, more, position);
    }
  }

  lemma {:induction false} FeedStillWaiting(text: string, more: string)
    requires FirstMarker(text) == NoMarker
    requires FirstMarker(Last(text, PENDING_WINDOW) + more) == NoMarker
    ensures Follows(text, more, Parser(Pending, Last(Last(text, PENDING_WINDOW) + more, PENDING_WINDOW)), Silent)
  {
    hide Find, FirstMarker, Last;
    WindowMarker(text, more);
    LastOfLast(text, more, PENDING_WINDOW);
  }

  lemma {:induction false} FeedRefused(text: string, more: string)
    requires FirstMarker(text) == NoMarker
    requires FirstMarker(Last(text, PENDING_WINDOW) + more) == Refusing
    ensures Follows(text, more, Parser(Blocked, ""), Silent)
  {
    hide Find, FirstMarker, Last;
    WindowMarker(text, more);
  }

  lemma {:induction false} FeedOpening(text: string, more: string, position: nat)
    requires FirstMarker(text) == NoMarker
    requires FirstMarker(Last(text, PENDING_WINDOW) + more) == Answer(position)
    ensures var (q, e) := FeedBody((Last(text, PENDING_WINDOW) + more)[position + |OPENING|..]);
            Follows(text, more, q, e)
  {
    hide Find, FeedBody, FirstMarker, Last, PassedOn;
    WindowMarker(text, more);
    var window := Last(text, PENDING_WINDOW);
    SplitLast(text, more, PENDING_WINDOW);
    TakeDrop(text[..|text| - |window|], window + more, position, |OPENING|);
    var body := (window + more)[position + |OPENING|..];
    FeedFreshBody(body);
    assert PassedOn(Waiting) == "" by { PassedNothing(); }
    var closeAt := Find(body, CLOSING);
    if closeAt != -1 { PassedClosed(body[..closeAt]); }
  }

  lemma {:induction false} PassedNothing()
    ensures PassedOn(Waiting) == ""
  {
  }

  lemma {:induction false} FeedAnswering(text: string, p: Parser, more: string)
    requires FirstMarker(text).Answer? && Tracks(text, p)
    ensures var (q, e) := Feed(false, p, more); Follows(text, more, q, e)
  {
    hide Find, FeedBody, FirstMarker, PassedOn, Last;
    FirstMarkerStable(text, more);
    var position := FirstMarker(text).position;
    var body := text[position + |OPENING|..];
    assert (text + more)[position + |OPENING|..] == body + more;
    if Find(body, CLOSING) == -1 {
      FeedOpenBody(body, more);
      var closeAt := Find(body + more, CLOSING);
      if closeAt != -1 { PassedClosed((body + more)[..closeAt]); }
    } else {
      FindStable(body, more, CLOSING);
      var closeAt := Find(body, CLOSING);
      assert (body + more)[..closeAt] == body[..closeAt];
    }
  }

  lemma {:induction false} PassedClosed(body: string)
    ensures PassedOn(Closed(body)) == body
  {
  }

  lemma {:induction false} FeedTracks(text: string, p: Parser, more: string)
    requires Tracks(text, p)
    ensures var (q, e) := Feed(false, p, more); Follows(text, more, q, e)
  {
    hide Find, FeedBody;
    match FirstMarker(text)
    case NoMarker => FeedWaiting(text, more);
    case Refusing => FirstMarkerStable(text, more);
    case Answer(_) => FeedAnswering(text, p, more);
  }

  function Passed(es: seq<Emission>): string {
    if es == [] then "" else Passed(es[..|es| - 1]) + TextOf(es[|es| - 1])
  }

  /** A completing emission, if there is one, is the last. */
  ghost predicate EndsAtCompletion(es: seq<Emission>) {
    forall i :: 0 <= i < |es| - 1 ==> !Completes(es[i])
  }

  ghost predicate Complete(es: seq<Emission>) {
    es != [] && Completes(es[|es| - 1])
  }

  lemma {:induction false} BlockedIsSilent(p: Parser, more: string)
    requires p.mode == Blocked
    ensures Feed(false, p, more) == (p, Silent)
  {
  }

  /** For every way of cutting a text into deltas the text passed on is one
      function of the text, and it is marked complete exactly when the closing
      tag is in it. */
  lemma {:induction false} ChunkInvariance(texts: seq<string>)
    ensures var whole := Concat(texts);
            && Tracks(whole, AfterDeltas(false, texts))
            && Passed(Emissions(false, texts)) == PassedOn(ReadText(whole))
            && EndsAtCompletion(Emissions(false, texts))
            && (Complete(Emissions(false, texts)) <==> ReadText(whole).Closed?)
    decreases |texts|
  {
    hide FindFrom;
    if texts == [] {
      assert Find("", OPENING) == -1 && Find("", TOOL) == -1 && Find("", TALK) == -1;
    } else {
      var init, last := texts[..|texts| - 1], texts[|texts| - 1];
      assert texts == init + [last];
      ConcatSnoc(init, last);
      ChunkInvariance(init);
      ChunkStep(init, last);
    }
  }

  lemma {:induction false} OneMore(init: seq<string>, last: string)
    ensures AfterDeltas(false, init + [last]) == Feed(false, AfterDeltas(false, init), last).0
    ensures var now := Feed(false, AfterDeltas(false, init), last).1;
            Emissions(false, init + [last]) ==
              if now.Silent? then Emissions(false, init) else Emissions(false, init) + [now]
  {
    hide Feed;
    var texts := init + [last];
    assert texts[..|texts| - 1] == init && texts[|texts| - 1] == last;
  }

  lemma {:induction false} PassedSnoc(es: seq<Emission>, e: Emission)
    ensures Passed(es + [e]) == Passed(es) + TextOf(e)
  {
    assert (es + [e])[..|es + [e]| - 1] == es;
  }

  lemma {:induction false} ChunkStep(init: seq<string>, last: string)
    requires Tracks(Concat(init), AfterDeltas(false, init))
    requires Passed(Emissions(false, init)) == PassedOn(ReadText(Concat(init)))
    requires EndsAtCompletion(Emissions(false, init))
    requires Complete(Emissions(false, init)) <==> ReadText(Concat(init)).Closed?
    ensures var texts, whole := init + [last], Concat(init) + last;
            && Tracks(whole, AfterDeltas(false, texts))
            && Passed(Emissions(false, texts)) == PassedOn(ReadText(whole))
            && EndsAtCompletion(Emissions(false, texts))
            && (Complete(Emissions(false, texts)) <==> ReadText(whole).Closed?)
  {
    hide ReadText, Feed, AfterDeltas, Emissions, Passed, PassedOn;
    var p := AfterDeltas(false, init);
    var es := Emissions(false, init);
    OneMore(init, last);
    FeedTracks(Concat(init), p, last);
    PassedSnoc(es, Feed(false, p, last).1);
    if ReadText(Concat(init)).Closed? {
      BlockedIsSilent(p, last);
      ClosedStays(Concat(init), last);
    }
  }

  lemma {:induction false} ClosedStays(text: string, more: string)
    requires ReadText(text).Closed?
    ensures ReadText(text + more) == ReadText(text)
  {
    hide FindFrom;
    FirstMarkerStable(text, more);
    var position := FirstMarker(text).position;
    var body := text[position + |OPENING|..];
    assert (text + more)[position + |OPENING|..] == body + more;
    FindStable(body, more, CLOSING);
    assert (body + more)[..Find(body, CLOSING)] == body[..Find(body, CLOSING)];
  }

  // ----- what the whole-text reading means -----

  /** None of the three tags begins in the text before position n. */
  ghost predicate Clear(text: string, n: nat) {
    forall j :: 0 <= j < n ==>
      !OccursAt(text, "<final>", j) && !OccursAt(text, "<tool", j) && !OccursAt(text, "<talk>", j)
  }

  /** The first of the three tags decides: an answer if it opens one, a refusal if it
      begins a tool call or a talk. */
  lemma {:induction false} FirstMarkerExactly(text: string)
    ensures FirstMarker(text) == NoMarker <==> Clear(text, |text| + 1)
    ensures FirstMarker(text) == Refusing <==>
            exists i: nat :: i <= |text| && Clear(text, i) &&
                (OccursAt(text, "<tool", i) || OccursAt(text, "<talk>", i))
    ensures forall i: nat :: FirstMarker(text) == Answer(i) <==> Clear(text, i) && OccursAt(text, "<final>", i)
  {
    hide FindFrom, OccursAt;
    FindIsFirst(text, OPENING);
    FindIsFirst(text, TOOL);
    FindIsFirst(text, TALK);
    forall i: nat ensures !(OccursAt(text, OPENING, i) && (OccursAt(text, TOOL, i) || OccursAt(text, TALK, i))) {
      OneTagAt(text, i);
    }
    var f, t, k := Find(text, OPENING), Find(text, TOOL), Find(text, TALK);
    if FirstMarker(text) == Refusing {
      var i := if t != -1 && (k == -1 || t <= k) then t else k;
      assert Clear(text, i);
    }
    forall i: nat | OccursAt(text, OPENING, i) || OccursAt(text, TOOL, i) ||
        OccursAt(text, TALK, i) ensures i <= |text| {
      OccursWithin(text, OPENING, i);
      OccursWithin(text, TOOL, i);
      OccursWithin(text, TALK, i);
    }
  }

  lemma {:induction false} OccursWithin(text: string, pat: string, i: nat)
    ensures OccursAt(text, pat, i) ==> i <= |text|
  {
  }

  lemma {:induction false} OneTagAt(text: string, i: nat)
    ensures !(OccursAt(text, OPENING, i) && (OccursAt(text, TOOL, i) || OccursAt(text, TALK, i)))
  {
    hide OccursAt;
    if OccursAt(text, OPENING, i) && OccursAt(text, TOOL, i) { MarkersApart(text, TOOL, i, i); }
    if OccursAt(text, OPENING, i) && OccursAt(text, TALK, i) { MarkersApart(text, TALK, i, i); }
  }

  /** A reading is closed with this body exactly if the text is some text without a tag
      in it, the opening tag, the body, the closing tag for the first time behind the
      opening one, and anything. */
  lemma {:induction false} ClosedExactly(text: string, body: string)
    ensures ReadText(text) == Closed(body) <==>
            exists i: nat :: Clear(text, i) && OccursAt(text, "<final>", i) &&
                IsFirst(text[i + 7..], "</final>", |body|) &&
                             text[i + 7..][..|body|] == body
    ensures ReadText(text) == Open(body) <==>
            exists i: nat :: Clear(text, i) && OccursAt(text, "<final>", i) && IsFirst(text[i + 7..], "</final>", -1) &&
                             text[i + 7..] == body
  {
    hide FindFrom, FirstMarker, Clear, IsFirst;
    FirstMarkerExactly(text);
    if FirstMarker(text).Answer? {
      var i := FirstMarker(text).position;
      var rest := text[i + 7..];
      FindIsFirst(rest, CLOSING);
      if IsFirst(rest, CLOSING, |body|) { FindUnique(rest, CLOSING, |body|); }
      if IsFirst(rest, CLOSING, -1) { FindUnique(rest, CLOSING, -1); }
    }
  }
}
