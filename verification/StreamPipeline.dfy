/** For which configurations parser and filter together show one function of the text. */
module StreamPipeline {
  import opened Text
  import opened Redaction
  import opened StreamParser
  import opened PlainFinals
  import opened SecretLists
  import opened StreamHooks

  /** What is shown of a text whose plain reading does not depend on the cutting does
      not depend on it either. */
  ghost predicate CuttingNeverShows(allowPlain: bool, order: seq<string>, secrets: seq<string>)
    requires AllNonEmpty(order) && AllNonEmpty(secrets)
  {
    forall a, b ::
      Concat(a) == Concat(b) && (allowPlain ==> NeverPlain(Concat(a)) || PlainThroughout(Concat(a))) ==>
        Published(allowPlain, order, secrets, a, false).shown == Published(allowPlain, order, secrets, b, false).shown
  }

  lemma {:induction false} NoClosingInside(text: string, j: nat)
    requires '<' !in text && j < |text|
    ensures !OccursAt(text + CLOSING, CLOSING, j)
  {
    if OccursAt(text + CLOSING, CLOSING, j) { CharAt(text + CLOSING, CLOSING, j, 0); }
  }

  lemma {:induction false} ClosingAtEnd(text: string)
    requires '<' !in text
    ensures Find(text + CLOSING, CLOSING) == |text|
  {
    hide FindFrom;
    forall j | 0 <= j < |text| ensures !OccursAt(text + CLOSING, CLOSING, j) { NoClosingInside(text, j); }
    assert (text + CLOSING)[|text|..|text| + |CLOSING|] == CLOSING;
    FindUnique(text + CLOSING, CLOSING, |text|);
  }

  /** Seven characters ahead of its end the closing tag is not there yet. */
  lemma {:induction false} NoClosingYet(text: string, cut: nat)
    requires '<' !in text && cut < |text| + |CLOSING|
    ensures Find((text + CLOSING)[..cut], CLOSING) == -1
  {
    hide FindFrom;
    var whole := text + CLOSING;
    ClosingAtEnd(text);
    assert whole[..cut] + whole[cut..] == whole;
    if Find(whole[..cut], CLOSING) != -1 { FindStable(whole[..cut], whole[cut..], CLOSING); }
  }

  lemma {:induction false} OpeningFirst(body: string)
    ensures FirstMarker(OPENING + body) == Answer(0) && (OPENING + body)[|OPENING|..] == body
  {
    hide FindFrom;
    var text := OPENING + body;
    assert text[0..|OPENING|] == OPENING;
    FindUnique(text, OPENING, 0);
    FindIsFirst(text, TOOL);
    FindIsFirst(text, TALK);
    if Find(text, TOOL) == 0 { MarkersApart(text, TOOL, 0, 0); }
    if Find(text, TALK) == 0 { MarkersApart(text, TALK, 0, 0); }
  }

  /** A reply of one tagged answer never looks plain. */
  lemma {:induction false} TaggedIsNeverPlain(body: string)
    ensures NeverPlain(OPENING + body)
  {
    hide FirstMarker, MarkerFree;
    var text := OPENING + body;
    var front := MarkerFree(text);
    MarkerFreeIsFree(text);
    if |front| >= |OPENING| {
      assert front == OPENING + front[|OPENING|..];
      OpeningFirst(front[|OPENING|..]);
    }
    if front != "" { assert front[0] == '<'; }
  }

  /** The deltas that make the parser pass on exactly `first`, then `second`. */
  function CutDeltas(first: string, second: string): seq<string> {
    var rest := second + CLOSING;
    [OPENING + (first + rest[..|CLOSING| - 1]), rest[|CLOSING| - 1..]]
  }

  lemma {:induction false} FeedFirst(first: string, front: string)
    requires first != "" && |front| == |CLOSING| - 1 && Find(first + front, CLOSING) == -1
    ensures Feed(false, START, OPENING + (first + front)) == (Parser(Final, front), Emit(first, false, false))
  {
    hide FirstMarker, Find;
    var body := first + front;
    assert "" + (OPENING + body) == OPENING + body;
    OpeningFirst(body);
    FeedBodyCases(body);
    assert body[|body| - 7..] == front && body[..|body| - 7] == first;
  }

  lemma {:induction false} FeedSecond(front: string, back: string, second: string)
    requires front + back == second + CLOSING && '<' !in second
    ensures Feed(false, Parser(Final, front), back) == (Parser(Blocked, ""), Emit(second, true, false))
  {
    hide Find;
    ClosingAtEnd(second);
    FeedBodyCases(second + CLOSING);
    assert (second + CLOSING)[..|second|] == second;
  }

  lemma {:induction false} TwoEmitted(a: string, b: string, p: Parser, first: string, second: string)
    requires Feed(false, START, a) == (p, Emit(first, false, false))
    requires Feed(false, p, b).1 == Emit(second, true, false)
    ensures Emissions(false, [a, b]) == Cut(first, second)
    ensures Concat([a, b]) == a + b
  {
    hide Feed;
    assert [a, b][..1] == [a] && [a][..0] == [] && [a, b][1..] == [b] && [b][1..] == [];
    assert Concat([b]) == b + Concat([]) && b + "" == b;
    assert AfterDeltas(false, []) == START && Emissions(false, []) == [];
    assert AfterDeltas(false, [a]) == p;
    assert Emissions(false, [a]) == [] + [Emit(first, false, false)];
  }

  lemma {:induction false} CutEmissions(first: string, second: string)
    requires first != "" && '<' !in first + second
    ensures Emissions(false, CutDeltas(first, second)) == Cut(first, second)
    ensures Concat(CutDeltas(first, second)) == OPENING + (first + second + CLOSING)
  {
    hide Find, Feed, Emissions, Concat;
    var rest := second + CLOSING;
    var front, back := rest[..|CLOSING| - 1], rest[|CLOSING| - 1..];
    assert front + back == rest && first + second + CLOSING == first + rest;
    assert (first + second + CLOSING)[..|first + front|] == first + front;
    NoClosingYet(first + second, |first + front|);
    assert forall c :: c in second ==> c in first + second;
    FeedFirst(first, front);
    FeedSecond(front, back, second);
    TwoEmitted(OPENING + (first + front), back, Parser(Final, front), first, second);
    Assoc3(OPENING, first + front, back);
    Assoc3(first, front, back);
  }

  lemma {:induction false} WholeEmission(text: string)
    requires '<' !in text
    ensures Emissions(false, [OPENING + (text + CLOSING)]) == [Emit(text, true, false)]
    ensures Concat([OPENING + (text + CLOSING)]) == OPENING + (text + CLOSING)
  {
    hide FirstMarker, Find;
    var a := OPENING + (text + CLOSING);
    assert [a][..0] == [] && "" + a == a && a + "" == a;
    OpeningFirst(text + CLOSING);
    ClosingAtEnd(text);
    assert (text + CLOSING)[..|text|] == text;
    assert AfterDeltas(false, []) == START;
  }

  /** Emissions that are shown in two ways come from one text cut in two ways. */
  lemma {:induction false} CutShows(
    allowPlain: bool, order: seq<string>, secrets: seq<string>, first: string, second: string)
    requires AllNonEmpty(order) && AllNonEmpty(secrets) && first != "" && '<' !in first + second
    requires PublishAll(order, secrets, Cut(first, second)).shown != RedactAll(order, first + second)
    ensures !CuttingNeverShows(allowPlain, order, secrets)
  {
    hide RedactAll, HeldBy, NeverPlain, PlainThroughout, Emissions, AfterDeltas;
    var text := OPENING + (first + second + CLOSING);
    var a, b := CutDeltas(first, second), [text];
    CutEmissions(first, second);
    WholeEmission(first + second);
    TaggedIsNeverPlain(first + second + CLOSING);
    assert text + "" == text;
    if allowPlain {
      NeverPlainReads(a, "");
      NeverPlainReads(b, "");
    }
    WholeShown(order, secrets, first + second);
    assert Published(allowPlain, order, secrets, a, false).shown != Published(allowPlain, order, secrets, b,
           false).shown;
  }

  lemma {:induction false} WholeShown(order: seq<string>, secrets: seq<string>, text: string)
    requires AllNonEmpty(order) && AllNonEmpty(secrets)
    ensures PublishAll(order, secrets, [Emit(text, true, false)]).shown == RedactAll(order, text)
  {
    hide RedactAll;
    var e := Emit(text, true, false);
    assert [e][..0] == [] && "" + text == text;
    assert PublishAll(order, secrets, []) == Flow("", "");
    assert "" + RedactAll(order, text) == RedactAll(order, text);
  }

  /** For secrets without an opening angle bracket, one of any kind or a list apart
      from the marker: parser and filter together show one function of every text
      exactly when the configuration is faithful. */
  lemma {:induction false} PipelineExactly(allowPlain: bool, order: seq<string>, secrets: seq<string>)
    requires AllNonEmpty(order) && AllNonEmpty(secrets)
    requires (|order| == 1 && order == secrets) || Configured(order, secrets)
    requires forall w :: w in order ==> '<' !in w
    ensures CuttingNeverShows(allowPlain, order, secrets) <==> Faithful(order, secrets)
  {
    hide PublishAll, RedactAll, NeverPlain, PlainThroughout, Configured, Untangled, SafeSecret, Published;
    if Faithful(order, secrets) {
      forall a, b |
        Concat(a) == Concat(b) && (allowPlain ==> NeverPlain(Concat(a)) || PlainThroughout(Concat(a)))
        ensures Published(allowPlain, order, secrets, a, false).shown ==
                Published(allowPlain, order, secrets, b, false).shown
      {
        ReplyIsOneFunction(allowPlain, order, secrets, a, false);
        ReplyIsOneFunction(allowPlain, order, secrets, b, false);
      }
    } else if Configured(order, secrets) {
      var first, second := TangledDepends(order, secrets);
      TwoEmissions(order, secrets, first, second);
      CutShows(allowPlain, order, secrets, first, second);
    } else {
      var first, second := UnsafeDepends(order[0]);
      assert order == [order[0]];
      CutShows(allowPlain, order, secrets, first, second);
    }
  }

  /** An unsafe secret without an opening angle bracket: a front of it ends the marker. */
  lemma {:induction false} UnsafeDepends(secret: string) returns (first: string, second: string)
    requires secret != "" && !SafeSecret(secret) && '<' !in secret
    ensures first != "" && '<' !in first + second
    ensures PublishAll([secret], [secret], Cut(first, second)).shown != RedactAll([secret], first + second)
  {
    hide Redact, SafeSecret, EndsWith, PublishAll, RedactAll, Streamed, Concat;
    var k := UnsafeFront(secret);
    var texts := UnsafeByPrefix(secret, k);
    first, second := texts[0], texts[1];
    assert texts == [first, second];
    SingleStreams(secret, first, second);
    RedactAllSingle(secret, first + second);
  }

  lemma {:induction false} UnsafeFront(secret: string) returns (k: nat)
    requires !SafeSecret(secret) && '<' !in secret
    ensures 0 < k < |secret| && EndsWith(REDACTED_VALUE, secret[..k])
  {
    hide EndsWith;
    k :| 0 < k < |secret| && (EndsWith(REDACTED_VALUE, secret[..k]) || EndsWith(secret[..k], REDACTED_VALUE));
    EndHasFirst(secret[..k], REDACTED_VALUE);
  }

  lemma {:induction false} EndHasFirst(text: string, x: string)
    requires x != ""
    ensures EndsWith(text, x) ==> x[0] in text
  {
    if EndsWith(text, x) { assert text[|text| - |x|] == text[|text| - |x|..][0]; }
  }

  lemma {:induction false} SingleStreams(secret: string, first: string, second: string)
    requires secret != ""
    ensures PublishAll([secret], [secret], Cut(first, second)).shown == Streamed(secret, [first, second])
    ensures Concat([first, second]) == first + second
  {
    hide Redact, Held, HeldBy, RedactAll, Streamed, Push, PublishAll, ResumedAll, Publish;
    TwoDeltas(secret, first, second);
    TwoEmissions([secret], [secret], first, second);
    RedactAllSingle(secret, first);
    SingleResumes(secret, first, second);
  }

  lemma {:induction false} SingleResumes(secret: string, first: string, second: string)
    requires secret != ""
    ensures ResumedAll([secret], [secret], Redact(secret, first), second) ==
            Push(secret, "", first).shown + Redact(secret, Push(secret, "", first).pending + second)
  {
    hide Redact, Held, HeldBy, RedactAll;
    var buffer := Redact(secret, first);
    assert "" + first == first;
    HeldBySingle(secret, buffer);
    RedactAllSingle(secret, buffer[|buffer| - Held(secret, buffer)..] + second);
  }
}
