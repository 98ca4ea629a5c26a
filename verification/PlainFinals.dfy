/** Plain final answers of the stream parser: the texts for which it does not matter
    how the model's reply was cut into deltas. */
module PlainFinals {
  import opened Text
  import opened StreamParser

  /** What turns a buffer without a marker into a plain final answer. */
  predicate PlainStart(buffer: string) {
    var stripped := LStrip(buffer);
    stripped != "" && stripped[0] != '<'
  }

  /** The longest front of the text without a marker. */
  function MarkerFree(text: string): (front: string)
    ensures |front| <= |text| && front == text[..|front|]
  {
    if text == "" || FirstMarker(text) == NoMarker then text else MarkerFree(text[..|text| - 1])
  }

  /** Nothing that the window can come to hold looks like a plain answer. */
  predicate NeverPlain(text: string) {
    var front := MarkerFree(text);
    forall s :: 0 <= s <= |front| && (s == 0 || s + PENDING_WINDOW <= |front|) ==> !PlainStart(front[s..])
  }

  /** The whole text is a plain answer, with no more white space in front than the
      window holds. */
  predicate PlainThroughout(text: string) {
    FirstMarker(text) == NoMarker && PlainStart(text) && |text| - |LStrip(text)| <= PENDING_WINDOW
  }

  /** What the parser passes on of a reply that comes in these deltas. */
  function Shown(texts: seq<string>): string {
    Passed(Emissions(true, texts))
  }

  // ----- fronts and white space -----

  lemma {:induction false} EmptyHasNoMarker()
    ensures FirstMarker("") == NoMarker
  {
    hide FindFrom;
    FindShort("", OPENING);
    FindShort("", TOOL);
    FindShort("", TALK);
  }

  lemma {:induction false} FrontHasNoMarker(text: string, more: string)
    requires FirstMarker(text + more) == NoMarker
    ensures FirstMarker(text) == NoMarker
  {
    hide FirstMarker;
    if FirstMarker(text) != NoMarker { FirstMarkerStable(text, more); }
  }

  lemma {:induction false} MarkerFreeIsFree(text: string)
    ensures FirstMarker(MarkerFree(text)) == NoMarker
  {
    hide FirstMarker;
    EmptyHasNoMarker();
    if text != "" && FirstMarker(text) != NoMarker { MarkerFreeIsFree(text[..|text| - 1]); }
  }

  lemma {:induction false} MarkerFreeIsLongest(text: string, more: string)
    requires FirstMarker(text) == NoMarker
    ensures |text| <= |MarkerFree(text + more)|
    decreases |more|
  {
    hide FirstMarker;
    var whole := text + more;
    if more == "" {
      assert whole == text;
    } else if FirstMarker(whole) != NoMarker {
      assert whole[..|whole| - 1] == text + more[..|more| - 1];
      MarkerFreeIsLongest(text, more[..|more| - 1]);
    }
  }

  lemma {:induction false} LStripParts(text: string)
    ensures var n := |text| - |LStrip(text)|;
            LStrip(text) == text[n..] && LStrip(text[..n]) == ""
  {
    if text != "" && IsSpace(text[0]) {
      LStripParts(text[1..]);
      var n := |text[1..]| - |LStrip(text[1..])|;
      assert text[..n + 1][1..] == text[1..][..n];
    }
  }

  lemma {:induction false} LStripAppend(text: string, more: string)
    ensures LStrip(text) != "" ==> LStrip(text + more) == LStrip(text) + more
    ensures LStrip(text) == "" ==> LStrip(text + more) == LStrip(more)
  {
    if text == "" {
      assert text + more == more;
    } else if IsSpace(text[0]) {
      assert (text + more)[1..] == text[1..] + more;
      LStripAppend(text[1..], more);
    }
  }

  lemma {:induction false} PlainStartGrows(text: string, more: string)
    requires PlainStart(text)
    ensures PlainStart(text + more)
  {
    hide LStrip;
    LStripAppend(text, more);
  }

  lemma {:induction false} SpaceSuffix(text: string, n: nat)
    requires LStrip(text) == ""
    ensures LStrip(Last(text, n)) == ""
  {
    if text != "" && n < |text| {
      SpaceSuffix(text[1..], n);
      assert Last(text, n) == Last(text[1..], n);
    }
  }

  // ----- one delta -----

  /** A delta that does not start a plain answer is read as if none were allowed. */
  lemma {:induction false} FeedNotPlain(p: Parser, more: string)
    requires p.mode != PlainFinal
    requires p.mode == Pending && FirstMarker(p.buffer + more) == NoMarker ==> !PlainStart(p.buffer + more)
    ensures Feed(true, p, more) == Feed(false, p, more)
  {
    hide FirstMarker, LStrip, FeedBody;
  }

  lemma {:induction false} FeedPlain(buffer: string, more: string)
    requires FirstMarker(buffer + more) == NoMarker && PlainStart(buffer + more)
    ensures Feed(true, Parser(Pending, buffer), more) == (Parser(PlainFinal, ""), Emit(buffer + more, false, false))
  {
    hide FirstMarker, LStrip;
  }

  lemma {:induction false} OneMorePlain(init: seq<string>, last: string)
    ensures AfterDeltas(true, init + [last]) == Feed(true, AfterDeltas(true, init), last).0
    ensures var e := Feed(true, AfterDeltas(true, init), last).1;
            && Emissions(true, init + [last]) == Emissions(true, init) + (if e.Silent? then [] else [e])
            && Shown(init + [last]) == Shown(init) + TextOf(e)
  {
    hide Feed;
    var texts := init + [last];
    assert texts[..|texts| - 1] == init && texts[|texts| - 1] == last;
    var es, now := Emissions(true, init), Feed(true, AfterDeltas(true, init), last).1;
    assert Emissions(true, texts) == es + (if now.Silent? then [] else [now]);
    if now.Silent? {
      assert es + [] == es && Passed(es) + "" == Passed(es);
    } else {
      PassedSnoc(es, now);
    }
  }

  lemma {:induction false} NothingYet()
    ensures AfterDeltas(true, []) == START && Shown([]) == "" && AfterDeltas(false, []) == START
    ensures Emissions(true, []) == [] && Emissions(false, []) == [] && Concat([]) == ""
  {
  }

  // ----- texts that never look plain -----

  /** The window and the new delta are a part of the marker-free front. */
  lemma {:induction false} WindowInFront(text: string, more: string, rest: string)
    requires NeverPlain(text + more + rest) && FirstMarker(text + more) == NoMarker
    ensures !PlainStart(Last(text, PENDING_WINDOW) + more)
  {
    hide FirstMarker, PlainStart, MarkerFree, LStrip;
    var whole := text + more + rest;
    MarkerFreeIsLongest(text + more, rest);
    var front := MarkerFree(whole);
    var window := Last(text, PENDING_WINDOW);
    var s := |text| - |window|;
    var n := |text + more|;
    assert window + more == whole[s..n];
    assert front[s..] == (window + more) + front[n..];
    if PlainStart(window + more) { PlainStartGrows(window + more, front[n..]); }
  }

  lemma {:induction false} NeverPlainStep(p: Parser, text: string, more: string, rest: string)
    requires Tracks(text, p) && NeverPlain(text + more + rest)
    ensures Feed(true, p, more) == Feed(false, p, more)
  {
    hide FirstMarker, PlainStart, NeverPlain, Last, FeedBody, Find;
    if FirstMarker(text) == NoMarker && FirstMarker(p.buffer + more) == NoMarker {
      WindowMarker(text, more);
      WindowInFront(text, more, rest);
    }
    FeedNotPlain(p, more);
  }

  lemma {:induction false} NeverPlainReads(texts: seq<string>, rest: string)
    requires NeverPlain(Concat(texts) + rest)
    ensures AfterDeltas(true, texts) == AfterDeltas(false, texts)
    ensures Emissions(true, texts) == Emissions(false, texts)
    decreases |texts|
  {
    hide NeverPlain, Feed, Tracks;
    if texts != [] {
      var init, last := texts[..|texts| - 1], texts[|texts| - 1];
      assert texts == init + [last];
      ConcatSnoc(init, last);
      Assoc3(Concat(init), last, rest);
      NeverPlainReads(init, last + rest);
      ChunkInvariance(init);
      NeverPlainStep(AfterDeltas(false, init), Concat(init), last, rest);
    }
  }

  // ----- texts that are plain throughout -----

  ghost predicate NoneCompletes(es: seq<Emission>) {
    forall i :: 0 <= i < |es| ==> !Completes(es[i])
  }

  /** The parser on a plain answer: waiting in the leading white space, passing
      everything on behind it. */
  ghost predicate OnPlain(text: string, p: Parser, shown: string) {
    if LStrip(text) == "" then p == Parser(Pending, text) && shown == ""
    else p == Parser(PlainFinal, "") && shown == text
  }

  lemma {:induction false} PlainStep(text: string, p: Parser, shown: string, more: string, rest: string)
    requires PlainThroughout(text + more + rest) && OnPlain(text, p, shown)
    ensures var (q, e) := Feed(true, p, more); OnPlain(text + more, q, shown + TextOf(e)) && !Completes(e)
  {
    hide FirstMarker, LStrip, FeedBody;
    LStripAppend(text, more);
    LStripAppend(text + more, rest);
    FrontHasNoMarker(text + more, rest);
    if LStrip(text) == "" && LStrip(text + more) == "" {
      assert |text + more| <= PENDING_WINDOW;
    }
  }

  lemma {:induction false} PlainReads(texts: seq<string>, rest: string)
    requires PlainThroughout(Concat(texts) + rest)
    ensures OnPlain(Concat(texts), AfterDeltas(true, texts), Shown(texts))
    ensures NoneCompletes(Emissions(true, texts))
    decreases |texts|
  {
    hide PlainThroughout, Feed, Shown, OnPlain, Completes;
    if texts == [] {
      NothingYet();
      assert OnPlain("", START, "") by { PlainNothing(); }
    } else {
      var init, last := texts[..|texts| - 1], texts[|texts| - 1];
      assert texts == init + [last];
      ConcatSnoc(init, last);
      Assoc3(Concat(init), last, rest);
      PlainReads(init, last + rest);
      OneMorePlain(init, last);
      PlainStep(Concat(init), AfterDeltas(true, init), Shown(init), last, rest);
    }
  }

  lemma {:induction false} PlainNothing()
    ensures OnPlain("", START, "")
  {
  }

  // ----- and no others -----

  /** All cuttings of the text show the same. */
  ghost predicate CuttingIsFree(text: string) {
    forall a, b :: Concat(a) == text && Concat(b) == text ==> Shown(a) == Shown(b)
  }

  lemma {:induction false} ShownWhole(text: string)
    ensures Concat([text]) == text
    ensures FirstMarker(text) != NoMarker ==> Shown([text]) == PassedOn(ReadText(text))
    ensures FirstMarker(text) == NoMarker && PlainStart(text) ==> Shown([text]) == text
    ensures FirstMarker(text) == NoMarker && !PlainStart(text) ==> Shown([text]) == ""
  {
    hide FirstMarker, LStrip, Feed, Shown, Emissions, AfterDeltas, Passed, PassedOn, ReadText, PlainStart;
    NothingYet();
    assert [] + [text] == [text] && "" + text == text;
    ConcatSnoc([], text);
    OneMorePlain([], text);
    if FirstMarker(text) == NoMarker && PlainStart(text) {
      FeedPlain("", text);
    } else {
      FeedNotPlain(START, text);
      OneMore([], text);
      ChunkInvariance([text]);
      ShownNotPlain(text);
      PassedWaiting(text);
    }
  }

  lemma {:induction false} ShownNotPlain(text: string)
    ensures Passed(Emissions(false, [text])) == "" + TextOf(Feed(false, START, text).1)
  {
    hide Feed;
    OneMore([], text);
    NothingYet();
    assert [] + [text] == [text];
    var e := Feed(false, START, text).1;
    assert [] + [e] == [e];
    PassedSnoc([], e);
  }

  lemma {:induction false} PassedWaiting(text: string)
    ensures FirstMarker(text) == NoMarker ==> PassedOn(ReadText(text)) == ""
  {
    hide FirstMarker;
  }

  /** Two deltas where the second makes the window look plain, and the rest. */
  lemma {:induction false} ShownFromWindow(first: string, second: string, rest: string)
    requires FirstMarker(first + second) == NoMarker
    requires PlainStart(Last(first, PENDING_WINDOW) + second)
    ensures Concat([first, second, rest]) == first + second + rest
    ensures Shown([first, second, rest]) ==
            (if PlainStart(first) then first else Last(first, PENDING_WINDOW)) + second + rest
  {
    hide FirstMarker, LStrip, Feed, Shown, Emissions, AfterDeltas, Last, PlainStart;
    NothingYet();
    assert [] + [first] == [first] && "" + first == first;
    assert [first] + [second] == [first, second] && [first, second] + [rest] == [first, second, rest];
    ConcatSnoc([], first);
    ConcatSnoc([first], second);
    ConcatSnoc([first, second], rest);
    OneMorePlain([], first);
    OneMorePlain([first], second);
    OneMorePlain([first, second], rest);
    FrontHasNoMarker(first, second);
    FirstDelta(first);
    var window := Last(first, PENDING_WINDOW);
    if PlainStart(first) {
      PlainGoesOn(second);
    } else {
      WindowMarker(first, second);
      assert FirstMarker(window + second) == NoMarker;
      FeedPlain(window, second);
      assert "" + (window + second) == window + second;
    }
    PlainGoesOn(rest);
  }

  lemma {:induction false} FirstDelta(first: string)
    requires FirstMarker(first) == NoMarker
    ensures Feed(true, START, first) ==
            if PlainStart(first) then (Parser(PlainFinal, ""), Emit(first, false, false))
            else (Parser(Pending, Last(first, PENDING_WINDOW)), Silent)
  {
    hide FirstMarker, LStrip;
    assert "" + first == first;
  }

  lemma {:induction false} PlainGoesOn(more: string)
    ensures Feed(true, Parser(PlainFinal, ""), more) == (Parser(PlainFinal, ""), Emit(more, false, true))
  {
  }

  lemma {:induction false} PassedIsShort(text: string, front: string, rest: string)
    requires text == front + rest && FirstMarker(front) == NoMarker && FirstMarker(text) != NoMarker
    ensures PassedOn(ReadText(text)) == "" || |PassedOn(ReadText(text))| < |rest|
  {
    hide FindFrom;
    match FirstMarker(text)
    case Answer(position) => NewMatchIsLate(front, rest, OPENING);
    case _ =>
  }

  /** A text that can look plain, but is not plain throughout, is shown in two ways. */
  lemma {:induction false} LooksPlain(text: string) returns (a: seq<string>, b: seq<string>)
    requires !NeverPlain(text) && !PlainThroughout(text)
    ensures Concat(a) == text && Concat(b) == text && Shown(a) != Shown(b)
  {
    hide FirstMarker, LStrip, Shown, PlainStart, Last, PassedOn, ReadText;
    a := [text];
    ShownWhole(text);
    if FirstMarker(text) == NoMarker && PlainStart(text) {
      b := MuchSpace(text);
    } else {
      var front := MarkerFree(text);
      MarkerFreeIsFree(text);
      var s :| 0 <= s <= |front| && (s == 0 || s + PENDING_WINDOW <= |front|) && PlainStart(front[s..]);
      var i := if s == 0 then 0 else s + PENDING_WINDOW;
      var rest := text[|front|..];
      b := [front[..i], front[i..], rest];
      assert front[..i] + front[i..] == front && front + rest == text;
      assert front[..i] == front[..s] + front[s..i] && front[s..] == front[s..i] + front[i..];
      WindowIs(front[..s], front[s..i]);
      ShownFromWindow(front[..i], front[i..], rest);
      NonEmptyPlain(front[s..]);
      assert |Shown(b)| >= |front[s..]| + |rest|;
      if FirstMarker(text) != NoMarker { PassedIsShort(text, front, rest); }
    }
  }

  lemma {:induction false} NonEmptyPlain(text: string)
    requires PlainStart(text)
    ensures text != ""
  {
  }

  lemma {:induction false} WindowIs(dropped: string, window: string)
    requires |window| == PENDING_WINDOW || (dropped == "" && window == "")
    ensures Last(dropped + window, PENDING_WINDOW) == window
  {
  }

  /** More leading white space than the window holds: some of it is lost. */
  lemma {:induction false} MuchSpace(text: string) returns (b: seq<string>)
    requires FirstMarker(text) == NoMarker && PlainStart(text) && !PlainThroughout(text)
    ensures Concat(b) == text && Shown(b) != text
  {
    hide FirstMarker, LStrip, Shown;
    LStripParts(text);
    var n := |text| - |LStrip(text)|;
    b := [text[..n], text[n..], ""];
    assert text[..n] + text[n..] == text && text + "" == text;
    SpaceSuffix(text[..n], PENDING_WINDOW);
    LStripAppend(Last(text[..n], PENDING_WINDOW), text[n..]);
    LStripAppend("", text[n..]);
    StripStripped(text);
    ShownFromWindow(text[..n], text[n..], "");
    assert |Last(text[..n], PENDING_WINDOW)| < n;
  }

  lemma {:induction false} StripStripped(text: string)
    ensures LStrip(LStrip(text)) == LStrip(text)
  {
  }

  /** With plain finals allowed, what is shown is one function of the text, however
      it is cut, exactly when the text never looks plain or is plain throughout. */
  lemma {:induction false} PlainFinalsExactly(text: string)
    ensures CuttingIsFree(text) <==> NeverPlain(text) || PlainThroughout(text)
  {
    hide NeverPlain, PlainThroughout, Shown;
    if NeverPlain(text) || PlainThroughout(text) {
      forall a, b | Concat(a) == text && Concat(b) == text ensures Shown(a) == Shown(b) {
        ShownAs(a);
        ShownAs(b);
      }
    } else {
      var a, b := LooksPlain(text);
    }
  }

  /** Which function it is. */
  lemma {:induction false} ShownAs(texts: seq<string>)
    ensures NeverPlain(Concat(texts)) ==>
              Shown(texts) == PassedOn(ReadText(Concat(texts))) &&
              Emissions(true, texts) == Emissions(false, texts)
    ensures PlainThroughout(Concat(texts)) ==>
              Shown(texts) == Concat(texts) && AfterDeltas(true, texts) == Parser(PlainFinal, "") &&
              NoneCompletes(Emissions(true, texts))
  {
    hide NeverPlain, PassedOn, ReadText, FirstMarker, LStrip, Emissions, AfterDeltas;
    var text := Concat(texts);
    assert text + "" == text;
    if NeverPlain(text) {
      NeverPlainReads(texts, "");
      ChunkInvariance(texts);
    }
    if PlainThroughout(text) { PlainReads(texts, ""); }
  }

  /** An answer in other mark-up that outgrows the window: sent at once nothing of
      it is shown, sent in two deltas it loses its beginning. */
  lemma {:induction false} OutgrownWindow(text: string, s: nat)
    requires FirstMarker(text) == NoMarker && !PlainStart(text)
    requires 0 < s <= |text| - PENDING_WINDOW && PlainStart(text[s..])
    requires !PlainStart(text[..s + PENDING_WINDOW])
    ensures Shown([text]) == ""
    ensures Shown([text[..s + PENDING_WINDOW], text[s + PENDING_WINDOW..], ""]) == text[s..]
  {
    hide FirstMarker, PlainStart, Shown, Last;
    var i := s + PENDING_WINDOW;
    ShownWhole(text);
    assert text[..i] + text[i..] == text && text[s..] + "" == text[s..];
    assert text[..i] == text[..s] + text[s..i] && text[s..] == text[s..i] + text[i..];
    WindowIs(text[..s], text[s..i]);
    ShownFromWindow(text[..i], text[i..], "");
  }

  /** Text ahead of a tool or talk tag is shown only when it comes in a delta of its
      own, and then with the tag. */
  lemma {:induction false} TextBeforeTag(front: string, rest: string)
    requires FirstMarker(front) == NoMarker && PlainStart(front) && FirstMarker(front + rest) == Refusing
    ensures Shown([front + rest]) == ""
    ensures Shown([front, "", rest]) == front + rest
  {
    hide Shown, PassedOn, ReadText, FirstMarker, PlainStart, LStrip;
    ShownFromStart(front, rest);
    ShownWhole(front + rest);
    PassedRefused(front + rest);
  }

  lemma {:induction false} ShownFromStart(front: string, rest: string)
    requires FirstMarker(front) == NoMarker && PlainStart(front)
    ensures Shown([front, "", rest]) == front + rest
  {
    hide FirstMarker, Feed, Shown, Emissions, AfterDeltas, PlainStart;
    NothingYet();
    assert [] + [front] == [front] && "" + front == front && front + "" == front;
    assert [front] + [""] == [front, ""] && [front, ""] + [rest] == [front, "", rest];
    OneMorePlain([], front);
    OneMorePlain([front], "");
    OneMorePlain([front, ""], rest);
    FirstDelta(front);
    PlainGoesOn("");
    PlainGoesOn(rest);
  }

  /** It happens. */
  lemma {:induction false} TagAfterLetter()
    ensures FirstMarker("a") == NoMarker && PlainStart("a") && FirstMarker("a" + "<tool") == Refusing
  {
    hide FindFrom;
    FindShort("a", OPENING);
    FindShort("a", TOOL);
    FindShort("a", TALK);
    FindShort("a" + "<tool", OPENING);
    assert OccursAt("a" + "<tool", TOOL, 1);
    FindIsFirst("a" + "<tool", TOOL);
  }

  lemma {:induction false} PassedRefused(text: string)
    requires FirstMarker(text) == Refusing
    ensures PassedOn(ReadText(text)) == ""
  {
    hide FirstMarker;
  }
}
