/** For which line ranges being flagged as a repeat means that nothing new was asked for. */
module FlaggedReads {
  import opened Options
  import opened ReadIntervals
  import opened BatchReadLines
  import opened RepeatWindow

  /** Whatever the window, a read of this range that the commit judges a repeat asks
      for no line that the window's reads of the file have not asked for. */
  ghost predicate FlagsOnlyRead(s: Span) {
    forall path, result, window ::
      Repeats(Read(path, s), result, window) == Value(true) ==> AllRequested(s, path, window)
  }

  /** The same for reads refused before execution. */
  ghost predicate RefusesOnlyRead(s: Span) {
    forall path, window ::
      Refused(Read(path, s), window) == Value(true) ==> AllRequested(s, path, window)
  }

  ghost predicate AllRequested(s: Span, path: string, window: seq<Entry>) {
    forall line :: Asks(s, line) ==> Requests(SamePath(window, path), line)
  }

  /** The range, missing ends filled in as the tool does, is empty. */
  predicate AsksNothing(s: Span) {
    (if s.start.At? then s.start.line else DEFAULT_START) > (if s.end.At? then s.end.line else DEFAULT_END)
  }

  lemma {:induction false} CoveredIsRequested(s: Span, path: string, window: seq<Entry>)
    requires Definite(s) && RangeCovered(s, SamePath(window, path))
    ensures AllRequested(s, path, window)
  {
    hide SamePath;
    var spans := SamePath(window, path);
    forall line | Asks(s, line) ensures Requests(spans, line) {
      assert Covers(spans, line);
      var i :| 0 <= i < |spans| && Definite(spans[i]) && Lo(spans[i]) <= line <= Hi(spans[i]);
      assert Asks(spans[i], line);
    }
  }

  /** A refused read with both ends given has no line outside the window, even where
      the commit of the refusal raises. */
  lemma {:induction false} RefusedReadIsCovered(fp: Fingerprint, window: seq<Entry>)
    requires fp.Read? && Definite(fp.span) && Refused(fp, window) == Value(true)
    ensures RangeCovered(fp.span, SamePath(window, fp.path))
  {
    hide NewLines, SamePath, OverlapRatio, WriterAfter, RefusedFrom, Covers;
    var j := RefusedWhere(fp, window, 0);
    if ExactRepeat(fp, None, window, j) {
      SamePathHas(window, fp.path, j);
      CoveredByOne(fp.span, SamePath(window, fp.path));
    } else {
      NoNewLines(fp, window);
    }
  }

  // ----- one earlier read suffices -----

  /** An earlier read that has every later read of this range flagged. */
  function Earlier(s: Span): Span {
    if s.start.At? then Span(At(s.start.line + 10), At(s.start.line + 110))
    else if s.end.At? then Span(At(s.end.line + 1), At(s.end.line + 5))
    else Span(At(2), At(2))
  }

  /** The first line the range asks for, or the last if it has no start. */
  function UnreadLine(s: Span): int {
    if s.start.At? then s.start.line else if s.end.At? then s.end.line else DEFAULT_START
  }

  lemma {:induction false} EarlierMatches(s: Span)
    requires !Definite(s)
    ensures OverlapRatio(s, Earlier(s)) >= READ_OVERLAP_RATIO
  {
    if s.start.At? {
      assert OverlapRatio(s, Earlier(s)) == 100 as real / 110 as real;
    }
  }

  lemma {:induction false} OneEntry(e: Entry, path: string)
    requires e.action.Read? && e.action.path == path
    ensures SamePath([e], path) == [e.action.span]
  {
    assert [e][..0] == [];
  }

  /** A read with a missing end: after one earlier read it is refused and judged a
      repeat, although it asks for a line that read has not asked for. */
  lemma {:induction false} UnreadIsFlagged(s: Span, path: string, result: Option<string>, earlier: Option<string>)
    requires !Definite(s) && !AsksNothing(s)
    ensures var window := [Entry(Read(path, Earlier(s)), earlier)];
            && Repeats(Read(path, s), result, window) == Value(true)
            && Refused(Read(path, s), window) == Value(true)
            && Asks(s, UnreadLine(s)) && !Requests(SamePath(window, path), UnreadLine(s))
  {
    hide OverlapRatio, RepeatsFrom, RefusedFrom, Merge, SamePath;
    var fp, window := Read(path, s), [Entry(Read(path, Earlier(s)), earlier)];
    EarlierMatches(s);
    OneEntry(window[0], path);
    assert PartialMatch(fp, window, 0);
    OpenEndedReadIsFlagged(fp, result, window, 0);
    assert NewLines(fp, window) == Value(0);
    assert Refuses(fp, window, 0);
    RefusedExactly(fp, window);
  }

  /** A flag or a refusal means that nothing new was asked for exactly for ranges
      with both ends, and for ranges that ask for nothing. */
  lemma {:induction false} FlagsOnlyReadExactly(s: Span)
    ensures FlagsOnlyRead(s) <==> Definite(s) || AsksNothing(s)
    ensures RefusesOnlyRead(s) <==> Definite(s) || AsksNothing(s)
  {
    hide Repeats, Refused, SamePath, RangeCovered, Requests;
    if Definite(s) {
      forall path, result, window | Repeats(Read(path, s), result, window) == Value(true)
        ensures AllRequested(s, path, window)
      {
        FlaggedIsCovered(Read(path, s), result, window);
        CoveredIsRequested(s, path, window);
      }
      forall path, window | Refused(Read(path, s), window) == Value(true) ensures AllRequested(s, path, window) {
        RefusedReadIsCovered(Read(path, s), window);
        CoveredIsRequested(s, path, window);
      }
    } else if !AsksNothing(s) {
      UnreadIsFlagged(s, "a", None, None);
      assert !AllRequested(s, "a", [Entry(Read("a", Earlier(s)), None)]);
    }
  }

  lemma {:induction false} FlaggedIsCovered(fp: Fingerprint, result: Option<string>, window: seq<Entry>)
    requires fp.Read? && Definite(fp.span) && Repeats(fp, result, window) == Value(true)
    ensures RangeCovered(fp.span, SamePath(window, fp.path))
  {
    hide RepeatsFrom;
    FlaggedReadIsCovered(fp, result, window, 0);
  }
}
