/** Repeat detection of pico/agent_loop.py: the sliding window of tool fingerprints. */
module RepeatWindow {
  import opened Basics
  import opened Options
  import opened ReadIntervals

  /** `_tool_fingerprint`; `Other` is every call that is none of the first three. */
  datatype Fingerprint =
    | Read(path: string, span: Span)
    | Shell(command: string)
    | SearchFor(path: string, pattern: string)
    | Other(name: string, args: string)

  datatype Entry = Entry(action: Fingerprint, result: Option<string>)

  const TOOL_REPEAT_WINDOW := 6
  const READ_OVERLAP_RATIO := 0.6

  predicate ReadOnly(fp: Fingerprint) {
    fp.Read? || fp.SearchFor? || (fp.Other? && fp.name == "list_files")
  }

  /** `_interval_overlap_ratio`: how much of the first range lies in the second. */
  function OverlapRatio(a: Span, b: Span): real {
    var aStart := if a.start.At? then a.start.line else if b.start.At? then b.start.line else 1;
    var aEnd := if a.end.At? then a.end.line else if b.end.At? then b.end.line else aStart;
    var bStart := if b.start.At? then b.start.line else aStart;
    var bEnd := if b.end.At? then b.end.line else aEnd;
    if aEnd <= aStart then
      if bEnd <= bStart then (if aStart == bStart && aEnd == bEnd then 1.0 else 0.0)
      else if bStart <= aStart <= bEnd then 1.0
      else 0.0
    else if aEnd < bStart || bEnd < aStart then 0.0
    else
      var overlap := Min(aEnd, bEnd) - Max(aStart, bStart);
      if overlap <= 0 then 0.0 else overlap as real / (aEnd - aStart) as real
  }

  predicate Matches(a: Fingerprint, b: Fingerprint) {
    if a.Read? && b.Read? then a.path == b.path && OverlapRatio(a.span, b.span) >= READ_OVERLAP_RATIO
    else a == b
  }

  /** The ranges of one file that are in the window. */
  function SamePath(window: seq<Entry>, path: string): seq<Span> {
    if window == [] then []
    else
      var init, e := window[..|window| - 1], window[|window| - 1];
      if e.action.Read? && e.action.path == path then SamePath(init, path) + [e.action.span] else SamePath(init, path)
  }

  predicate WriterAfter(window: seq<Entry>, i: int) {
    exists j :: 0 <= j < |window| && i < j && !ReadOnly(window[j].action)
  }

  /** What a read adds to the ranges of its file that are in the window. */
  function NewLines(fp: Fingerprint, window: seq<Entry>): Outcome<int>
    requires fp.Read?
  {
    Uncovered(fp.span.start, fp.span.end, Merge(SamePath(window, fp.path)))
  }

  /** A match in another range of the same file. */
  predicate Partial(fp: Fingerprint, previous: Fingerprint) {
    fp.Read? && previous.Read? && fp.span != previous.span
  }

  predicate Changed(result: Option<string>, previous: Option<string>) {
    result.Some? && previous.Some? && result != previous
  }

  // ----- _tool_call_repeats -----

  function RepeatsFrom(fp: Fingerprint, result: Option<string>, window: seq<Entry>, i: nat): Outcome<bool>
    requires i <= |window|
    decreases |window| - i
  {
    if i == |window| then Value(false)
    else
      var e := window[i];
      if !Matches(fp, e.action) then RepeatsFrom(fp, result, window, i + 1)
      else if Partial(fp, e.action) then
        match NewLines(fp, window)
        case TypeError => TypeError
        case Value(n) => if n > 0 then RepeatsFrom(fp, result, window, i + 1) else Value(true)
      else if Changed(result, e.result) || WriterAfter(window, i) then RepeatsFrom(fp, result, window, i + 1)
      else Value(true)
  }

  function Repeats(fp: Fingerprint, result: Option<string>, window: seq<Entry>): Outcome<bool> {
    RepeatsFrom(fp, result, window, 0)
  }

  method ToolCallRepeats(fp: Fingerprint, result: Option<string>, window: seq<Entry>) returns (r: Outcome<bool>)
    ensures r == Repeats(fp, result, window)
  {
    hide Matches, Uncovered, Merge, SamePath, WriterAfter;
    for i := 0 to |window|
      invariant RepeatsFrom(fp, result, window, i) == Repeats(fp, result, window)
    {
      var e := window[i];
      if !Matches(fp, e.action) {
        continue;
      }
      if Partial(fp, e.action) {
        var merged := MergeReadIntervals(SamePath(window, fp.path));
        var added := UncoveredReadLines(fp.span.start, fp.span.end, merged);
        match added {
          case TypeError => return TypeError;
          case Value(n) =>
            if n > 0 {
              continue;
            }
            return Value(true);
        }
      }
      if Changed(result, e.result) {
        continue;
      }
      if WriterAfter(window, i) {
        continue;
      }
      return Value(true);
    }
    return Value(false);
  }

  // ----- the check before execution -----

  function RefusedFrom(fp: Fingerprint, window: seq<Entry>, i: nat): Outcome<bool>
    requires i <= |window| && fp.Read?
    decreases |window| - i
  {
    if i == |window| then Value(false)
    else
      var e := window[i];
      if !e.action.Read? || !Matches(fp, e.action) || WriterAfter(window, i) then RefusedFrom(fp, window, i + 1)
      else if fp.span == e.action.span then Value(true)
      else
        match NewLines(fp, window)
        case TypeError => TypeError
        case Value(n) => if n == 0 then Value(true) else RefusedFrom(fp, window, i + 1)
  }

  /** `_execute_tool_action` refuses the call without running it. */
  function Refused(fp: Fingerprint, window: seq<Entry>): Outcome<bool> {
    if fp.Read? then RefusedFrom(fp, window, 0) else Repeats(fp, None, window)
  }

  method RefuseBeforeRunning(fp: Fingerprint, window: seq<Entry>) returns (r: Outcome<bool>)
    ensures r == Refused(fp, window)
  {
    hide Matches, Uncovered, Merge, SamePath, WriterAfter;
    if !fp.Read? {
      r := ToolCallRepeats(fp, None, window);
      return;
    }
    for i := 0 to |window|
      invariant RefusedFrom(fp, window, i) == RefusedFrom(fp, window, 0)
    {
      var previous := window[i].action;
      if !previous.Read? || previous.path != fp.path {
        OtherPath(fp, previous);
        continue;
      }
      if !Matches(fp, previous) {
        continue;
      }
      if WriterAfter(window, i) {
        continue;
      }
      if fp.span == previous.span {
        return Value(true);
      }
      var merged := MergeReadIntervals(SamePath(window, fp.path));
      var added := UncoveredReadLines(fp.span.start, fp.span.end, merged);
      match added {
        case TypeError => return TypeError;
        case Value(n) =>
          if n == 0 {
            return Value(true);
          }
      }
    }
    return Value(false);
  }

  lemma {:induction false} OtherPath(fp: Fingerprint, previous: Fingerprint)
    requires fp.Read? && (!previous.Read? || previous.path != fp.path)
    ensures !Matches(fp, previous)
  {
    hide OverlapRatio;
  }

  // ----- which reads are flagged -----

  lemma {:induction false} SamePathHas(window: seq<Entry>, path: string, i: nat)
    requires i < |window| && window[i].action.Read? && window[i].action.path == path
    ensures window[i].action.span in SamePath(window, path)
    decreases |window|
  {
    var init := window[..|window| - 1];
    if i < |init| { SamePathHas(init, path, i); }
  }

  lemma {:induction false} CoveredByOne(s: Span, spans: seq<Span>)
    requires Definite(s) && s in spans
    ensures RangeCovered(s, spans)
  {
    var i :| 0 <= i < |spans| && spans[i] == s;
  }

  /** Every line of the range is in some definite span. */
  ghost predicate RangeCovered(s: Span, spans: seq<Span>)
    requires Definite(s)
  {
    forall n :: Lo(s) <= n <= Hi(s) ==> Covers(spans, n)
  }

  lemma {:induction false} NoNewLines(fp: Fingerprint, window: seq<Entry>)
    requires fp.Read? && Definite(fp.span) && NewLines(fp, window).Value?
    ensures 0 <= NewLines(fp, window).value
    ensures NewLines(fp, window) == Value(0) <==> RangeCovered(fp.span, SamePath(window, fp.path))
  {
    hide Merge, SamePath, UncoveredFrom, Sort;
    var spans := SamePath(window, fp.path);
    MergePreservesLines(spans);
    NothingNew(Lo(fp.span), Hi(fp.span), Merge(spans));
    assert fp.span == Span(At(Lo(fp.span)), At(Hi(fp.span)));
    assert RangeCovered(fp.span, Merge(spans)) <==> RangeCovered(fp.span, spans);
  }

  /** A flagged read with both ends given has no line that is not in the window. */
  lemma {:induction false} FlaggedReadIsCovered(fp: Fingerprint, result: Option<string>, window: seq<Entry>, i: nat)
    requires fp.Read? && Definite(fp.span) && i <= |window|
    requires RepeatsFrom(fp, result, window, i) == Value(true)
    ensures RangeCovered(fp.span, SamePath(window, fp.path))
    decreases |window| - i
  {
    hide NewLines, SamePath, OverlapRatio, Covers, WriterAfter;
    if i < |window| {
      var e := window[i];
      if Matches(fp, e.action) && !Partial(fp, e.action) && !Changed(result, e.result) && !WriterAfter(window, i) {
        SamePathHas(window, fp.path, i);
        CoveredByOne(fp.span, SamePath(window, fp.path));
      } else if Matches(fp, e.action) && Partial(fp, e.action) && NewLines(fp, window) == Value(0) {
        NoNewLines(fp, window);
      } else {
        if NewLines(fp, window).Value? { NoNewLines(fp, window); }
        FlaggedReadIsCovered(fp, result, window, i + 1);
      }
    }
  }

  predicate StrictlyInside(s: Span, t: Span) {
    Definite(s) && Definite(t) && Lo(t) <= Lo(s) <= Hi(s) <= Hi(t) && s != t
  }

  lemma {:induction false} SelfRatio(n: int)
    requires n > 0
    ensures n as real / n as real == 1.0
  {
  }

  lemma {:induction false} InsideMatches(s: Span, t: Span)
    requires StrictlyInside(s, t)
    ensures OverlapRatio(s, t) == 1.0
  {
    if Hi(s) > Lo(s) {
      SelfRatio(Hi(s) - Lo(s));
    }
  }

  /** The read is an exact repeat of entry i: same range, no other result, no writer since. */
  predicate ExactRepeat(fp: Fingerprint, result: Option<string>, window: seq<Entry>, i: nat)
    requires i < |window|
  {
    && Matches(fp, window[i].action) && !Partial(fp, window[i].action)
    && !Changed(result, window[i].result) && !WriterAfter(window, i)
  }

  predicate PartialMatch(fp: Fingerprint, window: seq<Entry>, i: nat)
    requires i < |window|
  {
    Matches(fp, window[i].action) && Partial(fp, window[i].action)
  }

  /** The whole decision in closed form: an exact repeat, or a partial match that
      adds no line; and it raises where a partial match is reached first and the
      window's ranges of the file cannot be sorted. */
  lemma {:induction false} RepeatsExactly(fp: Fingerprint, result: Option<string>, window: seq<Entry>, i: nat)
    requires i <= |window|
    ensures RepeatsFrom(fp, result, window, i).TypeError? <==>
            exists j :: i <= j < |window| && PartialMatch(fp, window, j) && NewLines(fp, window).TypeError? &&
                        forall k :: i <= k < j ==> !ExactRepeat(fp, result, window, k)
    ensures RepeatsFrom(fp, result, window, i) == Value(true) ==>
            exists j :: i <= j < |window| &&
                        (ExactRepeat(fp, result, window, j) ||
                            (PartialMatch(fp, window, j) && NewLines(fp, window) == Value(0)))
    ensures (exists j :: i <= j < |window| &&
                        (ExactRepeat(fp, result, window, j) ||
                            (PartialMatch(fp, window, j) && NewLines(fp, window) == Value(0)))) ==>
            RepeatsFrom(fp, result, window, i) == Value(true) || RepeatsFrom(fp, result, window, i) == TypeError
    decreases |window| - i
  {
    hide NewLines, Matches, WriterAfter, Changed;
    if i < |window| {
      RepeatsExactly(fp, result, window, i + 1);
      NewLinesNatural(fp, window);
      if ExactRepeat(fp, result, window, i) {
      } else if PartialMatch(fp, window, i) {
      } else {
        assert RepeatsFrom(fp, result, window, i) == RepeatsFrom(fp, result, window, i + 1);
      }
    }
  }

  lemma {:induction false} NewLinesNatural(fp: Fingerprint, window: seq<Entry>)
    ensures fp.Read? && NewLines(fp, window).Value? ==> 0 <= NewLines(fp, window).value
  {
    hide Merge, SamePath, Sort;
  }

  /** A read strictly inside one earlier read of the window is always flagged. */
  lemma {:induction false} InsideReadIsFlagged(fp: Fingerprint, result: Option<string>, window: seq<Entry>, i: nat)
    requires i < |window| && fp.Read? && window[i].action.Read? && window[i].action.path == fp.path
    requires StrictlyInside(fp.span, window[i].action.span)
    requires Sortable(Merge(SamePath(window, fp.path)))
    ensures Repeats(fp, result, window) == Value(true)
  {
    hide OverlapRatio, Merge, SamePath, RepeatsFrom, Covers, Sortable;
    InsideMatches(fp.span, window[i].action.span);
    assert PartialMatch(fp, window, i);
    SamePathHas(window, fp.path, i);
    CoveredByOne(window[i].action.span, SamePath(window, fp.path));
    SortableNewLines(fp, window);
    NoNewLines(fp, window);
    RepeatsExactly(fp, result, window, 0);
  }

  lemma {:induction false} SortableNewLines(fp: Fingerprint, window: seq<Entry>)
    requires fp.Read? && Sortable(Merge(SamePath(window, fp.path)))
    ensures NewLines(fp, window).Value?
  {
    hide Merge, SamePath, Sortable, UncoveredFrom, Sort;
  }

  lemma {:induction false} DefiniteWindowSorts(spans: seq<Span>)
    requires AllDefinite(spans)
    ensures Sortable(Merge(spans))
  {
    hide Merge;
    assert spans + [] == spans;
    FilterConcat(spans, []);
    MergePreservesLines(spans);
    assert Definites(Merge(spans)) + [] == Definites(Merge(spans));
  }

  // ----- where the check raises -----

  predicate Raises(fp: Fingerprint, result: Option<string>, window: seq<Entry>) {
    && fp.Read? && NewLines(fp, window).TypeError?
    && exists j :: 0 <= j < |window| && PartialMatch(fp, window, j) &&
                   forall k :: 0 <= k < j ==> !ExactRepeat(fp, result, window, k)
  }

  /** A refusal rests on an exact repeat or on a partial match without a new line. */
  lemma {:induction false} RefusedWhere(fp: Fingerprint, window: seq<Entry>, i: nat) returns (j: nat)
    requires fp.Read? && i <= |window| && RefusedFrom(fp, window, i) == Value(true)
    ensures i <= j < |window|
    ensures ExactRepeat(fp, None, window, j) || (PartialMatch(fp, window, j) && NewLines(fp, window) == Value(0))
    decreases |window| - i
  {
    hide NewLines, OverlapRatio, WriterAfter;
    var e := window[i];
    if !e.action.Read? || !Matches(fp, e.action) || WriterAfter(window, i) {
      j := RefusedWhere(fp, window, i + 1);
    } else if fp.span == e.action.span || NewLines(fp, window) == Value(0) {
      j := i;
    } else {
      j := RefusedWhere(fp, window, i + 1);
    }
  }

  /** An entry at which the check before execution raises if the ranges do not sort. */
  predicate FreshPartial(fp: Fingerprint, window: seq<Entry>, i: nat)
    requires i < |window|
  {
    PartialMatch(fp, window, i) && !WriterAfter(window, i)
  }

  /** Entry i refuses the read. */
  predicate Refuses(fp: Fingerprint, window: seq<Entry>, i: nat)
    requires i < |window| && fp.Read?
  {
    ExactRepeat(fp, None, window, i) || (FreshPartial(fp, window, i) && NewLines(fp, window) == Value(0))
  }

  /** The check before execution in closed form, for reads: it raises where a partial
      match without a writer after it comes ahead of every exact repeat and the
      ranges cannot be sorted, and refuses on an exact repeat, or on such a match
      that adds no line, where it does not raise first. */
  lemma {:induction false} RefusedFromExactly(fp: Fingerprint, window: seq<Entry>, i: nat)
    requires fp.Read? && i <= |window|
    ensures RefusedFrom(fp, window, i).TypeError? <==>
            exists j :: i <= j < |window| && FreshPartial(fp, window, j) && NewLines(fp, window).TypeError? &&
                        forall k :: i <= k < j ==> !ExactRepeat(fp, None, window, k)
    ensures RefusedFrom(fp, window, i) == Value(true) <==>
            exists j :: i <= j < |window| && Refuses(fp, window, j) &&
                        forall k :: i <= k < j ==> !(FreshPartial(fp, window, k) && NewLines(fp, window).TypeError?)
    decreases |window| - i
  {
    hide NewLines, Matches, WriterAfter;
    if i < |window| {
      RefusedFromExactly(fp, window, i + 1);
      NewLinesNatural(fp, window);
      MatchesARead(fp, window[i].action);
      if ExactRepeat(fp, None, window, i) {
        assert Refuses(fp, window, i) && RefusedFrom(fp, window, i) == Value(true);
      } else if FreshPartial(fp, window, i) && NewLines(fp, window) == Value(0) {
        assert Refuses(fp, window, i) && RefusedFrom(fp, window, i) == Value(true);
      } else if FreshPartial(fp, window, i) && NewLines(fp, window).TypeError? {
        assert RefusedFrom(fp, window, i) == TypeError && !Refuses(fp, window, i);
      } else {
        assert RefusedFrom(fp, window, i) == RefusedFrom(fp, window, i + 1);
      }
    }
  }

  lemma {:induction false} MatchesARead(fp: Fingerprint, previous: Fingerprint)
    ensures fp.Read? && Matches(fp, previous) ==> previous.Read?
  {
  }

  /** The same for every call: one that is no read is refused exactly if the window
      holds an exact repeat of it, and never raises. */
  lemma {:induction false} RefusedExactly(fp: Fingerprint, window: seq<Entry>)
    ensures Refused(fp, window).TypeError? <==>
            fp.Read? && NewLines(fp, window).TypeError? &&
            exists j :: 0 <= j < |window| && FreshPartial(fp, window, j) &&
                        forall k :: 0 <= k < j ==> !ExactRepeat(fp, None, window, k)
    ensures fp.Read? && NewLines(fp, window).Value? ==>
            (Refused(fp, window) == Value(true) <==> exists j :: 0 <= j < |window| && Refuses(fp, window, j))
    ensures !fp.Read? ==>
            (Refused(fp, window) == Value(true) <==>
             exists j :: 0 <= j < |window| && ExactRepeat(fp, None, window, j))
  {
    hide NewLines, Matches, WriterAfter, RepeatsFrom, RefusedFrom;
    if fp.Read? {
      RefusedFromExactly(fp, window, 0);
    } else {
      RepeatsExactly(fp, None, window, 0);
      assert forall k :: 0 <= k < |window| ==> !PartialMatch(fp, window, k);
    }
  }

  /** Where the check before execution raises, so would the commit. */
  lemma {:induction false} RefusalRaisesLikeCommit(fp: Fingerprint, window: seq<Entry>)
    ensures Refused(fp, window).TypeError? ==> Repeats(fp, None, window).TypeError?
  {
    hide NewLines, Matches, WriterAfter, RepeatsFrom, Refused;
    RefusedExactly(fp, window);
    RepeatsExactly(fp, None, window, 0);
  }

  /** A call refused before execution is judged a repeat at commit as well, if and
      only if that second check does not raise: it looks at partial matches that
      the first one skips because a writer came after them. */
  lemma {:induction false} RefusedIsRepeat(fp: Fingerprint, window: seq<Entry>)
    requires Refused(fp, window) == Value(true)
    ensures Repeats(fp, None, window) == Value(true) <==> !Raises(fp, None, window)
    ensures Repeats(fp, None, window) == TypeError <==> Raises(fp, None, window)
    ensures fp.Read? && AllDefinite(SamePath(window, fp.path)) ==> !Raises(fp, None, window)
  {
    hide NewLines, OverlapRatio, WriterAfter, RepeatsFrom, RefusedFrom, SamePath;
    RepeatsExactly(fp, None, window, 0);
    if fp.Read? {
      var j := RefusedWhere(fp, window, 0);
      if AllDefinite(SamePath(window, fp.path)) {
        DefiniteWindowSorts(SamePath(window, fp.path));
        SortableNewLines(fp, window);
      }
    } else {
      assert forall k :: 0 <= k < |window| ==> !PartialMatch(fp, window, k);
    }
  }

  lemma {:induction false} OpenEndedStays(spans: seq<Span>, s: Span)
    requires s in spans
    ensures Definite(s) ==> s in Definites(spans)
    ensures !Definite(s) ==> s in OpenEnded(spans)
  {
    if s != spans[0] { OpenEndedStays(spans[1..], s); }
  }

  lemma {:induction false} NotSortable(spans: seq<Span>, s: Span)
    requires WHOLE_FILE in spans && s in spans && Definite(s)
    ensures !Sortable(Merge(spans))
  {
    hide Merge;
    MergePreservesLines(spans);
    OpenEndedStays(spans, WHOLE_FILE);
    OpenEndedStays(spans, s);
    CoveredByOne(s, spans);
    NotAllOpen(spans, Merge(spans), s);
    var i :| 0 <= i < |OpenEnded(Merge(spans))| && OpenEnded(Merge(spans))[i] == WHOLE_FILE;
    var definites := Definites(Merge(spans));
    assert Merge(spans)[0] == definites[0];
    assert Merge(spans)[|definites| + i] == WHOLE_FILE;
    assert !Comparable(definites[0], WHOLE_FILE);
  }

  lemma {:induction false} NotAllOpen(spans: seq<Span>, merged: seq<Span>, s: Span)
    requires merged == Merge(spans) && s in spans && Definite(s)
    ensures Definites(merged) != []
  {
    OpenEndedStays(spans, s);
    assert Definites(spans) != [];
    var part := MergeDefinite(Definites(spans));
    assert merged[0] == part[0];
    OpenEndedStays(merged, merged[0]);
  }

  lemma {:induction false} WholeFileMatches(s: Span)
    requires Definite(s)
    ensures OverlapRatio(s, WHOLE_FILE) == 1.0 && OverlapRatio(WHOLE_FILE, s) == 1.0
  {
    if Hi(s) > Lo(s) {
      SelfRatio(Hi(s) - Lo(s));
    }
  }

  /** Once the window holds a whole-file read and a ranged read of one file, every
      further ranged read of that file raises, unless it exactly repeats an
      earlier entry: Python cannot sort None with a number. */
  lemma {:induction false} MixedRangesRaise(fp: Fingerprint, result: Option<string>, window: seq<Entry>, i: nat, j: nat)
    requires i < |window| && j < |window| && fp.Read? && Definite(fp.span)
    requires window[i].action == Read(fp.path, WHOLE_FILE)
    requires window[j].action.Read? && window[j].action.path == fp.path && Definite(window[j].action.span)
    requires forall k :: 0 <= k < i ==> !ExactRepeat(fp, result, window, k)
    ensures Repeats(fp, result, window) == TypeError
  {
    hide OverlapRatio, WriterAfter, RepeatsFrom, SamePath, Merge, Sortable;
    WholeFileMatches(fp.span);
    assert PartialMatch(fp, window, i);
    SamePathHas(window, fp.path, i);
    SamePathHas(window, fp.path, j);
    NotSortable(SamePath(window, fp.path), window[j].action.span);
    assert NewLines(fp, window) == TypeError;
    RepeatsExactly(fp, result, window, 0);
  }

  /** A read with a missing end is flagged by any match in another range, however
      little of the file was read before; so is every whole-file read after a
      ranged read of the same file. */
  lemma {:induction false} OpenEndedReadIsFlagged(fp: Fingerprint, result: Option<string>, window: seq<Entry>, i: nat)
    requires i < |window| && fp.Read? && !Definite(fp.span)
    requires PartialMatch(fp, window, i) ||
             (fp.span == WHOLE_FILE && window[i].action.Read? && window[i].action.path == fp.path &&
                 Definite(window[i].action.span))
    ensures Repeats(fp, result, window) == Value(true)
  {
    hide OverlapRatio, WriterAfter, RepeatsFrom, SamePath, Merge, Sortable;
    if Definite(window[i].action.span) { WholeFileMatches(window[i].action.span); }
    assert PartialMatch(fp, window, i);
    assert NewLines(fp, window) == Value(0);
    RepeatsExactly(fp, result, window, 0);
  }

  // ----- committing -----

  /** An executed call with the digest of its result; `ok` is tool_status ok or partial_success. */
  datatype Act = Act(fp: Fingerprint, ok: bool, result: Option<string>)

  datatype Ledger = Ledger(window: seq<Entry>, readFiles: nat, evidence: seq<Fingerprint>)

  /** deque(maxlen=6) */
  function LastSix(entries: seq<Entry>): seq<Entry> {
    if |entries| > TOOL_REPEAT_WINDOW then entries[|entries| - TOOL_REPEAT_WINDOW..] else entries
  }

  function Admitted(l: Ledger, a: Act): Ledger {
    Ledger(LastSix(l.window + [Entry(a.fp, a.result)]),
           if a.fp.Read? then l.readFiles + 1 else l.readFiles,
           if a.ok then l.evidence + [a.fp] else l.evidence)
  }

  function Committed(l: Ledger, a: Act): Ledger {
    if Repeats(a.fp, a.result, l.window) == Value(false) then Admitted(l, a) else l
  }

  datatype BatchRun = BatchRun(ledger: Ledger, repeated: seq<bool>, raised: bool)

  /** The commit loop of a batch; an exception leaves the rest uncommitted. */
  function CommittedAll(l: Ledger, acts: seq<Act>): BatchRun {
    if acts == [] then BatchRun(l, [], false)
    else
      var run := CommittedAll(l, acts[..|acts| - 1]);
      if run.raised then run
      else
        var a := acts[|acts| - 1];
        match Repeats(a.fp, a.result, run.ledger.window)
        case TypeError => run.(raised := true)
        case Value(again) => BatchRun(Committed(run.ledger, a), run.repeated + [again], false)
  }

  lemma {:induction false} PushedOut(window: seq<Entry>, e: Entry)
    requires |window| <= TOOL_REPEAT_WINDOW
    ensures var more := window + [e];
            LastSix(more) == (if |more| > TOOL_REPEAT_WINDOW then more[1..] else more) &&
                |LastSix(more)| <= TOOL_REPEAT_WINDOW
  {
  }

  class ToolLedger {
    var window: seq<Entry>
    var readFiles: nat
    var evidence: seq<Fingerprint>

    function Contents(): Ledger
      reads this
    {
      Ledger(window, readFiles, evidence)
    }

    /** `_commit_tool_action` as far as the window, the counter and the evidence go. */
    method Commit(a: Act) returns (repeated: Outcome<bool>)
      requires |window| <= TOOL_REPEAT_WINDOW
      modifies this
      ensures repeated == Repeats(a.fp, a.result, old(window))
      ensures Contents() == Committed(old(Contents()), a) && |window| <= TOOL_REPEAT_WINDOW
    {
      hide Repeats, LastSix;
      repeated := ToolCallRepeats(a.fp, a.result, window);
      if repeated.TypeError? {
        return;
      }
      PushedOut(window, Entry(a.fp, a.result));
      if a.fp.Read? && !repeated.value {
        readFiles := readFiles + 1;
      }
      if !repeated.value {
        window := window + [Entry(a.fp, a.result)];
        if |window| > TOOL_REPEAT_WINDOW {
          window := window[1..];
        }
      }
      if a.ok && !repeated.value {
        evidence := evidence + [a.fp];
      }
    }

    /** The single-tool path: refuse, or run with the given outcome, then commit. */
    method Execute(fp: Fingerprint, outcome: Act) returns (ran: bool, repeated: Outcome<bool>)
      requires |window| <= TOOL_REPEAT_WINDOW && outcome.fp == fp
      modifies this
      ensures |window| <= TOOL_REPEAT_WINDOW
      ensures ran <==> Refused(fp, old(window)) == Value(false)
      ensures Refused(fp, old(window)) == Value(true) ==>
                Contents() == old(Contents()) && (repeated == Value(true) <==> !Raises(fp, None, old(window)))
      ensures Refused(fp, old(window)) == TypeError ==> Contents() == old(Contents()) && repeated == TypeError
      ensures ran ==>
              Contents() == Committed(old(Contents()), outcome) && repeated == Repeats(fp, outcome.result, old(window))
    {
      hide Repeats, Refused, Raises;
      ghost var before := window;
      var refused := RefuseBeforeRunning(fp, window);
      match refused {
        case TypeError =>
          ran, repeated := false, TypeError;
        case Value(true) =>
          RefusedIsRepeat(fp, window);
          ran := false;
          repeated := Commit(Act(fp, false, None));
        case Value(false) =>
          ran := true;
          repeated := Commit(outcome);
      }
    }

    method CommitBatch(acts: seq<Act>) returns (repeated: seq<bool>, raised: bool)
      requires |window| <= TOOL_REPEAT_WINDOW
      modifies this
      ensures BatchRun(Contents(), repeated, raised) == CommittedAll(old(Contents()), acts)
      ensures |window| <= TOOL_REPEAT_WINDOW
    {
      hide Committed, Repeats;
      repeated, raised := [], false;
      ghost var start := Contents();
      assert acts[..0] == [];
      for i := 0 to |acts|
        invariant |window| <= TOOL_REPEAT_WINDOW && !raised
        invariant BatchRun(Contents(), repeated, raised) == CommittedAll(start, acts[..i])
      {
        OneMoreAct(start, acts, i);
        var again := Commit(acts[i]);
        if again.TypeError? {
          raised := true;
          RaisedStays(start, acts, i + 1);
          assert Committed(CommittedAll(start, acts[..i]).ledger, acts[i]) == CommittedAll(start, acts[..i]).ledger by {
            RaisingCommitsNothing(CommittedAll(start, acts[..i]).ledger, acts[i]);
          }
          return;
        }
        repeated := repeated + [again.value];
      }
      assert acts[..|acts|] == acts;
    }
  }

  lemma {:induction false} RaisingCommitsNothing(l: Ledger, a: Act)
    requires Repeats(a.fp, a.result, l.window).TypeError?
    ensures Committed(l, a) == l
  {
    hide Repeats;
  }

  lemma {:induction false} OneMoreAct(l: Ledger, acts: seq<Act>, i: nat)
    requires i < |acts|
    ensures var run := CommittedAll(l, acts[..i]);
            CommittedAll(l, acts[..i + 1]) ==
            if run.raised then run
            else match Repeats(acts[i].fp, acts[i].result, run.ledger.window)
                 case TypeError => run.(raised := true)
                 case Value(again) => BatchRun(Committed(run.ledger, acts[i]), run.repeated + [again], false)
  {
    hide Committed, Repeats;
    assert acts[..i + 1][..i] == acts[..i];
  }

  lemma {:induction false} RaisedStays(l: Ledger, acts: seq<Act>, i: nat)
    requires i <= |acts| && CommittedAll(l, acts[..i]).raised
    ensures CommittedAll(l, acts) == CommittedAll(l, acts[..i])
    decreases |acts| - i
  {
    hide Committed, Repeats;
    if i == |acts| {
      assert acts[..i] == acts;
    } else {
      OneMoreAct(l, acts, i);
      RaisedStays(l, acts, i + 1);
    }
  }

  // ----- the window after a batch -----

  /** The calls of a batch that were not judged repeats, in declared order. */
  function Kept(acts: seq<Act>, repeated: seq<bool>): seq<Act>
    requires |acts| == |repeated|
  {
    if acts == [] then []
    else
      var n := |acts| - 1;
      if repeated[n] then Kept(acts[..n], repeated[..n]) else Kept(acts[..n], repeated[..n]) + [acts[n]]
  }

  function Entries(acts: seq<Act>): (r: seq<Entry>)
    ensures |r| == |acts|
  {
    if acts == [] then [] else Entries(acts[..|acts| - 1]) + [Entry(acts[|acts| - 1].fp, acts[|acts| - 1].result)]
  }

  function ReadCount(acts: seq<Act>): nat {
    if acts == [] then 0 else ReadCount(acts[..|acts| - 1]) + if acts[|acts| - 1].fp.Read? then 1 else 0
  }

  function Proven(acts: seq<Act>): seq<Fingerprint> {
    if acts == [] then []
    else Proven(acts[..|acts| - 1]) + if acts[|acts| - 1].ok then [acts[|acts| - 1].fp] else []
  }

  function Extended(l: Ledger, kept: seq<Act>): Ledger {
    Ledger(LastSix(l.window + Entries(kept)), l.readFiles + ReadCount(kept), l.evidence + Proven(kept))
  }

  lemma {:induction false} LastSixOfLast(entries: seq<Entry>, e: Entry)
    ensures LastSix(LastSix(entries) + [e]) == LastSix(entries + [e])
  {
  }

  lemma {:induction false} ExtendedByOne(l: Ledger, kept: seq<Act>, a: Act)
    ensures Extended(l, kept + [a]) == Admitted(Extended(l, kept), a)
  {
    assert (kept + [a])[..|kept|] == kept;
    var e := Entry(a.fp, a.result);
    assert l.window + Entries(kept + [a]) == l.window + Entries(kept) + [e];
    LastSixOfLast(l.window + Entries(kept), e);
    assert l.evidence + (Proven(kept) + [a.fp]) == l.evidence + Proven(kept) + [a.fp];
    assert Proven(kept) + [] == Proven(kept);
  }

  lemma {:induction false} KeptByOne(acts: seq<Act>, repeated: seq<bool>, a: Act, again: bool)
    requires |acts| == |repeated|
    ensures Kept(acts + [a], repeated + [again]) == if again then Kept(acts, repeated) else Kept(acts, repeated) + [a]
  {
    assert (acts + [a])[..|acts|] == acts && (repeated + [again])[..|acts|] == repeated;
  }

  /** Call i was judged against the window that its kept predecessors left. */
  predicate JudgedInOrder(l: Ledger, acts: seq<Act>, repeated: seq<bool>, i: nat)
    requires |acts| == |repeated| && i < |acts|
  {
    Repeats(acts[i].fp, acts[i].result, LastSix(l.window + Entries(Kept(acts[..i], repeated[..i])))) ==
        Value(repeated[i])
  }

  /** After a batch the window is the last six of the old window followed by the
      kept calls in declared order, and exactly those count as reads and evidence. */
  lemma {:induction false} BatchKeepsDeclaredOrder(l: Ledger, acts: seq<Act>)
    requires |l.window| <= TOOL_REPEAT_WINDOW && !CommittedAll(l, acts).raised
    ensures var run := CommittedAll(l, acts);
            && |run.repeated| == |acts|
            && run.ledger == Extended(l, Kept(acts, run.repeated))
            && forall i :: 0 <= i < |acts| ==> JudgedInOrder(l, acts, run.repeated, i)
    decreases |acts|
  {
    hide CommittedAll, Extended, Kept, JudgedInOrder;
    if acts == [] {
      NothingKept(l);
      assert acts[..0] == acts;
      NoneCommitted(l);
    } else {
      var n := |acts| - 1;
      var init := acts[..n];
      assert acts[..n + 1] == acts;
      BatchInit(l, acts);
      BatchKeepsDeclaredOrder(l, init);
      LastOfBatch(l, acts);
      var run, before := CommittedAll(l, acts), CommittedAll(l, init);
      forall i | 0 <= i < |acts| ensures JudgedInOrder(l, acts, run.repeated, i) {
        if i < n { JudgedEarlier(l, acts, before.repeated, run.repeated[n], i); }
      }
    }
  }

  lemma {:induction false} NoneCommitted(l: Ledger)
    ensures CommittedAll(l, []) == BatchRun(l, [], false)
  {
  }

  lemma {:induction false} BatchInit(l: Ledger, acts: seq<Act>)
    requires acts != [] && !CommittedAll(l, acts).raised
    ensures !CommittedAll(l, acts[..|acts| - 1]).raised
  {
    hide Committed, Repeats;
  }

  lemma {:induction false} JudgedEarlier(l: Ledger, acts: seq<Act>, before: seq<bool>, again: bool, i: nat)
    requires |acts| == |before| + 1 && i < |before| && JudgedInOrder(l, acts[..|before|], before, i)
    ensures JudgedInOrder(l, acts, before + [again], i)
  {
    hide Repeats, LastSix, Entries, Kept;
    assert acts[..|before|][..i] == acts[..i] && (before + [again])[..i] == before[..i];
  }

  lemma {:induction false} LastOfBatch(l: Ledger, acts: seq<Act>)
    requires acts != [] && !CommittedAll(l, acts).raised && |l.window| <= TOOL_REPEAT_WINDOW
    requires var before := CommittedAll(l, acts[..|acts| - 1]);
             !before.raised && |before.repeated| == |acts| - 1 &&
                 before.ledger == Extended(l, Kept(acts[..|acts| - 1], before.repeated))
    ensures var n := |acts| - 1;
            var run, before := CommittedAll(l, acts), CommittedAll(l, acts[..n]);
            && |run.repeated| == |acts| && run.repeated == before.repeated + [run.repeated[n]]
            && run.ledger == Extended(l, Kept(acts, run.repeated)) && JudgedInOrder(l, acts, run.repeated, n)
  {
    hide Repeats, Admitted, Kept, Extended, LastSix, Entries;
    var n := |acts| - 1;
    var init, a := acts[..n], acts[n];
    var run, before := CommittedAll(l, acts), CommittedAll(l, init);
    var again := run.repeated[n];
    assert acts == init + [a] && run.repeated == before.repeated + [again];
    assert run.repeated[..n] == before.repeated;
    KeptByOne(init, before.repeated, a, again);
    ExtendedByOne(l, Kept(init, before.repeated), a);
    ExtendedWindow(l, Kept(init, before.repeated));
  }

  lemma {:induction false} ExtendedWindow(l: Ledger, kept: seq<Act>)
    ensures Extended(l, kept).window == LastSix(l.window + Entries(kept))
  {
    hide LastSix, Entries;
  }

  lemma {:induction false} NothingKept(l: Ledger)
    requires |l.window| <= TOOL_REPEAT_WINDOW
    ensures Extended(l, Kept([], [])) == l
  {
    assert l.window + [] == l.window && l.evidence + [] == l.evidence;
  }

  // ----- runs that raise -----

  lemma {:induction false} WholeThenRange(result: Option<string>, others: seq<Entry>, fp: Fingerprint)
    requires fp.Read? && Definite(fp.span) && Lo(fp.span) <= Hi(fp.span)
    requires forall i :: 0 <= i < |others| ==> !others[i].action.Read?
    ensures var window := [Entry(Read(fp.path, WHOLE_FILE), result)] + others;
            Repeats(fp, None, window) == Value(false) && forall r :: Repeats(fp, r, window) == Value(false)
  {
    hide OverlapRatio, WriterAfter, RepeatsFrom, Sort;
    var window := [Entry(Read(fp.path, WHOLE_FILE), result)] + others;
    OnlyWhole(result, others, fp.path);
    assert SamePath(window, fp.path) == [WHOLE_FILE];
    assert Merge([WHOLE_FILE]) == [WHOLE_FILE] && AllDefinite([]);
    NoNewLines(fp, window);
    assert !Covers([WHOLE_FILE], Lo(fp.span));
    forall i | 0 < i < |window| ensures !window[i].action.Read? { assert window[i] == others[i - 1]; }
    forall r ensures Repeats(fp, r, window) == Value(false) { NothingDecides(fp, r, window, 0); }
  }

  lemma {:induction false} NothingDecides(fp: Fingerprint, result: Option<string>, window: seq<Entry>, i: nat)
    requires fp.Read? && i <= |window| && NewLines(fp, window).Value? && NewLines(fp, window) != Value(0)
    requires forall j :: 0 <= j < |window| ==> !window[j].action.Read? || Partial(fp, window[j].action)
    ensures RepeatsFrom(fp, result, window, i) == Value(false)
    decreases |window| - i
  {
    hide NewLines, OverlapRatio;
    NewLinesNatural(fp, window);
    if i < |window| { NothingDecides(fp, result, window, i + 1); }
  }

  lemma {:induction false} OnlyWhole(result: Option<string>, others: seq<Entry>, path: string)
    requires forall i :: 0 <= i < |others| ==> !others[i].action.Read?
    ensures SamePath([Entry(Read(path, WHOLE_FILE), result)] + others, path) == [WHOLE_FILE]
    decreases |others|
  {
    var e := Entry(Read(path, WHOLE_FILE), result);
    var window := [e] + others;
    if others == [] {
      assert window[..0] == [];
    } else {
      OnlyWhole(result, others[..|others| - 1], path);
      assert window[..|window| - 1] == [e] + others[..|others| - 1];
    }
  }

  /** From an empty ledger: read a file whole, write another, read lines 10 to 60
      of the first twice. The fourth call is refused as a repeat, and committing
      the refusal raises. */
  lemma {:induction false} RefusalCanRaise(digest: string)
    ensures var part := Read("a", Span(At(10), At(60)));
            var acts := [Act(Read("a", WHOLE_FILE), true, Some(digest)), Act(Other("write_file", "b"), true, None),
                Act(part, true, Some(digest))];
            var run := CommittedAll(Ledger([], 0, []), acts);
            && !run.raised && run.repeated == [false, false, false]
            && Refused(part, run.ledger.window) == Value(true)
            && Repeats(part, None, run.ledger.window) == TypeError
  {
    hide Repeats, Refused, NewLines, CommittedAll;
    var whole, write, part := Read("a", WHOLE_FILE), Other("write_file", "b"), Read("a", Span(At(10), At(60)));
    var e0, e1, e2 := Entry(whole, Some(digest)), Entry(write, None), Entry(part, Some(digest));
    var acts := [Act(whole, true, Some(digest)), Act(write, true, None), Act(part, true, Some(digest))];
    var l0 := Ledger([], 0, []);
    NothingYet(l0, acts);
    FreshCall(whole, Some(digest), []);
    Grows(l0, acts, 0, [], []);
    FreshCall(write, None, [e0]);
    Grows(l0, acts, 1, [e0], [false]);
    WholeThenRange(Some(digest), [e1], part);
    assert [e0] + [e1] == [e0, e1];
    Grows(l0, acts, 2, [e0, e1], [false, false]);
    assert acts[..3] == acts;
    var window := [e0, e1, e2];
    MixedRangesRaise(part, None, window, 0, 2);
    RefusedAtLast(part, window);
    assert [e0, e1] + [e2] == window;
    assert CommittedAll(l0, acts).ledger.window == window;
  }

  lemma {:induction false} NothingYet(l: Ledger, acts: seq<Act>)
    ensures CommittedAll(l, acts[..0]) == BatchRun(l, [], false)
  {
  }

  lemma {:induction false} Grows(l: Ledger, acts: seq<Act>, i: nat, window: seq<Entry>, repeated: seq<bool>)
    requires i < |acts| && |window| < TOOL_REPEAT_WINDOW
    requires var run := CommittedAll(l, acts[..i]);
             !run.raised && run.ledger.window == window && run.repeated == repeated
    requires Repeats(acts[i].fp, acts[i].result, window) == Value(false)
    ensures var run := CommittedAll(l, acts[..i + 1]);
            !run.raised && run.ledger.window == window + [Entry(acts[i].fp, acts[i].result)] &&
                run.repeated == repeated + [false]
  {
    hide Repeats;
    OneMoreAct(l, acts, i);
  }

  lemma {:induction false} FreshCall(fp: Fingerprint, result: Option<string>, window: seq<Entry>)
    requires forall i :: 0 <= i < |window| ==> !Matches(fp, window[i].action)
    ensures Repeats(fp, result, window) == Value(false)
  {
    hide Matches, NewLines;
    RepeatsExactly(fp, result, window, 0);
    NotRepeating(fp, result, window, 0);
  }

  lemma {:induction false} NotRepeating(fp: Fingerprint, result: Option<string>, window: seq<Entry>, i: nat)
    requires i <= |window| && forall j :: 0 <= j < |window| ==> !Matches(fp, window[j].action)
    ensures RepeatsFrom(fp, result, window, i) == Value(false)
    decreases |window| - i
  {
    hide Matches, NewLines;
    if i < |window| { NotRepeating(fp, result, window, i + 1); }
  }

  lemma {:induction false} RefusedAtLast(fp: Fingerprint, window: seq<Entry>)
    requires fp.Read? && Definite(fp.span) && Lo(fp.span) < Hi(fp.span)
    requires |window| == 3 && !ReadOnly(window[1].action) && window[2].action == fp
    ensures Refused(fp, window) == Value(true)
  {
    hide NewLines;
    assert OverlapRatio(fp.span, fp.span) == 1.0 by {
      SelfRatio(Hi(fp.span) - Lo(fp.span));
    }
    assert WriterAfter(window, 0);
    assert !WriterAfter(window, 2);
    assert RefusedFrom(fp, window, 2) == Value(true);
    assert !Matches(fp, window[1].action);
    assert RefusedFrom(fp, window, 1) == Value(true);
  }

  /** Three reads of one file suffice to raise: the whole of it, then two ranges. */
  lemma {:induction false} ThreeReadsRaise(digest: string, first: Span, second: Span)
    requires Definite(first) && Definite(second) && Lo(first) <= Hi(first)
    ensures var acts := [Act(Read("a", WHOLE_FILE), true, Some(digest)), Act(Read("a", first), true, Some(digest)),
                         Act(Read("a", second), true, Some(digest))];
            CommittedAll(Ledger([], 0, []), acts).raised
            && Refused(Read("a", second), CommittedAll(Ledger([], 0, []), acts).ledger.window) == TypeError
  {
    hide Repeats, Refused, NewLines, CommittedAll;
    var whole, one, two := Read("a", WHOLE_FILE), Read("a", first), Read("a", second);
    var acts := [Act(whole, true, Some(digest)), Act(one, true, Some(digest)), Act(two, true, Some(digest))];
    var e0, e1 := Entry(whole, Some(digest)), Entry(one, Some(digest));
    var l0 := Ledger([], 0, []);
    NothingYet(l0, acts);
    FreshCall(whole, Some(digest), []);
    Grows(l0, acts, 0, [], []);
    WholeThenRange(Some(digest), [], one);
    assert [e0] + [] == [e0];
    Grows(l0, acts, 1, [e0], [false]);
    var window := [e0, e1];
    MixedRangesRaise(two, Some(digest), window, 0, 1);
    RefusedAtFirst(two, window);
    assert [e0] + [e1] == window;
    assert CommittedAll(l0, acts[..2]).ledger.window == window;
    OneMoreAct(l0, acts, 2);
    assert acts[..3] == acts;
  }

  lemma {:induction false} RefusedAtFirst(fp: Fingerprint, window: seq<Entry>)
    requires fp.Read? && Definite(fp.span) && |window| == 2
    requires window[0].action == Read(fp.path, WHOLE_FILE)
    requires window[1].action.Read? && window[1].action.path == fp.path && Definite(window[1].action.span)
    ensures Refused(fp, window) == TypeError
  {
    hide OverlapRatio, Merge, SamePath, Sortable;
    WholeFileMatches(fp.span);
    SamePathHas(window, fp.path, 0);
    SamePathHas(window, fp.path, 1);
    NotSortable(SamePath(window, fp.path), window[1].action.span);
    assert NewLines(fp, window) == TypeError;
    assert !WriterAfter(window, 0);
  }
}
