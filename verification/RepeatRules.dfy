/** What makes a call a repetition, and which calls in between lift it. */
module RepeatRules {
  import opened Basics
  import opened Options
  import opened ReadIntervals
  import opened RepeatWindow

  /** Any call that is no read, search or listing may have changed the workspace. */
  predicate MayChange(action: Fingerprint) {
    action.Shell? || (action.Other? && action.name != "list_files")
  }

  /** The two results are both known and differ. */
  predicate Differ(result: Option<string>, previous: Option<string>) {
    result != None && previous != None && result != previous
  }

  // ----- matching -----

  /** Two proper ranges of one file match when at least three fifths of the new one
      lie in the old one; a single line matches a range around it, or itself. */
  lemma {:induction false} MatchesExactly(a: Fingerprint, b: Fingerprint)
    requires a.Read? && b.Read? && Definite(a.span) && Definite(b.span)
    ensures var lo, hi := Max(Lo(a.span), Lo(b.span)), Min(Hi(a.span), Hi(b.span));
            Matches(a, b) <==>
              && a.path == b.path
              && if Lo(a.span) < Hi(a.span) then 5 * (hi - lo) >= 3 * (Hi(a.span) - Lo(a.span))
                 else if Lo(b.span) < Hi(b.span) then Lo(b.span) <= Lo(a.span) <= Hi(b.span)
                 else a.span == b.span
  {
    var n := Hi(a.span) - Lo(a.span);
    var m := Min(Hi(a.span), Hi(b.span)) - Max(Lo(a.span), Lo(b.span));
    if n > 0 { ThreeFifths(m, n); }
  }

  lemma {:induction false} ThreeFifths(m: int, n: int)
    requires n > 0
    ensures m as real / n as real >= 0.6 <==> 5 * m >= 3 * n
  {
    var q := m as real / n as real;
    assert q * n as real == m as real;
    if q >= 0.6 { TimesMonotone(0.6, q, n as real); }
    if q < 0.6 { TimesMonotoneStrictly(q, 0.6, n as real); }
  }

  lemma {:induction false} TimesMonotone(a: real, b: real, c: real)
    requires a <= b && c > 0.0
    ensures a * c <= b * c
  {
  }

  lemma {:induction false} TimesMonotoneStrictly(a: real, b: real, c: real)
    requires a < b && c > 0.0
    ensures a * c < b * c
  {
  }

  /** Every call matches itself, whatever ends are missing. */
  lemma {:induction false} MatchesItself(fp: Fingerprint)
    ensures Matches(fp, fp)
  {
    if fp.Read? {
      var first := if fp.span.start.At? then fp.span.start.line else 1;
      var last := if fp.span.end.At? then fp.span.end.line else first;
      if last > first { SelfRatio(last - first); }
    }
  }

  // ----- exact repetitions -----

  /** An exact repetition of entry i: the same call, no other result, and nothing
      behind it that may have changed the workspace. */
  ghost predicate Again(fp: Fingerprint, result: Option<string>, window: seq<Entry>, i: nat)
    requires i < |window|
  {
    && window[i].action == fp && !Differ(result, window[i].result)
    && forall j :: i < j < |window| ==> !MayChange(window[j].action)
  }

  lemma {:induction false} ExactRepeatMeans(fp: Fingerprint, result: Option<string>, window: seq<Entry>, i: nat)
    requires i < |window|
    ensures ExactRepeat(fp, result, window, i) <==> Again(fp, result, window, i)
  {
    hide OverlapRatio;
    MatchesItself(fp);
    WriterMeans(window, i);
  }

  lemma {:induction false} WriterMeans(window: seq<Entry>, i: int)
    requires 0 <= i
    ensures WriterAfter(window, i) <==> exists j :: i < j < |window| && MayChange(window[j].action)
  {
    forall j | 0 <= j < |window| ensures MayChange(window[j].action) <==> !ReadOnly(window[j].action) { }
    if exists j :: i < j < |window| && MayChange(window[j].action) {
      var j :| i < j < |window| && MayChange(window[j].action);
      assert !ReadOnly(window[j].action);
    }
  }

  /** Every entry that matches the call has a changing call behind it. */
  ghost predicate Lifted(fp: Fingerprint, window: seq<Entry>) {
    forall i :: 0 <= i < |window| && Matches(fp, window[i].action) ==>
      exists j :: i < j < |window| && MayChange(window[j].action)
  }

  /** Then the call is not refused, and if it matches no other range of its file it is
      not judged a repeat either. */
  lemma {:induction false} LiftedIsNoRepeat(fp: Fingerprint, result: Option<string>, window: seq<Entry>)
    requires Lifted(fp, window)
    ensures Refused(fp, window) == Value(false)
    ensures (forall i :: 0 <= i < |window| && Matches(fp, window[i].action) ==>
               !(fp.Read? && window[i].action.Read? && fp.span != window[i].action.span)) ==>
            Repeats(fp, result, window) == Value(false)
  {
    hide Matches, NewLines, WriterAfter, MayChange, Lifted, RepeatsFrom, RefusedFrom;
    forall i | 0 <= i < |window| && Matches(fp, window[i].action) ensures WriterAfter(window, i) {
      WriterMeans(window, i);
      LiftedAt(fp, window, i);
    }
    LiftedFrom(fp, result, window, 0);
    if !fp.Read? { LiftedFrom(fp, None, window, 0); }
  }

  lemma {:induction false} LiftedAt(fp: Fingerprint, window: seq<Entry>, i: nat)
    requires Lifted(fp, window) && i < |window| && Matches(fp, window[i].action)
    ensures exists j :: i < j < |window| && MayChange(window[j].action)
  {
  }

  lemma {:induction false} LiftedFrom(fp: Fingerprint, result: Option<string>, window: seq<Entry>, i: nat)
    requires i <= |window|
    requires forall k :: 0 <= k < |window| && Matches(fp, window[k].action) ==> WriterAfter(window, k)
    ensures fp.Read? ==> RefusedFrom(fp, window, i) == Value(false)
    ensures (forall k :: 0 <= k < |window| && Matches(fp, window[k].action) ==> !Partial(fp, window[k].action)) ==>
            RepeatsFrom(fp, result, window, i) == Value(false)
    decreases |window| - i
  {
    hide Matches, NewLines, WriterAfter;
    if i < |window| { LiftedFrom(fp, result, window, i + 1); }
  }

  /** Conversely the same call with only reads, searches and listings behind it, and
      no other result, is refused and judged a repeat, unless the check raises, which
      it does only for a read. */
  lemma {:induction false} SameCallRepeats(fp: Fingerprint, result: Option<string>, window: seq<Entry>, i: nat)
    requires i < |window| && window[i].action == fp
    requires forall j :: i < j < |window| ==> !MayChange(window[j].action)
    ensures Refused(fp, window) == Value(true) || (fp.Read? && Refused(fp, window) == TypeError)
    ensures !Differ(result, window[i].result) ==>
              Repeats(fp, result, window) == Value(true) || (fp.Read? && Repeats(fp, result, window) == TypeError)
  {
    hide Matches, NewLines, WriterAfter, RepeatsFrom, RefusedFrom, ReadOnly;
    ExactRepeatMeans(fp, None, window, i);
    ExactRepeatMeans(fp, result, window, i);
    RepeatsExactly(fp, result, window, 0);
    RefusedExactly(fp, window);
    if fp.Read? { RefusedSomehow(fp, window, 0, i); }
  }

  lemma {:induction false} RefusedSomehow(fp: Fingerprint, window: seq<Entry>, i: nat, j: nat)
    requires fp.Read? && i <= j < |window| && ExactRepeat(fp, None, window, j)
    ensures RefusedFrom(fp, window, i) == Value(true) || RefusedFrom(fp, window, i) == TypeError
    decreases j - i
  {
    hide OverlapRatio, NewLines, WriterAfter;
    NewLinesNatural(fp, window);
    if i < j { RefusedSomehow(fp, window, i + 1, j); }
  }

  /** For calls that are no reads the decision is exact. */
  lemma {:induction false} OtherCallsExactly(fp: Fingerprint, result: Option<string>, window: seq<Entry>)
    requires !fp.Read?
    ensures Repeats(fp, result, window) != TypeError
    ensures Repeats(fp, result, window) == Value(true) <==>
            exists i :: 0 <= i < |window| && Again(fp, result, window, i)
  {
    hide Matches, NewLines, WriterAfter, RepeatsFrom, Again, Changed;
    RepeatsExactly(fp, result, window, 0);
    forall i | 0 <= i < |window| ensures ExactRepeat(fp, result, window, i) <==> Again(fp, result, window, i) {
      ExactRepeatMeans(fp, result, window, i);
    }
    assert forall k :: 0 <= k < |window| ==> !PartialMatch(fp, window, k);
    if exists i :: 0 <= i < |window| && Again(fp, result, window, i) {
      var i :| 0 <= i < |window| && Again(fp, result, window, i);
      assert ExactRepeat(fp, result, window, i);
    }
  }

  // ----- ranges -----

  /** Missing ends are filled in from the other range, and from line 1 or the own start
      where that has none either. */
  lemma {:induction false} MissingEnds(a: Span, b: Span)
    ensures var start := if a.start != Missing then a.start else if b.start != Missing then b.start else At(1);
            var end := if a.end != Missing then a.end else if b.end != Missing then b.end else start;
            OverlapRatio(a, b) ==
            OverlapRatio(Span(start, end), Span(if b.start != Missing then b.start else start,
                                                if b.end != Missing then b.end else end))
  {
  }

  /** The ranges of a file in the window are exactly those of its reads, in order. */
  lemma {:induction false} SamePathExactly(window: seq<Entry>, e: Entry, path: string)
    ensures SamePath([], path) == []
    ensures e.action.Read? && e.action.path == path ==>
            SamePath(window + [e], path) == SamePath(window, path) + [e.action.span]
    ensures !(e.action.Read? && e.action.path == path) ==> SamePath(window + [e], path) == SamePath(window, path)
  {
    assert (window + [e])[..|window|] == window;
  }
}
