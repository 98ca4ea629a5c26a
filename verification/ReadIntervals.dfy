/** The line-interval algebra of pico/agent_loop.py: merging read_file requests,
    counting unread lines, and cutting long requests into pieces. */
module ReadIntervals {

  /** One end of a read_file request; `Missing` is Python's None. */
  datatype Bound = Missing | At(line: int)

  datatype Span = Span(start: Bound, end: Bound)

  /** A read_file request without a range. */
  const WHOLE_FILE := Span(Missing, Missing)

  predicate Definite(s: Span) {
    s.start.At? && s.end.At?
  }

  function Lo(s: Span): int requires Definite(s) { s.start.line }
  function Hi(s: Span): int requires Definite(s) { s.end.line }

  predicate AllDefinite(spans: seq<Span>) {
    forall i :: 0 <= i < |spans| ==> Definite(spans[i])
  }

  /** Some definite span contains the line; open-ended ones cover nothing. */
  predicate Covers(spans: seq<Span>, line: int) {
    exists i :: 0 <= i < |spans| && Definite(spans[i]) && Lo(spans[i]) <= line <= Hi(spans[i])
  }

  ghost predicate SameLines(a: seq<Span>, b: seq<Span>) {
    forall line :: Covers(a, line) <==> Covers(b, line)
  }

  lemma CoversConcat(a: seq<Span>, b: seq<Span>, line: int)
    ensures Covers(a + b, line) <==> Covers(a, line) || Covers(b, line)
  {
    if Covers(a, line) {
      var i :| 0 <= i < |a| && Definite(a[i]) && Lo(a[i]) <= line <= Hi(a[i]);
      assert (a + b)[i] == a[i];
    }
    if Covers(b, line) {
      var i :| 0 <= i < |b| && Definite(b[i]) && Lo(b[i]) <= line <= Hi(b[i]);
      assert (a + b)[|a| + i] == b[i];
    }
  }

  lemma CoversOne(s: Span, line: int)
    requires Definite(s)
    ensures Covers([s], line) <==> Lo(s) <= line <= Hi(s)
  {
    if Lo(s) <= line <= Hi(s) { assert [s][0] == s; }
  }

  // ----- sorting as Python sorts tuples -----

  /** Python can order the two tuples: no None is compared with a number. */
  predicate Comparable(a: Span, b: Span) {
    && a.start.At? == b.start.At?
    && (a.start == b.start ==> a.end.At? == b.end.At?)
  }

  /** `sorted` on the list does not raise TypeError: whatever the algorithm, two
      neighbours of the final order have been compared, so one incomparable pair
      in the list means an incomparable comparison. */
  predicate Sortable(spans: seq<Span>) {
    forall i, j :: 0 <= i < |spans| && 0 <= j < |spans| ==> Comparable(spans[i], spans[j])
  }

  predicate BoundLe(a: Bound, b: Bound) {
    a.Missing? || (b.At? && a.line <= b.line)
  }

  predicate Le(a: Span, b: Span) {
    if a.start == b.start then BoundLe(a.end, b.end) else BoundLe(a.start, b.start)
  }

  predicate SortedSpans(spans: seq<Span>) {
    forall i, j :: 0 <= i < j < |spans| ==> Le(spans[i], spans[j])
  }

  function Insert(s: Span, sorted: seq<Span>): seq<Span> {
    if sorted == [] then [s]
    else if Le(s, sorted[0]) then [s] + sorted
    else [sorted[0]] + Insert(s, sorted[1..])
  }

  /** `sorted(spans)`: equal tuples are equal values, so the sorted list is unique. */
  function Sort(spans: seq<Span>): seq<Span> {
    if spans == [] then [] else Insert(spans[0], Sort(spans[1..]))
  }

  lemma {:induction false} SortedCons(s: Span, sorted: seq<Span>)
    requires SortedSpans(sorted) && forall j :: 0 <= j < |sorted| ==> Le(s, sorted[j])
    ensures SortedSpans([s] + sorted)
  {
    hide Le;
  }

  lemma {:induction false} SortedHead(s: Span, sorted: seq<Span>)
    requires SortedSpans(sorted) && sorted != [] && Le(s, sorted[0])
    ensures forall j :: 0 <= j < |sorted| ==> Le(s, sorted[j])
  {
    forall j | 0 <= j < |sorted| ensures Le(s, sorted[j]) {
      if j > 0 { assert Le(sorted[0], sorted[j]); }
    }
  }

  lemma {:induction false} InsertMembers(s: Span, sorted: seq<Span>)
    ensures multiset(Insert(s, sorted)) == multiset(sorted) + multiset{s} && |Insert(s, sorted)| == |sorted| + 1
    ensures forall j :: 0 <= j < |Insert(s, sorted)| ==> Insert(s, sorted)[j] == s || Insert(s, sorted)[j] in sorted
  {
    hide Le;
    if sorted != [] {
      InsertMembers(s, sorted[1..]);
      assert sorted == [sorted[0]] + sorted[1..];
    }
  }

  lemma {:induction false} InsertSorts(s: Span, sorted: seq<Span>)
    requires SortedSpans(sorted)
    ensures SortedSpans(Insert(s, sorted))
  {
    InsertMembers(s, sorted);
    if sorted != [] {
      if Le(s, sorted[0]) {
        SortedHead(s, sorted);
        SortedCons(s, sorted);
      } else {
        var rest := sorted[1..];
        assert SortedSpans(rest);
        InsertSorts(s, rest);
        InsertMembers(s, rest);
        SortedCons(sorted[0], Insert(s, rest));
      }
    }
  }

  lemma {:induction false} NothingSorted()
    ensures SortedSpans([])
  {
  }

  lemma {:induction false} SortSorts(spans: seq<Span>)
    ensures SortedSpans(Sort(spans)) && multiset(Sort(spans)) == multiset(spans)
    ensures |Sort(spans)| == |spans|
  {
    hide SortedSpans, Insert, Le;
    if spans == [] {
      assert SortedSpans(Sort(spans)) by { NothingSorted(); }
    } else {
      SortSorts(spans[1..]);
      InsertSorts(spans[0], Sort(spans[1..]));
      InsertMembers(spans[0], Sort(spans[1..]));
      assert spans == [spans[0]] + spans[1..];
    }
  }

  lemma {:induction false} SameMembersCover(a: seq<Span>, b: seq<Span>)
    requires multiset(a) == multiset(b)
    ensures SameLines(a, b) && (AllDefinite(a) ==> AllDefinite(b))
  {
    forall i | 0 <= i < |a| ensures a[i] in b { assert a[i] in multiset(a); }
    forall i | 0 <= i < |b| ensures b[i] in a { assert b[i] in multiset(b); }
    forall line ensures Covers(a, line) <==> Covers(b, line) {
      if Covers(a, line) {
        var i :| 0 <= i < |a| && Definite(a[i]) && Lo(a[i]) <= line <= Hi(a[i]);
        var j :| 0 <= j < |b| && b[j] == a[i];
      }
      if Covers(b, line) {
        var i :| 0 <= i < |b| && Definite(b[i]) && Lo(b[i]) <= line <= Hi(b[i]);
        var j :| 0 <= j < |a| && a[j] == b[i];
      }
    }
  }

  // ----- _merge_read_intervals -----

  function Definites(spans: seq<Span>): (r: seq<Span>)
    ensures AllDefinite(r) && |r| <= |spans|
  {
    if spans == [] then []
    else if Definite(spans[0]) then [spans[0]] + Definites(spans[1..])
    else Definites(spans[1..])
  }

  function OpenEnded(spans: seq<Span>): (r: seq<Span>)
    ensures forall i :: 0 <= i < |r| ==> !Definite(r[i])
  {
    if spans == [] then []
    else if !Definite(spans[0]) then [spans[0]] + OpenEnded(spans[1..])
    else OpenEnded(spans[1..])
  }

  /** One turn of the merging loop. */
  function Absorb(merged: seq<Span>, s: Span): (r: seq<Span>)
    requires merged != [] && AllDefinite(merged) && Definite(s)
    ensures r != [] && AllDefinite(r)
  {
    var last := merged[|merged| - 1];
    if Lo(s) <= Hi(last) + 1 then
      merged[..|merged| - 1] + [Span(last.start, if Hi(last) < Hi(s) then s.end else last.end)]
    else merged + [s]
  }

  function AbsorbAll(merged: seq<Span>, rest: seq<Span>): (r: seq<Span>)
    requires merged != [] && AllDefinite(merged) && AllDefinite(rest)
    ensures r != [] && AllDefinite(r)
    decreases |rest|
  {
    if rest == [] then merged else AbsorbAll(Absorb(merged, rest[0]), rest[1..])
  }

  function MergeDefinite(definite: seq<Span>): (r: seq<Span>)
    requires definite != [] && AllDefinite(definite)
    ensures r != [] && AllDefinite(r)
  {
    SortSorts(definite);
    SameMembersCover(definite, Sort(definite));
    var ordered := Sort(definite);
    AbsorbAll([ordered[0]], ordered[1..])
  }

  function Merge(intervals: seq<Span>): seq<Span> {
    var definite := Definites(intervals);
    if definite == [] then intervals else MergeDefinite(definite) + OpenEnded(intervals)
  }

  /** In ascending order with at least one unrequested line between neighbours. */
  predicate Gapped(spans: seq<Span>) {
    && AllDefinite(spans)
    && forall i, j :: 0 <= i < j < |spans| ==> Lo(spans[i]) <= Lo(spans[j]) && Hi(spans[i]) + 1 < Lo(spans[j])
  }

  lemma {:induction false} FiltersCover(spans: seq<Span>)
    ensures SameLines(Definites(spans), spans)
    ensures forall line :: !Covers(OpenEnded(spans), line)
  {
    if spans != [] {
      var rest := spans[1..];
      FiltersCover(rest);
      assert spans == [spans[0]] + rest;
      forall line ensures Covers(Definites(spans), line) <==> Covers(spans, line) {
        CoversConcat([spans[0]], rest, line);
        if Definite(spans[0]) {
          CoversConcat([spans[0]], Definites(rest), line);
        } else {
          assert !Covers([spans[0]], line);
        }
      }
    }
  }

  lemma {:induction false} AbsorbKeeps(merged: seq<Span>, s: Span, line: int)
    requires merged != [] && AllDefinite(merged) && Definite(s)
    requires Lo(merged[|merged| - 1]) <= Lo(s)
    ensures Covers(Absorb(merged, s), line) <==> Covers(merged, line) || Lo(s) <= line <= Hi(s)
  {
    var init, last := merged[..|merged| - 1], merged[|merged| - 1];
    assert merged == init + [last];
    CoversConcat(init, [last], line);
    CoversOne(last, line);
    if Lo(s) <= Hi(last) + 1 {
      var joined := Span(last.start, if Hi(last) < Hi(s) then s.end else last.end);
      CoversConcat(init, [joined], line);
      CoversOne(joined, line);
    } else {
      CoversConcat(merged, [s], line);
      CoversOne(s, line);
    }
  }

  /** The loop invariant of the merge: `merged` is gapped, every span still to
      come starts no earlier than its last one, and no line is lost or gained. */
  lemma {:induction false} AbsorbAllKeeps(merged: seq<Span>, rest: seq<Span>)
    requires merged != [] && Gapped(merged) && AllDefinite(rest) && SortedSpans(rest)
    requires forall i :: 0 <= i < |rest| ==> Lo(merged[|merged| - 1]) <= Lo(rest[i])
    ensures Gapped(AbsorbAll(merged, rest))
    ensures SameLines(AbsorbAll(merged, rest), merged + rest)
    decreases |rest|
  {
    if rest == [] {
      assert merged + rest == merged;
    } else {
      var s := rest[0];
      var next := Absorb(merged, s);
      forall i | 0 <= i < |rest[1..]| ensures Lo(next[|next| - 1]) <= Lo(rest[1..][i]) {
        assert Le(rest[0], rest[i + 1]);
      }
      AbsorbAllKeeps(next, rest[1..]);
      forall line ensures Covers(AbsorbAll(merged, rest), line) <==> Covers(merged + rest, line) {
        AbsorbedOne(merged, rest, line);
      }
    }
  }

  lemma {:induction false} AbsorbedOne(merged: seq<Span>, rest: seq<Span>, line: int)
    requires merged != [] && AllDefinite(merged) && AllDefinite(rest) && rest != []
    requires Lo(merged[|merged| - 1]) <= Lo(rest[0])
    ensures Covers(Absorb(merged, rest[0]) + rest[1..], line) <==> Covers(merged + rest, line)
  {
    hide Absorb;
    AbsorbKeeps(merged, rest[0], line);
    CoversConcat(Absorb(merged, rest[0]), rest[1..], line);
    CoversConcat(merged, rest, line);
    CoversRest(rest, line);
  }

  lemma {:induction false} MergeDefiniteKeeps(definite: seq<Span>)
    requires definite != [] && AllDefinite(definite)
    ensures Gapped(MergeDefinite(definite)) && SameLines(MergeDefinite(definite), definite)
  {
    SortSorts(definite);
    SameMembersCover(definite, Sort(definite));
    var ordered := Sort(definite);
    forall i | 0 <= i < |ordered[1..]| ensures Lo(ordered[0]) <= Lo(ordered[1..][i]) {
      assert Le(ordered[0], ordered[i + 1]);
    }
    AbsorbAllKeeps([ordered[0]], ordered[1..]);
    assert [ordered[0]] + ordered[1..] == ordered;
  }

  /** Merging loses no line and adds none; its definite part is gapped and comes
      first, the open-ended requests follow unchanged and in order. */
  lemma {:induction false} MergePreservesLines(intervals: seq<Span>)
    ensures SameLines(Merge(intervals), intervals)
    ensures OpenEnded(Merge(intervals)) == OpenEnded(intervals)
    ensures Definites(Merge(intervals)) + OpenEnded(Merge(intervals)) == Merge(intervals)
    ensures Gapped(Definites(Merge(intervals)))
  {
    FiltersCover(intervals);
    var definite := Definites(intervals);
    if definite == [] {
      NoDefinites(intervals);
    } else {
      MergeDefiniteKeeps(definite);
      var part := MergeDefinite(definite);
      FilterConcat(part, OpenEnded(intervals));
      forall line ensures Covers(Merge(intervals), line) <==> Covers(intervals, line) {
        CoversConcat(part, OpenEnded(intervals), line);
      }
    }
  }

  lemma {:induction false} NoDefinites(spans: seq<Span>)
    requires Definites(spans) == []
    ensures OpenEnded(spans) == spans
  {
    if spans != [] { NoDefinites(spans[1..]); }
  }

  lemma {:induction false} FilterConcat(part: seq<Span>, tail: seq<Span>)
    requires AllDefinite(part) && forall i :: 0 <= i < |tail| ==> !Definite(tail[i])
    ensures Definites(part + tail) == part && OpenEnded(part + tail) == tail
    decreases |part| + |tail|
  {
    if part != [] {
      FilterConcat(part[1..], tail);
      assert (part + tail)[1..] == part[1..] + tail;
    } else if tail != [] {
      FilterConcat([], tail[1..]);
      assert ([] + tail)[1..] == [] + tail[1..];
    }
  }

  // ----- the merged form is canonical -----

  predicate AllNonEmpty(spans: seq<Span>) {
    forall i :: 0 <= i < |spans| ==> Definite(spans[i]) && Lo(spans[i]) <= Hi(spans[i])
  }

  lemma CoveredAbove(spans: seq<Span>, line: int)
    requires Gapped(spans) && spans != [] && Covers(spans, line)
    ensures Lo(spans[0]) <= line
  {
  }

  lemma HeadEnd(a: seq<Span>, b: seq<Span>)
    requires Gapped(a) && Gapped(b) && AllNonEmpty(a) && AllNonEmpty(b) && a != [] && b != []
    requires SameLines(a, b) && Lo(a[0]) == Lo(b[0])
    ensures Hi(b[0]) <= Hi(a[0])
  {
    var next := Hi(a[0]) + 1;
    assert !Covers(a, next);
    assert !Covers(b, next);
    assert !(Lo(b[0]) <= next <= Hi(b[0]));
  }

  lemma TailLines(spans: seq<Span>, line: int)
    requires Gapped(spans) && spans != []
    ensures Covers(spans[1..], line) <==> Covers(spans, line) && Hi(spans[0]) < line
  {
    if Covers(spans[1..], line) {
      var i :| 0 <= i < |spans[1..]| && Definite(spans[1..][i]) && Lo(spans[1..][i]) <= line <= Hi(spans[1..][i]);
      assert spans[i + 1] == spans[1..][i];
    }
    if Covers(spans, line) && Hi(spans[0]) < line {
      var i :| 0 <= i < |spans| && Definite(spans[i]) && Lo(spans[i]) <= line <= Hi(spans[i]);
      assert spans[1..][i - 1] == spans[i];
    }
  }

  lemma CoversItsStart(spans: seq<Span>)
    requires AllNonEmpty(spans)
    ensures spans != [] ==> Covers(spans, Lo(spans[0]))
  {
  }

  /** Gapped lists of non-empty spans are determined by the lines they cover. */
  lemma {:induction false} GappedUnique(a: seq<Span>, b: seq<Span>)
    requires Gapped(a) && Gapped(b) && AllNonEmpty(a) && AllNonEmpty(b)
    requires SameLines(a, b)
    ensures a == b
    decreases |a|
  {
    if a == [] {
      CoversItsStart(b);
    } else {
      CoversItsStart(a);
      CoversItsStart(b);
      CoveredAbove(a, Lo(b[0]));
      CoveredAbove(b, Lo(a[0]));
      HeadEnd(a, b);
      HeadEnd(b, a);
      assert a[0] == b[0];
      forall line ensures Covers(a[1..], line) <==> Covers(b[1..], line) {
        TailLines(a, line);
        TailLines(b, line);
      }
      GappedUnique(a[1..], b[1..]);
    }
  }

  lemma {:induction false} AbsorbAllNonEmpty(merged: seq<Span>, rest: seq<Span>)
    requires merged != [] && AllNonEmpty(merged) && AllNonEmpty(rest)
    ensures AllNonEmpty(AbsorbAll(merged, rest))
    decreases |rest|
  {
    if rest != [] { AbsorbAllNonEmpty(Absorb(merged, rest[0]), rest[1..]); }
  }

  /** Two groups of proper line ranges covering the same lines merge to the same list. */
  lemma {:induction false} MergeCanonical(a: seq<Span>, b: seq<Span>)
    requires AllNonEmpty(a) && AllNonEmpty(b)
    ensures SameLines(a, b) <==> Merge(a) == Merge(b)
  {
    assert a + [] == a && b + [] == b;
    FilterConcat(a, []);
    FilterConcat(b, []);
    MergePreservesLines(a);
    MergePreservesLines(b);
    if SameLines(a, b) {
      MergedParts(a);
      MergedParts(b);
      GappedUnique(Merge(a), Merge(b));
    }
  }

  lemma {:induction false} MergedParts(a: seq<Span>)
    requires AllNonEmpty(a)
    ensures Gapped(Merge(a)) && AllNonEmpty(Merge(a))
  {
    hide Gapped, Sort, AbsorbAll, Definites, OpenEnded, SortedSpans;
    assert a + [] == a;
    FilterConcat(a, []);
    if a == [] {
      assert Gapped([]) by { NothingGapped(); }
    } else {
      SortSorts(a);
      SortedNonEmpty(a);
      MergeDefiniteKeeps(a);
      AbsorbAllNonEmpty([Sort(a)[0]], Sort(a)[1..]);
      assert MergeDefinite(a) + [] == MergeDefinite(a);
    }
  }

  lemma {:induction false} NothingGapped()
    ensures Gapped([])
  {
  }

  lemma {:induction false} SortedNonEmpty(a: seq<Span>)
    requires AllNonEmpty(a)
    ensures AllNonEmpty(Sort(a))
  {
    hide Sort, SortedSpans;
    SortSorts(a);
    forall i | 0 <= i < |Sort(a)| ensures Sort(a)[i] in a { assert Sort(a)[i] in multiset(Sort(a)); }
  }

  lemma {:induction false} AbsorbNone(merged: seq<Span>)
    requires merged != [] && AllDefinite(merged)
    ensures AbsorbAll(merged, []) == merged
  {
  }

  lemma {:induction false} AbsorbStep(merged: seq<Span>, ordered: seq<Span>, i: nat)
    requires merged != [] && AllDefinite(merged) && AllDefinite(ordered) && i < |ordered|
    ensures AbsorbAll(merged, ordered[i..]) == AbsorbAll(Absorb(merged, ordered[i]), ordered[i + 1..])
  {
    hide Absorb;
    assert ordered[i..][0] == ordered[i] && ordered[i..][1..] == ordered[i + 1..];
  }

  /** The loop of `_merge_read_intervals`. */
  method MergeReadIntervals(intervals: seq<Span>) returns (merged: seq<Span>)
    ensures merged == Merge(intervals)
  {
    hide AbsorbAll, Sort, SortedSpans, Covers;
    var definite := Definites(intervals);
    var openEnded := OpenEnded(intervals);
    if definite == [] {
      return intervals;
    }
    var ordered := Sort(definite);
    SortSorts(definite);
    SameMembersCover(definite, ordered);
    merged := [ordered[0]];
    for i := 1 to |ordered|
      invariant merged != [] && AllDefinite(merged)
      invariant AbsorbAll(merged, ordered[i..]) == AbsorbAll([ordered[0]], ordered[1..])
    {
      AbsorbStep(merged, ordered, i);
      var last := merged[|merged| - 1];
      ghost var before := merged;
      if Lo(ordered[i]) <= Hi(last) + 1 {
        merged := merged[|merged| - 1 := Span(last.start,
            if Hi(last) < Hi(ordered[i]) then ordered[i].end else last.end)];
      } else {
        merged := merged + [ordered[i]];
      }
      assert merged == Absorb(before, ordered[i]);
    }
    assert ordered[|ordered|..] == [] && AbsorbAll(merged, []) == merged by { AbsorbNone(merged); }
    merged := merged + openEnded;
  }

  // ----- _uncovered_read_lines -----

  datatype Outcome<T> = Value(value: T) | TypeError

  /** The loop over the sorted spans: `cursor` is the first line not yet decided. */
  function UncoveredFrom(cursor: int, end: int, spans: seq<Span>): (n: int)
    ensures 0 <= n
    decreases |spans|
  {
    if spans == [] then (if cursor <= end then end - cursor + 1 else 0)
    else
      var s := spans[0];
      if !Definite(s) || Hi(s) < cursor then UncoveredFrom(cursor, end, spans[1..])
      else if Lo(s) > end then (if cursor <= end then end - cursor + 1 else 0)
      else
        var gap := if Lo(s) > cursor then Lo(s) - cursor else 0;
        var next := if cursor < Hi(s) + 1 then Hi(s) + 1 else cursor;
        if next > end then gap else gap + UncoveredFrom(next, end, spans[1..])
  }

  function Uncovered(start: Bound, end: Bound, spans: seq<Span>): (r: Outcome<int>)
    ensures r.TypeError? <==> start.At? && end.At? && !Sortable(spans)
  {
    if start.Missing? || end.Missing? then Value(0)
    else if !Sortable(spans) then TypeError
    else Value(UncoveredFrom(start.line, end.line, Sort(spans)))
  }

  method UncoveredReadLines(start: Bound, end: Bound, merged: seq<Span>) returns (r: Outcome<int>)
    ensures r == Uncovered(start, end, merged)
  {
    if start.Missing? || end.Missing? {
      return Value(0);
    }
    if !Sortable(merged) {
      return TypeError;
    }
    var spans := Sort(merged);
    var uncovered := 0;
    var cursor, last := start.line, end.line;
    for i := 0 to |spans|
      invariant uncovered + UncoveredFrom(cursor, last, spans[i..]) == UncoveredFrom(start.line, last, spans)
    {
      var s := spans[i];
      assert spans[i..][0] == s && spans[i..][1..] == spans[i + 1..];
      if !Definite(s) || Hi(s) < cursor {
        continue;
      }
      if Lo(s) > last {
        break;
      }
      if Lo(s) > cursor {
        uncovered := uncovered + Lo(s) - cursor;
      }
      cursor := if cursor < Hi(s) + 1 then Hi(s) + 1 else cursor;
      if cursor > last {
        break;
      }
    }
    if cursor <= last {
      uncovered := uncovered + last - cursor + 1;
    }
    return Value(uncovered);
  }

  // ----- the count is exact -----

  predicate InRange(n: int, lo: int, hi: int) { lo <= n <= hi }

  function Lines(lo: int, hi: int): set<int> {
    set n: int | lo <= n <= hi && InRange(n, lo, hi)
  }

  /** The lines of [lo, hi] outside every definite span. */
  function Unread(lo: int, hi: int, spans: seq<Span>): set<int> {
    set n: int | lo <= n <= hi && !Covers(spans, n)
  }

  lemma {:induction false} LinesCount(lo: int, hi: int)
    ensures |Lines(lo, hi)| == if lo <= hi then hi - lo + 1 else 0
    decreases hi - lo
  {
    if lo <= hi {
      LinesCount(lo, hi - 1);
      assert Lines(lo, hi) == Lines(lo, hi - 1) + {hi};
    }
  }

  /** Nothing that ends before `cursor` matters any more. */
  lemma {:induction false} CoversRest(spans: seq<Span>, line: int)
    requires spans != []
    ensures Covers(spans, line) <==>
            Covers(spans[1..], line) || (Definite(spans[0]) && Lo(spans[0]) <= line <= Hi(spans[0]))
  {
    assert spans == [spans[0]] + spans[1..];
    CoversConcat([spans[0]], spans[1..], line);
    if Definite(spans[0]) { CoversOne(spans[0], line); }
  }

  /** Span i is inverted by more than a line, and the cursor meets it: the lines
      between its end and its start are counted twice. */
  predicate CountedTwice(spans: seq<Span>, i: int, start: int, end: int) {
    && 0 <= i < |spans| && Definite(spans[i])
    && Lo(spans[i]) > Hi(spans[i]) + 1 && start <= Hi(spans[i]) && Lo(spans[i]) <= end
    && forall j :: 0 <= j < i && Definite(spans[j]) ==> Hi(spans[j]) < Hi(spans[i])
  }

  predicate SomeCountedTwice(spans: seq<Span>, start: int, end: int) {
    exists i :: 0 <= i < |spans| && CountedTwice(spans, i, start, end)
  }

  predicate StartsAscend(spans: seq<Span>) {
    forall i, j :: 0 <= i < j < |spans| && Definite(spans[i]) && Definite(spans[j]) ==> Lo(spans[i]) <= Lo(spans[j])
  }

  lemma {:induction false} NothingBefore(spans: seq<Span>, lo: int, hi: int)
    requires StartsAscend(spans) && spans != [] && Definite(spans[0]) && hi < Lo(spans[0])
    ensures Unread(lo, hi, spans) == Lines(lo, hi)
  {
  }

  lemma {:induction false} SkipFirst(spans: seq<Span>, lo: int, hi: int)
    requires spans != [] && (Definite(spans[0]) ==> Hi(spans[0]) < lo)
    ensures Unread(lo, hi, spans) == Unread(lo, hi, spans[1..])
  {
    forall n | lo <= n <= hi ensures Covers(spans, n) <==> Covers(spans[1..], n) { CoversRest(spans, n); }
  }

  /** In front of every start nothing is covered. */
  lemma {:induction false} UnreadFrom(spans: seq<Span>, lo: int, mid: int, hi: int)
    requires lo <= mid <= hi + 1
    requires forall i :: 0 <= i < |spans| && Definite(spans[i]) ==> mid <= Lo(spans[i])
    ensures |Unread(lo, hi, spans)| == mid - lo + |Unread(mid, hi, spans)|
  {
    var before := Lines(lo, mid - 1);
    LinesCount(lo, mid - 1);
    assert Unread(lo, hi, spans) == before + Unread(mid, hi, spans);
    assert before !! Unread(mid, hi, spans);
  }

  lemma {:induction false} TakeFirst(spans: seq<Span>, lo: int, hi: int)
    requires StartsAscend(spans) && spans != [] && Definite(spans[0])
    requires lo <= Hi(spans[0]) && Lo(spans[0]) <= hi
    ensures var s := spans[0];
            var gap := if Lo(s) > lo then Lo(s) - lo else 0;
            var twice := if Lo(s) > Hi(s) + 1 then Lo(s) - Hi(s) - 1 else 0;
            |Unread(lo, hi, spans)| + twice == gap + |Unread(Hi(s) + 1, hi, spans[1..])|
  {
    var s, rest := spans[0], spans[1..];
    var from := if Lo(s) > lo then Lo(s) else lo;
    if Lo(s) > lo { UnreadFrom(spans, lo, from, hi); }
    if Lo(s) > Hi(s) + 1 {
      UnreadFrom(rest, Hi(s) + 1, Lo(s), hi);
      assert Unread(from, hi, spans) == Unread(from, hi, rest) by { TakenLines(spans, from, hi); }
    } else {
      assert Unread(from, hi, spans) == Unread(Hi(s) + 1, hi, rest) by { TakenLines(spans, from, hi); }
    }
  }

  lemma {:induction false} TakenLines(spans: seq<Span>, from: int, hi: int)
    requires spans != [] && Definite(spans[0]) && Lo(spans[0]) <= from
    ensures Unread(from, hi, spans) ==
            Unread(if from <= Hi(spans[0]) then Hi(spans[0]) + 1 else from, hi, spans[1..])
  {
    forall n | from <= n ensures Covers(spans, n) <==> Covers(spans[1..], n) || n <= Hi(spans[0]) {
      CoversRest(spans, n);
    }
  }

  /** Dropping the first span moves what is counted twice down by one. */
  lemma {:induction false} TwiceLater(spans: seq<Span>, start: int, end: int)
    requires spans != []
    ensures var s := spans[0];
            var next := if Definite(s) && start <= Hi(s) then Hi(s) + 1 else start;
            SomeCountedTwice(spans, start, end) <==>
              CountedTwice(spans, 0, start, end) || SomeCountedTwice(spans[1..], next, end)
  {
    var s, rest := spans[0], spans[1..];
    var next := if Definite(s) && start <= Hi(s) then Hi(s) + 1 else start;
    forall i | 0 <= i < |rest| ensures CountedTwice(rest, i, next, end) <==> CountedTwice(spans, i + 1, start, end) {
      if CountedTwice(rest, i, next, end) {
        forall j | 0 <= j < i + 1 && Definite(spans[j]) ensures Hi(spans[j]) < Hi(spans[i + 1]) {
          if j > 0 { assert spans[j] == rest[j - 1]; }
        }
      }
      if CountedTwice(spans, i + 1, start, end) {
        forall j | 0 <= j < i && Definite(rest[j]) ensures Hi(rest[j]) < Hi(rest[i]) {
          assert rest[j] == spans[j + 1];
        }
      }
    }
    if SomeCountedTwice(spans, start, end) && !CountedTwice(spans, 0, start, end) {
      var i :| 0 <= i < |spans| && CountedTwice(spans, i, start, end);
      assert CountedTwice(rest, i - 1, next, end);
    }
  }

  lemma {:induction false} NoneTwiceBeyond(spans: seq<Span>, start: int, end: int)
    requires start > end || (StartsAscend(spans) && spans != [] && Definite(spans[0]) && Lo(spans[0]) > end)
    ensures !SomeCountedTwice(spans, start, end)
  {
  }

  /** The count is never too small, and exact unless some span is counted twice. */
  lemma {:induction false} UncoveredFromCounts(cursor: int, end: int, spans: seq<Span>)
    requires StartsAscend(spans)
    ensures UncoveredFrom(cursor, end, spans) >= |Unread(cursor, end, spans)|
    ensures UncoveredFrom(cursor, end, spans) == |Unread(cursor, end, spans)| <==> !SomeCountedTwice(spans, cursor, end)
    decreases |spans|
  {
    hide CountedTwice, SomeCountedTwice, Covers;
    if spans == [] {
      LinesCount(cursor, end);
      assert Unread(cursor, end, spans) == Lines(cursor, end) by { EmptyUnread(cursor, end); }
      assert !SomeCountedTwice(spans, cursor, end) by { EmptyUnread(cursor, end); }
    } else {
      var s := spans[0];
      TwiceLater(spans, cursor, end);
      TwiceFirst(spans, cursor, end);
      if !Definite(s) || Hi(s) < cursor {
        SkipFirst(spans, cursor, end);
        UncoveredFromCounts(cursor, end, spans[1..]);
      } else if Lo(s) > end {
        NothingBefore(spans, cursor, end);
        LinesCount(cursor, end);
        NoneTwiceBeyond(spans, cursor, end);
      } else {
        TakeFirst(spans, cursor, end);
        if Hi(s) + 1 > end {
          assert Unread(Hi(s) + 1, end, spans[1..]) == {};
          NoneTwiceBeyond(spans[1..], Hi(s) + 1, end);
        } else {
          UncoveredFromCounts(Hi(s) + 1, end, spans[1..]);
        }
      }
    }
  }

  lemma {:induction false} EmptyUnread(lo: int, hi: int)
    ensures Unread(lo, hi, []) == Lines(lo, hi) && !SomeCountedTwice([], lo, hi)
  {
  }

  lemma {:induction false} TwiceFirst(spans: seq<Span>, start: int, end: int)
    requires spans != []
    ensures CountedTwice(spans, 0, start, end) <==>
              Definite(spans[0]) && Lo(spans[0]) > Hi(spans[0]) + 1 && start <= Hi(spans[0]) && Lo(spans[0]) <= end
  {
  }

  lemma {:induction false} SortedStarts(spans: seq<Span>)
    ensures StartsAscend(Sort(spans)) && SameLines(Sort(spans), spans)
  {
    SortSorts(spans);
    SameMembersCover(spans, Sort(spans));
  }

  /** The number returned is at least the number of lines of [start, end] outside the
      union of the given spans, overlapping or not, in any order; and it is that
      number exactly when no inverted span is counted twice. */
  lemma {:induction false} UncoveredExact(start: int, end: int, spans: seq<Span>)
    requires Sortable(spans)
    ensures Uncovered(At(start), At(end), spans).value >= |Unread(start, end, spans)|
    ensures Uncovered(At(start), At(end), spans) == Value(|Unread(start, end, spans)|) <==>
            !SomeCountedTwice(Sort(spans), start, end)
  {
    hide Sort, SomeCountedTwice, StartsAscend;
    SortedStarts(spans);
    UncoveredFromCounts(start, end, Sort(spans));
    assert Unread(start, end, Sort(spans)) == Unread(start, end, spans);
  }

  /** In particular it is exact for proper ranges. */
  lemma {:induction false} ProperRangesCountOnce(start: int, end: int, spans: seq<Span>)
    requires forall i :: 0 <= i < |spans| && Definite(spans[i]) ==> Lo(spans[i]) <= Hi(spans[i]) + 1
    ensures !SomeCountedTwice(Sort(spans), start, end)
  {
    hide Sort;
    SortSorts(spans);
    forall i | 0 <= i < |Sort(spans)| ensures Sort(spans)[i] in spans {
      assert Sort(spans)[i] in multiset(Sort(spans));
    }
  }

  /** One that is not: lines 4 to 7 are counted twice. */
  lemma {:induction false} InvertedSpanOvercounts()
    ensures UncoveredFrom(1, 10, [Span(At(8), At(3))]) == 14
    ensures |Unread(1, 10, [Span(At(8), At(3))])| == 10
  {
    var spans := [Span(At(8), At(3))];
    assert spans[1..] == [];
    assert UncoveredFrom(4, 10, []) == 7;
    assert Unread(1, 10, spans) == Lines(1, 10);
    LinesCount(1, 10);
  }

  /** Whatever the spans, inverted ones included: zero means every line is covered. */
  lemma {:induction false} UncoveredZero(cursor: int, end: int, spans: seq<Span>)
    requires StartsAscend(spans)
    ensures UncoveredFrom(cursor, end, spans) == 0 <==> forall n :: cursor <= n <= end ==> Covers(spans, n)
    decreases |spans|
  {
    if spans == [] {
      if cursor <= end { assert !Covers(spans, cursor); }
    } else {
      var s := spans[0];
      forall n ensures Covers(spans, n) <==> Covers(spans[1..], n) || (Definite(s) && Lo(s) <= n <= Hi(s)) {
        CoversRest(spans, n);
      }
      if !Definite(s) || Hi(s) < cursor {
        UncoveredZero(cursor, end, spans[1..]);
      } else if Lo(s) > cursor {
        if cursor <= end {
          assert !Covers(spans, cursor);
        }
      } else {
        UncoveredZero(Hi(s) + 1, end, spans[1..]);
      }
    }
  }

  /** A request has nothing new exactly when every line of it has been read. */
  lemma {:induction false} NothingNew(start: int, end: int, spans: seq<Span>)
    requires Sortable(spans)
    ensures Uncovered(At(start), At(end), spans) == Value(0) <==> forall n :: start <= n <= end ==> Covers(spans, n)
  {
    SortedStarts(spans);
    UncoveredZero(start, end, Sort(spans));
  }

  // ----- _chunk_read_intervals -----

  const MAX_READ_CHUNK_LINES := 200

  function Pieces(lo: int, hi: int): (r: seq<Span>)
    decreases hi - lo
  {
    if lo > hi then []
    else
      var last := if hi < lo + MAX_READ_CHUNK_LINES - 1 then hi else lo + MAX_READ_CHUNK_LINES - 1;
      [Span(At(lo), At(last))] + Pieces(last + 1, hi)
  }

  function ChunksOf(s: Span): seq<Span> {
    if !Definite(s) || Hi(s) - Lo(s) + 1 <= MAX_READ_CHUNK_LINES then [s] else Pieces(Lo(s), Hi(s))
  }

  function Chunks(merged: seq<Span>): seq<Span> {
    if merged == [] then [] else Chunks(merged[..|merged| - 1]) + ChunksOf(merged[|merged| - 1])
  }

  predicate ShortSpan(s: Span) {
    Definite(s) ==> Hi(s) - Lo(s) + 1 <= MAX_READ_CHUNK_LINES
  }

  /** Pieces in ascending order that do not overlap, none longer than the limit. */
  predicate OrderedPieces(spans: seq<Span>) {
    && (forall i :: 0 <= i < |spans| ==> Definite(spans[i]) && ShortSpan(spans[i]))
    && (forall i, j :: 0 <= i < j < |spans| ==> Hi(spans[i]) < Lo(spans[j]))
  }

  lemma {:induction false} PiecesCover(lo: int, hi: int)
    ensures OrderedPieces(Pieces(lo, hi))
    ensures forall i :: 0 <= i < |Pieces(lo, hi)| ==> lo <= Lo(Pieces(lo, hi)[i]) && Hi(Pieces(lo, hi)[i]) <= hi
    ensures forall n :: Covers(Pieces(lo, hi), n) <==> lo <= n <= hi
    decreases hi - lo
  {
    if lo <= hi {
      var last := if hi < lo + MAX_READ_CHUNK_LINES - 1 then hi else lo + MAX_READ_CHUNK_LINES - 1;
      var first, rest := Span(At(lo), At(last)), Pieces(last + 1, hi);
      PiecesCover(last + 1, hi);
      forall n ensures Covers(Pieces(lo, hi), n) <==> lo <= n <= hi {
        CoversConcat([first], rest, n);
        CoversOne(first, n);
      }
    }
  }

  lemma {:induction false} ChunksOfCover(s: Span)
    requires Definite(s)
    ensures OrderedPieces(ChunksOf(s))
    ensures forall i :: 0 <= i < |ChunksOf(s)| ==> Lo(s) <= Lo(ChunksOf(s)[i]) && Hi(ChunksOf(s)[i]) <= Hi(s)
    ensures SameLines(ChunksOf(s), [s])
  {
    PiecesCover(Lo(s), Hi(s));
    forall n ensures Covers(ChunksOf(s), n) <==> Covers([s], n) { CoversOne(s, n); }
  }

  /** A range is cut into as few pieces as the limit allows: all but the last hold
      exactly 200 lines, each begins where the one before it ends, and a range of at
      most 200 lines is not cut at all. */
  lemma {:induction false} PiecesFull(lo: int, hi: int)
    ensures var r := Pieces(lo, hi);
            && (forall i :: 0 <= i < |r| ==> Definite(r[i]))
            && (forall i :: 0 <= i < |r| - 1 ==> Hi(r[i]) == Lo(r[i]) + 199 && Lo(r[i + 1]) == Hi(r[i]) + 1)
            && (lo <= hi ==> r != [] && Lo(r[0]) == lo && Hi(r[|r| - 1]) == hi)
    decreases hi - lo
  {
    if lo <= hi {
      var last := if hi < lo + MAX_READ_CHUNK_LINES - 1 then hi else lo + MAX_READ_CHUNK_LINES - 1;
      PiecesFull(last + 1, hi);
      if last == hi { assert Pieces(last + 1, hi) == []; }
    }
  }

  lemma {:induction false} ChunksFull(s: Span)
    requires Definite(s)
    ensures var r := ChunksOf(s);
            && (forall i :: 0 <= i < |r| ==> Definite(r[i]))
            && (forall i :: 0 <= i < |r| - 1 ==> Hi(r[i]) == Lo(r[i]) + 199 && Lo(r[i + 1]) == Hi(r[i]) + 1)
            && (Hi(s) - Lo(s) < 200 ==> r == [s])
  {
    PiecesFull(Lo(s), Hi(s));
  }

  predicate Inside(piece: Span, s: Span) {
    Definite(piece) && Definite(s) && Lo(s) <= Lo(piece) && Hi(piece) <= Hi(s)
  }

  /** Chunking a merged list: same lines, in ordered disjoint pieces of at most 200. */
  lemma {:induction false} ChunksCover(merged: seq<Span>)
    requires Gapped(merged)
    ensures OrderedPieces(Chunks(merged)) && SameLines(Chunks(merged), merged)
    ensures forall i :: 0 <= i < |Chunks(merged)| ==>
              exists j :: 0 <= j < |merged| && Inside(Chunks(merged)[i], merged[j])
    decreases |merged|
  {
    if merged != [] {
      var init, s := merged[..|merged| - 1], merged[|merged| - 1];
      ChunksCover(init);
      ChunksOfCover(s);
      assert merged == init + [s];
      var front, back := Chunks(init), ChunksOf(s);
      forall i | 0 <= i < |front|
        ensures Definite(front[i]) && Hi(front[i]) < Lo(s)
        ensures exists j :: 0 <= j < |merged| && Inside(front[i], merged[j])
      {
        var j :| 0 <= j < |init| && Inside(front[i], init[j]);
        assert merged[j] == init[j] && merged[|init|] == s;
      }
      forall i | 0 <= i < |back| ensures Inside(back[i], merged[|init|]) { }
      forall n ensures Covers(Chunks(merged), n) <==> Covers(merged, n) {
        CoversConcat(front, back, n);
        CoversConcat(init, [s], n);
      }
    }
  }

  method ChunkReadIntervals(merged: seq<Span>) returns (chunks: seq<Span>)
    ensures chunks == Chunks(merged)
  {
    chunks := [];
    for i := 0 to |merged|
      invariant chunks == Chunks(merged[..i])
    {
      assert merged[..i + 1][..i] == merged[..i];
      var s := merged[i];
      if s.start.Missing? || s.end.Missing? {
        chunks := chunks + [s];
        continue;
      }
      var length := Hi(s) - Lo(s) + 1;
      if length <= MAX_READ_CHUNK_LINES {
        chunks := chunks + [s];
        continue;
      }
      var cursor := Lo(s);
      ghost var before := chunks;
      while cursor <= Hi(s)
        invariant chunks + Pieces(cursor, Hi(s)) == before + Pieces(Lo(s), Hi(s))
        decreases Hi(s) - cursor
      {
        var chunkEnd := if Hi(s) < cursor + MAX_READ_CHUNK_LINES - 1 then Hi(s) else cursor + MAX_READ_CHUNK_LINES - 1;
        assert (chunks + [Span(At(cursor), At(chunkEnd))]) + Pieces(chunkEnd + 1, Hi(s)) ==
               chunks + Pieces(cursor, Hi(s));
        chunks := chunks + [Span(At(cursor), At(chunkEnd))];
        cursor := chunkEnd + 1;
      }
    }
    assert merged[..|merged|] == merged;
  }
}
