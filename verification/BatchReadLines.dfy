/** Which lines of which files a normalised batch reads. */
module BatchReadLines {
  import opened ReadIntervals
  import opened BatchTools
  import opened BatchReads

  const DEFAULT_START := 1
  const DEFAULT_END := 200

  /** The lines a read_file call asks for, missing ends filled in as the tool does. */
  predicate Asks(s: Span, line: int) {
    && (if s.start.At? then s.start.line else DEFAULT_START) <= line
    && line <= (if s.end.At? then s.end.line else DEFAULT_END)
  }

  predicate Requests(spans: seq<Span>, line: int) {
    exists i :: 0 <= i < |spans| && Asks(spans[i], line)
  }

  lemma RequestsConcat(a: seq<Span>, b: seq<Span>, line: int)
    ensures Requests(a + b, line) <==> Requests(a, line) || Requests(b, line)
  {
    if Requests(a, line) { var i :| 0 <= i < |a| && Asks(a[i], line); assert (a + b)[i] == a[i]; }
    if Requests(b, line) { var i :| 0 <= i < |b| && Asks(b[i], line); assert (a + b)[|a| + i] == b[i]; }
  }

  lemma {:induction false} DefiniteRequests(spans: seq<Span>, line: int)
    requires AllDefinite(spans)
    ensures Requests(spans, line) <==> Covers(spans, line)
  {
    if Requests(spans, line) {
      var i :| 0 <= i < |spans| && Asks(spans[i], line);
      assert Definite(spans[i]);
    }
    if Covers(spans, line) {
      var i :| 0 <= i < |spans| && Definite(spans[i]) && Lo(spans[i]) <= line <= Hi(spans[i]);
      assert Asks(spans[i], line);
    }
  }

  lemma {:induction false} EmittedOne(s: Span, line: int)
    ensures Requests(Emitted(s), line) <==>
            if Definite(s) then Lo(s) <= line <= Hi(s) else DEFAULT_START <= line <= DEFAULT_END
  {
    if Definite(s) {
      assert Gapped([s]);
      ChunksCover([s]);
      DefiniteRequests(Chunks([s]), line);
      CoversOne(s, line);
    } else {
      assert Asks([WHOLE_FILE][0], line) <==> DEFAULT_START <= line <= DEFAULT_END;
    }
  }

  lemma {:induction false} EmittedRequests(merged: seq<Span>, line: int)
    ensures Requests(EmittedAll(merged), line) <==>
            Covers(merged, line) || (OpenEnded(merged) != [] && DEFAULT_START <= line <= DEFAULT_END)
    decreases |merged|
  {
    if merged != [] {
      var init, s := merged[..|merged| - 1], merged[|merged| - 1];
      assert merged == init + [s];
      EmittedRequests(init, line);
      RequestsConcat(EmittedAll(init), Emitted(s), line);
      EmittedOne(s, line);
      CoversConcat(init, [s], line);
      OpenEndedConcat(init, [s]);
      if Definite(s) { CoversOne(s, line); }
    }
  }

  lemma {:induction false} OpenEndedCons(s: Span, rest: seq<Span>)
    ensures OpenEnded([s] + rest) == (if Definite(s) then [] else [s]) + OpenEnded(rest)
  {
    assert ([s] + rest)[1..] == rest;
    assert [] + OpenEnded(rest) == OpenEnded(rest);
  }

  lemma {:induction false} OpenEndedConcat(a: seq<Span>, b: seq<Span>)
    ensures OpenEnded(a + b) == OpenEnded(a) + OpenEnded(b)
  {
    hide OpenEnded, Definite;
    if a == [] {
      assert a + b == b && OpenEnded(a) == [] by { NoneOpenEnded(); }
    } else {
      var s, rest := a[0], a[1..];
      OpenEndedConcat(rest, b);
      OpenEndedCons(s, rest);
      OpenEndedCons(s, rest + b);
      assert a == [s] + rest && a + b == [s] + (rest + b);
    }
  }

  lemma {:induction false} NoneOpenEnded()
    ensures OpenEnded([]) == []
  {
  }

  /** The lines asked of a path after normalisation, whatever the batch: those of
      its definite requests, and lines 1 to 200 if any request was open-ended. */
  lemma {:induction false} NormalizedLines(tools: seq<Tool>, path: string, line: int)
    ensures Requests(Group(Normalized(tools), path), line) <==>
            || Covers(Group(tools, path), line)
            || (OpenEnded(Group(tools, path)) != [] && DEFAULT_START <= line <= DEFAULT_END)
  {
    NormalizedGroups(tools, path);
    MergePreservesLines(Group(tools, path));
    EmittedRequests(Merge(Group(tools, path)), line);
  }

  lemma {:induction false} RequestsSplit(spans: seq<Span>, line: int)
    ensures Requests(spans, line) <==> Covers(spans, line) || Requests(OpenEnded(spans), line)
  {
    if spans != [] {
      var s, rest := spans[0], spans[1..];
      assert spans == [s] + rest;
      RequestsSplit(rest, line);
      RequestsConcat([s], rest, line);
      CoversConcat([s], rest, line);
      if Definite(s) {
        CoversOne(s, line);
        DefiniteRequests([s], line);
      } else {
        RequestsConcat([s], OpenEnded(rest), line);
        assert !Covers([s], line);
      }
    }
  }

  /** With no half-open request, exactly the requested lines are read, as disjoint
      ascending pieces of at most 200 lines. */
  lemma {:induction false} NormalizationPreservesReads(tools: seq<Tool>, path: string)
    requires forall i :: 0 <= i < |Group(tools, path)| ==>
               Group(tools, path)[i] == WHOLE_FILE || Definite(Group(tools, path)[i])
    ensures forall line :: Requests(Group(Normalized(tools), path), line) <==> Requests(Group(tools, path), line)
    ensures AllDefinite(Group(tools, path)) ==> OrderedPieces(Group(Normalized(tools), path))
  {
    var spans := Group(tools, path);
    forall line ensures Requests(Group(Normalized(tools), path), line) <==> Requests(spans, line) {
      NormalizedLines(tools, path, line);
      RequestsSplit(spans, line);
      WholeOnly(spans, line);
    }
    if AllDefinite(spans) {
      NormalizedGroups(tools, path);
      assert spans + [] == spans;
      FilterConcat(spans, []);
      MergePreservesLines(spans);
      assert Merge(spans) == Definites(Merge(spans)) + [];
      assert Merge(spans) == Definites(Merge(spans));
      ChunksCover(Merge(spans));
      EmittedIsChunks(Merge(spans));
    }
  }

  lemma {:induction false} WholeOnly(spans: seq<Span>, line: int)
    requires forall i :: 0 <= i < |spans| ==> spans[i] == WHOLE_FILE || Definite(spans[i])
    ensures Requests(OpenEnded(spans), line) <==> OpenEnded(spans) != [] && DEFAULT_START <= line <= DEFAULT_END
  {
    if spans != [] {
      WholeOnly(spans[1..], line);
      if !Definite(spans[0]) {
        RequestsConcat([spans[0]], OpenEnded(spans[1..]), line);
        assert Asks([spans[0]][0], line) <==> DEFAULT_START <= line <= DEFAULT_END;
      }
    }
  }

  lemma {:induction false} ChunksOfOne(s: Span)
    ensures Chunks([s]) == ChunksOf(s)
  {
    hide ChunksOf;
    assert [s][..0] == [];
  }

  lemma {:induction false} EmittedIsChunks(merged: seq<Span>)
    requires AllDefinite(merged)
    ensures EmittedAll(merged) == Chunks(merged)
    decreases |merged|
  {
    hide ChunksOf;
    if merged != [] {
      var init, s := merged[..|merged| - 1], merged[|merged| - 1];
      EmittedIsChunks(init);
      ChunksOfOne(s);
    }
  }

  /** A read that gives only its last line loses everything after line 200. */
  lemma {:induction false} HalfOpenReadLosesLines()
    ensures var tools := [ReadFile("a", Span(Missing, At(300)))];
            Requests(Group(tools, "a"), 250) && !Requests(Group(Normalized(tools), "a"), 250)
  {
    var tools := [ReadFile("a", Span(Missing, At(300)))];
    assert tools[..0] == [];
    assert Group(tools, "a") == [] + [Span(Missing, At(300))];
    assert Asks(Group(tools, "a")[0], 250);
    NormalizedLines(tools, "a", 250);
  }

  lemma {:induction false} OpenEndedAsks(spans: seq<Span>, line: int)
    ensures Requests(OpenEnded(spans), line) <==>
            exists i :: 0 <= i < |spans| && !Definite(spans[i]) && Asks(spans[i], line)
  {
    if spans != [] {
      var rest := spans[1..];
      OpenEndedAsks(rest, line);
      if !Definite(spans[0]) { RequestsConcat([spans[0]], OpenEnded(rest), line); }
      if Requests(OpenEnded(rest), line) {
        var i :| 0 <= i < |rest| && !Definite(rest[i]) && Asks(rest[i], line);
        assert spans[i + 1] == rest[i];
      }
      if exists i :: 0 <= i < |spans| && !Definite(spans[i]) && Asks(spans[i], line) {
        var i :| 0 <= i < |spans| && !Definite(spans[i]) && Asks(spans[i], line);
        if i > 0 { assert rest[i - 1] == spans[i]; } else { assert Asks([spans[0]][0], line); }
      }
    }
  }

  /** No requested line is lost if and only if whatever a request with a missing
      end asks for outside lines 1 to 200 is covered by a request with both ends. */
  lemma {:induction false} NothingLostExactly(tools: seq<Tool>, path: string)
    ensures var spans := Group(tools, path);
            (forall line :: Requests(spans, line) ==> Requests(Group(Normalized(tools), path), line)) <==>
            (forall i, line ::
               0 <= i < |spans| && !Definite(spans[i]) && Asks(spans[i], line) &&
               !(DEFAULT_START <= line <= DEFAULT_END) ==>
                 Covers(spans, line))
  {
    hide Normalized, Requests, Covers, Asks, Group, OpenEnded;
    var spans := Group(tools, path);
    forall line
      ensures Requests(spans, line) <==> Covers(spans, line) || Requests(OpenEnded(spans), line)
      ensures Requests(Group(Normalized(tools), path), line) <==>
              Covers(spans, line) || (OpenEnded(spans) != [] && DEFAULT_START <= line <= DEFAULT_END)
      ensures Requests(OpenEnded(spans), line) <==>
              exists i :: 0 <= i < |spans| && !Definite(spans[i]) && Asks(spans[i], line)
      ensures Requests(OpenEnded(spans), line) ==> OpenEnded(spans) != []
    {
      RequestsSplit(spans, line);
      NormalizedLines(tools, path, line);
      OpenEndedAsks(spans, line);
      NothingAsks(line);
    }
  }

  /** Exactly the requested lines are read if and only if nothing is lost and, where a
      request has a missing end, all of lines 1 to 200 were asked for. */
  lemma {:induction false} SameLinesExactly(tools: seq<Tool>, path: string)
    ensures var spans := Group(tools, path);
            (forall line :: Requests(Group(Normalized(tools), path), line) <==> Requests(spans, line)) <==>
            && (forall i, line ::
                  0 <= i < |spans| && !Definite(spans[i]) && Asks(spans[i], line) &&
                  !(DEFAULT_START <= line <= DEFAULT_END) ==>
                    Covers(spans, line))
            && (OpenEnded(spans) != [] ==>
                  forall line :: DEFAULT_START <= line <= DEFAULT_END ==> Requests(spans, line))
  {
    hide Normalized, Requests, Covers, Asks, Group, OpenEnded;
    var spans := Group(tools, path);
    NothingLostExactly(tools, path);
    forall line
      ensures Requests(spans, line) <==> Covers(spans, line) || Requests(OpenEnded(spans), line)
      ensures Requests(Group(Normalized(tools), path), line) <==>
              Covers(spans, line) || (OpenEnded(spans) != [] && DEFAULT_START <= line <= DEFAULT_END)
    {
      RequestsSplit(spans, line);
      NormalizedLines(tools, path, line);
    }
  }

  lemma {:induction false} NothingAsks(line: int)
    ensures !Requests([], line)
  {
  }
}
