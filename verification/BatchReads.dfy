/** The calls a model may put in one tool batch, as pico/agent_loop.py sees them. */
module BatchTools {
  import opened ReadIntervals

  /** A path argument is already stripped and uses forward slashes; "" is a missing path. */
  datatype Tool =
    | ReadFile(path: string, span: Span)
    | ListFiles(path: string)
    | Search(path: string, pattern: string)
    | WriteFile(path: string, content: string)
    | PatchFile(path: string, oldText: string, newText: string)
    | RunShell(command: string)
    | Other(name: string, path: string)
}

/** `_normalize_batch_reads`. */
module BatchReads {
  import opened ReadIntervals
  import opened BatchTools

  function GroupPath(t: Tool): string
    requires t.ReadFile?
  {
    if t.path == "" then "." else t.path
  }

  function Others(tools: seq<Tool>): seq<Tool> {
    if tools == [] then []
    else
      var init, t := tools[..|tools| - 1], tools[|tools| - 1];
      if t.ReadFile? then Others(init) else Others(init) + [t]
  }

  /** Paths of the read_file calls in order of first appearance. */
  function Paths(tools: seq<Tool>): seq<string> {
    if tools == [] then []
    else
      var init, t := tools[..|tools| - 1], tools[|tools| - 1];
      if t.ReadFile? && GroupPath(t) !in Paths(init) then Paths(init) + [GroupPath(t)] else Paths(init)
  }

  /** The spans requested of one path, in order. */
  function Group(tools: seq<Tool>, path: string): seq<Span> {
    if tools == [] then []
    else
      var init, t := tools[..|tools| - 1], tools[|tools| - 1];
      if t.ReadFile? && GroupPath(t) == path then Group(init, path) + [t.span] else Group(init, path)
  }

  function ReadsOf(path: string, spans: seq<Span>): (r: seq<Tool>)
    ensures |r| == |spans|
    ensures forall i :: 0 <= i < |r| ==> r[i] == ReadFile(path, spans[i])
  {
    seq(|spans|, i requires 0 <= i < |spans| => ReadFile(path, spans[i]))
  }

  /** What one merged span becomes; an open-ended one loses the end it has. */
  function Emitted(s: Span): seq<Span> {
    if Definite(s) then Chunks([s]) else [WHOLE_FILE]
  }

  function EmittedAll(merged: seq<Span>): seq<Span> {
    if merged == [] then [] else EmittedAll(merged[..|merged| - 1]) + Emitted(merged[|merged| - 1])
  }

  function ReadsFor(tools: seq<Tool>, paths: seq<string>): seq<Tool> {
    if paths == [] then []
    else
      var init, path := paths[..|paths| - 1], paths[|paths| - 1];
      ReadsFor(tools, init) + ReadsOf(path, EmittedAll(Merge(Group(tools, path))))
  }

  function MergedAway(tools: seq<Tool>, paths: seq<string>): int {
    if paths == [] then 0
    else
      var init, path := paths[..|paths| - 1], paths[|paths| - 1];
      MergedAway(tools, init) + |Group(tools, path)| - |Merge(Group(tools, path))|
  }

  function Normalized(tools: seq<Tool>): seq<Tool> {
    Others(tools) + ReadsFor(tools, Paths(tools))
  }

  lemma {:induction false} EmittedSnoc(merged: seq<Span>, i: nat)
    requires i < |merged|
    ensures EmittedAll(merged[..i + 1]) == EmittedAll(merged[..i]) + Emitted(merged[i])
  {
    assert merged[..i + 1][..i] == merged[..i];
  }

  lemma {:induction false} ReadsOfConcat(path: string, a: seq<Span>, b: seq<Span>)
    ensures ReadsOf(path, a + b) == ReadsOf(path, a) + ReadsOf(path, b)
  {
  }

  lemma {:induction false} PathsAreGrouped(tools: seq<Tool>)
    ensures forall p :: p in Paths(tools) <==> Group(tools, p) != []
    ensures forall i, j :: 0 <= i < j < |Paths(tools)| ==> Paths(tools)[i] != Paths(tools)[j]
  {
    if tools != [] { PathsAreGrouped(tools[..|tools| - 1]); }
  }

  /** The reads of one group of a batch, one path after the other. */
  method EmitReads(path: string, merged: seq<Span>) returns (cut: seq<Tool>)
    ensures cut == ReadsOf(path, EmittedAll(merged))
  {
    cut := [];
    for i := 0 to |merged|
      invariant cut == ReadsOf(path, EmittedAll(merged[..i]))
    {
      EmittedSnoc(merged, i);
      ReadsOfConcat(path, EmittedAll(merged[..i]), Emitted(merged[i]));
      var s := merged[i];
      if s.start.Missing? || s.end.Missing? {
        cut := cut + [ReadFile(path, WHOLE_FILE)];
        continue;
      }
      var chunks := ChunkReadIntervals([s]);
      cut := cut + ReadsOf(path, chunks);
    }
    assert merged[..|merged|] == merged;
  }

  lemma {:induction false} OneMoreTool(tools: seq<Tool>, i: nat, path: string)
    requires i < |tools|
    ensures var t := tools[i];
            && Others(tools[..i + 1]) == (if t.ReadFile? then Others(tools[..i]) else Others(tools[..i]) + [t])
            && Paths(tools[..i + 1]) == (if t.ReadFile? && GroupPath(t) !in Paths(tools[..i])
                                         then Paths(tools[..i]) + [GroupPath(t)] else Paths(tools[..i]))
            && Group(tools[..i + 1], path) == (if t.ReadFile? && GroupPath(t) == path
                                               then Group(tools[..i], path) + [t.span] else Group(tools[..i], path))
  {
    assert tools[..i + 1][..i] == tools[..i] && tools[..i + 1][i] == tools[i];
  }

  lemma {:induction false} OneMorePath(tools: seq<Tool>, paths: seq<string>, k: nat)
    requires k < |paths|
    ensures var merged := Merge(Group(tools, paths[k]));
            && ReadsFor(tools, paths[..k + 1]) == ReadsFor(tools, paths[..k]) + ReadsOf(paths[k], EmittedAll(merged))
            && MergedAway(tools, paths[..k + 1]) == MergedAway(tools, paths[..k]) + |Group(tools, paths[k])| - |merged|
  {
    hide Merge, Group, EmittedAll, ReadsOf;
    assert paths[..k + 1][..k] == paths[..k] && paths[..k + 1][k] == paths[k];
  }

  lemma {:induction false} AppendReads(others: seq<Tool>, front: seq<Tool>, back: seq<Tool>)
    ensures others + (front + back) == others + front + back
  {
  }

  method NormalizeBatchReads(tools: seq<Tool>) returns (normalized: seq<Tool>, mergedCount: int)
    ensures normalized == Normalized(tools)
    ensures mergedCount == MergedAway(tools, Paths(tools))
  {
    hide Merge, Group, Groups, EmittedAll, ReadsOf, Others, Paths, ReadsFor, MergedAway;
    var order, groups, others := GroupReads(tools);
    normalized := others;
    mergedCount := 0;
    assert order[..0] == [];
    NoPaths(tools);
    for k := 0 to |order|
      invariant normalized == others + ReadsFor(tools, order[..k])
      invariant mergedCount == MergedAway(tools, order[..k])
    {
      OneMorePath(tools, order, k);
      SameKeys(groups, tools, order[k]);
      var group := groups[order[k]];
      var merged := MergeReadIntervals(group);
      mergedCount := mergedCount + |group| - |merged|;
      var cut := EmitReads(order[k], merged);
      AppendReads(others, ReadsFor(tools, order[..k]), cut);
      normalized := normalized + cut;
    }
    assert order[..|order|] == order;
  }

  lemma {:induction false} NoPaths(tools: seq<Tool>)
    ensures Others(tools) + ReadsFor(tools, []) == Others(tools) && MergedAway(tools, []) == 0
    ensures Others([]) == [] && Paths([]) == []
  {
  }

  /** `groups` holds, for each path read so far, the spans requested of it. */
  ghost predicate Groups(groups: map<string, seq<Span>>, tools: seq<Tool>) {
    forall p :: (p in groups <==> p in Paths(tools)) && (p in groups ==> groups[p] == Group(tools, p))
  }

  lemma {:induction false} GroupsGrow(groups: map<string, seq<Span>>, tools: seq<Tool>, i: nat)
    requires i < |tools| && Groups(groups, tools[..i])
    ensures if !tools[i].ReadFile? then Groups(groups, tools[..i + 1])
            else
              var path := GroupPath(tools[i]);
              Groups(groups[path := (if path in groups then groups[path] else []) + [tools[i].span]], tools[..i + 1])
  {
    hide Paths, Group;
    PathsAreGrouped(tools[..i]);
    OneMoreTool(tools, i, "");
    if tools[i].ReadFile? {
      var path := GroupPath(tools[i]);
      var grown := groups[path := (if path in groups then groups[path] else []) + [tools[i].span]];
      forall p
        ensures p in grown <==> p in Paths(tools[..i + 1])
        ensures p in grown ==> grown[p] == Group(tools[..i + 1], p)
      {
        OneMoreTool(tools, i, p);
        if p == path && path !in groups { assert Group(tools[..i], path) == []; }
      }
    } else {
      forall p ensures Group(tools[..i + 1], p) == Group(tools[..i], p) { OneMoreTool(tools, i, p); }
    }
  }

  /** The first loop: read_file calls by path, in order of first appearance. */
  method GroupReads(tools: seq<Tool>) returns (order: seq<string>, groups: map<string, seq<Span>>, others: seq<Tool>)
    ensures order == Paths(tools) && others == Others(tools) && Groups(groups, tools)
  {
    hide Others, Paths, Group, Groups;
    order, groups, others := [], map[], [];
    assert tools[..0] == [];
    NoPaths([]);
    assert Groups(map[], []) by { NoGroups(); }
    for i := 0 to |tools|
      invariant order == Paths(tools[..i]) && others == Others(tools[..i]) && Groups(groups, tools[..i])
    {
      OneMoreTool(tools, i, "");
      GroupsGrow(groups, tools, i);
      if tools[i].ReadFile? {
        var path := GroupPath(tools[i]);
        SameKeys(groups, tools[..i], path);
        if path in groups {
          groups := groups[path := groups[path] + [tools[i].span]];
        } else {
          assert [] + [tools[i].span] == [tools[i].span];
          groups := groups[path := [tools[i].span]];
          order := order + [path];
        }
      } else {
        others := others + [tools[i]];
      }
    }
    assert tools[..|tools|] == tools;
  }

  lemma {:induction false} NoGroups()
    ensures Groups(map[], [])
  {
  }

  lemma {:induction false} SameKeys(groups: map<string, seq<Span>>, tools: seq<Tool>, path: string)
    requires Groups(groups, tools)
    ensures path in groups <==> path in Paths(tools)
    ensures path in groups ==> groups[path] == Group(tools, path)
  {
    hide Paths, Group;
  }

  // ----- other tools keep their order, reads keep their lines -----

  lemma {:induction false} GroupConcat(a: seq<Tool>, b: seq<Tool>, path: string)
    ensures Group(a + b, path) == Group(a, path) + Group(b, path)
    ensures Others(a + b) == Others(a) + Others(b)
    decreases |b|
  {
    if b == [] {
      assert a + b == a;
    } else {
      var init, t := b[..|b| - 1], b[|b| - 1];
      GroupConcat(a, init, path);
      assert (a + b)[..|a + b| - 1] == a + init && (a + b)[|a + b| - 1] == t;
    }
  }

  lemma {:induction false} GroupOfOthers(tools: seq<Tool>, path: string)
    ensures Group(Others(tools), path) == [] && Others(Others(tools)) == Others(tools)
  {
    if tools != [] {
      var init, t := tools[..|tools| - 1], tools[|tools| - 1];
      GroupOfOthers(init, path);
      if !t.ReadFile? { assert (Others(init) + [t])[..|Others(init)|] == Others(init); }
    }
  }

  lemma {:induction false} GroupOfReads(p: string, spans: seq<Span>, path: string)
    requires p != ""
    ensures Group(ReadsOf(p, spans), path) == if p == path then spans else []
    ensures Others(ReadsOf(p, spans)) == []
    decreases |spans|
  {
    if spans != [] {
      var init := spans[..|spans| - 1];
      GroupOfReads(p, init, path);
      assert ReadsOf(p, spans)[..|spans| - 1] == ReadsOf(p, init);
    }
  }

  /** No path is the empty string: a missing one has become ".". */
  predicate AllNamed(paths: seq<string>) {
    forall i :: 0 <= i < |paths| ==> paths[i] != ""
  }

  lemma {:induction false} PathsNotEmpty(tools: seq<Tool>)
    ensures AllNamed(Paths(tools))
  {
    if tools != [] { PathsNotEmpty(tools[..|tools| - 1]); }
  }

  lemma {:induction false} GroupOfNone(path: string)
    ensures Group([], path) == []
  {
  }

  lemma {:induction false} GroupOfReadsFor(tools: seq<Tool>, paths: seq<string>, path: string)
    requires AllNamed(paths)
    requires forall i, j :: 0 <= i < j < |paths| ==> paths[i] != paths[j]
    ensures Group(ReadsFor(tools, paths), path) == if path in paths then EmittedAll(Merge(Group(tools, path))) else []
    ensures Others(ReadsFor(tools, paths)) == []
    decreases |paths|
  {
    hide Merge, EmittedAll, ReadsOf, Group, Others;
    if paths == [] {
      GroupOfNone(path);
      NoPaths(tools);
    } else {
      var init, p := paths[..|paths| - 1], paths[|paths| - 1];
      assert paths == init + [p];
      GroupOfReadsFor(tools, init, path);
      var spans := EmittedAll(Merge(Group(tools, p)));
      GroupOfReads(p, spans, path);
      GroupConcat(ReadsFor(tools, init), ReadsOf(p, spans), path);
    }
  }

  /** Normalisation keeps every non-read call, in order and ahead of the reads, and
      replaces the reads of each path by the pieces of their merged spans. */
  lemma {:induction false} NormalizedGroups(tools: seq<Tool>, path: string)
    ensures Others(Normalized(tools)) == Others(tools)
    ensures Others(tools) <= Normalized(tools)
    ensures Group(Normalized(tools), path) == EmittedAll(Merge(Group(tools, path)))
  {
    PathsAreGrouped(tools);
    PathsNotEmpty(tools);
    GroupOfReadsFor(tools, Paths(tools), path);
    GroupOfOthers(tools, path);
    GroupConcat(Others(tools), ReadsFor(tools, Paths(tools)), path);
    if path !in Paths(tools) {
      assert Merge([]) == [] && EmittedAll([]) == [];
    }
  }

  // ----- the order of the reads -----

  /** Where a path is first read. */
  function FirstAt(tools: seq<Tool>, path: string): (i: nat)
    ensures i <= |tools|
    ensures i < |tools| ==> tools[i].ReadFile? && GroupPath(tools[i]) == path
    ensures forall j :: 0 <= j < i ==> !(tools[j].ReadFile? && GroupPath(tools[j]) == path)
  {
    if tools == [] then 0
    else
      var init, t := tools[..|tools| - 1], tools[|tools| - 1];
      var i := FirstAt(init, path);
      if i < |init| then i else if t.ReadFile? && GroupPath(t) == path then |init| else |tools|
  }

  lemma {:induction false} FirstAtStays(init: seq<Tool>, t: Tool, path: string)
    requires FirstAt(init, path) < |init|
    ensures FirstAt(init + [t], path) == FirstAt(init, path)
  {
    assert (init + [t])[..|init|] == init;
  }

  /** The paths are exactly those read, in the order in which they are first read. */
  lemma {:induction false} PathsInOrder(tools: seq<Tool>)
    ensures forall p :: p in Paths(tools) <==> FirstAt(tools, p) < |tools|
    ensures forall a, b :: 0 <= a < b < |Paths(tools)| ==>
            FirstAt(tools, Paths(tools)[a]) < FirstAt(tools, Paths(tools)[b])
    decreases |tools|
  {
    hide FirstAt;
    if tools == [] {
      assert Paths([]) == [];
    } else {
      var init, t := tools[..|tools| - 1], tools[|tools| - 1];
      assert tools == init + [t];
      PathsInOrder(init);
      forall p ensures p in Paths(tools) <==> FirstAt(tools, p) < |tools| {
        if FirstAt(init, p) < |init| { FirstAtStays(init, t, p); }
      }
      forall a, b | 0 <= a < b < |Paths(tools)|
        ensures FirstAt(tools, Paths(tools)[a]) < FirstAt(tools, Paths(tools)[b])
      {
        assert Paths(init)[a] in Paths(init);
        FirstAtStays(init, t, Paths(init)[a]);
        if b < |Paths(init)| {
          assert Paths(init)[b] in Paths(init);
          FirstAtStays(init, t, Paths(init)[b]);
        }
      }
    }
  }

  /** After normalisation the reads of one path stand together, and the paths keep the
      order in which they are first read. */
  lemma {:induction false} ReadsInOrder(tools: seq<Tool>, i: nat, j: nat)
    requires i < j < |Normalized(tools)| && Normalized(tools)[i].ReadFile?
    ensures Normalized(tools)[j].ReadFile?
    ensures FirstAt(tools, Normalized(tools)[i].path) <= FirstAt(tools, Normalized(tools)[j].path)
  {
    hide FirstAt, ReadsFor, Others;
    OthersAreNoReads(tools);
    PathsInOrder(tools);
    var n := |Others(tools)|;
    ReadsForAscend(tools, Paths(tools), i - n, j - n);
  }

  lemma {:induction false} OthersAreNoReads(tools: seq<Tool>)
    ensures forall i :: 0 <= i < |Others(tools)| ==> !Others(tools)[i].ReadFile?
  {
    if tools != [] { OthersAreNoReads(tools[..|tools| - 1]); }
  }

  lemma {:induction false} ReadsForAre(tools: seq<Tool>, paths: seq<string>)
    ensures forall i :: 0 <= i < |ReadsFor(tools, paths)| ==>
              ReadsFor(tools, paths)[i].ReadFile? && ReadsFor(tools, paths)[i].path in paths
    decreases |paths|
  {
    hide Merge, Group, EmittedAll;
    if paths != [] { ReadsForAre(tools, paths[..|paths| - 1]); }
  }

  lemma {:induction false} ReadsForAscend(tools: seq<Tool>, paths: seq<string>, i: nat, j: nat)
    requires forall a, b :: 0 <= a < b < |paths| ==> FirstAt(tools, paths[a]) < FirstAt(tools, paths[b])
    requires i < j < |ReadsFor(tools, paths)|
    ensures ReadsFor(tools, paths)[i].ReadFile? && ReadsFor(tools, paths)[j].ReadFile?
    ensures FirstAt(tools, ReadsFor(tools, paths)[i].path) <= FirstAt(tools, ReadsFor(tools, paths)[j].path)
    decreases |paths|
  {
    hide Merge, Group, EmittedAll, FirstAt;
    var init, path := paths[..|paths| - 1], paths[|paths| - 1];
    ReadsForAre(tools, init);
    var n := |ReadsFor(tools, init)|;
    if j < n {
      ReadsForAscend(tools, init, i, j);
    } else if i < n {
      var p := ReadsFor(tools, init)[i].path;
      var a :| 0 <= a < |init| && init[a] == p;
      assert paths[a] == p;
    }
  }

  /** A group holds exactly the ranges of the reads of its path, in order; a read
      without a path reads the directory. */
  lemma {:induction false} GroupIs(tools: seq<Tool>, t: Tool, path: string)
    ensures Group([], path) == [] && Others([]) == []
    ensures t.ReadFile? ==>
              && Others(tools + [t]) == Others(tools)
              && Group(tools + [t], path) ==
                 if path == (if t.path == "" then "." else t.path) then Group(tools, path) + [t.span]
                 else Group(tools, path)
    ensures !t.ReadFile? ==>
              Group(tools + [t], path) == Group(tools, path) && Others(tools + [t]) == Others(tools) + [t]
  {
    assert (tools + [t])[..|tools|] == tools;
  }
}
