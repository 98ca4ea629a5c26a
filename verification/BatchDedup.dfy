/** Truncation and de-duplication, which come before normalisation. */
module BatchDedup {
  import opened Options
  import opened ReadIntervals
  import opened BatchTools
  import opened BatchReads
  import opened BatchReadLines

  const MAX_PARALLEL_TOOLS := 8

  /** The trailing-slash normalisation of `_normalize_tool_args`. */
  function KeyPath(path: string): string {
    if path == "" then "." else if path[|path| - 1] == '/' then KeyPath(path[..|path| - 1]) else path
  }

  /** The (name, normalised args) key: a read_file key has no line range. */
  function DedupKey(t: Tool): Tool {
    match t
    case ReadFile(path, _) => ReadFile(KeyPath(path), WHOLE_FILE)
    case ListFiles(path) => ListFiles(KeyPath(path))
    case Search(path, pattern) => Search(KeyPath(path), pattern)
    case other => other
  }

  predicate HasKey(tools: seq<Tool>, key: Tool) {
    exists i :: 0 <= i < |tools| && DedupKey(tools[i]) == key
  }

  function Deduped(tools: seq<Tool>): seq<Tool> {
    if tools == [] then []
    else
      var init, t := tools[..|tools| - 1], tools[|tools| - 1];
      if HasKey(init, DedupKey(t)) then Deduped(init) else Deduped(init) + [t]
  }

  lemma {:induction false} HasKeySnoc(init: seq<Tool>, t: Tool, key: Tool)
    ensures HasKey(init + [t], key) <==> HasKey(init, key) || DedupKey(t) == key
  {
    hide DedupKey;
    var tools := init + [t];
    if HasKey(init, key) {
      var i :| 0 <= i < |init| && DedupKey(init[i]) == key;
      assert tools[i] == init[i];
    }
    assert tools[|init|] == t;
  }

  lemma {:induction false} OneMoreCall(tools: seq<Tool>, i: nat, key: Tool)
    requires i < |tools|
    ensures Deduped(tools[..i + 1]) ==
            if HasKey(tools[..i], DedupKey(tools[i])) then Deduped(tools[..i]) else Deduped(tools[..i]) + [tools[i]]
    ensures HasKey(tools[..i + 1], key) <==> HasKey(tools[..i], key) || DedupKey(tools[i]) == key
  {
    hide HasKey, DedupKey;
    HasKeySnoc(tools[..i], tools[i], key);
    assert tools[..i + 1] == tools[..i] + [tools[i]];
    assert tools[..i + 1][..i] == tools[..i] && tools[..i + 1][i] == tools[i];
  }

  function Truncated(tools: seq<Tool>): seq<Tool> {
    if |tools| > MAX_PARALLEL_TOOLS then tools[..MAX_PARALLEL_TOOLS] else tools
  }

  /** The list a batch is run from: the first eight calls, duplicates dropped,
      reads merged, cut and moved behind the other calls. */
  function Prepared(tools: seq<Tool>): seq<Tool> {
    Normalized(Deduped(Truncated(tools)))
  }

  method PrepareBatch(tools: seq<Tool>) returns (prepared: seq<Tool>)
    ensures prepared == Prepared(tools)
  {
    var batch := tools;
    if |batch| > MAX_PARALLEL_TOOLS {
      batch := batch[..MAX_PARALLEL_TOOLS];
    }
    var seen: set<Tool> := {};
    var deduped: seq<Tool> := [];
    assert batch[..0] == [] && Deduped([]) == [];
    for i := 0 to |batch|
      invariant deduped == Deduped(batch[..i])
      invariant forall k :: k in seen <==> HasKey(batch[..i], k)
    {
      hide Deduped, HasKey, DedupKey;
      forall k { OneMoreCall(batch, i, k); }
      OneMoreCall(batch, i, DedupKey(batch[i]));
      var key := DedupKey(batch[i]);
      if key in seen {
        continue;
      }
      seen := seen + {key};
      deduped := deduped + [batch[i]];
    }
    assert batch[..|batch|] == batch;
    var mergedCount: int;
    prepared, mergedCount := NormalizeBatchReads(deduped);
  }

  /** The path without the slashes at its end; a path of nothing else is the directory. */
  lemma {:induction false} KeyPathIs(path: string)
    ensures var key := KeyPath(path);
            && key != "" && key[|key| - 1] != '/'
            && (key == "." || (|key| <= |path| && key == path[..|key|] &&
                               forall i :: |key| <= i < |path| ==> path[i] == '/'))
            && (key == "." && path != "." ==>
                  (forall i :: 0 <= i < |path| ==> path[i] == '/') ||
                  (1 <= |path| && path[0] == '.' && forall i :: 1 <= i < |path| ==> path[i] == '/'))
    decreases |path|
  {
    if path != "" && path[|path| - 1] == '/' {
      var front := path[..|path| - 1];
      KeyPathIs(front);
      assert forall i :: 0 <= i < |front| ==> front[i] == path[i];
    }
  }

  /** The two calls are the same for the batch: of one kind and with the same arguments,
      paths compared without slashes at the end, and reads without their ranges. */
  predicate SameCall(s: Tool, t: Tool) {
    || (s.ReadFile? && t.ReadFile? && KeyPath(s.path) == KeyPath(t.path))
    || (s.ListFiles? && t.ListFiles? && KeyPath(s.path) == KeyPath(t.path))
    || (s.Search? && t.Search? && KeyPath(s.path) == KeyPath(t.path) && s.pattern == t.pattern)
    || (s == t && !s.ReadFile? && !s.ListFiles? && !s.Search?)
  }

  lemma {:induction false} SameKey(s: Tool, t: Tool)
    ensures DedupKey(s) == DedupKey(t) <==> SameCall(s, t)
  {
    hide KeyPath;
  }

  /** Exactly the calls that repeat an earlier one are dropped, and the others keep
      their order: what is left of one more call. */
  lemma {:induction false} DedupExactly(tools: seq<Tool>, t: Tool)
    ensures Deduped([]) == []
    ensures Deduped(tools + [t]) ==
            if exists i :: 0 <= i < |tools| && SameCall(tools[i], t) then Deduped(tools) else Deduped(tools) + [t]
  {
    hide DedupKey, SameCall;
    assert (tools + [t])[..|tools|] == tools;
    forall i | 0 <= i < |tools| ensures DedupKey(tools[i]) == DedupKey(t) <==> SameCall(tools[i], t) {
      SameKey(tools[i], t);
    }
    if exists i :: 0 <= i < |tools| && SameCall(tools[i], t) {
      var i :| 0 <= i < |tools| && SameCall(tools[i], t);
      assert DedupKey(tools[i]) == DedupKey(t);
    }
  }

  /** A batch is cut to its first eight calls before anything else. */
  lemma {:induction false} FirstEight(tools: seq<Tool>)
    ensures Truncated(tools) == tools[..if |tools| <= 8 then |tools| else 8]
  {
    assert tools[..|tools|] == tools;
  }

  /** The first of the reads whose paths have one key: "src", "src/" and "src//" do. */
  function FirstRead(tools: seq<Tool>, key: string): Option<Tool> {
    if tools == [] then None
    else
      var init, t := tools[..|tools| - 1], tools[|tools| - 1];
      match FirstRead(init, key)
      case Some(first) => Some(first)
      case None => if t.ReadFile? && KeyPath(t.path) == key then Some(t) else None
  }

  lemma {:induction false} GroupSnoc(init: seq<Tool>, t: Tool, path: string)
    ensures Group(init + [t], path) ==
            if t.ReadFile? && GroupPath(t) == path then Group(init, path) + [t.span] else Group(init, path)
  {
    assert (init + [t])[..|init|] == init;
  }

  lemma {:induction false} FirstReadSnoc(init: seq<Tool>, t: Tool, key: string)
    ensures FirstRead(init + [t], key) ==
            if FirstRead(init, key).Some? then FirstRead(init, key)
            else if t.ReadFile? && KeyPath(t.path) == key then Some(t) else None
  {
    assert (init + [t])[..|init|] == init;
  }

  lemma {:induction false} FirstReadIsRead(tools: seq<Tool>, key: string)
    ensures var first := FirstRead(tools, key);
            first.Some? ==> first.value.ReadFile? && first.value in tools && KeyPath(first.value.path) == key
  {
    if tools != [] { FirstReadIsRead(tools[..|tools| - 1], key); }
  }

  /** What is left of the reads of a path. */
  function Surviving(tools: seq<Tool>, path: string): seq<Span> {
    FirstReadIsRead(tools, KeyPath(path));
    match FirstRead(tools, KeyPath(path))
    case None => []
    case Some(first) => if GroupPath(first) == path then [first.span] else []
  }

  /** Of several reads whose paths have one key only the first survives, whatever
      their ranges. */
  lemma {:induction false} DedupKeepsFirstRead(tools: seq<Tool>, path: string)
    ensures Group(Deduped(tools), path) == Surviving(tools, path)
    decreases |tools|
  {
    hide HasKey, DedupKey, Group, KeyPath;
    if tools == [] {
      GroupOfNone(path);
    } else {
      var init, t := tools[..|tools| - 1], tools[|tools| - 1];
      assert tools == init + [t];
      DedupKeepsFirstRead(init, path);
      GroupSnoc(Deduped(init), t, path);
      FirstReadSnoc(init, t, KeyPath(path));
      if t.ReadFile? {
        SameKeyIsDuplicate(init, t);
        KeyOfGroup(t);
      }
    }
  }

  /** With one spelling of the path that is the first of its own reads. */
  lemma {:induction false} OneSpelling(tools: seq<Tool>, path: string)
    requires forall i :: 0 <= i < |tools| && tools[i].ReadFile? && KeyPath(tools[i].path) == KeyPath(path) ==>
               GroupPath(tools[i]) == path
    ensures Surviving(tools, path) == if Group(tools, path) == [] then [] else [Group(tools, path)[0]]
    decreases |tools|
  {
    hide KeyPath;
    if tools != [] {
      var init, t := tools[..|tools| - 1], tools[|tools| - 1];
      assert tools == init + [t];
      OneSpelling(init, path);
      FirstReadIsRead(init, KeyPath(path));
      if t.ReadFile? { KeyOfGroup(t); }
    }
  }

  lemma {:induction false} KeyOfGroup(t: Tool)
    requires t.ReadFile?
    ensures KeyPath(GroupPath(t)) == KeyPath(t.path)
  {
  }

  lemma {:induction false} SameReadKey(s: Tool, t: Tool)
    requires t.ReadFile?
    ensures DedupKey(s) == DedupKey(t) <==> s.ReadFile? && KeyPath(s.path) == KeyPath(t.path)
  {
  }

  lemma {:induction false} SameKeyIsDuplicate(init: seq<Tool>, t: Tool)
    requires t.ReadFile?
    ensures HasKey(init, DedupKey(t)) <==> FirstRead(init, KeyPath(t.path)).Some?
    decreases |init|
  {
    hide HasKey, DedupKey, KeyPath;
    if init == [] {
      NoKeys(DedupKey(t));
    } else {
      var shorter, s := init[..|init| - 1], init[|init| - 1];
      assert init == shorter + [s];
      SameKeyIsDuplicate(shorter, t);
      FirstReadSnoc(shorter, s, KeyPath(t.path));
      HasKeySnoc(shorter, s, DedupKey(t));
      SameReadKey(s, t);
    }
  }

  lemma {:induction false} NoKeys(key: Tool)
    ensures !HasKey([], key)
  {
  }

  /** What a request has become when the batch is run: a missing end takes the
      other one with it. */
  function Kept(s: Span): Span {
    if Definite(s) then s else WHOLE_FILE
  }

  predicate Survives(survivor: seq<Span>, line: int) {
    survivor != [] && Asks(Kept(survivor[0]), line)
  }

  lemma {:induction false} OneRead(s: Span, line: int)
    ensures Asks(Kept(s), line) <==>
            Covers([s], line) || (OpenEnded([s]) != [] && DEFAULT_START <= line <= DEFAULT_END)
  {
    assert [s][1..] == [];
    if Definite(s) { CoversOne(s, line); }
  }

  lemma {:induction false} NoRead(line: int)
    ensures !Covers([], line) && OpenEnded([]) == []
  {
  }

  /** So a whole batch reads of each path the lines of the first read under its key,
      if that has this path, and nothing of it otherwise; no requested line is lost
      if and only if that one read, as it is kept, asks for all of them. */
  lemma {:induction false} BatchLines(tools: seq<Tool>, path: string)
    ensures var spans := Group(Truncated(tools), path);
            var survivor := Surviving(Truncated(tools), path);
            && (forall line :: Requests(Group(Prepared(tools), path), line) <==>
                  Survives(survivor, line))
            && ((forall line :: Requests(spans, line) ==> Requests(Group(Prepared(tools), path), line)) <==>
                (forall i, line :: 0 <= i < |spans| && Asks(spans[i], line) ==>
                   Survives(survivor, line)))
  {
    hide Truncated, Deduped, Normalized, Group, Asks, Surviving, Covers, OpenEnded, Kept;
    var batch := Truncated(tools);
    var spans, survivor := Group(batch, path), Surviving(batch, path);
    DedupKeepsFirstRead(batch, path);
    assert survivor != [] ==> survivor == [survivor[0]] by { OneSurvivor(batch, path); }
    forall line
      ensures Requests(Group(Prepared(tools), path), line) <==> Survives(survivor, line)
    {
      NormalizedLines(Deduped(batch), path, line);
      if survivor == [] { NoRead(line); } else { OneRead(survivor[0], line); }
    }
    NothingLostIf(spans, Group(Prepared(tools), path), survivor);
  }

  lemma {:induction false} NothingLostIf(spans: seq<Span>, prepared: seq<Span>, survivor: seq<Span>)
    requires forall line :: Requests(prepared, line) <==> Survives(survivor, line)
    ensures (forall line :: Requests(spans, line) ==> Requests(prepared, line)) <==>
            (forall i, line :: 0 <= i < |spans| && Asks(spans[i], line) ==>
               Survives(survivor, line))
  {
    hide Asks, Survives;
    if forall line :: Requests(spans, line) ==> Requests(prepared, line) {
      forall i, line | 0 <= i < |spans| && Asks(spans[i], line)
        ensures Survives(survivor, line)
      {
        assert Requests(spans, line);
      }
    }
    if forall i, line :: 0 <= i < |spans| && Asks(spans[i], line) ==>
         Survives(survivor, line)
    {
      forall line | Requests(spans, line) ensures Requests(prepared, line) {
        var i :| 0 <= i < |spans| && Asks(spans[i], line);
      }
    }
  }

  lemma {:induction false} OneSurvivor(tools: seq<Tool>, path: string)
    ensures |Surviving(tools, path)| <= 1
  {
  }
}
