/** How pico/agent_loop.py runs a tool batch: a concurrent group in three-phase
    tool_executor.py calls, then a serial group, instead of the declared order. */
module BatchSchedule {
  import opened Options
  import opened Text
  import opened BatchTools

  /** Contents by path; distinct path strings name distinct files. */
  type Workspace = map<string, string>

  /** A call of the batch; `runs` is false when it is refused before it starts
      (a repeat, a denied approval), which the window and the user decide. */
  datatype Call = Call(tool: Tool, runs: bool)

  // ----- what one call does -----

  function Lookup(w: Workspace, path: string): Option<string> {
    if path in w then Some(w[path]) else None
  }

  function Store(w: Workspace, path: string, content: Option<string>): Workspace {
    match content
    case Some(text) => w[path := text]
    case None => w - {path}
  }

  predicate Edits(t: Tool) {
    (t.WriteFile? || t.PatchFile?) && t.path != ""
  }

  /** `text.count(old_text) == 1` */
  predicate OccursOnce(text: string, was: string) {
    var i := Find(text, was);
    was != "" && i >= 0 && i + |was| <= |text| && Find(text[i + |was|..], was) < 0
  }

  function Patched(text: string, was: string, with: string): string
    requires OccursOnce(text, was)
  {
    var i := Find(text, was);
    text[..i] + with + text[i + |was|..]
  }

  /** What a call makes of its own file; a patch that does not apply fails and
      leaves the file alone. */
  function Effect(t: Tool, before: Option<string>): Option<string> {
    match t
    case WriteFile(_, content) => Some(content)
    case PatchFile(_, was, with) =>
      if before.Some? && OccursOnce(before.value, was) then Some(Patched(before.value, was, with)) else before
    case _ => before
  }

  /** All of the workspace that a call's result can depend on. */
  datatype View = Refusal | Content(text: Option<string>) | Names(paths: set<string>) | Tree(files: Workspace)

  datatype Result = Result(view: View, affected: set<string>)

  function ViewOf(t: Tool, w: Workspace): View {
    match t
    case ReadFile(path, _) => Content(Lookup(w, path))
    case WriteFile(path, _) => Content(Lookup(w, path))
    case PatchFile(path, _, _) => Content(Lookup(w, path))
    case ListFiles(_) => Names(w.Keys)
    case _ => Tree(w)
  }

  function Changed(before: Workspace, after: Workspace): set<string> {
    set p | p in before.Keys + after.Keys && Lookup(before, p) != Lookup(after, p)
  }

  /** The diff of two snapshots of one path. */
  function ChangedAt(path: string, before: Option<string>, after: Option<string>): set<string> {
    if before != after then {path} else {}
  }

  function After(shell: (string, Workspace) -> Workspace, c: Call, w: Workspace): Workspace {
    if !c.runs then w
    else if Edits(c.tool) then Store(w, c.tool.path, Effect(c.tool, Lookup(w, c.tool.path)))
    else if c.tool.RunShell? then shell(c.tool.command, w)
    else w
  }

  /** A call run by itself on a workspace. */
  function Outcome(shell: (string, Workspace) -> Workspace, c: Call, w: Workspace): Result {
    if !c.runs then Result(Refusal, {})
    else
      Result(ViewOf(c.tool, w),
             if Edits(c.tool) then
               ChangedAt(c.tool.path, Lookup(w, c.tool.path), Effect(c.tool, Lookup(w, c.tool.path)))
             else if c.tool.RunShell? then Changed(w, shell(c.tool.command, w))
             else {})
  }

  /** The workspace after the first i calls in declared order. */
  function Declared(shell: (string, Workspace) -> Workspace, calls: seq<Call>, w: Workspace, i: nat): Workspace
    requires i <= |calls|
  {
    if i == 0 then w else After(shell, calls[i - 1], Declared(shell, calls, w, i - 1))
  }

  // ----- _partition_batch_tools -----

  predicate Lists(t: Tool) { t.ListFiles? || t.Search? }

  /** Not read-only: what sets `saw_write`. */
  predicate Writes(t: Tool) { !Lists(t) && !t.ReadFile? }

  /** The path a write marks; "*" stands for all paths. */
  function Mark(t: Tool): string
    requires Writes(t)
  {
    if t.RunShell? || t.path == "" then "*" else t.path
  }

  predicate WriteBefore(calls: seq<Call>, i: nat) requires i <= |calls| {
    exists j :: 0 <= j < i && Writes(calls[j].tool)
  }

  predicate ShellBefore(calls: seq<Call>, i: nat) requires i <= |calls| {
    exists j :: 0 <= j < i && calls[j].tool.RunShell?
  }

  predicate Dirties(t: Tool, path: string) {
    Writes(t) && Mark(t) == path
  }

  predicate DirtyBefore(calls: seq<Call>, i: nat, path: string) requires i <= |calls| {
    exists j :: 0 <= j < i && Dirties(calls[j].tool, path)
  }

  predicate TouchedBefore(calls: seq<Call>, i: nat, path: string)
    requires i <= |calls|
    decreases i, 1
  {
    exists j :: 0 <= j < i && Touches(calls, j, path)
  }

  /** The i-th call is put in the concurrent group. */
  predicate Joins(calls: seq<Call>, i: nat)
    requires i < |calls|
    decreases i, 2
  {
    var t := calls[i].tool;
    if Lists(t) then !WriteBefore(calls, i)
    else if t.ReadFile? then !ShellBefore(calls, i) && !DirtyBefore(calls, i, t.path)
    else if t.RunShell? then false
    else !ShellBefore(calls, i) && t.path != "" && !TouchedBefore(calls, i, t.path) && !TouchedBefore(calls, i, "*")
  }

  /** The j-th call puts this path into `touched`. */
  predicate Touches(calls: seq<Call>, j: nat, path: string)
    requires j < |calls|
    decreases j, 3
  {
    var t := calls[j].tool;
    if Writes(t) then Mark(t) == path
    else Joins(calls, j) && path == if Lists(t) then "*" else t.path
  }

  function Indices(calls: seq<Call>, joining: bool, i: nat): seq<nat>
    requires i <= |calls|
  {
    if i == 0 then []
    else if Joins(calls, i - 1) == joining then Indices(calls, joining, i - 1) + [i - 1]
    else Indices(calls, joining, i - 1)
  }

  lemma {:induction false} OneMoreMark(calls: seq<Call>, i: nat, path: string)
    requires i < |calls|
    ensures DirtyBefore(calls, i + 1, path) <==> DirtyBefore(calls, i, path) || Dirties(calls[i].tool, path)
    ensures TouchedBefore(calls, i + 1, path) <==> TouchedBefore(calls, i, path) || Touches(calls, i, path)
  {
    hide Touches, Dirties;
  }

  lemma {:induction false} OneMoreWrite(calls: seq<Call>, i: nat)
    requires i < |calls|
    ensures WriteBefore(calls, i + 1) <==> WriteBefore(calls, i) || Writes(calls[i].tool)
    ensures ShellBefore(calls, i + 1) <==> ShellBefore(calls, i) || calls[i].tool.RunShell?
    ensures ShellBefore(calls, i) ==> WriteBefore(calls, i)
  {
  }

  lemma {:induction false} OneMoreIndex(calls: seq<Call>, i: nat)
    requires i < |calls|
    ensures Indices(calls, true, i + 1) ==
            if Joins(calls, i) then Indices(calls, true, i) + [i] else Indices(calls, true, i)
    ensures Indices(calls, false, i + 1) ==
            if Joins(calls, i) then Indices(calls, false, i) else Indices(calls, false, i) + [i]
  {
    hide Joins;
  }

  method PartitionBatchTools(calls: seq<Call>) returns (concurrent: seq<nat>, serial: seq<nat>)
    ensures concurrent == Indices(calls, true, |calls|) && serial == Indices(calls, false, |calls|)
  {
    hide TouchedBefore, DirtyBefore, WriteBefore, ShellBefore, Indices;
    var dirty: set<string> := {};
    var touched: set<string> := {};
    var sawWrite, sawShell := false, false;
    concurrent, serial := [], [];
    NothingBefore(calls);
    for i := 0 to |calls|
      invariant concurrent == Indices(calls, true, i) && serial == Indices(calls, false, i)
      invariant sawWrite == WriteBefore(calls, i) && sawShell == ShellBefore(calls, i)
      invariant forall p :: p in dirty <==> DirtyBefore(calls, i, p)
      invariant forall p :: p in touched <==> TouchedBefore(calls, i, p)
    {
      var t := calls[i].tool;
      OneMoreIndex(calls, i);
      OneMoreWrite(calls, i);
      forall p { OneMoreMark(calls, i, p); }
      if Lists(t) {
        if !sawWrite && !sawShell {
          concurrent := concurrent + [i];
          touched := touched + {"*"};
        } else {
          serial := serial + [i];
        }
        continue;
      }
      if t.ReadFile? {
        if !sawShell && t.path !in dirty {
          concurrent := concurrent + [i];
          touched := touched + {t.path};
        } else {
          serial := serial + [i];
        }
      } else if t.RunShell? {
        sawWrite, sawShell := true, true;
        dirty := dirty + {"*"};
        touched := touched + {"*"};
        serial := serial + [i];
      } else {
        if !sawShell && t.path != "" && t.path !in touched && "*" !in touched {
          concurrent := concurrent + [i];
        } else {
          serial := serial + [i];
        }
        sawWrite := true;
        if t.path != "" {
          dirty := dirty + {t.path};
          touched := touched + {t.path};
        } else {
          dirty := dirty + {"*"};
          touched := touched + {"*"};
        }
      }
    }
  }

  lemma {:induction false} NothingBefore(calls: seq<Call>)
    ensures Indices(calls, true, 0) == [] && Indices(calls, false, 0) == []
    ensures !WriteBefore(calls, 0) && !ShellBefore(calls, 0)
    ensures forall p :: !DirtyBefore(calls, 0, p) && !TouchedBefore(calls, 0, p)
  {
  }

  // ----- the groups do not conflict -----

  /** The j-th call changes a file from within the concurrent group. */
  predicate Races(calls: seq<Call>, j: nat)
    requires j < |calls|
  {
    Joins(calls, j) && calls[j].runs && Edits(calls[j].tool)
  }

  lemma {:induction false} NothingTouchedBefore(calls: seq<Call>, k: nat, j: nat)
    requires k < j < |calls| && Joins(calls, j) && Edits(calls[j].tool)
    ensures !calls[k].tool.RunShell? && !Touches(calls, k, calls[j].tool.path) && !Touches(calls, k, "*")
  {
    hide Touches;
  }

  /** Inside the concurrent group no two writes share a file, no read shares one
      with a write, and a listing or search shares the group with no write. */
  lemma {:induction false} GroupIsConflictFree(calls: seq<Call>, i: nat, j: nat)
    requires i < |calls| && j < |calls| && i != j && Joins(calls, i) && Races(calls, j)
    ensures !Lists(calls[i].tool)
    ensures calls[i].tool.ReadFile? || Edits(calls[i].tool) ==> calls[i].tool.path != calls[j].tool.path
  {
    if i < j {
      NothingTouchedBefore(calls, i, j);
    } else if Edits(calls[i].tool) {
      NothingTouchedBefore(calls, j, i);
    } else if calls[i].tool.ReadFile? {
      assert Dirties(calls[j].tool, calls[j].tool.path);
    }
  }

  /** A serial read or write has no later concurrent write of its file; a shell
      command has none at all. */
  lemma {:induction false} SerialComesLast(calls: seq<Call>, i: nat, j: nat)
    requires i < j < |calls| && !Joins(calls, i) && Races(calls, j)
    ensures !calls[i].tool.RunShell?
    ensures calls[i].tool.ReadFile? || Edits(calls[i].tool) ==> calls[i].tool.path != calls[j].tool.path
  {
    NothingTouchedBefore(calls, i, j);
    if calls[i].tool.ReadFile? {
      if ShellBefore(calls, i) {
        var k :| 0 <= k < i && calls[k].tool.RunShell?;
        NothingTouchedBefore(calls, k, j);
      } else {
        var k :| 0 <= k < i && Dirties(calls[k].tool, calls[i].tool.path);
        NothingTouchedBefore(calls, k, j);
      }
    }
  }

  // ----- which calls join the group -----

  /** A shell command, or any call that is no read, listing or search, and the file it
      names, if any. */
  predicate MayWrite(t: Tool) {
    t.WriteFile? || t.PatchFile? || t.RunShell? || t.Other?
  }

  function PathOf(t: Tool): string {
    if t.RunShell? then "" else t.path
  }

  /** The j-th call keeps a write of this file out of the group: it is a shell command,
      writes the file or one that is not named, reads the file, or lists the workspace
      before anything has been written. The name "*" counts as every file. */
  predicate Blocks(calls: seq<Call>, j: nat, path: string)
    requires j < |calls|
  {
    var t := calls[j].tool;
    || (MayWrite(t) && PathOf(t) in {"", "*", path})
    || (t.ReadFile? && t.path in {"*", path})
    || ((t.ListFiles? || t.Search?) && forall k :: 0 <= k < j ==> !MayWrite(calls[k].tool))
  }

  /** Exactly which calls join: a listing or search before which nothing may write; a
      read before which no shell command and no write of its file stands; a write with
      a path before which no call stands that blocks it; a shell command never. */
  lemma {:induction false} JoinsExactly(calls: seq<Call>, i: nat)
    requires i < |calls|
    ensures var t := calls[i].tool;
            Joins(calls, i) <==>
              if t.RunShell? then false
              else if t.ListFiles? || t.Search? then forall j :: 0 <= j < i ==> !MayWrite(calls[j].tool)
              else if t.ReadFile? then
                forall j :: 0 <= j < i && MayWrite(calls[j].tool) ==>
                  !calls[j].tool.RunShell? && t.path != if calls[j].tool.path == "" then "*" else calls[j].tool.path
              else t.path != "" && forall j :: 0 <= j < i ==> !Blocks(calls, j, t.path)
    decreases i
  {
    hide Joins, TouchedBefore;
    var t := calls[i].tool;
    JoinsMeans(calls, i);
    if Lists(t) {
      NoneWrites(calls, i);
    } else if t.ReadFile? {
      CleanExactly(calls, i, t.path);
    } else if !t.RunShell? && t.path != "" {
      TouchedExactly(calls, i, t.path);
    }
  }

  lemma {:induction false} CleanExactly(calls: seq<Call>, i: nat, path: string)
    requires i <= |calls|
    ensures !ShellBefore(calls, i) && !DirtyBefore(calls, i, path) <==>
            forall j :: 0 <= j < i && MayWrite(calls[j].tool) ==>
              !calls[j].tool.RunShell? && path != if calls[j].tool.path == "" then "*" else calls[j].tool.path
  {
    forall j | 0 <= j < i
      ensures calls[j].tool.RunShell? || Dirties(calls[j].tool, path) <==>
              MayWrite(calls[j].tool) &&
              (calls[j].tool.RunShell? || path == if calls[j].tool.path == "" then "*" else calls[j].tool.path)
    {
    }
  }

  lemma {:induction false} JoinsMeans(calls: seq<Call>, i: nat)
    requires i < |calls|
    ensures var t := calls[i].tool;
            Joins(calls, i) <==>
              if Lists(t) then !WriteBefore(calls, i)
              else if t.ReadFile? then !ShellBefore(calls, i) && !DirtyBefore(calls, i, t.path)
              else !t.RunShell? && !ShellBefore(calls, i) && t.path != "" &&
                   !TouchedBefore(calls, i, t.path) && !TouchedBefore(calls, i, "*")
  {
    hide WriteBefore, ShellBefore, DirtyBefore, TouchedBefore;
  }

  /** Nothing before the i-th call touches the file exactly if nothing blocks it. */
  lemma {:induction false} TouchedExactly(calls: seq<Call>, i: nat, path: string)
    requires i < |calls| && path != ""
    ensures !ShellBefore(calls, i) && !TouchedBefore(calls, i, path) && !TouchedBefore(calls, i, "*") <==>
            forall j :: 0 <= j < i ==> !Blocks(calls, j, path)
    decreases i, 1
  {
    hide Joins;
    if forall j :: 0 <= j < i ==> !Blocks(calls, j, path) {
      forall j | 0 <= j < i ensures !calls[j].tool.RunShell? && !Touches(calls, j, path) && !Touches(calls, j, "*") {
        JoinsMeans(calls, j);
        assert !Blocks(calls, j, path);
        if Lists(calls[j].tool) && Joins(calls, j) { NoneWrites(calls, j); }
      }
      Untouched(calls, i, path);
      Untouched(calls, i, "*");
    } else {
      var j :| 0 <= j < i && Blocks(calls, j, path);
      BlockingTouches(calls, i, j, path);
    }
  }

  lemma {:induction false} Untouched(calls: seq<Call>, i: nat, path: string)
    requires i <= |calls| && forall j :: 0 <= j < i ==> !Touches(calls, j, path)
    ensures !TouchedBefore(calls, i, path)
  {
    hide Touches;
  }

  lemma {:induction false} NoneWrites(calls: seq<Call>, j: nat)
    requires j < |calls|
    ensures !WriteBefore(calls, j) <==> forall k :: 0 <= k < j ==> !MayWrite(calls[k].tool)
  {
    forall k | 0 <= k < j ensures MayWrite(calls[k].tool) <==> Writes(calls[k].tool) { }
    if WriteBefore(calls, j) {
      var k :| 0 <= k < j && Writes(calls[k].tool);
      assert MayWrite(calls[k].tool);
    }
  }

  lemma {:induction false} BlockingTouches(calls: seq<Call>, i: nat, j: nat, path: string)
    requires j < i < |calls| && path != "" && Blocks(calls, j, path)
    ensures ShellBefore(calls, i) || TouchedBefore(calls, i, path) || TouchedBefore(calls, i, "*")
    decreases j
  {
    hide Joins;
    var t := calls[j].tool;
    JoinsMeans(calls, j);
    if Writes(t) {
      assert Touches(calls, j, Mark(t));
    } else if Lists(t) {
      NoneWrites(calls, j);
      assert Touches(calls, j, "*");
    } else if Joins(calls, j) {
      assert Touches(calls, j, t.path);
    } else if !ShellBefore(calls, j) {
      var k :| 0 <= k < j && Dirties(calls[k].tool, t.path);
      assert Touches(calls, k, t.path);
    }
  }

  /** Both groups hold exactly their calls, in declared order. */
  lemma {:induction false} IndicesExactly(calls: seq<Call>, joining: bool, n: nat)
    requires n <= |calls|
    ensures var group := Indices(calls, joining, n);
            && (forall k :: k in group <==> 0 <= k < n && Joins(calls, k) == joining)
            && (forall a, b :: 0 <= a < b < |group| ==> group[a] < group[b])
  {
    hide Joins;
    if n > 0 {
      IndicesExactly(calls, joining, n - 1);
      var before := Indices(calls, joining, n - 1);
      assert forall a :: 0 <= a < |before| ==> before[a] in before;
    }
  }

  // ----- what an edit makes of a file -----

  /** A patch applies exactly to a text with its old part in one place, and replaces it
      there; every other text stays as it is. */
  lemma {:induction false} PatchExactly(path: string, was: string, with: string, a: string, b: string)
    requires was != "" && Find(a + was + b, was) == |a| && Find(b, was) == -1
    ensures Effect(PatchFile(path, was, with), Some(a + was + b)) == Some(a + with + b)
  {
    hide FindFrom, Find;
    var text := a + was + b;
    assert text[..|a|] == a && text[|a| + |was|..] == b;
  }

  lemma {:induction false} PatchOnlyOnce(path: string, was: string, with: string, before: Option<string>)
    ensures Effect(PatchFile(path, was, with), before) != before ==>
              && before.Some? && was != ""
              && exists a, b :: before.value == a + was + b && Find(before.value, was) == |a| && Find(b, was) == -1 &&
                                Effect(PatchFile(path, was, with), before) == Some(a + with + b)
    ensures before == None ==> Effect(PatchFile(path, was, with), before) == None
  {
    hide FindFrom;
    if before.Some? && OccursOnce(before.value, was) {
      var text := before.value;
      var i := Find(text, was);
      FindIsFirst(text, was);
      var a, b := text[..i], text[i + |was|..];
      assert text == a + was + b;
    }
  }
}
