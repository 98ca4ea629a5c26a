/** Every interleaving of the concurrent group, followed by the serial group,
    against running the batch in declared order. */
module BatchInterleaving {
  import opened Options
  import opened BatchTools
  import opened BatchSchedule

  // ----- the concurrent group -----

  /** `ToolExecutor.execute` in its three sections: checks and the before-snapshot
      under the lock, the tool itself without it, the after-snapshot under it. */
  datatype Task =
    | Waiting
    | Prepared(before: Option<string>)
    | Ran(before: Option<string>, view: View)
    | Done(result: Result)

  datatype Group = Group(ws: Workspace, tasks: seq<Task>)

  /** The before-snapshot of a call that names a file to change. */
  function Own(t: Tool, w: Workspace): Option<string> {
    if Edits(t) then Lookup(w, t.path) else None
  }

  /** `validate_tool` fails: no such file, or a patch that does not apply. */
  predicate Rejected(t: Tool, w: Workspace) {
    || (t.ReadFile? && t.path !in w)
    || (t.PatchFile? && t.path != "" && (t.path !in w || !OccursOnce(w[t.path], t.oldText)))
  }

  /** One section of the i-th call; a finished or serial call does nothing. */
  function Advance(calls: seq<Call>, g: Group, i: nat): Group
    requires |g.tasks| == |calls|
  {
    if i >= |calls| || !Joins(calls, i) then g
    else
      var c := calls[i];
      match g.tasks[i]
      case Waiting =>
        var next := if !c.runs then Done(Result(Refusal, {}))
                    else if Rejected(c.tool, g.ws) then Done(Result(ViewOf(c.tool, g.ws), {}))
                    else Prepared(Own(c.tool, g.ws));
        Group(g.ws, g.tasks[i := next])
      case Prepared(before) =>
        var ws := if Edits(c.tool) then Store(g.ws, c.tool.path, Effect(c.tool, Lookup(g.ws, c.tool.path))) else g.ws;
        Group(ws, g.tasks[i := Ran(before, ViewOf(c.tool, g.ws))])
      case Ran(before, view) =>
        var affected := if Edits(c.tool) then ChangedAt(c.tool.path, before, Lookup(g.ws, c.tool.path)) else {};
        Group(g.ws, g.tasks[i := Done(Result(view, affected))])
      case Done(_) => g
  }

  /** The schedule names, step by step, the call that moves next. */
  function Interleaved(calls: seq<Call>, w: Workspace, schedule: seq<nat>): (g: Group)
    ensures |g.tasks| == |calls|
  {
    if schedule == [] then Group(w, seq(|calls|, i => Waiting))
    else Advance(calls, Interleaved(calls, w, schedule[..|schedule| - 1]), schedule[|schedule| - 1])
  }

  predicate Finished(calls: seq<Call>, g: Group)
    requires |g.tasks| == |calls|
  {
    forall i :: 0 <= i < |calls| && Joins(calls, i) ==> g.tasks[i].Done?
  }

  /** No call of the group changes this file. */
  predicate Unraced(calls: seq<Call>, path: string) {
    forall j :: 0 <= j < |calls| && Races(calls, j) ==> calls[j].tool.path != path
  }

  predicate Acted(t: Task) { t.Ran? || t.Done? }

  /** A call has seen and done exactly what it would have alone on w. */
  predicate AsAlone(c: Call, w: Workspace, t: Task) {
    match t
    case Waiting => true
    case Prepared(before) => c.runs && before == Own(c.tool, w) && !Rejected(c.tool, w)
    case Ran(before, view) => c.runs && before == Own(c.tool, w) && view == ViewOf(c.tool, w)
    case Done(result) => result == Outcome((command, ws) => ws, c, w)
  }

  /** What every step of every interleaving keeps. */
  ghost predicate Steady(calls: seq<Call>, w: Workspace, g: Group) {
    && |g.tasks| == |calls|
    && (forall j :: 0 <= j < |calls| && Races(calls, j) ==>
          Lookup(g.ws, calls[j].tool.path) ==
          var was := Lookup(w, calls[j].tool.path); if Acted(g.tasks[j]) then Effect(calls[j].tool, was) else was)
    && (forall p :: Unraced(calls, p) ==> Lookup(g.ws, p) == Lookup(w, p))
    && (forall i :: 0 <= i < |calls| && Joins(calls, i) && !calls[i].tool.Other? ==> AsAlone(calls[i], w, g.tasks[i]))
  }

  lemma {:induction false} SameLookups(a: Workspace, b: Workspace)
    requires forall p :: Lookup(a, p) == Lookup(b, p)
    ensures a == b
  {
    forall p ensures p in a <==> p in b { assert Lookup(a, p) == Lookup(b, p); }
    forall p | p in a ensures a[p] == b[p] { assert Lookup(a, p) == Lookup(b, p); }
  }

  lemma {:induction false} LookupStored(w: Workspace, path: string, content: Option<string>, p: string)
    ensures Lookup(Store(w, path, content), p) == if p == path then content else Lookup(w, p)
  {
  }

  lemma {:induction false} ListingSeesNoRace(calls: seq<Call>, w: Workspace, g: Group, i: nat)
    requires Steady(calls, w, g) && i < |calls| && Joins(calls, i) && Lists(calls[i].tool)
    ensures g.ws == w
  {
    hide Joins, Effect, AsAlone;
    forall j | 0 <= j < |calls| && Races(calls, j) ensures false { GroupIsConflictFree(calls, i, j); }
    forall p ensures Lookup(g.ws, p) == Lookup(w, p) { assert Unraced(calls, p); }
    SameLookups(g.ws, w);
  }

  lemma {:induction false} OwnFileSteady(calls: seq<Call>, w: Workspace, g: Group, i: nat)
    requires Steady(calls, w, g) && i < |calls| && Joins(calls, i) && calls[i].runs
    requires calls[i].tool.ReadFile? || Edits(calls[i].tool)
    ensures Lookup(g.ws, calls[i].tool.path) ==
            var was := Lookup(w, calls[i].tool.path);
            if calls[i].tool.ReadFile? || !Acted(g.tasks[i]) then was else Effect(calls[i].tool, was)
  {
    hide Joins, Effect, AsAlone;
    if calls[i].tool.ReadFile? {
      forall j | 0 <= j < |calls| && Races(calls, j) ensures calls[j].tool.path != calls[i].tool.path {
        GroupIsConflictFree(calls, i, j);
      }
      assert Unraced(calls, calls[i].tool.path);
    } else {
      assert Races(calls, i);
    }
  }

  /** Before it acts, a call of the group sees what it would see alone. */
  lemma {:induction false} SeesAlone(calls: seq<Call>, w: Workspace, g: Group, i: nat)
    requires Steady(calls, w, g) && i < |calls| && Joins(calls, i) && calls[i].runs && !calls[i].tool.Other?
    requires !Acted(g.tasks[i])
    ensures ViewOf(calls[i].tool, g.ws) == ViewOf(calls[i].tool, w) && Own(calls[i].tool, g.ws) == Own(calls[i].tool, w)
    ensures Rejected(calls[i].tool, g.ws) == Rejected(calls[i].tool, w)
  {
    hide OccursOnce, Steady, Effect;
    var t := calls[i].tool;
    if Lists(t) {
      ListingSeesNoRace(calls, w, g, i);
    } else {
      OwnFileSteady(calls, w, g, i);
    }
  }

  lemma {:induction false} RejectedOutcome(c: Call, w: Workspace)
    requires c.runs && Rejected(c.tool, w)
    ensures Outcome((command, ws) => ws, c, w) == Result(ViewOf(c.tool, w), {})
    ensures Edits(c.tool) ==> Effect(c.tool, Lookup(w, c.tool.path)) == Lookup(w, c.tool.path)
  {
    hide OccursOnce;
  }

  /** Every step of every interleaving keeps the invariant. */
  lemma {:induction false} StepKeepsSteady(calls: seq<Call>, w: Workspace, g: Group, i: nat)
    requires Steady(calls, w, g)
    ensures Steady(calls, w, Advance(calls, g, i))
  {
    if i < |calls| && Joins(calls, i) {
      match g.tasks[i]
      case Waiting => PrepareKeepsSteady(calls, w, g, i);
      case Prepared(_) => RunKeepsSteady(calls, w, g, i);
      case Ran(_, _) => FinishKeepsSteady(calls, w, g, i);
      case Done(_) =>
    }
  }

  lemma {:induction false} PrepareKeepsSteady(calls: seq<Call>, w: Workspace, g: Group, i: nat)
    requires Steady(calls, w, g) && i < |calls| && Joins(calls, i) && g.tasks[i].Waiting?
    ensures Steady(calls, w, Advance(calls, g, i))
  {
    hide Joins, Effect, OccursOnce, ViewOf, Outcome, Rejected, Own;
    var c := calls[i];
    if c.runs {
      if c.tool.Other? {
        assert !Edits(c.tool);
      } else {
        SeesAlone(calls, w, g, i);
        if Rejected(c.tool, w) { RejectedOutcome(c, w); }
      }
    } else {
      assert Outcome((command, ws) => ws, c, w) == Result(Refusal, {}) by { RefusedOutcome(c, w); }
    }
  }

  lemma {:induction false} RefusedOutcome(c: Call, w: Workspace)
    requires !c.runs
    ensures Outcome((command, ws) => ws, c, w) == Result(Refusal, {})
  {
  }

  lemma {:induction false} RunKeepsSteady(calls: seq<Call>, w: Workspace, g: Group, i: nat)
    requires Steady(calls, w, g) && i < |calls| && Joins(calls, i) && g.tasks[i].Prepared?
    ensures Steady(calls, w, Advance(calls, g, i))
  {
    hide Joins, Effect, OccursOnce, ViewOf, Outcome, Rejected, Own, Lookup, Store;
    var t := calls[i].tool;
    var next := Advance(calls, g, i);
    if Edits(t) {
      assert calls[i].runs && Races(calls, i);
      OwnFileSteady(calls, w, g, i);
      forall p ensures Lookup(next.ws, p) == if p == t.path then Effect(t, Lookup(w, t.path)) else Lookup(g.ws, p) {
        LookupStored(g.ws, t.path, Effect(t, Lookup(g.ws, t.path)), p);
      }
      forall j | 0 <= j < |calls| && Races(calls, j) && j != i ensures calls[j].tool.path != t.path {
        GroupIsConflictFree(calls, i, j);
      }
      forall p | Unraced(calls, p) ensures p != t.path { }
    }
    if calls[i].runs && !t.Other? { SeesAlone(calls, w, g, i); }
  }

  lemma {:induction false} FinishKeepsSteady(calls: seq<Call>, w: Workspace, g: Group, i: nat)
    requires Steady(calls, w, g) && i < |calls| && Joins(calls, i) && g.tasks[i].Ran?
    ensures Steady(calls, w, Advance(calls, g, i))
  {
    hide Joins, Effect, OccursOnce, ViewOf, Rejected, Lookup;
    var c := calls[i];
    if Edits(c.tool) {
      assert Races(calls, i);
    }
    if !c.tool.Other? {
      NoShellJoins(calls, i);
    }
  }

  lemma {:induction false} NoShellJoins(calls: seq<Call>, i: nat)
    requires i < |calls| && Joins(calls, i)
    ensures !calls[i].tool.RunShell?
  {
  }

  lemma {:induction false} StartIsSteady(calls: seq<Call>, w: Workspace)
    ensures Steady(calls, w, Interleaved(calls, w, []))
  {
    hide Joins, Effect;
  }

  lemma {:induction false} InterleavingKeepsSteady(calls: seq<Call>, w: Workspace, schedule: seq<nat>)
    ensures Steady(calls, w, Interleaved(calls, w, schedule))
    decreases |schedule|
  {
    hide Steady, Advance;
    if schedule == [] {
      StartIsSteady(calls, w);
    } else {
      InterleavingKeepsSteady(calls, w, schedule[..|schedule| - 1]);
      StepKeepsSteady(calls, w, Interleaved(calls, w, schedule[..|schedule| - 1]), schedule[|schedule| - 1]);
    }
  }
}
