/** A batch run as pico/agent_loop.py runs it ends where declared order ends, and
    every read, write and shell command observes the same. */
module BatchSerialisability {
  import opened Options
  import opened BatchTools
  import opened BatchSchedule
  import opened BatchInterleaving

  /** The workspace after the serial calls among the first i, from w on. */
  function Serially(shell: (string, Workspace) -> Workspace, calls: seq<Call>, w: Workspace, i: nat): Workspace
    requires i <= |calls|
  {
    if i == 0 then w
    else if Joins(calls, i - 1) then Serially(shell, calls, w, i - 1)
    else After(shell, calls[i - 1], Serially(shell, calls, w, i - 1))
  }

  /** The result of the i-th call when the batch runs as scheduled. */
  function Scheduled(shell: (string, Workspace) -> Workspace, calls: seq<Call>, w: Workspace, schedule: seq<nat>,
      i: nat): Result
    requires i < |calls| && Finished(calls, Interleaved(calls, w, schedule))
  {
    var g := Interleaved(calls, w, schedule);
    if Joins(calls, i) then g.tasks[i].result
    else Outcome(shell, calls[i], Serially(shell, calls, g.ws, i))
  }

  /** The result of the i-th call when the batch runs in declared order. */
  function InOrder(shell: (string, Workspace) -> Workspace, calls: seq<Call>, w: Workspace, i: nat): Result
    requires i < |calls|
  {
    Outcome(shell, calls[i], Declared(shell, calls, w, i))
  }

  /** No call of the group from the i-th on changes this file. */
  predicate Settled(calls: seq<Call>, i: nat, path: string) {
    forall j :: i <= j < |calls| && Races(calls, j) ==> calls[j].tool.path != path
  }

  /** The two runs side by side: the scheduled one is ahead by exactly the effects
      of the concurrent writes that declared order has not reached. */
  ghost predicate Ahead(calls: seq<Call>, i: nat, declared: Workspace, scheduled: Workspace) {
    && (forall j :: i <= j < |calls| && Races(calls, j) ==>
          Lookup(scheduled, calls[j].tool.path) == Effect(calls[j].tool, Lookup(declared, calls[j].tool.path)))
    && (forall p :: Settled(calls, i, p) ==> Lookup(scheduled, p) == Lookup(declared, p))
  }

  lemma {:induction false} GroupIsAhead(calls: seq<Call>, w: Workspace, schedule: seq<nat>)
    requires Finished(calls, Interleaved(calls, w, schedule))
    ensures Ahead(calls, 0, w, Interleaved(calls, w, schedule).ws)
  {
    hide Effect, AsAlone, Advance, Interleaved, Lookup;
    InterleavingKeepsSteady(calls, w, schedule);
    forall p | Settled(calls, 0, p) ensures Unraced(calls, p) { }
  }

  lemma {:induction false} AheadAtRace(shell: (string, Workspace) -> Workspace, calls: seq<Call>, i: nat,
      d: Workspace, t: Workspace)
    requires i < |calls| && Ahead(calls, i, d, t) && Races(calls, i)
    ensures Ahead(calls, i + 1, After(shell, calls[i], d), t)
  {
    hide Joins, Effect, Lookup, Store;
    var tool := calls[i].tool;
    var next := After(shell, calls[i], d);
    forall p ensures Lookup(next, p) == if p == tool.path then Effect(tool, Lookup(d, tool.path)) else Lookup(d, p) {
      LookupStored(d, tool.path, Effect(tool, Lookup(d, tool.path)), p);
    }
    forall j | i < j < |calls| && Races(calls, j) ensures calls[j].tool.path != tool.path {
      GroupIsConflictFree(calls, i, j);
    }
    forall p | Settled(calls, i + 1, p) && p != tool.path ensures Settled(calls, i, p) { }
  }

  lemma {:induction false} AheadAtQuietCall(shell: (string, Workspace) -> Workspace, calls: seq<Call>, i: nat,
      d: Workspace, t: Workspace)
    requires i < |calls| && Ahead(calls, i, d, t) && !Races(calls, i)
    ensures Ahead(calls, i + 1, d, t)
  {
    hide Races, Effect, Lookup;
    forall p | Settled(calls, i + 1, p) ensures Settled(calls, i, p) { }
  }

  lemma {:induction false} AllSettled(calls: seq<Call>, i: nat, d: Workspace, t: Workspace)
    requires Ahead(calls, i, d, t) && forall j :: i <= j < |calls| ==> !Races(calls, j)
    ensures d == t
  {
    hide Races, Lookup;
    forall p ensures Lookup(d, p) == Lookup(t, p) { assert Settled(calls, i, p); }
    SameLookups(d, t);
  }

  lemma {:induction false} AheadAtSerialEdit(shell: (string, Workspace) -> Workspace, calls: seq<Call>, i: nat,
      d: Workspace, t: Workspace)
    requires i < |calls| && Ahead(calls, i, d, t) && !Joins(calls, i) && Edits(calls[i].tool) && calls[i].runs
    ensures Lookup(d, calls[i].tool.path) == Lookup(t, calls[i].tool.path)
    ensures Ahead(calls, i + 1, After(shell, calls[i], d), After(shell, calls[i], t))
  {
    hide Joins, Effect, Lookup, Store;
    var tool := calls[i].tool;
    assert !Races(calls, i);
    forall j | i <= j < |calls| && Races(calls, j) ensures calls[j].tool.path != tool.path {
      SerialComesLast(calls, i, j);
    }
    assert Settled(calls, i, tool.path);
    var d', t' := After(shell, calls[i], d), After(shell, calls[i], t);
    forall p
      ensures Lookup(d', p) == if p == tool.path then Effect(tool, Lookup(d, tool.path)) else Lookup(d, p)
      ensures Lookup(t', p) == if p == tool.path then Effect(tool, Lookup(d, tool.path)) else Lookup(t, p)
    {
      LookupStored(d, tool.path, Effect(tool, Lookup(d, tool.path)), p);
      LookupStored(t, tool.path, Effect(tool, Lookup(t, tool.path)), p);
    }
    forall p | Settled(calls, i + 1, p) ensures Settled(calls, i, p) { }
  }

  /** The simulation step: one call of the batch in either run. */
  lemma {:induction false} StepStaysAhead(shell: (string, Workspace) -> Workspace, calls: seq<Call>, i: nat,
      d: Workspace, t: Workspace)
    requires i < |calls| && Ahead(calls, i, d, t)
    ensures Ahead(calls, i + 1, After(shell, calls[i], d), if Joins(calls, i) then t else After(shell, calls[i], t))
  {
    hide Joins, Ahead, Store, Effect;
    var c := calls[i];
    if Races(calls, i) {
      AheadAtRace(shell, calls, i, d, t);
    } else if Joins(calls, i) {
      NoShellJoins(calls, i);
      AheadAtQuietCall(shell, calls, i, d, t);
    } else if c.runs && Edits(c.tool) {
      AheadAtSerialEdit(shell, calls, i, d, t);
    } else {
      AheadAtQuietCall(shell, calls, i, d, t);
      if c.tool.RunShell? {
        ShellSeesAll(calls, i, d, t);
        assert After(shell, c, d) == After(shell, c, t);
        NothingRacesAfterShell(calls, i);
        AheadOfItself(calls, i + 1, After(shell, c, d));
      }
    }
  }

  lemma {:induction false} NothingRacesAfterShell(calls: seq<Call>, i: nat)
    requires i < |calls| && calls[i].tool.RunShell?
    ensures forall j :: i <= j < |calls| ==> !Races(calls, j)
  {
    forall j | i <= j < |calls| ensures !Races(calls, j) {
      if i < j && Races(calls, j) { NothingTouchedBefore(calls, i, j); }
    }
  }

  lemma {:induction false} ShellSeesAll(calls: seq<Call>, i: nat, d: Workspace, t: Workspace)
    requires i < |calls| && calls[i].tool.RunShell? && Ahead(calls, i, d, t)
    ensures d == t
  {
    hide Races, Ahead;
    NothingRacesAfterShell(calls, i);
    AllSettled(calls, i, d, t);
  }

  lemma {:induction false} AheadOfItself(calls: seq<Call>, i: nat, w: Workspace)
    requires forall j :: i <= j < |calls| ==> !Races(calls, j)
    ensures Ahead(calls, i, w, w)
  {
    hide Races, Lookup;
  }

  lemma {:induction false} RunsStayAhead(shell: (string, Workspace) -> Workspace, calls: seq<Call>, w: Workspace,
      schedule: seq<nat>, i: nat)
    requires i <= |calls| && Finished(calls, Interleaved(calls, w, schedule))
    ensures Ahead(calls, i, Declared(shell, calls, w, i), Serially(shell, calls, Interleaved(calls, w, schedule).ws, i))
  {
    hide Ahead, After, Interleaved, Joins, Finished;
    if i == 0 {
      GroupIsAhead(calls, w, schedule);
    } else {
      RunsStayAhead(shell, calls, w, schedule, i - 1);
      StepStaysAhead(shell, calls, i - 1, Declared(shell, calls, w, i - 1),
          Serially(shell, calls, Interleaved(calls, w, schedule).ws, i - 1));
    }
  }

  // ----- what the calls observe -----

  lemma {:induction false} SerialObserves(shell: (string, Workspace) -> Workspace, calls: seq<Call>, i: nat,
      d: Workspace, t: Workspace)
    requires i < |calls| && Ahead(calls, i, d, t) && !Joins(calls, i)
    requires !Lists(calls[i].tool) && !calls[i].tool.Other?
    ensures Outcome(shell, calls[i], t) == Outcome(shell, calls[i], d)
  {
    hide Joins, Effect;
    var c := calls[i];
    if c.runs {
      if c.tool.RunShell? {
        ShellSeesAll(calls, i, d, t);
      } else if Edits(c.tool) {
        AheadAtSerialEdit(shell, calls, i, d, t);
      } else if c.tool.ReadFile? {
        forall j | i <= j < |calls| && Races(calls, j) ensures calls[j].tool.path != c.tool.path {
          SerialComesLast(calls, i, j);
        }
        assert Settled(calls, i, c.tool.path);
      } else {
        PathlessObserves(calls, i, d, t);
      }
    }
  }

  lemma {:induction false} PathlessObserves(calls: seq<Call>, i: nat, d: Workspace, t: Workspace)
    requires i < |calls| && Ahead(calls, i, d, t) && Writes(calls[i].tool) && !calls[i].tool.RunShell? &&
             calls[i].tool.path == ""
    ensures d == t
  {
    hide Effect;
    forall j | i <= j < |calls| ensures !Races(calls, j) {
      if i < j && Races(calls, j) { NothingTouchedBefore(calls, i, j); }
    }
    AllSettled(calls, i, d, t);
  }

  /** A file nobody before the i-th call wrote is still as it was. */
  lemma {:induction false} DeclaredUntouched(shell: (string, Workspace) -> Workspace, calls: seq<Call>, w: Workspace,
      i: nat, path: string)
    requires i <= |calls| && !ShellBefore(calls, i)
    requires forall j :: 0 <= j < i && Edits(calls[j].tool) ==> calls[j].tool.path != path
    ensures Lookup(Declared(shell, calls, w, i), path) == Lookup(w, path)
  {
    hide Effect, Store, Lookup;
    if i > 0 {
      OneMoreWrite(calls, i - 1);
      DeclaredUntouched(shell, calls, w, i - 1, path);
      var before := Declared(shell, calls, w, i - 1);
      var t := calls[i - 1].tool;
      if Edits(t) { LookupStored(before, t.path, Effect(t, Lookup(before, t.path)), path); }
    }
  }

  lemma {:induction false} JoinsUntouched(calls: seq<Call>, i: nat, j: nat)
    requires j < i < |calls| && Joins(calls, i) && !calls[i].tool.Other?
    ensures !calls[j].tool.RunShell?
    ensures Edits(calls[j].tool) ==> !Lists(calls[i].tool) && calls[j].tool.path != calls[i].tool.path
  {
    if Edits(calls[j].tool) && calls[i].tool.ReadFile? {
      assert Dirties(calls[j].tool, calls[j].tool.path);
    }
    if Edits(calls[i].tool) {
      NothingTouchedBefore(calls, j, i);
    }
  }

  lemma {:induction false} NoShellBeforeJoin(calls: seq<Call>, i: nat)
    requires i < |calls| && Joins(calls, i) && !calls[i].tool.Other?
    ensures !ShellBefore(calls, i)
  {
    forall j | 0 <= j < i ensures !calls[j].tool.RunShell? { JoinsUntouched(calls, i, j); }
  }

  /** Declared order shows a call of the group exactly the starting workspace. */
  lemma {:induction false} DeclaredIsAlone(shell: (string, Workspace) -> Workspace, calls: seq<Call>, w: Workspace,
      i: nat)
    requires i < |calls| && Joins(calls, i) && !calls[i].tool.Other?
    ensures Outcome(shell, calls[i], Declared(shell, calls, w, i)) == Outcome((command, ws) => ws, calls[i], w)
  {
    hide Joins, Declared, Effect;
    var t := calls[i].tool;
    NoShellJoins(calls, i);
    NoShellBeforeJoin(calls, i);
    forall j | 0 <= j < i && Edits(calls[j].tool) ensures !Lists(t) && calls[j].tool.path != t.path {
      JoinsUntouched(calls, i, j);
    }
    if Lists(t) {
      forall p ensures Lookup(Declared(shell, calls, w, i), p) == Lookup(w, p) {
        DeclaredUntouched(shell, calls, w, i, p);
      }
      SameLookups(Declared(shell, calls, w, i), w);
    } else {
      DeclaredUntouched(shell, calls, w, i, t.path);
    }
  }

  lemma {:induction false} GroupResult(calls: seq<Call>, w: Workspace, schedule: seq<nat>, i: nat)
    requires Finished(calls, Interleaved(calls, w, schedule)) && i < |calls| && Joins(calls, i) && !calls[i].tool.Other?
    ensures Interleaved(calls, w, schedule).tasks[i].result == Outcome((command, ws) => ws, calls[i], w)
  {
    hide Joins, Outcome, Interleaved, Effect;
    InterleavingKeepsSteady(calls, w, schedule);
  }

  // ----- the batch is serialisable -----

  /** For every batch, shell, starting workspace and interleaving of the group:
      the final workspace is that of declared order, and so are the view and the
      affected paths of every read, write, patch and shell command, and of every
      listing or search in the concurrent group. */
  lemma {:induction false} BatchIsSerialisable(shell: (string, Workspace) -> Workspace, calls: seq<Call>,
      w: Workspace, schedule: seq<nat>)
    requires Finished(calls, Interleaved(calls, w, schedule))
    ensures Serially(shell, calls, Interleaved(calls, w, schedule).ws, |calls|) == Declared(shell, calls, w, |calls|)
    ensures forall i :: 0 <= i < |calls| && !calls[i].tool.Other? && (Joins(calls, i) || !Lists(calls[i].tool)) ==>
              Scheduled(shell, calls, w, schedule, i) == InOrder(shell, calls, w, i)
  {
    hide Interleaved, Ahead, Declared, Serially, Outcome, Joins, Finished;
    RunsStayAhead(shell, calls, w, schedule, |calls|);
    AllSettled(calls, |calls|, Declared(shell, calls, w, |calls|),
        Serially(shell, calls, Interleaved(calls, w, schedule).ws, |calls|));
    forall i | 0 <= i < |calls| && !calls[i].tool.Other? && (Joins(calls, i) || !Lists(calls[i].tool))
      ensures Scheduled(shell, calls, w, schedule, i) == InOrder(shell, calls, w, i)
    {
      if Joins(calls, i) {
        GroupResult(calls, w, schedule, i);
        DeclaredIsAlone(shell, calls, w, i);
      } else {
        RunsStayAhead(shell, calls, w, schedule, i);
        SerialObserves(shell, calls, i, Declared(shell, calls, w, i),
            Serially(shell, calls, Interleaved(calls, w, schedule).ws, i));
      }
    }
  }

  // ----- listings and searches in the serial group -----

  lemma {:induction false} DeclaredAtRace(shell: (string, Workspace) -> Workspace, calls: seq<Call>, w: Workspace,
      i: nat, j: nat)
    requires i <= j < |calls| && Races(calls, j)
    ensures Lookup(Declared(shell, calls, w, i), calls[j].tool.path) == Lookup(w, calls[j].tool.path)
  {
    hide Joins, Declared;
    forall k | 0 <= k < i
      ensures !calls[k].tool.RunShell? && (Edits(calls[k].tool) ==> calls[k].tool.path != calls[j].tool.path)
    {
      NothingTouchedBefore(calls, k, j);
    }
    assert !ShellBefore(calls, i);
    DeclaredUntouched(shell, calls, w, i, calls[j].tool.path);
  }

  /** The j-th call would leave its file as it finds it at the start. */
  predicate Idle(calls: seq<Call>, w: Workspace, j: nat)
    requires j < |calls| && Edits(calls[j].tool)
  {
    Effect(calls[j].tool, Lookup(w, calls[j].tool.path)) == Lookup(w, calls[j].tool.path)
  }

  lemma {:induction false} EqualWhenIdle(shell: (string, Workspace) -> Workspace, calls: seq<Call>, w: Workspace,
      i: nat, t: Workspace)
    requires i <= |calls| && Ahead(calls, i, Declared(shell, calls, w, i), t)
    ensures t == Declared(shell, calls, w, i) <==> forall j :: i <= j < |calls| && Races(calls, j) ==> Idle(calls, w, j)
  {
    hide Joins, Effect, Lookup, Declared;
    var d := Declared(shell, calls, w, i);
    forall j | i <= j < |calls| && Races(calls, j)
      ensures Lookup(d, calls[j].tool.path) == Lookup(w, calls[j].tool.path)
    {
      DeclaredAtRace(shell, calls, w, i, j);
    }
    if forall j :: i <= j < |calls| && Races(calls, j) ==> Idle(calls, w, j) {
      forall p ensures Lookup(t, p) == Lookup(d, p) {
        if !Settled(calls, i, p) {
          var j :| i <= j < |calls| && Races(calls, j) && calls[j].tool.path == p;
          assert Idle(calls, w, j);
        }
      }
      SameLookups(t, d);
    }
  }

  /** A search in the serial group sees what declared order shows it if and only
      if no concurrent write declared after it changes its file. */
  lemma {:induction false} SerialSearchExactly(shell: (string, Workspace) -> Workspace, calls: seq<Call>,
      w: Workspace, schedule: seq<nat>, i: nat)
    requires Finished(calls, Interleaved(calls, w, schedule))
    requires i < |calls| && calls[i].tool.Search? && calls[i].runs && !Joins(calls, i)
    ensures Scheduled(shell, calls, w, schedule, i) == InOrder(shell, calls, w, i) <==>
            forall j :: i < j < |calls| && Races(calls, j) ==> Idle(calls, w, j)
  {
    hide Joins, Effect, Lookup, Declared, Interleaved, Serially, Ahead, Idle;
    RunsStayAhead(shell, calls, w, schedule, i);
    EqualWhenIdle(shell, calls, w, i, Serially(shell, calls, Interleaved(calls, w, schedule).ws, i));
    assert !Races(calls, i) by { OnlyEditsRace(calls, i); }
  }

  lemma {:induction false} OnlyEditsRace(calls: seq<Call>, i: nat)
    requires i < |calls| && !Edits(calls[i].tool)
    ensures !Races(calls, i)
  {
    hide Joins;
  }

  /** The j-th call would create its file. */
  predicate Creates(calls: seq<Call>, w: Workspace, j: nat)
    requires j < |calls| && Edits(calls[j].tool)
  {
    calls[j].tool.path !in w && Effect(calls[j].tool, None).Some?
  }

  lemma {:induction false} SameNames(a: Workspace, b: Workspace)
    ensures a.Keys == b.Keys <==> forall p :: Lookup(a, p).Some? == Lookup(b, p).Some?
  {
    if a.Keys == b.Keys {
      forall p ensures Lookup(a, p).Some? == Lookup(b, p).Some? { assert p in a.Keys <==> p in b.Keys; }
    } else if forall p :: Lookup(a, p).Some? == Lookup(b, p).Some? {
      forall p ensures p in a.Keys <==> p in b.Keys { assert Lookup(a, p).Some? == Lookup(b, p).Some?; }
    }
  }

  lemma {:induction false} EffectKeepsFile(t: Tool, before: Option<string>)
    ensures before.Some? ==> Effect(t, before).Some?
  {
    hide OccursOnce;
  }

  lemma {:induction false} NamesWhenNoneCreated(shell: (string, Workspace) -> Workspace, calls: seq<Call>,
      w: Workspace, i: nat, t: Workspace)
    requires i <= |calls| && Ahead(calls, i, Declared(shell, calls, w, i), t)
    ensures t.Keys == Declared(shell, calls, w, i).Keys <==>
            forall j :: i <= j < |calls| && Races(calls, j) ==> !Creates(calls, w, j)
  {
    hide Joins, Effect, Declared;
    var d := Declared(shell, calls, w, i);
    forall j | i <= j < |calls| && Races(calls, j)
      ensures Lookup(d, calls[j].tool.path) == Lookup(w, calls[j].tool.path)
      ensures Lookup(t, calls[j].tool.path).Some? == Lookup(d, calls[j].tool.path).Some? <==> !Creates(calls, w, j)
    {
      DeclaredAtRace(shell, calls, w, i, j);
      EffectKeepsFile(calls[j].tool, Lookup(w, calls[j].tool.path));
    }
    SameNames(t, d);
    if forall j :: i <= j < |calls| && Races(calls, j) ==> !Creates(calls, w, j) {
      forall p ensures Lookup(t, p).Some? == Lookup(d, p).Some? {
        if !Settled(calls, i, p) { var j :| i <= j < |calls| && Races(calls, j) && calls[j].tool.path == p; }
      }
    }
  }

  /** A listing in the serial group sees what declared order shows it if and only
      if no concurrent write declared after it creates a file. */
  lemma {:induction false} SerialListingExactly(shell: (string, Workspace) -> Workspace, calls: seq<Call>,
      w: Workspace, schedule: seq<nat>, i: nat)
    requires Finished(calls, Interleaved(calls, w, schedule))
    requires i < |calls| && calls[i].tool.ListFiles? && calls[i].runs && !Joins(calls, i)
    ensures Scheduled(shell, calls, w, schedule, i) == InOrder(shell, calls, w, i) <==>
            forall j :: i < j < |calls| && Races(calls, j) ==> !Creates(calls, w, j)
  {
    hide Joins, Effect, Lookup, Declared, Interleaved, Serially, Ahead, Creates;
    RunsStayAhead(shell, calls, w, schedule, i);
    NamesWhenNoneCreated(shell, calls, w, i, Serially(shell, calls, Interleaved(calls, w, schedule).ws, i));
    assert !Races(calls, i) by { OnlyEditsRace(calls, i); }
  }

  /** `write a; list; write b`: the serial listing leaves no mark, so the second
      write runs ahead of it and the listing shows a file declared later. */
  lemma {:induction false} ListingSeesLaterWrite(shell: (string, Workspace) -> Workspace, schedule: seq<nat>)
    requires var calls := [Call(WriteFile("a", "1"), true), Call(ListFiles(""), true), Call(WriteFile("b", "2"), true)];
             Finished(calls, Interleaved(calls, map[], schedule))
    ensures var calls := [Call(WriteFile("a", "1"), true), Call(ListFiles(""), true), Call(WriteFile("b", "2"), true)];
            && Joins(calls, 0) && !Joins(calls, 1) && Joins(calls, 2)
            && Scheduled(shell, calls, map[], schedule, 1) != InOrder(shell, calls, map[], 1)
  {
    hide Interleaved, Finished, Scheduled, InOrder;
    var calls := [Call(WriteFile("a", "1"), true), Call(ListFiles(""), true), Call(WriteFile("b", "2"), true)];
    assert Joins(calls, 0);
    assert Writes(calls[0].tool) && WriteBefore(calls, 1);
    assert !Touches(calls, 0, "b") && !Touches(calls, 0, "*") && !Touches(calls, 1, "b") && !Touches(calls, 1, "*");
    assert Races(calls, 2) && Creates(calls, map[], 2);
    SerialListingExactly(shell, calls, map[], schedule, 1);
  }
}
