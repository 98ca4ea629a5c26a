/** Tasks against updates in threadforge_worker/client.py and auto_update.py: the
    locked sections as methods, and every interleaving of the threads that use them. */
module WorkerLifecycle {
  /** Registered runs by task id; a number tells one ActiveRun object from another. */
  type Runs = map<string, nat>

  predicate MayUpdate(runs: Runs, updating: bool) {
    runs == map[] && !updating
  }

  /** The pop at the end of a task thread: only of its own ActiveRun object. */
  function Unregistered(runs: Runs, id: string, run: nat): Runs {
    if id in runs && runs[id] == run then runs - {id} else runs
  }

  // ----- every interleaving -----

  /** The threads: live task threads with their run, the auto-update loop, the
      message handler (announcing an update it has begun, or not), the manual
      updates it has started, and the updates whose announcement failed. */
  datatype System = System(
    runs: Runs,
    updating: bool,
    live: set<(string, nat)>,
    autoHolds: bool,
    announcing: bool,
    manual: nat,
    abandoned: nat,
    next: nat)

  const START := System(map[], false, {}, false, false, 0, 0, 0)

  datatype Step =
    | TaskArrives(id: string)
    | TaskEnds(id: string, run: nat)
    | AutoBegins
    | AutoEnds
    | UpdateRequested
    | Announced(sent: bool)
    | ManualEnds

  /** One atomic step; one that is not enabled changes nothing. */
  function Take(s: System, step: Step): System {
    match step
    case TaskArrives(id) =>
      if s.announcing then s
      else if s.updating then s
      else s.(runs := s.runs[id := s.next], live := s.live + {(id, s.next)}, next := s.next + 1)
    case TaskEnds(id, run) =>
      if (id, run) !in s.live then s
      else s.(runs := Unregistered(s.runs, id, run), live := s.live - {(id, run)})
    case AutoBegins =>
      if !s.autoHolds && MayUpdate(s.runs, s.updating) then s.(updating := true, autoHolds := true) else s
    case AutoEnds => if s.autoHolds then s.(updating := false, autoHolds := false) else s
    case UpdateRequested =>
      if !s.announcing && MayUpdate(s.runs, s.updating) then s.(updating := true, announcing := true) else s
    case Announced(sent) =>
      if !s.announcing then s
      else if sent then s.(announcing := false, manual := s.manual + 1)
      else s.(announcing := false, abandoned := s.abandoned + 1)
    case ManualEnds => if s.manual > 0 then s.(updating := false, manual := s.manual - 1) else s
  }

  /** The system after the steps, in order. */
  function From(s: System, steps: seq<Step>): System {
    if steps == [] then s else Take(From(s, steps[..|steps| - 1]), steps[|steps| - 1])
  }

  function Run(steps: seq<Step>): System {
    From(START, steps)
  }

  function One(b: bool): nat { if b then 1 else 0 }

  /** Who is inside the update section. */
  function Holders(s: System): nat {
    One(s.autoHolds) + One(s.announcing) + s.manual + s.abandoned
  }

  ghost predicate Safe(s: System) {
    && (s.updating ==> s.runs == map[])
    && Holders(s) == One(s.updating)
    && (forall id :: id in s.runs ==> (id, s.runs[id]) in s.live)
    && (forall t :: t in s.live ==> t.1 < s.next)
  }

  lemma {:induction false} StepKeepsSafe(s: System, step: Step)
    requires Safe(s)
    ensures Safe(Take(s, step))
  {
    match step
    case TaskEnds(id, run) =>
      if (id, run) in s.live && s.updating { assert Unregistered(s.runs, id, run) == map[]; }
    case _ =>
  }

  lemma {:induction false} StepsKeepSafe(s: System, steps: seq<Step>)
    requires Safe(s)
    ensures Safe(From(s, steps))
  {
    hide Safe, Take;
    if steps != [] {
      StepsKeepSafe(s, steps[..|steps| - 1]);
      StepKeepsSafe(From(s, steps[..|steps| - 1]), steps[|steps| - 1]);
    }
  }

  /** In every interleaving: while the update section is held no task is
      registered, and exactly one thread holds it, so only its holder leaves it. */
  lemma {:induction false} UpdatesExcludeTasks(steps: seq<Step>)
    ensures Safe(Run(steps))
  {
    hide Safe, Take;
    StartIsSafe();
    StepsKeepSafe(START, steps);
  }

  lemma {:induction false} StartIsSafe()
    ensures Safe(START)
  {
  }

  /** The section changes hands only by its holder's own step. */
  lemma {:induction false} OnlyTheHolderReleases(steps: seq<Step>, step: Step)
    requires Run(steps).updating && !Take(Run(steps), step).updating
    ensures step == AutoEnds || step == ManualEnds
    ensures step == AutoEnds ==> Run(steps).autoHolds && Run(steps).manual == 0 && !Run(steps).announcing
    ensures step == ManualEnds ==> !Run(steps).autoHolds && Run(steps).manual == 1 && !Run(steps).announcing
  {
    hide Run;
    UpdatesExcludeTasks(steps);
  }

  // ----- running threads, not only registered tasks -----

  /** From s on, no task arrives while a thread with its id is still alive. */
  ghost predicate DistinctArrivals(s: System, steps: seq<Step>) {
    forall i :: 0 <= i < |steps| && steps[i].TaskArrives? ==>
      forall t :: t in From(s, steps[..i]).live ==> t.0 != steps[i].id
  }

  /** Every live thread is the registered one of its id. */
  ghost predicate AllRegistered(s: System) {
    forall t :: t in s.live ==> t.0 in s.runs && s.runs[t.0] == t.1
  }

  lemma {:induction false} StepKeepsRegistered(s: System, step: Step)
    requires Safe(s) && AllRegistered(s)
    requires step.TaskArrives? ==> forall t :: t in s.live ==> t.0 != step.id
    ensures AllRegistered(Take(s, step))
  {
  }

  lemma {:induction false} DistinctStayRegistered(s: System, steps: seq<Step>)
    requires Safe(s) && AllRegistered(s) && DistinctArrivals(s, steps)
    ensures AllRegistered(From(s, steps))
  {
    hide Safe, Take, AllRegistered;
    if steps != [] {
      var init := steps[..|steps| - 1];
      forall i | 0 <= i < |init| ensures init[i] == steps[i] && init[..i] == steps[..i] { }
      DistinctStayRegistered(s, init);
      StepsKeepSafe(s, init);
      StepKeepsRegistered(From(s, init), steps[|steps| - 1]);
    }
  }

  lemma {:induction false} StartIsRegistered()
    ensures AllRegistered(START)
  {
  }

  lemma {:induction false} NoneLive(s: System)
    requires AllRegistered(s) && s.runs == map[]
    ensures s.live == {}
  {
    assert forall t :: t in s.live ==> t.0 in s.runs;
    assert forall t :: t !in s.live;
  }

  /** An update that runs beside a live task thread. */
  predicate Overlaps(s: System) {
    s.updating && s.live != {}
  }

  ghost predicate CanOverlap(s: System) {
    exists more :: DistinctArrivals(s, more) && Overlaps(From(s, more))
  }

  lemma {:induction false} FirstStep(s: System, step: Step, more: seq<Step>)
    ensures From(s, [step] + more) == From(Take(s, step), more)
    decreases |more|
  {
    if more == [] {
      assert [step] + more == [step] && [step][..0] == [];
    } else {
      var init := more[..|more| - 1];
      FirstStep(s, step, init);
      assert ([step] + more)[..|more|] == [step] + init;
    }
  }

  /** A step that is no arrival leaves the arrivals that follow distinct. */
  lemma {:induction false} OneMoreStep(s: System, step: Step, more: seq<Step>)
    requires !step.TaskArrives? && DistinctArrivals(Take(s, step), more)
    ensures DistinctArrivals(s, [step] + more)
  {
    hide Take, From;
    var all := [step] + more;
    forall i | 0 <= i < |all| && all[i].TaskArrives?
      ensures forall t :: t in From(s, all[..i]).live ==> t.0 != all[i].id
    {
      assert all[..i] == [step] + more[..i - 1];
      FirstStep(s, step, more[..i - 1]);
      assert more[i - 1].TaskArrives?;
    }
  }

  lemma {:induction false} OverlapAfter(s: System, step: Step)
    requires !step.TaskArrives? && CanOverlap(Take(s, step))
    ensures CanOverlap(s)
  {
    hide Take, From, DistinctArrivals, Overlaps;
    var more :| DistinctArrivals(Take(s, step), more) && Overlaps(From(Take(s, step), more));
    OneMoreStep(s, step, more);
    FirstStep(s, step, more);
  }

  lemma {:induction false} OverlapNow(s: System)
    requires Overlaps(s)
    ensures CanOverlap(s)
  {
    assert DistinctArrivals(s, []) && From(s, []) == s;
  }

  /** The registered threads end one by one; the unregistered one stays. */
  lemma {:induction false} UnregisteredOverlaps(s: System)
    requires Safe(s) && !AllRegistered(s)
    ensures CanOverlap(s)
    decreases |s.runs|
  {
    hide From, DistinctArrivals, CanOverlap;
    if s.updating {
      OverlapNow(s);
    } else if s.runs == map[] {
      OverlapNow(Take(s, AutoBegins));
      OverlapAfter(s, AutoBegins);
    } else {
      var id :| id in s.runs;
      var step := TaskEnds(id, s.runs[id]);
      var t :| t in s.live && !(t.0 in s.runs && s.runs[t.0] == t.1);
      assert t in Take(s, step).live;
      assert Take(s, step).runs == s.runs - {id};
      SmallerMap(s.runs, id);
      StepKeepsSafe(s, step);
      UnregisteredOverlaps(Take(s, step));
      OverlapAfter(s, step);
    }
  }

  lemma {:induction false} SmallerMap(m: Runs, id: string)
    requires id in m
    ensures |m - {id}| < |m|
  {
    assert (m - {id}).Keys == m.Keys - {id};
    assert |(m - {id}).Keys| < |m.Keys|;
  }

  lemma {:induction false} RegisteredNeverOverlap(s: System, more: seq<Step>)
    requires Safe(s) && AllRegistered(s) && DistinctArrivals(s, more)
    ensures !Overlaps(From(s, more))
  {
    hide From, DistinctArrivals;
    DistinctStayRegistered(s, more);
    StepsKeepSafe(s, more);
    if From(s, more).updating { NoneLive(From(s, more)); }
  }

  /** From a reached state an update can come to run beside a live task thread, with
      no id ever arriving twice at a time, exactly when some live thread is not the
      registered one of its id. */
  lemma {:induction false} UpdateOverlapsExactly(steps: seq<Step>)
    ensures CanOverlap(Run(steps)) <==> !AllRegistered(Run(steps))
  {
    hide Run, From, DistinctArrivals, Safe, AllRegistered, Overlaps;
    var s := Run(steps);
    UpdatesExcludeTasks(steps);
    if AllRegistered(s) {
      forall more | DistinctArrivals(s, more) ensures !Overlaps(From(s, more)) {
        RegisteredNeverOverlap(s, more);
      }
    } else {
      UnregisteredOverlaps(s);
    }
  }

  /** So with distinct live ids no update ever runs beside a task. */
  lemma {:induction false} DistinctIdsNeverOverlap(steps: seq<Step>)
    requires DistinctArrivals(START, steps)
    ensures !Overlaps(Run(steps))
  {
    hide From, DistinctArrivals, Safe, AllRegistered, Overlaps;
    StartIsSafe();
    StartIsRegistered();
    RegisteredNeverOverlap(START, steps);
  }

  /** Two tasks with one id: the second replaces the first in the table, its end
      empties the table, and an update begins beside the first one's thread. */
  lemma {:induction false} SameIdTwiceOverlaps()
    ensures var s := Run([TaskArrives("t"), TaskArrives("t"), TaskEnds("t", 1), AutoBegins]);
            s.updating && ("t", 0) in s.live
  {
    var a, b, c, d := TaskArrives("t"), TaskArrives("t"), TaskEnds("t", 1), AutoBegins;
    assert [a, b, c, d][..3] == [a, b, c] && [a, b, c][..2] == [a, b] && [a, b][..1] == [a] && [a][..0] == [];
    assert From(START, [a][..0]) == START && From(START, [a]) == Take(START, a);
    var s := Run([a, b]);
    assert s.runs["t" := 1] - {"t"} == map[];
    assert Run([a, b, c]).runs == map[];
  }

  // ----- an announcement that fails -----

  /** Nobody who is still alive will ever leave the section. */
  predicate Stuck(s: System) {
    s.updating && !s.autoHolds && !s.announcing && s.manual == 0
  }

  lemma {:induction false} StuckStays(s: System, steps: seq<Step>, k: nat)
    requires Safe(s) && s.abandoned > 0 && k <= |steps|
    ensures var t := From(s, steps[..k]);
            Safe(t) && t.abandoned > 0 && t.updating && t.runs == map[]
    decreases k
  {
    hide Safe, Take;
    if k == 0 {
      assert s.updating && s.runs == map[] by { AbandonedHolds(s); }
    } else {
      StuckStays(s, steps, k - 1);
      assert steps[..k][..k - 1] == steps[..k - 1];
      var t := From(s, steps[..k - 1]);
      StepKeepsSafe(t, steps[k - 1]);
      AbandonedStays(t, steps[k - 1]);
      AbandonedHolds(Take(t, steps[k - 1]));
    }
  }

  lemma {:induction false} AbandonedHolds(s: System)
    requires Safe(s) && s.abandoned > 0
    ensures s.updating && s.runs == map[] && Stuck(s)
  {
  }

  lemma {:induction false} AbandonedStays(s: System, step: Step)
    ensures Take(s, step).abandoned >= s.abandoned
  {
  }

  /** The section is stuck exactly when an announcement failed after the section
      was entered, and from then on no task is ever registered again and no update
      ever begins, whatever the threads do. */
  lemma {:induction false} FailedAnnouncementIsForever(steps: seq<Step>, more: seq<Step>)
    ensures Stuck(Run(steps)) <==> Run(steps).abandoned > 0
    ensures Stuck(Run(steps)) ==> Stuck(From(Run(steps), more)) && From(Run(steps), more).runs == map[]
  {
    hide Run, Take, From;
    UpdatesExcludeTasks(steps);
    if Run(steps).abandoned > 0 {
      AbandonedHolds(Run(steps));
      StuckStays(Run(steps), more, |more|);
      assert more[..|more|] == more;
      AbandonedHolds(From(Run(steps), more));
    }
  }

  /** It can happen: one request whose answer cannot be sent. */
  lemma {:induction false} AnnouncementCanFail()
    ensures Stuck(Run([UpdateRequested, Announced(false)]))
  {
    assert [UpdateRequested, Announced(false)][..1] == [UpdateRequested] && [UpdateRequested][..0] == [];
    assert Run([UpdateRequested]) == Take(START, UpdateRequested);
  }

  // ----- the sections under the activity lock -----

  /** What a check for updates and the update itself come to. */
  datatype Check = Unauthorized | CheckFails | NothingNew | Available
  datatype Update = Installs | NothingDone | UpdateFails

  const CHECK_INTERVAL := 300
  const RETRY_INTERVAL := 30

  /** The client object. `system` is where the interleaving model stands; each
      method takes the step that its locked section is. */
  class WorkerClient {
    var activeRuns: Runs
    var updating: bool
    var stopped: bool
    ghost var system: System

    ghost predicate Valid()
      reads this
    {
      system.runs == activeRuns && system.updating == updating && Safe(system)
    }

    constructor ()
      ensures Valid() && system == START && !stopped
    {
      hide Safe;
      activeRuns, updating, stopped, system := map[], false, false, START;
      StartIsSafe();
    }

    /** Called by the auto-update loop, or by the message handler for a request. */
    method BeginUpdate(ghost entry: Step) returns (ok: bool)
      requires Valid()
      requires (entry == AutoBegins && !system.autoHolds) || (entry == UpdateRequested && !system.announcing)
      modifies this`updating, this`system
      ensures Valid() && system == Take(old(system), entry)
      ensures ok <==> system != old(system)
      ensures ok <==> old(activeRuns) == map[] && !old(updating)
      ensures updating == (old(updating) || ok)
    {
      StepKeepsSafe(system, entry);
      system := Take(system, entry);
      if activeRuns != map[] || updating {
        return false;
      }
      updating := true;
      return true;
    }

    /** Called by whoever holds the section. */
    method EndUpdate(ghost exit: Step)
      requires Valid()
      requires (exit == AutoEnds && system.autoHolds) || (exit == ManualEnds && system.manual > 0)
      modifies this`updating, this`system
      ensures Valid() && system == Take(old(system), exit) && !updating
    {
      StepKeepsSafe(system, exit);
      system := Take(system, exit);
      updating := false;
    }

    /** The locked section of `_start_task`, with a new ActiveRun object. */
    method Register(id: string, run: nat) returns (rejected: bool)
      requires Valid() && !system.announcing && run == system.next
      modifies this`activeRuns, this`system
      ensures Valid() && system == Take(old(system), TaskArrives(id))
      ensures rejected <==> (id, run) !in system.live
      ensures rejected == old(updating) && updating == old(updating)
      ensures activeRuns == if rejected then old(activeRuns) else old(activeRuns)[id := run]
    {
      StepKeepsSafe(system, TaskArrives(id));
      system := Take(system, TaskArrives(id));
      rejected := updating;
      if !rejected {
        activeRuns := activeRuns[id := run];
      }
    }

    /** The end of a task thread. */
    method Unregister(id: string, run: nat)
      requires Valid() && (id, run) in system.live
      modifies this`activeRuns, this`system
      ensures Valid() && system == Take(old(system), TaskEnds(id, run))
      ensures (id, run) !in system.live
      ensures activeRuns ==
              if id in old(activeRuns) && old(activeRuns)[id] == run then old(activeRuns) - {id} else old(activeRuns)
    {
      StepKeepsSafe(system, TaskEnds(id, run));
      system := Take(system, TaskEnds(id, run));
      if id in activeRuns && activeRuns[id] == run {
        activeRuns := activeRuns - {id};
      }
    }

    /** One turn of the auto-update loop with no other thread in between: whatever
        happens, the update section is left as it was found. */
    method AutoUpdateTurn(check: Check, update: Update) returns (nextWait: int, done: bool)
      requires Valid() && !system.autoHolds
      modifies this
      ensures Valid() && system == old(system)
      ensures done <==> check == Available && activeRuns == map[] && !old(updating) && update == Installs
      ensures stopped == (old(stopped) || done)
      ensures nextWait ==
        if check == CheckFails || (check == Available && activeRuns == map[] && !old(updating) && update == UpdateFails)
        then RETRY_INTERVAL else CHECK_INTERVAL
    {
      nextWait, done := CHECK_INTERVAL, false;
      match check {
        case Unauthorized => return;
        case CheckFails => nextWait := RETRY_INTERVAL;
        case NothingNew => return;
        case Available =>
          var ok := BeginUpdate(AutoBegins);
          if !ok {
            return;
          }
          match update {
            case Installs =>
              stopped := true;
              done := true;
            case UpdateFails => nextWait := RETRY_INTERVAL;
            case NothingDone =>
          }
          EndUpdate(AutoEnds);
      }
    }

    /** `_request_update`, for a request with an id and no cool-down. The section is
        entered before the answer is sent: if sending raises, nobody leaves it. */
    method RequestUpdate(sendFails: bool) returns (started: bool, raised: bool)
      requires Valid() && !system.announcing
      modifies this`updating, this`system
      ensures Valid() && system == Take(Take(old(system), UpdateRequested), Announced(!sendFails))
      ensures raised == sendFails
      ensures started <==> system.manual == old(system).manual + 1
      ensures started <==> !sendFails && old(activeRuns) == map[] && !old(updating)
      ensures Stuck(system) <==> Stuck(old(system)) || (sendFails && MayUpdate(activeRuns, old(updating)))
    {
      var ok := BeginUpdate(UpdateRequested);
      StepKeepsSafe(system, Announced(!sendFails));
      system := Take(system, Announced(!sendFails));
      if sendFails {
        return false, true;
      }
      return ok, false;
    }

    /** The thread of a manual update. */
    method RunManualUpdate(update: Update)
      requires Valid() && system.manual > 0
      modifies this
      ensures Valid() && system == Take(old(system), ManualEnds)
      ensures MayUpdate(activeRuns, updating)
      ensures stopped == (old(stopped) || update == Installs)
    {
      if update == Installs {
        stopped := true;
      }
      EndUpdate(ManualEnds);
    }
  }
}
