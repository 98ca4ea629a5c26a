/** What the validator makes of any value: the plan in normal form, defined field by
    field, and the exact condition under which it is accepted. */
module PlanNormalForm {
  import opened Basics
  import opened Text
  import opened PlanDag
  import opened PlanContract
  import opened PlanIdempotence

  // ----- texts and lists of texts -----

  function Without(texts: seq<string>, x: string): (r: seq<string>)
    ensures |r| <= |texts|
  {
    if texts == [] then []
    else if texts[0] == x then Without(texts[1..], x)
    else [texts[0]] + Without(texts[1..], x)
  }

  /** Each text where it comes first, its repetitions dropped. */
  function Distinct(texts: seq<string>): seq<string>
    decreases |texts|
  {
    if texts == [] then [] else [texts[0]] + Distinct(Without(texts[1..], texts[0]))
  }

  function Trim(v: Json): string {
    if v.JStr? then Strip(v.s) else ""
  }

  function Items(v: Json): seq<Json> {
    if v.JList? then v.items else [v]
  }

  function Trims(items: seq<Json>): (r: seq<string>)
    ensures |r| == |items| && forall i :: 0 <= i < |r| ==> r[i] == Trim(items[i])
  {
    seq(|items|, i requires 0 <= i < |items| => Trim(items[i]))
  }

  /** One text, or a list of at most `maximum` of them, and what it stands for: the
      trimmed texts without repetitions, in order. */
  predicate ListForm(v: Json, maximum: nat, texts: seq<string>) {
    && (v.JStr? || v.JList?) && |Items(v)| <= maximum
    && (forall i :: 0 <= i < |Items(v)| ==> Items(v)[i].JStr?)
    && texts == Distinct(Trims(Items(v)))
  }

  lemma {:induction false} WithoutSnoc(texts: seq<string>, x: string, y: string)
    ensures Without(texts + [x], y) == Without(texts, y) + (if x == y then [] else [x])
  {
    if texts == [] {
      assert [] + [x] == [x] && [x][1..] == [];
    } else {
      assert (texts + [x])[1..] == texts[1..] + [x];
      WithoutSnoc(texts[1..], x, y);
    }
  }

  lemma {:induction false} DistinctSnoc(texts: seq<string>, x: string)
    ensures Distinct(texts + [x]) == if x in Distinct(texts) then Distinct(texts) else Distinct(texts) + [x]
    decreases |texts|
  {
    if texts == [] {
      assert [] + [x] == [x] && [x][1..] == [];
    } else {
      var y, rest := texts[0], texts[1..];
      assert (texts + [x])[0] == y && (texts + [x])[1..] == rest + [x];
      WithoutSnoc(rest, x, y);
      if x == y {
        assert Without(rest, y) + [] == Without(rest, y);
        assert Distinct(texts)[0] == x;
      } else {
        DistinctSnoc(Without(rest, y), x);
      }
    }
  }

  lemma {:induction false} WithoutHas(texts: seq<string>, x: string)
    ensures forall t :: t in Without(texts, x) <==> t in texts && t != x
  {
    if texts != [] {
      WithoutHas(texts[1..], x);
      assert texts == [texts[0]] + texts[1..];
    }
  }

  lemma {:induction false} DistinctHas(texts: seq<string>)
    ensures forall t :: t in Distinct(texts) <==> t in texts
    decreases |texts|
  {
    if texts != [] {
      DistinctHas(Without(texts[1..], texts[0]));
      WithoutHas(texts[1..], texts[0]);
      assert texts == [texts[0]] + texts[1..];
    }
  }

  lemma {:induction false} BoundedExactly(v: Json, field: string, maximum: nat, t: string)
    ensures Bounded(v, field, maximum) == Ok(t) <==> v.JStr? && t == Strip(v.s) && IsText(t, maximum)
  {
    hide Strip;
    if v.JStr? { StripIdempotent(v.s); }
  }

  lemma {:induction false} NothingDistinct()
    ensures Distinct(Trims([])) == []
  {
    assert Trims([]) == [];
  }

  lemma {:induction false} TrimsSnoc(items: seq<Json>)
    requires items != []
    ensures Trims(items) == Trims(items[..|items| - 1]) + [Trim(items[|items| - 1])]
  {
    hide Trim;
  }

  /** The reading loop collects exactly the distinct trimmed texts. */
  lemma {:induction false} CollectedExactly(items: seq<Json>, field: string)
    ensures Collected(items, field).Ok? <==>
            forall i :: 0 <= i < |items| ==> items[i].JStr? && IsText(Trim(items[i]), 300)
    ensures Collected(items, field).Ok? ==> Collected(items, field).value == Distinct(Trims(items))
    decreases |items|
  {
    hide Bounded, IsText, Strip, Distinct, Trims;
    if items == [] {
      assert Distinct(Trims([])) == [] by { NothingDistinct(); }
    } else {
      var n := |items| - 1;
      var init := items[..n];
      CollectedExactly(init, field);
      BoundedExactly(items[n], field, 300, Trim(items[n]));
      if Bounded(items[n], field, 300).Ok? {
        BoundedExactly(items[n], field, 300, Bounded(items[n], field, 300).value);
      }
      TrimsSnoc(items);
      DistinctSnoc(Trims(init), Trim(items[n]));
      assert forall i :: 0 <= i < n ==> init[i] == items[i];
    }
  }

  lemma {:induction false} StringListExactly(v: Json, field: string, maximum: nat, texts: seq<string>)
    requires maximum >= 1
    ensures StringList(v, field, maximum) == Ok(texts) <==> ListForm(v, maximum, texts) && TextList(texts, maximum)
  {
    hide Collected, IsText, Distinct;
    if (v.JStr? || v.JList?) && |Items(v)| <= maximum {
      var items := Items(v);
      CollectedExactly(items, field);
      DistinctHas(Trims(items));
      if Collected(items, field).Ok? {
        CollectedIsTexts(items, field);
      } else if ListForm(v, maximum, texts) && TextList(texts, maximum) {
        forall i | 0 <= i < |items| ensures IsText(Trim(items[i]), 300) {
          assert Trims(items)[i] in texts;
        }
      }
    }
  }

  // ----- steps -----

  /** What one raw step stands for. */
  predicate StepForm(raw: Json, s: Step) {
    && raw.JObj? && raw.fields.Keys == STEP_FIELDS
    && s.id == Strip(PyStr(raw.fields["id"]))
    && raw.fields["goal"].JStr? && s.goal == Strip(raw.fields["goal"].s)
    && ListForm(raw.fields["dependencies"], 20, s.dependencies)
    && ListForm(raw.fields["required_tools"], 12, s.tools)
    && ListForm(raw.fields["required_evidence"], 12, s.evidence)
    && ListForm(raw.fields["done_when"], 12, s.doneWhen)
  }

  lemma {:induction false} StepExactly(raw: Json, available: set<string>, ids: set<string>, s: Step)
    ensures StepOf(raw, available, ids) == Ok(s) <==> StepForm(raw, s) && WellStep(s, available) && s.id !in ids
  {
    hide StringList, ListForm, TextList, Bounded, IsText, Strip, PlanId, PyStr;
    if raw.JObj? && raw.fields.Keys == STEP_FIELDS {
      var f := raw.fields;
      StringListExactly(f["dependencies"], "dependencies", 20, s.dependencies);
      StringListExactly(f["required_tools"], "required_tools", 12, s.tools);
      StringListExactly(f["required_evidence"], "required_evidence", 12, s.evidence);
      StringListExactly(f["done_when"], "done_when", 12, s.doneWhen);
      BoundedExactly(f["goal"], "goal", 300, s.goal);
    }
  }

  predicate StepForms(items: seq<Json>, steps: seq<Step>) {
    |steps| == |items| && forall i :: 0 <= i < |items| ==> StepForm(items[i], steps[i])
  }

  lemma {:induction false} DistinctIdsSnoc(init: seq<Step>, step: Step)
    ensures DistinctIds(Nodes(init + [step])) <==> DistinctIds(Nodes(init)) && step.id !in StepIds(init)
  {
    var steps := init + [step];
    forall i | 0 <= i < |init| ensures Nodes(steps)[i].id == Nodes(init)[i].id == init[i].id { }
    if DistinctIds(Nodes(steps)) {
      forall i | 0 <= i < |init| ensures init[i].id != step.id {
        assert Nodes(steps)[i].id != Nodes(steps)[|init|].id;
      }
      forall i, j | 0 <= i < j < |init| ensures Nodes(init)[i].id != Nodes(init)[j].id {
        assert Nodes(steps)[i].id != Nodes(steps)[j].id;
      }
    }
    if DistinctIds(Nodes(init)) && step.id !in StepIds(init) {
      forall i, j | 0 <= i < j < |steps| ensures Nodes(steps)[i].id != Nodes(steps)[j].id {
        if j < |init| { assert Nodes(init)[i].id != Nodes(init)[j].id; } else { assert init[i].id in StepIds(init); }
      }
    }
  }

  ghost predicate ReadsAs(items: seq<Json>, available: set<string>, steps: seq<Step>) {
    && StepForms(items, steps) && DistinctIds(Nodes(steps))
    && forall i :: 0 <= i < |steps| ==> WellStep(steps[i], available)
  }

  lemma {:induction false} StepsOfExactly(items: seq<Json>, available: set<string>, steps: seq<Step>)
    ensures StepsOf(items, available) == Ok(steps) <==> ReadsAs(items, available, steps)
    decreases |items|
  {
    hide StepOf, StepForm, WellStep, DistinctIds;
    if items == [] {
      if steps == [] { assert DistinctIds(Nodes([])) by { NoSteps(); } }
    } else {
      var n := |items| - 1;
      if |steps| == n + 1 {
        var init := steps[..n];
        StepsOfExactly(items[..n], available, init);
        StepExactly(items[n], available, StepIds(init), steps[n]);
        assert steps == init + [steps[n]];
        DistinctIdsSnoc(init, steps[n]);
        ReadsSnoc(items, available, steps);
      }
      if StepsOf(items, available) == Ok(steps) { StepsHaveDistinctIds(items, available); }
    }
  }

  lemma {:induction false} NoSteps()
    ensures DistinctIds(Nodes([]))
  {
  }

  lemma {:induction false} ReadsSnoc(items: seq<Json>, available: set<string>, steps: seq<Step>)
    requires items != [] && |steps| == |items|
    requires var n := |items| - 1;
             DistinctIds(Nodes(steps)) <==> DistinctIds(Nodes(steps[..n])) && steps[n].id !in StepIds(steps[..n])
    ensures var n := |items| - 1;
            ReadsAs(items, available, steps) <==>
              && ReadsAs(items[..n], available, steps[..n])
              && StepForm(items[n], steps[n]) && WellStep(steps[n], available) && steps[n].id !in StepIds(steps[..n])
  {
    hide StepForm, WellStep, DistinctIds;
    var n := |items| - 1;
    if ReadsAs(items[..n], available, steps[..n]) && StepForm(items[n], steps[n]) && WellStep(steps[n], available) {
      forall i | 0 <= i <= n ensures StepForm(items[i], steps[i]) && WellStep(steps[i], available) {
        if i < n { assert items[..n][i] == items[i] && steps[..n][i] == steps[i]; }
      }
    }
    if ReadsAs(items, available, steps) {
      forall i | 0 <= i < n ensures StepForm(items[..n][i], steps[..n][i]) && WellStep(steps[..n][i], available) {
        assert items[..n][i] == items[i] && steps[..n][i] == steps[i];
      }
    }
  }

  lemma {:induction false} StepsExactly(v: Json, available: set<string>, steps: seq<Step>)
    ensures Steps(v, available) == Ok(steps) <==> v.JList? && StepForms(v.items, steps) && WellSteps(steps, available)
  {
    hide StepsOf, StepForm, WellStep, DistinctIds, DependenciesExist, Orderable;
    if v.JList? { StepsOfExactly(v.items, available, steps); }
  }

  // ----- budgets -----

  /** The least number that is at least each of the three. */
  predicate LeastAbove(n: int, a: int, b: int, c: int) {
    n >= a && n >= b && n >= c && (n == a || n == b || n == c)
  }

  /** How many tool calls and model rounds the required tools need. */
  function Needed(key: string, kinds: nat): int {
    if key == "tool_calls" then kinds else if key == "model_rounds" then 3 + kinds else 0
  }

  function FloorFor(request: Request, key: string): int {
    if key in request.minimum then request.minimum[key]
    else if key == "model_rounds" then 3
    else if key == "input_tokens" then 20000
    else if key == "output_tokens" then 2000
    else if key == "elapsed_seconds" then 120
    else 0
  }

  lemma {:induction false} FloorsAre(request: Request)
    ensures HasAll(Floors(request))
    ensures forall k :: k in BUDGET_KEYS ==> Floors(request)[k] == FloorFor(request, k)
  {
    FloorsHaveAll(request);
    forall k | k in BUDGET_KEYS ensures Floors(request)[k] == FloorFor(request, k) {
      if k !in request.minimum { assert Floors(request)[k] == PLAN_MINIMUM_BUDGETS[k]; }
    }
  }

  /** Each raw budget is a number within its own bounds. */
  predicate BudgetsReadable(v: Json, maximum: map<string, int>)
    requires HasAll(maximum)
  {
    && v.JObj? && v.fields.Keys == (set k | k in BUDGET_KEYS)
    && forall k :: k in BUDGET_KEYS ==>
         k in v.fields && v.fields[k].JInt? &&
         (if k == "tool_calls" then 0 else 1) <= v.fields[k].n <= maximum[k]
  }

  /** Each budget is the least number that is at least the raw one, its floor, and what
      the tools need. */
  predicate BudgetsForm(v: Json, request: Request, kinds: nat, b: map<string, int>) {
    && v.JObj? && b.Keys == (set k | k in BUDGET_KEYS)
    && forall k :: k in BUDGET_KEYS ==>
         k in v.fields && v.fields[k].JInt? && k in b &&
         LeastAbove(b[k], v.fields[k].n, FloorFor(request, k), Needed(k, kinds))
  }

  lemma {:induction false} BudgetsInOk(fields: map<string, Json>, maximum: map<string, int>, minimum: map<string, int>,
      keys: seq<string>)
    requires forall k :: k in keys ==> k in fields && k in maximum && k in minimum
    requires forall k :: k in keys ==> BudgetOf(fields[k], k, maximum[k], minimum[k]).Ok?
    ensures BudgetsOf(fields, maximum, minimum, keys).Ok?
    decreases |keys|
  {
    hide BudgetOf;
    if keys != [] { BudgetsInOk(fields, maximum, minimum, keys[..|keys| - 1]); }
  }

  /** Reading the budgets and raising them, as the validation does. */
  ghost function Budgeted(v: Json, request: Request, kinds: nat): Result<map<string, int>>
    requires HasAll(request.maximum) && HasAll(Floors(request))
  {
    var budgets :- BudgetsIn(v, request.maximum, Floors(request));
    BudgetsHaveAll(v, request.maximum, Floors(request));
    Raised(request, budgets, kinds)
  }

  lemma {:induction false} BudgetedIsForm(v: Json, request: Request, kinds: nat)
    requires HasAll(request.maximum) && HasAll(Floors(request))
    ensures Budgeted(v, request, kinds).Ok? ==>
              var b := Budgeted(v, request, kinds).value;
              BudgetsReadable(v, request.maximum) && BudgetsForm(v, request, kinds, b) && WellBudgets(b, request, kinds)
  {
    hide Floors, BudgetsIn, WellBudgets, InLimits, Raised, BudgetsReadable, BudgetsForm;
    if Budgeted(v, request, kinds).Ok? {
      BudgetsInLimits(v, request);
      RaisedIsWell(request, BudgetsIn(v, request.maximum, Floors(request)).value, kinds);
      RaisedForm(v, request, kinds);
    }
  }

  lemma {:induction false} RaisedForm(v: Json, request: Request, kinds: nat)
    requires HasAll(request.maximum) && HasAll(Floors(request))
    requires BudgetsIn(v, request.maximum, Floors(request)).Ok? &&
             HasAll(BudgetsIn(v, request.maximum, Floors(request)).value)
    requires Raised(request, BudgetsIn(v, request.maximum, Floors(request)).value, kinds).Ok?
    ensures BudgetsReadable(v, request.maximum)
    ensures BudgetsForm(v, request, kinds,
                        Raised(request, BudgetsIn(v, request.maximum, Floors(request)).value, kinds).value)
  {
    hide Floors, BudgetsIn, LeastAbove;
    BudgetsHaveAll(v, request.maximum, Floors(request));
    BudgetsShaped(v, request.maximum, Floors(request));
    FloorsAre(request);
    KeysAreKeys();
    var budgets := BudgetsIn(v, request.maximum, Floors(request)).value;
    var b := Raised(request, budgets, kinds).value;
    assert b.Keys == budgets.Keys;
    forall k | k in BUDGET_KEYS
      ensures k in b && LeastAbove(b[k], v.fields[k].n, FloorFor(request, k), Needed(k, kinds))
    {
      assert k in budgets.Keys;
      LeastIs(v.fields[k].n, FloorFor(request, k), kinds);
      assert budgets[k] == Max(v.fields[k].n, FloorFor(request, k));
    }
  }

  lemma {:induction false} BudgetsShaped(v: Json, maximum: map<string, int>, minimum: map<string, int>)
    requires HasAll(maximum) && HasAll(minimum) && BudgetsIn(v, maximum, minimum).Ok?
    ensures v.JObj? && v.fields.Keys == (set k | k in BUDGET_KEYS)
    ensures forall k :: k in BUDGET_KEYS ==> k in v.fields
  {
    hide BudgetsOf;
  }

  lemma {:induction false} LeastIs(raw: int, floor: int, kinds: nat)
    ensures LeastAbove(Max(Max(raw, floor), Max(floor, kinds)), raw, floor, kinds)
    ensures LeastAbove(Max(Max(raw, floor), Max(floor, 3 + kinds)), raw, floor, 3 + kinds)
    ensures floor >= 0 ==> LeastAbove(Max(raw, floor), raw, floor, 0)
  {
  }

  lemma {:induction false} FormIsBudgeted(v: Json, request: Request, kinds: nat, b: map<string, int>)
    requires HasAll(request.maximum) && HasAll(Floors(request))
    requires BudgetsReadable(v, request.maximum) && BudgetsForm(v, request, kinds, b) && WellBudgets(b, request, kinds)
    ensures Budgeted(v, request, kinds) == Ok(b)
  {
    hide Floors, BudgetsOf;
    FloorsAre(request);
    KeysAreKeys();
    forall k | k in BUDGET_KEYS ensures BudgetOf(v.fields[k], k, request.maximum[k], Floors(request)[k]).Ok? {
      LimitsAt(b, request, k);
    }
    BudgetsInOk(v.fields, request.maximum, Floors(request), BUDGET_KEYS);
    BudgetsHaveAll(v, request.maximum, Floors(request));
    var budgets := BudgetsIn(v, request.maximum, Floors(request)).value;
    LimitsAt(b, request, "tool_calls");
    LimitsAt(b, request, "model_rounds");
    RaisedIs(request, budgets, kinds, b);
  }

  lemma {:induction false} RaisedIs(request: Request, budgets: map<string, int>, kinds: nat, b: map<string, int>)
    requires HasAll(request.maximum) && HasAll(Floors(request)) && HasAll(budgets)
    requires budgets.Keys == b.Keys == (set k | k in BUDGET_KEYS)
    requires ToolFloor(request, kinds) <= request.maximum["tool_calls"]
    requires RoundFloor(request, kinds) <= request.maximum["model_rounds"]
    requires forall k :: k in BUDGET_KEYS && k in b && k in budgets ==>
               b[k] == if k == "tool_calls" then Max(budgets[k], ToolFloor(request, kinds))
                       else if k == "model_rounds" then Max(budgets[k], RoundFloor(request, kinds)) else budgets[k]
    ensures Raised(request, budgets, kinds) == Ok(b)
  {
    hide Floors, ToolFloor, RoundFloor;
    KeysAreKeys();
    var raised := Raised(request, budgets, kinds).value;
    assert raised.Keys == budgets.Keys;
    forall k | k in BUDGET_KEYS ensures k in raised && k in b && raised[k] == b[k] {
      assert k in budgets.Keys;
      assert k in b.Keys;
    }
    SameBudgets(raised, b);
  }

  // ----- the whole plan -----

  /** Some step requires a tool that writes. */
  predicate Writes(steps: seq<Step>) {
    exists i, t :: 0 <= i < |steps| && t in steps[i].tools && t in {"write_file", "patch_file", "run_shell"}
  }

  /** The plan a value stands for: texts trimmed, repetitions dropped, steps in order,
      the intent raised by a tool that writes and by nothing else. */
  ghost predicate NormalForm(v: Json, request: Request, p: Plan) {
    && v.JObj? && v.fields.Keys == PLAN_FIELDS
    && var f := v.fields;
       && p.planId == Strip(PyStr(f["plan_id"])) && p.revision == request.revision
       && f["summary"].JStr? && p.summary == Strip(f["summary"].s)
       && p.intent == (if Writes(p.steps) then "code_change" else Strip(PyStr(f["intent"])))
       && f["steps"].JList? && StepForms(f["steps"].items, p.steps)
       && ListForm(f["acceptance"], 12, p.acceptance)
       && p.riskLevel == Strip(PyStr(f["risk_level"]))
       && BudgetsForm(f["budgets"], request, |ToolKinds(p.steps)|, p.budgets)
  }

  /** What is asked of the value besides its normal form being well-formed: the schema
      and the revision, an intent of its own that fits, and raw budgets in bounds. */
  predicate Readable(v: Json, request: Request)
    requires HasAll(request.maximum)
  {
    && v.JObj? && v.fields.Keys == PLAN_FIELDS
    && var f := v.fields;
       && !f["schema_version"].JBool? && PyStr(f["schema_version"]) == "1"
       && EqualsInt(f["revision"], request.revision)
       && Strip(PyStr(f["intent"])) in {"conversation", "read_only", "code_change"}
       && (Strip(PyStr(f["intent"])) == "conversation" ==> f["steps"].JList? && AsksNothing(f["steps"].items))
       && BudgetsReadable(f["budgets"], request.maximum)
  }

  /** No step requires a tool or evidence. */
  predicate AsksNothing(items: seq<Json>) {
    forall i :: 0 <= i < |items| && items[i].JObj? ==>
      && ("required_tools" in items[i].fields ==> items[i].fields["required_tools"] == JList([]))
      && ("required_evidence" in items[i].fields ==> items[i].fields["required_evidence"] == JList([]))
  }

  lemma {:induction false} ListIsEmpty(v: Json, maximum: nat, texts: seq<string>)
    requires ListForm(v, maximum, texts)
    ensures texts == [] <==> v == JList([])
  {
    DistinctHas(Trims(Items(v)));
    if v.JStr? || v.items != [] { assert Trims(Items(v))[0] in texts; }
  }

  lemma {:induction false} AsksNothingExactly(items: seq<Json>, steps: seq<Step>)
    requires StepForms(items, steps)
    ensures AsksNothing(items) <==> !NeedsWorkspace(steps)
  {
    hide ListForm;
    forall i | 0 <= i < |items|
      ensures StepForm(items[i], steps[i])
      ensures steps[i].tools == [] <==> items[i].fields["required_tools"] == JList([])
      ensures steps[i].evidence == [] <==> items[i].fields["required_evidence"] == JList([])
    {
      ListIsEmpty(items[i].fields["required_tools"], 12, steps[i].tools);
      ListIsEmpty(items[i].fields["required_evidence"], 12, steps[i].evidence);
    }
  }

  lemma {:induction false} WritesExactly(steps: seq<Step>)
    ensures Writes(steps) <==> ToolKinds(steps) * WRITE_TOOLS != {}
  {
    if Writes(steps) {
      var i, t :| 0 <= i < |steps| && t in steps[i].tools && t in {"write_file", "patch_file", "run_shell"};
      assert t in ToolKinds(steps) * WRITE_TOOLS;
    }
    if ToolKinds(steps) * WRITE_TOOLS != {} {
      var t :| t in ToolKinds(steps) * WRITE_TOOLS;
    }
  }

  lemma {:induction false} ConcludedExactly(v: Json, request: Request, planId: string, summary: string, intent: string,
      riskLevel: string, acceptance: seq<string>, steps: seq<Step>, p: Plan)
    requires HasAll(request.maximum) && HasAll(Floors(request)) && intent in {CONVERSATION, READ_ONLY, CODE_CHANGE}
    ensures Concluded(v, request, planId, summary, intent, riskLevel, acceptance, steps) == Ok(p) <==>
            && p == Plan(planId, request.revision, if Writes(steps) then CODE_CHANGE else intent, summary, steps,
                         acceptance, riskLevel, p.budgets)
            && (intent == CONVERSATION ==> !NeedsWorkspace(steps)) && WellIntent(p.intent, steps)
            && BudgetsReadable(v, request.maximum) && BudgetsForm(v, request, |ToolKinds(steps)|, p.budgets)
            && WellBudgets(p.budgets, request, |ToolKinds(steps)|)
  {
    hide BudgetsIn, ToolKinds, NeedsWorkspace, HasAll, Floors, Raised, WellBudgets, BudgetsReadable, BudgetsForm,
         Writes;
    FloorsHaveAll(request);
    WritesExactly(steps);
    BudgetedIsForm(v, request, |ToolKinds(steps)|);
    if !NeedsWorkspace(steps) { NoToolsNoKinds(steps); }
    if BudgetsReadable(v, request.maximum) && BudgetsForm(v, request, |ToolKinds(steps)|, p.budgets) &&
       WellBudgets(p.budgets, request, |ToolKinds(steps)|)
    {
      FormIsBudgeted(v, request, |ToolKinds(steps)|, p.budgets);
    }
    RoundsEnough(v, request, |ToolKinds(steps)|);
    BudgetedIs(v, request, |ToolKinds(steps)|);
  }

  lemma {:induction false} RoundsEnough(v: Json, request: Request, kinds: nat)
    requires HasAll(request.maximum) && HasAll(Floors(request))
    ensures Budgeted(v, request, kinds).Ok? ==>
              var b := Budgeted(v, request, kinds).value;
              "model_rounds" in b && b["model_rounds"] >= MIN_PLAN_MODEL_ROUNDS
  {
    hide Floors, Budgeted, InLimits;
    BudgetedIsForm(v, request, kinds);
    KeysAreKeys();
    if Budgeted(v, request, kinds).Ok? {
      assert "model_rounds" in (set k | k in BUDGET_KEYS);
    }
  }

  lemma {:induction false} BudgetedIs(v: Json, request: Request, kinds: nat)
    requires HasAll(request.maximum) && HasAll(Floors(request))
    ensures var r := BudgetsIn(v, request.maximum, Floors(request));
            if r.Err? then Budgeted(v, request, kinds).Err?
            else HasAll(r.value) && Budgeted(v, request, kinds) == Raised(request, r.value, kinds)
  {
    hide Floors, Raised, BudgetsOf;
    if BudgetsIn(v, request.maximum, Floors(request)).Ok? { BudgetsHaveAll(v, request.maximum, Floors(request)); }
  }

  /** The validator accepts a value and returns p exactly if the value is readable, p is
      its normal form, and p is well-formed. */
  lemma {:induction false} AcceptedExactly(v: Json, request: Request, p: Plan)
    requires HasAll(request.maximum) && HasAll(Floors(request))
    ensures Validated(v, request) == Ok(p) <==>
            Readable(v, request) && NormalForm(v, request, p) && WellFormed(p, request)
  {
    hide Steps, StringList, Bounded, Strip, PlanId, PyStr, Concluded, TextList, IsText, WellSteps, WellIntent,
         WellBudgets, HasAll, EqualsInt, Floors, BudgetsReadable, BudgetsForm, ListForm, StepForms, AsksNothing, Writes;
    if v.JObj? && v.fields.Keys == PLAN_FIELDS {
      var f := v.fields;
      BoundedExactly(f["summary"], "summary", 500, p.summary);
      StringListExactly(f["acceptance"], "acceptance", 12, p.acceptance);
      StepsExactly(f["steps"], request.available, p.steps);
      if f["steps"].JList? && StepForms(f["steps"].items, p.steps) { AsksNothingExactly(f["steps"].items, p.steps); }
      var intent := Strip(PyStr(f["intent"]));
      if intent in {CONVERSATION, READ_ONLY, CODE_CHANGE} {
        ConcludedExactly(f["budgets"], request, Strip(PyStr(f["plan_id"])), p.summary, intent,
                         Strip(PyStr(f["risk_level"])), p.acceptance, p.steps, p);
      }
      ValidatedParts(v, request, p);
    }
  }

  /** An accepted plan has the parts that were read. */
  lemma {:induction false} ValidatedParts(v: Json, request: Request, p: Plan)
    requires HasAll(request.maximum) && v.JObj? && v.fields.Keys == PLAN_FIELDS
    ensures Validated(v, request) == Ok(p) ==>
              && Bounded(v.fields["summary"], "summary", 500) == Ok(p.summary)
              && StringList(v.fields["acceptance"], "acceptance", 12) == Ok(p.acceptance)
              && Steps(v.fields["steps"], request.available) == Ok(p.steps)
  {
    hide Steps, StringList, Bounded, Strip, PlanId, PyStr, HasAll, EqualsInt, Floors, BudgetsIn, Raised, ToolKinds,
         NeedsWorkspace;
  }

  /** The normal form is unique: a value is accepted as one plan or not at all. */
  lemma {:induction false} AcceptedIff(v: Json, request: Request)
    requires HasAll(request.maximum) && HasAll(Floors(request))
    ensures Validated(v, request).Ok? <==>
            Readable(v, request) && exists p :: NormalForm(v, request, p) && WellFormed(p, request)
  {
    hide Validated, Readable, NormalForm, WellFormed, HasAll, Floors;
    if Validated(v, request).Ok? { AcceptedExactly(v, request, Validated(v, request).value); }
    if p :| NormalForm(v, request, p) && WellFormed(p, request) { AcceptedExactly(v, request, p); }
  }
}
