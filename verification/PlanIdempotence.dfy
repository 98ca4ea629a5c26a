/** Accepted plans are exactly the well-formed ones, and a well-formed plan fed back
    is accepted unchanged. */
module PlanIdempotence {
  import opened Basics
  import opened Text
  import opened PlanDag
  import opened PlanContract

  // ----- well-formed plans -----

  predicate IsText(s: string, maximum: nat) {
    Strip(s) == s && 1 <= |s| <= maximum
  }

  predicate TextList(texts: seq<string>, maximum: nat) {
    && |texts| <= maximum
    && (forall i :: 0 <= i < |texts| ==> IsText(texts[i], 300))
    && NoRepeats(texts)
  }

  predicate WellStep(s: Step, available: set<string>) {
    && PlanId(s.id) && IsText(s.goal, 300)
    && TextList(s.dependencies, 20) && TextList(s.tools, 12) && TextList(s.evidence, 12) && TextList(s.doneWhen, 12)
    && s.doneWhen != [] && (forall i :: 0 <= i < |s.tools| ==> s.tools[i] in available)
  }

  ghost predicate WellSteps(steps: seq<Step>, available: set<string>) {
    && 1 <= |steps| <= 20 && (forall i :: 0 <= i < |steps| ==> WellStep(steps[i], available))
    && DistinctIds(Nodes(steps)) && DependenciesExist(Nodes(steps)) && Orderable(Nodes(steps))
  }

  predicate WellIntent(intent: string, steps: seq<Step>) {
    && intent in {CONVERSATION, READ_ONLY, CODE_CHANGE}
    && (intent == CODE_CHANGE <==> ToolKinds(steps) * WRITE_TOOLS != {})
    && (intent == CONVERSATION ==> !NeedsWorkspace(steps))
  }

  /** Every budget between its floor and the maximum. */
  predicate InLimits(budgets: map<string, int>, request: Request)
    requires HasAll(request.maximum) && HasAll(Floors(request))
  {
    && budgets.Keys == (set k | k in BUDGET_KEYS)
    && (forall k :: k in BUDGET_KEYS ==>
          0 <= Floors(request)[k] <= budgets[k] && RawMinimum(k) <= budgets[k] <= request.maximum[k])
  }

  function Amount(budgets: map<string, int>, key: string): int {
    if key in budgets then budgets[key] else 0
  }

  /** And enough for the tools the steps require. */
  predicate WellBudgets(budgets: map<string, int>, request: Request, kinds: nat)
    requires HasAll(request.maximum) && HasAll(Floors(request))
  {
    && InLimits(budgets, request)
    && Amount(budgets, "tool_calls") >= kinds && Amount(budgets, "model_rounds") >= MIN_PLAN_MODEL_ROUNDS + kinds
  }

  ghost predicate WellFormed(p: Plan, request: Request)
    requires HasAll(request.maximum) && HasAll(Floors(request))
  {
    && PlanId(p.planId) && (request.planId == "" || p.planId == request.planId) && p.revision == request.revision
    && IsText(p.summary, 500) && p.riskLevel in RISK_LEVELS && TextList(p.acceptance, 12) && p.acceptance != []
    && WellSteps(p.steps, request.available) && WellIntent(p.intent, p.steps)
    && WellBudgets(p.budgets, request, |ToolKinds(p.steps)|)
  }

  // ----- what is accepted is well-formed -----

  lemma {:induction false} BoundedIsText(v: Json, field: string, maximum: nat)
    requires Bounded(v, field, maximum).Ok?
    ensures IsText(Bounded(v, field, maximum).value, maximum)
  {
    hide Strip;
    StripIdempotent(v.s);
  }

  lemma {:induction false} CollectedIsTexts(items: seq<Json>, field: string)
    requires Collected(items, field).Ok?
    ensures TextList(Collected(items, field).value, |items|)
    decreases |items|
  {
    hide Bounded, IsText;
    if items != [] {
      var n := |items| - 1;
      CollectedIsTexts(items[..n], field);
      BoundedIsText(items[n], field, 300);
    }
  }

  lemma {:induction false} StringListIsTexts(v: Json, field: string, maximum: nat)
    requires StringList(v, field, maximum).Ok?
    ensures TextList(StringList(v, field, maximum).value, maximum)
  {
    hide Collected;
    CollectedIsTexts(if v.JStr? then [v] else v.items, field);
  }

  lemma {:induction false} StepIsWell(raw: Json, available: set<string>, ids: set<string>)
    ensures StepOf(raw, available, ids).Ok? ==> WellStep(StepOf(raw, available, ids).value, available)
  {
    hide StringList, Bounded, TextList, IsText, Strip, PlanId, PyStr;
    if StepOf(raw, available, ids).Ok? {
      StringListIsTexts(raw.fields["required_tools"], "required_tools", 12);
      StringListIsTexts(raw.fields["required_evidence"], "required_evidence", 12);
      StringListIsTexts(raw.fields["done_when"], "done_when", 12);
      StringListIsTexts(raw.fields["dependencies"], "dependencies", 20);
      BoundedIsText(raw.fields["goal"], "goal", 300);
    }
  }

  lemma {:induction false} StepsAreWell(items: seq<Json>, available: set<string>)
    ensures StepsOf(items, available).Ok? ==>
              forall i :: 0 <= i < |StepsOf(items, available).value| ==>
                  WellStep(StepsOf(items, available).value[i], available)
    decreases |items|
  {
    hide StepOf, WellStep;
    if items != [] && StepsOf(items, available).Ok? {
      var n := |items| - 1;
      StepsAreWell(items[..n], available);
      StepIsWell(items[n], available, StepIds(StepsOf(items[..n], available).value));
    }
  }

  lemma {:induction false} AcceptedSteps(v: Json, available: set<string>)
    ensures Steps(v, available).Ok? ==> WellSteps(Steps(v, available).value, available)
  {
    hide StepsOf, WellStep, DistinctIds, DependenciesExist, Orderable;
    if v.JList? {
      StepsAreWell(v.items, available);
      StepsHaveDistinctIds(v.items, available);
    }
  }

  lemma {:induction false} NoToolsNoKinds(steps: seq<Step>)
    requires !NeedsWorkspace(steps)
    ensures ToolKinds(steps) == {}
  {
  }

  lemma {:induction false} BudgetsInLimits(v: Json, request: Request)
    requires HasAll(request.maximum) && HasAll(Floors(request)) && BudgetsIn(v, request.maximum, Floors(request)).Ok?
    ensures InLimits(BudgetsIn(v, request.maximum, Floors(request)).value, request)
    ensures HasAll(BudgetsIn(v, request.maximum, Floors(request)).value)
  {
    hide BudgetsIn, Floors;
    BudgetsHaveAll(v, request.maximum, Floors(request));
  }

  lemma {:induction false} KeysAreKeys()
    ensures "tool_calls" in BUDGET_KEYS && "model_rounds" in BUDGET_KEYS && "tool_calls" != "model_rounds"
  {
    assert BUDGET_KEYS[4] == "tool_calls" && BUDGET_KEYS[2] == "model_rounds";
    assert |"tool_calls"| != |"model_rounds"|;
  }

  lemma {:induction false} RaisedIsWell(request: Request, budgets: map<string, int>, kinds: nat)
    requires HasAll(request.maximum) && HasAll(Floors(request)) && HasAll(budgets) && InLimits(budgets, request)
    requires Raised(request, budgets, kinds).Ok?
    ensures WellBudgets(Raised(request, budgets, kinds).value, request, kinds)
  {
    hide Floors;
    KeysAreKeys();
    var raised := Raised(request, budgets, kinds).value;
    forall k | k in BUDGET_KEYS
      ensures 0 <= Floors(request)[k] <= raised[k] && RawMinimum(k) <= raised[k] <= request.maximum[k]
    {
      assert Floors(request)[k] <= budgets[k] <= request.maximum[k];
    }
    assert raised.Keys == budgets.Keys;
  }

  lemma {:induction false} ConcludedIsWell(v: Json, request: Request, planId: string, summary: string, intent: string,
                                          riskLevel: string, acceptance: seq<string>, steps: seq<Step>)
    requires HasAll(request.maximum) && intent in {CONVERSATION, READ_ONLY, CODE_CHANGE}
    requires Concluded(v, request, planId, summary, intent, riskLevel, acceptance, steps).Ok?
    ensures HasAll(Floors(request))
    ensures var p := Concluded(v, request, planId, summary, intent, riskLevel, acceptance, steps).value;
            && p == Plan(planId, request.revision, p.intent, summary, steps, acceptance, riskLevel, p.budgets)
            && WellIntent(p.intent, steps) && WellBudgets(p.budgets, request, |ToolKinds(steps)|)
  {
    hide BudgetsIn, ToolKinds, NeedsWorkspace, HasAll, Floors, Raised, WellBudgets;
    FloorsHaveAll(request);
    BudgetsInLimits(v, request);
    if !NeedsWorkspace(steps) { NoToolsNoKinds(steps); }
    RaisedIsWell(request, BudgetsIn(v, request.maximum, Floors(request)).value, |ToolKinds(steps)|);
  }

  /** Soundness: whatever is accepted is well-formed for the request. */
  lemma {:induction false} AcceptedIsWellFormed(v: Json, request: Request)
    requires HasAll(request.maximum)
    ensures HasAll(Floors(request)) && (Validated(v, request).Ok? ==> WellFormed(Validated(v, request).value, request))
  {
    hide Steps, StringList, Bounded, Strip, PlanId, PyStr, Concluded, TextList, IsText, WellSteps, WellIntent,
         WellBudgets, HasAll, EqualsInt, Floors;
    FloorsHaveAll(request);
    if Validated(v, request).Ok? {
      var f := v.fields;
      BoundedIsText(f["summary"], "summary", 500);
      StringListIsTexts(f["acceptance"], "acceptance", 12);
      AcceptedSteps(f["steps"], request.available);
      ConcludedIsWell(f["budgets"], request, Strip(PyStr(f["plan_id"])), Bounded(f["summary"], "summary", 500).value,
                      Strip(PyStr(f["intent"])), Strip(PyStr(f["risk_level"])),
                      StringList(f["acceptance"], "acceptance", 12).value, Steps(f["steps"], request.available).value);
    }
  }

  // ----- a well-formed plan fed back -----

  function TextsJson(texts: seq<string>): Json {
    JList(seq(|texts|, i requires 0 <= i < |texts| => JStr(texts[i])))
  }

  function StepJson(s: Step): Json {
    JObj(map["id" := JStr(s.id), "goal" := JStr(s.goal), "dependencies" := TextsJson(s.dependencies),
             "required_tools" := TextsJson(s.tools), "required_evidence" := TextsJson(s.evidence),
                 "done_when" := TextsJson(s.doneWhen)])
  }

  function StepsJson(steps: seq<Step>): Json {
    JList(seq(|steps|, i requires 0 <= i < |steps| => StepJson(steps[i])))
  }

  function BudgetsJson(budgets: map<string, int>): Json {
    JObj(map k | k in budgets :: JInt(budgets[k]))
  }

  /** The dictionary the validator returns. */
  function PlanJson(p: Plan): Json {
    JObj(map["schema_version" := JStr("1"), "plan_id" := JStr(p.planId), "revision" := JInt(p.revision),
        "intent" := JStr(p.intent),
             "summary" := JStr(p.summary), "steps" := StepsJson(p.steps), "acceptance" := TextsJson(p.acceptance),
             "risk_level" := JStr(p.riskLevel), "budgets" := BudgetsJson(p.budgets)])
  }

  lemma {:induction false} StripKeeps(s: string)
    requires s != "" && !IsSpace(s[0]) && !IsSpace(s[|s| - 1])
    ensures Strip(s) == s
  {
  }

  lemma {:induction false} IdKeeps(s: string)
    requires PlanId(s)
    ensures Strip(s) == s
  {
    StripKeeps(s);
  }

  lemma {:induction false} WordsKeep()
    ensures forall w :: w in {CONVERSATION, READ_ONLY, CODE_CHANGE} ==> Strip(w) == w
    ensures forall w :: w in RISK_LEVELS ==> Strip(w) == w
  {
    forall w | w in {CONVERSATION, READ_ONLY, CODE_CHANGE} ensures Strip(w) == w { StripKeeps(w); }
    forall w | w in RISK_LEVELS ensures Strip(w) == w { StripKeeps(w); }
  }

  lemma {:induction false} CollectedKeeps(texts: seq<string>, field: string)
    requires forall i :: 0 <= i < |texts| ==> IsText(texts[i], 300)
    requires NoRepeats(texts)
    ensures Collected(TextsJson(texts).items, field) == Ok(texts)
    decreases |texts|
  {
    hide Strip;
    if texts != [] {
      var n := |texts| - 1;
      CollectedKeeps(texts[..n], field);
      assert TextsJson(texts).items[..n] == TextsJson(texts[..n]).items;
      assert texts == texts[..n] + [texts[n]];
    }
  }

  lemma {:induction false} TextListKeeps(texts: seq<string>, field: string, maximum: nat)
    requires TextList(texts, maximum)
    ensures StringList(TextsJson(texts), field, maximum) == Ok(texts)
  {
    hide Collected, IsText;
    CollectedKeeps(texts, field);
  }

  lemma {:induction false} StepFields(s: Step)
    ensures StepJson(s).JObj? && StepJson(s).fields.Keys == STEP_FIELDS
  {
  }

  lemma {:induction false} StepFieldValues(s: Step)
    ensures var f := StepJson(s).fields;
            && "id" in f && f["id"] == JStr(s.id) && "goal" in f && f["goal"] == JStr(s.goal)
            && "dependencies" in f && f["dependencies"] == TextsJson(s.dependencies)
            && "required_tools" in f && f["required_tools"] == TextsJson(s.tools)
            && "required_evidence" in f && f["required_evidence"] == TextsJson(s.evidence)
            && "done_when" in f && f["done_when"] == TextsJson(s.doneWhen)
  {
  }

  lemma {:induction false} StepKeeps(s: Step, available: set<string>, ids: set<string>)
    requires WellStep(s, available) && s.id !in ids
    ensures StepOf(StepJson(s), available, ids) == Ok(s)
  {
    hide StringList, TextList, Strip, PlanId, StepJson;
    StepFields(s);
    StepFieldValues(s);
    IdKeeps(s.id);
    TextListKeeps(s.tools, "required_tools", 12);
    TextListKeeps(s.evidence, "required_evidence", 12);
    TextListKeeps(s.doneWhen, "done_when", 12);
    TextListKeeps(s.dependencies, "dependencies", 20);
  }

  lemma {:induction false} StepsKeep(steps: seq<Step>, available: set<string>)
    requires forall i :: 0 <= i < |steps| ==> WellStep(steps[i], available)
    requires DistinctIds(Nodes(steps))
    ensures StepsOf(StepsJson(steps).items, available) == Ok(steps)
    decreases |steps|
  {
    hide StepOf, StepJson, WellStep;
    if steps != [] {
      var n := |steps| - 1;
      var init := steps[..n];
      forall i, j | 0 <= i < j < n ensures Nodes(init)[i].id != Nodes(init)[j].id {
        assert Nodes(steps)[i].id != Nodes(steps)[j].id;
      }
      StepsKeep(init, available);
      assert StepsJson(steps).items[..n] == StepsJson(init).items;
      forall i | 0 <= i < n ensures init[i].id != steps[n].id {
        assert Nodes(steps)[i].id != Nodes(steps)[n].id;
      }
      assert steps[n].id !in StepIds(init);
      StepKeeps(steps[n], available, StepIds(init));
      assert steps == init + [steps[n]];
    }
  }

  lemma {:induction false} WellStepsKeep(steps: seq<Step>, available: set<string>)
    requires WellSteps(steps, available)
    ensures Steps(StepsJson(steps), available) == Ok(steps)
  {
    hide StepsOf, WellStep, DistinctIds, DependenciesExist, Orderable, StepJson;
    StepsKeep(steps, available);
  }

  lemma {:induction false} BudgetKeeps(n: int, key: string, limit: int, floor: int)
    requires 0 <= floor <= n && RawMinimum(key) <= n <= limit
    ensures BudgetOf(JInt(n), key, limit, floor) == Ok(n)
  {
  }

  lemma {:induction false} LimitsAt(budgets: map<string, int>, request: Request, key: string)
    requires HasAll(request.maximum) && HasAll(Floors(request)) && InLimits(budgets, request) && key in BUDGET_KEYS
    ensures key in budgets && 0 <= Floors(request)[key] <= budgets[key] &&
            RawMinimum(key) <= budgets[key] <= request.maximum[key]
  {
    hide Floors, RawMinimum;
  }

  lemma {:induction false} BudgetsKeepFrom(budgets: map<string, int>, request: Request, keys: seq<string>)
    requires HasAll(request.maximum) && HasAll(Floors(request)) && InLimits(budgets, request)
    requires forall k :: k in keys ==> k in BUDGET_KEYS
    requires forall k :: k in keys ==> k in BudgetsJson(budgets).fields
    ensures var r := BudgetsOf(BudgetsJson(budgets).fields, request.maximum, Floors(request), keys);
            r.Ok? && (forall k :: k in r.value <==> k in keys) && forall k :: k in keys ==>
                k in budgets && r.value[k] == budgets[k]
    decreases |keys|
  {
    hide Floors, BudgetOf, RawMinimum, InLimits;
    if keys != [] {
      var n := |keys| - 1;
      BudgetsKeepFrom(budgets, request, keys[..n]);
      assert keys == keys[..n] + [keys[n]];
      LimitsAt(budgets, request, keys[n]);
      BudgetKeeps(budgets[keys[n]], keys[n], request.maximum[keys[n]], Floors(request)[keys[n]]);
    }
  }

  lemma {:induction false} BudgetsKeep(budgets: map<string, int>, request: Request)
    requires HasAll(request.maximum) && HasAll(Floors(request)) && InLimits(budgets, request)
    ensures BudgetsIn(BudgetsJson(budgets), request.maximum, Floors(request)) == Ok(budgets)
  {
    hide Floors, BudgetsOf;
    assert BudgetsJson(budgets).fields.Keys == budgets.Keys;
    BudgetsKeepFrom(budgets, request, BUDGET_KEYS);
    SameBudgets(BudgetsOf(BudgetsJson(budgets).fields, request.maximum, Floors(request), BUDGET_KEYS).value, budgets);
  }

  lemma {:induction false} SameBudgets(a: map<string, int>, b: map<string, int>)
    requires a.Keys == b.Keys == (set k | k in BUDGET_KEYS) && forall k :: k in BUDGET_KEYS ==>
             k in a && k in b && a[k] == b[k]
    ensures a == b
  {
    forall k | k in a ensures a[k] == b[k] { assert k in b.Keys; }
  }

  lemma {:induction false} RaisedKeeps(budgets: map<string, int>, request: Request, kinds: nat)
    requires HasAll(request.maximum) && HasAll(Floors(request)) && HasAll(budgets) &&
             WellBudgets(budgets, request, kinds)
    ensures Raised(request, budgets, kinds) == Ok(budgets)
    ensures Amount(budgets, "model_rounds") >= MIN_PLAN_MODEL_ROUNDS
  {
    hide Floors;
    KeysAreKeys();
    assert Max(budgets["tool_calls"], ToolFloor(request, kinds)) == budgets["tool_calls"];
    assert Max(budgets["model_rounds"], RoundFloor(request, kinds)) == budgets["model_rounds"];
    assert budgets["tool_calls" := budgets["tool_calls"]]["model_rounds" := budgets["model_rounds"]] == budgets;
    assert "tool_calls" in BUDGET_KEYS && "model_rounds" in BUDGET_KEYS;
  }

  lemma {:induction false} LimitsHaveAll(budgets: map<string, int>, request: Request)
    requires HasAll(request.maximum) && HasAll(Floors(request)) && InLimits(budgets, request)
    ensures HasAll(budgets)
  {
    hide Floors;
    forall k | k in BUDGET_KEYS ensures k in budgets { assert k in (set j | j in BUDGET_KEYS); }
  }

  lemma {:induction false} WritesAreElevated(intent: string, steps: seq<Step>)
    requires WellIntent(intent, steps)
    ensures ElevatedIntent(intent, steps) == intent
  {
    if intent == CONVERSATION { NoToolsNoKinds(steps); }
    hide ToolKinds;
  }

  lemma {:induction false} ConcludedKeeps(p: Plan, request: Request)
    requires HasAll(request.maximum) && HasAll(Floors(request))
    requires p.revision == request.revision && WellIntent(p.intent, p.steps) &&
             WellBudgets(p.budgets, request, |ToolKinds(p.steps)|)
    ensures Ok(p) ==
            Concluded(BudgetsJson(p.budgets), request, p.planId, p.summary, p.intent, p.riskLevel, p.acceptance,
                      p.steps)
  {
    hide BudgetsIn, Raised, ToolKinds, NeedsWorkspace, HasAll, Floors, InLimits, BudgetsJson, TextList, IsText,
         PlanId, ElevatedIntent, WellSteps;
    WritesAreElevated(p.intent, p.steps);
    LimitsHaveAll(p.budgets, request);
    BudgetsKeep(p.budgets, request);
    RaisedKeeps(p.budgets, request, |ToolKinds(p.steps)|);
    RoundsIn(p.budgets);
  }

  lemma {:induction false} RoundsIn(budgets: map<string, int>)
    requires HasAll(budgets)
    ensures "model_rounds" in budgets
  {
    KeysAreKeys();
  }

  lemma {:induction false} PlanFields(p: Plan)
    ensures PlanJson(p).JObj? && PlanJson(p).fields.Keys == PLAN_FIELDS
  {
    hide StepsJson, TextsJson, BudgetsJson;
  }

  lemma {:induction false} PlanFieldValues(p: Plan)
    ensures var f := PlanJson(p).fields;
            && "schema_version" in f && f["schema_version"] == JStr("1") && "plan_id" in f &&
                f["plan_id"] == JStr(p.planId)
            && "revision" in f && f["revision"] == JInt(p.revision) && "intent" in f && f["intent"] == JStr(p.intent)
            && "summary" in f && f["summary"] == JStr(p.summary) && "steps" in f && f["steps"] == StepsJson(p.steps)
            && "acceptance" in f && f["acceptance"] == TextsJson(p.acceptance) && "risk_level" in f &&
                f["risk_level"] == JStr(p.riskLevel)
            && "budgets" in f && f["budgets"] == BudgetsJson(p.budgets)
  {
    hide StepsJson, TextsJson, BudgetsJson;
  }

  /** Completeness: every well-formed plan, as JSON, is accepted and returned unchanged. */
  lemma {:induction false} WellFormedIsAccepted(p: Plan, request: Request)
    requires HasAll(request.maximum) && HasAll(Floors(request))
    ensures WellFormed(p, request) ==> Validated(PlanJson(p), request) == Ok(p)
  {
    hide Steps, StringList, Strip, PlanId, Concluded, TextList, WellSteps, WellIntent, WellBudgets, HasAll, PlanJson,
         Floors;
    if WellFormed(p, request) {
      PlanFields(p);
      PlanFieldValues(p);
      IdKeeps(p.planId);
      WordsKeep();
      IntentNamed(p.intent, p.steps);
      TextListKeeps(p.acceptance, "acceptance", 12);
      WellStepsKeep(p.steps, request.available);
      ConcludedKeeps(p, request);
    }
  }

  lemma {:induction false} IntentNamed(intent: string, steps: seq<Step>)
    requires WellIntent(intent, steps)
    ensures intent in {CONVERSATION, READ_ONLY, CODE_CHANGE}
  {
    hide ToolKinds, NeedsWorkspace;
  }

  /** An accepted plan fed back for the same request is accepted and returned
      unchanged, and it is well-formed: budgets between floor and maximum, at least
      one tool call per required tool and three model rounds more than that, and a
      code_change intent exactly when some required tool writes. */
  lemma {:induction false} ValidationIsIdempotent(v: Json, request: Request)
    requires HasAll(request.maximum)
    ensures HasAll(Floors(request))
    ensures Validated(v, request).Ok? ==>
              && Validated(PlanJson(Validated(v, request).value), request) == Validated(v, request)
              && WellFormed(Validated(v, request).value, request)
  {
    hide Validated, WellFormed, PlanJson, HasAll, Floors;
    AcceptedIsWellFormed(v, request);
    if Validated(v, request).Ok? { WellFormedIsAccepted(Validated(v, request).value, request); }
  }

  /** What the validator can return for a request is exactly the well-formed plans. */
  lemma {:induction false} AcceptedPlansExactly(p: Plan, request: Request)
    requires HasAll(request.maximum) && HasAll(Floors(request))
    ensures (exists v :: Validated(v, request) == Ok(p)) <==> WellFormed(p, request)
  {
    hide Validated, WellFormed, PlanJson, HasAll, Floors;
    WellFormedIsAccepted(p, request);
    forall v | Validated(v, request) == Ok(p) ensures WellFormed(p, request) {
      AcceptedIsWellFormed(v, request);
    }
  }
}
