/** The plan validator of langgraph_pico/planning.py, from the parsed JSON value on. */
module PlanContract {
  import opened Basics
  import opened Text
  import opened PlanDag

  // ----- values -----

  /** A parsed JSON value. A float keeps its Python text and, if it is whole, the
      integer it equals. */
  datatype Json =
    | JNull
    | JBool(b: bool)
    | JInt(n: int)
    | JFloat(text: string, whole: bool, n: int)
    | JStr(s: string)
    | JList(items: seq<Json>)
    | JObj(fields: map<string, Json>)

  /** A value, or the code of the PlanValidationError. */
  datatype Result<T> = Ok(value: T) | Err(code: string) {
    predicate IsFailure() { Err? }
    function PropagateFailure<U>(): Result<U> requires Err? { Err(code) }
    function Extract(): T requires Ok? { value }
  }

  function Decimal(n: nat): string {
    var digit := ["0123456789"[n % 10]];
    if n < 10 then digit else Decimal(n / 10) + digit
  }

  /** `str(value)`; of a list or an object only the first character is kept, which
      already rules it out wherever the text is used. */
  function PyStr(v: Json): string {
    match v
    case JNull => "None"
    case JBool(b) => if b then "True" else "False"
    case JInt(n) => if n >= 0 then Decimal(n) else "-" + Decimal(-n)
    case JFloat(text, _, _) => text
    case JStr(s) => s
    case JList(_) => "["
    case JObj(_) => "{"
  }

  /** `value == n` for an int n: True is 1 and 2.0 is 2. */
  predicate EqualsInt(v: Json, n: int) {
    match v
    case JBool(b) => n == if b then 1 else 0
    case JInt(m) => m == n
    case JFloat(_, whole, m) => whole && m == n
    case _ => false
  }

  predicate Letter(c: char) { 'a' <= c <= 'z' || 'A' <= c <= 'Z' }

  predicate IdChar(c: char) { Letter(c) || '0' <= c <= '9' || c == '_' || c == '.' || c == '-' }

  /** PLAN_ID_PATTERN.fullmatch */
  predicate PlanId(s: string) {
    1 <= |s| <= 64 && Letter(s[0]) && forall i :: 1 <= i < |s| ==> IdChar(s[i])
  }

  const READ_TOOLS := {"list_files", "read_file", "search"}
  const WRITE_TOOLS := {"write_file", "patch_file", "run_shell"}
  const RISK_LEVELS := {"low", "medium", "high"}
  const CONVERSATION := "conversation"
  const READ_ONLY := "read_only"
  const CODE_CHANGE := "code_change"
  const MIN_PLAN_MODEL_ROUNDS := 3

  const BUDGET_KEYS := ["elapsed_seconds", "input_tokens", "model_rounds", "output_tokens", "tool_calls"]

  const PLAN_MINIMUM_BUDGETS := map["model_rounds" := MIN_PLAN_MODEL_ROUNDS, "tool_calls" := 0, "input_tokens" := 20000,
                                    "output_tokens" := 2000, "elapsed_seconds" := 120]

  const PLAN_FIELDS := {"schema_version", "plan_id", "revision", "intent", "summary", "steps", "acceptance",
      "risk_level", "budgets"}
  const STEP_FIELDS := {"id", "goal", "dependencies", "required_tools", "required_evidence", "done_when"}

  datatype Step = Step(id: string, goal: string, dependencies: seq<string>, tools: seq<string>, evidence: seq<string>,
    doneWhen: seq<string>)

  datatype Plan = Plan(planId: string, revision: int, intent: string, summary: string, steps: seq<Step>,
                       acceptance: seq<string>, riskLevel: string, budgets: map<string, int>)

  /** What the caller fixes: the tools it offers, hard limits, overridden floors, the
      revision, and the plan id to keep, if any. */
  datatype Request = Request(available: set<string>, maximum: map<string, int>, minimum: map<string, int>,
    revision: int, planId: string)

  predicate HasAll(budgets: map<string, int>) {
    forall k :: k in BUDGET_KEYS ==> k in budgets
  }

  /** `_bounded_text` */
  function Bounded(v: Json, field: string, maximum: nat): Result<string> {
    if !v.JStr? then Err("plan_" + field + "_invalid")
    else if Strip(v.s) == "" || |Strip(v.s)| > maximum then Err("plan_" + field + "_invalid")
    else Ok(Strip(v.s))
  }

  /** Texts without their repetitions, in order of first appearance. */
  function Collected(items: seq<Json>, field: string): Result<seq<string>> {
    if items == [] then Ok([])
    else
      var texts :- Collected(items[..|items| - 1], field);
      var text :- Bounded(items[|items| - 1], field, 300);
      Ok(if text in texts then texts else texts + [text])
  }

  /** `_string_list` */
  function StringList(v: Json, field: string, maximum: nat): Result<seq<string>> {
    var items := if v.JStr? then [v] else if v.JList? then v.items else [];
    if (!v.JStr? && !v.JList?) || |items| > maximum then Err("plan_" + field + "_invalid")
    else Collected(items, field)
  }

  method CollectStrings(v: Json, field: string, maximum: nat) returns (r: Result<seq<string>>)
    ensures r == StringList(v, field, maximum)
  {
    hide Bounded;
    var items: seq<Json>;
    match v {
      case JStr(_) => items := [v];
      case JList(list) => items := list;
      case _ => return Err("plan_" + field + "_invalid");
    }
    if |items| > maximum {
      return Err("plan_" + field + "_invalid");
    }
    var result: seq<string> := [];
    for i := 0 to |items|
      invariant Collected(items[..i], field) == Ok(result)
    {
      assert items[..i + 1][..i] == items[..i];
      var text := Bounded(items[i], field, 300);
      if text.Err? {
        CollectedFails(items, field, i + 1);
        return Err(text.code);
      }
      if text.value !in result {
        result := result + [text.value];
      }
    }
    assert items[..|items|] == items;
    return Ok(result);
  }

  lemma {:induction false} CollectedFails(items: seq<Json>, field: string, i: nat)
    requires i <= |items| && Collected(items[..i], field).Err?
    ensures Collected(items, field) == Err(Collected(items[..i], field).code)
    decreases |items| - i
  {
    hide Bounded;
    if i == |items| {
      assert items[..i] == items;
    } else {
      assert items[..i + 1][..i] == items[..i];
      CollectedFails(items, field, i + 1);
    }
  }

  // ----- steps -----

  function StepIds(steps: seq<Step>): set<string> {
    set i | 0 <= i < |steps| :: steps[i].id
  }

  function StepOf(raw: Json, available: set<string>, ids: set<string>): Result<Step> {
    if !raw.JObj? || raw.fields.Keys != STEP_FIELDS then Err("plan_step_fields_invalid")
    else
      var id := Strip(PyStr(raw.fields["id"]));
      if !PlanId(id) || id in ids then Err("plan_step_id_invalid")
      else
        var tools :- StringList(raw.fields["required_tools"], "required_tools", 12);
        if exists i :: 0 <= i < |tools| && tools[i] !in available then Err("plan_tool_unavailable")
        else
          var evidence :- StringList(raw.fields["required_evidence"], "required_evidence", 12);
          var doneWhen :- StringList(raw.fields["done_when"], "done_when", 12);
          if doneWhen == [] then Err("plan_done_when_missing")
          else
            var goal :- Bounded(raw.fields["goal"], "goal", 300);
            var dependencies :- StringList(raw.fields["dependencies"], "dependencies", 20);
            Ok(Step(id, goal, dependencies, tools, evidence, doneWhen))
  }

  function StepsOf(items: seq<Json>, available: set<string>): Result<seq<Step>> {
    if items == [] then Ok([])
    else
      var steps :- StepsOf(items[..|items| - 1], available);
      var step :- StepOf(items[|items| - 1], available, StepIds(steps));
      Ok(steps + [step])
  }

  function Nodes(steps: seq<Step>): (r: seq<Node>)
    ensures |r| == |steps|
    ensures forall i :: 0 <= i < |r| ==> r[i] == Node(steps[i].id, set d | d in steps[i].dependencies)
  {
    seq(|steps|, i requires 0 <= i < |steps| => Node(steps[i].id, set d | d in steps[i].dependencies))
  }

  /** `_validate_steps`; whether the dependencies can be ordered is stated, not computed. */
  ghost function Steps(v: Json, available: set<string>): Result<seq<Step>> {
    if !v.JList? || !(1 <= |v.items| <= 20) then Err("plan_steps_invalid")
    else
      var steps :- StepsOf(v.items, available);
      if !DependenciesExist(Nodes(steps)) then Err("plan_dependency_missing")
      else if !Orderable(Nodes(steps)) then Err("plan_dependency_cycle")
      else Ok(steps)
  }

  lemma {:induction false} StepsOfFails(items: seq<Json>, available: set<string>, i: nat)
    requires i <= |items| && StepsOf(items[..i], available).Err?
    ensures StepsOf(items, available) == Err(StepsOf(items[..i], available).code)
    decreases |items| - i
  {
    hide StepOf;
    if i == |items| {
      assert items[..i] == items;
    } else {
      assert items[..i + 1][..i] == items[..i];
      StepsOfFails(items, available, i + 1);
    }
  }

  lemma {:induction false} StepIdsSnoc(steps: seq<Step>, step: Step)
    ensures StepIds(steps + [step]) == StepIds(steps) + {step.id}
  {
    var more := steps + [step];
    assert forall i :: 0 <= i < |steps| ==> more[i] == steps[i];
    assert more[|steps|] == step;
  }

  lemma {:induction false} StepsHaveDistinctIds(items: seq<Json>, available: set<string>)
    ensures StepsOf(items, available).Ok? ==>
              |StepsOf(items, available).value| == |items| && DistinctIds(Nodes(StepsOf(items, available).value))
  {
    hide StepOf;
    if items != [] && StepsOf(items, available).Ok? {
      var n := |items| - 1;
      StepsHaveDistinctIds(items[..n], available);
      var before, steps := StepsOf(items[..n], available).value, StepsOf(items, available).value;
      NewId(items[n], available, StepIds(before));
      assert steps[n].id !in StepIds(before);
      forall i, j | 0 <= i < j < |steps| ensures Nodes(steps)[i].id != Nodes(steps)[j].id {
        assert steps[i] == before[i];
        if j < n { assert Nodes(before)[i].id != Nodes(before)[j].id; }
      }
    }
  }

  lemma {:induction false} NewId(raw: Json, available: set<string>, ids: set<string>)
    ensures StepOf(raw, available, ids).Ok? ==> StepOf(raw, available, ids).value.id !in ids
  {
    hide StringList, Bounded;
  }

  /** One step of the loop of `_validate_steps`. */
  method ReadStep(raw: Json, available: set<string>, ids: set<string>) returns (r: Result<Step>)
    ensures r == StepOf(raw, available, ids)
  {
    hide StringList, Bounded, Strip, PlanId;
    if !raw.JObj? || raw.fields.Keys != STEP_FIELDS {
      return Err("plan_step_fields_invalid");
    }
    var id := Strip(PyStr(raw.fields["id"]));
    if !PlanId(id) || id in ids {
      return Err("plan_step_id_invalid");
    }
    var tools :- CollectStrings(raw.fields["required_tools"], "required_tools", 12);
    if exists i :: 0 <= i < |tools| && tools[i] !in available {
      return Err("plan_tool_unavailable");
    }
    var evidence :- CollectStrings(raw.fields["required_evidence"], "required_evidence", 12);
    var doneWhen :- CollectStrings(raw.fields["done_when"], "done_when", 12);
    if doneWhen == [] {
      return Err("plan_done_when_missing");
    }
    var goal :- Bounded(raw.fields["goal"], "goal", 300);
    var dependencies :- CollectStrings(raw.fields["dependencies"], "dependencies", 20);
    return Ok(Step(id, goal, dependencies, tools, evidence, doneWhen));
  }

  method ValidateSteps(v: Json, available: set<string>) returns (r: Result<seq<Step>>)
    ensures r == Steps(v, available)
  {
    hide StepOf, DistinctIds, DependenciesExist, Orderable;
    if !v.JList? || !(1 <= |v.items| <= 20) {
      return Err("plan_steps_invalid");
    }
    var steps: seq<Step> := [];
    var ids: set<string> := {};
    for i := 0 to |v.items|
      invariant StepsOf(v.items[..i], available) == Ok(steps) && ids == StepIds(steps)
    {
      assert v.items[..i + 1][..i] == v.items[..i];
      var step := ReadStep(v.items[i], available, ids);
      if step.Err? {
        StepsOfFails(v.items, available, i + 1);
        return Err(step.code);
      }
      StepIdsSnoc(steps, step.value);
      ids := ids + {step.value.id};
      steps := steps + [step.value];
    }
    assert v.items[..|v.items|] == v.items;
    StepsHaveDistinctIds(v.items, available);
    var check, visited := ValidateDag(Nodes(steps));
    match check {
      case DependencyMissing => return Err("plan_dependency_missing");
      case DependencyCycle => return Err("plan_dependency_cycle");
      case Acceptable => return Ok(steps);
    }
  }

  // ----- budgets -----

  function RawMinimum(key: string): int { if key == "tool_calls" then 0 else 1 }

  function BudgetOf(raw: Json, key: string, limit: int, floor: int): Result<int> {
    if !raw.JInt? || raw.n < RawMinimum(key) then Err("plan_budget_invalid")
    else if raw.n > limit then Err("plan_budget_exceeded")
    else if floor < 0 then Err("plan_budget_invalid")
    else if floor > limit then Err("plan_budget_exceeded")
    else Ok(Max(raw.n, floor))
  }

  function BudgetsOf(fields: map<string, Json>, maximum: map<string, int>, minimum: map<string, int>,
      keys: seq<string>): Result<map<string, int>>
    requires forall k :: k in keys ==> k in fields && k in maximum && k in minimum
  {
    if keys == [] then Ok(map[])
    else
      var key := keys[|keys| - 1];
      var budgets :- BudgetsOf(fields, maximum, minimum, keys[..|keys| - 1]);
      var budget :- BudgetOf(fields[key], key, maximum[key], minimum[key]);
      Ok(budgets[key := budget])
  }

  predicate BudgetShape(v: Json) {
    v.JObj? && v.fields.Keys == (set k | k in BUDGET_KEYS)
  }

  /** `_validate_budgets` */
  function BudgetsIn(v: Json, maximum: map<string, int>, minimum: map<string, int>): Result<map<string, int>>
    requires HasAll(maximum) && HasAll(minimum)
  {
    if !BudgetShape(v) then Err("plan_budgets_invalid") else BudgetsOf(v.fields, maximum, minimum, BUDGET_KEYS)
  }

  method ValidateBudgets(v: Json, maximum: map<string, int>, minimum: map<string, int>)
      returns (r: Result<map<string, int>>)
    requires HasAll(maximum) && HasAll(minimum)
    ensures r == BudgetsIn(v, maximum, minimum)
  {
    hide BudgetOf;
    if !BudgetShape(v) {
      return Err("plan_budgets_invalid");
    }
    var result: map<string, int> := map[];
    for i := 0 to |BUDGET_KEYS|
      invariant BudgetsOf(v.fields, maximum, minimum, BUDGET_KEYS[..i]) == Ok(result)
    {
      var key := BUDGET_KEYS[i];
      assert BUDGET_KEYS[..i + 1][..i] == BUDGET_KEYS[..i];
      var budget := BudgetOf(v.fields[key], key, maximum[key], minimum[key]);
      if budget.Err? {
        BudgetsFail(v.fields, maximum, minimum, BUDGET_KEYS, i + 1);
        return Err(budget.code);
      }
      result := result[key := budget.value];
    }
    assert BUDGET_KEYS[..|BUDGET_KEYS|] == BUDGET_KEYS;
    return Ok(result);
  }

  lemma {:induction false} BudgetsFail(fields: map<string, Json>, maximum: map<string, int>,
      minimum: map<string, int>, keys: seq<string>, i: nat)
    requires forall k :: k in keys ==> k in fields && k in maximum && k in minimum
    requires i <= |keys| && BudgetsOf(fields, maximum, minimum, keys[..i]).Err?
    ensures BudgetsOf(fields, maximum, minimum, keys) == Err(BudgetsOf(fields, maximum, minimum, keys[..i]).code)
    decreases |keys| - i
  {
    hide BudgetOf;
    if i == |keys| {
      assert keys[..i] == keys;
    } else {
      assert keys[..i + 1][..i] == keys[..i];
      BudgetsFail(fields, maximum, minimum, keys, i + 1);
    }
  }

  // ----- the whole plan -----

  function ToolKinds(steps: seq<Step>): set<string> {
    set i, t | 0 <= i < |steps| && t in steps[i].tools :: t
  }

  /** `_elevated_intent` */
  function ElevatedIntent(intent: string, steps: seq<Step>): string {
    if ToolKinds(steps) * WRITE_TOOLS != {} then CODE_CHANGE
    else if ToolKinds(steps) * READ_TOOLS != {} && intent == CONVERSATION then READ_ONLY
    else intent
  }

  predicate NeedsWorkspace(steps: seq<Step>) {
    exists i :: 0 <= i < |steps| && (steps[i].tools != [] || steps[i].evidence != [])
  }

  function Floors(request: Request): map<string, int> {
    PLAN_MINIMUM_BUDGETS + request.minimum
  }

  lemma {:induction false} FloorsHaveAll(request: Request)
    ensures HasAll(Floors(request))
  {
  }

  function ToolFloor(request: Request, kinds: nat): int
    requires HasAll(Floors(request))
  {
    Max(Floors(request)["tool_calls"], kinds)
  }

  function RoundFloor(request: Request, kinds: nat): int
    requires HasAll(Floors(request))
  {
    Max(Floors(request)["model_rounds"], MIN_PLAN_MODEL_ROUNDS + kinds)
  }

  /** The budgets raised to what the required tools need. */
  function Raised(request: Request, budgets: map<string, int>, kinds: nat): Result<map<string, int>>
    requires HasAll(request.maximum) && HasAll(budgets) && HasAll(Floors(request))
  {
    if ToolFloor(request, kinds) > request.maximum["tool_calls"] then Err("plan_budget_exceeded")
    else if RoundFloor(request, kinds) > request.maximum["model_rounds"] then Err("plan_budget_exceeded")
    else
      Ok(budgets["tool_calls" := Max(budgets["tool_calls"], ToolFloor(request, kinds))]
                ["model_rounds" := Max(budgets["model_rounds"], RoundFloor(request, kinds))])
  }

  lemma {:induction false} BudgetsHaveAll(v: Json, maximum: map<string, int>, minimum: map<string, int>)
    requires HasAll(maximum) && HasAll(minimum) && BudgetsIn(v, maximum, minimum).Ok?
    ensures var b := BudgetsIn(v, maximum, minimum).value;
            HasAll(b) && b.Keys == (set k | k in BUDGET_KEYS)
            && forall k :: k in BUDGET_KEYS ==>
                 v.fields[k].JInt? && b[k] == Max(v.fields[k].n, minimum[k]) &&
                     RawMinimum(k) <= v.fields[k].n <= maximum[k] &&
                 0 <= minimum[k] <= maximum[k]
  {
    BudgetsAre(v.fields, maximum, minimum, BUDGET_KEYS);
  }

  lemma {:induction false} BudgetsAre(fields: map<string, Json>, maximum: map<string, int>, minimum: map<string, int>,
      keys: seq<string>)
    requires forall k :: k in keys ==> k in fields && k in maximum && k in minimum
    requires BudgetsOf(fields, maximum, minimum, keys).Ok?
    ensures var b := BudgetsOf(fields, maximum, minimum, keys).value;
            && (forall k :: k in b <==> k in keys)
            && forall k :: k in keys ==>
                 fields[k].JInt? && b[k] == Max(fields[k].n, minimum[k]) &&
                     RawMinimum(k) <= fields[k].n <= maximum[k] &&
                 0 <= minimum[k] <= maximum[k]
  {
    if keys != [] {
      BudgetsAre(fields, maximum, minimum, keys[..|keys| - 1]);
    }
  }

  /** The end of the validation: the intent, then the budgets. */
  function Concluded(budgetsRaw: Json, request: Request, planId: string, summary: string, intent: string,
                     riskLevel: string, acceptance: seq<string>, steps: seq<Step>): Result<Plan>
    requires HasAll(request.maximum)
  {
    var elevated := ElevatedIntent(intent, steps);
    if intent == CONVERSATION && NeedsWorkspace(steps) then Err("plan_conversation_requires_no_tools")
    else if elevated == CODE_CHANGE && ToolKinds(steps) * WRITE_TOOLS == {} then Err("plan_write_step_missing")
    else
      FloorsHaveAll(request);
      var budgets :- BudgetsIn(budgetsRaw, request.maximum, Floors(request));
      BudgetsHaveAll(budgetsRaw, request.maximum, Floors(request));
      var raised :- Raised(request, budgets, |ToolKinds(steps)|);
      if raised["model_rounds"] < MIN_PLAN_MODEL_ROUNDS then Err("plan_budget_too_small")
      else Ok(Plan(planId, request.revision, elevated, summary, steps, acceptance, riskLevel, raised))
  }

  /** `parse_and_validate_plan` after json.loads. */
  ghost function Validated(v: Json, request: Request): Result<Plan>
    requires HasAll(request.maximum)
  {
    if !v.JObj? then Err("plan_not_object")
    else if v.fields.Keys != PLAN_FIELDS then Err("plan_fields_invalid")
    else
      var f := v.fields;
      var planId := Strip(PyStr(f["plan_id"]));
      if f["schema_version"].JBool? || PyStr(f["schema_version"]) != "1" then Err("plan_schema_unsupported")
      else if !PlanId(planId) then Err("plan_id_invalid")
      else if !EqualsInt(f["revision"], request.revision) then Err("plan_revision_invalid")
      else if request.planId != "" && planId != request.planId then Err("plan_id_changed")
      else
        var summary :- Bounded(f["summary"], "summary", 500);
        var intent := Strip(PyStr(f["intent"]));
        var riskLevel := Strip(PyStr(f["risk_level"]));
        if intent !in {CONVERSATION, READ_ONLY, CODE_CHANGE} then Err("plan_intent_invalid")
        else if riskLevel !in RISK_LEVELS then Err("plan_risk_invalid")
        else
          var acceptance :- StringList(f["acceptance"], "acceptance", 12);
          if acceptance == [] then Err("plan_acceptance_missing")
          else
            var steps :- Steps(f["steps"], request.available);
            Concluded(f["budgets"], request, planId, summary, intent, riskLevel, acceptance, steps)
  }

  method ParseAndValidatePlan(v: Json, request: Request) returns (r: Result<Plan>)
    requires HasAll(request.maximum)
    ensures r == Validated(v, request)
  {
    hide Steps, StringList, Bounded, Strip, PlanId, PyStr, BudgetsIn, Raised, ToolKinds, NeedsWorkspace, HasAll;
    if !v.JObj? {
      return Err("plan_not_object");
    }
    if v.fields.Keys != PLAN_FIELDS {
      return Err("plan_fields_invalid");
    }
    var f := v.fields;
    if f["schema_version"].JBool? || PyStr(f["schema_version"]) != "1" {
      return Err("plan_schema_unsupported");
    }
    var planId := Strip(PyStr(f["plan_id"]));
    if !PlanId(planId) {
      return Err("plan_id_invalid");
    }
    if !EqualsInt(f["revision"], request.revision) {
      return Err("plan_revision_invalid");
    }
    if request.planId != "" && planId != request.planId {
      return Err("plan_id_changed");
    }
    var summary :- Bounded(f["summary"], "summary", 500);
    var intent := Strip(PyStr(f["intent"]));
    if intent !in {CONVERSATION, READ_ONLY, CODE_CHANGE} {
      return Err("plan_intent_invalid");
    }
    var riskLevel := Strip(PyStr(f["risk_level"]));
    if riskLevel !in RISK_LEVELS {
      return Err("plan_risk_invalid");
    }
    var acceptance :- CollectStrings(f["acceptance"], "acceptance", 12);
    if acceptance == [] {
      return Err("plan_acceptance_missing");
    }
    var steps :- ValidateSteps(f["steps"], request.available);
    r := ValidateRest(f, request, planId, summary, intent, riskLevel, acceptance, steps);
  }

  /** From the intent check to the returned plan. */
  method ValidateRest(f: map<string, Json>, request: Request, planId: string, summary: string, intent: string,
                      riskLevel: string, acceptance: seq<string>, steps: seq<Step>) returns (r: Result<Plan>)
    requires HasAll(request.maximum) && "budgets" in f
    ensures r == Concluded(f["budgets"], request, planId, summary, intent, riskLevel, acceptance, steps)
  {
    hide BudgetsIn, ToolKinds, NeedsWorkspace, Raised, HasAll, Floors;
    if intent == CONVERSATION && NeedsWorkspace(steps) {
      return Err("plan_conversation_requires_no_tools");
    }
    var elevated := ElevatedIntent(intent, steps);
    if elevated == CODE_CHANGE && !exists i :: 0 <= i < |steps| && (set t | t in steps[i].tools) * WRITE_TOOLS != {} {
      WriteStep(steps);
      return Err("plan_write_step_missing");
    }
    WriteStep(steps);
    FloorsHaveAll(request);
    var budgets :- ValidateBudgets(f["budgets"], request.maximum, Floors(request));
    BudgetsHaveAll(f["budgets"], request.maximum, Floors(request));
    var raised :- RaiseBudgets(request, budgets, |ToolKinds(steps)|);
    if raised["model_rounds"] < MIN_PLAN_MODEL_ROUNDS {
      return Err("plan_budget_too_small");
    }
    return Ok(Plan(planId, request.revision, elevated, summary, steps, acceptance, riskLevel, raised));
  }

  /** The floors that the required tools set. */
  method RaiseBudgets(request: Request, budgets: map<string, int>, kinds: nat) returns (r: Result<map<string, int>>)
    requires HasAll(request.maximum) && HasAll(budgets) && HasAll(Floors(request))
    ensures r == Raised(request, budgets, kinds)
    ensures r.Ok? ==> "model_rounds" in r.value
  {
    hide Floors, ToolFloor, RoundFloor;
    if ToolFloor(request, kinds) > request.maximum["tool_calls"] {
      return Err("plan_budget_exceeded");
    }
    if RoundFloor(request, kinds) > request.maximum["model_rounds"] {
      return Err("plan_budget_exceeded");
    }
    var raised := budgets["tool_calls" := Max(budgets["tool_calls"], ToolFloor(request, kinds))];
    raised := raised["model_rounds" := Max(budgets["model_rounds"], RoundFloor(request, kinds))];
    return Ok(raised);
  }

  lemma {:induction false} WriteStep(steps: seq<Step>)
    ensures (exists i :: 0 <= i < |steps| && (set t | t in steps[i].tools) * WRITE_TOOLS != {}) <==>
            ToolKinds(steps) * WRITE_TOOLS != {}
  {
    if ToolKinds(steps) * WRITE_TOOLS != {} {
      var t :| t in ToolKinds(steps) * WRITE_TOOLS;
      var i :| 0 <= i < |steps| && t in steps[i].tools;
      assert t in (set u | u in steps[i].tools) * WRITE_TOOLS;
    }
    if exists i :: 0 <= i < |steps| && (set t | t in steps[i].tools) * WRITE_TOOLS != {} {
      var i :| 0 <= i < |steps| && (set t | t in steps[i].tools) * WRITE_TOOLS != {};
      var t :| t in (set u | u in steps[i].tools) * WRITE_TOOLS;
      assert t in ToolKinds(steps) * WRITE_TOOLS;
    }
  }
}
