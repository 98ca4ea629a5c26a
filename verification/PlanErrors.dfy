/** Which error the plan validator raises: the code of the first rule, in a fixed
    order, that the value breaks. */
module PlanErrors {
  import opened Basics
  import opened Text
  import opened PlanDag
  import opened PlanContract
  import opened PlanIdempotence
  import opened PlanNormalForm

  /** A text of 1 to `maximum` characters once it is trimmed. */
  predicate Textual(v: Json, maximum: nat) {
    v.JStr? && 1 <= |Strip(v.s)| <= maximum
  }

  /** A text, or a list of at most `maximum` texts, of 1 to 300 characters each. */
  predicate Listable(v: Json, maximum: nat) {
    && (v.JStr? || v.JList?) && |Items(v)| <= maximum
    && forall i :: 0 <= i < |Items(v)| ==> Textual(Items(v)[i], 300)
  }

  /** Some tool is none of those on offer. */
  predicate Unavailable(items: seq<Json>, available: set<string>) {
    exists i :: 0 <= i < |items| && Trim(items[i]) !in available
  }

  lemma {:induction false} BoundedErrors(v: Json, field: string, maximum: nat)
    ensures if Textual(v, maximum) then Bounded(v, field, maximum).Ok?
            else Bounded(v, field, maximum) == Err("plan_" + field + "_invalid")
  {
    hide Strip;
    if v.JStr? { assert Strip(v.s) == "" <==> |Strip(v.s)| == 0; }
  }

  lemma {:induction false} CollectedErrors(items: seq<Json>, field: string)
    ensures if forall i :: 0 <= i < |items| ==> Textual(items[i], 300) then Collected(items, field).Ok?
            else Collected(items, field) == Err("plan_" + field + "_invalid")
    decreases |items|
  {
    hide Bounded, Textual;
    if items != [] {
      var n := |items| - 1;
      CollectedErrors(items[..n], field);
      BoundedErrors(items[n], field, 300);
      assert forall i :: 0 <= i < n ==> items[..n][i] == items[i];
    }
  }

  lemma {:induction false} StringListErrors(v: Json, field: string, maximum: nat)
    ensures if Listable(v, maximum) then StringList(v, field, maximum).Ok?
            else StringList(v, field, maximum) == Err("plan_" + field + "_invalid")
  {
    hide Collected, Textual;
    CollectedErrors(Items(v), field);
  }

  lemma {:induction false} EmptyList(v: Json, field: string, maximum: nat)
    requires StringList(v, field, maximum).Ok? && maximum >= 1
    ensures StringList(v, field, maximum).value == [] <==> v == JList([])
  {
    hide TextList, ListForm;
    StringListExactly(v, field, maximum, StringList(v, field, maximum).value);
    ListIsEmpty(v, maximum, StringList(v, field, maximum).value);
  }

  /** The rules for one step, in their order. */
  lemma {:induction false} StepErrors(raw: Json, available: set<string>, ids: set<string>)
    ensures var r := StepOf(raw, available, ids);
            if !raw.JObj? || raw.fields.Keys != {"id", "goal", "dependencies", "required_tools", "required_evidence",
                                                 "done_when"}
            then r == Err("plan_step_fields_invalid")
            else
              var f := raw.fields;
              var id := Strip(PyStr(f["id"]));
              if !PlanId(id) || id in ids then r == Err("plan_step_id_invalid")
              else if !Listable(f["required_tools"], 12) then r == Err("plan_required_tools_invalid")
              else if Unavailable(Items(f["required_tools"]), available)
              then r == Err("plan_tool_unavailable")
              else if !Listable(f["required_evidence"], 12) then r == Err("plan_required_evidence_invalid")
              else if !Listable(f["done_when"], 12) then r == Err("plan_done_when_invalid")
              else if f["done_when"] == JList([]) then r == Err("plan_done_when_missing")
              else if !Textual(f["goal"], 300) then r == Err("plan_goal_invalid")
              else if !Listable(f["dependencies"], 20) then r == Err("plan_dependencies_invalid")
              else r.Ok?
  {
    hide StringList, Bounded, Listable, Textual, Strip, PlanId, PyStr, Trim;
    FieldsAre(raw);
    if raw.JObj? && raw.fields.Keys == STEP_FIELDS {
      var f := raw.fields;
      StringListErrors(f["required_tools"], "required_tools", 12);
      StringListErrors(f["required_evidence"], "required_evidence", 12);
      StringListErrors(f["done_when"], "done_when", 12);
      StringListErrors(f["dependencies"], "dependencies", 20);
      BoundedErrors(f["goal"], "goal", 300);
      RequiredToolsCode();
      RequiredEvidenceCode();
      DoneWhenCode();
      DependenciesCode();
      GoalCode();
      if StringList(f["done_when"], "done_when", 12).Ok? { EmptyList(f["done_when"], "done_when", 12); }
      if StringList(f["required_tools"], "required_tools", 12).Ok? { ToolsMissing(f["required_tools"], available); }
    }
  }

  lemma {:induction false} FieldsAre(raw: Json)
    ensures STEP_FIELDS == {"id", "goal", "dependencies", "required_tools", "required_evidence", "done_when"}
  {
  }

  lemma {:induction false} RequiredToolsCode()
    ensures "plan_" + "required_tools" + "_invalid" == "plan_required_tools_invalid"
  {
  }

  lemma {:induction false} RequiredEvidenceCode()
    ensures "plan_" + "required_evidence" + "_invalid" == "plan_required_evidence_invalid"
  {
  }

  lemma {:induction false} DoneWhenCode()
    ensures "plan_" + "done_when" + "_invalid" == "plan_done_when_invalid"
  {
  }

  lemma {:induction false} DependenciesCode()
    ensures "plan_" + "dependencies" + "_invalid" == "plan_dependencies_invalid"
  {
  }

  lemma {:induction false} GoalCode()
    ensures "plan_" + "goal" + "_invalid" == "plan_goal_invalid"
  {
  }

  lemma {:induction false} SummaryCode()
    ensures "plan_" + "summary" + "_invalid" == "plan_summary_invalid"
  {
  }

  lemma {:induction false} AcceptanceCode()
    ensures "plan_" + "acceptance" + "_invalid" == "plan_acceptance_invalid"
  {
  }

  lemma {:induction false} ToolsMissing(v: Json, available: set<string>)
    requires StringList(v, "required_tools", 12).Ok?
    ensures var tools := StringList(v, "required_tools", 12).value;
            (exists i :: 0 <= i < |tools| && tools[i] !in available) <==>
            exists i :: 0 <= i < |Items(v)| && Trim(Items(v)[i]) !in available
  {
    hide TextList, Trim, Distinct, StringList;
    var tools := StringList(v, "required_tools", 12).value;
    StringListExactly(v, "required_tools", 12, tools);
    var trims := Trims(Items(v));
    DistinctHas(trims);
    if i :| 0 <= i < |tools| && tools[i] !in available {
      assert tools[i] in trims;
      var k :| 0 <= k < |trims| && trims[k] == tools[i];
      assert Trim(Items(v)[k]) !in available;
    }
    if i :| 0 <= i < |Items(v)| && Trim(Items(v)[i]) !in available {
      assert trims[i] in tools;
      var k :| 0 <= k < |tools| && tools[k] == trims[i];
    }
  }

  /** The first step that breaks a rule gives the code. */
  lemma {:induction false} FirstBadStep(items: seq<Json>, available: set<string>) returns (i: nat)
    requires StepsOf(items, available).Err?
    ensures i < |items| && StepsOf(items[..i], available).Ok?
    ensures StepOf(items[i], available, StepIds(StepsOf(items[..i], available).value)) ==
            Err(StepsOf(items, available).code)
    decreases |items|
  {
    hide StepOf;
    var n := |items| - 1;
    if StepsOf(items[..n], available).Err? {
      i := FirstBadStep(items[..n], available);
      assert items[..n][..i] == items[..i];
    } else {
      i := n;
    }
  }

  /** The rules for one budget, in their order. */
  lemma {:induction false} BudgetErrors(raw: Json, key: string, limit: int, floor: int)
    ensures var r := BudgetOf(raw, key, limit, floor);
            if !raw.JInt? || raw.n < (if key == "tool_calls" then 0 else 1) then r == Err("plan_budget_invalid")
            else if raw.n > limit then r == Err("plan_budget_exceeded")
            else if floor < 0 then r == Err("plan_budget_invalid")
            else if floor > limit then r == Err("plan_budget_exceeded")
            else r.Ok?
  {
  }

  /** The first bad budget, in the order of the names, gives the code. */
  lemma {:induction false} FirstBadBudget(fields: map<string, Json>, maximum: map<string, int>,
      minimum: map<string, int>, keys: seq<string>) returns (i: nat)
    requires forall k :: k in keys ==> k in fields && k in maximum && k in minimum
    requires BudgetsOf(fields, maximum, minimum, keys).Err?
    ensures i < |keys| && forall j :: 0 <= j < i ==>
            BudgetOf(fields[keys[j]], keys[j], maximum[keys[j]], minimum[keys[j]]).Ok?
    ensures BudgetOf(fields[keys[i]], keys[i], maximum[keys[i]], minimum[keys[i]]) ==
            Err(BudgetsOf(fields, maximum, minimum, keys).code)
    decreases |keys|
  {
    hide BudgetOf;
    var n := |keys| - 1;
    if BudgetsOf(fields, maximum, minimum, keys[..n]).Err? {
      i := FirstBadBudget(fields, maximum, minimum, keys[..n]);
    } else {
      i := n;
      BudgetsAllOk(fields, maximum, minimum, keys[..n]);
    }
  }

  lemma {:induction false} BudgetsAllOk(fields: map<string, Json>, maximum: map<string, int>,
      minimum: map<string, int>, keys: seq<string>)
    requires forall k :: k in keys ==> k in fields && k in maximum && k in minimum
    requires BudgetsOf(fields, maximum, minimum, keys).Ok?
    ensures forall j :: 0 <= j < |keys| ==> BudgetOf(fields[keys[j]], keys[j], maximum[keys[j]], minimum[keys[j]]).Ok?
    decreases |keys|
  {
    hide BudgetOf;
    if keys != [] { BudgetsAllOk(fields, maximum, minimum, keys[..|keys| - 1]); }
  }

  /** The rules for the whole plan, up to its steps, in their order. */
  lemma {:induction false} PlanErrorsInOrder(v: Json, request: Request)
    requires HasAll(request.maximum)
    ensures var r := Validated(v, request);
            if !v.JObj? then r == Err("plan_not_object")
            else if v.fields.Keys != PLAN_FIELDS then r == Err("plan_fields_invalid")
            else
              var f := v.fields;
              if f["schema_version"].JBool? ||
                  PyStr(f["schema_version"]) != "1" then r == Err("plan_schema_unsupported")
              else if !PlanId(Strip(PyStr(f["plan_id"]))) then r == Err("plan_id_invalid")
              else if !EqualsInt(f["revision"], request.revision) then r == Err("plan_revision_invalid")
              else if request.planId != "" &&
                  Strip(PyStr(f["plan_id"])) != request.planId then r == Err("plan_id_changed")
              else if !Textual(f["summary"], 500) then r == Err("plan_summary_invalid")
              else if Strip(PyStr(f["intent"])) !in {"conversation", "read_only", "code_change"}
              then r == Err("plan_intent_invalid")
              else if Strip(PyStr(f["risk_level"])) !in {"low", "medium", "high"} then r == Err("plan_risk_invalid")
              else if !Listable(f["acceptance"], 12) then r == Err("plan_acceptance_invalid")
              else if f["acceptance"] == JList([]) then r == Err("plan_acceptance_missing")
              else if !f["steps"].JList? || !(1 <= |f["steps"].items| <= 20) then r == Err("plan_steps_invalid")
              else
                var steps := StepsOf(f["steps"].items, request.available);
                if steps.Err? then r == Err(steps.code)
                else if !DependenciesExist(Nodes(steps.value)) then r == Err("plan_dependency_missing")
                else !Orderable(Nodes(steps.value)) ==> r == Err("plan_dependency_cycle")
  {
    hide StringList, Bounded, Listable, Textual, Strip, PlanId, PyStr, EqualsInt, Concluded, StepsOf, HasAll,
         DependenciesExist, Orderable;
    if v.JObj? && v.fields.Keys == PLAN_FIELDS {
      var f := v.fields;
      BoundedErrors(f["summary"], "summary", 500);
      StringListErrors(f["acceptance"], "acceptance", 12);
      SummaryCode();
      AcceptanceCode();
      if StringList(f["acceptance"], "acceptance", 12).Ok? { EmptyList(f["acceptance"], "acceptance", 12); }
    }
  }

  /** A plan that breaks none of these rules is decided by what comes behind the steps. */
  lemma {:induction false} PlanConcludes(v: Json, request: Request, summary: string, acceptance: seq<string>,
      steps: seq<Step>)
    requires HasAll(request.maximum) && v.JObj? && v.fields.Keys == PLAN_FIELDS
    requires Bounded(v.fields["summary"], "summary", 500) == Ok(summary)
    requires StringList(v.fields["acceptance"], "acceptance", 12) == Ok(acceptance) && acceptance != []
    requires Steps(v.fields["steps"], request.available) == Ok(steps)
    ensures var r, f := Validated(v, request), v.fields;
            !f["schema_version"].JBool? && PyStr(f["schema_version"]) == "1" && PlanId(Strip(PyStr(f["plan_id"]))) &&
            EqualsInt(f["revision"], request.revision) &&
            (request.planId == "" || Strip(PyStr(f["plan_id"])) == request.planId) &&
            Strip(PyStr(f["intent"])) in {"conversation", "read_only", "code_change"} &&
            Strip(PyStr(f["risk_level"])) in {"low", "medium", "high"} ==>
              r == Concluded(f["budgets"], request, Strip(PyStr(f["plan_id"])), summary, Strip(PyStr(f["intent"])),
                             Strip(PyStr(f["risk_level"])), acceptance, steps)
  {
    hide StringList, Bounded, Strip, PlanId, PyStr, EqualsInt, Concluded, Steps, HasAll;
  }

  /** And behind the steps: the intent, then the budgets, then what the tools need. */
  lemma {:induction false} ConclusionErrors(v: Json, request: Request, planId: string, summary: string, intent: string,
      riskLevel: string, acceptance: seq<string>, steps: seq<Step>)
    requires HasAll(request.maximum) && HasAll(Floors(request)) && intent in {CONVERSATION, READ_ONLY, CODE_CHANGE}
    ensures var r := Concluded(v, request, planId, summary, intent, riskLevel, acceptance, steps);
            var kinds := |ToolKinds(steps)|;
            if intent == "conversation" && NeedsWorkspace(steps) then r == Err("plan_conversation_requires_no_tools")
            else if intent == "code_change" && !Writes(steps) then r == Err("plan_write_step_missing")
            else if !v.JObj? || v.fields.Keys != (set k | k in BUDGET_KEYS) then r == Err("plan_budgets_invalid")
            else
              var budgets := BudgetsIn(v, request.maximum, Floors(request));
              if budgets.Err? then r == Err(budgets.code)
              else if Max(Floors(request)["tool_calls"], kinds) > request.maximum["tool_calls"] ||
                      Max(Floors(request)["model_rounds"], 3 + kinds) > request.maximum["model_rounds"]
              then r == Err("plan_budget_exceeded")
              else r.Ok?
  {
    hide BudgetsIn, ToolKinds, NeedsWorkspace, HasAll, Floors, Writes, WellBudgets;
    FloorsHaveAll(request);
    WritesExactly(steps);
    RoundsEnough(v, request, |ToolKinds(steps)|);
    BudgetedIs(v, request, |ToolKinds(steps)|);
    ShapeFirst(v, request);
  }

  lemma {:induction false} ShapeFirst(v: Json, request: Request)
    requires HasAll(request.maximum) && HasAll(Floors(request))
    ensures !v.JObj? || v.fields.Keys != (set k | k in BUDGET_KEYS) ==>
              BudgetsIn(v, request.maximum, Floors(request)) == Err("plan_budgets_invalid")
  {
  }
}
