/** Plan construction in the agent router. */
module AgentPlanner {
  import opened Common
  import opened AgentTools

  /** `toolName` is empty when the step uses no tool. */
  datatype Step = Step(stepId: string, agentCode: string, action: string, dependsOn: seq<string>,
                       toolName: string, requiresReview: bool)

  function StepId(n: nat): string {
    "step_" + Decimal(n)
  }

  ghost predicate UniqueIds(steps: seq<Step>) {
    forall i, j :: 0 <= i < j < |steps| ==> steps[i].stepId != steps[j].stepId
  }

  /** Every dependency is the id of an earlier step. */
  ghost predicate BackwardDependencies(steps: seq<Step>) {
    forall i, d :: 0 <= i < |steps| && d in steps[i].dependsOn ==> HasStepBefore(steps, i, d)
  }

  ghost predicate HasStepBefore(steps: seq<Step>, i: nat, id: string) {
    exists j :: 0 <= j < i && j < |steps| && steps[j].stepId == id
  }

  /** Every step after the first waits for the step just before it. */
  ghost predicate Chained(steps: seq<Step>) {
    forall i :: 0 < i < |steps| ==> steps[i - 1].stepId in steps[i].dependsOn
  }

  ghost predicate Numbered(steps: seq<Step>) {
    forall i :: 0 <= i < |steps| ==> steps[i].stepId == StepId(i + 1)
  }

  predicate IsWriteStep(s: Step) {
    s.toolName in WRITE_TOOLS
  }

  /** What the executor may rely on for every plan the router builds. */
  ghost predicate WellPlanned(steps: seq<Step>) {
    && Numbered(steps) && BackwardDependencies(steps) && Chained(steps)
    && (forall s :: s in steps && IsWriteStep(s) ==> s.requiresReview)
    && (forall i :: 0 <= i < |steps| && IsWriteStep(steps[i]) ==> i == |steps| - 1)
  }

  lemma NumberedIdsUnique(steps: seq<Step>)
    requires Numbered(steps)
    ensures UniqueIds(steps)
  {
    forall i, j | 0 <= i < j < |steps| ensures steps[i].stepId != steps[j].stepId {
      if steps[i].stepId == steps[j].stepId {
        assert StepId(i + 1)[5..] == Decimal(i + 1) && StepId(j + 1)[5..] == Decimal(j + 1);
        DecimalInjective(i + 1, j + 1);
      }
    }
  }

  function Second(agentCode: string, action: string, toolName: string, requiresReview: bool): Step {
    Step("step_2", agentCode, action, ["step_1"], toolName, requiresReview)
  }

  function Third(agentCode: string, action: string, toolName: string, requiresReview: bool): Step {
    Step("step_3", agentCode, action, ["step_2"], toolName, requiresReview)
  }

  // ----- the fixed steps of each specialist

  function MetricQuerySteps(needsReview: bool): seq<Step> {
    [Second("nl2sql_analyst", "load_metric_semantic_context", "metrics.read_catalog", false),
     Third("nl2sql_analyst", "prepare_guarded_nl2sql_request", "POST /api/v1/agent/nl2sql", needsReview)]
  }

  function RectificationSteps(needsReview: bool): seq<Step> {
    [Second("hazard_rectification_advisor", "collect_hazard_evidence", "hazards.read", false),
     Third("hazard_rectification_advisor", "search_knowledge_evidence", "knowledge.search", false),
     Step("step_4", "hazard_rectification_advisor", "draft_rectification_suggestion", ["step_2", "step_3"],
          "", needsReview)]
  }

  function CoordinationSteps(needsReview: bool): seq<Step> {
    [Second("work_order_coordinator", "inspect_work_order_state", "work_orders.read", false),
     Third("work_order_coordinator", "identify_next_legal_action", "", needsReview)]
  }

  function ComplianceSteps(needsReview: bool): seq<Step> {
    [Second("rule_compliance_checker", "collect_rule_trigger_evidence", "rules.read_triggers", false),
     Third("rule_compliance_checker", "explain_rule_trigger", "", needsReview)]
  }

  function RiskSteps(needsReview: bool): seq<Step> {
    [Second("risk_profile_analyst", "load_profile_evidence", "profile.read", false),
     Third("risk_profile_analyst", "explain_risk_drivers", "", needsReview)]
  }

  function SupervisorSteps(needsReview: bool): seq<Step> {
    [Second("safety_supervisor", "draft_general_safety_response_plan", "", needsReview)]
  }

  /** The steps of the addressed specialist; an unknown agent gets the supervisor's. */
  function BranchSteps(targetAgent: string, needsReview: bool): seq<Step> {
    if targetAgent == "nl2sql_analyst" then MetricQuerySteps(needsReview)
    else if targetAgent == "hazard_rectification_advisor" then RectificationSteps(needsReview)
    else if targetAgent == "work_order_coordinator" then CoordinationSteps(needsReview)
    else if targetAgent == "rule_compliance_checker" then ComplianceSteps(needsReview)
    else if targetAgent == "risk_profile_analyst" then RiskSteps(needsReview)
    else SupervisorSteps(needsReview)
  }

  function FirstStep(): Step {
    Step("step_1", "safety_supervisor", "classify_intent_and_route", [], "", false)
  }

  /** The next step after a plan: numbered, and waiting for the last one. */
  function NextStep(before: seq<Step>, agentCode: string, action: string, toolName: string, requiresReview: bool): Step
    requires before != []
  {
    Step(StepId(|before| + 1), agentCode, action, [Last(before).stepId], toolName, requiresReview)
  }

  predicate Proposes(targetAgent: string, wantsProposal: bool) {
    targetAgent == "hazard_rectification_advisor" && wantsProposal
  }

  predicate Transitions(targetAgent: string, wantsTransition: bool) {
    targetAgent == "work_order_coordinator" && wantsTransition
  }

  /** The plan with the write step, if one is wanted. */
  function WithWriteStep(steps: seq<Step>, targetAgent: string, wantsProposal: bool, wantsTransition: bool): seq<Step>
    requires steps != []
  {
    if Proposes(targetAgent, wantsProposal) then
      steps + [NextStep(steps, "hazard_rectification_advisor", "propose_rectification_work_order",
                        "work_orders.create", true)]
    else if Transitions(targetAgent, wantsTransition) then
      steps + [NextStep(steps, "work_order_coordinator", "request_work_order_transition_approval",
                        "work_orders.transition", true)]
    else steps
  }

  /** The plan: the common first step, the specialist's steps, and the write step. */
  function PlanOf(targetAgent: string, needsReview: bool, wantsProposal: bool, wantsTransition: bool): seq<Step> {
    WithWriteStep([FirstStep()] + BranchSteps(targetAgent, needsReview), targetAgent, wantsProposal, wantsTransition)
  }

  /** `_build_planned_steps`. The two `wants` flags stand for the keyword tests on the message. The
      last addition never happens: a specialist's last step asks for the review already. */
  method BuildPlannedSteps(targetAgent: string, needsReview: bool, wantsProposal: bool, wantsTransition: bool)
    returns (steps: seq<Step>)
    ensures steps == PlanOf(targetAgent, needsReview, wantsProposal, wantsTransition)
    ensures WellPlanned(steps) && |steps| >= 2
    ensures needsReview ==> exists s :: s in steps && s.requiresReview
    ensures targetAgent == "hazard_rectification_advisor" && wantsProposal ==>
              Last(steps).toolName == "work_orders.create"
    ensures targetAgent == "work_order_coordinator" && wantsTransition ==>
              Last(steps).toolName == "work_orders.transition"
    ensures IsWriteStep(Last(steps)) <==>
              (targetAgent == "hazard_rectification_advisor" && wantsProposal)
              || (targetAgent == "work_order_coordinator" && wantsTransition)
  {
    steps := [FirstStep()];
    steps := steps + BranchSteps(targetAgent, needsReview);
    BranchStepsOk(targetAgent, needsReview);
    BranchIsWellPlanned(BranchSteps(targetAgent, needsReview));
    ghost var branch := steps;
    if targetAgent == "hazard_rectification_advisor" && wantsProposal {
      steps := AppendStep(steps, "hazard_rectification_advisor", "propose_rectification_work_order",
                          "work_orders.create", true);
    }
    if targetAgent == "work_order_coordinator" && wantsTransition {
      steps := AppendStep(steps, "work_order_coordinator", "request_work_order_transition_approval",
                          "work_orders.transition", true);
    }
    assert needsReview ==> branch[|branch| - 1] == steps[|branch| - 1];
    if needsReview && !(exists s :: s in steps && s.requiresReview) {
      steps := AppendStep(steps, "safety_supervisor", "request_human_review", "", true);
    }
  }

  lemma StepIdNames()
    ensures StepId(1) == "step_1" && StepId(2) == "step_2" && StepId(3) == "step_3" && StepId(4) == "step_4"
  {
    assert Decimal(1) == "1" && Decimal(2) == "2" && Decimal(3) == "3" && Decimal(4) == "4";
  }

  /** Consecutive ids from `step_2`, each step waiting for its predecessor. */
  ghost predicate BranchShape(branch: seq<Step>) {
    && 1 <= |branch| <= 3
    && IsSecond(branch[0])
    && (|branch| > 1 ==> IsThird(branch[1]))
    && (|branch| > 2 ==> branch[2].stepId == "step_4" && branch[2].dependsOn == ["step_2", "step_3"])
  }

  predicate IsSecond(s: Step) {
    s.stepId == "step_2" && s.dependsOn == ["step_1"]
  }

  predicate IsThird(s: Step) {
    s.stepId == "step_3" && s.dependsOn == ["step_2"]
  }

  ghost predicate BranchTools(branch: seq<Step>) {
    forall i :: 0 <= i < |branch| ==> branch[i].toolName in BRANCH_TOOLS
  }

  const BRANCH_TOOLS := {"metrics.read_catalog", "POST /api/v1/agent/nl2sql", "hazards.read", "knowledge.search",
                         "work_orders.read", "rules.read_triggers", "profile.read", ""}

  lemma BranchToolsAreNotWrite()
    ensures BRANCH_TOOLS !! WRITE_TOOLS
  {
    assert forall t :: t in BRANCH_TOOLS ==> t != "work_orders.create";
    assert forall t :: t in BRANCH_TOOLS ==> t != "work_orders.dispatch";
    assert forall t :: t in BRANCH_TOOLS ==> t != "work_orders.transition";
    assert forall t :: t in BRANCH_TOOLS ==> t != "hazards.create";
  }

  /** What the plan builder needs to know of a branch. */
  ghost predicate BranchOk(branch: seq<Step>, needsReview: bool) {
    BranchShape(branch) && BranchTools(branch) && Last(branch).requiresReview == needsReview
  }

  lemma MetricQueryStepsOk(needsReview: bool)
    ensures BranchOk(MetricQuerySteps(needsReview), needsReview)
  {
  }

  lemma RectificationStepsOk(needsReview: bool)
    ensures BranchOk(RectificationSteps(needsReview), needsReview)
  {
  }

  lemma CoordinationStepsOk(needsReview: bool)
    ensures BranchOk(CoordinationSteps(needsReview), needsReview)
  {
  }

  lemma ComplianceStepsOk(needsReview: bool)
    ensures BranchOk(ComplianceSteps(needsReview), needsReview)
  {
  }

  lemma RiskStepsOk(needsReview: bool)
    ensures BranchOk(RiskSteps(needsReview), needsReview)
  {
  }

  lemma SupervisorStepsOk(needsReview: bool)
    ensures BranchOk(SupervisorSteps(needsReview), needsReview)
  {
  }

  lemma {:induction false} BranchStepsOk(targetAgent: string, needsReview: bool)
    ensures BranchOk(BranchSteps(targetAgent, needsReview), needsReview)
  {
    MetricQueryStepsOk(needsReview);
    RectificationStepsOk(needsReview);
    CoordinationStepsOk(needsReview);
    ComplianceStepsOk(needsReview);
    RiskStepsOk(needsReview);
    SupervisorStepsOk(needsReview);
  }

  lemma BranchIsWellPlanned(branch: seq<Step>)
    requires BranchShape(branch) && BranchTools(branch)
    ensures WellPlanned([FirstStep()] + branch)
    ensures forall s :: s in [FirstStep()] + branch ==> !IsWriteStep(s)
  {
    StepIdNames();
    BranchToolsAreNotWrite();
    var one := [FirstStep()];
    assert one[0].toolName in BRANCH_TOOLS;
    assert one[0].stepId == "step_1";
    var two := one + [branch[0]];
    assert HasStepBefore(one, 1, "step_1");
    AppendKeepsPlan(one, branch[0]);
    if |branch| == 1 {
      assert one + branch == two;
    } else {
      var three := two + [branch[1]];
      assert two[1].stepId == "step_2" && HasStepBefore(two, 2, "step_2");
      AppendKeepsPlan(two, branch[1]);
      if |branch| == 2 {
        assert one + branch == three;
      } else {
        assert three[1].stepId == "step_2" && HasStepBefore(three, 3, "step_2");
        assert three[2].stepId == "step_3" && HasStepBefore(three, 3, "step_3");
        AppendKeepsPlan(three, branch[2]);
        assert one + branch == three + [branch[2]];
      }
    }
  }

  lemma AppendKeepsPlan(before: seq<Step>, s: Step)
    requires WellPlanned(before) && before != []
    requires forall b :: b in before ==> !IsWriteStep(b)
    requires s.stepId == StepId(|before| + 1)
    requires Last(before).stepId in s.dependsOn
    requires forall d :: d in s.dependsOn ==> HasStepBefore(before, |before|, d)
    requires IsWriteStep(s) ==> s.requiresReview
    ensures WellPlanned(before + [s])
  {
    var steps := before + [s];
    forall i, d | 0 <= i < |steps| && d in steps[i].dependsOn ensures HasStepBefore(steps, i, d) {
      assert HasStepBefore(before, i, d);
      var j :| 0 <= j < i && j < |before| && before[j].stepId == d;
      assert steps[j].stepId == d;
    }
    forall i | 0 <= i < |before| ensures !IsWriteStep(steps[i]) {
      assert before[i] in before;
    }
  }

  /** Append a step that is numbered next and waits for the current last step. */
  method AppendStep(before: seq<Step>, agentCode: string, action: string, toolName: string, requiresReview: bool)
    returns (steps: seq<Step>)
    requires WellPlanned(before) && before != []
    requires forall s :: s in before ==> !IsWriteStep(s)
    requires toolName in WRITE_TOOLS ==> requiresReview
    ensures WellPlanned(steps)
    ensures steps == before + [NextStep(before, agentCode, action, toolName, requiresReview)]
  {
    var next := Step(StepId(|before| + 1), agentCode, action, [Last(before).stepId], toolName, requiresReview);
    assert before[|before| - 1].stepId == Last(before).stepId;
    AppendKeepsPlan(before, next);
    steps := before + [next];
  }
}
