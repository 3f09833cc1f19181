/** What a run of a plan built by the router does, step by step and call by call. */
module AgentRuns {
  import opened Common
  import opened AgentTools
  import opened AgentPlanner
  import opened AgentDag

  /** The user may act on the project: none is named, no project list binds the user, or it is listed. */
  predicate InScope(user: User, projectId: Option<string>) {
    || projectId == None || projectId == Some("")
    || !user.projectScoped || user.projectIds == []
    || (projectId.Some? && projectId.value in user.projectIds)
  }

  /** The run as a whole is not blocked. */
  ghost predicate Unblocked(cfg: Setting) {
    cfg.forced.None? && InScope(cfg.user, cfg.projectId)
  }

  /** The run is blocked as a whole if and only if the message asked for a restricted action or the
      project is outside the user's scope. */
  lemma BlockedAsWholeIff(user: User, projectId: Option<string>, restrictedAction: bool)
    ensures GlobalBlockReason(user, projectId, restrictedAction).None?
       <==> !restrictedAction && InScope(user, projectId)
  {
  }

  predicate WritesAtEnd(targetAgent: string, wantsProposal: bool, wantsTransition: bool) {
    Proposes(targetAgent, wantsProposal) || Transitions(targetAgent, wantsTransition)
  }

  // ----- the expected behaviour, written out for each agent

  /** The registry tools called in controlled mode. */
  function PlannedCalls(targetAgent: string): seq<string> {
    if targetAgent == "nl2sql_analyst" then ["metrics.read_catalog", "nl2sql.audit_only"]
    else if targetAgent == "hazard_rectification_advisor" then ["hazards.read", "knowledge.search"]
    else if targetAgent == "work_order_coordinator" then ["work_orders.read"]
    else if targetAgent == "rule_compliance_checker" then ["rules.read_triggers"]
    else if targetAgent == "risk_profile_analyst" then ["profile.read"]
    else []
  }

  /** The statuses in controlled mode: a step with a tool and the draft step are executed, a step
      without a tool passes. */
  function BranchStatuses(targetAgent: string): seq<StepStatus> {
    if targetAgent == "nl2sql_analyst" then [DryRunPassed, Executed, Executed]
    else if targetAgent == "hazard_rectification_advisor" then [DryRunPassed, Executed, Executed, Executed]
    else if targetAgent == "work_order_coordinator" then [DryRunPassed, Executed, DryRunPassed]
    else if targetAgent == "rule_compliance_checker" then [DryRunPassed, Executed, DryRunPassed]
    else if targetAgent == "risk_profile_analyst" then [DryRunPassed, Executed, DryRunPassed]
    else [DryRunPassed, DryRunPassed]
  }

  /** In a dry run every step passes; a write step waits for approval in both modes. */
  function Expected(mode: Mode, controlled: seq<StepStatus>, writes: bool): seq<StepStatus> {
    (if mode == ControlledExecute then controlled else seq(|controlled|, i => DryRunPassed))
    + if writes then [ApprovalRequired] else []
  }

  function PlannedStatuses(targetAgent: string, mode: Mode, writes: bool): seq<StepStatus> {
    Expected(mode, BranchStatuses(targetAgent), writes)
  }

  function WriteTool(targetAgent: string): string {
    if targetAgent == "hazard_rectification_advisor" then "work_orders.create" else "work_orders.transition"
  }

  // ----- a step that waits for nothing halted gets its own status

  function OwnStatus(cfg: Setting, step: Step): StepStatus {
    if IsDraftStep(step) then if cfg.mode == ControlledExecute then Executed else DryRunPassed
    else if step.toolName != "" then ToolStatus(cfg, NormalizedTool(step.toolName))
    else DryRunPassed
  }

  lemma OwnStatusNeverSkips(cfg: Setting, step: Step)
    ensures OwnStatus(cfg, step) != Skipped
  {
  }

  /** A plan whose steps before the last do not halt of themselves runs to its last step. */
  lemma {:induction false} UnhaltedRun(cfg: Setting, steps: seq<Step>, i: nat)
    requires i < |steps| && cfg.forced.None?
    requires forall j :: 0 <= j < |steps| - 1 ==> !StartsHalt(OwnStatus(cfg, steps[j]))
    ensures Outcome(cfg, steps, i) == OwnStatus(cfg, steps[i])
  {
    if Outcome(cfg, steps, i) == Skipped {
      var j := SkippedHasCause(cfg, steps, i);
      UnhaltedRun(cfg, steps, j);
    }
    OwnStatusNeverSkips(cfg, steps[i]);
  }

  // ----- the own statuses of the planned steps

  lemma ReadOnlyStep(cfg: Setting, step: Step, tool: string)
    requires Unblocked(cfg) && step.toolName == tool && tool in READ_ONLY_TOOLS
    requires tool != "" && tool != "POST /api/v1/agent/nl2sql" && !IsDraftStep(step)
    ensures OwnStatus(cfg, step) == if cfg.mode == ControlledExecute then Executed else DryRunPassed
    ensures CallFor(step, Executed) == [tool]
  {
    GateOutcome(cfg, tool);
  }

  lemma EndpointStep(cfg: Setting, step: Step)
    requires Unblocked(cfg) && step.toolName == "POST /api/v1/agent/nl2sql" && !IsDraftStep(step)
    ensures OwnStatus(cfg, step) == if cfg.mode == ControlledExecute then Executed else DryRunPassed
    ensures CallFor(step, Executed) == ["nl2sql.audit_only"]
  {
    GateOutcome(cfg, "nl2sql.audit_only");
  }

  lemma WriteStep(cfg: Setting, step: Step)
    requires Unblocked(cfg) && step.toolName in {"work_orders.create", "work_orders.transition"} && !IsDraftStep(step)
    ensures OwnStatus(cfg, step) == ApprovalRequired && NormalizedTool(step.toolName) == step.toolName
  {
    GateOutcome(cfg, step.toolName);
  }

  /** Status and call of one step of a plan. */
  ghost predicate Behaves(cfg: Setting, step: Step, controlled: StepStatus, calls: seq<string>) {
    && OwnStatus(cfg, step) == (if cfg.mode == ControlledExecute then controlled else DryRunPassed)
    && CallFor(step, controlled) == calls
  }

  lemma FirstBehaves(cfg: Setting)
    ensures Behaves(cfg, FirstStep(), DryRunPassed, [])
  {
  }

  lemma MetricBehaves(cfg: Setting, needsReview: bool)
    requires Unblocked(cfg)
    ensures var s := MetricQuerySteps(needsReview);
            && |s| == 2 && Behaves(cfg, s[0], Executed, ["metrics.read_catalog"])
            && Behaves(cfg, s[1], Executed, ["nl2sql.audit_only"])
  {
    var s := MetricQuerySteps(needsReview);
    ReadOnlyStep(cfg, s[0], "metrics.read_catalog");
    EndpointStep(cfg, s[1]);
  }

  lemma RectificationBehaves(cfg: Setting, needsReview: bool)
    requires Unblocked(cfg)
    ensures var s := RectificationSteps(needsReview);
            && |s| == 3 && Behaves(cfg, s[0], Executed, ["hazards.read"])
            && Behaves(cfg, s[1], Executed, ["knowledge.search"]) && Behaves(cfg, s[2], Executed, [])
  {
    var s := RectificationSteps(needsReview);
    ReadOnlyStep(cfg, s[0], "hazards.read");
    ReadOnlyStep(cfg, s[1], "knowledge.search");
  }

  lemma CoordinationBehaves(cfg: Setting, needsReview: bool)
    requires Unblocked(cfg)
    ensures var s := CoordinationSteps(needsReview);
            |s| == 2 && Behaves(cfg, s[0], Executed, ["work_orders.read"]) && Behaves(cfg, s[1], DryRunPassed, [])
  {
    ReadOnlyStep(cfg, CoordinationSteps(needsReview)[0], "work_orders.read");
  }

  lemma ComplianceBehaves(cfg: Setting, needsReview: bool)
    requires Unblocked(cfg)
    ensures var s := ComplianceSteps(needsReview);
            |s| == 2 && Behaves(cfg, s[0], Executed, ["rules.read_triggers"]) && Behaves(cfg, s[1], DryRunPassed, [])
  {
    ReadOnlyStep(cfg, ComplianceSteps(needsReview)[0], "rules.read_triggers");
  }

  lemma RiskBehaves(cfg: Setting, needsReview: bool)
    requires Unblocked(cfg)
    ensures var s := RiskSteps(needsReview);
            |s| == 2 && Behaves(cfg, s[0], Executed, ["profile.read"]) && Behaves(cfg, s[1], DryRunPassed, [])
  {
    ReadOnlyStep(cfg, RiskSteps(needsReview)[0], "profile.read");
  }

  lemma SupervisorBehaves(cfg: Setting, needsReview: bool)
    ensures var s := SupervisorSteps(needsReview); |s| == 1 && Behaves(cfg, s[0], DryRunPassed, [])
  {
  }

  // ----- whole runs

  /** The steps of a branch, each with its controlled status and its calls. */
  ghost predicate BranchBehaves(cfg: Setting, branch: seq<Step>, controlled: seq<StepStatus>, calls: seq<seq<string>>) {
    && |branch| == |controlled| == |calls|
    && forall i :: 0 <= i < |branch| ==> Behaves(cfg, branch[i], controlled[i], calls[i])
  }

  /** `PlannedCalls` step by step. */
  function PlannedCallsByStep(targetAgent: string): seq<seq<string>> {
    if targetAgent == "nl2sql_analyst" then [[], ["metrics.read_catalog"], ["nl2sql.audit_only"]]
    else if targetAgent == "hazard_rectification_advisor" then [[], ["hazards.read"], ["knowledge.search"], []]
    else if targetAgent == "work_order_coordinator" then [[], ["work_orders.read"], []]
    else if targetAgent == "rule_compliance_checker" then [[], ["rules.read_triggers"], []]
    else if targetAgent == "risk_profile_analyst" then [[], ["profile.read"], []]
    else [[], []]
  }

  lemma Flat2(a: seq<string>, b: seq<string>)
    ensures Flat([a, b]) == a + b
  {
    assert Front([a, b]) == [a] && Front([a]) == [];
    assert Flat([a]) == Flat([]) + a == a;
  }

  lemma Flat3(a: seq<string>, b: seq<string>, c: seq<string>)
    ensures Flat([a, b, c]) == a + b + c
  {
    assert Front([a, b, c]) == [a, b];
    Flat2(a, b);
  }

  lemma Flat4(a: seq<string>, b: seq<string>, c: seq<string>, d: seq<string>)
    ensures Flat([a, b, c, d]) == a + b + c + d
  {
    assert Front([a, b, c, d]) == [a, b, c];
    Flat3(a, b, c);
  }

  lemma PlannedCallsFlat(targetAgent: string)
    ensures Flat(PlannedCallsByStep(targetAgent)) == PlannedCalls(targetAgent)
  {
    Flat2([], []);
    Flat3([], ["metrics.read_catalog"], ["nl2sql.audit_only"]);
    Flat4([], ["hazards.read"], ["knowledge.search"], []);
    Flat3([], ["work_orders.read"], []);
    Flat3([], ["rules.read_triggers"], []);
    Flat3([], ["profile.read"], []);
  }

  lemma PlanBehaves(cfg: Setting, targetAgent: string, needsReview: bool)
    requires Unblocked(cfg)
    ensures BranchBehaves(cfg, [FirstStep()] + BranchSteps(targetAgent, needsReview),
                          BranchStatuses(targetAgent), PlannedCallsByStep(targetAgent))
  {
    FirstBehaves(cfg);
    if targetAgent == "nl2sql_analyst" {
      MetricBehaves(cfg, needsReview);
    } else if targetAgent == "hazard_rectification_advisor" {
      RectificationBehaves(cfg, needsReview);
    } else if targetAgent == "work_order_coordinator" {
      CoordinationBehaves(cfg, needsReview);
    } else if targetAgent == "rule_compliance_checker" {
      ComplianceBehaves(cfg, needsReview);
    } else if targetAgent == "risk_profile_analyst" {
      RiskBehaves(cfg, needsReview);
    } else {
      SupervisorBehaves(cfg, needsReview);
    }
  }

  /** The last step is a write step: it asks for approval of the tool. */
  ghost predicate AsksFor(cfg: Setting, step: Step, tool: string) {
    OwnStatus(cfg, step) == ApprovalRequired && NormalizedTool(step.toolName) == tool
  }

  /** The branch is kept, and the write step follows it if there is one. */
  ghost predicate Extends(cfg: Setting, plan: seq<Step>, branch: seq<Step>, tool: string, writes: bool) {
    if writes then |plan| == |branch| + 1 && plan[..|branch|] == branch && AsksFor(cfg, Last(plan), tool)
    else plan == branch
  }

  lemma WriteStepAsks(cfg: Setting, before: seq<Step>, agentCode: string, action: string, tool: string)
    requires Unblocked(cfg) && before != [] && action != "draft_rectification_suggestion"
    requires tool in {"work_orders.create", "work_orders.transition"}
    ensures AsksFor(cfg, NextStep(before, agentCode, action, tool, true), tool)
  {
    WriteStep(cfg, NextStep(before, agentCode, action, tool, true));
  }

  lemma PlanShape(cfg: Setting, branch: seq<Step>, targetAgent: string, wantsProposal: bool, wantsTransition: bool)
    requires Unblocked(cfg) && branch != []
    ensures Extends(cfg, WithWriteStep(branch, targetAgent, wantsProposal, wantsTransition), branch,
                    WriteTool(targetAgent), WritesAtEnd(targetAgent, wantsProposal, wantsTransition))
  {
    if Proposes(targetAgent, wantsProposal) {
      assert "propose_rectification_work_order"[0] == 'p';
      WriteStepAsks(cfg, branch, "hazard_rectification_advisor", "propose_rectification_work_order",
                    "work_orders.create");
    } else if Transitions(targetAgent, wantsTransition) {
      assert "request_work_order_transition_approval"[0] == 'r';
      WriteStepAsks(cfg, branch, "work_order_coordinator", "request_work_order_transition_approval",
                    "work_orders.transition");
    }
  }

  lemma BranchStatusesComplete(targetAgent: string)
    ensures Complete(BranchStatuses(targetAgent))
  {
  }

  ghost predicate Complete(statuses: seq<StepStatus>) {
    statuses != [] && forall i :: 0 <= i < |statuses| ==> statuses[i] == Executed || statuses[i] == DryRunPassed
  }

  /** A plan that keeps the branch gets the expected statuses. */
  lemma ShapedRunStatus(cfg: Setting, plan: seq<Step>, branch: seq<Step>, controlled: seq<StepStatus>,
                        calls: seq<seq<string>>, tool: string, writes: bool, i: nat)
    requires Unblocked(cfg) && BranchBehaves(cfg, branch, controlled, calls) && Complete(controlled)
    requires Extends(cfg, plan, branch, tool, writes) && i < |plan|
    ensures |plan| == |Expected(cfg.mode, controlled, writes)|
    ensures Outcome(cfg, plan, i) == Expected(cfg.mode, controlled, writes)[i]
  {
    var expected := Expected(cfg.mode, controlled, writes);
    forall j | 0 <= j < |plan| ensures OwnStatus(cfg, plan[j]) == expected[j] {
      if j < |branch| {
        assert plan[j] == branch[j] && Behaves(cfg, branch[j], controlled[j], calls[j]);
      }
    }
    UnhaltedRun(cfg, plan, i);
  }

  /** In a run that is not blocked as a whole, every step of a plan the router builds gets the
      status written out for it: none is blocked or skipped, and only the write step waits for approval. */
  lemma PlannedRunStatuses(cfg: Setting, targetAgent: string, needsReview: bool, wantsProposal: bool,
                           wantsTransition: bool)
    requires Unblocked(cfg)
    ensures var plan := PlanOf(targetAgent, needsReview, wantsProposal, wantsTransition);
            var writes := WritesAtEnd(targetAgent, wantsProposal, wantsTransition);
            var expected := PlannedStatuses(targetAgent, cfg.mode, writes);
            && |plan| == |expected|
            && forall i :: 0 <= i < |plan| ==> Outcome(cfg, plan, i) == expected[i]
  {
    var branch := [FirstStep()] + BranchSteps(targetAgent, needsReview);
    PlanBehaves(cfg, targetAgent, needsReview);
    PlanShape(cfg, branch, targetAgent, wantsProposal, wantsTransition);
    BranchStatusesComplete(targetAgent);
    AllShapedStatuses(cfg, WithWriteStep(branch, targetAgent, wantsProposal, wantsTransition), branch,
                      BranchStatuses(targetAgent), PlannedCallsByStep(targetAgent), WriteTool(targetAgent),
                      WritesAtEnd(targetAgent, wantsProposal, wantsTransition));
  }

  lemma AllShapedStatuses(cfg: Setting, plan: seq<Step>, branch: seq<Step>, controlled: seq<StepStatus>,
                          calls: seq<seq<string>>, tool: string, writes: bool)
    requires Unblocked(cfg) && BranchBehaves(cfg, branch, controlled, calls) && Complete(controlled)
    requires Extends(cfg, plan, branch, tool, writes)
    ensures |plan| == |Expected(cfg.mode, controlled, writes)|
    ensures forall i :: 0 <= i < |plan| ==> Outcome(cfg, plan, i) == Expected(cfg.mode, controlled, writes)[i]
  {
    forall i | 0 <= i < |plan| ensures Outcome(cfg, plan, i) == Expected(cfg.mode, controlled, writes)[i] {
      ShapedRunStatus(cfg, plan, branch, controlled, calls, tool, writes, i);
    }
  }

  // ----- the calls and approvals of such a run

  lemma {:induction false} CallsAreFlat(steps: seq<Step>, results: seq<StepResult>, calls: seq<seq<string>>)
    requires |steps| == |results| == |calls|
    requires forall i :: 0 <= i < |steps| ==> CallFor(steps[i], results[i].status) == calls[i]
    ensures CallsFor(steps, results) == Flat(calls)
  {
    if steps != [] {
      CallsAreFlat(Front(steps), Front(results), Front(calls));
    }
  }

  lemma {:induction false} OnlyLastAsks(runId: nat, results: seq<StepResult>)
    requires results != []
    requires forall i :: 0 <= i < |results| - 1 ==> results[i].approvalId.None?
    ensures ApprovalsFor(runId, results) == ApprovalFor(runId, Last(results))
  {
    var before := Front(results);
    if before == [] {
      assert ApprovalsFor(runId, before) == [];
    } else {
      OnlyLastAsks(runId, before);
      assert Last(before).approvalId.None?;
    }
  }

  /** What the results say of the statuses. */
  ghost predicate ResultsHave(results: seq<StepResult>, statuses: seq<StepStatus>, mode: Mode) {
    && |results| == |statuses|
    && forall i :: 0 <= i < |results| ==>
         && results[i].status == statuses[i]
         && (results[i].approvalId.Some? <==> mode == ControlledExecute && statuses[i] == ApprovalRequired)
  }

  lemma ShapedResults(cfg: Setting, plan: seq<Step>, branch: seq<Step>, controlled: seq<StepStatus>,
                      calls: seq<seq<string>>, tool: string, writes: bool, results: seq<StepResult>)
    requires Unblocked(cfg) && BranchBehaves(cfg, branch, controlled, calls) && Complete(controlled)
    requires Extends(cfg, plan, branch, tool, writes)
    requires |results| == |plan| && ReportsAll(cfg, plan, results)
    ensures ResultsHave(results, Expected(cfg.mode, controlled, writes), cfg.mode)
  {
    AllShapedStatuses(cfg, plan, branch, controlled, calls, tool, writes);
    forall i | 0 <= i < |plan| ensures Reports(cfg, plan[i], Outcome(cfg, plan, i), results[i]) {
    }
  }

  lemma ShapedCalls(cfg: Setting, plan: seq<Step>, branch: seq<Step>, controlled: seq<StepStatus>,
                    calls: seq<seq<string>>, tool: string, writes: bool, results: seq<StepResult>)
    requires BranchBehaves(cfg, branch, controlled, calls) && |results| == |plan|
    requires Extends(cfg, plan, branch, tool, writes) && cfg.mode == ControlledExecute
    requires ResultsHave(results, Expected(cfg.mode, controlled, writes), cfg.mode)
    ensures CallsFor(plan, results) == Flat(calls)
  {
    var n := |branch|;
    var branchResults := results[..n];
    forall i | 0 <= i < n ensures CallFor(branch[i], branchResults[i].status) == calls[i] {
      assert Behaves(cfg, branch[i], controlled[i], calls[i]);
    }
    CallsAreFlat(branch, branchResults, calls);
    if writes {
      assert Front(plan) == branch && Front(results) == branchResults;
      assert Last(results).status == ApprovalRequired;
    } else {
      assert branchResults == results;
    }
  }

  lemma ExpectedApprovals(mode: Mode, controlled: seq<StepStatus>, writes: bool, results: seq<StepResult>, runId: nat)
    requires Complete(controlled) && ResultsHave(results, Expected(mode, controlled, writes), mode)
    ensures ApprovalsFor(runId, results) == ApprovalFor(runId, Last(results))
    ensures Last(results).approvalId.Some? <==> mode == ControlledExecute && writes
  {
    OnlyLastAsks(runId, results);
  }

  lemma ExpectedStatus(mode: Mode, controlled: seq<StepStatus>, writes: bool, results: seq<StepResult>)
    requires Complete(controlled) && ResultsHave(results, Expected(mode, controlled, writes), mode)
    ensures RunStatusOf(StatusesOf(results), false, mode)
         == if writes then RunApprovalRequired
            else if mode == ControlledExecute then RunSucceeded else RunDryRunPassed
  {
    var expected := Expected(mode, controlled, writes);
    forall i | 0 <= i < |results|
      ensures results[i].status in {Executed, DryRunPassed} || (writes && results[i].status == ApprovalRequired)
    {
      assert results[i].status == expected[i];
    }
    if writes {
      assert results[|results| - 1].status == ApprovalRequired && results[|results| - 1] in results;
    }
  }

  /** One approval, of the tool, for the last step; or none. */
  ghost predicate AsksOnce(approvals: seq<Approval>, runId: nat, results: seq<StepResult>, tool: string, asks: bool)
    requires results != []
  {
    if asks
    then |approvals| == 1 && approvals[0].tool == tool && approvals[0].runId == runId
         && approvals[0].stepRunId == Last(results).stepRunId
    else approvals == []
  }

  lemma ShapedApprovals(cfg: Setting, plan: seq<Step>, branch: seq<Step>, controlled: seq<StepStatus>, tool: string,
                        writes: bool, results: seq<StepResult>, runId: nat)
    requires |results| == |plan| && ReportsAll(cfg, plan, results) && Complete(controlled)
    requires Extends(cfg, plan, branch, tool, writes)
    requires ResultsHave(results, Expected(cfg.mode, controlled, writes), cfg.mode)
    ensures AsksOnce(ApprovalsFor(runId, results), runId, results, tool, cfg.mode == ControlledExecute && writes)
  {
    ExpectedApprovals(cfg.mode, controlled, writes, results, runId);
    assert Reports(cfg, Last(plan), Outcome(cfg, plan, |plan| - 1), Last(results));
  }

  /** What a run of a built plan leaves behind. In controlled mode it calls the listed tools, and asks
      for one approval, of the write tool, if and only if the plan ends in a write step. In a dry run
      it does neither. Either way the run waits for approval if and only if the plan ends in a write
      step, and else it succeeds, or passes as a dry run. */
  lemma PlannedRun(cfg: Setting, targetAgent: string, needsReview: bool, wantsProposal: bool,
                   wantsTransition: bool, results: seq<StepResult>, runId: nat)
    requires Unblocked(cfg)
    requires var plan := PlanOf(targetAgent, needsReview, wantsProposal, wantsTransition);
             |results| == |plan| && ReportsAll(cfg, plan, results)
    ensures results != []
    ensures CallsFor(PlanOf(targetAgent, needsReview, wantsProposal, wantsTransition), results)
         == if cfg.mode == ControlledExecute then PlannedCalls(targetAgent) else []
    ensures AsksOnce(ApprovalsFor(runId, results), runId, results, WriteTool(targetAgent),
                     cfg.mode == ControlledExecute && WritesAtEnd(targetAgent, wantsProposal, wantsTransition))
    ensures RunStatusOf(StatusesOf(results), false, cfg.mode)
         == if WritesAtEnd(targetAgent, wantsProposal, wantsTransition) then RunApprovalRequired
            else if cfg.mode == ControlledExecute then RunSucceeded else RunDryRunPassed
  {
    var branch := [FirstStep()] + BranchSteps(targetAgent, needsReview);
    PlanBehaves(cfg, targetAgent, needsReview);
    PlanShape(cfg, branch, targetAgent, wantsProposal, wantsTransition);
    BranchStatusesComplete(targetAgent);
    PlannedCallsFlat(targetAgent);
    ShapedRun(cfg, WithWriteStep(branch, targetAgent, wantsProposal, wantsTransition), branch,
              BranchStatuses(targetAgent), PlannedCallsByStep(targetAgent), WriteTool(targetAgent),
              WritesAtEnd(targetAgent, wantsProposal, wantsTransition), results, runId);
  }

  lemma ShapedRun(cfg: Setting, plan: seq<Step>, branch: seq<Step>, controlled: seq<StepStatus>,
                  calls: seq<seq<string>>, tool: string, writes: bool, results: seq<StepResult>, runId: nat)
    requires Unblocked(cfg) && BranchBehaves(cfg, branch, controlled, calls) && Complete(controlled)
    requires Extends(cfg, plan, branch, tool, writes)
    requires |results| == |plan| && ReportsAll(cfg, plan, results)
    ensures results != []
    ensures CallsFor(plan, results) == if cfg.mode == ControlledExecute then Flat(calls) else []
    ensures AsksOnce(ApprovalsFor(runId, results), runId, results, tool, cfg.mode == ControlledExecute && writes)
    ensures RunStatusOf(StatusesOf(results), false, cfg.mode)
         == if writes then RunApprovalRequired
            else if cfg.mode == ControlledExecute then RunSucceeded else RunDryRunPassed
  {
    ShapedResults(cfg, plan, branch, controlled, calls, tool, writes, results);
    ShapedApprovals(cfg, plan, branch, controlled, tool, writes, results, runId);
    ExpectedStatus(cfg.mode, controlled, writes, results);
    if cfg.mode == ControlledExecute {
      ShapedCalls(cfg, plan, branch, controlled, calls, tool, writes, results);
    } else {
      DryRunExecutesNothing(cfg, plan, results, runId);
    }
  }

  // ----- who is responsible, and where a human looks

  /** All steps are the agent's, and only the last asks for a review, if one is needed. */
  ghost predicate BranchRoles(branch: seq<Step>, agent: string, needsReview: bool) {
    branch != []
    && forall i :: 0 <= i < |branch| ==>
         && branch[i].agentCode == agent
         && (branch[i].requiresReview <==> needsReview && i == |branch| - 1)
  }

  const SPECIALISTS := {"nl2sql_analyst", "hazard_rectification_advisor", "work_order_coordinator",
                        "rule_compliance_checker", "risk_profile_analyst"}

  /** The agent that answers: the addressed specialist, or the supervisor. */
  function Responsible(targetAgent: string): string {
    if targetAgent in SPECIALISTS then targetAgent else "safety_supervisor"
  }

  lemma MetricRoles(needsReview: bool)
    ensures BranchRoles(MetricQuerySteps(needsReview), "nl2sql_analyst", needsReview)
  {
  }

  lemma RectificationRoles(needsReview: bool)
    ensures BranchRoles(RectificationSteps(needsReview), "hazard_rectification_advisor", needsReview)
  {
  }

  lemma CoordinationRoles(needsReview: bool)
    ensures BranchRoles(CoordinationSteps(needsReview), "work_order_coordinator", needsReview)
  {
  }

  lemma ComplianceRoles(needsReview: bool)
    ensures BranchRoles(ComplianceSteps(needsReview), "rule_compliance_checker", needsReview)
  {
  }

  lemma RiskRoles(needsReview: bool)
    ensures BranchRoles(RiskSteps(needsReview), "risk_profile_analyst", needsReview)
  {
  }

  lemma SupervisorRoles(needsReview: bool)
    ensures BranchRoles(SupervisorSteps(needsReview), "safety_supervisor", needsReview)
  {
  }

  lemma AllBranchRoles(targetAgent: string, needsReview: bool)
    ensures BranchRoles(BranchSteps(targetAgent, needsReview), Responsible(targetAgent), needsReview)
  {
    if targetAgent == "nl2sql_analyst" {
      MetricRoles(needsReview);
    } else if targetAgent == "hazard_rectification_advisor" {
      RectificationRoles(needsReview);
    } else if targetAgent == "work_order_coordinator" {
      CoordinationRoles(needsReview);
    } else if targetAgent == "rule_compliance_checker" {
      ComplianceRoles(needsReview);
    } else if targetAgent == "risk_profile_analyst" {
      RiskRoles(needsReview);
    } else {
      assert Responsible(targetAgent) == "safety_supervisor";
      SupervisorRoles(needsReview);
    }
  }

  /** The first step of a plan is the supervisor's, all others are the responsible agent's. A human is
      asked to look at the specialist's last step exactly when a review is needed, and at a write step always. */
  lemma PlanRoles(targetAgent: string, needsReview: bool, wantsProposal: bool, wantsTransition: bool, i: nat)
    requires i < |PlanOf(targetAgent, needsReview, wantsProposal, wantsTransition)|
    ensures var plan := PlanOf(targetAgent, needsReview, wantsProposal, wantsTransition);
            var last := if WritesAtEnd(targetAgent, wantsProposal, wantsTransition) then |plan| - 2 else |plan| - 1;
            && plan[i].agentCode == (if i == 0 then "safety_supervisor" else Responsible(targetAgent))
            && (plan[i].requiresReview <==> (needsReview && i == last) || i > last)
  {
    AllBranchRoles(targetAgent, needsReview);
    RolesWithWriteStep(BranchSteps(targetAgent, needsReview), targetAgent, needsReview, wantsProposal, wantsTransition);
  }

  lemma RolesWithWriteStep(branch: seq<Step>, targetAgent: string, needsReview: bool, wantsProposal: bool,
                           wantsTransition: bool)
    requires BranchRoles(branch, Responsible(targetAgent), needsReview)
    ensures var plan := WithWriteStep([FirstStep()] + branch, targetAgent, wantsProposal, wantsTransition);
            var last := if WritesAtEnd(targetAgent, wantsProposal, wantsTransition) then |plan| - 2 else |plan| - 1;
            forall i :: 0 <= i < |plan| ==>
              && plan[i].agentCode == (if i == 0 then "safety_supervisor" else Responsible(targetAgent))
              && (plan[i].requiresReview <==> (needsReview && i == last) || i > last)
  {
    var steps := [FirstStep()] + branch;
    forall i | 1 <= i < |steps| ensures steps[i] == branch[i - 1] {
    }
  }

  // ----- runs blocked as a whole

  /** A run that is blocked as a whole calls nothing and asks for nothing, whatever the plan, and each
      step is blocked or skipped. */
  lemma {:induction false} BlockedRun(cfg: Setting, steps: seq<Step>, results: seq<StepResult>, runId: nat)
    requires cfg.forced.Some? && |results| == |steps| && ReportsAll(cfg, steps, results)
    ensures forall r :: r in results ==> r.status == Blocked || r.status == Skipped
    ensures CallsFor(steps, results) == [] && ApprovalsFor(runId, results) == []
    ensures RunStatusOf(StatusesOf(results), true, cfg.mode) == RunBlocked
  {
    forall i | 0 <= i < |results|
      ensures results[i].approvalId.None? && (results[i].status == Blocked || results[i].status == Skipped)
    {
      assert Reports(cfg, steps[i], Outcome(cfg, steps, i), results[i]);
    }
    NothingToDo(steps, results, runId);
  }
}
