/** The agent DAG executor: steps run in order, a step whose dependency did not complete is
    skipped, and the run status is read off the step statuses. */
module AgentDag {
  import opened Common
  import opened AgentTools
  import opened AgentPlanner

  datatype StepStatus = DryRunPassed | Executed | Skipped | Blocked | ApprovalRequired | Failed
  datatype RunStatus = RunBlocked | RunApprovalRequired | RunDryRunPassed | RunSucceeded | RunFailed

  /** What a run is executed under; `forced` is the reason that blocks the whole run. */
  datatype Setting = Setting(mode: Mode, user: User, projectId: Option<string>, forced: Option<string>)

  datatype StepResult = StepResult(stepRunId: nat, stepId: string, toolName: string, status: StepStatus,
                                   willExecute: bool, requiresReview: bool, approvalId: Option<nat>)
  datatype Approval = Approval(approvalId: nat, runId: nat, stepRunId: nat, tool: string)
  datatype RunRecord = RunRecord(runId: nat, status: RunStatus, blockedReason: Option<string>)

  predicate Halts(s: StepStatus) {
    s == Blocked || s == Failed || s == ApprovalRequired || s == Skipped
  }

  function NormalizedTool(name: string): string {
    if name == "POST /api/v1/agent/nl2sql" then "nl2sql.audit_only" else name
  }

  predicate IsDraftStep(s: Step) {
    s.agentCode == "hazard_rectification_advisor" && s.action == "draft_rectification_suggestion"
  }

  function BlockedDependency(deps: seq<string>, statuses: map<string, StepStatus>): Option<string> {
    if deps == [] then None
    else if deps[0] in statuses && Halts(statuses[deps[0]]) then Some(deps[0])
    else BlockedDependency(deps[1..], statuses)
  }

  function ToolStatus(cfg: Setting, tool: string): StepStatus {
    match EvaluateToolAccess(tool, cfg.mode, cfg.user, cfg.projectId)
    case Err(_) => Blocked
    case Ok(decision) =>
      match decision.status
      case Ready => if cfg.mode == ControlledExecute then Executed else DryRunPassed
      case Rehearsed => DryRunPassed
      case NeedsApproval => ApprovalRequired
      case Denied => Blocked
  }

  /** The status of one step, given the statuses recorded so far. The empty string is not a
      blocking dependency, as in the truth test of the executor. */
  function StatusOf(cfg: Setting, step: Step, statuses: map<string, StepStatus>): StepStatus {
    var dependency := BlockedDependency(step.dependsOn, statuses);
    if dependency.Some? && dependency.value != "" then Skipped
    else if cfg.forced.Some? then Blocked
    else if IsDraftStep(step) then if cfg.mode == ControlledExecute then Executed else DryRunPassed
    else if step.toolName != "" then ToolStatus(cfg, NormalizedTool(step.toolName))
    else DryRunPassed
  }

  function Recorded(cfg: Setting, steps: seq<Step>): map<string, StepStatus> {
    if steps == [] then map[]
    else
      var before := Recorded(cfg, Front(steps));
      before[Last(steps).stepId := StatusOf(cfg, Last(steps), before)]
  }

  /** The status of step `i` of a plan. */
  function Outcome(cfg: Setting, steps: seq<Step>, i: nat): StepStatus
    requires i < |steps|
  {
    StatusOf(cfg, steps[i], Recorded(cfg, steps[..i]))
  }

  function GlobalBlockReason(user: User, projectId: Option<string>, restrictedAction: bool): Option<string> {
    if restrictedAction then Some("restricted_action")
    else if ProjectDenied(user, projectId) then Some("No permission to access this project")
    else None
  }

  function StatusesOf(results: seq<StepResult>): set<StepStatus> {
    set r | r in results :: r.status
  }

  function RunStatusOf(statuses: set<StepStatus>, blocked: bool, mode: Mode): RunStatus {
    if blocked || Blocked in statuses then RunBlocked
    else if ApprovalRequired in statuses then RunApprovalRequired
    else if mode == DryRun then RunDryRunPassed
    else if statuses <= {Executed, DryRunPassed} then RunSucceeded
    else RunFailed
  }

  /** The result row written for one step. */
  ghost predicate Reports(cfg: Setting, step: Step, status: StepStatus, r: StepResult) {
    && r.status == status
    && r.stepId == step.stepId && r.toolName == step.toolName && r.requiresReview == step.requiresReview
    && r.willExecute == (status == Executed)
    && (r.approvalId.Some? <==> cfg.mode == ControlledExecute && status == ApprovalRequired)
  }

  ghost predicate ReportsAll(cfg: Setting, steps: seq<Step>, results: seq<StepResult>) {
    |results| <= |steps|
    && forall i :: 0 <= i < |results| ==> Reports(cfg, steps[i], Outcome(cfg, steps, i), results[i])
  }

  function ApprovalFor(runId: nat, r: StepResult): seq<Approval> {
    if r.approvalId.Some? then [Approval(r.approvalId.value, runId, r.stepRunId, NormalizedTool(r.toolName))] else []
  }

  /** The approvals a list of step results asks for, in step order. */
  function ApprovalsFor(runId: nat, results: seq<StepResult>): seq<Approval> {
    if results == [] then [] else ApprovalsFor(runId, Front(results)) + ApprovalFor(runId, Last(results))
  }

  function CallFor(step: Step, status: StepStatus): seq<string> {
    if status == Executed && !IsDraftStep(step) then [NormalizedTool(step.toolName)] else []
  }

  /** The read-only tools the executor really called, in step order. */
  function CallsFor(steps: seq<Step>, results: seq<StepResult>): seq<string>
    requires |steps| == |results|
  {
    if results == [] then []
    else CallsFor(Front(steps), Front(results)) + CallFor(Last(steps), Last(results).status)
  }

  /** The executor with the rows it adds to the database. */
  class DagExecutor {
    var approvals: seq<Approval>
    var runs: seq<RunRecord>
    var toolCalls: seq<string>
    var nextId: nat

    /** Approval ids are pairwise different and older than the next fresh id. */
    ghost predicate Valid()
      reads this
    {
      && (forall i, j :: 0 <= i < j < |approvals| ==> approvals[i].approvalId < approvals[j].approvalId)
      && (forall i :: 0 <= i < |approvals| ==> approvals[i].approvalId < nextId)
    }

    constructor ()
      ensures Valid() && approvals == [] && runs == [] && toolCalls == []
    {
      approvals, runs, toolCalls, nextId := [], [], [], 0;
    }

    method FreshId() returns (id: nat)
      requires Valid()
      modifies this`nextId
      ensures Valid() && id == old(nextId) && nextId == id + 1
    {
      id := nextId;
      nextId := nextId + 1;
    }

    /** `_evaluate_steps`: every result carries the specified status, exactly the executed steps
        are marked as executing, and the approval rows are those of the results. */
    method EvaluateSteps(steps: seq<Step>, cfg: Setting, runId: nat) returns (results: seq<StepResult>)
      requires Valid()
      modifies this`approvals, this`toolCalls, this`nextId
      ensures Valid() && |results| == |steps| && ReportsAll(cfg, steps, results)
      ensures approvals == old(approvals) + ApprovalsFor(runId, results)
      ensures toolCalls == old(toolCalls) + CallsFor(steps, results)
    {
      results := [];
      var stepStatuses: map<string, StepStatus> := map[];
      for k := 0 to |steps|
        invariant Valid() && |results| == k
        invariant stepStatuses == Recorded(cfg, steps[..k])
        invariant ReportsAll(cfg, steps, results)
        invariant approvals == old(approvals) + ApprovalsFor(runId, results)
        invariant toolCalls == old(toolCalls) + CallsFor(steps[..k], results)
      {
        var result := EvaluateStep(steps[k], cfg, runId, stepStatuses);
        RecordedStep(cfg, steps, k);
        AppendResult(cfg, steps, results, result);
        AppendLogs(steps, runId, results, result);
        Associate(old(approvals), ApprovalsFor(runId, results), ApprovalFor(runId, result));
        Associate(old(toolCalls), CallsFor(steps[..k], results), CallFor(steps[k], result.status));
        results := results + [result];
        stepStatuses := stepStatuses[steps[k].stepId := result.status];
      }
      assert steps[..|steps|] == steps;
    }

    /** One turn of the step loop. */
    method EvaluateStep(step: Step, cfg: Setting, runId: nat, stepStatuses: map<string, StepStatus>)
      returns (result: StepResult)
      requires Valid()
      modifies this`approvals, this`toolCalls, this`nextId
      ensures Valid()
      ensures Reports(cfg, step, StatusOf(cfg, step, stepStatuses), result)
      ensures approvals == old(approvals) + ApprovalFor(runId, result)
      ensures toolCalls == old(toolCalls) + CallFor(step, result.status)
    {
      var stepRunId := FreshId();
      var status := DryRunPassed;
      var willExecute := false;
      var approvalId: Option<nat> := None;

      var blockedDependency := BlockedDependency(step.dependsOn, stepStatuses);
      if blockedDependency.Some? && blockedDependency.value != "" {
        status := Skipped;
      } else if cfg.forced.Some? {
        status := Blocked;
      } else if IsDraftStep(step) {
        status := if cfg.mode == ControlledExecute then Executed else DryRunPassed;
        willExecute := cfg.mode == ControlledExecute;
      } else if step.toolName != "" {
        status, willExecute, approvalId := CallTool(NormalizedTool(step.toolName), cfg, runId, stepRunId);
      }
      result := StepResult(stepRunId, step.stepId, step.toolName, status, willExecute,
                           step.requiresReview, approvalId);
    }

    /** The gate, and behind it the call or the approval request. */
    method CallTool(tool: string, cfg: Setting, runId: nat, stepRunId: nat)
      returns (status: StepStatus, willExecute: bool, approvalId: Option<nat>)
      requires Valid()
      modifies this`approvals, this`toolCalls, this`nextId
      ensures Valid()
      ensures status == ToolStatus(cfg, tool) && willExecute == (status == Executed)
      ensures toolCalls == if willExecute then old(toolCalls) + [tool] else old(toolCalls)
      ensures approvalId.Some? <==> status == ApprovalRequired && cfg.mode == ControlledExecute
      ensures approvals == if approvalId.Some?
                           then old(approvals) + [Approval(approvalId.value, runId, stepRunId, tool)]
                           else old(approvals)
    {
      status, willExecute, approvalId := Blocked, false, None;
      match EvaluateToolAccess(tool, cfg.mode, cfg.user, cfg.projectId) {
        case Err(_) =>
        case Ok(decision) =>
          if decision.status == Ready && cfg.mode == ControlledExecute {
            toolCalls := toolCalls + [tool];
            status := Executed;
            willExecute := true;
          } else {
            status := match decision.status
              case Ready => DryRunPassed
              case Rehearsed => DryRunPassed
              case NeedsApproval => ApprovalRequired
              case Denied => Blocked;
          }
          if status == ApprovalRequired && cfg.mode == ControlledExecute {
            var id := FreshId();
            approvals := approvals + [Approval(id, runId, stepRunId, tool)];
            approvalId := Some(id);
          }
      }
    }

    /** `execute_agent_dag`: the run is recorded with its status; execution counts as allowed only
        for a controlled run in which no step was blocked, skipped or left for approval. */
    method ExecuteAgentDag(steps: seq<Step>, mode: Mode, user: User, projectId: Option<string>, restrictedAction: bool)
      returns (runId: nat, results: seq<StepResult>, status: RunStatus, executionAllowed: bool)
      requires Valid()
      modifies this
      ensures Valid() && |results| == |steps|
      ensures var cfg := Setting(mode, user, projectId, GlobalBlockReason(user, projectId, restrictedAction));
              && ReportsAll(cfg, steps, results)
              && status == RunStatusOf(StatusesOf(results), cfg.forced.Some?, mode)
      ensures status != RunFailed
      ensures executionAllowed <==>
                && mode == ControlledExecute && GlobalBlockReason(user, projectId, restrictedAction).None?
                && forall r :: r in results ==> r.status == Executed || r.status == DryRunPassed
      ensures mode == DryRun ==>
                && approvals == old(approvals) && toolCalls == old(toolCalls)
                && forall r :: r in results ==> !r.willExecute
      ensures runs == old(runs) + [RunRecord(runId, status, GlobalBlockReason(user, projectId, restrictedAction))]
      ensures approvals == old(approvals) + ApprovalsFor(runId, results)
      ensures toolCalls == old(toolCalls) + CallsFor(steps, results)
    {
      var forced := GlobalBlockReason(user, projectId, restrictedAction);
      var cfg := Setting(mode, user, projectId, forced);
      runId := FreshId();
      results := EvaluateSteps(steps, cfg, runId);
      status := RunStatusOf(StatusesOf(results), forced.Some?, mode);
      runs := runs + [RunRecord(runId, status, forced)];
      executionAllowed := mode == ControlledExecute && status == RunSucceeded;
      RunStatusMeaning(cfg, steps, results);
      if mode == DryRun {
        DryRunExecutesNothing(cfg, steps, results, runId);
      }
    }
  }

  // ----- whole-plan properties

  lemma Associate<T>(a: seq<T>, b: seq<T>, c: seq<T>)
    ensures a + (b + c) == (a + b) + c
  {
  }

  lemma RecordedStep(cfg: Setting, steps: seq<Step>, k: nat)
    requires k < |steps|
    ensures Recorded(cfg, steps[..k + 1]) == Recorded(cfg, steps[..k])[steps[k].stepId := Outcome(cfg, steps, k)]
  {
    assert Front(steps[..k + 1]) == steps[..k] && Last(steps[..k + 1]) == steps[k];
  }

  lemma AppendResult(cfg: Setting, steps: seq<Step>, results: seq<StepResult>, r: StepResult)
    requires |results| < |steps| && ReportsAll(cfg, steps, results)
    requires Reports(cfg, steps[|results|], Outcome(cfg, steps, |results|), r)
    ensures ReportsAll(cfg, steps, results + [r])
  {
    var longer := results + [r];
    forall i | 0 <= i < |longer| ensures Reports(cfg, steps[i], Outcome(cfg, steps, i), longer[i]) {
      if i < |results| {
        assert longer[i] == results[i];
      }
    }
  }

  lemma {:induction false} AppendLogs(steps: seq<Step>, runId: nat, results: seq<StepResult>, r: StepResult)
    requires |results| < |steps|
    ensures ApprovalsFor(runId, results + [r]) == ApprovalsFor(runId, results) + ApprovalFor(runId, r)
    ensures CallsFor(steps[..|results| + 1], results + [r])
         == CallsFor(steps[..|results|], results) + CallFor(steps[|results|], r.status)
  {
    var k := |results|;
    assert Front(steps[..k + 1]) == steps[..k] && Last(steps[..k + 1]) == steps[k];
    assert Front(results + [r]) == results;
  }

  lemma {:induction false} RecordedHasOrigin(cfg: Setting, steps: seq<Step>, n: nat, id: string) returns (j: nat)
    requires n <= |steps| && id in Recorded(cfg, steps[..n])
    ensures j < n && steps[j].stepId == id && Outcome(cfg, steps, j) == Recorded(cfg, steps[..n])[id]
  {
    assert Front(steps[..n]) == steps[..n - 1];
    if steps[n - 1].stepId == id {
      j := n - 1;
    } else {
      j := RecordedHasOrigin(cfg, steps, n - 1, id);
    }
  }

  lemma {:induction false} BlockedDependencyFound(deps: seq<string>, statuses: map<string, StepStatus>)
    ensures var d := BlockedDependency(deps, statuses);
            && (d.Some? ==> d.value in deps && d.value in statuses && Halts(statuses[d.value]))
            && (d.None? ==> forall x :: x in deps && x in statuses ==> !Halts(statuses[x]))
  {
    if deps != [] {
      BlockedDependencyFound(deps[1..], statuses);
      assert deps == [deps[0]] + deps[1..];
    }
  }

  /** The statuses that start a halt, as opposed to passing one on. */
  predicate StartsHalt(s: StepStatus) {
    s == Blocked || s == ApprovalRequired
  }

  /** In every plan, even with repeated ids or forward dependencies, a skipped step comes after a
      step that was blocked or left for approval. */
  lemma {:induction false} SkippedHasCause(cfg: Setting, steps: seq<Step>, i: nat) returns (j: nat)
    requires i < |steps| && Outcome(cfg, steps, i) == Skipped
    ensures j < i && StartsHalt(Outcome(cfg, steps, j))
  {
    var statuses := Recorded(cfg, steps[..i]);
    BlockedDependencyFound(steps[i].dependsOn, statuses);
    var d := BlockedDependency(steps[i].dependsOn, statuses).value;
    j := RecordedHasOrigin(cfg, steps, i, d);
    if Outcome(cfg, steps, j) == Skipped {
      j := SkippedHasCause(cfg, steps, j);
    }
  }

  /** The run status of every plan: never failed; blocked iff the run or some step was blocked;
      succeeded iff a controlled run completed every step. */
  lemma RunStatusMeaning(cfg: Setting, steps: seq<Step>, results: seq<StepResult>)
    requires |results| == |steps| && ReportsAll(cfg, steps, results)
    ensures var status := RunStatusOf(StatusesOf(results), cfg.forced.Some?, cfg.mode);
            && status != RunFailed
            && (status == RunBlocked <==> cfg.forced.Some? || exists r :: r in results && r.status == Blocked)
            && (status == RunSucceeded <==>
                 cfg.mode == ControlledExecute && cfg.forced.None?
                 && forall r :: r in results ==> r.status == Executed || r.status == DryRunPassed)
  {
    var statuses := StatusesOf(results);
    StatusesLegal(cfg, steps, results);
    forall r | r in results ensures r.status in statuses {
    }
  }

  lemma StatusesLegal(cfg: Setting, steps: seq<Step>, results: seq<StepResult>)
    requires |results| == |steps| && ReportsAll(cfg, steps, results)
    ensures Failed !in StatusesOf(results)
    ensures Skipped in StatusesOf(results) ==> Blocked in StatusesOf(results) || ApprovalRequired in StatusesOf(results)
  {
    forall i | 0 <= i < |results| ensures results[i].status != Failed {
      assert Reports(cfg, steps[i], Outcome(cfg, steps, i), results[i]);
    }
    if Skipped in StatusesOf(results) {
      var i :| 0 <= i < |results| && results[i].status == Skipped;
      assert Reports(cfg, steps[i], Outcome(cfg, steps, i), results[i]);
      var j := SkippedHasCause(cfg, steps, i);
      assert Reports(cfg, steps[j], Outcome(cfg, steps, j), results[j]);
    }
  }

  lemma {:induction false} DryRunExecutesNothing(cfg: Setting, steps: seq<Step>, results: seq<StepResult>, runId: nat)
    requires cfg.mode == DryRun && |results| == |steps| && ReportsAll(cfg, steps, results)
    ensures ApprovalsFor(runId, results) == [] && CallsFor(steps, results) == []
    ensures forall r :: r in results ==> !r.willExecute
  {
    forall i | 0 <= i < |results|
      ensures results[i].approvalId.None? && results[i].status != Executed && !results[i].willExecute
    {
      assert Reports(cfg, steps[i], Outcome(cfg, steps, i), results[i]);
    }
    NothingToDo(steps, results, runId);
  }

  lemma {:induction false} NothingToDo(steps: seq<Step>, results: seq<StepResult>, runId: nat)
    requires |results| == |steps|
    requires forall i :: 0 <= i < |results| ==> results[i].approvalId.None? && results[i].status != Executed
    ensures ApprovalsFor(runId, results) == [] && CallsFor(steps, results) == []
  {
    if results != [] {
      NothingToDo(Front(steps), Front(results), runId);
    }
  }

  // ----- skipping is exactly transitive dependence on a halted step

  ghost predicate DependsOn(steps: seq<Step>, i: int, j: int) {
    0 <= i < |steps| && 0 <= j < |steps| && steps[j].stepId in steps[i].dependsOn
  }

  /** A dependency path from step `path[0]` to step `Last(path)`. */
  ghost predicate DependencyPath(steps: seq<Step>, path: seq<nat>) {
    && |path| >= 2 && (forall k :: 0 <= k < |path| ==> path[k] < |steps|)
    && forall k :: 0 <= k < |path| - 1 ==> DependsOn(steps, path[k], path[k + 1])
  }

  ghost predicate WaitsFor(steps: seq<Step>, i: nat, j: nat) {
    exists path: seq<nat> :: DependencyPath(steps, path) && path[0] == i && Last(path) == j
  }

  ghost predicate NamedSteps(steps: seq<Step>) {
    UniqueIds(steps) && forall i :: 0 <= i < |steps| ==> steps[i].stepId != ""
  }

  lemma {:induction false} RecordedAt(cfg: Setting, steps: seq<Step>, n: nat, j: nat)
    requires NamedSteps(steps) && j < n <= |steps|
    ensures steps[j].stepId in Recorded(cfg, steps[..n])
    ensures Recorded(cfg, steps[..n])[steps[j].stepId] == Outcome(cfg, steps, j)
  {
    assert Front(steps[..n]) == steps[..n - 1];
    if j < n - 1 {
      RecordedAt(cfg, steps, n - 1, j);
    }
  }

  lemma HaltedDependencySkips(cfg: Setting, steps: seq<Step>, i: nat, j: nat)
    requires NamedSteps(steps) && j < i < |steps| && DependsOn(steps, i, j)
    requires Halts(Outcome(cfg, steps, j))
    ensures Outcome(cfg, steps, i) == Skipped
  {
    var statuses := Recorded(cfg, steps[..i]);
    RecordedAt(cfg, steps, i, j);
    BlockedDependencyFound(steps[i].dependsOn, statuses);
    var d := BlockedDependency(steps[i].dependsOn, statuses);
    assert d.Some?;
    var origin := RecordedHasOrigin(cfg, steps, i, d.value);
  }

  lemma BackwardEdge(steps: seq<Step>, i: nat, j: nat)
    requires NamedSteps(steps) && BackwardDependencies(steps) && DependsOn(steps, i, j)
    ensures j < i
  {
    assert HasStepBefore(steps, i, steps[j].stepId);
  }

  lemma {:induction false} HaltTravels(cfg: Setting, steps: seq<Step>, path: seq<nat>)
    requires NamedSteps(steps) && BackwardDependencies(steps) && DependencyPath(steps, path)
    requires StartsHalt(Outcome(cfg, steps, Last(path)))
    ensures Outcome(cfg, steps, path[0]) == Skipped
  {
    assert DependsOn(steps, path[0], path[0 + 1]);
    BackwardEdge(steps, path[0], path[1]);
    if |path| > 2 {
      var rest := path[1..];
      forall k | 0 <= k < |rest| - 1 ensures DependsOn(steps, rest[k], rest[k + 1]) {
        assert DependsOn(steps, path[k + 1], path[k + 1 + 1]);
      }
      HaltTravels(cfg, steps, rest);
    }
    HaltedDependencySkips(cfg, steps, path[0], path[1]);
  }

  lemma PrependStep(steps: seq<Step>, i: nat, rest: seq<nat>)
    requires DependencyPath(steps, rest) && DependsOn(steps, i, rest[0])
    ensures DependencyPath(steps, [i] + rest) && Last([i] + rest) == Last(rest)
  {
    var path := [i] + rest;
    forall k | 0 <= k < |path| - 1 ensures DependsOn(steps, path[k], path[k + 1]) {
      if k > 0 {
        assert DependsOn(steps, rest[k - 1], rest[k - 1 + 1]);
      }
    }
  }

  /** The dependency that made a step be skipped. */
  lemma SkippedCause(cfg: Setting, steps: seq<Step>, i: nat) returns (j: nat)
    requires i < |steps| && Outcome(cfg, steps, i) == Skipped
    ensures j < i && DependsOn(steps, i, j) && Halts(Outcome(cfg, steps, j))
  {
    var statuses := Recorded(cfg, steps[..i]);
    BlockedDependencyFound(steps[i].dependsOn, statuses);
    j := RecordedHasOrigin(cfg, steps, i, BlockedDependency(steps[i].dependsOn, statuses).value);
  }

  lemma {:induction false} SkippedWaits(cfg: Setting, steps: seq<Step>, i: nat) returns (path: seq<nat>)
    requires NamedSteps(steps) && i < |steps| && Outcome(cfg, steps, i) == Skipped
    ensures DependencyPath(steps, path) && path[0] == i && StartsHalt(Outcome(cfg, steps, Last(path)))
  {
    var j := SkippedCause(cfg, steps, i);
    if Outcome(cfg, steps, j) == Skipped {
      var rest := SkippedWaits(cfg, steps, j);
      PrependStep(steps, i, rest);
      path := [i] + rest;
    } else {
      NeverFailed(cfg, steps, j);
      path := [i, j];
    }
  }

  lemma NeverFailed(cfg: Setting, steps: seq<Step>, i: nat)
    requires i < |steps|
    ensures Outcome(cfg, steps, i) != Failed
  {
  }

  /** With distinct ids and backward dependencies, a step is skipped if and only if it waits,
      directly or through other steps, for a step that was blocked or needs approval. */
  lemma SkippedIffWaitsForHalt(cfg: Setting, steps: seq<Step>, i: nat)
    requires NamedSteps(steps) && BackwardDependencies(steps) && i < |steps|
    ensures Outcome(cfg, steps, i) == Skipped
       <==> exists j :: 0 <= j < |steps| && WaitsFor(steps, i, j) && StartsHalt(Outcome(cfg, steps, j))
  {
    if Outcome(cfg, steps, i) == Skipped {
      var path := SkippedWaits(cfg, steps, i);
      assert DependsOn(steps, path[|path| - 2], path[|path| - 2 + 1]);
      assert WaitsFor(steps, i, Last(path));
    }
    if j: nat :| j < |steps| && WaitsFor(steps, i, j) && StartsHalt(Outcome(cfg, steps, j)) {
      var path: seq<nat> :| DependencyPath(steps, path) && path[0] == i && Last(path) == j;
      HaltTravels(cfg, steps, path);
    }
  }

  // ----- plans built by the router

  lemma PlannedStepsNamed(steps: seq<Step>)
    requires Numbered(steps)
    ensures NamedSteps(steps)
  {
    NumberedIdsUnique(steps);
  }

  /** A built plan stops at its first halt: everything after it is skipped. */
  lemma {:induction false} BuiltPlanStopsAtFirstHalt(cfg: Setting, steps: seq<Step>, i: nat, j: nat)
    requires WellPlanned(steps) && i < j < |steps| && Halts(Outcome(cfg, steps, i))
    ensures Outcome(cfg, steps, j) == Skipped
  {
    PlannedStepsNamed(steps);
    if i < j - 1 {
      BuiltPlanStopsAtFirstHalt(cfg, steps, i, j - 1);
    }
    HaltedDependencySkips(cfg, steps, j, j - 1);
  }

  /** A built plan asks for approval in its last step only, so a run makes at most one request. */
  lemma BuiltPlanAsksOnce(cfg: Setting, steps: seq<Step>, i: nat)
    requires WellPlanned(steps) && i < |steps| && Outcome(cfg, steps, i) == ApprovalRequired
    ensures i == |steps| - 1 && steps[i].requiresReview
  {
    assert NormalizedTool(steps[i].toolName) in WRITE_TOOLS;
    assert "nl2sql.audit_only" in READ_ONLY_TOOLS;
    assert IsWriteStep(steps[i]);
    assert steps[i] in steps;
  }

  /** What becomes of a tool call, by the class of the tool, the mode and the project scope; the
      gate's own flag says "execute" exactly when the executor does. */
  lemma GateOutcome(cfg: Setting, tool: string)
    ensures var denied := ProjectDenied(cfg.user, cfg.projectId);
            && (ToolStatus(cfg, tool) == Executed <==>
                 tool in READ_ONLY_TOOLS && cfg.mode == ControlledExecute && !denied)
            && (ToolStatus(cfg, tool) == DryRunPassed <==> tool in READ_ONLY_TOOLS && cfg.mode == DryRun && !denied)
            && (ToolStatus(cfg, tool) == ApprovalRequired <==> tool in WRITE_TOOLS && !denied)
    ensures var access := EvaluateToolAccess(tool, cfg.mode, cfg.user, cfg.projectId);
            && (access.Err? <==> tool !in READ_ONLY_TOOLS + WRITE_TOOLS + RESTRICTED_TOOLS)
            && (access.Ok? ==> (access.value.willExecute <==> ToolStatus(cfg, tool) == Executed)
                               && (access.value.reason.None? <==>
                                     tool in READ_ONLY_TOOLS && !ProjectDenied(cfg.user, cfg.projectId)))
  {
    ReadOnlyToolsDoNotWrite();
    RestrictedToolsApart();
  }

  lemma ReadOnlyToolsDoNotWrite()
    ensures READ_ONLY_TOOLS !! WRITE_TOOLS
  {
    assert forall t :: t in READ_ONLY_TOOLS ==> t != "work_orders.create" && t != "work_orders.dispatch";
    assert forall t :: t in READ_ONLY_TOOLS ==> t != "work_orders.transition" && t != "hazards.create";
  }

  lemma RestrictedToolsApart()
    ensures RESTRICTED_TOOLS !! READ_ONLY_TOOLS + WRITE_TOOLS
  {
    assert forall t :: t in READ_ONLY_TOOLS + WRITE_TOOLS ==> t != "penalty.create" && t != "stop_work.issue";
    assert forall t :: t in READ_ONLY_TOOLS + WRITE_TOOLS ==> t != "subcontractor.remove";
  }

  /** When the run as a whole is not blocked, no tool is denied for its project. */
  lemma ToolGateAgreesWithRunCheck(cfg: Setting, restrictedAction: bool, tool: string)
    requires cfg.forced == GlobalBlockReason(cfg.user, cfg.projectId, restrictedAction)
    requires cfg.forced.None?
    ensures ToolStatus(cfg, tool) == Blocked <==> tool !in READ_ONLY_TOOLS + WRITE_TOOLS
  {
  }
}
