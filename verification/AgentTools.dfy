/** The agent tool registry: which tools exist, what they may do, and the access gate. */
module AgentTools {
  import opened Common

  datatype SideEffect = ReadOnly | Write | Restricted
  datatype Mode = DryRun | ControlledExecute
  datatype User = User(projectScoped: bool, projectIds: seq<string>)

  datatype AccessStatus = Ready | Rehearsed | NeedsApproval | Denied
  datatype Denial = OutsideProjectScope | RestrictedTool | WriteNeedsApproval
  datatype Decision = Decision(status: AccessStatus, willExecute: bool, reason: Option<Denial>)
  datatype UnknownTool = UnknownTool(name: string)

  const READ_ONLY_TOOLS := {
    "profile.read", "rules.read_triggers", "work_orders.read", "hazards.read", "metrics.read_catalog",
    "nl2sql.audit_only", "nl2sql.readonly_execute", "cases.read", "knowledge.search",
    "graph.read_neighbors", "memory.read_context"}
  const WRITE_TOOLS := {"work_orders.create", "work_orders.dispatch", "work_orders.transition", "hazards.create"}
  const RESTRICTED_TOOLS := {"penalty.create", "stop_work.issue", "subcontractor.remove"}

  function ToolSideEffect(tool: string): Option<SideEffect> {
    if tool in READ_ONLY_TOOLS then Some(ReadOnly)
    else if tool in WRITE_TOOLS then Some(Write)
    else if tool in RESTRICTED_TOOLS then Some(Restricted)
    else None
  }

  /** The project check shared by the gate and by the run-wide check of the executor. */
  predicate ProjectDenied(user: User, projectId: Option<string>) {
    && projectId.Some? && projectId.value != ""
    && user.projectScoped && user.projectIds != []
    && projectId.value !in user.projectIds
  }

  function EvaluateToolAccess(tool: string, mode: Mode, user: User, projectId: Option<string>)
    : Result<Decision, UnknownTool>
  {
    match ToolSideEffect(tool)
    case None => Err(UnknownTool(tool))
    case Some(effect) =>
      if ProjectDenied(user, projectId) then Ok(Decision(Denied, false, Some(OutsideProjectScope)))
      else match effect
           case Restricted => Ok(Decision(Denied, false, Some(RestrictedTool)))
           case Write => Ok(Decision(NeedsApproval, false, Some(WriteNeedsApproval)))
           case ReadOnly =>
             if mode == DryRun then Ok(Decision(Rehearsed, false, None)) else Ok(Decision(Ready, true, None))
  }
}
