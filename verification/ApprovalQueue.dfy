/** Agent approvals: a row is created for a step that needs approval, decided once and executed
    once. The execution hands over to the work-order service; its answer is a parameter. */
module ApprovalQueue {
  import opened Common
  import opened AgentTools

  datatype Status = Pending | Approved | Rejected | Executed | ExecutionFailed
  datatype Target = WorkOrderTarget | HazardTarget | UnknownTarget
  datatype Failure = NotPermitted | InvalidPayload | ServiceFailed

  /** The run context a request is made from. `rectificationImage` says whether its attachments
      hold an item of the rectification phase. */
  datatype Context = Context(projectId: Option<string>, hazardId: Option<string>, workOrderId: Option<string>,
                             sourceType: Option<string>, sourceId: Option<string>, action: Option<string>,
                             assignee: Option<string>, dueTime: Option<string>, rejectReason: Option<string>,
                             rectificationImage: bool)

  datatype Caller = Caller(userId: string, companyId: string, scope: User)

  datatype Approval = Approval(companyId: string, projectId: Option<string>, tool: string,
                               target: Target, targetId: Option<string>, payload: Context,
                               status: Status, approver: Option<string>, executor: Option<string>,
                               approvedAt: Option<nat>, rejectedAt: Option<nat>, executedAt: Option<nat>,
                               executionError: Option<Failure>)

  /** What the work-order service did on behalf of an approval. */
  datatype Effect = Effect(approvalId: string, tool: string, subject: string)

  datatype Queue = Queue(rows: map<string, Approval>, effects: seq<Effect>)

  datatype Error = DuplicateId | NotPending | NotApproved | Failed(failure: Failure)

  predicate Truthy(s: Option<string>) {
    s.Some? && s.value != ""
  }

  function Or(a: Option<string>, b: Option<string>): Option<string> {
    if Truthy(a) then a else b
  }

  predicate HasPrefix(s: string, prefix: string) {
    prefix <= s
  }

  /** `_target_from_context` */
  function TargetOf(tool: string, c: Context): (Target, Option<string>) {
    var hazard := if c.hazardId.None? && c.sourceType == Some("hazard") then c.sourceId else c.hazardId;
    if tool == "work_orders.create" && Truthy(hazard) then (HazardTarget, hazard)
    else if HasPrefix(tool, "work_orders.") then (WorkOrderTarget, c.workOrderId)
    else if HasPrefix(tool, "hazards.") then (HazardTarget, c.hazardId)
    else (UnknownTarget, None)
  }

  /** `_sanitized_payload`: attachments are not among the kept keys. */
  function Sanitized(c: Context): Context {
    c.(rectificationImage := false)
  }

  function NewApproval(caller: Caller, tool: string, c: Context): Approval {
    var (target, targetId) := TargetOf(tool, c);
    Approval(caller.companyId, c.projectId, tool, target, targetId, Sanitized(c),
             Pending, None, None, None, None, None, None)
  }

  /** The data scope every lookup is filtered by. */
  predicate Visible(caller: Caller, a: Approval) {
    && a.companyId == caller.companyId
    && (caller.scope.projectScoped && caller.scope.projectIds != [] ==>
          a.projectId.Some? && a.projectId.value in caller.scope.projectIds)
  }

  /** `_assert_executable_tool` */
  predicate ToolExecutable(a: Approval) {
    || (a.tool == "work_orders.transition" && a.target == WorkOrderTarget)
    || (a.tool == "work_orders.create" && a.target != WorkOrderTarget)
  }

  /** `_validate_action_payload` of the work-order workflow. */
  predicate TransitionPayloadValid(c: Context) {
    && (c.action == Some("confirm") ==> Truthy(c.assignee) && c.dueTime.Some?)
    && (c.action == Some("submit_result") ==> c.rectificationImage)
    && (c.action == Some("review_reject") ==> Truthy(c.rejectReason))
  }

  /** The work-order call an approval leads to; `serviceAccepts` is the answer of the service to a
      well-formed request. */
  function Attempt(a: Approval, serviceAccepts: bool): Result<string, Failure> {
    if !ToolExecutable(a) then Err(NotPermitted)
    else if a.tool == "work_orders.create" then
      var project, hazard := Or(a.payload.projectId, a.projectId), Or(a.payload.hazardId, a.targetId);
      if !Truthy(project) || !Truthy(hazard) then Err(InvalidPayload)
      else if !serviceAccepts then Err(ServiceFailed)
      else Ok(hazard.value)
    else
      var order := Or(a.payload.workOrderId, a.targetId);
      if !Truthy(order) || a.payload.action.None? then Err(InvalidPayload)
      else if !serviceAccepts || !TransitionPayloadValid(a.payload) then Err(ServiceFailed)
      else Ok(order.value)
  }

  datatype Call =
    | CreateCall(id: string, caller: Caller, tool: string, context: Context)
    | DecideCall(id: string, caller: Caller, approve: bool, now: nat)
    | ExecuteCall(id: string, caller: Caller, serviceAccepts: bool, now: nat)

  predicate Reaches(q: Queue, call: Call, status: Status) {
    call.id in q.rows && Visible(call.caller, q.rows[call.id]) && q.rows[call.id].status == status
  }

  /** What one call makes of the queue. */
  function Step(q: Queue, call: Call): Queue {
    match call
    case CreateCall(id, caller, tool, context) =>
      if id in q.rows then q else q.(rows := q.rows[id := NewApproval(caller, tool, context)])
    case DecideCall(id, caller, approve, now) =>
      if !Reaches(q, call, Pending) then q
      else if approve then
        q.(rows := q.rows[id := q.rows[id].(status := Approved, approver := Some(caller.userId),
                                            approvedAt := Some(now))])
      else
        q.(rows := q.rows[id := q.rows[id].(status := Rejected, approver := Some(caller.userId),
                                            rejectedAt := Some(now))])
    case ExecuteCall(id, caller, serviceAccepts, now) =>
      if !Reaches(q, call, Approved) then q
      else
        var a := q.rows[id];
        match Attempt(a, serviceAccepts)
        case Ok(subject) =>
          Queue(q.rows[id := a.(status := Executed, executor := Some(caller.userId), executedAt := Some(now),
                                executionError := None)],
                q.effects + [Effect(id, a.tool, subject)])
        case Err(failure) =>
          q.(rows := q.rows[id := a.(status := ExecutionFailed, executor := Some(caller.userId),
                                     executionError := Some(failure))])
  }

  /** The approval table together with the work-order effects that were committed. */
  class ApprovalStore {
    var rows: map<string, Approval>
    var effects: seq<Effect>

    ghost function State(): Queue
      reads this
    {
      Queue(rows, effects)
    }

    constructor ()
      ensures State() == Queue(map[], [])
    {
      rows, effects := map[], [];
    }

    method GetApproval(id: string, caller: Caller) returns (found: Option<Approval>)
      ensures found.Some? <==> id in rows && Visible(caller, rows[id])
      ensures found.Some? ==> found.value == rows[id]
    {
      found := if id in rows && Visible(caller, rows[id]) then Some(rows[id]) else None;
    }

    method CreateRequest(id: string, caller: Caller, tool: string, context: Context)
      returns (r: Result<Approval, Error>)
      modifies this
      ensures State() == Step(old(State()), CreateCall(id, caller, tool, context))
      ensures r == if id in old(rows) then Err(DuplicateId) else Ok(rows[id])
    {
      if id in rows {
        return Err(DuplicateId);
      }
      var approval := NewApproval(caller, tool, context);
      rows := rows[id := approval];
      r := Ok(approval);
    }

    method Decide(id: string, caller: Caller, approve: bool, now: nat) returns (r: Result<Option<Approval>, Error>)
      modifies this
      ensures State() == Step(old(State()), DecideCall(id, caller, approve, now))
      ensures r == Ok(None) <==> id !in old(rows) || !Visible(caller, old(rows)[id])
      ensures r.Err? <==> id in old(rows) && Visible(caller, old(rows)[id]) && old(rows)[id].status != Pending
      ensures r.Err? ==> r.error == NotPending
      ensures r.Ok? && r.value.Some? ==> r.value.value == rows[id]
    {
      var found := GetApproval(id, caller);
      if found.None? {
        return Ok(None);
      }
      var approval := found.value;
      if approval.status != Pending {
        return Err(NotPending);
      }
      approval := approval.(status := if approve then Approved else Rejected);
      approval := approval.(approver := Some(caller.userId));
      if approve {
        approval := approval.(approvedAt := Some(now));
      } else {
        approval := approval.(rejectedAt := Some(now));
      }
      rows := rows[id := approval];
      r := Ok(Some(approval));
    }

    /** One atomic call: the service commits its effect, then the status is committed. A failure is
        rolled back and recorded. */
    method Execute(id: string, caller: Caller, serviceAccepts: bool, now: nat)
      returns (r: Result<Option<Approval>, Error>)
      modifies this
      ensures State() == Step(old(State()), ExecuteCall(id, caller, serviceAccepts, now))
      ensures r == Ok(None) <==> id !in old(rows) || !Visible(caller, old(rows)[id])
      ensures r == Err(NotApproved) <==>
                id in old(rows) && Visible(caller, old(rows)[id]) && old(rows)[id].status != Approved
      ensures r.Ok? && r.value.Some? ==> r.value.value == rows[id] && rows[id].status == Executed
      ensures r.Err? && r.error.Failed? ==> rows[id].status == ExecutionFailed && effects == old(effects)
    {
      var found := GetApproval(id, caller);
      if found.None? {
        return Ok(None);
      }
      var approval := found.value;
      if approval.status != Approved {
        return Err(NotApproved);
      }
      var attempt := Attempt(approval, serviceAccepts);
      if attempt.Err? {
        MarkExecutionFailed(id, caller, attempt.error);
        return Err(Failed(attempt.error));
      }
      effects := effects + [Effect(id, approval.tool, attempt.value)];
      approval := approval.(status := Executed, executor := Some(caller.userId));
      approval := approval.(executedAt := Some(now), executionError := None);
      rows := rows[id := approval];
      r := Ok(Some(approval));
    }

    method MarkExecutionFailed(id: string, caller: Caller, failure: Failure)
      modifies this`rows
      ensures rows == if id in old(rows) && Visible(caller, old(rows)[id])
                      then old(rows)[id := old(rows)[id].(status := ExecutionFailed, executor := Some(caller.userId),
                                                          executionError := Some(failure))]
                      else old(rows)
    {
      var found := GetApproval(id, caller);
      if found.Some? {
        rows := rows[id := found.value.(status := ExecutionFailed, executor := Some(caller.userId),
                                        executionError := Some(failure))];
      }
    }
  }

  // ----- every run of calls

  function After(run: seq<Call>): Queue {
    if run == [] then Queue(map[], []) else Step(After(Front(run)), Last(run))
  }

  predicate RowConsistent(a: Approval) {
    && (a.approver.Some? <==> a.status != Pending)
    && (a.approvedAt.Some? <==> a.status in {Approved, Executed, ExecutionFailed})
    && (a.rejectedAt.Some? <==> a.status == Rejected)
    && (a.executor.Some? <==> a.status in {Executed, ExecutionFailed})
    && (a.executedAt.Some? <==> a.status == Executed)
    && (a.executionError.Some? <==> a.status == ExecutionFailed)
  }

  ghost predicate HasEffect(q: Queue, id: string) {
    exists i :: 0 <= i < |q.effects| && q.effects[i].approvalId == id
  }

  /** The effects are exactly one for each executed row. */
  ghost predicate EffectsMatchRows(q: Queue) {
    && (forall i, j :: 0 <= i < j < |q.effects| ==> q.effects[i].approvalId != q.effects[j].approvalId)
    && (forall i :: 0 <= i < |q.effects| ==>
          var e := q.effects[i];
          e.approvalId in q.rows && q.rows[e.approvalId].status == Executed && q.rows[e.approvalId].tool == e.tool)
    && (forall id :: id in q.rows && q.rows[id].status == Executed ==> HasEffect(q, id))
  }

  lemma StepKeepsRowsConsistent(q: Queue, call: Call)
    requires forall id :: id in q.rows ==> RowConsistent(q.rows[id])
    ensures forall id :: id in Step(q, call).rows ==> RowConsistent(Step(q, call).rows[id])
  {
  }

  predicate Settled(q: Queue, id: string) {
    id in q.rows && q.rows[id].status in {Rejected, Executed, ExecutionFailed}
  }

  lemma StepKeepsSettled(q: Queue, call: Call, id: string)
    requires Settled(q, id)
    ensures Settled(Step(q, call), id) && Step(q, call).rows[id] == q.rows[id]
  {
  }

  lemma StepEffects(q: Queue, call: Call, id: string)
    ensures HasEffect(q, id) ==> HasEffect(Step(q, call), id)
    ensures HasEffect(Step(q, call), id) && !HasEffect(q, id) ==>
              && call.ExecuteCall? && call.id == id && Reaches(q, call, Approved)
              && Attempt(q.rows[id], call.serviceAccepts).Ok?
  {
    var after := Step(q, call);
    if HasEffect(q, id) {
      var i :| 0 <= i < |q.effects| && q.effects[i].approvalId == id;
      assert after.effects[i].approvalId == id;
    } else if HasEffect(after, id) {
      var i :| 0 <= i < |after.effects| && after.effects[i].approvalId == id;
      if i < |q.effects| {
        assert false;
      }
    }
  }

  lemma StepExecutes(q: Queue, call: Call, id: string)
    requires id in Step(q, call).rows && Step(q, call).rows[id].status == Executed
    ensures (id in q.rows && q.rows[id].status == Executed) || HasEffect(Step(q, call), id)
  {
    var after := Step(q, call);
    if |after.effects| > |q.effects| && id == call.id {
      assert after.effects[|q.effects|].approvalId == id;
    }
  }

  lemma StepKeepsEffects(q: Queue, call: Call)
    requires EffectsMatchRows(q)
    ensures EffectsMatchRows(Step(q, call))
  {
    var after := Step(q, call);
    forall id | id in after.rows && after.rows[id].status == Executed ensures HasEffect(after, id) {
      StepEffects(q, call, id);
      StepExecutes(q, call, id);
    }
    forall i | 0 <= i < |q.effects|
      ensures var e := q.effects[i]; e.approvalId in after.rows && after.rows[e.approvalId] == q.rows[e.approvalId]
    {
      StepKeepsSettled(q, call, q.effects[i].approvalId);
    }
  }

  /** In every run the stamps of each row agree with its status, and the effects are exactly one
      for each executed approval. */
  lemma {:induction false} RunInvariant(run: seq<Call>)
    ensures forall id :: id in After(run).rows ==> RowConsistent(After(run).rows[id])
    ensures EffectsMatchRows(After(run))
  {
    if run != [] {
      RunInvariant(Front(run));
      StepKeepsRowsConsistent(After(Front(run)), Last(run));
      StepKeepsEffects(After(Front(run)), Last(run));
    }
  }

  /** Once rejected, executed or failed, a row never changes again, whatever is called later. */
  lemma {:induction false} SettledRowsAreFinal(run: seq<Call>, more: seq<Call>, id: string)
    requires Settled(After(run), id)
    ensures Settled(After(run + more), id) && After(run + more).rows[id] == After(run).rows[id]
  {
    if more == [] {
      assert run + more == run;
    } else {
      var shorter := run + Front(more);
      SettledRowsAreFinal(run, Front(more), id);
      assert Front(run + more) == shorter && Last(run + more) == Last(more);
      assert After(run + more) == Step(After(shorter), Last(more));
      StepKeepsSettled(After(shorter), Last(more), id);
    }
  }

  // ----- where an effect comes from

  predicate CreatesAt(run: seq<Call>, c: nat, id: string) {
    c < |run| && run[c].CreateCall? && run[c].id == id && id !in After(run[..c]).rows
  }

  predicate ApprovesAt(run: seq<Call>, d: nat, id: string) {
    d < |run| && run[d].DecideCall? && run[d].approve && run[d].id == id && Reaches(After(run[..d]), run[d], Pending)
  }

  predicate ExecutesAt(run: seq<Call>, x: nat, id: string) {
    x < |run| && run[x].ExecuteCall? && run[x].id == id && Reaches(After(run[..x]), run[x], Approved)
  }

  predicate SameRequest(a: Approval, b: Approval) {
    && (a.companyId, a.projectId, a.tool, a.target, a.targetId, a.payload)
       == (b.companyId, b.projectId, b.tool, b.target, b.targetId, b.payload)
  }

  /** The history predicates look at positions only, so a longer run keeps them. */
  lemma LongerRun(run: seq<Call>, i: nat, id: string)
    requires run != [] && i < |run| - 1
    ensures CreatesAt(Front(run), i, id) <==> CreatesAt(run, i, id)
    ensures ApprovesAt(Front(run), i, id) <==> ApprovesAt(run, i, id)
    ensures ExecutesAt(Front(run), i, id) <==> ExecutesAt(run, i, id)
  {
    assert Front(run)[..i] == run[..i];
  }

  lemma StepCreates(q: Queue, call: Call, id: string)
    requires id in Step(q, call).rows
    ensures id in q.rows ==> SameRequest(Step(q, call).rows[id], q.rows[id])
    ensures id !in q.rows ==> call.CreateCall? && call.id == id
                              && Step(q, call).rows[id] == NewApproval(call.caller, call.tool, call.context)
  {
  }

  predicate WasApproved(q: Queue, id: string) {
    id in q.rows && q.rows[id].status in {Approved, Executed, ExecutionFailed}
  }

  lemma StepApproves(q: Queue, call: Call, id: string)
    requires WasApproved(Step(q, call), id)
    ensures WasApproved(q, id) ==> Step(q, call).rows[id].approver == q.rows[id].approver
    ensures !WasApproved(q, id) ==>
              && id in q.rows && call.DecideCall? && call.approve && call.id == id && Reaches(q, call, Pending)
              && Step(q, call).rows[id].approver == Some(call.caller.userId)
  {
  }

  lemma {:induction false} Creation(run: seq<Call>, id: string) returns (c: nat)
    requires id in After(run).rows
    ensures CreatesAt(run, c, id)
    ensures SameRequest(After(run).rows[id], NewApproval(run[c].caller, run[c].tool, run[c].context))
  {
    StepCreates(After(Front(run)), Last(run), id);
    if id in After(Front(run)).rows {
      c := Creation(Front(run), id);
      LongerRun(run, c, id);
    } else {
      c := |run| - 1;
    }
  }

  lemma {:induction false} Approving(run: seq<Call>, id: string) returns (c: nat, d: nat)
    requires WasApproved(After(run), id)
    ensures CreatesAt(run, c, id) && c < d && ApprovesAt(run, d, id)
    ensures SameRequest(After(run).rows[id], NewApproval(run[c].caller, run[c].tool, run[c].context))
    ensures After(run).rows[id].approver == Some(run[d].caller.userId)
  {
    StepApproves(After(Front(run)), Last(run), id);
    StepCreates(After(Front(run)), Last(run), id);
    if WasApproved(After(Front(run)), id) {
      c, d := Approving(Front(run), id);
      LongerRun(run, d, id);
    } else {
      c := Creation(Front(run), id);
      d := |run| - 1;
    }
    LongerRun(run, c, id);
  }

  /** If an approval has had its effect, then it was created, approved by somebody who can see it,
      and executed, in that order, with a request that the service could and did take. */
  lemma {:induction false} EffectHasHistory(run: seq<Call>, id: string) returns (c: nat, d: nat, x: nat)
    requires HasEffect(After(run), id)
    ensures CreatesAt(run, c, id) && c < d && ApprovesAt(run, d, id) && d < x && ExecutesAt(run, x, id)
    ensures run[x].serviceAccepts && CanExecute(run[c].tool, run[c].context)
  {
    var before := After(Front(run));
    StepEffects(before, Last(run), id);
    if HasEffect(before, id) {
      c, d, x := EffectHasHistory(Front(run), id);
      LongerRun(run, c, id);
      LongerRun(run, d, id);
      LongerRun(run, x, id);
    } else {
      x := |run| - 1;
      c, d := Approving(Front(run), id);
      LongerRun(run, c, id);
      LongerRun(run, d, id);
      AttemptOutcome(run[c].caller, run[c].tool, run[c].context, before.rows[id], run[x].serviceAccepts);
    }
  }

  // ----- which requests can be executed at all

  predicate Given(s: Option<string>) {
    s.Some? && |s.value| > 0
  }

  /** What a request needs at creation time for its execution to be possible. */
  predicate CanExecute(tool: string, c: Context) {
    if tool == "work_orders.transition" then
      && Given(c.workOrderId) && c.action.Some? && c.action != Some("submit_result")
      && (c.action == Some("confirm") ==> Given(c.assignee) && c.dueTime.Some?)
      && (c.action == Some("review_reject") ==> Given(c.rejectReason))
    else
      && tool == "work_orders.create" && Given(c.projectId)
      && (Given(c.hazardId) || (c.hazardId.None? && c.sourceType == Some("hazard") && Given(c.sourceId)))
  }

  /** The chain from the context through target, payload filter, tool check and payload checks: an
      approved request goes through if and only if the service accepts it and it met `CanExecute`
      when created. In particular no `submit_result` does, since the filter drops its images. */
  lemma AttemptOutcome(caller: Caller, tool: string, context: Context, a: Approval, serviceAccepts: bool)
    requires SameRequest(a, NewApproval(caller, tool, context))
    ensures Attempt(a, serviceAccepts).Ok? <==> serviceAccepts && CanExecute(tool, context)
    ensures tool !in {"work_orders.transition", "work_orders.create"} ==>
              Attempt(a, serviceAccepts) == Err(NotPermitted)
  {
    assert HasPrefix("work_orders.transition", "work_orders.");
    assert HasPrefix("work_orders.create", "work_orders.");
  }

  /** The last call of a run, if it executes an approved row the caller sees, settles it: executed
      with one more effect, or failed with none; which of them is known since creation. */
  lemma ExecutionOutcome(run: seq<Call>, id: string) returns (c: nat)
    requires run != [] && ExecutesAt(run, |run| - 1, id)
    ensures CreatesAt(run, c, id)
    ensures After(run).rows[id].status
         == if Last(run).serviceAccepts && CanExecute(run[c].tool, run[c].context) then Executed else ExecutionFailed
    ensures |After(run).effects| == |After(Front(run)).effects|
         + if Last(run).serviceAccepts && CanExecute(run[c].tool, run[c].context) then 1 else 0
  {
    c := Creation(Front(run), id);
    LongerRun(run, c, id);
    AttemptOutcome(run[c].caller, run[c].tool, run[c].context, After(Front(run)).rows[id], Last(run).serviceAccepts);
  }

  // ----- what a request is about, and how its execution can fail

  ghost predicate Begins(text: string, start: string) {
    |start| <= |text| && forall k :: 0 <= k < |start| ==> text[k] == start[k]
  }

  /** The hazard a context names: by its own field, or as its source when that field is missing. */
  ghost predicate NamesHazard(c: Context, id: string) {
    || (Given(c.hazardId) && id == c.hazardId.value)
    || (c.hazardId == None && c.sourceType == Some("hazard") && Given(c.sourceId) && id == c.sourceId.value)
  }

  lemma PrefixMeaning(text: string, start: string)
    ensures HasPrefix(text, start) <==> Begins(text, start)
  {
    if Begins(text, start) {
      assert text[..|start|] == start;
    }
  }

  /** A request to create a work order is about the hazard named; any other tool is about what its name
      begins with; a tool of neither kind has no target. */
  lemma TargetMeaning(tool: string, c: Context)
    ensures forall id :: tool == "work_orders.create" && NamesHazard(c, id) ==>
              TargetOf(tool, c) == (HazardTarget, Some(id))
    ensures (tool != "work_orders.create" || forall id :: !NamesHazard(c, id)) && Begins(tool, "work_orders.") ==>
              TargetOf(tool, c) == (WorkOrderTarget, c.workOrderId)
    ensures Begins(tool, "hazards.") ==> TargetOf(tool, c) == (HazardTarget, c.hazardId)
    ensures !Begins(tool, "work_orders.") && !Begins(tool, "hazards.") ==> TargetOf(tool, c) == (UnknownTarget, None)
  {
    PrefixMeaning(tool, "work_orders.");
    PrefixMeaning(tool, "hazards.");
    assert Begins("work_orders.create", "work_orders.");
    assert Begins(tool, "work_orders.") ==> tool[0] == 'w';
    assert Begins(tool, "hazards.") ==> tool[0] == 'h';
    if tool == "work_orders.create" && forall id :: !NamesHazard(c, id) {
      var hazard := if c.hazardId.None? && c.sourceType == Some("hazard") then c.sourceId else c.hazardId;
      assert hazard.Some? ==> !NamesHazard(c, hazard.value);
    }
  }

  /** A new request: the caller's company, the context's project, and nothing decided. */
  lemma CreationMeaning(q: Queue, id: string, caller: Caller, tool: string, context: Context)
    ensures var after := Step(q, CreateCall(id, caller, tool, context));
            if id in q.rows then after == q
            else
              && after.rows.Keys == q.rows.Keys + {id} && after.effects == q.effects
              && (forall other :: other in q.rows ==> after.rows[other] == q.rows[other])
              && var a := after.rows[id];
                 && a.companyId == caller.companyId && a.projectId == context.projectId && a.tool == tool
                 && a.payload == context.(rectificationImage := false) && a.status == Pending
                 && a.executionError == None && (a.target, a.targetId) == TargetOf(tool, context)
  {
  }

  /** Execution is refused for any other tool, and for a creation that names no hazard. */
  ghost predicate Refused(tool: string, c: Context) {
    || (tool != "work_orders.transition" && tool != "work_orders.create")
    || (tool == "work_orders.create" && forall id :: !NamesHazard(c, id))
  }

  /** The payload lacks what the call needs: the project of a creation, the order or the action of a
      transition. */
  ghost predicate Incomplete(tool: string, c: Context) {
    || (tool == "work_orders.create" && !Given(c.projectId))
    || (tool == "work_orders.transition" && (!Given(c.workOrderId) || c.action == None))
  }

  /** Every outcome of an execution, from the context the request was made from. */
  lemma AttemptMeaning(caller: Caller, tool: string, context: Context, a: Approval, serviceAccepts: bool)
    requires SameRequest(a, NewApproval(caller, tool, context))
    ensures Refused(tool, context) <==> Attempt(a, serviceAccepts) == Err(NotPermitted)
    ensures !Refused(tool, context) && Incomplete(tool, context) <==> Attempt(a, serviceAccepts) == Err(InvalidPayload)
    ensures Attempt(a, serviceAccepts).Ok? && tool == "work_orders.transition" ==>
              context.workOrderId == Some(Attempt(a, serviceAccepts).value)
    ensures Attempt(a, serviceAccepts).Ok? && tool == "work_orders.create" ==>
              NamesHazard(context, Attempt(a, serviceAccepts).value)
  {
    TargetMeaning(tool, context);
    assert Begins("work_orders.transition", "work_orders.");
    if tool == "work_orders.create" {
      var hazard := if Given(context.hazardId) then context.hazardId else context.sourceId;
      assert (hazard.Some? && NamesHazard(context, hazard.value)) || forall id :: !NamesHazard(context, id);
    }
  }

  // ----- whom a call reaches, and what a decision changes

  /** The caller's company, and for a caller bound to projects one of those projects. */
  ghost predicate InDataScope(caller: Caller, a: Approval) {
    && caller.companyId == a.companyId
    && (|| !caller.scope.projectScoped || caller.scope.projectIds == []
        || exists i :: 0 <= i < |caller.scope.projectIds| && a.projectId == Some(caller.scope.projectIds[i]))
  }

  /** A decision takes effect exactly on a pending row in the caller's data scope. It then sets the
      status, the approver and the time of that decision, and nothing else in the table. */
  lemma DecisionMeaning(q: Queue, id: string, caller: Caller, approve: bool, now: nat)
    ensures var after := Step(q, DecideCall(id, caller, approve, now));
            if id in q.rows && InDataScope(caller, q.rows[id]) && q.rows[id].status == Pending
            then && after.rows.Keys == q.rows.Keys && after.effects == q.effects
                 && (forall other :: other in q.rows && other != id ==> after.rows[other] == q.rows[other])
                 && Decided(q.rows[id], after.rows[id], caller.userId, approve, now)
            else after == q
  {
    if id in q.rows {
      VisibleMeaning(caller, q.rows[id]);
    }
  }

  lemma VisibleMeaning(caller: Caller, a: Approval)
    ensures Visible(caller, a) <==> InDataScope(caller, a)
  {
  }

  ghost predicate Decided(before: Approval, after: Approval, userId: string, approve: bool, now: nat) {
    && after.approver == Some(userId)
    && (approve ==> after.status == Approved && after.approvedAt == Some(now) && after.rejectedAt == before.rejectedAt)
    && (!approve ==> after.status == Rejected && after.rejectedAt == Some(now) && after.approvedAt == before.approvedAt)
    && SameRequest(before, after)
    && after.executor == before.executor && after.executedAt == before.executedAt
    && after.executionError == before.executionError
  }

  /** An execution takes effect exactly on an approved row in the caller's data scope: it keeps the
      request and its approval, names the executor, and either is executed with one effect or failed
      with none. */
  lemma ExecutionMeaning(q: Queue, id: string, caller: Caller, serviceAccepts: bool, now: nat)
    ensures var after := Step(q, ExecuteCall(id, caller, serviceAccepts, now));
            if id in q.rows && InDataScope(caller, q.rows[id]) && q.rows[id].status == Approved
            then && after.rows.Keys == q.rows.Keys
                 && (forall other :: other in q.rows && other != id ==> after.rows[other] == q.rows[other])
                 && SettledBy(q.rows[id], after.rows[id], caller.userId, now)
                 && (after.rows[id].status == Executed ==>
                      && |after.effects| == |q.effects| + 1 && after.effects[..|q.effects|] == q.effects
                      && Last(after.effects).approvalId == id && Last(after.effects).tool == q.rows[id].tool)
                 && (after.rows[id].status == ExecutionFailed ==> after.effects == q.effects)
            else after == q
  {
    if id in q.rows {
      VisibleMeaning(caller, q.rows[id]);
    }
  }

  ghost predicate SettledBy(before: Approval, after: Approval, userId: string, now: nat) {
    && (after.status == Executed || after.status == ExecutionFailed)
    && after.executor == Some(userId) && SameRequest(before, after)
    && after.approver == before.approver && after.approvedAt == before.approvedAt
    && after.rejectedAt == before.rejectedAt
    && (after.status == Executed ==> after.executedAt == Some(now) && after.executionError == None)
    && (after.status == ExecutionFailed ==> after.executedAt == before.executedAt && after.executionError.Some?)
  }
}
