/** The work-order status machine, the role matrix that guards it, and the automatic creation of
    work orders from rule triggers. */
module WorkOrderFlow {
  import opened Common

  datatype Status = PendingConfirm | Dispatched | Processing | WaitingReview | Closed | Rejected | OverdueEscalated
  datatype Action = Confirm | Accept | SubmitResult | ReviewPass | ReviewReject | Timeout | OtherAction(name: string)
  datatype Role = SafetyDirector | SubSafetyOfficer | GcSafetyOfficer | SystemRole | OtherRole(name: string)
  datatype Rule = SameProject | SameSubcontractor | SystemRule

  /** `transition_status`; `None` is the raised error. */
  function Transition(current: Status, action: Action): Option<Status> {
    match (current, action)
    case (PendingConfirm, Confirm) => Some(Dispatched)
    case (Dispatched, Accept) => Some(Processing)
    case (Processing, SubmitResult) => Some(WaitingReview)
    case (WaitingReview, ReviewPass) => Some(Closed)
    case (WaitingReview, ReviewReject) => Some(Processing)
    case (Processing, Timeout) => Some(OverdueEscalated)
    case _ => None
  }

  function MatrixRule(status: Status, action: Action, role: Role): Option<Rule> {
    match (status, action, role)
    case (PendingConfirm, Confirm, SafetyDirector) => Some(SameProject)
    case (Dispatched, Accept, SubSafetyOfficer) => Some(SameSubcontractor)
    case (Processing, SubmitResult, SubSafetyOfficer) => Some(SameSubcontractor)
    case (WaitingReview, ReviewPass, GcSafetyOfficer) => Some(SameProject)
    case (WaitingReview, ReviewReject, GcSafetyOfficer) => Some(SameProject)
    case (Processing, Timeout, SystemRole) => Some(SystemRule)
    case _ => None
  }

  predicate SameSub(user: Option<string>, order: Option<string>) {
    user.Some? && user.value != "" && user == order
  }

  predicate AllowedAction(role: Role, status: Status, action: Action, userSub: Option<string>,
                          orderSub: Option<string>) {
    match MatrixRule(status, action, role)
    case None => false
    case Some(SameSubcontractor) => SameSub(userSub, orderSub)
    case Some(_) => true
  }

  datatype Event = Event(role: Role, userSub: Option<string>, action: Action)

  /** The status after a run that starts at `PendingConfirm`. */
  function After(events: seq<Event>): Status {
    if events == [] then PendingConfirm
    else match Transition(After(Front(events)), Last(events).action) case Some(s) => s case None => After(Front(events))
  }

  /** Every event of the run was authorised in the status it met. */
  predicate Authorised(events: seq<Event>, orderSub: Option<string>) {
    events == [] ||
    (Authorised(Front(events), orderSub)
     && AllowedAction(Last(events).role, After(Front(events)), Last(events).action, Last(events).userSub, orderSub))
  }

  /** How often the action occurs. */
  ghost function Count(events: seq<Event>, action: Action): nat {
    |Positions(|events|, Performs(events, action))|
  }

  function Performs(events: seq<Event>, action: Action): nat -> bool {
    (i: nat) => i < |events| && events[i].action == action
  }

  lemma CountStep(events: seq<Event>, action: Action)
    requires events != []
    ensures Count(events, action) == Count(Front(events), action) + if Last(events).action == action then 1 else 0
  {
    var n := |events| - 1;
    PositionsStep(n, Performs(events, action));
    assert Positions(n, Performs(events, action)) == Positions(n, Performs(Front(events), action));
  }

  /** The matrix authorises only defined transitions, and lets each of them through for exactly
      one role (for the subcontractor's steps: with the order's subcontractor). */
  lemma MatrixMatchesTransitions(status: Status, action: Action, orderSub: Option<string>)
    ensures forall role, sub :: AllowedAction(role, status, action, sub, orderSub) ==> Transition(status, action).Some?
    ensures forall r1, r2, s1, s2 ::
              (AllowedAction(r1, status, action, s1, orderSub) && AllowedAction(r2, status, action, s2, orderSub))
              ==> r1 == r2
    ensures Transition(status, action).Some? && orderSub.Some? && orderSub.value != "" ==>
              exists role :: AllowedAction(role, status, action, orderSub, orderSub)
  {
    if Transition(status, action).Some? && orderSub.Some? && orderSub.value != "" {
      var role := match action case Confirm => SafetyDirector case Accept => SubSafetyOfficer
                               case SubmitResult => SubSafetyOfficer case Timeout => SystemRole
                               case _ => GcSafetyOfficer;
      assert AllowedAction(role, status, action, orderSub, orderSub);
    }
  }

  /** In every authorised run each step was defined, `Rejected` is never reached, the two end
      statuses admit no further event, and submissions exceed rejections by one exactly while the
      work is under review or closed. */
  lemma {:induction false} RunInvariant(events: seq<Event>, orderSub: Option<string>)
    requires Authorised(events, orderSub)
    ensures events != [] ==> Transition(After(Front(events)), Last(events).action) == Some(After(events))
    ensures After(events) != Rejected
    ensures After(events) == Closed || After(events) == OverdueEscalated ==>
              forall e :: !Authorised(events + [e], orderSub)
    ensures Count(events, SubmitResult) as int - Count(events, ReviewReject)
         == if After(events) == WaitingReview || After(events) == Closed then 1 else 0
  {
    if events != [] {
      RunInvariant(Front(events), orderSub);
      CountStep(events, SubmitResult);
      CountStep(events, ReviewReject);
    }
    forall e | After(events) == Closed || After(events) == OverdueEscalated
      ensures !Authorised(events + [e], orderSub)
    {
      assert Front(events + [e]) == events;
    }
  }

  /** The event at position `i` of a run that is still between acceptance and review. */
  predicate OpenEventAt(e: Event, i: nat, orderSub: Option<string>) {
    if i == 0 then e.action == Confirm && e.role == SafetyDirector
    else if i == 1 then e.action == Accept && e.role == SubSafetyOfficer && SameSub(e.userSub, orderSub)
    else if i % 2 == 0 then e.action == SubmitResult && e.role == SubSafetyOfficer && SameSub(e.userSub, orderSub)
    else e.action == ReviewReject && e.role == GcSafetyOfficer
  }

  ghost predicate OpenShape(events: seq<Event>, orderSub: Option<string>) {
    forall i :: 0 <= i < |events| ==> OpenEventAt(events[i], i, orderSub)
  }

  function OpenStatus(n: nat): Status {
    if n == 0 then PendingConfirm else if n == 1 then Dispatched else if n % 2 == 0 then Processing else WaitingReview
  }

  lemma OpenShapeSnoc(events: seq<Event>, orderSub: Option<string>)
    requires events != []
    ensures OpenShape(events, orderSub)
       <==> OpenShape(Front(events), orderSub) && OpenEventAt(Last(events), |events| - 1, orderSub)
  {
    var before := Front(events);
    if OpenShape(events, orderSub) {
      forall i | 0 <= i < |before| ensures OpenEventAt(before[i], i, orderSub) {
        assert OpenEventAt(events[i], i, orderSub);
      }
    }
  }

  lemma OpenStep(e: Event, n: nat, orderSub: Option<string>)
    ensures OpenEventAt(e, n, orderSub) <==>
              && AllowedAction(e.role, OpenStatus(n), e.action, e.userSub, orderSub)
              && Transition(OpenStatus(n), e.action) == Some(OpenStatus(n + 1))
  {
  }

  lemma {:induction false} AlternatingIsAuthorised(events: seq<Event>, orderSub: Option<string>)
    requires OpenShape(events, orderSub)
    ensures Authorised(events, orderSub) && After(events) == OpenStatus(|events|)
  {
    if events != [] {
      OpenShapeSnoc(events, orderSub);
      AlternatingIsAuthorised(Front(events), orderSub);
      OpenStep(Last(events), |events| - 1, orderSub);
    }
  }

  lemma {:induction false} AuthorisedIsAlternating(events: seq<Event>, orderSub: Option<string>)
    requires Authorised(events, orderSub) && After(events) != Closed && After(events) != OverdueEscalated
    ensures OpenShape(events, orderSub) && After(events) == OpenStatus(|events|)
  {
    if events != [] {
      OpenShapeSnoc(events, orderSub);
      AuthorisedIsAlternating(Front(events), orderSub);
      OpenStep(Last(events), |events| - 1, orderSub);
    }
  }

  /** Up to review, the authorised runs are exactly the alternating ones. */
  lemma OpenRuns(events: seq<Event>, orderSub: Option<string>)
    ensures Authorised(events, orderSub) && After(events) != Closed && After(events) != OverdueEscalated
       <==> OpenShape(events, orderSub)
    ensures OpenShape(events, orderSub) ==> After(events) == OpenStatus(|events|)
  {
    if OpenShape(events, orderSub) {
      AlternatingIsAuthorised(events, orderSub);
    } else if Authorised(events, orderSub) && After(events) != Closed && After(events) != OverdueEscalated {
      AuthorisedIsAlternating(events, orderSub);
    }
  }

  predicate Passes(e: Event) {
    e.action == ReviewPass && e.role == GcSafetyOfficer
  }

  lemma ClosingStep(e: Event, n: nat, orderSub: Option<string>)
    ensures Passes(e) && n >= 3 && n % 2 == 1 <==>
              && AllowedAction(e.role, OpenStatus(n), e.action, e.userSub, orderSub)
              && Transition(OpenStatus(n), e.action) == Some(Closed)
  {
  }

  /** An authorised run is closed if and only if it is a director's confirmation, an acceptance by
      the order's subcontractor, rounds of submission and rejection, a last submission by that
      subcontractor and a pass by the general contractor. */
  lemma ClosedRuns(events: seq<Event>, orderSub: Option<string>)
    ensures Authorised(events, orderSub) && After(events) == Closed
       <==> && |events| >= 4 && |events| % 2 == 0
            && OpenShape(Front(events), orderSub) && Passes(Last(events))
  {
    if events != [] {
      OpenRuns(Front(events), orderSub);
      ClosingStep(Last(events), |events| - 1, orderSub);
    }
  }

  predicate TimesOut(e: Event) {
    e.action == Timeout && e.role == SystemRole
  }

  lemma EscalatingStep(e: Event, n: nat, orderSub: Option<string>)
    ensures TimesOut(e) && n >= 2 && n % 2 == 0 <==>
              && AllowedAction(e.role, OpenStatus(n), e.action, e.userSub, orderSub)
              && Transition(OpenStatus(n), e.action) == Some(OverdueEscalated)
  {
  }

  /** An authorised run is escalated if and only if the system's timeout ends it while the
      subcontractor is at work, at first or after a rejection. */
  lemma EscalatedRuns(events: seq<Event>, orderSub: Option<string>)
    ensures Authorised(events, orderSub) && After(events) == OverdueEscalated
       <==> && |events| >= 3 && |events| % 2 == 1
            && OpenShape(Front(events), orderSub) && TimesOut(Last(events))
  {
    if events != [] {
      OpenRuns(Front(events), orderSub);
      EscalatingStep(Last(events), |events| - 1, orderSub);
    }
  }
}

module WorkOrderTriggers {
  import opened Common
  import opened WorkOrderFlow
  import RuleEngine

  datatype Key = Key(ruleId: string, sourceType: string, sourceId: string, projectId: Option<string>)

  /** `auto` marks the orders created from rule triggers; a manual order may carry a key as well. */
  datatype Order = Order(key: Option<Key>, status: Status, auto: bool)

  /** One recalculated object with the rules it fired. */
  datatype Subject = Subject(sourceType: string, sourceId: string, projectId: Option<string>,
                             triggers: seq<RuleEngine.RuleTrigger>)

  const OPEN_STATUSES := {PendingConfirm, Dispatched, Processing, WaitingReview, Rejected, OverdueEscalated}

  predicate BlocksKey(o: Order, k: Key) {
    o.key == Some(k) && o.status in OPEN_STATUSES
  }

  predicate HasOpenDuplicate(orders: seq<Order>, k: Key) {
    exists i :: 0 <= i < |orders| && BlocksKey(orders[i], k)
  }

  function KeyOf(s: Subject, t: RuleEngine.RuleTrigger): Key {
    Key(t.ruleId, s.sourceType, s.sourceId, s.projectId)
  }

  /** The keys a subject asks orders for. */
  function RequestsOf(s: Subject, triggers: seq<RuleEngine.RuleTrigger>): seq<Key> {
    if triggers == [] then []
    else RequestsOf(s, Front(triggers)) + if Last(triggers).autoCreate then [KeyOf(s, Last(triggers))] else []
  }

  function Requests(subjects: seq<Subject>): seq<Key> {
    if subjects == [] then [] else Requests(Front(subjects)) + RequestsOf(Last(subjects), Last(subjects).triggers)
  }

  /** The rows added for a list of requests, given what the duplicate query can see. */
  function Created(visible: seq<Order>, keys: seq<Key>): seq<Order> {
    if keys == [] then []
    else Created(visible, Front(keys))
         + if HasOpenDuplicate(visible, Last(keys)) then [] else [Order(Some(Last(keys)), PendingConfirm, true)]
  }

  datatype Stats = Stats(created: nat, skipped: nat)

  /** The database session: with autoflush off, a query sees `flushed` rows only. */
  class Session {
    var flushed: seq<Order>
    var pending: seq<Order>

    constructor ()
      ensures flushed == [] && pending == []
    {
      flushed, pending := [], [];
    }

    /** `create_work_orders_for_rule_triggers` for one object. */
    method CreateForTriggers(s: Subject) returns (stats: Stats)
      modifies this`pending
      ensures pending == old(pending) + Created(flushed, RequestsOf(s, s.triggers))
      ensures stats.created == |Created(flushed, RequestsOf(s, s.triggers))|
      ensures stats.created + stats.skipped == |RequestsOf(s, s.triggers)|
    {
      stats := Stats(0, 0);
      for i := 0 to |s.triggers|
        invariant pending == old(pending) + Created(flushed, RequestsOf(s, s.triggers[..i]))
        invariant stats.created == |Created(flushed, RequestsOf(s, s.triggers[..i]))|
        invariant stats.created + stats.skipped == |RequestsOf(s, s.triggers[..i])|
      {
        var t := s.triggers[i];
        var asked := RequestsOf(s, s.triggers[..i]);
        assert Front(s.triggers[..i + 1]) == s.triggers[..i];
        assert RequestsOf(s, s.triggers[..i + 1]) == if t.autoCreate then asked + [KeyOf(s, t)] else asked;
        if t.autoCreate {
          CreatedAppend(flushed, asked, KeyOf(s, t));
          if HasOpenDuplicate(flushed, KeyOf(s, t)) {
            assert Created(flushed, asked + [KeyOf(s, t)]) == Created(flushed, asked);
            stats := stats.(skipped := stats.skipped + 1);
          } else {
            var order := Order(Some(KeyOf(s, t)), PendingConfirm, true);
            assert old(pending) + Created(flushed, asked) + [order]
                == old(pending) + (Created(flushed, asked) + [order]);
            pending := pending + [order];
            stats := stats.(created := stats.created + 1);
          }
        }
      }
      assert s.triggers[..|s.triggers|] == s.triggers;
    }

    /** A `recalculate_*_profiles` call: all objects, then one commit. */
    method Recalculate(subjects: seq<Subject>) returns (stats: Stats)
      requires pending == []
      modifies this
      ensures pending == []
      ensures flushed == old(flushed) + Created(old(flushed), Requests(subjects))
      ensures stats.created == |flushed| - |old(flushed)|
      ensures stats.created + stats.skipped == |Requests(subjects)|
    {
      stats := Stats(0, 0);
      for i := 0 to |subjects|
        invariant flushed == old(flushed)
        invariant pending == Created(flushed, Requests(subjects[..i]))
        invariant stats.created == |pending|
        invariant stats.created + stats.skipped == |Requests(subjects[..i])|
      {
        assert Front(subjects[..i + 1]) == subjects[..i];
        CreatedConcat(flushed, Requests(subjects[..i]), RequestsOf(subjects[i], subjects[i].triggers));
        var one := CreateForTriggers(subjects[i]);
        stats := Stats(stats.created + one.created, stats.skipped + one.skipped);
      }
      assert subjects[..|subjects|] == subjects;
      flushed, pending := flushed + pending, [];
    }

    /** An authorised status change, or nothing when the transition is refused. */
    method Act(i: nat, action: Action)
      requires i < |flushed|
      modifies this`flushed
      ensures flushed == Acted(old(flushed), i, action)
    {
      var next := Transition(flushed[i].status, action);
      if next.Some? {
        flushed := flushed[i := flushed[i].(status := next.value)];
      }
    }
  }

  lemma CreatedAppend(visible: seq<Order>, keys: seq<Key>, k: Key)
    ensures Created(visible, keys + [k])
         == Created(visible, keys) + if HasOpenDuplicate(visible, k) then [] else [Order(Some(k), PendingConfirm, true)]
  {
    assert Front(keys + [k]) == keys;
  }

  lemma {:induction false} CreatedConcat(visible: seq<Order>, a: seq<Key>, b: seq<Key>)
    ensures Created(visible, a + b) == Created(visible, a) + Created(visible, b)
  {
    if b == [] {
      assert a + b == a;
    } else {
      assert a + b == (a + Front(b)) + [Last(b)];
      CreatedAppend(visible, a + Front(b), Last(b));
      CreatedConcat(visible, a, Front(b));
    }
  }

  function Acted(orders: seq<Order>, i: nat, action: Action): seq<Order> {
    if i < |orders| && Transition(orders[i].status, action).Some?
    then orders[i := orders[i].(status := Transition(orders[i].status, action).value)]
    else orders
  }

  // ----- at most one open automatic order for each key

  ghost predicate OneOpenPerKey(orders: seq<Order>) {
    forall i, j :: 0 <= i < j < |orders| ==> !Clash(orders[i], orders[j])
  }

  predicate Clash(a: Order, b: Order) {
    a.auto && b.auto && a.key == b.key && a.status in OPEN_STATUSES && b.status in OPEN_STATUSES
  }

  lemma {:induction false} CreatedMeaning(visible: seq<Order>, keys: seq<Key>)
    ensures forall o :: o in Created(visible, keys) ==>
              && o.auto && o.status == PendingConfirm && o.key.Some? && o.key.value in keys
              && !HasOpenDuplicate(visible, o.key.value)
    ensures forall k :: k in keys && !HasOpenDuplicate(visible, k) ==>
              Order(Some(k), PendingConfirm, true) in Created(visible, keys)
  {
    if keys != [] {
      var before, last := Front(keys), Last(keys);
      assert keys == before + [last];
      CreatedMeaning(visible, before);
    }
  }

  /** Two requests for one key are harmless exactly when the key is already taken. */
  ghost predicate RepeatsAreTaken(orders: seq<Order>, keys: seq<Key>) {
    forall i, j :: 0 <= i < j < |keys| && keys[i] == keys[j] ==> HasOpenDuplicate(orders, keys[i])
  }

  lemma {:induction false} CreatedDistinct(visible: seq<Order>, keys: seq<Key>)
    ensures OneOpenPerKey(Created(visible, keys)) <==> RepeatsAreTaken(visible, keys)
  {
    if keys != [] {
      var before, last := Front(keys), Last(keys);
      assert keys == before + [last];
      CreatedDistinct(visible, before);
      CreatedMeaning(visible, before);
      var old', new' := Created(visible, before), Created(visible, keys);
      if HasOpenDuplicate(visible, last) {
        assert new' == old';
        RepeatsSnoc(visible, before, last);
      } else {
        var o := Order(Some(last), PendingConfirm, true);
        assert new' == old' + [o];
        RepeatsSnoc(visible, before, last);
        if last in before {
          assert o in old';
          var i :| 0 <= i < |old'| && old'[i] == o;
          assert Clash(new'[i], new'[|old'|]);
        } else {
          forall i | 0 <= i < |old'| ensures !Clash(old'[i], o) {
            assert old'[i] in old';
          }
          OneOpenSnoc(old', o);
        }
      }
    }
  }

  lemma RepeatsSnoc(orders: seq<Order>, keys: seq<Key>, k: Key)
    ensures RepeatsAreTaken(orders, keys + [k])
       <==> RepeatsAreTaken(orders, keys) && (k in keys ==> HasOpenDuplicate(orders, k))
  {
    var longer := keys + [k];
    if RepeatsAreTaken(orders, longer) {
      forall i, j | 0 <= i < j < |keys| && keys[i] == keys[j] ensures HasOpenDuplicate(orders, keys[i]) {
        assert longer[i] == longer[j];
      }
      if k in keys {
        var i :| 0 <= i < |keys| && keys[i] == k;
        assert longer[i] == longer[|keys|];
      }
    }
  }

  lemma OneOpenSnoc(orders: seq<Order>, o: Order)
    requires forall i :: 0 <= i < |orders| ==> !Clash(orders[i], o)
    ensures OneOpenPerKey(orders + [o]) <==> OneOpenPerKey(orders)
  {
    var longer := orders + [o];
    if OneOpenPerKey(longer) {
      forall i, j | 0 <= i < j < |orders| ensures !Clash(orders[i], orders[j]) {
        assert !Clash(longer[i], longer[j]);
      }
    }
  }

  /** A recalculation keeps the invariant if and only if every key it requests twice was already
      taken: rows added in the loop are invisible to its own duplicate query. */
  lemma RecalculationKeepsInvariantIff(orders: seq<Order>, keys: seq<Key>)
    requires OneOpenPerKey(orders)
    ensures OneOpenPerKey(orders + Created(orders, keys)) <==> RepeatsAreTaken(orders, keys)
  {
    var created := Created(orders, keys);
    var all := orders + created;
    CreatedMeaning(orders, keys);
    CreatedDistinct(orders, keys);
    forall i, j | 0 <= i < |orders| && 0 <= j < |created| ensures !Clash(orders[i], created[j]) {
      assert created[j] in created;
      assert !BlocksKey(orders[i], created[j].key.value);
    }
    if OneOpenPerKey(all) {
      forall i, j | 0 <= i < j < |created| ensures !Clash(created[i], created[j]) {
        assert !Clash(all[|orders| + i], all[|orders| + j]);
      }
    }
    if OneOpenPerKey(created) {
      forall i, j | 0 <= i < j < |all| ensures !Clash(all[i], all[j]) {
        if i >= |orders| {
          assert !Clash(created[i - |orders|], created[j - |orders|]);
        }
      }
    }
  }

  function ExampleTrigger(): RuleEngine.RuleTrigger {
    RuleEngine.RuleTrigger("SR-PROJ-001", "rule", "project", "high", "tag", 10.0, None, None, "normal", true,
                           RuleEngine.AllSeen([]))
  }

  /** Two triggers of one rule for one object make two open orders. */
  lemma RepeatedRuleIdExample()
    ensures var t := ExampleTrigger();
            var keys := Requests([Subject("project", "P1", Some("P1"), [t, t])]);
            |Created([], keys)| == 2 && !OneOpenPerKey(Created([], keys))
  {
    var t := ExampleTrigger();
    var s := Subject("project", "P1", Some("P1"), [t, t]);
    var k := KeyOf(s, t);
    assert Front([t, t]) == [t] && Front([t]) == [];
    assert RequestsOf(s, [t]) == [k] && RequestsOf(s, [t, t]) == [k] + [k];
    assert Front([s]) == [] && Requests([s]) == [] + ([k] + [k]);
    CreatedAppend([], [k], k);
    CreatedAppend([], [], k);
    assert [] + [k] == [k];
    var o := Order(Some(k), PendingConfirm, true);
    assert Created([], [k] + [k]) == [o, o];
    assert Clash([o, o][0], [o, o][1]);
  }

  // ----- distinct rule ids and distinct objects ask for each key once

  ghost predicate DistinctObjects(subjects: seq<Subject>) {
    forall i, j :: 0 <= i < j < |subjects| ==>
      (subjects[i].sourceType, subjects[i].sourceId, subjects[i].projectId)
      != (subjects[j].sourceType, subjects[j].sourceId, subjects[j].projectId)
  }

  /** Objects of one call differ in identity, and the engine fires each rule id at most once. */
  ghost predicate DistinctRequests(subjects: seq<Subject>) {
    DistinctObjects(subjects) && forall s :: s in subjects ==> DistinctRuleIds(s.triggers)
  }

  ghost predicate DistinctRuleIds(triggers: seq<RuleEngine.RuleTrigger>) {
    forall i, j :: 0 <= i < j < |triggers| ==> triggers[i].ruleId != triggers[j].ruleId
  }

  lemma {:induction false} RequestOrigin(s: Subject, triggers: seq<RuleEngine.RuleTrigger>, k: Key) returns (i: nat)
    requires k in RequestsOf(s, triggers)
    ensures i < |triggers| && k == KeyOf(s, triggers[i])
  {
    if triggers != [] {
      if Last(triggers).autoCreate && k == KeyOf(s, Last(triggers)) {
        i := |triggers| - 1;
      } else {
        i := RequestOrigin(s, Front(triggers), k);
      }
    }
  }

  lemma {:induction false} SubjectRequestsDistinct(s: Subject, triggers: seq<RuleEngine.RuleTrigger>)
    requires DistinctRuleIds(triggers)
    ensures Distinct(RequestsOf(s, triggers))
  {
    if triggers != [] {
      var before, last := Front(triggers), Last(triggers);
      SubjectRequestsDistinct(s, before);
      var asked := RequestsOf(s, before);
      forall n | 0 <= n < |asked| ensures asked[n] != KeyOf(s, last) {
        var i := RequestOrigin(s, before, asked[n]);
        assert triggers[i].ruleId != triggers[|before|].ruleId;
      }
      assert RequestsOf(s, triggers) == asked + if last.autoCreate then [KeyOf(s, last)] else [];
    }
  }

  lemma {:induction false} RequestOwner(subjects: seq<Subject>, k: Key) returns (i: nat)
    requires k in Requests(subjects)
    ensures i < |subjects|
    ensures (k.sourceType, k.sourceId, k.projectId)
         == (subjects[i].sourceType, subjects[i].sourceId, subjects[i].projectId)
  {
    var last := Last(subjects);
    if k in RequestsOf(last, last.triggers) {
      var _ := RequestOrigin(last, last.triggers, k);
      i := |subjects| - 1;
    } else {
      i := RequestOwner(Front(subjects), k);
    }
  }

  lemma {:induction false} DistinctRequestsDistinctKeys(subjects: seq<Subject>)
    requires DistinctRequests(subjects)
    ensures Distinct(Requests(subjects))
  {
    if subjects != [] {
      var before, last := Front(subjects), Last(subjects);
      assert subjects == before + [last];
      DistinctRequestsDistinctKeys(before);
      assert last in subjects;
      SubjectRequestsDistinct(last, last.triggers);
      var a, b := Requests(before), RequestsOf(last, last.triggers);
      forall i, j | 0 <= i < |a| && 0 <= j < |b| ensures a[i] != b[j] {
        var owner := RequestOwner(before, a[i]);
        var _ := RequestOrigin(last, last.triggers, b[j]);
        assert subjects[owner] == before[owner];
      }
    }
  }

  // ----- whole runs

  datatype Event =
    | RecalculateAll(subjects: seq<Subject>)
    | Transitioned(index: nat, action: Action)
    | CreatedByHand(order: Order)

  function Step(orders: seq<Order>, e: Event): seq<Order> {
    match e
    case RecalculateAll(subjects) => orders + Created(orders, Requests(subjects))
    case Transitioned(i, action) => Acted(orders, i, action)
    case CreatedByHand(o) => orders + [o.(auto := false)]
  }

  function Orders(run: seq<Event>): seq<Order> {
    if run == [] then [] else Step(Orders(Front(run)), Last(run))
  }

  /** A closed order never reopens, so a status change creates no clash. */
  lemma ActKeepsInvariant(orders: seq<Order>, i: nat, action: Action)
    requires OneOpenPerKey(orders)
    ensures OneOpenPerKey(Acted(orders, i, action))
  {
    var after := Acted(orders, i, action);
    forall a, b | 0 <= a < b < |after| ensures !Clash(after[a], after[b]) {
      assert !Clash(orders[a], orders[b]);
    }
  }

  /** In every run of recalculations with distinct requests, status changes and manual orders,
      there is at most one open automatic order per rule, source and project. */
  lemma {:induction false} RunKeepsOneOpenPerKey(run: seq<Event>)
    requires forall e :: e in run && e.RecalculateAll? ==> DistinctRequests(e.subjects)
    ensures OneOpenPerKey(Orders(run))
  {
    if run != [] {
      var before, last := Front(run), Last(run);
      assert run == before + [last];
      RunKeepsOneOpenPerKey(before);
      var orders := Orders(before);
      match last {
        case RecalculateAll(subjects) =>
          DistinctRequestsDistinctKeys(subjects);
          RecalculationKeepsInvariantIff(orders, Requests(subjects));
        case Transitioned(i, action) =>
          ActKeepsInvariant(orders, i, action);
        case CreatedByHand(o) =>
          OneOpenSnoc(orders, o.(auto := false));
      }
    }
  }

  /** Repeating a recalculation at once creates nothing, whatever the requests. */
  lemma SecondRecalculationCreatesNothing(orders: seq<Order>, subjects: seq<Subject>)
    ensures var keys := Requests(subjects);
            Created(orders + Created(orders, keys), keys) == []
  {
    var keys := Requests(subjects);
    var after := orders + Created(orders, keys);
    CreatedMeaning(orders, keys);
    forall k | k in keys ensures HasOpenDuplicate(after, k) {
      if HasOpenDuplicate(orders, k) {
        var i :| 0 <= i < |orders| && BlocksKey(orders[i], k);
        assert BlocksKey(after[i], k);
      } else {
        var o := Order(Some(k), PendingConfirm, true);
        assert o in Created(orders, keys);
        var i :| 0 <= i < |Created(orders, keys)| && Created(orders, keys)[i] == o;
        assert BlocksKey(after[|orders| + i], k);
      }
    }
    CreatedMeaning(after, keys);
    if Created(after, keys) != [] {
      assert Created(after, keys)[0] in Created(after, keys);
      assert false;
    }
  }

  /** The subject carries what the engine fired for it, on whatever facts it had. */
  ghost predicate EngineFired(rules: seq<RuleEngine.Rule>, s: Subject) {
    exists facts :: RuleEngine.Fired(rules, s.sourceType, facts) == Ok(s.triggers)
  }

  ghost predicate DistinctRules(rules: seq<RuleEngine.Rule>) {
    forall i, j :: 0 <= i < j < |rules| ==> rules[i].ruleId != rules[j].ruleId
  }

  /** With distinct rule ids a recalculation of distinct objects asks for no key twice. */
  lemma EngineRequestsDistinct(rules: seq<RuleEngine.Rule>, subjects: seq<Subject>)
    requires DistinctRules(rules) && DistinctObjects(subjects)
    requires forall s :: s in subjects ==> EngineFired(rules, s)
    ensures DistinctRequests(subjects)
  {
    forall s | s in subjects ensures DistinctRuleIds(s.triggers) {
      var facts :| RuleEngine.Fired(rules, s.sourceType, facts) == Ok(s.triggers);
      RuleEngine.FiredIdsDistinct(rules, s.sourceType, facts);
    }
  }

  /** With distinct rule ids, every run of recalculations through the engine, status changes and
      manual orders keeps one open automatic order per rule, source and project. */
  lemma DistinctRuleIdsKeepOneOpen(rules: seq<RuleEngine.Rule>, run: seq<Event>)
    requires DistinctRules(rules)
    requires forall e :: e in run && e.RecalculateAll? ==>
               DistinctObjects(e.subjects) && forall s :: s in e.subjects ==> EngineFired(rules, s)
    ensures OneOpenPerKey(Orders(run))
  {
    forall e | e in run && e.RecalculateAll? ensures DistinctRequests(e.subjects) {
      EngineRequestsDistinct(rules, e.subjects);
    }
    RunKeepsOneOpenPerKey(run);
  }

  // ----- which orders a recalculation creates

  /** The key says which rule asked, for which object. */
  ghost predicate AsksFor(s: Subject, t: RuleEngine.RuleTrigger, k: Key) {
    && k.ruleId == t.ruleId
    && k.sourceType == s.sourceType && k.sourceId == s.sourceId && k.projectId == s.projectId
  }

  /** One request for each trigger that creates automatically, in order, and for no other. */
  ghost predicate RequestsPicked(s: Subject, triggers: seq<RuleEngine.RuleTrigger>, picks: seq<nat>, keys: seq<Key>) {
    && Ascending(picks, |triggers|)
    && (forall i :: 0 <= i < |triggers| ==> (i in picks <==> triggers[i].autoCreate))
    && |keys| == |picks| && forall k :: 0 <= k < |keys| ==> AsksFor(s, triggers[picks[k]], keys[k])
  }

  lemma RequestStep(s: Subject, triggers: seq<RuleEngine.RuleTrigger>, picks: seq<nat>, keys: seq<Key>, key: Key)
    requires triggers != [] && RequestsPicked(s, Front(triggers), picks, keys) && AsksFor(s, Last(triggers), key)
    ensures Last(triggers).autoCreate ==>
              RequestsPicked(s, triggers, picks + [|triggers| - 1], keys + [key])
    ensures !Last(triggers).autoCreate ==> RequestsPicked(s, triggers, picks, keys)
  {
    AppendPick(picks, |triggers| - 1);
    var picked, longer := picks + [|triggers| - 1], keys + [key];
    forall i | 0 <= i < |triggers| - 1 ensures i in picks <==> triggers[i].autoCreate {
      assert Front(triggers)[i] == triggers[i];
    }
    forall k | 0 <= k < |longer| ensures AsksFor(s, triggers[picked[k]], longer[k]) {
      if k < |keys| {
        assert Front(triggers)[picks[k]] == triggers[picks[k]];
      }
    }
  }

  lemma {:induction false} RequestsMeaning(s: Subject, triggers: seq<RuleEngine.RuleTrigger>)
    returns (picks: seq<nat>)
    ensures RequestsPicked(s, triggers, picks, RequestsOf(s, triggers))
  {
    picks := [];
    if triggers != [] {
      picks := RequestsMeaning(s, Front(triggers));
      RequestStep(s, triggers, picks, RequestsOf(s, Front(triggers)), KeyOf(s, Last(triggers)));
      if Last(triggers).autoCreate {
        picks := picks + [|triggers| - 1];
      }
    }
  }

  /** An order of the key, automatic or not, that is not closed yet. */
  ghost predicate StillOpen(visible: seq<Order>, k: Key) {
    exists i :: 0 <= i < |visible| && visible[i].key == Some(k) && visible[i].status != Closed
  }

  lemma OpenDuplicateMeaning(visible: seq<Order>, k: Key)
    ensures HasOpenDuplicate(visible, k) <==> StillOpen(visible, k)
  {
    if i :| 0 <= i < |visible| && visible[i].key == Some(k) && visible[i].status != Closed {
      assert BlocksKey(visible[i], k);
    }
  }

  /** The requests whose key has no open order get one, in order: a new automatic order that waits for
      confirmation. The others get none. */
  ghost predicate OrdersPicked(visible: seq<Order>, keys: seq<Key>, picks: seq<nat>, orders: seq<Order>) {
    && Ascending(picks, |keys|)
    && (forall i :: 0 <= i < |keys| ==> (i in picks <==> !StillOpen(visible, keys[i])))
    && |orders| == |picks|
    && forall k :: 0 <= k < |orders| ==>
         orders[k].key == Some(keys[picks[k]]) && orders[k].status == PendingConfirm && orders[k].auto
  }

  lemma OrderStep(visible: seq<Order>, keys: seq<Key>, picks: seq<nat>, orders: seq<Order>)
    requires keys != [] && OrdersPicked(visible, Front(keys), picks, orders)
    ensures var order := Order(Some(Last(keys)), PendingConfirm, true);
            !StillOpen(visible, Last(keys)) ==>
              OrdersPicked(visible, keys, picks + [|keys| - 1], orders + [order])
    ensures StillOpen(visible, Last(keys)) ==> OrdersPicked(visible, keys, picks, orders)
  {
    AppendPick(picks, |keys| - 1);
    var picked, longer := picks + [|keys| - 1], orders + [Order(Some(Last(keys)), PendingConfirm, true)];
    forall i | 0 <= i < |keys| - 1 ensures i in picks <==> !StillOpen(visible, keys[i]) {
      assert Front(keys)[i] == keys[i];
    }
    forall k | 0 <= k < |longer|
      ensures longer[k].key == Some(keys[picked[k]]) && longer[k].status == PendingConfirm && longer[k].auto
    {
      if k < |orders| {
        assert Front(keys)[picks[k]] == keys[picks[k]];
      }
    }
  }

  lemma {:induction false} OrdersMeaning(visible: seq<Order>, keys: seq<Key>) returns (picks: seq<nat>)
    ensures OrdersPicked(visible, keys, picks, Created(visible, keys))
  {
    picks := [];
    if keys != [] {
      picks := OrdersMeaning(visible, Front(keys));
      OrderStep(visible, keys, picks, Created(visible, Front(keys)));
      OpenDuplicateMeaning(visible, Last(keys));
      if !StillOpen(visible, Last(keys)) {
        picks := picks + [|keys| - 1];
      }
    }
  }

  ghost predicate AskedBy(s: Subject, keys: seq<Key>) {
    exists picks :: RequestsPicked(s, s.triggers, picks, keys)
  }

  /** The requests of a recalculation are those of its objects, one object after the other. */
  lemma {:induction false} AllRequestsMeaning(subjects: seq<Subject>) returns (parts: seq<seq<Key>>)
    ensures Requests(subjects) == Flat(parts)
    ensures |parts| == |subjects| && forall i :: 0 <= i < |subjects| ==> AskedBy(subjects[i], parts[i])
  {
    parts := [];
    if subjects != [] {
      var before := AllRequestsMeaning(Front(subjects));
      var last := Last(subjects);
      var picks := RequestsMeaning(last, last.triggers);
      parts := before + [RequestsOf(last, last.triggers)];
      assert Front(parts) == before;
      forall i | 0 <= i < |subjects| ensures AskedBy(subjects[i], parts[i]) {
        assert i < |subjects| - 1 ==> Front(subjects)[i] == subjects[i];
      }
    }
  }
}
