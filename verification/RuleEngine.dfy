/** The strong-rule engine. */
module RuleEngine {
  import opened Common
  import opened Facts

  datatype Condition =
    | Test(field: string, operator: string, expected: Expected)
    | AllOf(items: seq<Condition>)

  datatype Rule = Rule(ruleId: string, objectType: string, ruleName: string, severity: string, riskTag: string,
                       condition: Condition, riskBonus: real, workOrderType: Option<string>,
                       titleTemplate: Option<string>, priority: string, autoCreate: bool)

  /** What a trigger records of its condition: each test with the fact it saw. */
  datatype Evidence =
    | Seen(field: string, operator: string, expected: Expected, actual: Fact)
    | AllSeen(items: seq<Evidence>)

  datatype RuleTrigger = RuleTrigger(ruleId: string, ruleName: string, objectType: string, severity: string,
                                     riskTag: string, riskBonus: real, workOrderType: Option<string>,
                                     titleTemplate: Option<string>, priority: string, autoCreate: bool,
                                     evidence: Evidence)

  predicate Contains(text: string, part: string) {
    exists i :: 0 <= i <= |text| && part <= text[i..]
  }

  /** `_matches`: unlike the dynamic factors, equality and membership also look at a missing fact. */
  function Matches(actual: Fact, operator: string, expected: Expected): Result<bool, MatchError> {
    if IsOrdering(operator) then if actual == Absent then Ok(false) else Compare(actual, operator, expected)
    else if operator == "==" then Ok(Same(actual, expected))
    else if operator == "!=" then Ok(!Same(actual, expected))
    else if operator == "in" then
      match expected
      case Many(values) => Ok(actual in values)
      case One(value) =>
        if actual.Text? && value.Text? then Ok(Contains(value.s, actual.s)) else Err(TypeMismatch)
    else Err(UnsupportedOperator(operator))
  }

  function ConditionMatches(c: Condition, facts: FactTable): Result<bool, MatchError> {
    match c
    case Test(field, operator, expected) => Matches(Get(facts, field), operator, expected)
    case AllOf(items) => AllMatch(items, facts)
  }

  /** Stops at the first item that fails or raises. */
  function AllMatch(items: seq<Condition>, facts: FactTable): Result<bool, MatchError> {
    if items == [] then Ok(true)
    else
      var first := ConditionMatches(items[0], facts);
      if first == Ok(true) then AllMatch(items[1..], facts) else first
  }

  /** `_evidence_for` */
  function EvidenceFor(c: Condition, facts: FactTable): Evidence {
    match c
    case Test(field, operator, expected) => Seen(field, operator, expected, Get(facts, field))
    case AllOf(items) => AllSeen(seq(|items|, i requires 0 <= i < |items| => EvidenceFor(items[i], facts)))
  }

  function TriggerOf(r: Rule, facts: FactTable): RuleTrigger {
    RuleTrigger(r.ruleId, r.ruleName, r.objectType, r.severity, r.riskTag, r.riskBonus, r.workOrderType,
                r.titleTemplate, r.priority, r.autoCreate, EvidenceFor(r.condition, facts))
  }

  /** The rules of one object type whose condition holds, in rule order. */
  function Fired(rules: seq<Rule>, objectType: string, facts: FactTable): Result<seq<RuleTrigger>, MatchError> {
    if rules == [] then Ok([])
    else
      match Fired(Front(rules), objectType, facts)
      case Err(e) => Err(e)
      case Ok(ts) =>
        if Last(rules).objectType != objectType then Ok(ts)
        else
          match ConditionMatches(Last(rules).condition, facts)
          case Err(e) => Err(e)
          case Ok(hit) => Ok(if hit then ts + [TriggerOf(Last(rules), facts)] else ts)
  }

  class Engine {
    var rules: seq<Rule>

    constructor (rules: seq<Rule>)
      ensures this.rules == rules
    {
      this.rules := rules;
    }

    method Evaluate(objectType: string, facts: FactTable) returns (result: Result<seq<RuleTrigger>, MatchError>)
      ensures result == Fired(rules, objectType, facts)
    {
      var triggered: seq<RuleTrigger> := [];
      for i := 0 to |rules|
        invariant Fired(rules[..i], objectType, facts) == Ok(triggered)
      {
        var rule := rules[i];
        assert Front(rules[..i + 1]) == rules[..i];
        if rule.objectType == objectType {
          match ConditionMatches(rule.condition, facts) {
            case Err(e) =>
              FiredErrorPropagates(rules, i + 1, objectType, facts, e);
              return Err(e);
            case Ok(hit) =>
              if hit {
                triggered := triggered + [TriggerOf(rule, facts)];
              }
          }
        }
      }
      assert rules[..|rules|] == rules;
      return Ok(triggered);
    }
  }

  lemma {:induction false} FiredErrorPropagates(rules: seq<Rule>, n: nat, objectType: string, facts: FactTable,
                                                e: MatchError)
    requires n <= |rules| && Fired(rules[..n], objectType, facts) == Err(e)
    ensures Fired(rules, objectType, facts) == Err(e)
    decreases |rules| - n
  {
    if n == |rules| {
      assert rules[..n] == rules;
    } else {
      assert Front(rules[..n + 1]) == rules[..n];
      FiredErrorPropagates(rules, n + 1, objectType, facts, e);
    }
  }

  function BonusOf(ts: seq<RuleTrigger>): real {
    if ts == [] then 0.0 else BonusOf(Front(ts)) + Last(ts).riskBonus
  }

  /** With distinct rule ids the engine never fires one rule id twice for an object. */
  lemma {:induction false} FiredIdsDistinct(rules: seq<Rule>, objectType: string, facts: FactTable)
    requires forall i, j :: 0 <= i < j < |rules| ==> rules[i].ruleId != rules[j].ruleId
    requires Fired(rules, objectType, facts).Ok?
    ensures var ts := Fired(rules, objectType, facts).value;
            && (forall i, j :: 0 <= i < j < |ts| ==> ts[i].ruleId != ts[j].ruleId)
            && (forall t :: t in ts ==>
                 exists r :: r in rules && t == TriggerOf(r, facts) && r.objectType == objectType)
  {
    if rules != [] {
      FiredIdsDistinct(Front(rules), objectType, facts);
      var before := Fired(Front(rules), objectType, facts).value;
      forall k | 0 <= k < |before| ensures before[k].ruleId != Last(rules).ruleId {
        assert before[k] in before;
        var r :| r in Front(rules) && before[k] == TriggerOf(r, facts);
      }
      assert forall r :: r in Front(rules) ==> r in rules;
      assert Last(rules) in rules;
    }
  }

  function OfType(rules: seq<Rule>, objectType: string): seq<Rule> {
    if rules == [] then []
    else OfType(Front(rules), objectType) + if Last(rules).objectType == objectType then [Last(rules)] else []
  }

  /** Rules for other objects in the same engine make no difference, not even by raising. */
  lemma {:induction false} OtherTypesIgnored(rules: seq<Rule>, objectType: string, facts: FactTable)
    ensures Fired(rules, objectType, facts) == Fired(OfType(rules, objectType), objectType, facts)
  {
    if rules != [] {
      var before, last := OfType(Front(rules), objectType), Last(rules);
      OtherTypesIgnored(Front(rules), objectType, facts);
      if last.objectType == objectType {
        assert Front(before + [last]) == before;
      } else {
        assert OfType(rules, objectType) == before;
      }
    }
  }

  // ----- monotonicity

  /** Every leaf tests a number from below. */
  ghost predicate RisingCondition(c: Condition) {
    match c
    case Test(_, operator, expected) =>
      (operator == ">" || operator == ">=") && expected.One? && expected.value.Number?
    case AllOf(items) => forall i :: 0 <= i < |items| ==> RisingCondition(items[i])
  }

  /** The rules of one object type rise; rules of other types, which the engine skips, may not. */
  ghost predicate RisingRules(rules: seq<Rule>, objectType: string) {
    forall i :: 0 <= i < |rules| && rules[i].objectType == objectType ==>
      RisingCondition(rules[i].condition) && rules[i].riskBonus >= 0.0
  }

  lemma {:induction false} ConditionGrows(c: Condition, facts: FactTable, facts': FactTable)
    requires RisingCondition(c) && Numeric(facts) && Numeric(facts') && Grows(facts, facts')
    ensures ConditionMatches(c, facts).Ok? && ConditionMatches(c, facts').Ok?
    ensures ConditionMatches(c, facts).value ==> ConditionMatches(c, facts').value
  {
    if c.AllOf? {
      AllGrows(c.items, facts, facts');
    }
  }

  lemma {:induction false} AllGrows(items: seq<Condition>, facts: FactTable, facts': FactTable)
    requires forall i :: 0 <= i < |items| ==> RisingCondition(items[i])
    requires Numeric(facts) && Numeric(facts') && Grows(facts, facts')
    ensures AllMatch(items, facts).Ok? && AllMatch(items, facts').Ok?
    ensures AllMatch(items, facts).value ==> AllMatch(items, facts').value
  {
    if items != [] {
      ConditionGrows(items[0], facts, facts');
      AllGrows(items[1..], facts, facts');
    }
  }

  lemma BonusAppend(ts: seq<RuleTrigger>, t: RuleTrigger)
    ensures BonusOf(ts + [t]) == BonusOf(ts) + t.riskBonus
  {
    assert Front(ts + [t]) == ts;
  }

  /** More pressure never lowers the rule bonus. */
  lemma {:induction false} BonusMonotone(rules: seq<Rule>, objectType: string, facts: FactTable, facts': FactTable)
    requires RisingRules(rules, objectType) && Numeric(facts) && Numeric(facts') && Grows(facts, facts')
    ensures Fired(rules, objectType, facts).Ok? && Fired(rules, objectType, facts').Ok?
    ensures 0.0 <= BonusOf(Fired(rules, objectType, facts).value) <= BonusOf(Fired(rules, objectType, facts').value)
  {
    if rules != [] {
      var last := Last(rules);
      assert last == rules[|rules| - 1];
      BonusMonotone(Front(rules), objectType, facts, facts');
      if last.objectType == objectType {
        ConditionGrows(last.condition, facts, facts');
        BonusAppend(Fired(Front(rules), objectType, facts).value, TriggerOf(last, facts));
        BonusAppend(Fired(Front(rules), objectType, facts').value, TriggerOf(last, facts'));
      }
    }
  }

  // ----- the evidence of a trigger

  /** The condition judged again from the recorded evidence alone. */
  function Recheck(e: Evidence): Result<bool, MatchError> {
    match e
    case Seen(_, operator, expected, actual) => Matches(actual, operator, expected)
    case AllSeen(items) => RecheckAll(items)
  }

  function RecheckAll(items: seq<Evidence>): Result<bool, MatchError> {
    if items == [] then Ok(true)
    else
      var first := Recheck(items[0]);
      if first == Ok(true) then RecheckAll(items[1..]) else first
  }

  lemma {:induction false} EvidenceExplains(c: Condition, facts: FactTable)
    ensures Recheck(EvidenceFor(c, facts)) == ConditionMatches(c, facts)
  {
    if c.AllOf? {
      AllEvidenceExplains(c.items, facts);
    }
  }

  lemma {:induction false} AllEvidenceExplains(items: seq<Condition>, facts: FactTable)
    ensures RecheckAll(EvidenceFor(AllOf(items), facts).items) == AllMatch(items, facts)
  {
    if items != [] {
      EvidenceExplains(items[0], facts);
      AllEvidenceExplains(items[1..], facts);
      assert EvidenceFor(AllOf(items), facts).items[1..] == EvidenceFor(AllOf(items[1..]), facts).items;
    }
  }

  /** The evidence stored with a trigger is enough to see that its rule held. */
  lemma {:induction false} TriggersAreExplained(rules: seq<Rule>, objectType: string, facts: FactTable)
    requires Fired(rules, objectType, facts).Ok?
    ensures forall t :: t in Fired(rules, objectType, facts).value ==> Recheck(t.evidence) == Ok(true)
  {
    if rules != [] {
      TriggersAreExplained(Front(rules), objectType, facts);
      EvidenceExplains(Last(rules).condition, facts);
    }
  }
}
