/** When a rule fires and when a dynamic factor triggers, in terms of the order of numbers and texts,
    equality and membership. */
module ConditionMeaning {
  import opened Common
  import opened Facts
  import opened Rounding
  import opened Sums
  import R = RuleEngine
  import D = DynamicFactors

  // ----- the order of texts

  /** The texts agree up to position `n`, where `a` ends or has the smaller character. */
  ghost predicate SmallerAt(a: string, b: string, n: nat) {
    n <= |a| && n < |b| && (forall k :: 0 <= k < n ==> a[k] == b[k]) && (n == |a| || a[n] < b[n])
  }

  ghost predicate Earlier(a: string, b: string) {
    exists n: nat :: SmallerAt(a, b, n)
  }

  lemma {:induction false} LexLessMeaning(a: string, b: string)
    ensures LexLess(a, b) <==> Earlier(a, b)
  {
    if b == [] || a == [] {
      assert b != [] ==> SmallerAt(a, b, 0);
    } else {
      LexLessMeaning(a[1..], b[1..]);
      if a[0] < b[0] {
        assert SmallerAt(a, b, 0);
      } else if a[0] == b[0] && LexLess(a[1..], b[1..]) {
        var n: nat :| SmallerAt(a[1..], b[1..], n);
        LongerPrefix(a, b, n);
      }
      if n: nat :| SmallerAt(a, b, n) {
        ShorterPrefix(a, b, n);
      }
    }
  }

  lemma LongerPrefix(a: string, b: string, n: nat)
    requires a != [] && b != [] && a[0] == b[0] && SmallerAt(a[1..], b[1..], n)
    ensures SmallerAt(a, b, n + 1)
  {
    forall k | 0 <= k < n + 1 ensures a[k] == b[k] {
      if k > 0 {
        assert a[1..][k - 1] == b[1..][k - 1];
      }
    }
  }

  lemma ShorterPrefix(a: string, b: string, n: nat)
    requires a != [] && b != [] && SmallerAt(a, b, n)
    ensures a[0] < b[0] || (a[0] == b[0] && n > 0 && SmallerAt(a[1..], b[1..], n - 1))
  {
  }

  /** Texts are totally ordered: exactly one of earlier, equal and later holds. */
  lemma {:induction false} EarlierIsTotal(a: string, b: string)
    ensures Earlier(a, b) || a == b || Earlier(b, a)
    ensures !(Earlier(a, b) && Earlier(b, a)) && !Earlier(a, a)
  {
    LexLessMeaning(a, b);
    LexLessMeaning(b, a);
    LexLessMeaning(a, a);
    LexTotal(a, b);
    LexTotal(a, a);
  }

  lemma {:induction false} LexTotal(a: string, b: string)
    ensures LexLess(a, b) || a == b || LexLess(b, a)
    ensures !(LexLess(a, b) && LexLess(b, a))
  {
    if a != [] && b != [] {
      LexTotal(a[1..], b[1..]);
      assert a[0] == b[0] && a[1..] == b[1..] ==> a == b by {
        assert a == [a[0]] + a[1..] && b == [b[0]] + b[1..];
      }
    }
  }

  lemma EarlierIsTransitive(a: string, b: string, c: string)
    requires Earlier(a, b) && Earlier(b, c)
    ensures Earlier(a, c)
  {
    var m: nat :| SmallerAt(a, b, m);
    var n: nat :| SmallerAt(b, c, n);
    assert SmallerAt(a, c, if m < n then m else n);
  }

  // ----- one test

  ghost predicate NumberHolds(a: real, operator: string, b: real) {
    || (operator == ">" && b < a) || (operator == ">=" && b <= a)
    || (operator == "<" && a < b) || (operator == "<=" && a <= b)
  }

  ghost predicate TextHolds(a: string, operator: string, b: string) {
    || (operator == ">" && Earlier(b, a)) || (operator == ">=" && (Earlier(b, a) || a == b))
    || (operator == "<" && Earlier(a, b)) || (operator == "<=" && (Earlier(a, b) || a == b))
  }

  ghost predicate BothNumbers(actual: Fact, expected: Expected) {
    actual.Number? && expected.One? && expected.value.Number?
  }

  ghost predicate BothTexts(actual: Fact, expected: Expected) {
    actual.Text? && expected.One? && expected.value.Text?
  }

  ghost predicate OrderHolds(actual: Fact, operator: string, expected: Expected) {
    || (BothNumbers(actual, expected) && NumberHolds(actual.n, operator, expected.value.n))
    || (BothTexts(actual, expected) && TextHolds(actual.s, operator, expected.value.s))
  }

  ghost predicate PartOf(part: string, text: string) {
    exists i, j :: 0 <= i <= j <= |text| && text[i..j] == part
  }

  /** Membership in a list of values, or in a text as a part of it. */
  ghost predicate MemberHolds(actual: Fact, expected: Expected) {
    match expected
    case Many(values) => exists i :: 0 <= i < |values| && values[i] == actual
    case One(value) => actual.Text? && value.Text? && PartOf(actual.s, value.s)
  }

  const ORDERINGS := {">", ">=", "<", "<="}

  /** A rule's test holds. A missing fact is below and above nothing, but can be equal or listed. */
  ghost predicate RuleTestHolds(actual: Fact, operator: string, expected: Expected) {
    || OrderHolds(actual, operator, expected)
    || (operator == "==" && expected == One(actual))
    || (operator == "!=" && expected != One(actual))
    || (operator == "in" && MemberHolds(actual, expected))
  }

  /** A rule's test raises: the operator is unknown, or the values cannot be compared or searched. */
  ghost predicate RuleTestRaises(actual: Fact, operator: string, expected: Expected) {
    || operator !in ORDERINGS + {"==", "!=", "in"}
    || (operator in ORDERINGS && actual != Absent && !BothNumbers(actual, expected) && !BothTexts(actual, expected))
    || (operator == "in" && expected.One? && !BothTexts(actual, expected))
  }

  /** A factor's test holds. A missing fact satisfies nothing, not even an inequality. */
  ghost predicate FactorTestHolds(actual: Fact, operator: string, expected: Expected) {
    && actual != Absent
    && (|| OrderHolds(actual, operator, expected)
        || (operator == "==" && expected == One(actual))
        || (operator == "!=" && expected != One(actual)))
  }

  ghost predicate FactorTestRaises(actual: Fact, operator: string, expected: Expected) {
    && actual != Absent
    && (|| operator !in ORDERINGS + {"==", "!="}
        || (operator in ORDERINGS && !BothNumbers(actual, expected) && !BothTexts(actual, expected)))
  }

  lemma CompareMeaning(actual: Fact, operator: string, expected: Expected)
    requires operator in ORDERINGS
    ensures Compare(actual, operator, expected).Err?
       <==> !BothNumbers(actual, expected) && !BothTexts(actual, expected)
    ensures Compare(actual, operator, expected) == Ok(true) <==> OrderHolds(actual, operator, expected)
  {
    if BothTexts(actual, expected) {
      var a, b := actual.s, expected.value.s;
      LexLessMeaning(a, b);
      LexLessMeaning(b, a);
      EarlierIsTotal(a, b);
    }
  }

  lemma ContainsMeaning(text: string, part: string)
    ensures R.Contains(text, part) <==> PartOf(part, text)
  {
    if i :| 0 <= i <= |text| && part <= text[i..] {
      assert text[i..i + |part|] == part;
    }
    if i, j :| 0 <= i <= j <= |text| && text[i..j] == part {
      assert part <= text[i..];
    }
  }

  lemma OnlyOrderingsOrder(actual: Fact, operator: string, expected: Expected)
    ensures IsOrdering(operator) <==> operator in ORDERINGS
    ensures operator !in ORDERINGS ==> !OrderHolds(actual, operator, expected)
    ensures ORDERINGS !! {"==", "!=", "in"}
  {
    assert "=="[0] == '=' && "!="[0] == '!' && "in"[0] == 'i';
    assert forall o :: o in ORDERINGS ==> o[0] == '>' || o[0] == '<';
  }

  /** The engine's test answers true exactly when it holds, and raises exactly as stated. */
  lemma RuleTestMeaning(actual: Fact, operator: string, expected: Expected)
    ensures R.Matches(actual, operator, expected) == Ok(true) <==> RuleTestHolds(actual, operator, expected)
    ensures R.Matches(actual, operator, expected).Err? <==> RuleTestRaises(actual, operator, expected)
  {
    OnlyOrderingsOrder(actual, operator, expected);
    if operator in ORDERINGS {
      CompareMeaning(actual, operator, expected);
    } else if operator == "in" && BothTexts(actual, expected) {
      ContainsMeaning(expected.value.s, actual.s);
    }
  }

  lemma FactorTestMeaning(actual: Fact, operator: string, expected: Expected)
    ensures D.Matches(actual, operator, expected) == Ok(true) <==> FactorTestHolds(actual, operator, expected)
    ensures D.Matches(actual, operator, expected).Err? <==> FactorTestRaises(actual, operator, expected)
  {
    OnlyOrderingsOrder(actual, operator, expected);
    if operator in ORDERINGS {
      CompareMeaning(actual, operator, expected);
    }
  }

  // ----- conditions

  function Looked(facts: FactTable, field: string): (actual: Fact)
    ensures field in facts ==> actual == facts[field]
    ensures field !in facts ==> actual == Absent
  {
    if field in facts then facts[field] else Absent
  }

  ghost predicate ConditionHolds(c: R.Condition, facts: FactTable) {
    match c
    case Test(field, operator, expected) => RuleTestHolds(Looked(facts, field), operator, expected)
    case AllOf(items) => forall i :: 0 <= i < |items| ==> ConditionHolds(items[i], facts)
  }

  /** Items are tested in order up to the first that fails, so only an item behind true ones raises. */
  ghost predicate ConditionRaises(c: R.Condition, facts: FactTable) {
    match c
    case Test(field, operator, expected) => RuleTestRaises(Looked(facts, field), operator, expected)
    case AllOf(items) =>
      exists k :: 0 <= k < |items| && ConditionRaises(items[k], facts)
                  && forall i :: 0 <= i < k ==> ConditionHolds(items[i], facts)
  }

  lemma {:induction false} ConditionMeaningOf(c: R.Condition, facts: FactTable)
    ensures R.ConditionMatches(c, facts) == Ok(true) <==> ConditionHolds(c, facts)
    ensures R.ConditionMatches(c, facts).Err? <==> ConditionRaises(c, facts)
  {
    match c
    case Test(field, operator, expected) => RuleTestMeaning(Looked(facts, field), operator, expected);
    case AllOf(items) => AllMeaning(items, facts);
  }

  ghost predicate AllHold(items: seq<R.Condition>, facts: FactTable) {
    forall i :: 0 <= i < |items| ==> ConditionHolds(items[i], facts)
  }

  ghost predicate RaisesAt(items: seq<R.Condition>, facts: FactTable, k: int) {
    0 <= k < |items| && ConditionRaises(items[k], facts) && AllHold(items[..k], facts)
  }

  lemma {:induction false} AllMeaning(items: seq<R.Condition>, facts: FactTable)
    ensures R.AllMatch(items, facts) == Ok(true) <==> AllHold(items, facts)
    ensures R.AllMatch(items, facts).Err? <==> exists k :: RaisesAt(items, facts, k)
    ensures ConditionHolds(R.AllOf(items), facts) <==> AllHold(items, facts)
    ensures ConditionRaises(R.AllOf(items), facts) <==> exists k :: RaisesAt(items, facts, k)
  {
    AllOfMeaning(items, facts);
    if items != [] {
      var rest := items[1..];
      ConditionMeaningOf(items[0], facts);
      AllMeaning(rest, facts);
      AllHoldStep(items, facts);
      if R.ConditionMatches(items[0], facts).Err? {
        assert RaisesAt(items, facts, 0);
      }
      if k :| RaisesAt(rest, facts, k) && ConditionHolds(items[0], facts) {
        RaisesLater(items, facts, k);
      }
      if k :| RaisesAt(items, facts, k) {
        RaisesEarlier(items, facts, k);
      }
    }
  }

  lemma AllOfMeaning(items: seq<R.Condition>, facts: FactTable)
    ensures ConditionHolds(R.AllOf(items), facts) <==> AllHold(items, facts)
    ensures ConditionRaises(R.AllOf(items), facts) <==> exists k :: RaisesAt(items, facts, k)
  {
    if ConditionRaises(R.AllOf(items), facts) {
      var k :| 0 <= k < |items| && ConditionRaises(items[k], facts)
               && forall i :: 0 <= i < k ==> ConditionHolds(items[i], facts);
      assert RaisesAt(items, facts, k);
    }
    if k :| RaisesAt(items, facts, k) {
      forall i | 0 <= i < k ensures ConditionHolds(items[i], facts) {
        assert items[..k][i] == items[i];
      }
    }
  }

  lemma AllHoldStep(items: seq<R.Condition>, facts: FactTable)
    requires items != []
    ensures AllHold(items, facts) <==> ConditionHolds(items[0], facts) && AllHold(items[1..], facts)
  {
    if ConditionHolds(items[0], facts) && AllHold(items[1..], facts) {
      forall i | 0 <= i < |items| ensures ConditionHolds(items[i], facts) {
        if i > 0 {
          assert items[i] == items[1..][i - 1];
        }
      }
    }
  }

  lemma RaisesLater(items: seq<R.Condition>, facts: FactTable, k: int)
    requires items != [] && ConditionHolds(items[0], facts) && RaisesAt(items[1..], facts, k)
    ensures RaisesAt(items, facts, k + 1)
  {
    var before := items[..k + 1];
    assert before[1..] == items[1..][..k];
    AllHoldStep(before, facts);
  }

  lemma RaisesEarlier(items: seq<R.Condition>, facts: FactTable, k: int)
    requires RaisesAt(items, facts, k)
    ensures if k == 0 then ConditionRaises(items[0], facts)
            else ConditionHolds(items[0], facts) && RaisesAt(items[1..], facts, k - 1)
  {
    if k > 0 {
      var before := items[..k];
      assert before[1..] == items[1..][..k - 1];
      AllHoldStep(before, facts);
    }
  }

  // ----- the triggers of the rule engine

  /** The evidence repeats the condition, each test with the fact looked at. */
  ghost predicate Records(c: R.Condition, facts: FactTable, e: R.Evidence) {
    match c
    case Test(field, operator, expected) =>
      e.Seen? && e.field == field && e.operator == operator && e.expected == expected
      && e.actual == Looked(facts, field)
    case AllOf(items) =>
      e.AllSeen? && |e.items| == |items| && forall i :: 0 <= i < |items| ==> Records(items[i], facts, e.items[i])
  }

  lemma {:induction false} EvidenceRecords(c: R.Condition, facts: FactTable)
    ensures Records(c, facts, R.EvidenceFor(c, facts))
  {
    if c.AllOf? {
      forall i | 0 <= i < |c.items| ensures Records(c.items[i], facts, R.EvidenceFor(c.items[i], facts)) {
        EvidenceRecords(c.items[i], facts);
      }
    }
  }

  /** The trigger of a rule carries the rule's own action and the evidence. */
  ghost predicate Reports(r: R.Rule, facts: FactTable, t: R.RuleTrigger) {
    && t.ruleId == r.ruleId && t.ruleName == r.ruleName && t.objectType == r.objectType
    && t.severity == r.severity && t.riskTag == r.riskTag && t.riskBonus == r.riskBonus
    && t.workOrderType == r.workOrderType && t.titleTemplate == r.titleTemplate
    && t.priority == r.priority && t.autoCreate == r.autoCreate
    && Records(r.condition, facts, t.evidence)
  }

  ghost predicate RuleHolds(r: R.Rule, objectType: string, facts: FactTable) {
    r.objectType == objectType && ConditionHolds(r.condition, facts)
  }

  ghost predicate RuleRaises(r: R.Rule, objectType: string, facts: FactTable) {
    r.objectType == objectType && ConditionRaises(r.condition, facts)
  }

  /** The positions of the rules that hold, in order, and one trigger for each of them. */
  ghost predicate AnswersRules(rules: seq<R.Rule>, objectType: string, facts: FactTable, picks: seq<nat>,
                               ts: seq<R.RuleTrigger>) {
    && Ascending(picks, |rules|)
    && (forall i :: 0 <= i < |rules| ==> (i in picks <==> RuleHolds(rules[i], objectType, facts)))
    && |ts| == |picks| && forall k :: 0 <= k < |ts| ==> Reports(rules[picks[k]], facts, ts[k])
  }

  lemma AnswerStep(rules: seq<R.Rule>, objectType: string, facts: FactTable, picks: seq<nat>,
                   ts: seq<R.RuleTrigger>, t: R.RuleTrigger)
    requires rules != [] && AnswersRules(Front(rules), objectType, facts, picks, ts)
    requires Reports(Last(rules), facts, t)
    ensures RuleHolds(Last(rules), objectType, facts) ==>
              AnswersRules(rules, objectType, facts, picks + [|rules| - 1], ts + [t])
    ensures !RuleHolds(Last(rules), objectType, facts) ==> AnswersRules(rules, objectType, facts, picks, ts)
  {
    AppendPick(picks, |rules| - 1);
    var longer, picked := ts + [t], picks + [|rules| - 1];
    forall i | 0 <= i < |rules| - 1 ensures i in picks <==> RuleHolds(rules[i], objectType, facts) {
      assert Front(rules)[i] == rules[i];
    }
    forall k | 0 <= k < |longer| ensures Reports(rules[picked[k]], facts, longer[k]) {
      if k < |ts| {
        assert Front(rules)[picks[k]] == rules[picks[k]];
      }
    }
  }

  lemma {:induction false} FiredRaises(rules: seq<R.Rule>, objectType: string, facts: FactTable)
    ensures R.Fired(rules, objectType, facts).Err?
       <==> exists i :: 0 <= i < |rules| && RuleRaises(rules[i], objectType, facts)
  {
    if rules != [] {
      FiredRaises(Front(rules), objectType, facts);
      ConditionMeaningOf(Last(rules).condition, facts);
      AnyRuleOfFront(rules, objectType, facts);
    }
  }

  lemma AnyRuleOfFront(rules: seq<R.Rule>, objectType: string, facts: FactTable)
    requires rules != []
    ensures (exists i :: 0 <= i < |rules| && RuleRaises(rules[i], objectType, facts))
       <==> RuleRaises(Last(rules), objectType, facts)
            || exists i :: 0 <= i < |Front(rules)| && RuleRaises(Front(rules)[i], objectType, facts)
  {
    var front := Front(rules);
    assert Last(rules) == rules[|rules| - 1];
    if i :| 0 <= i < |front| && RuleRaises(front[i], objectType, facts) {
      assert RuleRaises(rules[i], objectType, facts);
    }
    forall i | 0 <= i < |front| ensures front[i] == rules[i] {
    }
  }

  lemma {:induction false} FiredAnswers(rules: seq<R.Rule>, objectType: string, facts: FactTable)
    returns (picks: seq<nat>)
    requires R.Fired(rules, objectType, facts).Ok?
    ensures AnswersRules(rules, objectType, facts, picks, R.Fired(rules, objectType, facts).value)
  {
    picks := [];
    if rules != [] {
      var front, last := Front(rules), Last(rules);
      picks := FiredAnswers(front, objectType, facts);
      ConditionMeaningOf(last.condition, facts);
      EvidenceRecords(last.condition, facts);
      AnswerStep(rules, objectType, facts, picks, R.Fired(front, objectType, facts).value, R.TriggerOf(last, facts));
      if RuleHolds(last, objectType, facts) {
        picks := picks + [|front|];
      }
    }
  }

  /** The engine raises if and only if a rule of the requested type raises. Otherwise it answers with
      one trigger, saying what the rule says, for exactly the rules of that type whose condition holds,
      in the order of the rules. */
  lemma FiredMeaning(rules: seq<R.Rule>, objectType: string, facts: FactTable)
    ensures R.Fired(rules, objectType, facts).Err?
       <==> exists i :: 0 <= i < |rules| && RuleRaises(rules[i], objectType, facts)
    ensures R.Fired(rules, objectType, facts).Ok? ==>
              exists picks ::
                AnswersRules(rules, objectType, facts, picks, R.Fired(rules, objectType, facts).value)
  {
    FiredRaises(rules, objectType, facts);
    if R.Fired(rules, objectType, facts).Ok? {
      var picks := FiredAnswers(rules, objectType, facts);
    }
  }

  /** A threshold rule fires at and above its limit. */
  lemma ThresholdFires(r: R.Rule, facts: FactTable, field: string, limit: real)
    requires r.condition == R.Test(field, ">=", One(Number(limit)))
    requires field in facts && facts[field].Number?
    ensures R.Fired([r], r.objectType, facts).Ok?
    ensures R.Fired([r], r.objectType, facts).value != [] <==> facts[field].n >= limit
  {
    FiredMeaning([r], r.objectType, facts);
    RuleTestMeaning(facts[field], ">=", One(Number(limit)));
    assert Front([r]) == [];
  }

  // ----- the triggers of the dynamic factors

  ghost predicate FactorHolds(d: D.Definition, facts: FactTable) {
    FactorTestHolds(Looked(facts, d.field), d.operator, d.expected)
  }

  ghost predicate FactorRaises(d: D.Definition, facts: FactTable) {
    FactorTestRaises(Looked(facts, d.field), d.operator, d.expected)
  }

  ghost predicate ReportsFactor(d: D.Definition, t: D.Trigger) {
    && t.code == d.code && t.name == d.name && t.group == d.group && t.delta == d.delta
    && (d.evidenceSource != "" ==> t.evidenceRef == d.evidenceSource)
    && (d.evidenceSource == "" ==> t.evidenceRef == d.field)
  }

  ghost predicate AnswersFactors(factors: seq<D.Definition>, facts: FactTable, picks: seq<nat>, ts: seq<D.Trigger>) {
    && Ascending(picks, |factors|)
    && (forall i :: 0 <= i < |factors| ==> (i in picks <==> FactorHolds(factors[i], facts)))
    && |ts| == |picks| && forall k :: 0 <= k < |ts| ==> ReportsFactor(factors[picks[k]], ts[k])
  }

  lemma FactorAnswerStep(factors: seq<D.Definition>, facts: FactTable, picks: seq<nat>, ts: seq<D.Trigger>,
                         t: D.Trigger)
    requires factors != [] && AnswersFactors(Front(factors), facts, picks, ts)
    requires ReportsFactor(Last(factors), t)
    ensures FactorHolds(Last(factors), facts) ==> AnswersFactors(factors, facts, picks + [|factors| - 1], ts + [t])
    ensures !FactorHolds(Last(factors), facts) ==> AnswersFactors(factors, facts, picks, ts)
  {
    AppendPick(picks, |factors| - 1);
    var longer, picked := ts + [t], picks + [|factors| - 1];
    forall i | 0 <= i < |factors| - 1 ensures i in picks <==> FactorHolds(factors[i], facts) {
      assert Front(factors)[i] == factors[i];
    }
    forall k | 0 <= k < |longer| ensures ReportsFactor(factors[picked[k]], longer[k]) {
      if k < |ts| {
        assert Front(factors)[picks[k]] == factors[picks[k]];
      }
    }
  }

  lemma {:induction false} TriggeredRaises(factors: seq<D.Definition>, facts: FactTable)
    ensures D.Triggered(factors, facts).Err? <==> exists i :: 0 <= i < |factors| && FactorRaises(factors[i], facts)
  {
    if factors != [] {
      var front, last := Front(factors), Last(factors);
      TriggeredRaises(front, facts);
      FactorTestMeaning(Looked(facts, last.field), last.operator, last.expected);
      assert FactorRaises(last, facts) <==> D.Matches(Get(facts, last.field), last.operator, last.expected).Err?;
      AnyOfFront(factors, facts);
    }
  }

  lemma AnyOfFront(factors: seq<D.Definition>, facts: FactTable)
    requires factors != []
    ensures (exists i :: 0 <= i < |factors| && FactorRaises(factors[i], facts))
       <==> FactorRaises(Last(factors), facts)
            || exists i :: 0 <= i < |Front(factors)| && FactorRaises(Front(factors)[i], facts)
  {
    var front := Front(factors);
    assert Last(factors) == factors[|factors| - 1];
    if i :| 0 <= i < |front| && FactorRaises(front[i], facts) {
      assert FactorRaises(factors[i], facts);
    }
    forall i | 0 <= i < |front| ensures front[i] == factors[i] {
    }
  }

  lemma {:induction false} TriggeredAnswers(factors: seq<D.Definition>, facts: FactTable) returns (picks: seq<nat>)
    requires D.Triggered(factors, facts).Ok?
    ensures AnswersFactors(factors, facts, picks, D.Triggered(factors, facts).value)
  {
    picks := [];
    if factors != [] {
      var front, last := Front(factors), Last(factors);
      picks := TriggeredAnswers(front, facts);
      FactorTestMeaning(Looked(facts, last.field), last.operator, last.expected);
      assert FactorHolds(last, facts) <==> D.Matches(Get(facts, last.field), last.operator, last.expected) == Ok(true);
      FactorAnswerStep(factors, facts, picks, D.Triggered(front, facts).value, D.TriggerOf(last));
      if FactorHolds(last, facts) {
        picks := picks + [|front|];
      }
    }
  }

  /** The deltas that simply add up: those outside the exclusive groups. */
  function FreeShares(ts: seq<D.Trigger>, groups: set<string>): (deltas: seq<real>)
    ensures |deltas| == |ts|
    ensures forall i :: 0 <= i < |ts| && ts[i].group in groups ==> deltas[i] == 0.0
    ensures forall i :: 0 <= i < |ts| && ts[i].group !in groups ==> deltas[i] == ts[i].delta
  {
    seq(|ts|, i requires 0 <= i < |ts| => if ts[i].group in groups then 0.0 else ts[i].delta)
  }

  lemma {:induction false} FreeDeltaMeaning(ts: seq<D.Trigger>, groups: set<string>)
    ensures D.FreeDelta(ts, groups) == Sum(FreeShares(ts, groups))
  {
    if ts != [] {
      FreeDeltaMeaning(Front(ts), groups);
      assert Front(FreeShares(ts, groups)) == FreeShares(Front(ts), groups);
    }
  }

  /** The largest delta of the group, and zero if none is positive. */
  ghost predicate IsGroupShare(ts: seq<D.Trigger>, group: string, share: real) {
    && share >= 0.0
    && (forall i :: 0 <= i < |ts| && ts[i].group == group ==> ts[i].delta <= share)
    && (share == 0.0 || exists i :: 0 <= i < |ts| && ts[i].group == group && ts[i].delta == share)
  }

  lemma GroupShareUnique(ts: seq<D.Trigger>, group: string, share: real)
    requires IsGroupShare(ts, group, share)
    ensures D.GroupDelta(ts, group) == share
  {
    var other := D.GroupDelta(ts, group);
    forall i | 0 <= i < |ts| && ts[i].group == group ensures ts[i].delta <= other {
      assert ts[i] in ts;
    }
  }

  /** The evaluation raises if and only if some definition raises. Otherwise it lists the triggers of
      exactly the definitions that hold, and its factor is the base plus the free deltas plus each
      exclusive group's share, cut at the maximum and rounded. */
  lemma EvaluationMeaning(config: D.Config, facts: FactTable, shares: string -> real)
    requires D.Evaluated(config, facts).Ok? ==>
               forall g :: g in config.exclusiveGroups ==>
                 IsGroupShare(D.Evaluated(config, facts).value.triggers, g, shares(g))
    ensures D.Evaluated(config, facts).Err?
       <==> exists i :: 0 <= i < |config.factors| && FactorRaises(config.factors[i], facts)
    ensures D.Evaluated(config, facts).Ok? ==>
              var e := D.Evaluated(config, facts).value;
              var total := config.baseFactor + Sum(FreeShares(e.triggers, config.exclusiveGroups))
                           + SetSum(config.exclusiveGroups, shares);
              && (exists picks :: AnswersFactors(config.factors, facts, picks, e.triggers))
              && (total <= config.maxFactor ==> e.factor == Round(total, TenThousandths))
              && (config.maxFactor <= total ==> e.factor == Round(config.maxFactor, TenThousandths))
  {
    TriggeredRaises(config.factors, facts);
    if D.Evaluated(config, facts).Ok? {
      var ts := D.Evaluated(config, facts).value.triggers;
      var groups := config.exclusiveGroups;
      var picks := TriggeredAnswers(config.factors, facts);
      FreeDeltaMeaning(ts, groups);
      forall g | g in groups ensures D.DeltaOf(ts)(g) == shares(g) {
        GroupShareUnique(ts, g, shares(g));
      }
      SetSumSupport(groups, groups, D.DeltaOf(ts), shares);
    }
  }
}
