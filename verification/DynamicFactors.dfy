/** Facts, comparison operators and the dynamic-factor multiplier. */
module Facts {
  import opened Common

  datatype Fact = Absent | Number(n: real) | Text(s: string)
  datatype Expected = One(value: Fact) | Many(values: seq<Fact>)
  datatype MatchError = UnsupportedOperator(operator: string) | TypeMismatch

  type FactTable = map<string, Fact>

  function Get(facts: FactTable, field: string): Fact {
    if field in facts then facts[field] else Absent
  }

  predicate LexLess(a: string, b: string) {
    if b == [] then false
    else if a == [] then true
    else a[0] < b[0] || (a[0] == b[0] && LexLess(a[1..], b[1..]))
  }

  /** The four orderings; mixed types raise. */
  function Compare(actual: Fact, operator: string, expected: Expected): Result<bool, MatchError> {
    if actual.Number? && expected.One? && expected.value.Number? then
      var a, b := actual.n, expected.value.n;
      Ok(if operator == ">" then a > b else if operator == ">=" then a >= b
         else if operator == "<" then a < b else a <= b)
    else if actual.Text? && expected.One? && expected.value.Text? then
      var a, b := actual.s, expected.value.s;
      Ok(if operator == ">" then LexLess(b, a) else if operator == ">=" then !LexLess(a, b)
         else if operator == "<" then LexLess(a, b) else !LexLess(b, a))
    else Err(TypeMismatch)
  }

  predicate IsOrdering(operator: string) {
    operator == ">" || operator == ">=" || operator == "<" || operator == "<="
  }

  predicate Same(actual: Fact, expected: Expected) {
    expected.One? && actual == expected.value
  }

  /** `facts` grows to `facts'`: same fields, numbers may rise, nothing else changes. */
  ghost predicate Grows(facts: FactTable, facts': FactTable) {
    facts.Keys == facts'.Keys
    && forall k :: k in facts ==>
         facts[k] == facts'[k] || (facts[k].Number? && facts'[k].Number? && facts[k].n <= facts'[k].n)
  }

  predicate Numeric(facts: FactTable) {
    forall k :: k in facts ==> facts[k].Number?
  }
}

module DynamicFactors {
  import opened Common
  import opened Facts
  import opened Rounding
  import opened Sums

  datatype Definition = Definition(code: string, group: string, name: string, field: string,
                                   operator: string, expected: Expected, delta: real, evidenceSource: string)
  datatype Trigger = Trigger(code: string, name: string, group: string, delta: real, evidenceRef: string)
  datatype Config = Config(baseFactor: real, maxFactor: real, exclusiveGroups: set<string>, factors: seq<Definition>)
  datatype Evaluation = Evaluation(factor: real, triggers: seq<Trigger>)

  /** `_matches`: a missing fact never matches, whatever the operator. */
  function Matches(actual: Fact, operator: string, expected: Expected): Result<bool, MatchError> {
    if actual == Absent then Ok(false)
    else if IsOrdering(operator) then Compare(actual, operator, expected)
    else if operator == "==" then Ok(Same(actual, expected))
    else if operator == "!=" then Ok(!Same(actual, expected))
    else Err(UnsupportedOperator(operator))
  }

  function TriggerOf(d: Definition): Trigger {
    Trigger(d.code, d.name, d.group, d.delta, if d.evidenceSource != "" then d.evidenceSource else d.field)
  }

  /** The definitions whose condition holds, in configuration order; the first error wins. */
  function Triggered(factors: seq<Definition>, facts: FactTable): Result<seq<Trigger>, MatchError> {
    if factors == [] then Ok([])
    else
      match Triggered(Front(factors), facts)
      case Err(e) => Err(e)
      case Ok(ts) =>
        var d := Last(factors);
        match Matches(Get(facts, d.field), d.operator, d.expected)
        case Err(e) => Err(e)
        case Ok(hit) => Ok(if hit then ts + [TriggerOf(d)] else ts)
  }

  /** Deltas outside the exclusive groups simply add up. */
  function FreeDelta(ts: seq<Trigger>, groups: set<string>): real {
    if ts == [] then 0.0
    else FreeDelta(Front(ts), groups) + if Last(ts).group in groups then 0.0 else Last(ts).delta
  }

  /** Inside an exclusive group only the largest delta counts, and never less than zero. */
  function GroupDelta(ts: seq<Trigger>, group: string): (m: real)
    ensures m >= 0.0
    ensures forall t :: t in ts && t.group == group ==> t.delta <= m
    ensures m == 0.0 || exists t :: t in ts && t.group == group && t.delta == m
  {
    if ts == [] then 0.0
    else
      assert forall t :: t in ts <==> t in Front(ts) || t == Last(ts);
      var before := GroupDelta(Front(ts), group);
      if Last(ts).group == group && Last(ts).delta > before then Last(ts).delta else before
  }

  function DeltaOf(ts: seq<Trigger>): string -> real {
    g => GroupDelta(ts, g)
  }

  ghost function TotalDelta(ts: seq<Trigger>, groups: set<string>): real {
    FreeDelta(ts, groups) + SetSum(groups, DeltaOf(ts))
  }

  function Capped(config: Config, total: real): real {
    if config.maxFactor <= config.baseFactor + total then config.maxFactor else config.baseFactor + total
  }

  ghost function FactorOf(config: Config, ts: seq<Trigger>): real {
    Round(Capped(config, TotalDelta(ts, config.exclusiveGroups)), TenThousandths)
  }

  ghost function Evaluated(config: Config, facts: FactTable): Result<Evaluation, MatchError> {
    match Triggered(config.factors, facts)
    case Err(e) => Err(e)
    case Ok(ts) => Ok(Evaluation(FactorOf(config, ts), ts))
  }

  /** `evaluate_dynamic_factors`: collect the triggers, split them into the group dictionary and
      the running sum, and cap. */
  method EvaluateDynamicFactors(facts: FactTable, config: Config) returns (result: Result<Evaluation, MatchError>)
    ensures result == Evaluated(config, facts)
  {
    var collected := CollectTriggers(facts, config.factors);
    if collected.Err? {
      return Err(collected.error);
    }
    var triggered := collected.value;
    var freeDelta, groupDeltas := SplitDeltas(triggered, config.exclusiveGroups);
    var groupTotal := SumValues(groupDeltas);
    SetSumSupport(groupDeltas.Keys, config.exclusiveGroups, ValueIn(groupDeltas), DeltaOf(triggered));
    return Ok(Evaluation(Round(Capped(config, freeDelta + groupTotal), TenThousandths), triggered));
  }

  method CollectTriggers(facts: FactTable, factors: seq<Definition>) returns (result: Result<seq<Trigger>, MatchError>)
    ensures result == Triggered(factors, facts)
  {
    var triggered: seq<Trigger> := [];
    for i := 0 to |factors|
      invariant Triggered(factors[..i], facts) == Ok(triggered)
    {
      var d := factors[i];
      assert Front(factors[..i + 1]) == factors[..i];
      match Matches(Get(facts, d.field), d.operator, d.expected) {
        case Err(e) =>
          TriggeredErrorPropagates(factors, i + 1, facts, e);
          return Err(e);
        case Ok(hit) =>
          if hit {
            triggered := triggered + [TriggerOf(d)];
          }
      }
    }
    assert factors[..|factors|] == factors;
    result := Ok(triggered);
  }

  /** The group dictionary holds the largest delta of each exclusive group seen so far. */
  ghost predicate HoldsGroups(groupDeltas: map<string, real>, ts: seq<Trigger>, groups: set<string>) {
    groupDeltas.Keys <= groups && forall g :: g in groups ==> GroupDelta(ts, g) == ValueIn(groupDeltas)(g)
  }

  method SplitDeltas(triggered: seq<Trigger>, groups: set<string>)
    returns (freeDelta: real, groupDeltas: map<string, real>)
    ensures freeDelta == FreeDelta(triggered, groups)
    ensures groupDeltas.Keys <= groups
    ensures forall g :: g in groups ==> GroupDelta(triggered, g) == ValueIn(groupDeltas)(g)
  {
    groupDeltas, freeDelta := map[], 0.0;
    for i := 0 to |triggered|
      invariant HoldsGroups(groupDeltas, triggered[..i], groups)
      invariant freeDelta == FreeDelta(triggered[..i], groups)
    {
      var t := triggered[i];
      assert triggered[..i + 1] == triggered[..i] + [t];
      AddTrigger(triggered[..i], t, groups);
      AddToGroups(groupDeltas, triggered[..i], t, groups);
      if t.group in groups {
        var current := ValueIn(groupDeltas)(t.group);
        groupDeltas := groupDeltas[t.group := if t.delta > current then t.delta else current];
      } else {
        freeDelta := freeDelta + t.delta;
      }
    }
    assert triggered[..|triggered|] == triggered;
  }

  lemma AddToGroups(groupDeltas: map<string, real>, ts: seq<Trigger>, t: Trigger, groups: set<string>)
    requires HoldsGroups(groupDeltas, ts, groups)
    ensures var current := ValueIn(groupDeltas)(t.group);
            HoldsGroups(if t.group in groups then groupDeltas[t.group := if t.delta > current then t.delta else current]
                        else groupDeltas, ts + [t], groups)
  {
    AddTrigger(ts, t, groups);
  }

  lemma AddTrigger(ts: seq<Trigger>, t: Trigger, groups: set<string>)
    ensures FreeDelta(ts + [t], groups) == FreeDelta(ts, groups) + if t.group in groups then 0.0 else t.delta
    ensures forall g :: GroupDelta(ts + [t], g)
                     == if t.group == g && t.delta > GroupDelta(ts, g) then t.delta else GroupDelta(ts, g)
  {
    assert Front(ts + [t]) == ts;
  }

  function ValueIn(m: map<string, real>): string -> real {
    k => if k in m then m[k] else 0.0
  }

  method SumValues(m: map<string, real>) returns (total: real)
    ensures total == SetSum(m.Keys, ValueIn(m))
  {
    total := 0.0;
    var rest := m.Keys;
    while rest != {}
      invariant rest <= m.Keys
      invariant total + SetSum(rest, ValueIn(m)) == SetSum(m.Keys, ValueIn(m))
    {
      var k :| k in rest;
      SetSumRemove(rest, k, ValueIn(m));
      total := total + m[k];
      rest := rest - {k};
    }
  }

  lemma {:induction false} TriggeredErrorPropagates(factors: seq<Definition>, n: nat, facts: FactTable, e: MatchError)
    requires n <= |factors| && Triggered(factors[..n], facts) == Err(e)
    ensures Triggered(factors, facts) == Err(e)
    decreases |factors| - n
  {
    if n == |factors| {
      assert factors[..n] == factors;
    } else {
      assert Front(factors[..n + 1]) == factors[..n];
      TriggeredErrorPropagates(factors, n + 1, facts, e);
    }
  }

  // ----- monotonicity

  /** A threshold test from below on a number, with a non-negative delta. */
  ghost predicate Rising(d: Definition) {
    (d.operator == ">" || d.operator == ">=") && d.expected.One? && d.expected.value.Number? && d.delta >= 0.0
  }

  ghost predicate RisingConfig(config: Config) {
    && config.baseFactor >= 0.0 && config.maxFactor >= 0.0
    && forall i :: 0 <= i < |config.factors| ==> Rising(config.factors[i])
  }

  /** A rising condition that holds keeps holding as the facts grow. */
  lemma HitGrows(d: Definition, facts: FactTable, facts': FactTable)
    requires Rising(d) && Numeric(facts) && Numeric(facts') && Grows(facts, facts')
    ensures Matches(Get(facts, d.field), d.operator, d.expected).Ok?
    ensures Matches(Get(facts', d.field), d.operator, d.expected).Ok?
    ensures Matches(Get(facts, d.field), d.operator, d.expected).value ==>
              Matches(Get(facts', d.field), d.operator, d.expected).value
  {
  }

  /** `ts'` has at least the deltas of `ts`. */
  ghost predicate Dominates(ts: seq<Trigger>, ts': seq<Trigger>, groups: set<string>) {
    && 0.0 <= FreeDelta(ts, groups) <= FreeDelta(ts', groups)
    && forall g :: GroupDelta(ts, g) <= GroupDelta(ts', g)
  }

  lemma DominatesOne(ts: seq<Trigger>, ts': seq<Trigger>, groups: set<string>, t: Trigger)
    requires Dominates(ts, ts', groups) && t.delta >= 0.0
    ensures Dominates(ts + [t], ts' + [t], groups) && Dominates(ts, ts' + [t], groups)
  {
    AddTrigger(ts, t, groups);
    AddTrigger(ts', t, groups);
  }

  lemma {:induction false} TriggersGrow(factors: seq<Definition>, groups: set<string>, facts: FactTable,
                                        facts': FactTable)
    requires forall i :: 0 <= i < |factors| ==> Rising(factors[i])
    requires Numeric(facts) && Numeric(facts') && Grows(facts, facts')
    ensures Triggered(factors, facts).Ok? && Triggered(factors, facts').Ok?
    ensures Dominates(Triggered(factors, facts).value, Triggered(factors, facts').value, groups)
  {
    if factors != [] {
      var d := Last(factors);
      assert Rising(d);
      TriggersGrow(Front(factors), groups, facts, facts');
      HitGrows(d, facts, facts');
      DominatesOne(Triggered(Front(factors), facts).value, Triggered(Front(factors), facts').value,
                   groups, TriggerOf(d));
    }
  }

  /** More pressure never lowers the multiplier, which stays non-negative. */
  lemma FactorMonotone(config: Config, facts: FactTable, facts': FactTable)
    requires RisingConfig(config) && Numeric(facts) && Numeric(facts') && Grows(facts, facts')
    ensures Evaluated(config, facts).Ok? && Evaluated(config, facts').Ok?
    ensures 0.0 <= Evaluated(config, facts).value.factor <= Evaluated(config, facts').value.factor
    ensures Evaluated(config, facts').value.factor <= Round(config.maxFactor, TenThousandths)
  {
    TriggersGrow(config.factors, config.exclusiveGroups, facts, facts');
    var ts, ts' := Triggered(config.factors, facts).value, Triggered(config.factors, facts').value;
    var groups := config.exclusiveGroups;
    SetSumMonotone(groups, DeltaOf(ts), DeltaOf(ts'));
    SetSumSupport({}, groups, ZeroDelta(), ZeroDelta());
    SetSumMonotone(groups, ZeroDelta(), DeltaOf(ts));
    var low, high := Capped(config, TotalDelta(ts, groups)), Capped(config, TotalDelta(ts', groups));
    assert 0.0 <= low <= high <= config.maxFactor;
    RoundMonotone(low, high, TenThousandths);
    RoundMonotone(high, config.maxFactor, TenThousandths);
    RoundMonotone(0.0, low, TenThousandths);
    RoundExact(0.0, 0, TenThousandths);
  }

  function ZeroDelta(): string -> real {
    g => 0.0
  }
}
