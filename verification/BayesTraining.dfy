/** Learning conditional probability tables from labelled cases, predicting with them, and the
    calibration score. */
module BayesTraining {
  import opened Common
  import opened Rounding
  import opened Sums
  import opened NetworkStructure

  datatype Row = Row(labels: map<string, int>, outcome: Option<string>)

  /** A distribution over two states. */
  datatype Binary = Binary(negative: real, positive: real)

  datatype Node =
    | FactorNode(states: Binary)
    | OutcomeNode(parents: seq<string>, states: Binary, conditional: map<nat, Binary>)

  type Table = map<string, Node>

  // ----- counting

  predicate Active(labels: map<string, int>, factor: string) {
    factor in labels && labels[factor] == 1
  }

  function ActiveParentCount(labels: map<string, int>, parents: seq<string>): (n: nat)
    ensures n <= |parents|
  {
    if parents == [] then 0
    else ActiveParentCount(labels, Front(parents)) + if Active(labels, Last(parents)) then 1 else 0
  }

  function FactorCount(rows: seq<Row>, factor: string): (n: nat)
    ensures n <= |rows|
  {
    if rows == [] then 0 else FactorCount(Front(rows), factor) + if Active(Last(rows).labels, factor) then 1 else 0
  }

  function OutcomeCount(rows: seq<Row>, outcome: string): (n: nat)
    ensures n <= |rows|
  {
    if rows == [] then 0 else OutcomeCount(Front(rows), outcome) + if Last(rows).outcome == Some(outcome) then 1 else 0
  }

  /** The training rows with exactly `k` active parents. */
  function Bucket(rows: seq<Row>, parents: seq<string>, k: nat): seq<Row> {
    if rows == [] then []
    else Bucket(Front(rows), parents, k)
         + if ActiveParentCount(Last(rows).labels, parents) == k then [Last(rows)] else []
  }

  // ----- estimates

  function Laplace(count: nat, total: nat, alpha: real): real
    requires total > 0 && alpha >= 0.0
  {
    Round((count as real + alpha) / (total as real + alpha * 2.0), TenThousandths)
  }

  function Estimate(count: nat, total: nat, alpha: real): Binary
    requires total > 0 && alpha >= 0.0
  {
    var positive := Laplace(count, total, alpha);
    Binary(Round(1.0 - positive, TenThousandths), positive)
  }

  function FactorEstimate(rows: seq<Row>, factor: string, alpha: real): Node
    requires rows != [] && alpha >= 0.0
  {
    FactorNode(Estimate(FactorCount(rows, factor), |rows|, alpha))
  }

  function Conditional(rows: seq<Row>, parents: seq<string>, outcome: string, alpha: real, n: nat): map<nat, Binary>
    requires alpha >= 0.0
  {
    map k: nat | 0 <= k < n && Bucket(rows, parents, k) != [] ::
      Estimate(OutcomeCount(Bucket(rows, parents, k), outcome), |Bucket(rows, parents, k)|, alpha)
  }

  function OutcomeEstimate(rows: seq<Row>, edges: seq<Edge>, outcome: string, alpha: real): Node
    requires rows != [] && alpha >= 0.0
  {
    var parents := ParentsOf(edges, outcome);
    OutcomeNode(parents, Estimate(OutcomeCount(rows, outcome), |rows|, alpha),
                if parents == [] then map[] else Conditional(rows, parents, outcome, alpha, |parents| + 1))
  }

  function NodeEstimate(rows: seq<Row>, edges: seq<Edge>, outcomes: seq<string>, alpha: real, id: string): Node
    requires rows != [] && alpha >= 0.0
  {
    if id in outcomes then OutcomeEstimate(rows, edges, id, alpha) else FactorEstimate(rows, id, alpha)
  }

  /** The learned table: one estimate per factor and per outcome. */
  function LearnedCpt(rows: seq<Row>, edges: seq<Edge>, factors: seq<string>, outcomes: seq<string>, alpha: real): Table
    requires rows != [] && alpha >= 0.0
  {
    map id | id in Elements(factors) + Elements(outcomes) :: NodeEstimate(rows, edges, outcomes, alpha, id)
  }

  ghost predicate Learned(table: Table, rows: seq<Row>, edges: seq<Edge>, factors: seq<string>,
                          outcomes: seq<string>, alpha: real)
    requires rows != [] && alpha >= 0.0
  {
    table == LearnedCpt(rows, edges, factors, outcomes, alpha)
  }

  /** `learn_cpt_from_training_rows`; an empty training set is refused. */
  method LearnTable(rows: seq<Row>, edges: seq<Edge>, factors: seq<string>, outcomes: seq<string>, alpha: real)
    returns (result: Option<Table>)
    requires alpha >= 0.0
    ensures result.None? <==> rows == []
    ensures rows != [] ==> Learned(result.value, rows, edges, factors, outcomes, alpha)
  {
    if rows == [] {
      return None;
    }
    var nodes: Table := map[];
    for i := 0 to |factors|
      invariant nodes.Keys == Elements(factors[..i])
      invariant forall f :: f in factors[..i] ==> nodes[f] == FactorEstimate(rows, f, alpha)
    {
      assert factors[..i + 1] == factors[..i] + [factors[i]];
      nodes := nodes[factors[i] := FactorEstimate(rows, factors[i], alpha)];
    }
    assert factors[..|factors|] == factors;
    for i := 0 to |outcomes|
      invariant nodes.Keys == Elements(factors) + Elements(outcomes[..i])
      invariant forall f :: f in factors && f !in outcomes[..i] ==> nodes[f] == FactorEstimate(rows, f, alpha)
      invariant forall o :: o in outcomes[..i] ==> nodes[o] == OutcomeEstimate(rows, edges, o, alpha)
    {
      assert outcomes[..i + 1] == outcomes[..i] + [outcomes[i]];
      var node := LearnOutcome(rows, edges, outcomes[i], alpha);
      nodes := nodes[outcomes[i] := node];
    }
    assert outcomes[..|outcomes|] == outcomes;
    return Some(nodes);
  }

  method LearnOutcome(rows: seq<Row>, edges: seq<Edge>, outcome: string, alpha: real) returns (node: Node)
    requires rows != [] && alpha >= 0.0
    ensures node == OutcomeEstimate(rows, edges, outcome, alpha)
  {
    var parents := ParentsOf(edges, outcome);
    var conditional: map<nat, Binary> := map[];
    if parents != [] {
      for k := 0 to |parents| + 1
        invariant conditional == Conditional(rows, parents, outcome, alpha, k)
      {
        var bucket := Bucket(rows, parents, k);
        if bucket != [] {
          conditional := conditional[k := Estimate(OutcomeCount(bucket, outcome), |bucket|, alpha)];
        }
      }
    }
    return OutcomeNode(parents, Estimate(OutcomeCount(rows, outcome), |rows|, alpha), conditional);
  }

  // ----- every estimate is a distribution, exactly

  lemma FractionInUnit(a: real, b: real)
    requires 0.0 <= a <= b && b > 0.0
    ensures 0.0 <= a / b <= 1.0
  {
    DivMonotone(0.0, a, b);
    DivMonotone(a, b, b);
    assert 0.0 / b == 0.0 && b / b == 1.0;
  }

  lemma {:induction false} EstimateIsDistribution(count: nat, total: nat, alpha: real)
    requires 0 < total && count <= total && alpha >= 0.0
    ensures var e := Estimate(count, total, alpha);
            0.0 <= e.positive <= 1.0 && 0.0 <= e.negative <= 1.0 && e.negative + e.positive == 1.0
  {
    var p := (count as real + alpha) / (total as real + alpha * 2.0);
    FractionInUnit(count as real + alpha, total as real + alpha * 2.0);
    RoundMonotone(0.0, p, TenThousandths);
    RoundMonotone(p, 1.0, TenThousandths);
    RoundExact(0.0, 0, TenThousandths);
    RoundExact(1.0, 10000, TenThousandths);
    RoundExact(1.0 - Round(p, TenThousandths), 10000 - Nearest(p * 10000.0), TenThousandths);
  }

  // ----- the buckets partition the training rows

  function BucketSizes(rows: seq<Row>, parents: seq<string>, n: nat): nat {
    if n == 0 then 0 else BucketSizes(rows, parents, n - 1) + |Bucket(rows, parents, n - 1)|
  }

  function BucketOutcomes(rows: seq<Row>, parents: seq<string>, outcome: string, n: nat): nat {
    if n == 0 then 0
    else BucketOutcomes(rows, parents, outcome, n - 1) + OutcomeCount(Bucket(rows, parents, n - 1), outcome)
  }

  /** Rows, and rows with the outcome, whose active-parent count is below `n`. */
  function RowsBelow(rows: seq<Row>, parents: seq<string>, n: nat): nat {
    if rows == [] then 0
    else RowsBelow(Front(rows), parents, n) + if ActiveParentCount(Last(rows).labels, parents) < n then 1 else 0
  }

  function OutcomesBelow(rows: seq<Row>, parents: seq<string>, outcome: string, n: nat): nat {
    if rows == [] then 0
    else OutcomesBelow(Front(rows), parents, outcome, n)
         + if ActiveParentCount(Last(rows).labels, parents) < n && Last(rows).outcome == Some(outcome) then 1 else 0
  }

  lemma {:induction false} RowsBelowStep(rows: seq<Row>, parents: seq<string>, n: nat)
    ensures RowsBelow(rows, parents, n + 1) == RowsBelow(rows, parents, n) + |Bucket(rows, parents, n)|
  {
    if rows != [] {
      RowsBelowStep(Front(rows), parents, n);
    }
  }

  lemma {:induction false} OutcomesBelowStep(rows: seq<Row>, parents: seq<string>, outcome: string, n: nat)
    ensures OutcomesBelow(rows, parents, outcome, n + 1)
         == OutcomesBelow(rows, parents, outcome, n) + OutcomeCount(Bucket(rows, parents, n), outcome)
  {
    if rows != [] {
      OutcomesBelowStep(Front(rows), parents, outcome, n);
      var before := Bucket(Front(rows), parents, n);
      if ActiveParentCount(Last(rows).labels, parents) == n {
        assert Bucket(rows, parents, n) == before + [Last(rows)];
        assert Front(before + [Last(rows)]) == before;
      } else {
        assert Bucket(rows, parents, n) == before;
      }
    }
  }

  lemma {:induction false} EveryRowBelow(rows: seq<Row>, parents: seq<string>, outcome: string, n: nat)
    requires n > |parents|
    ensures RowsBelow(rows, parents, n) == |rows|
    ensures OutcomesBelow(rows, parents, outcome, n) == OutcomeCount(rows, outcome)
  {
    if rows != [] {
      EveryRowBelow(Front(rows), parents, outcome, n);
    }
  }

  lemma {:induction false} NoRowBelowZero(rows: seq<Row>, parents: seq<string>, outcome: string)
    ensures RowsBelow(rows, parents, 0) == 0 && OutcomesBelow(rows, parents, outcome, 0) == 0
  {
    if rows != [] {
      NoRowBelowZero(Front(rows), parents, outcome);
    }
  }

  lemma {:induction false} SizesAreRowsBelow(rows: seq<Row>, parents: seq<string>, n: nat)
    ensures BucketSizes(rows, parents, n) == RowsBelow(rows, parents, n)
  {
    if n == 0 {
      NoRowBelowZero(rows, parents, "");
    } else {
      var m := n - 1;
      SizesAreRowsBelow(rows, parents, m);
      RowsBelowStep(rows, parents, m);
      assert BucketSizes(rows, parents, n) == BucketSizes(rows, parents, m) + |Bucket(rows, parents, m)|;
    }
  }

  lemma {:induction false} PositivesAreOutcomesBelow(rows: seq<Row>, parents: seq<string>, outcome: string, n: nat)
    ensures BucketOutcomes(rows, parents, outcome, n) == OutcomesBelow(rows, parents, outcome, n)
  {
    if n == 0 {
      NoRowBelowZero(rows, parents, outcome);
    } else {
      var m := n - 1;
      PositivesAreOutcomesBelow(rows, parents, outcome, m);
      OutcomesBelowStep(rows, parents, outcome, m);
      assert BucketOutcomes(rows, parents, outcome, n)
          == BucketOutcomes(rows, parents, outcome, m) + OutcomeCount(Bucket(rows, parents, m), outcome);
    }
  }

  /** Bucket sizes add up to the number of rows, bucket positives to the outcome's count. */
  lemma {:induction false} BucketsPartitionRows(rows: seq<Row>, parents: seq<string>, outcome: string)
    ensures BucketSizes(rows, parents, |parents| + 1) == |rows|
    ensures BucketOutcomes(rows, parents, outcome, |parents| + 1) == OutcomeCount(rows, outcome)
  {
    SizesAreRowsBelow(rows, parents, |parents| + 1);
    PositivesAreOutcomesBelow(rows, parents, outcome, |parents| + 1);
    EveryRowBelow(rows, parents, outcome, |parents| + 1);
  }

  lemma {:induction false} BucketMembers(rows: seq<Row>, parents: seq<string>, k: nat)
    ensures forall r :: r in Bucket(rows, parents, k) <==> r in rows && ActiveParentCount(r.labels, parents) == k
  {
    if rows != [] {
      BucketMembers(Front(rows), parents, k);
      assert rows == Front(rows) + [Last(rows)];
    }
  }

  // ----- prediction

  /** `outcome_likelihood_for_labels`. */
  function Likelihood(labels: map<string, int>, outcome: string, table: Table, edges: seq<Edge>): real
    requires outcome in table && table[outcome].OutcomeNode?
  {
    var parents := ParentsOf(edges, outcome);
    var k := ActiveParentCount(labels, parents);
    if parents != [] && k in table[outcome].conditional then table[outcome].conditional[k].positive
    else table[outcome].states.positive
  }

  /** On a training row the learned table answers with the estimate of exactly that row's bucket. */
  lemma {:induction false} PredictTrainingRow(rows: seq<Row>, edges: seq<Edge>, factors: seq<string>,
                                              outcomes: seq<string>,
                           alpha: real, table: Table, row: Row, outcome: string)
    requires row in rows && alpha >= 0.0 && outcome in outcomes
    requires Learned(table, rows, edges, factors, outcomes, alpha)
    ensures var parents := ParentsOf(edges, outcome);
            var bucket := Bucket(rows, parents, ActiveParentCount(row.labels, parents));
            && row in bucket
            && Likelihood(row.labels, outcome, table, edges) == Laplace(OutcomeCount(bucket, outcome), |bucket|, alpha)
  {
    var parents := ParentsOf(edges, outcome);
    var k := ActiveParentCount(row.labels, parents);
    BucketMembers(rows, parents, k);
    assert Bucket(rows, parents, k) != [];
    if parents == [] {
      BucketOfAll(rows, [], 0);
    }
  }

  lemma {:induction false} BucketOfAll(rows: seq<Row>, parents: seq<string>, k: nat)
    requires forall r :: r in rows ==> ActiveParentCount(r.labels, parents) == k
    ensures Bucket(rows, parents, k) == rows
  {
    if rows != [] {
      var before, last := Front(rows), Last(rows);
      assert rows == before + [last];
      BucketOfAll(before, parents, k);
    }
  }

  /** The calibration code first drops the labels that are not 1; predictions do not notice. */
  lemma {:induction false} DroppingInactiveLabels(labels: map<string, int>, parents: seq<string>)
    ensures ActiveParentCount(map f | f in labels && labels[f] == 1 :: labels[f], parents)
         == ActiveParentCount(labels, parents)
  {
    if parents != [] {
      DroppingInactiveLabels(labels, Front(parents));
    }
  }

  function Likelihoods(labels: map<string, int>, outcomes: seq<string>, table: Table, edges: seq<Edge>): seq<real>
    requires forall o :: o in outcomes ==> o in table && table[o].OutcomeNode?
  {
    seq(|outcomes|, i requires 0 <= i < |outcomes| => Likelihood(labels, outcomes[i], table, edges))
  }

  function Quotients(scores: seq<real>, total: real): seq<real>
    requires total != 0.0
  {
    seq(|scores|, i requires 0 <= i < |scores| => scores[i] / total)
  }

  function RoundAll(s: seq<real>): seq<real> {
    seq(|s|, i requires 0 <= i < |s| => Round(s[i], Millionths))
  }

  function TotalOrOne(scores: seq<real>): real {
    if Sum(scores) == 0.0 then 1.0 else Sum(scores)
  }

  /** The shares of the scores, all zero when the scores are, rounded to six places. */
  function Shares(scores: seq<real>): seq<real> {
    RoundAll(Quotients(scores, TotalOrOne(scores)))
  }

  /** `predict_outcome_distribution`, aligned with the outcome list. */
  function Distribution(labels: map<string, int>, outcomes: seq<string>, table: Table, edges: seq<Edge>): seq<real>
    requires forall o :: o in outcomes ==> o in table && table[o].OutcomeNode?
  {
    Shares(Likelihoods(labels, outcomes, table, edges))
  }

  lemma {:induction false} QuotientSum(scores: seq<real>, total: real)
    requires total > 0.0
    ensures Sum(Quotients(scores, total)) == Sum(scores) / total
  {
    if scores != [] {
      QuotientSum(Front(scores), total);
      assert Front(Quotients(scores, total)) == Quotients(Front(scores), total);
      DivSum(Sum(Front(scores)), Last(scores), total);
    }
  }

  lemma {:induction false} RoundedSum(exact: seq<real>)
    ensures var slack := |exact| as real * 0.0000005;
            Sum(exact) - slack <= Sum(RoundAll(exact)) <= Sum(exact) + slack
  {
    if exact != [] {
      RoundedSum(Front(exact));
      assert Front(RoundAll(exact)) == RoundAll(Front(exact));
      RoundError(Last(exact), Millionths);
    }
  }

  lemma SharesInUnit(scores: seq<real>)
    requires forall i :: 0 <= i < |scores| ==> scores[i] >= 0.0
    ensures forall i :: 0 <= i < |scores| ==> 0.0 <= Shares(scores)[i] <= 1.0
  {
    SumNonNegative(scores);
    forall i | 0 <= i < |scores| ensures 0.0 <= Shares(scores)[i] <= 1.0 {
      RoundedFraction(scores[i], TotalOrOne(scores));
    }
  }

  /** The shares of scores with a positive total add up to 1 within the rounding slack. */
  lemma {:induction false} SharesSumToOne(scores: seq<real>)
    requires Sum(scores) > 0.0
    ensures 1.0 - |scores| as real * 0.0000005 <= Sum(Shares(scores)) <= 1.0 + |scores| as real * 0.0000005
  {
    var exact := Quotients(scores, Sum(scores));
    QuotientSum(scores, Sum(scores));
    SelfQuotient(Sum(scores));
    RoundedSum(exact);
  }

  lemma SharesOfNothing(scores: seq<real>)
    requires forall i :: 0 <= i < |scores| ==> scores[i] == 0.0
    ensures Sum(Shares(scores)) == 0.0
  {
    ZeroSum(scores);
    RoundExact(0.0, 0, Millionths);
    var exact := Quotients(scores, 1.0);
    forall i | 0 <= i < |exact| ensures RoundAll(exact)[i] == 0.0 {
      assert exact[i] == 0.0;
    }
    ZeroSum(RoundAll(exact));
  }

  /** Whatever the non-negative scores, the shares never add up to more than 1 plus the slack. */
  lemma SharesSumBounded(scores: seq<real>)
    requires forall i :: 0 <= i < |scores| ==> scores[i] >= 0.0
    ensures Sum(Shares(scores)) <= 1.0 + |scores| as real * 0.0000005
  {
    SumNonNegative(scores);
    if Sum(scores) > 0.0 {
      SharesSumToOne(scores);
    } else {
      SharesOfNothing(scores);
    }
  }

  lemma RoundedFraction(a: real, b: real)
    requires 0.0 <= a <= b && b > 0.0
    ensures 0.0 <= Round(a / b, Millionths) <= 1.0
  {
    FractionInUnit(a, b);
    RoundExact(0.0, 0, Millionths);
    RoundExact(1.0, 1000000, Millionths);
    RoundMonotone(0.0, a / b, Millionths);
    RoundMonotone(a / b, 1.0, Millionths);
  }

  lemma {:induction false} ZeroSum(s: seq<real>)
    requires forall i :: 0 <= i < |s| ==> s[i] == 0.0
    ensures Sum(s) == 0.0
  {
    if s != [] {
      ZeroSum(Front(s));
    }
  }

  /** A learned table predicts a normalised distribution for any labels. */
  lemma {:induction false} LearnedDistributionSums(rows: seq<Row>, edges: seq<Edge>, factors: seq<string>,
                                                   outcomes: seq<string>,
                                alpha: real, table: Table, labels: map<string, int>)
    requires rows != [] && alpha >= 0.0 && Learned(table, rows, edges, factors, outcomes, alpha)
    ensures forall o :: o in outcomes ==> 0.0 <= Likelihood(labels, o, table, edges) <= 1.0
    ensures Sum(Likelihoods(labels, outcomes, table, edges)) > 0.0 ==>
              var slack := |outcomes| as real * 0.0000005;
              1.0 - slack <= Sum(Distribution(labels, outcomes, table, edges)) <= 1.0 + slack
  {
    forall o | o in outcomes ensures 0.0 <= Likelihood(labels, o, table, edges) <= 1.0 {
      var parents := ParentsOf(edges, o);
      var k := ActiveParentCount(labels, parents);
      EstimateIsDistribution(OutcomeCount(rows, o), |rows|, alpha);
      if Bucket(rows, parents, k) != [] {
        EstimateIsDistribution(OutcomeCount(Bucket(rows, parents, k), o), |Bucket(rows, parents, k)|, alpha);
      }
    }
    if Sum(Likelihoods(labels, outcomes, table, edges)) > 0.0 {
      SharesSumToOne(Likelihoods(labels, outcomes, table, edges));
    }
  }

  // ----- the Brier score

  function Square(x: real): real {
    x * x
  }

  function SquaredErrors(probs: seq<real>, outcomes: seq<string>, truth: string): real
    requires |probs| == |outcomes|
  {
    if probs == [] then 0.0
    else
      SquaredErrors(Front(probs), Front(outcomes), truth)
      + if Last(outcomes) == truth then Square(Last(probs) - 1.0) else Square(Last(probs))
  }

  lemma SquareBound(p: real)
    requires 0.0 <= p <= 1.0
    ensures 0.0 <= Square(p) <= p && 0.0 <= Square(p - 1.0) <= 1.0
  {
    ProductMonotone(p, p, p, 1.0);
    assert p * p <= p * 1.0;
    assert p * p <= p;
    ProductMonotone(1.0 - p, 1.0, 1.0 - p, 1.0);
    assert Square(p - 1.0) == (1.0 - p) * (1.0 - p);
  }

  lemma {:induction false} SquaredErrorsBound(probs: seq<real>, outcomes: seq<string>, truth: string)
    requires |probs| == |outcomes| && Distinct(outcomes)
    requires forall i :: 0 <= i < |probs| ==> 0.0 <= probs[i] <= 1.0
    ensures 0.0 <= SquaredErrors(probs, outcomes, truth) <= Sum(probs) + if truth in outcomes then 1.0 else 0.0
  {
    if probs != [] {
      SquaredErrorsBound(Front(probs), Front(outcomes), truth);
      LastOfDistinct(outcomes, truth);
      SquareBound(Last(probs));
    }
  }

  lemma LastOfDistinct(s: seq<string>, x: string)
    requires s != [] && Distinct(s)
    ensures Last(s) == x ==> x in s && x !in Front(s)
    ensures Last(s) != x ==> (x in s <==> x in Front(s))
  {
    assert s == Front(s) + [Last(s)];
    forall i | 0 <= i < |s| - 1 ensures Front(s)[i] != Last(s) {
      assert s[i] != s[|s| - 1];
    }
  }

  /** The score of one case: the mean squared error over the outcomes. */
  function CaseBrier(row: Row, outcomes: seq<string>, table: Table, edges: seq<Edge>): real
    requires outcomes != [] && row.outcome.Some?
    requires forall o :: o in outcomes ==> o in table && table[o].OutcomeNode?
  {
    SquaredErrors(Distribution(row.labels, outcomes, table, edges), outcomes, row.outcome.value) / |outcomes| as real
  }

  /** The scores of the cases that have a known outcome. */
  function CaseScores(rows: seq<Row>, outcomes: seq<string>, table: Table, edges: seq<Edge>): seq<real>
    requires outcomes != []
    requires forall o :: o in outcomes ==> o in table && table[o].OutcomeNode?
  {
    if rows == [] then []
    else
      var outcome := Last(rows).outcome;
      CaseScores(Front(rows), outcomes, table, edges)
      + if outcome.Some? && outcome.value != "" then [CaseBrier(Last(rows), outcomes, table, edges)] else []
  }

  /** `outcome_brier_score`. */
  method OutcomeBrierScore(rows: seq<Row>, outcomes: seq<string>, table: Table, edges: seq<Edge>) returns (score: real)
    requires outcomes != [] && Distinct(outcomes)
    requires forall o :: o in outcomes ==> o in table && table[o].OutcomeNode?
    requires LikelihoodsNonNegative(table)
    ensures var scores := CaseScores(rows, outcomes, table, edges);
            score == if scores == [] then 0.0 else Round(Sum(scores) / |scores| as real, TenThousandths)
    ensures 0.0 <= score <= Round(2.0 / |outcomes| as real + 0.0000005, TenThousandths)
  {
    var scores: seq<real> := [];
    for i := 0 to |rows|
      invariant scores == CaseScores(rows[..i], outcomes, table, edges)
    {
      assert Front(rows[..i + 1]) == rows[..i];
      var outcome := rows[i].outcome;
      if outcome.Some? && outcome.value != "" {
        scores := scores + [CaseBrier(rows[i], outcomes, table, edges)];
      }
    }
    assert rows[..|rows|] == rows;
    score := if scores == [] then 0.0 else Round(Sum(scores) / |scores| as real, TenThousandths);
    ghost var bound := 2.0 / |outcomes| as real + 0.0000005;
    CaseScoresBound(rows, outcomes, table, edges, bound);
    RoundedMeanBound(scores, bound);
  }

  ghost predicate LikelihoodsNonNegative(table: Table) {
    forall o :: o in table && table[o].OutcomeNode? ==>
      && table[o].states.positive >= 0.0
      && forall k :: k in table[o].conditional ==> table[o].conditional[k].positive >= 0.0
  }

  lemma CaseBrierBound(row: Row, outcomes: seq<string>, table: Table, edges: seq<Edge>)
    requires outcomes != [] && Distinct(outcomes) && row.outcome.Some?
    requires forall o :: o in outcomes ==> o in table && table[o].OutcomeNode?
    requires LikelihoodsNonNegative(table)
    ensures 0.0 <= CaseBrier(row, outcomes, table, edges) <= 2.0 / |outcomes| as real + 0.0000005
  {
    var scores := Likelihoods(row.labels, outcomes, table, edges);
    var probs := Shares(scores);
    var n := |outcomes| as real;
    SharesInUnit(scores);
    SharesSumBounded(scores);
    SquaredErrorsBound(probs, outcomes, row.outcome.value);
    var e := SquaredErrors(probs, outcomes, row.outcome.value);
    assert 0.0 <= e <= 2.0 + n * 0.0000005;
    DivideBound(e, n);
  }

  lemma DivideBound(e: real, n: real)
    requires n > 0.0 && 0.0 <= e <= 2.0 + n * 0.0000005
    ensures 0.0 <= e / n <= 2.0 / n + 0.0000005
  {
    DivMonotone(0.0, e, n);
    DivMonotone(e, 2.0 + n * 0.0000005, n);
    DivSum(2.0, n * 0.0000005, n);
    assert n * 0.0000005 / n == 0.0000005 && 0.0 / n == 0.0;
  }

  ghost predicate AllWithin(s: seq<real>, bound: real) {
    forall i :: 0 <= i < |s| ==> 0.0 <= s[i] <= bound
  }

  lemma {:induction false} MeanBound(s: seq<real>, bound: real)
    requires AllWithin(s, bound)
    ensures 0.0 <= Sum(s) <= bound * |s| as real
  {
    if s != [] {
      MeanBound(Front(s), bound);
    }
  }

  lemma {:induction false} CaseScoresBound(rows: seq<Row>, outcomes: seq<string>, table: Table, edges: seq<Edge>,
                                           bound: real)
    requires outcomes != [] && Distinct(outcomes) && LikelihoodsNonNegative(table)
    requires forall o :: o in outcomes ==> o in table && table[o].OutcomeNode?
    requires bound == 2.0 / |outcomes| as real + 0.0000005
    ensures AllWithin(CaseScores(rows, outcomes, table, edges), bound)
  {
    if rows != [] {
      var before := CaseScores(Front(rows), outcomes, table, edges);
      CaseScoresBound(Front(rows), outcomes, table, edges, bound);
      if Last(rows).outcome.Some? && Last(rows).outcome.value != "" {
        var last := CaseBrier(Last(rows), outcomes, table, edges);
        CaseBrierBound(Last(rows), outcomes, table, edges);
        assert CaseScores(rows, outcomes, table, edges) == before + [last];
      } else {
        assert CaseScores(rows, outcomes, table, edges) == before;
      }
    }
  }

  lemma RoundedMeanBound(scores: seq<real>, bound: real)
    requires bound >= 0.0 && AllWithin(scores, bound)
    ensures 0.0 <= Round(bound, TenThousandths)
    ensures scores != [] ==>
              0.0 <= Round(Sum(scores) / |scores| as real, TenThousandths) <= Round(bound, TenThousandths)
  {
    RoundExact(0.0, 0, TenThousandths);
    RoundMonotone(0.0, bound, TenThousandths);
    if scores != [] {
      var m := |scores| as real;
      MeanBound(scores, bound);
      MeanQuotient(Sum(scores), bound, m);
      RoundMonotone(Sum(scores) / m, bound, TenThousandths);
      RoundMonotone(0.0, Sum(scores) / m, TenThousandths);
    }
  }

  lemma MeanQuotient(total: real, bound: real, m: real)
    requires m > 0.0 && 0.0 <= total <= bound * m
    ensures 0.0 <= total / m <= bound
  {
    DivMonotone(0.0, total, m);
    DivMonotone(total, bound * m, m);
    assert bound * m / m == bound && 0.0 / m == 0.0;
  }
}
