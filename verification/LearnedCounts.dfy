/** The numbers of a learned table, as counts over the positions of the training rows. */
module LearnedCounts {
  import opened Common
  import opened Rounding
  import opened Sums
  import opened NetworkStructure
  import opened BayesTraining

  /** The rows in which the factor is labelled 1. */
  ghost function ActiveRows(rows: seq<Row>, factor: string): set<nat> {
    set i: nat | i < |rows| && factor in rows[i].labels && rows[i].labels[factor] == 1
  }

  ghost function OutcomeRows(rows: seq<Row>, outcome: string): set<nat> {
    set i: nat | i < |rows| && rows[i].outcome == Some(outcome)
  }

  /** The places in the parent list whose factor is labelled 1; a parent named twice counts twice. */
  ghost function ActiveParents(labels: map<string, int>, parents: seq<string>): set<nat> {
    set j: nat | j < |parents| && parents[j] in labels && labels[parents[j]] == 1
  }

  ghost predicate InBucket(row: Row, parents: seq<string>, k: nat) {
    |ActiveParents(row.labels, parents)| == k
  }

  ghost function BucketRows(rows: seq<Row>, parents: seq<string>, k: nat): set<nat> {
    set i: nat | i < |rows| && InBucket(rows[i], parents, k)
  }

  /** `hits` out of `total`, smoothed by `alpha` for each of two states and rounded to four places. */
  ghost predicate IsFraction(x: real, hits: nat, total: nat, alpha: real)
    requires total > 0 && alpha >= 0.0
  {
    x == Round((hits as real + alpha) / (total as real + alpha * 2.0), TenThousandths)
  }

  ghost predicate EstimatesFraction(b: Binary, hits: nat, total: nat, alpha: real)
    requires total > 0 && alpha >= 0.0
  {
    IsFraction(b.positive, hits, total, alpha) && b.negative == 1.0 - b.positive
  }

  // ----- counting by recursion and by positions agree

  lemma OneMore(before: set<nat>, n: nat, hit: bool)
    requires forall i :: i in before ==> i < n
    ensures |before + if hit then {n} else {}| == |before| + if hit then 1 else 0
  {
  }

  lemma {:induction false} FactorCountMeaning(rows: seq<Row>, factor: string)
    ensures FactorCount(rows, factor) == |ActiveRows(rows, factor)|
  {
    if rows != [] {
      var n, before := |rows| - 1, ActiveRows(Front(rows), factor);
      FactorCountMeaning(Front(rows), factor);
      var hit := n in ActiveRows(rows, factor);
      assert ActiveRows(rows, factor) == before + if hit then {n} else {};
      OneMore(before, n, hit);
    }
  }

  lemma {:induction false} OutcomeCountMeaning(rows: seq<Row>, outcome: string)
    ensures OutcomeCount(rows, outcome) == |OutcomeRows(rows, outcome)|
  {
    if rows != [] {
      var n, before := |rows| - 1, OutcomeRows(Front(rows), outcome);
      OutcomeCountMeaning(Front(rows), outcome);
      var hit := n in OutcomeRows(rows, outcome);
      assert OutcomeRows(rows, outcome) == before + if hit then {n} else {};
      OneMore(before, n, hit);
    }
  }

  lemma {:induction false} ActiveParentsMeaning(labels: map<string, int>, parents: seq<string>)
    ensures ActiveParentCount(labels, parents) == |ActiveParents(labels, parents)|
  {
    if parents != [] {
      var n, before := |parents| - 1, ActiveParents(labels, Front(parents));
      ActiveParentsMeaning(labels, Front(parents));
      var hit := n in ActiveParents(labels, parents);
      assert ActiveParents(labels, parents) == before + if hit then {n} else {};
      OneMore(before, n, hit);
    }
  }

  lemma {:induction false} BucketMeaning(rows: seq<Row>, parents: seq<string>, k: nat, outcome: string)
    ensures |Bucket(rows, parents, k)| == |BucketRows(rows, parents, k)|
    ensures OutcomeCount(Bucket(rows, parents, k), outcome)
         == |BucketRows(rows, parents, k) * OutcomeRows(rows, outcome)|
  {
    if rows != [] {
      var front, last, n := Front(rows), Last(rows), |rows| - 1;
      BucketMeaning(front, parents, k, outcome);
      ActiveParentsMeaning(last.labels, parents);
      var before, both := BucketRows(front, parents, k), BucketRows(front, parents, k) * OutcomeRows(front, outcome);
      var hit := ActiveParentCount(last.labels, parents) == k;
      var likely := last.outcome == Some(outcome);
      PositionsStep(rows, parents, k, outcome);
      OneMore(before, n, hit);
      OneMore(both, n, hit && likely);
      BucketStep(rows, parents, k, outcome);
    }
  }

  lemma BucketRowsStep(rows: seq<Row>, parents: seq<string>, k: nat)
    requires rows != []
    ensures BucketRows(rows, parents, k)
         == BucketRows(Front(rows), parents, k) + if InBucket(Last(rows), parents, k) then {|rows| - 1} else {}
  {
    var n, front := |rows| - 1, Front(rows);
    forall i: nat
      ensures i in BucketRows(rows, parents, k)
         <==> i in BucketRows(front, parents, k) || (i == n && InBucket(Last(rows), parents, k))
    {
      assert i < n ==> front[i] == rows[i];
    }
  }

  lemma OutcomeRowsStep(rows: seq<Row>, outcome: string)
    requires rows != []
    ensures OutcomeRows(rows, outcome)
         == OutcomeRows(Front(rows), outcome) + if Last(rows).outcome == Some(outcome) then {|rows| - 1} else {}
  {
  }

  lemma PositionsStep(rows: seq<Row>, parents: seq<string>, k: nat, outcome: string)
    requires rows != []
    ensures var n, hit := |rows| - 1, InBucket(Last(rows), parents, k);
            var likely := Last(rows).outcome == Some(outcome);
            && BucketRows(rows, parents, k) == BucketRows(Front(rows), parents, k) + (if hit then {n} else {})
            && BucketRows(rows, parents, k) * OutcomeRows(rows, outcome)
               == BucketRows(Front(rows), parents, k) * OutcomeRows(Front(rows), outcome)
                  + if hit && likely then {n} else {}
  {
    BucketRowsStep(rows, parents, k);
    OutcomeRowsStep(rows, outcome);
  }

  lemma BucketStep(rows: seq<Row>, parents: seq<string>, k: nat, outcome: string)
    requires rows != []
    ensures var before := Bucket(Front(rows), parents, k);
            if ActiveParentCount(Last(rows).labels, parents) == k
            then Bucket(rows, parents, k) == before + [Last(rows)]
                 && OutcomeCount(before + [Last(rows)], outcome)
                    == OutcomeCount(before, outcome) + if Last(rows).outcome == Some(outcome) then 1 else 0
            else Bucket(rows, parents, k) == before
  {
    assert Front(Bucket(Front(rows), parents, k) + [Last(rows)]) == Bucket(Front(rows), parents, k);
  }

  /** The parents are the sources of the edges into the node, in edge order. */
  ghost predicate SourcesInto(edges: seq<Edge>, node: string, picks: seq<nat>, parents: seq<string>) {
    && Ascending(picks, |edges|)
    && (forall i :: 0 <= i < |edges| ==> (i in picks <==> edges[i].target == node))
    && |parents| == |picks| && forall k :: 0 <= k < |parents| ==> parents[k] == edges[picks[k]].source
  }

  lemma SourcesStep(edges: seq<Edge>, node: string, picks: seq<nat>, parents: seq<string>)
    requires edges != [] && SourcesInto(Front(edges), node, picks, parents)
    ensures Last(edges).target == node ==>
              SourcesInto(edges, node, picks + [|edges| - 1], parents + [Last(edges).source])
    ensures Last(edges).target != node ==> SourcesInto(edges, node, picks, parents)
  {
    AppendPick(picks, |edges| - 1);
    forall i | 0 <= i < |edges| - 1 ensures i in picks <==> edges[i].target == node {
      assert Front(edges)[i] == edges[i];
    }
    var picked, longer := picks + [|edges| - 1], parents + [Last(edges).source];
    forall k | 0 <= k < |longer| ensures longer[k] == edges[picked[k]].source {
      if k < |parents| {
        assert Front(edges)[picks[k]] == edges[picks[k]];
      }
    }
  }

  lemma {:induction false} ParentsMeaning(edges: seq<Edge>, node: string) returns (picks: seq<nat>)
    ensures SourcesInto(edges, node, picks, ParentsOf(edges, node))
  {
    picks := [];
    if edges != [] {
      var before := ParentsMeaning(Front(edges), node);
      var parents := ParentsOf(Front(edges), node);
      SourcesStep(edges, node, before, parents);
      if Last(edges).target == node {
        picks := before + [|edges| - 1];
        assert ParentsOf(edges, node) == parents + [Last(edges).source];
      } else {
        picks := before;
        assert ParentsOf(edges, node) == parents;
      }
    }
  }

  // ----- the learned table

  lemma EstimateMeaning(hits: nat, total: nat, alpha: real)
    requires total > 0 && hits <= total && alpha >= 0.0
    ensures EstimatesFraction(Estimate(hits, total, alpha), hits, total, alpha)
  {
    EstimateIsDistribution(hits, total, alpha);
  }

  ghost predicate FactorLearned(node: Node, rows: seq<Row>, factor: string, alpha: real)
    requires rows != [] && alpha >= 0.0
  {
    node.FactorNode? && EstimatesFraction(node.states, |ActiveRows(rows, factor)|, |rows|, alpha)
  }

  /** Marginal, and one conditional for each number of active parents that occurs in the rows. */
  ghost predicate OutcomeLearned(node: Node, rows: seq<Row>, edges: seq<Edge>, outcome: string, alpha: real)
    requires rows != [] && alpha >= 0.0
  {
    && node.OutcomeNode?
    && (exists picks :: SourcesInto(edges, outcome, picks, node.parents))
    && EstimatesFraction(node.states, |OutcomeRows(rows, outcome)|, |rows|, alpha)
    && (forall k :: k in node.conditional <==> node.parents != [] && BucketRows(rows, node.parents, k) != {})
    && forall k :: k in node.conditional ==>
         var bucket := BucketRows(rows, node.parents, k);
         |bucket| > 0
         && EstimatesFraction(node.conditional[k], |bucket * OutcomeRows(rows, outcome)|, |bucket|, alpha)
  }

  lemma FactorEstimateMeaning(rows: seq<Row>, factor: string, alpha: real)
    requires rows != [] && alpha >= 0.0
    ensures FactorLearned(FactorEstimate(rows, factor, alpha), rows, factor, alpha)
  {
    FactorCountMeaning(rows, factor);
    EstimateMeaning(FactorCount(rows, factor), |rows|, alpha);
  }

  lemma {:induction false} ActiveParentsBound(labels: map<string, int>, parents: seq<string>)
    ensures |ActiveParents(labels, parents)| <= |parents|
  {
    ActiveParentsMeaning(labels, parents);
  }

  lemma OutcomeEstimateMeaning(rows: seq<Row>, edges: seq<Edge>, outcome: string, alpha: real)
    requires rows != [] && alpha >= 0.0
    ensures OutcomeLearned(OutcomeEstimate(rows, edges, outcome, alpha), rows, edges, outcome, alpha)
  {
    var node, parents := OutcomeEstimate(rows, edges, outcome, alpha), ParentsOf(edges, outcome);
    var picks := ParentsMeaning(edges, outcome);
    OutcomeCountMeaning(rows, outcome);
    EstimateMeaning(OutcomeCount(rows, outcome), |rows|, alpha);
    forall k: nat ensures k in node.conditional <==> parents != [] && BucketRows(rows, parents, k) != {} {
      BucketMeaning(rows, parents, k, outcome);
      if i: nat :| i in BucketRows(rows, parents, k) {
        ActiveParentsBound(rows[i].labels, parents);
      }
    }
    forall k | k in node.conditional
      ensures var bucket := BucketRows(rows, parents, k);
              |bucket| > 0
              && EstimatesFraction(node.conditional[k], |bucket * OutcomeRows(rows, outcome)|, |bucket|, alpha)
    {
      BucketMeaning(rows, parents, k, outcome);
      var bucket := Bucket(rows, parents, k);
      EstimateMeaning(OutcomeCount(bucket, outcome), |bucket|, alpha);
    }
  }

  /** Every number of a learned table is the smoothed and rounded fraction of the rows it stands for. */
  lemma LearnedTableCounts(rows: seq<Row>, edges: seq<Edge>, factors: seq<string>, outcomes: seq<string>, alpha: real,
                           table: Table)
    requires rows != [] && alpha >= 0.0 && Learned(table, rows, edges, factors, outcomes, alpha)
    ensures forall id :: id in table <==> id in factors || id in outcomes
    ensures forall f :: f in factors && f !in outcomes ==> f in table && FactorLearned(table[f], rows, f, alpha)
    ensures forall o :: o in outcomes ==> o in table && OutcomeLearned(table[o], rows, edges, o, alpha)
  {
    forall f | f in factors && f !in outcomes ensures f in table && FactorLearned(table[f], rows, f, alpha) {
      FactorEstimateMeaning(rows, f, alpha);
    }
    forall o | o in outcomes ensures o in table && OutcomeLearned(table[o], rows, edges, o, alpha) {
      OutcomeEstimateMeaning(rows, edges, o, alpha);
    }
  }

  lemma LikelihoodOfLearned(rows: seq<Row>, edges: seq<Edge>, factors: seq<string>, outcomes: seq<string>,
                            alpha: real, table: Table, labels: map<string, int>, outcome: string)
    requires rows != [] && alpha >= 0.0 && Learned(table, rows, edges, factors, outcomes, alpha)
    requires outcome in outcomes
    ensures var node := OutcomeEstimate(rows, edges, outcome, alpha);
            var k := ActiveParentCount(labels, node.parents);
            Likelihood(labels, outcome, table, edges)
              == if k in node.conditional then node.conditional[k].positive else node.states.positive
  {
  }

  /** A prediction is the smoothed fraction of the outcome among the training rows with as many active
      parents as the case has, or among all rows if there are none such or the outcome has no parents. */
  lemma PredictionCounts(rows: seq<Row>, edges: seq<Edge>, factors: seq<string>, outcomes: seq<string>, alpha: real,
                         table: Table, labels: map<string, int>, outcome: string)
    returns (picks: seq<nat>, parents: seq<string>)
    requires rows != [] && alpha >= 0.0 && Learned(table, rows, edges, factors, outcomes, alpha)
    requires outcome in outcomes
    ensures SourcesInto(edges, outcome, picks, parents)
    ensures var bucket := BucketRows(rows, parents, |ActiveParents(labels, parents)|);
            var likely := OutcomeRows(rows, outcome);
            var prediction := Likelihood(labels, outcome, table, edges);
            if |bucket| == 0 || parents == [] then IsFraction(prediction, |likely|, |rows|, alpha)
            else IsFraction(prediction, |bucket * likely|, |bucket|, alpha)
  {
    parents := ParentsOf(edges, outcome);
    picks := ParentsMeaning(edges, outcome);
    OutcomeEstimateMeaning(rows, edges, outcome, alpha);
    ActiveParentsMeaning(labels, parents);
    LikelihoodOfLearned(rows, edges, factors, outcomes, alpha, table, labels, outcome);
  }

  // ----- the calibration score

  /** The squared distance of a probability from one, for the outcome that happened, or from zero. */
  ghost predicate IsError(p: real, happened: bool, error: real) {
    exists d :: Distance(p, happened, d) && error == d * d
  }

  ghost predicate Distance(p: real, happened: bool, d: real) {
    if happened then d == p - 1.0 else d == p
  }

  ghost predicate AreErrors(probs: seq<real>, outcomes: seq<string>, truth: string, errors: seq<real>) {
    && |errors| == |probs| == |outcomes|
    && forall j :: 0 <= j < |errors| ==> IsError(probs[j], outcomes[j] == truth, errors[j])
  }

  lemma {:induction false} ErrorsMeaning(probs: seq<real>, outcomes: seq<string>, truth: string)
    returns (errors: seq<real>)
    requires |probs| == |outcomes|
    ensures AreErrors(probs, outcomes, truth, errors) && SquaredErrors(probs, outcomes, truth) == Sum(errors)
  {
    errors := [];
    if probs != [] {
      var before := ErrorsMeaning(Front(probs), Front(outcomes), truth);
      var d := if Last(outcomes) == truth then Last(probs) - 1.0 else Last(probs);
      assert Distance(Last(probs), Last(outcomes) == truth, d);
      errors := before + [Square(d)];
      assert Front(errors) == before;
      forall j | 0 <= j < |errors| ensures IsError(probs[j], outcomes[j] == truth, errors[j]) {
        assert j < |before| ==> Front(probs)[j] == probs[j] && Front(outcomes)[j] == outcomes[j];
      }
    }
  }

  /** A case is scored when its outcome is known and named. */
  ghost predicate HasOutcome(row: Row) {
    exists truth :: row.outcome == Some(truth) && truth != ""
  }

  /** The score of a case: the mean of the errors of its predicted distribution. */
  ghost predicate IsCaseScore(row: Row, outcomes: seq<string>, table: Table, edges: seq<Edge>, score: real)
    requires outcomes != [] && forall o :: o in outcomes ==> o in table && table[o].OutcomeNode?
  {
    exists truth, errors ::
      && row.outcome == Some(truth)
      && AreErrors(Distribution(row.labels, outcomes, table, edges), outcomes, truth, errors)
      && score == Sum(errors) / |outcomes| as real
  }

  lemma CaseScoreMeaning(row: Row, outcomes: seq<string>, table: Table, edges: seq<Edge>)
    requires outcomes != [] && row.outcome.Some?
    requires forall o :: o in outcomes ==> o in table && table[o].OutcomeNode?
    ensures IsCaseScore(row, outcomes, table, edges, CaseBrier(row, outcomes, table, edges))
  {
    var truth := row.outcome.value;
    var errors := ErrorsMeaning(Distribution(row.labels, outcomes, table, edges), outcomes, truth);
  }

  /** One score for each case with an outcome, in order. */
  ghost predicate ScoresPicked(rows: seq<Row>, outcomes: seq<string>, table: Table, edges: seq<Edge>,
                               picks: seq<nat>, scores: seq<real>)
    requires outcomes != [] && forall o :: o in outcomes ==> o in table && table[o].OutcomeNode?
  {
    && Ascending(picks, |rows|)
    && (forall i :: 0 <= i < |rows| ==> (i in picks <==> HasOutcome(rows[i])))
    && |scores| == |picks|
    && forall k :: 0 <= k < |scores| ==> IsCaseScore(rows[picks[k]], outcomes, table, edges, scores[k])
  }

  lemma ScoreStep(rows: seq<Row>, outcomes: seq<string>, table: Table, edges: seq<Edge>, picks: seq<nat>,
                  scores: seq<real>, score: real)
    requires outcomes != [] && forall o :: o in outcomes ==> o in table && table[o].OutcomeNode?
    requires rows != [] && ScoresPicked(Front(rows), outcomes, table, edges, picks, scores)
    ensures HasOutcome(Last(rows)) && IsCaseScore(Last(rows), outcomes, table, edges, score) ==>
              ScoresPicked(rows, outcomes, table, edges, picks + [|rows| - 1], scores + [score])
    ensures !HasOutcome(Last(rows)) ==> ScoresPicked(rows, outcomes, table, edges, picks, scores)
  {
    AppendPick(picks, |rows| - 1);
    forall i | 0 <= i < |rows| - 1 ensures i in picks <==> HasOutcome(rows[i]) {
      assert Front(rows)[i] == rows[i];
    }
    forall k | 0 <= k < |scores| ensures IsCaseScore(rows[picks[k]], outcomes, table, edges, scores[k]) {
      assert Front(rows)[picks[k]] == rows[picks[k]];
    }
  }

  /** The scores that the calibration averages. */
  lemma {:induction false} CaseScoresMeaning(rows: seq<Row>, outcomes: seq<string>, table: Table, edges: seq<Edge>)
    returns (picks: seq<nat>)
    requires outcomes != [] && forall o :: o in outcomes ==> o in table && table[o].OutcomeNode?
    ensures ScoresPicked(rows, outcomes, table, edges, picks, CaseScores(rows, outcomes, table, edges))
  {
    picks := [];
    if rows != [] {
      var last := Last(rows);
      picks := CaseScoresMeaning(Front(rows), outcomes, table, edges);
      var scores := CaseScores(Front(rows), outcomes, table, edges);
      if HasOutcome(last) {
        var score := CaseBrier(last, outcomes, table, edges);
        CaseScoreMeaning(last, outcomes, table, edges);
        ScoreStep(rows, outcomes, table, edges, picks, scores, score);
        picks := picks + [|rows| - 1];
        assert CaseScores(rows, outcomes, table, edges) == scores + [score];
      } else {
        ScoreStep(rows, outcomes, table, edges, picks, scores, 0.0);
        assert last.outcome.None? || last.outcome == Some("");
        assert CaseScores(rows, outcomes, table, edges) == scores;
      }
    }
  }
}
