/** The accident probabilities that are published: the expert model (L2), the learned model (L3),
    what asking for one accident type does to them, and the propagation paths. */
module AccidentProbabilities {
  import opened Common
  import opened Rounding
  import opened Sums
  import opened StableRanking
  import opened NetworkStructure
  import opened BayesTraining
  import opened NormalisedShares
  import opened BayesInference

  const EVIDENCE_ACTIVE_THRESHOLD := 0.25
  const DEFAULT_LIKELIHOOD := 0.05
  const OTHER := "other"

  datatype Outcome = Outcome(id: string, prior: real)

  /** For each factor, the likelihood of some outcomes. */
  type LikelihoodTable = map<string, map<string, real>>

  /** A list of outcomes with a score or a probability each. */
  type Outcomes = seq<Scored<string>>

  function ScoresOf(rows: Outcomes): (scores: seq<real>)
    ensures |scores| == |rows|
  {
    seq(|rows|, i requires 0 <= i < |rows| => rows[i].score)
  }

  /** Every score over the total, rounded to four digits. */
  function Published(rows: Outcomes, total: real): (published: Outcomes)
    requires total != 0.0
    ensures |published| == |rows|
  {
    seq(|rows|, i requires 0 <= i < |rows| => Scored(rows[i].item, Round(rows[i].score / total, TenThousandths)))
  }

  // ----- publishing keeps the order and the entries

  lemma PublishedDescends(rows: Outcomes, total: real)
    requires Descending(rows) && total > 0.0
    ensures Descending(Published(rows, total))
  {
    forall i, j | 0 <= i <= j < |rows| ensures Published(rows, total)[i].score >= Published(rows, total)[j].score {
      DivMonotone(rows[j].score, rows[i].score, total);
      RoundMonotone(rows[j].score / total, rows[i].score / total, TenThousandths);
    }
  }

  lemma PublishedConcat(a: Outcomes, b: Outcomes, total: real)
    requires total != 0.0
    ensures Published(a + b, total) == Published(a, total) + Published(b, total)
  {
  }

  lemma {:induction false} PublishedIns(x: Scored<string>, rows: Outcomes, total: real)
    requires total != 0.0
    ensures multiset(Published(Ins(x, rows), total))
         == multiset(Published([x], total)) + multiset(Published(rows, total))
  {
    if rows == [] || rows[0].score <= x.score {
      PublishedConcat([x], rows, total);
      assert rows == [] ==> [x] + rows == [x];
    } else {
      PublishedIns(x, rows[1..], total);
      PublishedConcat([rows[0]], Ins(x, rows[1..]), total);
      PublishedConcat([rows[0]], rows[1..], total);
      assert rows == [rows[0]] + rows[1..];
    }
  }

  /** Ranking before publishing publishes the same entries. */
  lemma {:induction false} PublishedSort(rows: Outcomes, total: real)
    requires total != 0.0
    ensures multiset(Published(StableSort(rows), total)) == multiset(Published(rows, total))
  {
    if rows != [] {
      PublishedSort(rows[1..], total);
      PublishedIns(rows[0], StableSort(rows[1..]), total);
      PublishedConcat([rows[0]], rows[1..], total);
      assert rows == [rows[0]] + rows[1..];
    }
  }

  // ----- the expert model (L2)

  function ExpertLikelihood(table: LikelihoodTable, factor: string, outcome: string): real {
    if factor in table && outcome in table[factor] then table[factor][outcome] else DEFAULT_LIKELIHOOD
  }

  /** What the weighted factors add to an outcome's prior. */
  function Influence(factors: seq<Factor>, weights: seq<real>, table: LikelihoodTable, outcome: string): real
    requires |factors| == |weights|
  {
    if factors == [] then 0.0
    else Influence(Front(factors), Front(weights), table, outcome)
         + Last(weights) * ExpertLikelihood(table, Last(factors).id, outcome)
  }

  function RequestFactor(target: Option<string>, outcome: string): real {
    if target == Some(outcome) then 1.35 else 1.0
  }

  function ExpertOutcomeScore(o: Outcome, factors: seq<Factor>, weights: seq<real>, table: LikelihoodTable,
                              target: Option<string>): real
    requires |factors| == |weights|
  {
    (o.prior + Influence(factors, weights, table, o.id)) * RequestFactor(target, o.id)
  }

  /** The scores of the outcomes, without `other`, in outcome order. */
  function ExpertRaw(outcomes: seq<Outcome>, factors: seq<Factor>, weights: seq<real>, table: LikelihoodTable,
                     target: Option<string>): Outcomes
    requires |factors| == |weights|
  {
    if outcomes == [] then []
    else
      var o := Last(outcomes);
      ExpertRaw(Front(outcomes), factors, weights, table, target)
      + if o.id == OTHER then []
        else [Scored(o.id, ExpertOutcomeScore(o, factors, weights, table, target))]
  }

  /** `_accident_probabilities` of the expert model. */
  method ExpertProbabilities(outcomes: seq<Outcome>, factors: seq<Factor>, weights: seq<real>, table: LikelihoodTable,
                             target: Option<string>) returns (rows: Outcomes)
    requires |factors| == |weights|
    ensures var raw := ExpertRaw(outcomes, factors, weights, table, target);
            rows == Published(StableSort(raw), TotalOrOne(ScoresOf(raw)))
  {
    var raw: Outcomes := [];
    for i := 0 to |outcomes|
      invariant raw == ExpertRaw(outcomes[..i], factors, weights, table, target)
    {
      assert Front(outcomes[..i + 1]) == outcomes[..i];
      if outcomes[i].id != OTHER {
        var score := ScoreOutcome(outcomes[i], factors, weights, table, target);
        raw := raw + [Scored(outcomes[i].id, score)];
      }
    }
    assert outcomes[..|outcomes|] == outcomes;
    var total := TotalOrOne(ScoresOf(raw));
    rows := Published(StableSort(raw), total);
  }

  method ScoreOutcome(o: Outcome, factors: seq<Factor>, weights: seq<real>, table: LikelihoodTable,
                      target: Option<string>)
    returns (score: real)
    requires |factors| == |weights|
    ensures score == ExpertOutcomeScore(o, factors, weights, table, target)
  {
    score := o.prior;
    for j := 0 to |factors|
      invariant score == o.prior + Influence(factors[..j], weights[..j], table, o.id)
    {
      assert Front(factors[..j + 1]) == factors[..j] && Front(weights[..j + 1]) == weights[..j];
      score := score + weights[j] * ExpertLikelihood(table, factors[j].id, o.id);
    }
    assert factors[..|factors|] == factors && weights[..|weights|] == weights;
    if target == Some(o.id) {
      score := score * 1.35;
    }
  }

  ghost predicate DistinctOutcomes(outcomes: seq<Outcome>) {
    forall i, j :: 0 <= i < j < |outcomes| ==> outcomes[i].id != outcomes[j].id
  }

  /** A configuration with positive outcome priors and no negative likelihood. */
  ghost predicate ExpertSetup(outcomes: seq<Outcome>, table: LikelihoodTable) {
    && (forall i :: 0 <= i < |outcomes| ==> outcomes[i].prior > 0.0)
    && forall f, o :: f in table && o in table[f] ==> table[f][o] >= 0.0
  }

  lemma {:induction false} InfluenceNonNegative(factors: seq<Factor>, weights: seq<real>, table: LikelihoodTable,
                                                outcome: string)
    requires |factors| == |weights| && forall i :: 0 <= i < |weights| ==> weights[i] >= 0.0
    requires forall f, o :: f in table && o in table[f] ==> table[f][o] >= 0.0
    ensures Influence(factors, weights, table, outcome) >= 0.0
  {
    if factors != [] {
      InfluenceNonNegative(Front(factors), Front(weights), table, outcome);
      var likelihood := ExpertLikelihood(table, Last(factors).id, outcome);
      ProductMonotone(0.0, Last(weights), 0.0, likelihood);
    }
  }

  ghost predicate AllPositive(rows: Outcomes) {
    forall k :: 0 <= k < |rows| ==> rows[k].score > 0.0
  }

  lemma {:induction false} ExpertRawPositive(outcomes: seq<Outcome>, factors: seq<Factor>, weights: seq<real>,
                                             table: LikelihoodTable, target: Option<string>)
    requires |factors| == |weights| && forall i :: 0 <= i < |weights| ==> weights[i] >= 0.0
    requires ExpertSetup(outcomes, table)
    ensures AllPositive(ExpertRaw(outcomes, factors, weights, table, target))
  {
    if outcomes != [] {
      var o := Last(outcomes);
      ExpertRawPositive(Front(outcomes), factors, weights, table, target);
      InfluenceNonNegative(factors, weights, table, o.id);
      PositiveProduct(o.prior + Influence(factors, weights, table, o.id), RequestFactor(target, o.id));
    }
  }

  lemma {:induction false} RawOutcome(outcomes: seq<Outcome>, factors: seq<Factor>, weights: seq<real>,
                                      table: LikelihoodTable, target: Option<string>, k: nat) returns (i: nat)
    requires |factors| == |weights| && k < |ExpertRaw(outcomes, factors, weights, table, target)|
    ensures i < |outcomes| && outcomes[i].id == ExpertRaw(outcomes, factors, weights, table, target)[k].item
    ensures outcomes[i].id != OTHER
  {
    var before := ExpertRaw(Front(outcomes), factors, weights, table, target);
    if k < |before| {
      i := RawOutcome(Front(outcomes), factors, weights, table, target, k);
    } else {
      i := |outcomes| - 1;
    }
  }

  ghost predicate DistinctItems(rows: Outcomes) {
    forall k, n :: 0 <= k < n < |rows| ==> rows[k].item != rows[n].item
  }

  lemma {:induction false} RawItemsDistinct(outcomes: seq<Outcome>, factors: seq<Factor>, weights: seq<real>,
                                            table: LikelihoodTable, target: Option<string>)
    requires |factors| == |weights| && DistinctOutcomes(outcomes)
    ensures DistinctItems(ExpertRaw(outcomes, factors, weights, table, target))
  {
    if outcomes != [] {
      RawItemsDistinct(Front(outcomes), factors, weights, table, target);
      var before := ExpertRaw(Front(outcomes), factors, weights, table, target);
      forall k | 0 <= k < |before| ensures before[k].item != Last(outcomes).id {
        var i := RawOutcome(Front(outcomes), factors, weights, table, target, k);
        assert outcomes[i].id != outcomes[|outcomes| - 1].id;
      }
    }
  }

  /** Asking for an accident type multiplies its score by 1.35 and leaves the others alone. */
  lemma {:induction false} RequestScales(outcomes: seq<Outcome>, factors: seq<Factor>, weights: seq<real>,
                                         table: LikelihoodTable, target: string)
    requires |factors| == |weights|
    ensures var plain := ExpertRaw(outcomes, factors, weights, table, None);
            var asked := ExpertRaw(outcomes, factors, weights, table, Some(target));
            && |asked| == |plain|
            && forall k :: 0 <= k < |plain| ==>
                 && asked[k].item == plain[k].item
                 && asked[k].score == if plain[k].item == target then plain[k].score * 1.35 else plain[k].score
  {
    if outcomes != [] {
      RequestScales(Front(outcomes), factors, weights, table, target);
    }
  }

  lemma {:induction false} NormalisedNonNegative(scores: seq<real>)
    requires forall i :: 0 <= i < |scores| ==> scores[i] >= 0.0
    ensures forall i :: 0 <= i < |scores| ==> Normalised(scores)[i] >= 0.0
  {
    SumNonNegative(scores);
    forall i | 0 <= i < |scores| ensures Normalised(scores)[i] >= 0.0 {
      DivMonotone(0.0, scores[i], TotalOrOne(scores));
    }
  }

  /** The expert boost as a change of one score. */
  function ExpertBoost(scores: seq<real>, target: nat): seq<real>
    requires target < |scores|
  {
    scores[target := scores[target] * 1.35]
  }

  lemma ExpertBoostRaises(scores: seq<real>, target: nat)
    requires target < |scores| && |scores| > 1 && forall j :: 0 <= j < |scores| ==> scores[j] > 0.0
    ensures RaisesOnly(Normalised(scores), Normalised(ExpertBoost(scores, target)), target)
  {
    RaisedScoreRaisesOnly(scores, ExpertBoost(scores, target), target);
  }

  lemma WeightsNonNegative(factors: seq<Factor>, evidence: Evidence)
    requires forall f :: 0 <= f < |factors| ==> factors[f].prior > 0.0
    requires forall f :: f in evidence ==> evidence[f] >= 0.0
    ensures forall i :: 0 <= i < |factors| ==> Normalised(ExpertScores(factors, evidence))[i] >= 0.0
  {
    var scores := ExpertScores(factors, evidence);
    forall i | 0 <= i < |scores| ensures scores[i] >= 0.0 {
      PositiveProduct(factors[i].prior, 0.35 + 0.65 * Strength(evidence, factors[i].id));
    }
    NormalisedNonNegative(scores);
  }

  /** From the evidence to the shares: asking for a listed accident type raises its share and lowers
      every other, whose order it keeps. Rounded to four digits, the published probability of the
      type asked for does not fall and no other rises. */
  lemma ExpertRequestRaises(outcomes: seq<Outcome>, factors: seq<Factor>, evidence: Evidence, table: LikelihoodTable,
                            target: string, t: nat)
    requires DistinctOutcomes(outcomes) && ExpertSetup(outcomes, table)
    requires forall f :: 0 <= f < |factors| ==> factors[f].prior > 0.0
    requires forall f :: f in evidence ==> evidence[f] >= 0.0
    requires var plain := ExpertRaw(outcomes, factors, Normalised(ExpertScores(factors, evidence)), table, None);
             t < |plain| && |plain| > 1 && plain[t].item == target
    ensures var weights := Normalised(ExpertScores(factors, evidence));
            var plain := ExpertRaw(outcomes, factors, weights, table, None);
            var asked := ExpertRaw(outcomes, factors, weights, table, Some(target));
            var before, after := Normalised(ScoresOf(plain)), Normalised(ScoresOf(asked));
            && |before| == |after| == |plain| && RaisesOnly(before, after, t)
            && Round(before[t], TenThousandths) <= Round(after[t], TenThousandths)
            && forall j :: 0 <= j < |before| && j != t ==>
                 Round(after[j], TenThousandths) <= Round(before[j], TenThousandths)
  {
    var weights := Normalised(ExpertScores(factors, evidence));
    var plain := ExpertRaw(outcomes, factors, weights, table, None);
    var asked := ExpertRaw(outcomes, factors, weights, table, Some(target));
    WeightsNonNegative(factors, evidence);
    ExpertRawPositive(outcomes, factors, weights, table, None);
    RequestScales(outcomes, factors, weights, table, target);
    RawItemsDistinct(outcomes, factors, weights, table, None);
    assert ScoresOf(asked) == ExpertBoost(ScoresOf(plain), t);
    ExpertBoostRaises(ScoresOf(plain), t);
    RaisedRounded(Normalised(ScoresOf(plain)), Normalised(ScoresOf(asked)), t);
  }

  lemma RaisedRounded(before: seq<real>, after: seq<real>, t: nat)
    requires t < |before| == |after| && RaisesOnly(before, after, t)
    ensures Round(before[t], TenThousandths) <= Round(after[t], TenThousandths)
    ensures forall j :: 0 <= j < |before| && j != t ==>
              Round(after[j], TenThousandths) <= Round(before[j], TenThousandths)
  {
    RoundMonotone(before[t], after[t], TenThousandths);
    forall j | 0 <= j < |before| && j != t ensures Round(after[j], TenThousandths) <= Round(before[j], TenThousandths) {
      RoundMonotone(after[j], before[j], TenThousandths);
    }
  }

  /** The published table: the rounded shares of all listed outcomes, most probable first. */
  lemma ExpertTableMeaning(outcomes: seq<Outcome>, factors: seq<Factor>, weights: seq<real>, table: LikelihoodTable,
                           target: Option<string>)
    requires |factors| == |weights| && forall i :: 0 <= i < |weights| ==> weights[i] >= 0.0
    requires ExpertSetup(outcomes, table)
    ensures var raw := ExpertRaw(outcomes, factors, weights, table, target);
            var rows := Published(StableSort(raw), TotalOrOne(ScoresOf(raw)));
            && Descending(rows)
            && multiset(rows) == multiset(Published(raw, TotalOrOne(ScoresOf(raw))))
            && forall k :: 0 <= k < |raw| ==>
                 Published(raw, TotalOrOne(ScoresOf(raw)))[k].score
                 == Round(Normalised(ScoresOf(raw))[k], TenThousandths)
  {
    var raw := ExpertRaw(outcomes, factors, weights, table, target);
    ExpertRawPositive(outcomes, factors, weights, table, target);
    forall k | 0 <= k < |raw| ensures ScoresOf(raw)[k] >= 0.0 {
      assert raw[k].score > 0.0;
    }
    SumNonNegative(ScoresOf(raw));
    StableSortCorrect(raw);
    PublishedDescends(StableSort(raw), TotalOrOne(ScoresOf(raw)));
    PublishedSort(raw, TotalOrOne(ScoresOf(raw)));
  }

  // ----- the learned model (L3)

  /** `_evidence_to_factor_labels` */
  function LabelsOf(evidence: Evidence): map<string, int> {
    map f | f in evidence && evidence[f] >= EVIDENCE_ACTIVE_THRESHOLD :: 1
  }

  function IndexOf(outcomes: seq<string>, target: string): (i: nat)
    requires target in outcomes
    ensures i < |outcomes| && outcomes[i] == target
  {
    if outcomes[0] == target then 0 else IndexOf(outcomes[1..], target) + 1
  }

  /** The learned boost: 1.35 times the probability, capped at 0.95. */
  function LearnedBoost(distribution: seq<real>, target: nat): seq<real>
    requires target < |distribution|
  {
    distribution[target := Capped(distribution[target] * 1.35, 0.95)]
  }

  /** The distribution, boosted and normalised again when one of its outcomes is asked for. */
  function LearnedShares(d: seq<real>, outcomes: seq<string>, target: Option<string>): (shares: seq<real>)
    requires |d| == |outcomes|
    ensures |shares| == |outcomes|
  {
    if target.Some? && target.value in outcomes then Normalised(LearnedBoost(d, IndexOf(outcomes, target.value))) else d
  }

  function Zip(outcomes: seq<string>, scores: seq<real>): (rows: Outcomes)
    requires |outcomes| == |scores|
    ensures |rows| == |outcomes|
  {
    seq(|outcomes|, i requires 0 <= i < |outcomes| => Scored(outcomes[i], scores[i]))
  }

  function WithoutOther(rows: Outcomes): Outcomes {
    if rows == [] then [] else WithoutOther(Front(rows)) + if Last(rows).item == OTHER then [] else [Last(rows)]
  }

  function LearnedTable(evidence: Evidence, outcomes: seq<string>, table: Table, edges: seq<Edge>,
                        target: Option<string>)
    : Outcomes
    requires forall o :: o in outcomes ==> o in table && table[o].OutcomeNode?
  {
    var shares := LearnedShares(Distribution(LabelsOf(evidence), outcomes, table, edges), outcomes, target);
    Published(WithoutOther(StableSort(Zip(outcomes, shares))), 1.0)
  }

  /** `_accident_probabilities` of the learned model; the evidence has the graph boosts merged in. */
  method LearnedProbabilities(evidence: Evidence, outcomes: seq<string>, table: Table, edges: seq<Edge>,
                              target: Option<string>) returns (rows: Outcomes)
    requires forall o :: o in outcomes ==> o in table && table[o].OutcomeNode?
    ensures rows == LearnedTable(evidence, outcomes, table, edges, target)
  {
    var distribution := Distribution(LabelsOf(evidence), outcomes, table, edges);
    distribution := ApplyRequest(distribution, outcomes, target);
    rows := PublishListed(StableSort(Zip(outcomes, distribution)));
  }

  method ApplyRequest(distribution: seq<real>, outcomes: seq<string>, target: Option<string>)
    returns (shares: seq<real>)
    requires |distribution| == |outcomes|
    ensures shares == LearnedShares(distribution, outcomes, target)
  {
    shares := distribution;
    if target.Some? && target.value in outcomes {
      var t := IndexOf(outcomes, target.value);
      var boosted := distribution[t := Capped(distribution[t] * 1.35, 0.95)];
      var total := TotalOrOne(boosted);
      shares := seq(|boosted|, i requires 0 <= i < |boosted| => boosted[i] / total);
    }
  }

  method PublishListed(ranked: Outcomes) returns (rows: Outcomes)
    ensures rows == Published(WithoutOther(ranked), 1.0)
  {
    rows := [];
    for i := 0 to |ranked|
      invariant rows == Published(WithoutOther(ranked[..i]), 1.0)
    {
      assert Front(ranked[..i + 1]) == ranked[..i];
      if ranked[i].item != OTHER {
        PublishedConcat(WithoutOther(ranked[..i]), [ranked[i]], 1.0);
        rows := rows + [Scored(ranked[i].item, Round(ranked[i].score, TenThousandths))];
      }
    }
    assert ranked[..|ranked|] == ranked;
  }

  lemma {:induction false} WithoutOtherDescends(rows: Outcomes)
    requires Descending(rows)
    ensures Descending(WithoutOther(rows))
    ensures forall r :: r in WithoutOther(rows) <==> r in rows && r.item != OTHER
  {
    if rows != [] {
      WithoutOtherDescends(Front(rows));
      var before, last := WithoutOther(Front(rows)), Last(rows);
      assert rows == Front(rows) + [last];
      forall i | 0 <= i < |before| ensures before[i].score >= last.score {
        assert before[i] in Front(rows);
      }
    }
  }

  /** A row of the published learned table is an outcome other than `other` with its rounded share. */
  lemma LearnedRowOrigin(outcomes: seq<string>, shares: seq<real>, k: nat) returns (i: nat)
    requires |outcomes| == |shares| && k < |Published(WithoutOther(StableSort(Zip(outcomes, shares))), 1.0)|
    ensures i < |outcomes| && outcomes[i] != OTHER
    ensures Published(WithoutOther(StableSort(Zip(outcomes, shares))), 1.0)[k]
         == Scored(outcomes[i], Round(shares[i], TenThousandths))
  {
    var rows := Zip(outcomes, shares);
    var kept := WithoutOther(StableSort(rows));
    StableSortCorrect(rows);
    WithoutOtherDescends(StableSort(rows));
    assert kept[k] in kept;
    assert kept[k] in multiset(StableSort(rows));
    i :| 0 <= i < |rows| && rows[i] == kept[k];
  }

  lemma LearnedRowPresent(outcomes: seq<string>, shares: seq<real>, i: nat)
    requires |outcomes| == |shares| && i < |outcomes| && outcomes[i] != OTHER
    ensures Scored(outcomes[i], Round(shares[i], TenThousandths))
         in Published(WithoutOther(StableSort(Zip(outcomes, shares))), 1.0)
  {
    var rows := Zip(outcomes, shares);
    var kept := WithoutOther(StableSort(rows));
    StableSortCorrect(rows);
    WithoutOtherDescends(StableSort(rows));
    assert rows[i] in multiset(rows);
    assert rows[i] in StableSort(rows);
    var k :| 0 <= k < |kept| && kept[k] == rows[i];
    assert Published(kept, 1.0)[k] == Scored(outcomes[i], Round(shares[i], TenThousandths));
  }

  /** The published learned table: most probable first, and exactly the outcomes other than `other`,
      each with its rounded share. */
  lemma LearnedTableMeaning(evidence: Evidence, outcomes: seq<string>, table: Table, edges: seq<Edge>,
                            target: Option<string>)
    requires forall o :: o in outcomes ==> o in table && table[o].OutcomeNode?
    ensures var shares := LearnedShares(Distribution(LabelsOf(evidence), outcomes, table, edges), outcomes, target);
            var rows := LearnedTable(evidence, outcomes, table, edges, target);
            && Descending(rows)
            && (forall i :: 0 <= i < |outcomes| && outcomes[i] != OTHER ==>
                 Scored(outcomes[i], Round(shares[i], TenThousandths)) in rows)
            && (forall r :: r in rows ==> exists i :: 0 <= i < |outcomes| && outcomes[i] == r.item && r.item != OTHER
                                                      && r.score == Round(shares[i], TenThousandths))
  {
    var shares := LearnedShares(Distribution(LabelsOf(evidence), outcomes, table, edges), outcomes, target);
    var rows := LearnedTable(evidence, outcomes, table, edges, target);
    StableSortCorrect(Zip(outcomes, shares));
    WithoutOtherDescends(StableSort(Zip(outcomes, shares)));
    PublishedDescends(WithoutOther(StableSort(Zip(outcomes, shares))), 1.0);
    forall i | 0 <= i < |outcomes| && outcomes[i] != OTHER
      ensures Scored(outcomes[i], Round(shares[i], TenThousandths)) in rows
    {
      LearnedRowPresent(outcomes, shares, i);
    }
    forall r | r in rows
      ensures exists i :: 0 <= i < |outcomes| && outcomes[i] == r.item && r.item != OTHER
                          && r.score == Round(shares[i], TenThousandths)
    {
      var k :| 0 <= k < |rows| && rows[k] == r;
      var i := LearnedRowOrigin(outcomes, shares, k);
    }
  }

  /** The learned boost raises the requested share exactly when its probability lies strictly
      between 0 and 0.95; above 0.95 the cap lowers it. */
  lemma LearnedBoostRaisesIff(d: seq<real>, target: nat)
    requires target < |d| && Sum(d) > d[target] && forall j :: 0 <= j < |d| ==> d[j] >= 0.0
    ensures var b := LearnedBoost(d, target);
            && (Normalised(d)[target] < Normalised(b)[target] <==> 0.0 < d[target] < 0.95)
            && (Normalised(b)[target] < Normalised(d)[target] <==> d[target] > 0.95)
            && forall j :: 0 <= j < |d| && j != target && d[j] > 0.0 ==>
                 (Normalised(b)[j] < Normalised(d)[j] <==> 0.0 < d[target] < 0.95)
  {
    OneEntryMovesShares(d, target, Capped(d[target] * 1.35, 0.95));
  }

  lemma DistributionNonNegative(rows: seq<Row>, edges: seq<Edge>, factors: seq<string>, outcomes: seq<string>,
                                alpha: real, table: Table, labels: map<string, int>)
    requires rows != [] && alpha >= 0.0 && Learned(table, rows, edges, factors, outcomes, alpha)
    ensures var d := Distribution(labels, outcomes, table, edges);
            |d| == |outcomes| && forall i :: 0 <= i < |d| ==> 0.0 <= d[i] <= 1.0
  {
    LearnedDistributionSums(rows, edges, factors, outcomes, alpha, table, labels);
    SharesInUnit(Likelihoods(labels, outcomes, table, edges));
  }

  /** When nothing else carries weight, no change of the entry moves its share. */
  lemma LoneShareStays(d: seq<real>, t: nat, x: real)
    requires t < |d| && Sum(d) == d[t] && forall j :: 0 <= j < |d| ==> d[j] >= 0.0
    requires x >= 0.0 && (x == 0.0 <==> d[t] == 0.0)
    ensures Normalised(d[t := x])[t] == Normalised(d)[t]
    ensures forall j :: 0 <= j < |d| && j != t ==> d[j] == 0.0
  {
    SumUpdate(d, t, x);
    SumUpdate(d, t, 0.0);
    var others := d[t := 0.0];
    SumNonNegative(others);
    forall j | 0 <= j < |d| && j != t ensures d[j] == 0.0 {
      assert others[j] == d[j];
    }
    if x > 0.0 {
      SelfQuotient(x);
      SelfQuotient(d[t]);
    }
  }

  /** The effect of the boost on the shares of any distribution. */
  ghost predicate BoostMoves(d: seq<real>, t: nat, before: seq<real>, after: seq<real>)
    requires t < |d| == |before| == |after|
  {
    && (before[t] < after[t] <==> 0.0 < d[t] < 0.95 && d[t] < Sum(d))
    && (after[t] < before[t] <==> 0.95 < d[t] < Sum(d))
    && forall j :: 0 <= j < |d| && j != t && d[j] > 0.0 ==> (after[j] < before[j] <==> before[t] < after[t])
  }

  lemma LearnedBoostMoves(d: seq<real>, t: nat)
    requires t < |d| && forall j :: 0 <= j < |d| ==> d[j] >= 0.0
    ensures BoostMoves(d, t, Normalised(d), Normalised(LearnedBoost(d, t)))
  {
    SumNonNegative(d);
    if d[t] < Sum(d) {
      LearnedBoostRaisesIff(d, t);
    } else {
      LoneShareStays(d, t, Capped(d[t] * 1.35, 0.95));
    }
  }

  /** On a learned table and any evidence, asking for a type raises its share of the predicted
      distribution if and only if its probability is strictly between 0 and 0.95 and some other one
      is positive; it lowers the share if and only if the probability is above 0.95 and some other
      one is positive; every other positive share falls exactly when the share asked for rises. */
  lemma LearnedRequestRaisesIff(rows: seq<Row>, edges: seq<Edge>, factors: seq<string>, outcomes: seq<string>,
                                alpha: real, table: Table, evidence: Evidence, target: string)
    requires rows != [] && alpha >= 0.0 && Learned(table, rows, edges, factors, outcomes, alpha) && target in outcomes
    ensures var d := Distribution(LabelsOf(evidence), outcomes, table, edges);
            |d| == |outcomes|
            && BoostMoves(d, IndexOf(outcomes, target), Normalised(d), LearnedShares(d, outcomes, Some(target)))
  {
    DistributionNonNegative(rows, edges, factors, outcomes, alpha, table, LabelsOf(evidence));
    LearnedBoostMoves(Distribution(LabelsOf(evidence), outcomes, table, edges), IndexOf(outcomes, target));
  }

  /** When the boost gains on the published probability `p` of a distribution with this total:
      uncapped, while the total stays below `1.35 - 0.35 p`; capped, by the second inequality. */
  predicate BoostHelps(p: real, total: real) {
    if p * 1.35 <= 0.95 then 0.0 < p && total < 1.35 - 0.35 * p else p * (total - p) < 0.95 * (1.0 - p)
  }

  /** Without a request the distribution is published as it is, and its rounded entries may miss 1
      by a little. The exact condition for a request to raise that value. */
  lemma RequestRaisesPublishedIff(d: seq<real>, outcomes: seq<string>, target: string)
    requires |d| == |outcomes| && target in outcomes && forall i :: 0 <= i < |d| ==> d[i] >= 0.0
    requires Sum(d) > d[IndexOf(outcomes, target)]
    ensures var t := IndexOf(outcomes, target);
            var plain, asked := LearnedShares(d, outcomes, None)[t], LearnedShares(d, outcomes, Some(target))[t];
            plain < asked <==> BoostHelps(d[t], Sum(d))
  {
    BoostedShareIff(d, IndexOf(outcomes, target));
  }

  lemma BoostedShareIff(d: seq<real>, t: nat)
    requires t < |d| && d[t] >= 0.0 && Sum(d) > d[t]
    ensures d[t] < Normalised(LearnedBoost(d, t))[t] <==> BoostHelps(d[t], Sum(d))
  {
    var x := Capped(d[t] * 1.35, 0.95);
    BoostAgainstProbability(d[t], Sum(d), x);
    ShareAfterUpdate(d, t, x, Sum(d) - d[t] + x);
  }

  lemma ShareAfterUpdate(d: seq<real>, t: nat, x: real, total: real)
    requires t < |d| && total == Sum(d) - d[t] + x && total != 0.0
    ensures Normalised(d[t := x])[t] == x / total
  {
    var updated := d[t := x];
    SumUpdate(d, t, x);
    assert TotalOrOne(updated) == total && updated[t] == x;
  }

  lemma BoostAgainstProbability(p: real, total: real, x: real)
    requires 0.0 <= p < total && x == Capped(p * 1.35, 0.95)
    ensures total - p + x > 0.0
    ensures p < x / (total - p + x) <==> BoostHelps(p, total)
  {
    var rest := total - p;
    ShareAgainstProbability(p, rest, x);
    if p * 1.35 <= 0.95 {
      UncappedRaises(p, rest, x);
    } else {
      CappedRaises(p, rest, x);
    }
  }

  lemma CappedRaises(p: real, rest: real, x: real)
    requires x == 0.95
    ensures p * rest + p * x < x <==> p * rest < 0.95 * (1.0 - p)
  {
    var product := p * rest;
    assert p * x == p * 0.95;
  }

  lemma ShareAgainstProbability(p: real, rest: real, x: real)
    requires p >= 0.0 && rest > 0.0 && x >= 0.0
    ensures p < x / (rest + x) <==> p * rest + p * x < x
  {
    QuotientsCompare(p, 1.0, x, rest + x);
    assert p / 1.0 == p;
    Distribute(p, rest, x);
  }

  lemma UncappedRaises(p: real, rest: real, x: real)
    requires p >= 0.0 && rest > 0.0 && x == p * 1.35
    ensures p * rest + p * x < x <==> 0.0 < p && rest + p < 1.35 - 0.35 * p
  {
    var bound, left := rest + x, p * rest + p * x;
    Distribute(p, rest, x);
    assert left == p * bound;
    if p > 0.0 {
      CompareScaled(bound, 1.35, p);
      assert left < x <==> bound < 1.35;
    } else {
      assert left == 0.0;
    }
  }

  // ----- a table on which asking for a type lowers its probability

  const ACCIDENTS: seq<string> := [
    "fall_from_height", "electric_shock", "struck_by_object", "collapse", "fire", "mechanical_injury", OTHER]

  function SameCases(n: nat, outcome: string): (rows: seq<Row>)
    ensures |rows| == n
  {
    if n == 0 then [] else SameCases(n - 1, outcome) + [Row(map[], Some(outcome))]
  }

  lemma {:induction false} SameCasesCount(n: nat, outcome: string, other: string, parents: seq<string>)
    ensures OutcomeCount(SameCases(n, outcome), other) == if other == outcome then n else 0
    ensures forall r :: r in SameCases(n, outcome) ==> r.labels == map[]
  {
    if n > 0 {
      SameCasesCount(n - 1, outcome, other, parents);
      assert Front(SameCases(n, outcome)) == SameCases(n - 1, outcome);
    }
  }

  lemma {:induction false} NothingActive(parents: seq<string>)
    ensures ActiveParentCount(map[], parents) == 0
  {
    if parents != [] {
      NothingActive(Front(parents));
    }
  }

  /** A table learned from `n` like cases gives each outcome its marginal estimate, in any network. */
  lemma SameCasesLikelihood(n: nat, edges: seq<Edge>, factors: seq<string>, outcomes: seq<string>, table: Table,
                            common: string, outcome: string)
    requires n > 0 && outcome in outcomes
    requires Learned(table, SameCases(n, common), edges, factors, outcomes, 1.0)
    ensures Likelihood(map[], outcome, table, edges) == Laplace(if outcome == common then n else 0, n, 1.0)
  {
    var rows, parents := SameCases(n, common), ParentsOf(edges, outcome);
    SameCasesCount(n, common, outcome, parents);
    NothingActive(parents);
    var row := rows[0];
    assert row in rows && row.labels == map[];
    PredictTrainingRow(rows, edges, factors, outcomes, 1.0, table, row, outcome);
    BucketOfAll(rows, parents, 0);
  }

  lemma NearestOf(x: real, k: int)
    requires k as real - 0.5 < x < k as real + 0.5
    ensures Nearest(x) == k
  {
  }

  lemma SumOneMore(s: seq<real>, b: real)
    ensures Sum(s + [b]) == Sum(s) + b
  {
    assert Front(s + [b]) == s;
  }

  lemma SumOfSeven(a: real, b: real)
    ensures Sum([a, b, b, b, b, b, b]) == a + 6.0 * b
  {
    SumOneMore([], a);
    SumOneMore([a], b);
    SumOneMore([a, b], b);
    SumOneMore([a, b, b], b);
    SumOneMore([a, b, b, b], b);
    SumOneMore([a, b, b, b, b], b);
    SumOneMore([a, b, b, b, b, b], b);
    assert [] + [a] == [a] && [a] + [b] == [a, b] && [a, b] + [b] == [a, b, b] && [a, b, b] + [b] == [a, b, b, b];
    assert [a, b, b, b] + [b] == [a, b, b, b, b] && [a, b, b, b, b] + [b] == [a, b, b, b, b, b];
    assert [a, b, b, b, b, b] + [b] == [a, b, b, b, b, b, b];
  }

  lemma ExampleLikelihoods(edges: seq<Edge>, factors: seq<string>, table: Table)
    requires Learned(table, SameCases(998, ACCIDENTS[0]), edges, factors, ACCIDENTS, 1.0)
    ensures Likelihoods(map[], ACCIDENTS, table, edges) == [0.999, 0.001, 0.001, 0.001, 0.001, 0.001, 0.001]
  {
    NearestOf(9990.0, 9990);
    NearestOf(10.0, 10);
    forall i | 0 <= i < 7
      ensures Likelihood(map[], ACCIDENTS[i], table, edges) == if i == 0 then 0.999 else 0.001
    {
      SameCasesLikelihood(998, edges, factors, ACCIDENTS, table, ACCIDENTS[0], ACCIDENTS[i]);
      assert i != 0 ==> ACCIDENTS[i] != ACCIDENTS[0];
    }
  }

  lemma ExampleDistribution(edges: seq<Edge>, factors: seq<string>, table: Table)
    requires Learned(table, SameCases(998, ACCIDENTS[0]), edges, factors, ACCIDENTS, 1.0)
    ensures Distribution(LabelsOf(map[]), ACCIDENTS, table, edges)
         == [0.99403, 0.000995, 0.000995, 0.000995, 0.000995, 0.000995, 0.000995]
  {
    ExampleLikelihoods(edges, factors, table);
    assert LabelsOf(map[]) == map[];
    SumOfSeven(0.999, 0.001);
    ExampleQuotients([0.999, 0.001, 0.001, 0.001, 0.001, 0.001, 0.001]);
  }

  lemma ExampleQuotients(scores: seq<real>)
    requires scores == [0.999, 0.001, 0.001, 0.001, 0.001, 0.001, 0.001] && Sum(scores) == 1.005
    ensures Shares(scores) == [0.99403, 0.000995, 0.000995, 0.000995, 0.000995, 0.000995, 0.000995]
  {
    ExampleRounding();
    forall i | 0 <= i < 7 ensures Shares(scores)[i] == if i == 0 then 0.99403 else 0.000995 {
      assert Quotients(scores, 1.005)[i] == scores[i] / 1.005;
    }
  }

  lemma ExampleRounding()
    ensures Round(0.999 / 1.005, Millionths) == 0.99403
    ensures Round(0.001 / 1.005, Millionths) == 0.000995
  {
    NearestOf(0.999 / 1.005 * 1000000.0, 994030);
    NearestOf(0.001 / 1.005 * 1000000.0, 995);
  }

  lemma ExampleShares(d: seq<real>)
    requires d == [0.99403, 0.000995, 0.000995, 0.000995, 0.000995, 0.000995, 0.000995]
    ensures Round(LearnedShares(d, ACCIDENTS, None)[0], TenThousandths) == 0.9940
    ensures Round(LearnedShares(d, ACCIDENTS, Some(ACCIDENTS[0]))[0], TenThousandths) == 0.9938
  {
    SumOfSeven(0.95, 0.000995);
    assert LearnedBoost(d, 0) == [0.95, 0.000995, 0.000995, 0.000995, 0.000995, 0.000995, 0.000995];
    NearestOf(9940.3, 9940);
    NearestOf(0.95 / 0.95597 * 10000.0, 9938);
  }

  /** 998 recorded falls and nothing else, with the default smoothing: whatever the network, a fall
      has the predicted probability 0.99403, and asking for it publishes 0.9938 in place of 0.9940. */
  lemma CapLowersExample(edges: seq<Edge>, factors: seq<string>, table: Table)
    requires Learned(table, SameCases(998, ACCIDENTS[0]), edges, factors, ACCIDENTS, 1.0)
    ensures var d := Distribution(LabelsOf(map[]), ACCIDENTS, table, edges);
            d == [0.99403, 0.000995, 0.000995, 0.000995, 0.000995, 0.000995, 0.000995]
    ensures Scored(ACCIDENTS[0], 0.9940) in LearnedTable(map[], ACCIDENTS, table, edges, None)
    ensures Scored(ACCIDENTS[0], 0.9938) in LearnedTable(map[], ACCIDENTS, table, edges, Some(ACCIDENTS[0]))
  {
    var d := Distribution(LabelsOf(map[]), ACCIDENTS, table, edges);
    ExampleDistribution(edges, factors, table);
    ExampleShares(d);
    LearnedRowPresent(ACCIDENTS, LearnedShares(d, ACCIDENTS, None), 0);
    LearnedRowPresent(ACCIDENTS, LearnedShares(d, ACCIDENTS, Some(ACCIDENTS[0])), 0);
  }

  // ----- the outcome probability and the propagation paths use one bucket

  function ActiveByEvidence(evidence: Evidence, parents: seq<string>): nat {
    if parents == [] then 0
    else ActiveByEvidence(evidence, Front(parents))
         + if Strength(evidence, Last(parents)) >= EVIDENCE_ACTIVE_THRESHOLD then 1 else 0
  }

  lemma {:induction false} SameActiveCount(evidence: Evidence, parents: seq<string>)
    ensures ActiveByEvidence(evidence, parents) == ActiveParentCount(LabelsOf(evidence), parents)
  {
    if parents != [] {
      SameActiveCount(evidence, Front(parents));
    }
  }

  datatype Path = Path(parent: string, target: string)

  /** The likelihood the path weights are computed with. */
  function PathLikelihood(evidence: Evidence, target: string, table: Table, edges: seq<Edge>): real
    requires target in table && table[target].OutcomeNode?
  {
    var k := ActiveByEvidence(evidence, ParentsOf(edges, target));
    if k in table[target].conditional then table[target].conditional[k].positive else table[target].states.positive
  }

  /** Every path weight uses the likelihood that predicts the outcome for the same evidence. */
  lemma PathUsesOutcomeBucket(evidence: Evidence, target: string, table: Table, edges: seq<Edge>)
    requires target in table && table[target].OutcomeNode? && ParentsOf(edges, target) != []
    ensures PathLikelihood(evidence, target, table, edges) == Likelihood(LabelsOf(evidence), target, table, edges)
  {
    SameActiveCount(evidence, ParentsOf(edges, target));
  }

  /** The weight of a path from one parent. */
  function PathWeight(evidence: Evidence, parent: string, likelihood: real, table: Table): real
    requires parent in table && table[parent].FactorNode?
  {
    Round(Strength(evidence, parent) * table[parent].states.positive * likelihood, Millionths)
  }

  /** One weighted path for each parent with evidence, in parent order. */
  function PathsFrom(evidence: Evidence, parents: seq<string>, target: string, likelihood: real, table: Table)
    : seq<Scored<Path>>
    requires forall p :: p in parents ==> p in table && table[p].FactorNode?
  {
    if parents == [] then []
    else
      var p := Last(parents);
      PathsFrom(evidence, Front(parents), target, likelihood, table)
      + if Strength(evidence, p) <= 0.0 then []
        else [Scored(Path(p, target), PathWeight(evidence, p, likelihood, table))]
  }

  /** `_top_propagation_paths`: the heaviest paths, weighted with the outcome's own predicted
      likelihood, in a stable order. */
  method TopPropagationPaths(evidence: Evidence, target: string, table: Table, edges: seq<Edge>, limit: nat)
    returns (paths: seq<Scored<Path>>)
    requires target in table && table[target].OutcomeNode?
    requires forall p :: p in ParentsOf(edges, target) ==> p in table && table[p].FactorNode?
    ensures paths == Take(StableSort(PathsFrom(evidence, ParentsOf(edges, target), target,
                                               Likelihood(LabelsOf(evidence), target, table, edges), table)), limit)
  {
    var parents := ParentsOf(edges, target);
    var likelihood := PathLikelihood(evidence, target, table, edges);
    if parents != [] {
      PathUsesOutcomeBucket(evidence, target, table, edges);
    }
    paths := [];
    for i := 0 to |parents|
      invariant paths == PathsFrom(evidence, parents[..i], target, likelihood, table)
    {
      assert Front(parents[..i + 1]) == parents[..i];
      if Strength(evidence, parents[i]) > 0.0 {
        paths := paths + [Scored(Path(parents[i], target), PathWeight(evidence, parents[i], likelihood, table))];
      }
    }
    assert parents[..|parents|] == parents;
    paths := Take(StableSort(paths), limit);
  }

  /** The paths returned are the heaviest: descending, no more than the limit, all of them if they
      fit, and no path left out outweighs one returned. */
  lemma TopPathsAreHeaviest(all: seq<Scored<Path>>, limit: nat)
    ensures var top := Take(StableSort(all), limit);
            && Descending(top) && |top| == (if |all| <= limit then |all| else limit)
            && multiset(top) <= multiset(all)
            && forall p: Scored<Path>, q: Scored<Path> ::
                 p in multiset(all) - multiset(top) && q in top ==> p.score <= q.score
  {
    StableSortCorrect(all);
    assert |multiset(StableSort(all))| == |multiset(all)|;
    PrefixIsBest(StableSort(all), limit);
  }

  function CountOf(parents: seq<string>, parent: string): nat {
    if parents == [] then 0 else CountOf(Front(parents), parent) + if Last(parents) == parent then 1 else 0
  }

  function CountPaths(paths: seq<Scored<Path>>, parent: string): nat {
    if paths == [] then 0 else CountPaths(Front(paths), parent) + if Last(paths).item.parent == parent then 1 else 0
  }

  lemma CountPathsAppend(paths: seq<Scored<Path>>, path: Scored<Path>, parent: string)
    ensures CountPaths(paths + [path], parent)
         == CountPaths(paths, parent) + if path.item.parent == parent then 1 else 0
  {
    assert Front(paths + [path]) == paths;
  }

  /** Each occurrence of a parent with evidence gives one path, and nothing else does. */
  lemma {:induction false} PathsPerParent(evidence: Evidence, parents: seq<string>, target: string, likelihood: real,
                                          table: Table, parent: string)
    requires forall p :: p in parents ==> p in table && table[p].FactorNode?
    ensures CountPaths(PathsFrom(evidence, parents, target, likelihood, table), parent)
         == if Strength(evidence, parent) > 0.0 then CountOf(parents, parent) else 0
  {
    if parents != [] {
      PathsPerParent(evidence, Front(parents), target, likelihood, table, parent);
      var before, p := PathsFrom(evidence, Front(parents), target, likelihood, table), Last(parents);
      if Strength(evidence, p) > 0.0 {
        CountPathsAppend(before, Scored(Path(p, target), PathWeight(evidence, p, likelihood, table)), parent);
      } else {
        assert PathsFrom(evidence, parents, target, likelihood, table) == before;
      }
    }
  }

  lemma {:induction false} PathMeaning(evidence: Evidence, parents: seq<string>, target: string, likelihood: real,
                                       table: Table)
    requires forall p :: p in parents ==> p in table && table[p].FactorNode?
    ensures forall q :: q in PathsFrom(evidence, parents, target, likelihood, table) ==>
              && q.item.target == target && q.item.parent in parents && Strength(evidence, q.item.parent) > 0.0
              && q.score == PathWeight(evidence, q.item.parent, likelihood, table)
  {
    if parents != [] {
      PathMeaning(evidence, Front(parents), target, likelihood, table);
      assert Last(parents) in parents;
    }
  }
}
