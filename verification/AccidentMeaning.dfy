/** The accident probabilities and propagation paths in terms of the configured tables and the evidence. */
module AccidentMeaning {
  import opened Common
  import opened Rounding
  import opened Sums
  import opened StableRanking
  import opened NetworkStructure
  import opened BayesTraining
  import opened NormalisedShares
  import opened BayesInference
  import opened AccidentProbabilities
  import E = EvidenceMeaning
  import L = LearnedCounts

  // ----- the expert model

  /** The configured likelihood of an outcome under a factor, 0.05 where none is configured. */
  ghost predicate LikelihoodIs(table: LikelihoodTable, factor: string, outcome: string, x: real) {
    || (factor in table && outcome in table[factor] && table[factor][outcome] == x)
    || ((factor !in table || outcome !in table[factor]) && x == 0.05)
  }

  /** What one factor adds: its weight times the likelihood. */
  ghost predicate IsPart(table: LikelihoodTable, factor: string, weight: real, outcome: string, part: real) {
    exists x :: LikelihoodIs(table, factor, outcome, x) && part == weight * x
  }

  ghost predicate Parts(factors: seq<Factor>, weights: seq<real>, table: LikelihoodTable, outcome: string,
                        parts: seq<real>)
    requires |factors| == |weights|
  {
    && |parts| == |factors|
    && forall j :: 0 <= j < |factors| ==>
         IsPart(table, factors[j].id, weights[j], outcome, parts[j])
  }

  lemma {:induction false} InfluenceMeaning(factors: seq<Factor>, weights: seq<real>, table: LikelihoodTable,
                                            outcome: string)
    returns (parts: seq<real>)
    requires |factors| == |weights|
    ensures Parts(factors, weights, table, outcome, parts)
    ensures Influence(factors, weights, table, outcome) == Sum(parts)
  {
    parts := [];
    if factors != [] {
      var before := InfluenceMeaning(Front(factors), Front(weights), table, outcome);
      var x := ExpertLikelihood(table, Last(factors).id, outcome);
      assert LikelihoodIs(table, Last(factors).id, outcome, x);
      parts := before + [Last(weights) * x];
      assert Front(parts) == before;
      assert IsPart(table, Last(factors).id, Last(weights), outcome, Last(weights) * x);
      forall j | 0 <= j < |factors| ensures IsPart(table, factors[j].id, weights[j], outcome, parts[j]) {
        assert j < |factors| - 1 ==> Front(factors)[j] == factors[j] && Front(weights)[j] == weights[j];
      }
    }
  }

  /** The prior and all parts, times 1.35 for the type asked for. */
  ghost predicate IsOutcomeScore(o: Outcome, factors: seq<Factor>, weights: seq<real>, table: LikelihoodTable,
                                 target: Option<string>, score: real)
    requires |factors| == |weights|
  {
    exists parts ::
      && Parts(factors, weights, table, o.id, parts)
      && (target == Some(o.id) ==> score == 1.35 * (o.prior + Sum(parts)))
      && (target != Some(o.id) ==> score == o.prior + Sum(parts))
  }

  lemma OutcomeScoreMeaning(o: Outcome, factors: seq<Factor>, weights: seq<real>, table: LikelihoodTable,
                            target: Option<string>)
    requires |factors| == |weights|
    ensures IsOutcomeScore(o, factors, weights, table, target,
                           ExpertOutcomeScore(o, factors, weights, table, target))
  {
    var parts := InfluenceMeaning(factors, weights, table, o.id);
  }

  /** The listed outcomes, in order, each with its score; `other` is not listed. */
  ghost predicate ListsOutcomes(outcomes: seq<Outcome>, factors: seq<Factor>, weights: seq<real>,
                                table: LikelihoodTable, target: Option<string>, picks: seq<nat>, rows: Outcomes)
    requires |factors| == |weights|
  {
    && Ascending(picks, |outcomes|)
    && (forall i :: 0 <= i < |outcomes| ==> (i in picks <==> outcomes[i].id != "other"))
    && |rows| == |picks|
    && forall k :: 0 <= k < |rows| ==>
         && rows[k].item == outcomes[picks[k]].id
         && IsOutcomeScore(outcomes[picks[k]], factors, weights, table, target, rows[k].score)
  }

  lemma ListStep(outcomes: seq<Outcome>, factors: seq<Factor>, weights: seq<real>, table: LikelihoodTable,
                 target: Option<string>, picks: seq<nat>, rows: Outcomes, score: real)
    requires |factors| == |weights| && outcomes != []
    requires ListsOutcomes(Front(outcomes), factors, weights, table, target, picks, rows)
    requires IsOutcomeScore(Last(outcomes), factors, weights, table, target, score)
    ensures var n, last := |outcomes| - 1, Last(outcomes);
            if last.id != "other"
            then ListsOutcomes(outcomes, factors, weights, table, target, picks + [n], rows + [Scored(last.id, score)])
            else ListsOutcomes(outcomes, factors, weights, table, target, picks, rows)
  {
    var n := |outcomes| - 1;
    AppendPick(picks, n);
    forall i | 0 <= i < n ensures i in picks <==> outcomes[i].id != "other" {
      assert Front(outcomes)[i] == outcomes[i];
    }
    forall k | 0 <= k < |rows|
      ensures rows[k].item == outcomes[picks[k]].id
      ensures IsOutcomeScore(outcomes[picks[k]], factors, weights, table, target, rows[k].score)
    {
      assert Front(outcomes)[picks[k]] == outcomes[picks[k]];
    }
  }

  /** The scores the expert model ranks. */
  lemma {:induction false} ExpertRawMeaning(outcomes: seq<Outcome>, factors: seq<Factor>, weights: seq<real>,
                                            table: LikelihoodTable, target: Option<string>)
    returns (picks: seq<nat>)
    requires |factors| == |weights|
    ensures ListsOutcomes(outcomes, factors, weights, table, target, picks,
                          ExpertRaw(outcomes, factors, weights, table, target))
  {
    picks := [];
    if outcomes != [] {
      var last := Last(outcomes);
      picks := ExpertRawMeaning(Front(outcomes), factors, weights, table, target);
      OutcomeScoreMeaning(last, factors, weights, table, target);
      ListStep(outcomes, factors, weights, table, target, picks,
               ExpertRaw(Front(outcomes), factors, weights, table, target),
               ExpertOutcomeScore(last, factors, weights, table, target));
      if last.id != "other" {
        picks := picks + [|outcomes| - 1];
      }
    }
  }

  /** Publishing divides each score by the total, or by one when it is zero, and rounds to four places. */
  lemma PublishedMeaning(rows: Outcomes)
    ensures var published := Published(rows, TotalOrOne(ScoresOf(rows)));
            var scores := seq(|rows|, i requires 0 <= i < |rows| => rows[i].score);
            |published| == |rows|
            && forall i :: 0 <= i < |rows| ==>
                 && published[i].item == rows[i].item
                 && published[i].score
                    == Round(if Sum(scores) == 0.0 then rows[i].score else rows[i].score / Sum(scores), TenThousandths)
  {
    assert ScoresOf(rows) == seq(|rows|, i requires 0 <= i < |rows| => rows[i].score);
  }

  // ----- the learned model

  /** A factor counts as active from a quarter of full evidence. */
  lemma LabelMeaning(evidence: Evidence, parents: seq<string>, j: nat)
    requires j < |parents|
    ensures j in L.ActiveParents(LabelsOf(evidence), parents)
       <==> parents[j] in evidence && evidence[parents[j]] >= 0.25
  {
  }

  /** With an accident type asked for, its probability becomes 1.35 times as large, at most 0.95, and all
      are taken as shares of the new total; otherwise the distribution stays as it is. */
  lemma LearnedSharesMeaning(d: seq<real>, outcomes: seq<string>, target: Option<string>, boosted: seq<real>, t: nat)
    requires |d| == |outcomes| == |boosted|
    requires target.Some? && target.value in outcomes ==>
               && t < |outcomes| && outcomes[t] == target.value && target.value !in outcomes[..t]
               && (forall j :: 0 <= j < |d| && j != t ==> boosted[j] == d[j])
               && ((1.35 * d[t] <= 0.95 && boosted[t] == 1.35 * d[t]) || (1.35 * d[t] > 0.95 && boosted[t] == 0.95))
    ensures target.Some? && target.value in outcomes ==> E.SharesOf(boosted, LearnedShares(d, outcomes, target))
    ensures target.None? || target.value !in outcomes ==> LearnedShares(d, outcomes, target) == d
  {
    if target.Some? && target.value in outcomes {
      FirstIndex(outcomes, target.value, t);
      assert boosted == LearnedBoost(d, t);
      E.NormalisedMeaning(boosted);
    }
  }

  lemma {:induction false} FirstIndex(outcomes: seq<string>, target: string, t: nat)
    requires t < |outcomes| && outcomes[t] == target && target !in outcomes[..t]
    ensures IndexOf(outcomes, target) == t
  {
    if t > 0 {
      assert outcomes[0] in outcomes[..t];
      var rest := outcomes[1..][..t - 1];
      forall k | 0 <= k < t - 1 ensures rest[k] != target {
        assert rest[k] == outcomes[..t][k + 1];
      }
      FirstIndex(outcomes[1..], target, t - 1);
    }
  }

  // ----- propagation paths

  /** Paths start at the parents with positive evidence, in parent order. Each weighs the evidence
      times the learned rate of the parent times the likelihood, rounded to six places. */
  ghost predicate ListsPaths(evidence: Evidence, parents: seq<string>, target: string, likelihood: real, table: Table,
                             picks: seq<nat>, paths: seq<Scored<Path>>) {
    && Ascending(picks, |parents|)
    && (forall i :: 0 <= i < |parents| ==> (i in picks <==> parents[i] in evidence && evidence[parents[i]] > 0.0))
    && |paths| == |picks|
    && forall k :: 0 <= k < |paths| ==> PathFrom(evidence, parents[picks[k]], target, likelihood, table, paths[k])
  }

  ghost predicate PathFrom(evidence: Evidence, parent: string, target: string, likelihood: real, table: Table,
                           path: Scored<Path>) {
    && parent in evidence && parent in table && table[parent].FactorNode?
    && path.item.parent == parent && path.item.target == target
    && exists strength ::
         && E.Supports(evidence, parent, strength)
         && path.score == Round(strength * table[parent].states.positive * likelihood, Millionths)
  }

  lemma PathFromMeaning(evidence: Evidence, parent: string, target: string, likelihood: real, table: Table)
    requires parent in table && table[parent].FactorNode? && parent in evidence
    ensures PathFrom(evidence, parent, target, likelihood, table,
                     Scored(Path(parent, target), PathWeight(evidence, parent, likelihood, table)))
  {
    assert E.Supports(evidence, parent, Strength(evidence, parent));
  }

  lemma PathStep(evidence: Evidence, parents: seq<string>, target: string, likelihood: real, table: Table,
                 picks: seq<nat>, paths: seq<Scored<Path>>, path: Scored<Path>)
    requires parents != []
    requires ListsPaths(evidence, Front(parents), target, likelihood, table, picks, paths)
    ensures var n, last := |parents| - 1, Last(parents);
            if last in evidence && evidence[last] > 0.0
            then PathFrom(evidence, last, target, likelihood, table, path) ==>
                   ListsPaths(evidence, parents, target, likelihood, table, picks + [n], paths + [path])
            else ListsPaths(evidence, parents, target, likelihood, table, picks, paths)
  {
    var n := |parents| - 1;
    AppendPick(picks, n);
    forall i | 0 <= i < n ensures i in picks <==> parents[i] in evidence && evidence[parents[i]] > 0.0 {
      assert Front(parents)[i] == parents[i];
    }
    forall k | 0 <= k < |paths| ensures PathFrom(evidence, parents[picks[k]], target, likelihood, table, paths[k]) {
      assert Front(parents)[picks[k]] == parents[picks[k]];
    }
  }

  lemma {:induction false} PathsMeaning(evidence: Evidence, parents: seq<string>, target: string, likelihood: real,
                                        table: Table)
    returns (picks: seq<nat>)
    requires forall p :: p in parents ==> p in table && table[p].FactorNode?
    ensures ListsPaths(evidence, parents, target, likelihood, table, picks,
                       PathsFrom(evidence, parents, target, likelihood, table))
  {
    picks := [];
    if parents != [] {
      var last := Last(parents);
      picks := PathsMeaning(evidence, Front(parents), target, likelihood, table);
      PathStep(evidence, parents, target, likelihood, table, picks,
               PathsFrom(evidence, Front(parents), target, likelihood, table),
               Scored(Path(last, target), PathWeight(evidence, last, likelihood, table)));
      if last in evidence && evidence[last] > 0.0 {
        PathFromMeaning(evidence, last, target, likelihood, table);
        picks := picks + [|parents| - 1];
      }
    }
  }
}
