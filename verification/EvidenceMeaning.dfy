/** The evidence map and the factor weights in terms of the profile fields. */
module EvidenceMeaning {
  import opened Common
  import opened Sums
  import opened EvidenceMapping
  import opened BayesInference
  import opened NormalisedShares

  // ----- what a profile field contributes

  /** `y` is `x` cut to the unit interval. */
  ghost predicate InUnit(x: real, y: real) {
    (0.0 <= x <= 1.0 && y == x) || (x < 0.0 && y == 0.0) || (x > 1.0 && y == 1.0)
  }

  /** The supplement of a risk level; an unknown level, a low one or none gives nothing. */
  ghost predicate Supplement(level: Option<string>, boost: real) {
    || (level == Some("medium") && boost == 0.08)
    || (level == Some("high") && boost == 0.15)
    || (level == Some("critical") && boost == 0.22)
    || (level !in {Some("medium"), Some("high"), Some("critical")} && boost == 0.0)
  }

  ghost predicate PerCent(x: real, share: real) {
    InUnit(x / 100.0, share)
  }

  ghost predicate FieldShare(p: Profile, field: string, share: real) {
    if field in p.dimensionScores then PerCent(p.dimensionScores[field], share) else share == 0.0
  }

  /** A score of the profile as a share of a hundred, supplemented for the level; a missing score counts
      as zero and is supplemented too. */
  ghost predicate FieldStrength(p: Profile, field: string, strength: real) {
    exists share, boost ::
      FieldShare(p, field, share) && Supplement(p.riskLevel, boost) && strength == share + boost
  }

  ghost predicate TotalStrength(p: Profile, total: real, strength: real) {
    exists share, boost ::
      PerCent(total, share) && Supplement(p.riskLevel, boost) && strength == share * 0.6 + boost
  }

  ghost predicate RatioStrength(p: Profile, ratio: real, strength: real) {
    exists boost ::
      && Supplement(p.riskLevel, boost)
      && ((ratio + boost <= 1.0 && strength == ratio + boost) || (ratio + boost > 1.0 && strength == 1.0))
  }

  lemma BoostMeaning(level: Option<string>)
    ensures Supplement(level, LevelBoost(level))
  {
  }

  lemma ClampMeaning(x: real)
    ensures InUnit(x, Clamp(x))
  {
  }

  /** One contribution for each row of the table: field, factor and strength. */
  ghost predicate FollowsTable(p: Profile, table: seq<(string, string)>, cs: seq<Signal>) {
    && |cs| >= |table|
    && forall i :: 0 <= i < |table| ==>
         cs[i].field == table[i].0 && cs[i].factorId == table[i].1 && FieldStrength(p, table[i].0, cs[i].strength)
  }

  lemma {:induction false} MappedMeaning(p: Profile, table: seq<(string, string)>)
    ensures |Mapped(p, table)| == |table| && FollowsTable(p, table, Mapped(p, table))
  {
    if table != [] {
      var front, last := Front(table), Last(table);
      MappedMeaning(p, front);
      RowStrength(p, last.0);
      forall i | 0 <= i < |front| ensures table[i] == front[i] {
      }
    }
  }

  lemma RowStrength(p: Profile, field: string)
    ensures FieldStrength(p, field, Normalized(p.dimensionScores, field) + LevelBoost(p.riskLevel))
  {
    if field in p.dimensionScores {
      ClampMeaning(p.dimensionScores[field] / 100.0);
    }
    assert FieldShare(p, field, Normalized(p.dimensionScores, field));
    BoostMeaning(p.riskLevel);
  }

  /** The project's rows, and its total score, weighted with 0.6, when it has one. */
  lemma ProjectMeaning(p: Profile)
    ensures var cs := ProjectContributions(p);
            && FollowsTable(p, PROJECT_MAPPING, cs)
            && |cs| == |PROJECT_MAPPING| + (if p.totalScore == None then 0 else 1)
            && (p.totalScore != None ==>
                  && Last(cs).factorId == "mgmt_oversight_gap" && Last(cs).field == "total_risk_score"
                  && TotalStrength(p, p.totalScore.value, Last(cs).strength))
  {
    MappedMeaning(p, PROJECT_MAPPING);
    BoostMeaning(p.riskLevel);
    if p.totalScore.Some? {
      ClampMeaning(p.totalScore.value / 100.0);
      assert PerCent(p.totalScore.value, Clamp(p.totalScore.value / 100.0));
    }
  }

  lemma WorkerMeaning(p: Profile)
    ensures |WorkerContributions(p)| == |WORKER_MAPPING| && FollowsTable(p, WORKER_MAPPING, WorkerContributions(p))
  {
    MappedMeaning(p, WORKER_MAPPING);
  }

  /** A contribution of one of the two ratios of a subcontractor. */
  ghost predicate IsRatio(p: Profile, ratio: Option<real>, factor: string, field: string, cs: seq<Signal>) {
    if ratio == None then cs == []
    else |cs| == 1 && cs[0].factorId == factor && cs[0].field == field
         && RatioStrength(p, ratio.value, cs[0].strength)
  }

  lemma RatioMeaning(p: Profile, ratio: Option<real>, factor: string, field: string)
    ensures IsRatio(p, ratio, factor, field, RatioContribution(ratio, LevelBoost(p.riskLevel), factor, field))
  {
    BoostMeaning(p.riskLevel);
  }

  lemma SubcontractorMeaning(p: Profile) returns (workers: seq<Signal>, overdue: seq<Signal>)
    ensures IsRatio(p, p.highRiskWorkerRatio, "mgmt_subcontractor_weak", "high_risk_worker_ratio", workers)
    ensures IsRatio(p, p.overdueRatio, "mgmt_rectification_gap", "overdue_rectification_ratio", overdue)
    ensures var cs, n := SubcontractorContributions(p), |SUBCONTRACTOR_MAPPING|;
            FollowsTable(p, SUBCONTRACTOR_MAPPING, cs) && n <= |cs| && cs[n..] == workers + overdue
  {
    MappedMeaning(p, SUBCONTRACTOR_MAPPING);
    RatioMeaning(p, p.highRiskWorkerRatio, "mgmt_subcontractor_weak", "high_risk_worker_ratio");
    RatioMeaning(p, p.overdueRatio, "mgmt_rectification_gap", "overdue_rectification_ratio");
    workers := RatioContribution(p.highRiskWorkerRatio, LevelBoost(p.riskLevel), "mgmt_subcontractor_weak",
                                 "high_risk_worker_ratio");
    overdue := RatioContribution(p.overdueRatio, LevelBoost(p.riskLevel), "mgmt_rectification_gap",
                                 "overdue_rectification_ratio");
    var mapped := Mapped(p, SUBCONTRACTOR_MAPPING);
    assert SubcontractorContributions(p) == mapped + (workers + overdue);
  }

  /** The contributions of all profiles are those of each profile that is given. */
  lemma AllContributionsMeaning(project: Option<Profile>, worker: Option<Profile>, subcontractor: Option<Profile>,
                                c: Signal)
    ensures c in AllContributions(project, worker, subcontractor)
       <==> || (project.Some? && c in ProjectContributions(project.value))
            || (worker.Some? && c in WorkerContributions(worker.value))
            || (subcontractor.Some? && c in SubcontractorContributions(subcontractor.value))
  {
  }

  /** `value` is the largest of the factor's contributions, each cut to the unit interval. */
  ghost predicate LargestFor(cs: seq<Signal>, factor: string, value: real) {
    && (exists i :: 0 <= i < |cs| && cs[i].factorId == factor && InUnit(cs[i].strength, value))
    && forall i, other :: 0 <= i < |cs| && cs[i].factorId == factor && InUnit(cs[i].strength, other) ==>
         other <= value
  }

  /** The merged evidence names exactly the factors with a positive contribution, and gives each the
      largest. */
  lemma MergedEvidence(cs: seq<Signal>, factor: string)
    ensures factor in FlatMax(cs) <==> exists i :: 0 <= i < |cs| && cs[i].factorId == factor && cs[i].strength > 0.0
    ensures factor in FlatMax(cs) ==> LargestFor(cs, factor, FlatMax(cs)[factor])
  {
    FlatMaxIsPointwiseMaximum(cs);
    if i :| 0 <= i < |cs| && cs[i].factorId == factor && cs[i].strength > 0.0 {
      assert cs[i] in cs && Clamp(cs[i].strength) > 0.0;
    }
    if factor in FlatMax(cs) {
      var c :| c in cs && c.factorId == factor && Clamp(c.strength) == FlatMax(cs)[factor];
      var k :| 0 <= k < |cs| && cs[k] == c;
      ClampMeaning(c.strength);
      assert InUnit(cs[k].strength, FlatMax(cs)[factor]);
      forall i, other | 0 <= i < |cs| && cs[i].factorId == factor && InUnit(cs[i].strength, other)
        ensures other <= FlatMax(cs)[factor]
      {
        assert cs[i] in cs && other == Clamp(cs[i].strength);
      }
    }
  }

  // ----- factor weights

  /** The evidence of a factor, zero when there is none. */
  ghost predicate Supports(evidence: Evidence, factor: string, strength: real) {
    (factor in evidence && evidence[factor] == strength) || (factor !in evidence && strength == 0.0)
  }

  /** Between 35 per cent of the prior without evidence and the whole prior with full evidence. */
  ghost predicate IsExpertScore(f: Factor, evidence: Evidence, score: real) {
    exists s :: Supports(evidence, f.id, s) && score == (1.0 - s) * (0.35 * f.prior) + s * f.prior
  }

  /** 65 per cent of the evidence, 35 of the learned rate of activation, and a tenth of the prior. */
  ghost predicate IsLearnedScore(f: Factor, evidence: Evidence, rate: real, score: real) {
    exists s :: Supports(evidence, f.id, s) && score == 0.65 * s + 0.35 * rate + f.prior / 10.0
  }

  /** Each weight is the share of its score in the total, or the score itself when the total is zero. */
  ghost predicate SharesOf(scores: seq<real>, weights: seq<real>) {
    && |weights| == |scores|
    && forall i :: 0 <= i < |scores| ==>
         weights[i] == if Sum(scores) == 0.0 then scores[i] else scores[i] / Sum(scores)
  }

  lemma NormalisedMeaning(scores: seq<real>)
    ensures SharesOf(scores, Normalised(scores))
  {
  }

  lemma ExpertScoreMeaning(f: Factor, evidence: Evidence)
    ensures IsExpertScore(f, evidence, ExpertScore(f, evidence))
  {
    var s := Strength(evidence, f.id);
    assert Supports(evidence, f.id, s);
    assert f.prior * (0.35 + 0.65 * s) == (1.0 - s) * (0.35 * f.prior) + s * f.prior;
  }

  lemma ExpertWeightMeaning(factors: seq<Factor>, evidence: Evidence) returns (scores: seq<real>)
    ensures |scores| == |factors|
    ensures forall i :: 0 <= i < |factors| ==> IsExpertScore(factors[i], evidence, scores[i])
    ensures SharesOf(scores, Normalised(ExpertScores(factors, evidence)))
  {
    scores := ExpertScores(factors, evidence);
    NormalisedMeaning(scores);
    forall i | 0 <= i < |factors| ensures IsExpertScore(factors[i], evidence, scores[i]) {
      ExpertScoreMeaning(factors[i], evidence);
    }
  }

  /** Evidence with the boosts of the graph: for a boosted factor the sum of both, at most one; any other
      factor keeps what it had. */
  ghost predicate BoostedBy(evidence: Evidence, boosts: map<string, real>, merged: Evidence) {
    && (forall f :: f in merged <==> f in evidence || f in boosts)
    && (forall f :: f in evidence && f !in boosts ==> f in merged && merged[f] == evidence[f])
    && forall f, s :: f in boosts && Supports(evidence, f, s) ==>
         && f in merged
         && (s + boosts[f] <= 1.0 ==> merged[f] == s + boosts[f])
         && (s + boosts[f] > 1.0 ==> merged[f] == 1.0)
  }

  lemma BoostedMeaning(evidence: Evidence, boosts: map<string, real>)
    ensures BoostedBy(evidence, boosts, Boosted(evidence, boosts))
  {
  }

  lemma LearnedWeightMeaning(factors: seq<Factor>, evidence: Evidence, active: map<string, real>,
                             boosts: map<string, real>)
    returns (merged: Evidence, scores: seq<real>)
    requires forall i :: 0 <= i < |factors| ==> factors[i].id in active
    ensures BoostedBy(evidence, boosts, merged) && |scores| == |factors|
    ensures forall i :: 0 <= i < |factors| ==> IsLearnedScore(factors[i], merged, active[factors[i].id], scores[i])
    ensures SharesOf(scores, LearnedWeights(factors, evidence, active, boosts))
  {
    merged := Boosted(evidence, boosts);
    BoostedMeaning(evidence, boosts);
    scores := LearnedScores(factors, merged, active);
    NormalisedMeaning(scores);
    forall i | 0 <= i < |factors| ensures IsLearnedScore(factors[i], merged, active[factors[i].id], scores[i]) {
      assert Supports(merged, factors[i].id, Strength(merged, factors[i].id));
    }
  }
}
