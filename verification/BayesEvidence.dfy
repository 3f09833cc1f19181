/** From risk profiles to factor evidence, and from evidence to normalised weights. */
module EvidenceMapping {
  import opened Common

  /** One profile field's contribution to one risk factor. */
  datatype Signal = Signal(factorId: string, strength: real, field: string)

  datatype Profile = Profile(dimensionScores: map<string, real>, riskLevel: Option<string>, totalScore: Option<real>,
                             highRiskWorkerRatio: Option<real>, overdueRatio: Option<real>)

  function Clamp(x: real): real {
    if x < 0.0 then 0.0 else if x > 1.0 then 1.0 else x
  }

  function Normalized(scores: map<string, real>, key: string): real {
    if key in scores then Clamp(scores[key] / 100.0) else 0.0
  }

  function LevelBoost(level: Option<string>): real {
    match level
    case None => 0.0
    case Some(l) => if l == "medium" then 0.08 else if l == "high" then 0.15 else if l == "critical" then 0.22 else 0.0
  }

  // ----- what each profile contributes, in the order of its mapping table

  function Mapped(p: Profile, table: seq<(string, string)>): seq<Signal> {
    if table == [] then []
    else Mapped(p, Front(table))
         + [Signal(Last(table).1, Normalized(p.dimensionScores, Last(table).0) + LevelBoost(p.riskLevel),
                   Last(table).0)]
  }

  const PROJECT_MAPPING := [
    ("hazard_rectification", "mgmt_rectification_gap"), ("hazard_rectification", "mgmt_oversight_gap"),
    ("equipment_mechanical", "machine_fault"), ("equipment_mechanical", "machine_maintenance_gap"),
    ("equipment_mechanical", "machine_guard_failure"), ("schedule_pressure", "mgmt_schedule_pressure"),
    ("subcontractor_transfer", "mgmt_subcontractor_weak"), ("behavior_risk", "env_cross_operation"),
    ("behavior_risk", "human_violation")]

  const WORKER_MAPPING := [
    ("exam_risk", "human_training_gap"), ("violation_risk", "human_violation"),
    ("qualification_risk", "human_uncertified"), ("health_adaptation", "human_health_mismatch")]

  const SUBCONTRACTOR_MAPPING := [
    ("qualification_risk", "mgmt_subcontractor_weak"), ("worker_management", "mgmt_subcontractor_weak"),
    ("hazard_rectification", "mgmt_rectification_gap"), ("violation_risk", "human_violation"),
    ("accident_credit", "mgmt_oversight_gap"), ("equipment_management", "machine_maintenance_gap")]

  function ProjectContributions(p: Profile): seq<Signal> {
    Mapped(p, PROJECT_MAPPING)
    + match p.totalScore
      case None => []
      case Some(t) =>
        [Signal("mgmt_oversight_gap", Clamp(t / 100.0) * 0.6 + LevelBoost(p.riskLevel), "total_risk_score")]
  }

  function WorkerContributions(p: Profile): seq<Signal> {
    Mapped(p, WORKER_MAPPING)
  }

  function RatioContribution(ratio: Option<real>, boost: real, factorId: string, field: string): seq<Signal> {
    match ratio
    case None => []
    case Some(r) => [Signal(factorId, if r + boost > 1.0 then 1.0 else r + boost, field)]
  }

  function SubcontractorContributions(p: Profile): seq<Signal> {
    Mapped(p, SUBCONTRACTOR_MAPPING)
    + RatioContribution(p.highRiskWorkerRatio, LevelBoost(p.riskLevel), "mgmt_subcontractor_weak",
                        "high_risk_worker_ratio")
    + RatioContribution(p.overdueRatio, LevelBoost(p.riskLevel), "mgmt_rectification_gap",
                        "overdue_rectification_ratio")
  }

  function AllContributions(project: Option<Profile>, worker: Option<Profile>,
                            subcontractor: Option<Profile>): seq<Signal> {
    FromProject(project) + FromWorker(worker) + FromSubcontractor(subcontractor)
  }

  function FromProject(p: Option<Profile>): seq<Signal> {
    if p.Some? then ProjectContributions(p.value) else []
  }

  function FromWorker(p: Option<Profile>): seq<Signal> {
    if p.Some? then WorkerContributions(p.value) else []
  }

  function FromSubcontractor(p: Option<Profile>): seq<Signal> {
    if p.Some? then SubcontractorContributions(p.value) else []
  }

  // ----- the flat pointwise maximum

  /** The largest clamped contribution to a factor, 0 when there is none. */
  function Strongest(cs: seq<Signal>, factor: string): real {
    if cs == [] then 0.0
    else
      var before := Strongest(Front(cs), factor);
      if Last(cs).factorId == factor && Clamp(Last(cs).strength) > before then Clamp(Last(cs).strength) else before
  }

  function FlatMax(cs: seq<Signal>): map<string, real> {
    map f | f in FactorIds(cs) && Strongest(cs, f) > 0.0 :: Strongest(cs, f)
  }

  function FactorIds(cs: seq<Signal>): set<string> {
    set c | c in cs :: c.factorId
  }

  lemma {:induction false} StrongestMeaning(cs: seq<Signal>, factor: string)
    ensures 0.0 <= Strongest(cs, factor) <= 1.0
    ensures forall c :: c in cs && c.factorId == factor ==> Clamp(c.strength) <= Strongest(cs, factor)
    ensures Strongest(cs, factor) == 0.0
         || exists c :: c in cs && c.factorId == factor && Clamp(c.strength) == Strongest(cs, factor)
  {
    if cs != [] {
      var before, last := Front(cs), Last(cs);
      assert cs == before + [last];
      StrongestMeaning(before, factor);
    }
  }

  /** The evidence map holds, for each factor with a positive contribution, the largest clamped one. */
  lemma FlatMaxIsPointwiseMaximum(cs: seq<Signal>)
    ensures forall f :: f in FlatMax(cs) <==> exists c :: c in cs && c.factorId == f && Clamp(c.strength) > 0.0
    ensures forall f :: f in FlatMax(cs) ==>
              && (forall c :: c in cs && c.factorId == f ==> Clamp(c.strength) <= FlatMax(cs)[f])
              && exists c :: c in cs && c.factorId == f && Clamp(c.strength) == FlatMax(cs)[f]
  {
    forall f ensures f in FlatMax(cs) <==> exists c :: c in cs && c.factorId == f && Clamp(c.strength) > 0.0 {
      StrongestMeaning(cs, f);
    }
    forall f | f in FlatMax(cs)
      ensures forall c :: c in cs && c.factorId == f ==> Clamp(c.strength) <= FlatMax(cs)[f]
      ensures exists c :: c in cs && c.factorId == f && Clamp(c.strength) == FlatMax(cs)[f]
    {
      StrongestMeaning(cs, f);
    }
  }

  /** Neither the order of the mappings nor the order of the profiles matters. */
  lemma FlatMaxOrderFree(a: seq<Signal>, b: seq<Signal>)
    requires multiset(a) == multiset(b)
    ensures FlatMax(a) == FlatMax(b)
  {
    forall f ensures Strongest(a, f) == Strongest(b, f) {
      StrongestBounded(a, b, f);
      StrongestBounded(b, a, f);
    }
    forall c ensures c in a <==> c in b {
      assert c in a <==> c in multiset(a);
      assert c in b <==> c in multiset(b);
    }
  }

  lemma StrongestBounded(a: seq<Signal>, b: seq<Signal>, f: string)
    requires multiset(a) == multiset(b)
    ensures Strongest(a, f) <= Strongest(b, f)
  {
    StrongestMeaning(a, f);
    StrongestMeaning(b, f);
    if Strongest(a, f) > 0.0 {
      var c :| c in a && c.factorId == f && Clamp(c.strength) == Strongest(a, f);
      assert c in multiset(b);
      assert c in b;
    }
  }

  lemma SameStrongestSameMax(a: seq<Signal>, b: seq<Signal>)
    requires forall f :: Strongest(a, f) == Strongest(b, f)
    ensures FlatMax(a) == FlatMax(b)
  {
    forall f ensures f in FlatMax(a) <==> f in FlatMax(b) {
      StrongestMeaning(a, f);
      StrongestMeaning(b, f);
    }
  }

  lemma {:induction false} StrongestConcat(a: seq<Signal>, b: seq<Signal>, f: string)
    ensures Strongest(a + b, f) == if Strongest(b, f) > Strongest(a, f) then Strongest(b, f) else Strongest(a, f)
  {
    if b == [] {
      assert a + b == a;
      StrongestMeaning(a, f);
    } else {
      assert Front(a + b) == a + Front(b) && Last(a + b) == Last(b);
      StrongestConcat(a, Front(b), f);
    }
  }

  // ----- the code: a bucket per profile, sorted, then merged across profiles

  /** `_merge_signal` on the bucket of one profile. */
  function MergeSignal(bucket: map<string, Signal>, c: Signal): map<string, Signal> {
    var s := Clamp(c.strength);
    if s <= 0.0 then bucket
    else if c.factorId !in bucket || s > bucket[c.factorId].strength then bucket[c.factorId := c.(strength := s)]
    else bucket
  }

  ghost predicate BucketOf(bucket: map<string, Signal>, cs: seq<Signal>) {
    && (forall f :: f in bucket <==> Strongest(cs, f) > 0.0)
    && (forall f :: f in bucket ==> bucket[f].factorId == f && bucket[f].strength == Strongest(cs, f))
  }

  /** Strongest first, one entry per factor. */
  ghost predicate Ranked(s: seq<Signal>) {
    forall i, j :: 0 <= i < j < |s| ==> s[i].strength >= s[j].strength && s[i].factorId != s[j].factorId
  }

  /** The extractors: merge the contributions into a bucket and list it, strongest first. */
  method ExtractSignals(contributions: seq<Signal>) returns (signals: seq<Signal>)
    ensures forall f :: Strongest(signals, f) == Strongest(contributions, f)
    ensures forall s :: s in signals ==> s.strength == Strongest(contributions, s.factorId) > 0.0
    ensures Ranked(signals)
  {
    var bucket: map<string, Signal> := map[];
    for i := 0 to |contributions|
      invariant BucketOf(bucket, contributions[..i])
    {
      assert Front(contributions[..i + 1]) == contributions[..i];
      forall f ensures 0.0 <= Strongest(contributions[..i], f) {
        StrongestMeaning(contributions[..i], f);
      }
      bucket := MergeSignal(bucket, contributions[i]);
    }
    assert contributions[..|contributions|] == contributions;
    signals := SortedValues(bucket);
    forall f ensures Strongest(signals, f) == Strongest(contributions, f) {
      StrongestMeaning(signals, f);
      StrongestMeaning(contributions, f);
      if f in bucket {
        assert bucket[f] in signals;
      }
    }
  }

  method SortedValues(bucket: map<string, Signal>) returns (sorted: seq<Signal>)
    requires forall f :: f in bucket ==> bucket[f].factorId == f
    ensures forall s :: s in sorted <==> s.factorId in bucket && bucket[s.factorId] == s
    ensures Ranked(sorted)
  {
    sorted := [];
    var rest := bucket.Keys;
    while rest != {}
      invariant rest <= bucket.Keys
      invariant forall s :: s in sorted <==> s.factorId in bucket.Keys - rest && bucket[s.factorId] == s
      invariant Ranked(sorted)
    {
      var f :| f in rest;
      rest := rest - {f};
      sorted := InsertSignal(sorted, bucket[f]);
    }
  }

  method InsertSignal(sorted: seq<Signal>, x: Signal) returns (result: seq<Signal>)
    requires Ranked(sorted)
    requires forall s :: s in sorted ==> s.factorId != x.factorId
    ensures forall s :: s in result <==> s in sorted || s == x
    ensures Ranked(result)
  {
    var k := 0;
    while k < |sorted| && sorted[k].strength >= x.strength
      invariant 0 <= k <= |sorted|
      invariant forall i :: 0 <= i < k ==> sorted[i].strength >= x.strength
    {
      k := k + 1;
    }
    result := sorted[..k] + [x] + sorted[k..];
    InsertedRanked(sorted, x, k);
    assert sorted == sorted[..k] + sorted[k..];
  }

  lemma InsertedRanked(sorted: seq<Signal>, x: Signal, k: nat)
    requires Ranked(sorted) && k <= |sorted|
    requires forall s :: s in sorted ==> s.factorId != x.factorId
    requires forall i :: 0 <= i < k ==> sorted[i].strength >= x.strength
    requires k < |sorted| ==> sorted[k].strength < x.strength
    ensures Ranked(sorted[..k] + [x] + sorted[k..])
  {
    var result := sorted[..k] + [x] + sorted[k..];
    forall i, j | 0 <= i < j < |result|
      ensures result[i].strength >= result[j].strength && result[i].factorId != result[j].factorId
    {
      var a, b := if i > k then i - 1 else i, if j > k then j - 1 else j;
      assert i != k ==> result[i] == sorted[a] && sorted[a] in sorted;
      assert j != k ==> result[j] == sorted[b] && sorted[b] in sorted;
    }
  }

  /** `merge_profile_signals`: the evidence map of all profiles together. */
  method MergeProfileSignals(project: Option<Profile>, worker: Option<Profile>, subcontractor: Option<Profile>)
    returns (merged: map<string, real>)
    ensures merged == FlatMax(AllContributions(project, worker, subcontractor))
  {
    var fromProject := ExtractSignals(FromProject(project));
    var fromWorker := ExtractSignals(FromWorker(worker));
    var fromSubcontractor := ExtractSignals(FromSubcontractor(subcontractor));
    var signals := fromProject + fromWorker + fromSubcontractor;
    forall s: Signal | s in signals ensures 0.0 < s.strength <= 1.0 {
      StrongestMeaning(FromProject(project), s.factorId);
      StrongestMeaning(FromWorker(worker), s.factorId);
      StrongestMeaning(FromSubcontractor(subcontractor), s.factorId);
    }
    merged := KeepStrongest(signals);
    ConcatSameMax(fromProject, fromWorker, fromSubcontractor,
                  FromProject(project), FromWorker(worker), FromSubcontractor(subcontractor));
  }

  lemma ConcatSameMax(a: seq<Signal>, b: seq<Signal>, c: seq<Signal>, a': seq<Signal>, b': seq<Signal>, c': seq<Signal>)
    requires forall f :: Strongest(a, f) == Strongest(a', f)
    requires forall f :: Strongest(b, f) == Strongest(b', f)
    requires forall f :: Strongest(c, f) == Strongest(c', f)
    ensures FlatMax(a + b + c) == FlatMax(a' + b' + c')
  {
    forall f ensures Strongest(a + b + c, f) == Strongest(a' + b' + c', f) {
      StrongestConcat(a, b, f);
      StrongestConcat(a + b, c, f);
      StrongestConcat(a', b', f);
      StrongestConcat(a' + b', c', f);
    }
    SameStrongestSameMax(a + b + c, a' + b' + c');
  }

  method KeepStrongest(signals: seq<Signal>) returns (merged: map<string, real>)
    requires forall s :: s in signals ==> 0.0 < s.strength <= 1.0
    ensures merged == FlatMax(signals)
  {
    merged := map[];
    for i := 0 to |signals|
      invariant merged == FlatMax(signals[..i])
    {
      var s := signals[i];
      assert signals[..i + 1] == signals[..i] + [s];
      FlatMaxAppend(signals[..i], s);
      var current := if s.factorId in merged then merged[s.factorId] else 0.0;
      merged := merged[s.factorId := if s.strength > current then s.strength else current];
    }
    assert signals[..|signals|] == signals;
  }

  lemma FlatMaxAppend(cs: seq<Signal>, s: Signal)
    requires 0.0 < s.strength <= 1.0
    ensures var current := if s.factorId in FlatMax(cs) then FlatMax(cs)[s.factorId] else 0.0;
            FlatMax(cs + [s]) == FlatMax(cs)[s.factorId := if s.strength > current then s.strength else current]
  {
    var longer := cs + [s];
    assert Front(longer) == cs && Last(longer) == s;
    StrongestMeaning(cs, s.factorId);
    assert FactorIds(longer) == FactorIds(cs) + {s.factorId} by {
      assert forall c :: c in longer <==> c in cs || c == s;
    }
    forall f ensures f in FlatMax(longer) <==> f in FlatMax(cs) || f == s.factorId {
      StrongestMeaning(cs, f);
    }
  }
}

module BayesInference {
  import opened Common
  import opened BayesTraining
  import opened NormalisedShares

  datatype Factor = Factor(id: string, prior: real)
  type Evidence = map<string, real>

  function Strength(evidence: Evidence, factor: string): real {
    if factor in evidence then evidence[factor] else 0.0
  }

  // ----- factor weights of the expert model (L2) and of the learned model (L3)

  /** Expert score: the prior, damped when evidence is weak. */
  function ExpertScore(f: Factor, evidence: Evidence): real {
    f.prior * (0.35 + 0.65 * Strength(evidence, f.id))
  }

  /** Learned score: evidence, the learned activation rate and a little of the prior. */
  function LearnedScore(f: Factor, evidence: Evidence, active: map<string, real>): real
    requires f.id in active
  {
    Strength(evidence, f.id) * 0.65 + active[f.id] * 0.35 + f.prior * 0.1
  }

  function ExpertScores(factors: seq<Factor>, evidence: Evidence): seq<real> {
    seq(|factors|, i requires 0 <= i < |factors| => ExpertScore(factors[i], evidence))
  }

  function LearnedScores(factors: seq<Factor>, evidence: Evidence, active: map<string, real>): seq<real>
    requires forall i :: 0 <= i < |factors| ==> factors[i].id in active
  {
    seq(|factors|, i requires 0 <= i < |factors| => LearnedScore(factors[i], evidence, active))
  }

  /** `_factor_weights`, in factor order. */
  method FactorWeights(factors: seq<Factor>, evidence: Evidence) returns (weights: seq<real>)
    ensures weights == Normalised(ExpertScores(factors, evidence))
  {
    var scores: seq<real> := [];
    for i := 0 to |factors|
      invariant scores == ExpertScores(factors[..i], evidence)
    {
      var score := factors[i].prior * (0.35 + 0.65 * Strength(evidence, factors[i].id));
      assert score == ExpertScore(factors[i], evidence);
      assert ExpertScores(factors[..i + 1], evidence) == ExpertScores(factors[..i], evidence) + [score];
      scores := scores + [score];
    }
    assert factors[..|factors|] == factors;
    var total := TotalOrOne(scores);
    weights := seq(|scores|, i requires 0 <= i < |scores| => scores[i] / total);
  }

  function Capped(x: real, cap: real): real {
    if x > cap then cap else x
  }

  /** The evidence with the graph's boosts added, capped at 1. */
  function Boosted(evidence: Evidence, boosts: map<string, real>): Evidence {
    map f | f in evidence.Keys + boosts.Keys ::
      if f in boosts then Capped(Strength(evidence, f) + boosts[f], 1.0) else evidence[f]
  }

  /** `_merge_graph_boosts` */
  method MergeGraphBoosts(evidence: Evidence, boosts: map<string, real>) returns (merged: Evidence)
    ensures merged == Boosted(evidence, boosts)
  {
    merged := evidence;
    var rest := boosts.Keys;
    while rest != {}
      invariant rest <= boosts.Keys
      invariant merged.Keys == evidence.Keys + (boosts.Keys - rest)
      invariant forall f :: f in merged ==>
                  merged[f] == if f in boosts.Keys - rest then Capped(Strength(evidence, f) + boosts[f], 1.0)
                               else evidence[f]
    {
      var f :| f in rest;
      merged := merged[f := Capped(Strength(merged, f) + boosts[f], 1.0)];
      rest := rest - {f};
    }
  }

  function LearnedWeights(factors: seq<Factor>, evidence: Evidence, active: map<string, real>,
                          boosts: map<string, real>): seq<real>
    requires forall i :: 0 <= i < |factors| ==> factors[i].id in active
  {
    Normalised(LearnedScores(factors, Boosted(evidence, boosts), active))
  }

  /** `_factor_scores`, in factor order. */
  method FactorScores(factors: seq<Factor>, evidence: Evidence, active: map<string, real>, boosts: map<string, real>)
    returns (weights: seq<real>)
    requires forall i :: 0 <= i < |factors| ==> factors[i].id in active
    ensures weights == LearnedWeights(factors, evidence, active, boosts)
  {
    var merged := MergeGraphBoosts(evidence, boosts);
    var scores: seq<real> := [];
    for i := 0 to |factors|
      invariant scores == LearnedScores(factors[..i], merged, active)
    {
      var f := factors[i];
      scores := scores + [Strength(merged, f.id) * 0.65 + active[f.id] * 0.35 + f.prior * 0.1];
    }
    assert factors[..|factors|] == factors;
    var total := TotalOrOne(scores);
    weights := seq(|scores|, i requires 0 <= i < |scores| => scores[i] / total);
  }

  ghost predicate DistinctIds(factors: seq<Factor>) {
    forall i, j :: 0 <= i < j < |factors| ==> factors[i].id != factors[j].id
  }

  /** Raising one factor's evidence raises its expert weight, lowers every other weight and keeps
      the order of the others. */
  lemma RaisingEvidenceExpert(factors: seq<Factor>, evidence: Evidence, i: nat, strength: real)
    requires DistinctIds(factors) && i < |factors| && |factors| > 1
    requires forall j :: 0 <= j < |factors| ==> factors[j].prior > 0.0
    requires forall f :: f in evidence ==> evidence[f] >= 0.0
    requires strength > Strength(evidence, factors[i].id)
    ensures RaisesOnly(Normalised(ExpertScores(factors, evidence)),
                       Normalised(ExpertScores(factors, evidence[factors[i].id := strength])), i)
  {
    var evidence' := evidence[factors[i].id := strength];
    var scores, scores' := ExpertScores(factors, evidence), ExpertScores(factors, evidence');
    forall j | 0 <= j < |factors| ensures scores[j] > 0.0 && (j != i ==> scores'[j] == scores[j]) {
      PositiveProduct(factors[j].prior, 0.35 + 0.65 * Strength(evidence, factors[j].id));
      if j != i {
        assert factors[j].id != factors[i].id;
      }
    }
    CompareScaled(0.35 + 0.65 * Strength(evidence, factors[i].id), 0.35 + 0.65 * strength, factors[i].prior);
    RaisedScoreRaisesOnly(scores, scores', i);
  }

  /** The graph boost already lifts the factor's evidence to the cap. */
  predicate AtCap(evidence: Evidence, boosts: map<string, real>, factor: string) {
    factor in boosts && Strength(evidence, factor) + boosts[factor] >= 1.0
  }

  lemma BoostedAfterRaise(evidence: Evidence, boosts: map<string, real>, factor: string, strength: real)
    requires strength > Strength(evidence, factor)
    ensures var before, after := Boosted(evidence, boosts), Boosted(evidence[factor := strength], boosts);
            && (forall f :: f != factor ==> Strength(after, f) == Strength(before, f))
            && (AtCap(evidence, boosts, factor) ==> Strength(after, factor) == Strength(before, factor))
            && (!AtCap(evidence, boosts, factor) ==> Strength(after, factor) > Strength(before, factor))
  {
  }

  /** The learned weights, with the graph boosts merged in: more evidence for one factor raises its
      weight, lowers every other and keeps their order, if and only if the boost has not lifted it
      to the cap already; at the cap nothing changes. */
  lemma RaisingEvidenceLearned(factors: seq<Factor>, evidence: Evidence, active: map<string, real>,
                               boosts: map<string, real>, i: nat, strength: real)
    requires DistinctIds(factors) && i < |factors| && |factors| > 1
    requires forall j :: 0 <= j < |factors| ==>
               factors[j].id in active && active[factors[j].id] >= 0.0 && factors[j].prior > 0.0
    requires forall f :: f in evidence ==> evidence[f] >= 0.0
    requires forall f :: f in boosts ==> boosts[f] >= 0.0
    requires strength > Strength(evidence, factors[i].id)
    ensures var before := LearnedWeights(factors, evidence, active, boosts);
            var after := LearnedWeights(factors, evidence[factors[i].id := strength], active, boosts);
            && (RaisesOnly(before, after, i) <==> !AtCap(evidence, boosts, factors[i].id))
            && (AtCap(evidence, boosts, factors[i].id) ==> after == before)
  {
    var merged, merged' := Boosted(evidence, boosts), Boosted(evidence[factors[i].id := strength], boosts);
    var scores, scores' := LearnedScores(factors, merged, active), LearnedScores(factors, merged', active);
    BoostedAfterRaise(evidence, boosts, factors[i].id, strength);
    forall j | 0 <= j < |factors| ensures scores[j] > 0.0 && (j != i ==> scores'[j] == scores[j]) {
      assert Strength(merged, factors[j].id) >= 0.0;
      if j != i {
        assert factors[j].id != factors[i].id;
      }
    }
    if AtCap(evidence, boosts, factors[i].id) {
      assert scores' == scores;
    } else {
      RaisedScoreRaisesOnly(scores, scores', i);
    }
  }
}
