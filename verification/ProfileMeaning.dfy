/** The three risk results spelled out: score, level and tags from the counts, the fired rules and the
    triggered factors. */
module ProfileMeaning {
  import opened Common
  import opened Facts
  import opened Rounding
  import opened Sums
  import opened RiskProfiles
  import DynamicFactors
  import RuleEngine

  /** The level bands. */
  ghost predicate InBand(score: real, level: RiskLevel) {
    match level
    case Low => score <= 30.0
    case Medium => 30.0 < score <= 60.0
    case High => 60.0 < score <= 80.0
    case Critical => 80.0 < score
  }

  ghost predicate Bands(s: real, l: RiskLevel, t: real, m: RiskLevel) {
    InBand(s, l) && InBand(t, m) && s <= t
  }

  /** The order of the levels is that of their bands. */
  lemma LevelOrder(l: RiskLevel, m: RiskLevel)
    ensures Rank(l) <= Rank(m) <==> exists s, t :: Bands(s, l, t, m)
  {
    var s := match l case Low => 0.0 case Medium => 40.0 case High => 70.0 case Critical => 90.0;
    var t := match m case Low => 0.0 case Medium => 40.0 case High => 70.0 case Critical => 90.0;
    assert Rank(l) <= Rank(m) ==> Bands(s, l, t, m);
  }

  /** `y` is `x` cut to the range from `low` to `high`. */
  ghost predicate Cut(x: real, low: real, high: real, y: real) {
    (low <= x <= high && y == x) || (x < low && y == low) || (high < x && y == high)
  }

  ghost predicate CutAbove(x: real, high: real, y: real) {
    (x <= high && y == x) || (high < x && y == high)
  }

  /** Base times factor plus bonus, cut to a percentage and rounded to two decimals; if the lift
      applies, at least 61. The level is the band of the result. */
  ghost predicate IsScore(base: real, factor: real, bonus: real, lift: bool, score: real, level: RiskLevel) {
    && InBand(score, level)
    && exists cut ::
         && Cut(base * factor + bonus, 0.0, 100.0, cut)
         && var raw := Round(cut, Hundredths);
            if lift && raw <= 60.0 then score == 61.0 else score == raw
  }

  lemma ScoreMeaning(base: real, factor: real, bonus: real, lift: bool)
    ensures var (score, level) := Floored(FinalScore(base, factor, bonus), lift);
            IsScore(base, factor, bonus, lift, score, level)
  {
    CutMeaning(base * factor + bonus);
    FinalScoreRange(base, factor, bonus);
  }

  lemma CutMeaning(x: real)
    ensures Cut(x, 0.0, 100.0, Min(100.0, Max(0.0, x)))
  {
  }

  /** The bonuses of the fired rules. */
  function Bonuses(ts: seq<RuleEngine.RuleTrigger>): (bonuses: seq<real>)
    ensures |bonuses| == |ts| && forall i :: 0 <= i < |ts| ==> bonuses[i] == ts[i].riskBonus
  {
    seq(|ts|, i requires 0 <= i < |ts| => ts[i].riskBonus)
  }

  lemma {:induction false} BonusMeaning(ts: seq<RuleEngine.RuleTrigger>)
    ensures RuleEngine.BonusOf(ts) == Sum(Bonuses(ts))
  {
    if ts != [] {
      BonusMeaning(Front(ts));
      assert Front(Bonuses(ts)) == Bonuses(Front(ts));
    }
  }

  lemma {:induction false} TagMeaning(ts: seq<RuleEngine.RuleTrigger>)
    ensures |TagsOf(ts)| == |ts| && forall i :: 0 <= i < |ts| ==> TagsOf(ts)[i] == ts[i].riskTag
  {
    if ts != [] {
      TagMeaning(Front(ts));
    }
  }

  lemma {:induction false} NameMeaning(ts: seq<DynamicFactors.Trigger>)
    ensures |FactorNames(ts)| == |ts| && forall i :: 0 <= i < |ts| ==> FactorNames(ts)[i] == ts[i].name
  {
    if ts != [] {
      NameMeaning(Front(ts));
    }
  }

  /** `tags` are the given ones followed by one for each rule. */
  ghost predicate TagsFollow(tags: seq<string>, first: seq<string>, ts: seq<RuleEngine.RuleTrigger>) {
    && |tags| == |first| + |ts|
    && (forall i :: 0 <= i < |first| ==> tags[i] == first[i])
    && forall i :: 0 <= i < |ts| ==> tags[|first| + i] == ts[i].riskTag
  }

  lemma TagsFollowMeaning(first: seq<string>, ts: seq<RuleEngine.RuleTrigger>)
    ensures TagsFollow(first + TagsOf(ts), first, ts)
  {
    TagMeaning(ts);
  }

  // ----- projects

  ghost predicate HasNumber(facts: FactTable, field: string, n: real) {
    field in facts && facts[field] == Number(n)
  }

  ghost predicate HasText(facts: FactTable, field: string, s: string) {
    field in facts && facts[field] == Text(s)
  }

  ghost predicate StatesProject(x: ProjectInputs, facts: FactTable) {
    && facts.Keys == {"hazard_overdue_count", "major_hazard_overdue_count", "equipment_overdue_count",
                      "schedule_pressure_index", "night_shift_days", "cross_operation_count", "weather_alert_level"}
    && HasNumber(facts, "hazard_overdue_count", x.hazards as real)
    && HasNumber(facts, "major_hazard_overdue_count", x.majorHazards as real)
    && HasNumber(facts, "equipment_overdue_count", x.equipment as real)
    && HasNumber(facts, "schedule_pressure_index", x.schedule)
    && HasNumber(facts, "night_shift_days", x.nightShifts as real)
    && HasNumber(facts, "cross_operation_count", x.crossOperations as real)
    && HasNumber(facts, "weather_alert_level", x.weather as real)
  }

  lemma ProjectFactsUnique(x: ProjectInputs, facts: FactTable)
    requires StatesProject(x, facts)
    ensures facts == ProjectFacts(x)
  {
    assert facts.Keys == ProjectFacts(x).Keys;
    forall k | k in facts ensures facts[k] == ProjectFacts(x)[k] {
    }
  }

  /** The coefficients of the project's type; one each where the type is not given or not configured. */
  ghost predicate Weighs(projectType: Option<string>, matrix: map<string, Coefficients>, c: Coefficients) {
    || (exists t :: projectType == Some(t) && t != "" && t in matrix && matrix[t] == c)
    || ((projectType.None? || projectType == Some("") || projectType.value !in matrix)
        && c.hazards == 1.0 && c.equipment == 1.0 && c.schedule == 1.0)
  }

  /** Eight points an overdue hazard, ten an overdue machine, one a point of schedule pressure, each
      weighted; at most sixty, rounded to two decimals. */
  ghost predicate IsProjectBase(x: ProjectInputs, c: Coefficients, base: real) {
    exists cut ::
      && CutAbove(8.0 * x.hazards as real * c.hazards + 10.0 * x.equipment as real * c.equipment
                  + x.schedule * c.schedule, 60.0, cut)
      && base == Round(cut, Hundredths)
  }

  lemma BaseMeaning(x: ProjectInputs, matrix: map<string, Coefficients>, c: Coefficients)
    requires Weighs(x.projectType, matrix, c)
    ensures IsProjectBase(x, c, BaseScore(x, matrix))
  {
    assert CoefficientsFor(x.projectType, matrix) == c;
    CutBase(WeightedSum(x, c));
    WeightedSumMeaning(x, c);
  }

  lemma CutBase(x: real)
    ensures CutAbove(x, 60.0, Min(60.0, x))
  {
  }

  lemma WeightedSumMeaning(x: ProjectInputs, c: Coefficients)
    ensures WeightedSum(x, c)
         == 8.0 * x.hazards as real * c.hazards + 10.0 * x.equipment as real * c.equipment + x.schedule * c.schedule
  {
  }

  /** A project result: it raises exactly if the factors or the project rules raise on the seven facts;
      otherwise score, level, tags and review follow from the base, the triggered factors and the fired
      rules as stated. The lift applies from a bonus of twenty. */
  lemma ProjectMeaning(x: ProjectInputs, matrix: map<string, Coefficients>, config: DynamicFactors.Config,
                       rules: seq<RuleEngine.Rule>, facts: FactTable, c: Coefficients)
    requires StatesProject(x, facts) && Weighs(x.projectType, matrix, c)
    ensures ProjectProfile(x, matrix, config, rules).Err?
       <==> DynamicFactors.Evaluated(config, facts).Err? || RuleEngine.Fired(rules, "project", facts).Err?
    ensures ProjectProfile(x, matrix, config, rules).Ok? ==>
              var p := ProjectProfile(x, matrix, config, rules).value;
              var dynamic := DynamicFactors.Evaluated(config, facts).value;
              var ts := RuleEngine.Fired(rules, "project", facts).value;
              ProjectResult(x, c, dynamic, ts, p)
  {
    ProjectFactsUnique(x, facts);
    if ProjectProfile(x, matrix, config, rules).Ok? {
      var dynamic := DynamicFactors.Evaluated(config, facts).value;
      var ts := RuleEngine.Fired(rules, "project", facts).value;
      var bonus := RuleEngine.BonusOf(ts);
      BaseMeaning(x, matrix, c);
      ScoreMeaning(BaseScore(x, matrix), dynamic.factor, bonus, bonus >= 20.0);
      BonusMeaning(ts);
      NameMeaning(dynamic.triggers);
      TagsFollowMeaning(FactorNames(dynamic.triggers), ts);
    }
  }

  ghost predicate ProjectResult(x: ProjectInputs, c: Coefficients, dynamic: DynamicFactors.Evaluation,
                                ts: seq<RuleEngine.RuleTrigger>, p: Profile) {
    var bonus := Sum(Bonuses(ts));
    && (exists base :: IsProjectBase(x, c, base)
                       && IsScore(base, dynamic.factor, bonus, bonus >= 20.0, p.score, p.level))
    && (exists names ::
          && |names| == |dynamic.triggers|
          && (forall i :: 0 <= i < |names| ==> names[i] == dynamic.triggers[i].name)
          && TagsFollow(p.tags, names, ts))
    && p.ruleTriggers == ts && p.completeness == 0.85 && (p.reviewRequired <==> bonus > 0.0)
  }

  // ----- workers

  ghost predicate StatesWorker(w: WorkerInputs, facts: FactTable) {
    && facts.Keys == {"exam_score", "violation_count_30d", "special_cert_status", "health_check_status", "entry_days"}
    && facts["exam_score"] == (if w.examScore == None then Absent else Number(w.examScore.value))
    && HasNumber(facts, "violation_count_30d", w.violations as real)
    && HasText(facts, "special_cert_status", w.certStatus)
    && HasText(facts, "health_check_status", w.healthStatus)
    && HasNumber(facts, "entry_days", w.entryDays as real)
  }

  ghost predicate FailedExam(w: WorkerInputs) {
    exists score :: w.examScore == Some(score) && score < 60.0
  }

  ghost predicate ConductPoints(violations: int, points: real) {
    || (violations <= 0 && points == 0.0)
    || (1 <= violations <= 2 && points == 12.0)
    || (3 <= violations && points == 20.0)
  }

  /** Twenty points for a failed exam; twenty for three violations, twelve for one or two. */
  ghost predicate IsWorkerBase(w: WorkerInputs, base: real) {
    exists conduct :: ConductPoints(w.violations, conduct) && base == conduct + if FailedExam(w) then 20.0 else 0.0
  }

  lemma WorkerBaseMeaning(w: WorkerInputs)
    ensures IsWorkerBase(w, WorkerBase(w))
  {
    var conduct := if w.violations >= 3 then 20.0 else if w.violations >= 1 then 12.0 else 0.0;
    assert ConductPoints(w.violations, conduct);
    assert w.examScore.Some? ==> w.examScore == Some(w.examScore.value);
  }

  /** The numbers and tags of a worker after the first week. An expired certificate or three
      violations lift the score. */
  lemma WorkerMeaning(w: WorkerInputs, facts: FactTable, ts: seq<RuleEngine.RuleTrigger>, score: real,
                      level: RiskLevel)
    requires StatesWorker(w, facts)
    requires (score, level)
          == Floored(FinalScore(WorkerBase(w), 1.0, RuleEngine.BonusOf(ts)),
                     w.certStatus == "expired" || w.violations >= 3)
    ensures facts == WorkerFacts(w)
    ensures exists base ::
              && IsWorkerBase(w, base)
              && IsScore(base, 1.0, Sum(Bonuses(ts)), w.certStatus == "expired" || w.violations >= 3, score, level)
  {
    forall k | k in facts ensures k in WorkerFacts(w) && facts[k] == WorkerFacts(w)[k] {
    }
    WorkerBaseMeaning(w);
    BonusMeaning(ts);
    ScoreMeaning(WorkerBase(w), 1.0, RuleEngine.BonusOf(ts), w.certStatus == "expired" || w.violations >= 3);
  }

  // ----- subcontractors

  ghost predicate StatesSubcontractor(s: SubcontractorInputs, facts: FactTable) {
    && facts.Keys == {"hazard_overdue_count", "major_hazard_overdue_count", "high_risk_worker_ratio",
                      "safety_license_status", "accident_history_count"}
    && HasNumber(facts, "hazard_overdue_count", s.hazards as real)
    && HasNumber(facts, "major_hazard_overdue_count", s.majorHazards as real)
    && HasNumber(facts, "high_risk_worker_ratio", s.highRiskRatio)
    && HasText(facts, "safety_license_status", s.licenseStatus)
    && HasNumber(facts, "accident_history_count", s.accidents as real)
  }

  /** The numbers of a subcontractor: six points an overdue hazard and forty times the ratio of
      high-risk workers, at most sixty; lifted from a bonus of twenty. */
  lemma SubcontractorMeaning(s: SubcontractorInputs, facts: FactTable, ts: seq<RuleEngine.RuleTrigger>, score: real,
                             level: RiskLevel)
    requires StatesSubcontractor(s, facts)
    requires var bonus := RuleEngine.BonusOf(ts);
             (score, level)
             == Floored(FinalScore(Min(60.0, s.hazards as real * 6.0 + s.highRiskRatio * 40.0), 1.0, bonus),
                        bonus >= 20.0)
    ensures facts == SubcontractorFacts(s)
    ensures var points := 6.0 * s.hazards as real + 40.0 * s.highRiskRatio;
            var bonus := Sum(Bonuses(ts));
            var lift := bonus >= 20.0;
            exists base :: CutAbove(points, 60.0, base) && IsScore(base, 1.0, bonus, lift, score, level)
  {
    forall k | k in facts ensures k in SubcontractorFacts(s) && facts[k] == SubcontractorFacts(s)[k] {
    }
    var bonus, points := RuleEngine.BonusOf(ts), s.hazards as real * 6.0 + s.highRiskRatio * 40.0;
    BonusMeaning(ts);
    CutBase(points);
    ScoreMeaning(Min(60.0, points), 1.0, bonus, bonus >= 20.0);
  }
}
