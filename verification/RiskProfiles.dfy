/** The three risk calculators: weighted base, dynamic factor, rule bonus, clamp, rounding, floor. */
module RiskProfiles {
  import opened Common
  import opened Facts
  import opened Rounding
  import opened Sums
  import DynamicFactors
  import RuleEngine

  datatype RiskLevel = Low | Medium | High | Critical

  function Rank(l: RiskLevel): nat {
    match l case Low => 0 case Medium => 1 case High => 2 case Critical => 3
  }

  function LevelForScore(score: real): RiskLevel {
    if score <= 30.0 then Low else if score <= 60.0 then Medium else if score <= 80.0 then High else Critical
  }

  function Min(a: real, b: real): real { if b < a then b else a }

  function Max(a: real, b: real): real { if b > a then b else a }

  /** `calculate_final_score`. */
  function FinalScore(base: real, factor: real, bonus: real): real {
    Round(Min(100.0, Max(0.0, base * factor + bonus)), Hundredths)
  }

  datatype Coefficients = Coefficients(hazards: real, equipment: real, schedule: real)

  const NEUTRAL := Coefficients(1.0, 1.0, 1.0)

  function CoefficientsFor(projectType: Option<string>, matrix: map<string, Coefficients>): Coefficients {
    if projectType.Some? && projectType.value != "" && projectType.value in matrix then matrix[projectType.value]
    else NEUTRAL
  }

  datatype ProjectInputs = ProjectInputs(hazards: int, majorHazards: int, equipment: int, schedule: real,
                                         projectType: Option<string>, nightShifts: int, crossOperations: int,
                                         weather: int)

  /** `weighted_project_base_score`. */
  function BaseScore(x: ProjectInputs, matrix: map<string, Coefficients>): real {
    Round(Min(60.0, WeightedSum(x, CoefficientsFor(x.projectType, matrix))), Hundredths)
  }

  function WeightedSum(x: ProjectInputs, c: Coefficients): real {
    x.hazards as real * 8.0 * c.hazards + x.equipment as real * 10.0 * c.equipment + x.schedule * c.schedule
  }

  function ProjectFacts(x: ProjectInputs): FactTable {
    map["hazard_overdue_count" := Number(x.hazards as real),
        "major_hazard_overdue_count" := Number(x.majorHazards as real),
        "equipment_overdue_count" := Number(x.equipment as real),
        "schedule_pressure_index" := Number(x.schedule),
        "night_shift_days" := Number(x.nightShifts as real),
        "cross_operation_count" := Number(x.crossOperations as real),
        "weather_alert_level" := Number(x.weather as real)]
  }

  datatype Profile = Profile(score: real, level: RiskLevel, tags: seq<string>,
                             ruleTriggers: seq<RuleEngine.RuleTrigger>, completeness: real, reviewRequired: bool)

  /** Lift a low or medium result to high, with a score of at least 61. */
  function Floored(score: real, apply: bool): (real, RiskLevel) {
    var level := LevelForScore(score);
    if apply && (level == Low || level == Medium) then (Max(score, 61.0), High) else (score, level)
  }

  function TagsOf(ts: seq<RuleEngine.RuleTrigger>): seq<string> {
    if ts == [] then [] else TagsOf(Front(ts)) + [Last(ts).riskTag]
  }

  function FactorNames(ts: seq<DynamicFactors.Trigger>): seq<string> {
    if ts == [] then [] else FactorNames(Front(ts)) + [Last(ts).name]
  }

  ghost function ProjectProfile(x: ProjectInputs, matrix: map<string, Coefficients>,
                                config: DynamicFactors.Config, rules: seq<RuleEngine.Rule>): Result<Profile, MatchError>
  {
    match DynamicFactors.Evaluated(config, ProjectFacts(x))
    case Err(e) => Err(e)
    case Ok(dynamic) =>
      match RuleEngine.Fired(rules, "project", ProjectFacts(x))
      case Err(e) => Err(e)
      case Ok(ts) =>
        var bonus := RuleEngine.BonusOf(ts);
        var (score, level) := Floored(FinalScore(BaseScore(x, matrix), dynamic.factor, bonus), bonus >= 20.0);
        Ok(Profile(score, level, FactorNames(dynamic.triggers) + TagsOf(ts), ts, 0.85, bonus > 0.0))
  }

  method CalculateProjectProfile(x: ProjectInputs, matrix: map<string, Coefficients>,
                                 config: DynamicFactors.Config, engine: RuleEngine.Engine)
    returns (result: Result<Profile, MatchError>)
    ensures result == ProjectProfile(x, matrix, config, engine.rules)
    ensures result.Ok? ==> Consistent(result.value)
  {
    var base := BaseScore(x, matrix);
    var facts := ProjectFacts(x);
    var dynamic := DynamicFactors.EvaluateDynamicFactors(facts, config);
    if dynamic.Err? {
      return Err(dynamic.error);
    }
    var triggers := engine.Evaluate("project", facts);
    if triggers.Err? {
      return Err(triggers.error);
    }
    var bonus := RuleEngine.BonusOf(triggers.value);
    var score := FinalScore(base, dynamic.value.factor, bonus);
    FinalScoreRange(base, dynamic.value.factor, bonus);
    var level := LevelForScore(score);
    if bonus >= 20.0 && (level == Low || level == Medium) {
      level := High;
      score := Max(score, 61.0);
    }
    return Ok(Profile(score, level, FactorNames(dynamic.value.triggers) + TagsOf(triggers.value),
                      triggers.value, 0.85, bonus > 0.0));
  }

  datatype WorkerInputs = WorkerInputs(examScore: Option<real>, violations: int, certStatus: string,
                                       healthStatus: string, entryDays: int)

  function WorkerFacts(w: WorkerInputs): FactTable {
    map["exam_score" := if w.examScore.Some? then Number(w.examScore.value) else Absent,
        "violation_count_30d" := Number(w.violations as real),
        "special_cert_status" := Text(w.certStatus),
        "health_check_status" := Text(w.healthStatus),
        "entry_days" := Number(w.entryDays as real)]
  }

  function WorkerBase(w: WorkerInputs): real {
    (if w.examScore.Some? && w.examScore.value < 60.0 then 20.0 else 0.0)
    + (if w.violations >= 3 then 20.0 else if w.violations >= 1 then 12.0 else 0.0)
  }

  /** `calculate_worker_profile`: nothing is scored in the first week; an expired certificate or
      three violations lift the result to high. */
  method CalculateWorkerProfile(w: WorkerInputs, engine: RuleEngine.Engine)
    returns (result: Result<Profile, MatchError>)
    ensures result.Ok? ==> Consistent(result.value)
    ensures w.entryDays < 7 ==> result == Ok(Profile(0.0, Low, ["新进场观察期"], [], 0.3, true))
    ensures w.entryDays >= 7 ==>
              match RuleEngine.Fired(engine.rules, "worker", WorkerFacts(w))
              case Err(e) => result == Err(e)
              case Ok(ts) =>
                var bonus := RuleEngine.BonusOf(ts);
                && result.Ok? && result.value.ruleTriggers == ts
                && (result.value.score, result.value.level)
                   == Floored(FinalScore(WorkerBase(w), 1.0, bonus), w.certStatus == "expired" || w.violations >= 3)
                && result.value.tags
                   == (if w.examScore.Some? && w.examScore.value < 60.0 then ["安全考核不合格"] else []) + TagsOf(ts)
                && result.value.completeness == 0.8 && result.value.reviewRequired == (bonus > 0.0)
  {
    if w.entryDays < 7 {
      return Ok(Profile(0.0, Low, ["新进场观察期"], [], 0.3, true));
    }
    var base := 0.0;
    var tags: seq<string> := [];
    if w.examScore.Some? && w.examScore.value < 60.0 {
      base := base + 20.0;
      tags := tags + ["安全考核不合格"];
    }
    if w.violations >= 3 {
      base := base + 20.0;
    } else if w.violations >= 1 {
      base := base + 12.0;
    }
    var triggers := engine.Evaluate("worker", WorkerFacts(w));
    if triggers.Err? {
      return Err(triggers.error);
    }
    var bonus := RuleEngine.BonusOf(triggers.value);
    tags := tags + TagsOf(triggers.value);
    var score := FinalScore(base, 1.0, bonus);
    FinalScoreRange(base, 1.0, bonus);
    var level := LevelForScore(score);
    if w.certStatus == "expired" || w.violations >= 3 {
      if level == Low || level == Medium {
        level := High;
        score := Max(score, 61.0);
      }
    }
    return Ok(Profile(score, level, tags, triggers.value, 0.8, bonus > 0.0));
  }

  datatype SubcontractorInputs = SubcontractorInputs(hazards: int, majorHazards: int, highRiskRatio: real,
                                                     licenseStatus: string, accidents: int)

  function SubcontractorFacts(s: SubcontractorInputs): FactTable {
    map["hazard_overdue_count" := Number(s.hazards as real),
        "major_hazard_overdue_count" := Number(s.majorHazards as real),
        "high_risk_worker_ratio" := Number(s.highRiskRatio),
        "safety_license_status" := Text(s.licenseStatus),
        "accident_history_count" := Number(s.accidents as real)]
  }

  method CalculateSubcontractorProfile(s: SubcontractorInputs, engine: RuleEngine.Engine)
    returns (result: Result<Profile, MatchError>)
    ensures result.Ok? ==> Consistent(result.value)
    ensures match RuleEngine.Fired(engine.rules, "subcontractor", SubcontractorFacts(s))
            case Err(e) => result == Err(e)
            case Ok(ts) =>
              var bonus := RuleEngine.BonusOf(ts);
              var base := Min(60.0, s.hazards as real * 6.0 + s.highRiskRatio * 40.0);
              && result.Ok? && result.value.ruleTriggers == ts && result.value.tags == TagsOf(ts)
              && (result.value.score, result.value.level) == Floored(FinalScore(base, 1.0, bonus), bonus >= 20.0)
              && result.value.completeness == 0.8 && result.value.reviewRequired == (bonus > 0.0)
  {
    var base := Min(60.0, s.hazards as real * 6.0 + s.highRiskRatio * 40.0);
    var triggers := engine.Evaluate("subcontractor", SubcontractorFacts(s));
    if triggers.Err? {
      return Err(triggers.error);
    }
    var bonus := RuleEngine.BonusOf(triggers.value);
    var score := FinalScore(base, 1.0, bonus);
    FinalScoreRange(base, 1.0, bonus);
    var level := LevelForScore(score);
    if bonus >= 20.0 && (level == Low || level == Medium) {
      level := High;
      score := Max(score, 61.0);
    }
    return Ok(Profile(score, level, TagsOf(triggers.value), triggers.value, 0.8, bonus > 0.0));
  }

  /** The stored level is the level of the stored score, and the score is a percentage. */
  ghost predicate Consistent(p: Profile) {
    p.level == LevelForScore(p.score) && 0.0 <= p.score <= 100.0
  }

  lemma FinalScoreRange(base: real, factor: real, bonus: real)
    ensures 0.0 <= FinalScore(base, factor, bonus) <= 100.0
  {
    var clamped := Min(100.0, Max(0.0, base * factor + bonus));
    RoundMonotone(0.0, clamped, Hundredths);
    RoundMonotone(clamped, 100.0, Hundredths);
    RoundExact(0.0, 0, Hundredths);
    RoundExact(100.0, 10000, Hundredths);
  }

  // ----- monotonicity of the project score

  ghost predicate InputsLeq(x: ProjectInputs, y: ProjectInputs) {
    && x.hazards <= y.hazards && x.majorHazards <= y.majorHazards && x.equipment <= y.equipment
    && x.schedule <= y.schedule && x.projectType == y.projectType && x.nightShifts <= y.nightShifts
    && x.crossOperations <= y.crossOperations && x.weather <= y.weather
  }

  ghost predicate NonNegativeInputs(x: ProjectInputs) {
    x.hazards >= 0 && x.equipment >= 0 && x.schedule >= 0.0
  }

  /** A configuration in which every ingredient of the project score rises with the counts; the
      engine may hold any rules for other objects. */
  ghost predicate RisingSetup(matrix: map<string, Coefficients>, config: DynamicFactors.Config,
                              rules: seq<RuleEngine.Rule>) {
    && (forall k :: k in matrix ==> matrix[k].hazards >= 0.0 && matrix[k].equipment >= 0.0 && matrix[k].schedule >= 0.0)
    && DynamicFactors.RisingConfig(config)
    && RuleEngine.RisingRules(rules, "project")
  }

  lemma WeightedSumMonotone(x: ProjectInputs, y: ProjectInputs, c: Coefficients)
    requires InputsLeq(x, y) && NonNegativeInputs(x)
    requires c.hazards >= 0.0 && c.equipment >= 0.0 && c.schedule >= 0.0
    ensures 0.0 <= WeightedSum(x, c) <= WeightedSum(y, c)
  {
    ProductMonotone(x.hazards as real * 8.0, y.hazards as real * 8.0, c.hazards, c.hazards);
    ProductMonotone(x.equipment as real * 10.0, y.equipment as real * 10.0, c.equipment, c.equipment);
    ProductMonotone(x.schedule, y.schedule, c.schedule, c.schedule);
  }

  lemma {:induction false} BaseScoreMonotone(x: ProjectInputs, y: ProjectInputs, matrix: map<string, Coefficients>)
    requires InputsLeq(x, y) && NonNegativeInputs(x)
    requires forall k :: k in matrix ==>
               matrix[k].hazards >= 0.0 && matrix[k].equipment >= 0.0 && matrix[k].schedule >= 0.0
    ensures 0.0 <= BaseScore(x, matrix) <= BaseScore(y, matrix)
  {
    var c := CoefficientsFor(x.projectType, matrix);
    WeightedSumMonotone(x, y, c);
    var low, high := Min(60.0, WeightedSum(x, c)), Min(60.0, WeightedSum(y, c));
    RoundMonotone(low, high, Hundredths);
    RoundMonotone(0.0, low, Hundredths);
    RoundExact(0.0, 0, Hundredths);
  }

  lemma FinalScoreMonotone(base: real, factor: real, bonus: real, base': real, factor': real, bonus': real)
    requires 0.0 <= base <= base' && 0.0 <= factor <= factor' && bonus <= bonus'
    ensures FinalScore(base, factor, bonus) <= FinalScore(base', factor', bonus')
  {
    ProductMonotone(base, base', factor, factor');
    RoundMonotone(Min(100.0, Max(0.0, base * factor + bonus)), Min(100.0, Max(0.0, base' * factor' + bonus')),
                  Hundredths);
  }

  lemma ProjectFactsGrow(x: ProjectInputs, y: ProjectInputs)
    requires InputsLeq(x, y)
    ensures Numeric(ProjectFacts(x)) && Numeric(ProjectFacts(y)) && Grows(ProjectFacts(x), ProjectFacts(y))
  {
  }

  /** The score before the floor, and the bonus that decides the floor. */
  ghost function RawScore(x: ProjectInputs, matrix: map<string, Coefficients>,
                          config: DynamicFactors.Config, rules: seq<RuleEngine.Rule>): real
    requires DynamicFactors.Evaluated(config, ProjectFacts(x)).Ok?
    requires RuleEngine.Fired(rules, "project", ProjectFacts(x)).Ok?
  {
    FinalScore(BaseScore(x, matrix), DynamicFactors.Evaluated(config, ProjectFacts(x)).value.factor,
               RuleEngine.BonusOf(RuleEngine.Fired(rules, "project", ProjectFacts(x)).value))
  }

  ghost function Bonus(x: ProjectInputs, rules: seq<RuleEngine.Rule>): real
    requires RuleEngine.Fired(rules, "project", ProjectFacts(x)).Ok?
  {
    RuleEngine.BonusOf(RuleEngine.Fired(rules, "project", ProjectFacts(x)).value)
  }

  lemma StagesMonotone(x: ProjectInputs, y: ProjectInputs, matrix: map<string, Coefficients>,
                       config: DynamicFactors.Config, rules: seq<RuleEngine.Rule>)
    requires InputsLeq(x, y) && NonNegativeInputs(x) && RisingSetup(matrix, config, rules)
    ensures ProjectProfile(x, matrix, config, rules).Ok? && ProjectProfile(y, matrix, config, rules).Ok?
    ensures DynamicFactors.Evaluated(config, ProjectFacts(x)).Ok?
    ensures DynamicFactors.Evaluated(config, ProjectFacts(y)).Ok?
    ensures RuleEngine.Fired(rules, "project", ProjectFacts(x)).Ok?
    ensures RuleEngine.Fired(rules, "project", ProjectFacts(y)).Ok?
    ensures RawScore(x, matrix, config, rules) <= RawScore(y, matrix, config, rules)
    ensures Bonus(x, rules) <= Bonus(y, rules)
  {
    ProjectFactsGrow(x, y);
    BaseScoreMonotone(x, y, matrix);
    DynamicFactors.FactorMonotone(config, ProjectFacts(x), ProjectFacts(y));
    RuleEngine.BonusMonotone(rules, "project", ProjectFacts(x), ProjectFacts(y));
    var factor := DynamicFactors.Evaluated(config, ProjectFacts(x)).value.factor;
    var factor' := DynamicFactors.Evaluated(config, ProjectFacts(y)).value.factor;
    FinalScoreMonotone(BaseScore(x, matrix), factor, Bonus(x, rules), BaseScore(y, matrix), factor', Bonus(y, rules));
  }

  /** Raising any count or the schedule pressure never lowers the project's risk level. */
  lemma ProjectLevelMonotone(x: ProjectInputs, y: ProjectInputs, matrix: map<string, Coefficients>,
                             config: DynamicFactors.Config, rules: seq<RuleEngine.Rule>)
    requires InputsLeq(x, y) && NonNegativeInputs(x) && RisingSetup(matrix, config, rules)
    ensures ProjectProfile(x, matrix, config, rules).Ok? && ProjectProfile(y, matrix, config, rules).Ok?
    ensures Rank(ProjectProfile(x, matrix, config, rules).value.level)
         <= Rank(ProjectProfile(y, matrix, config, rules).value.level)
  {
    StagesMonotone(x, y, matrix, config, rules);
  }

  /** The score itself is monotone except across the floor: it drops exactly when the smaller
      input is lifted to 61 and the larger one lands strictly between 60 and 61 by itself. */
  lemma ProjectScoreMonotoneIff(x: ProjectInputs, y: ProjectInputs, matrix: map<string, Coefficients>,
                                config: DynamicFactors.Config, rules: seq<RuleEngine.Rule>)
    requires InputsLeq(x, y) && NonNegativeInputs(x) && RisingSetup(matrix, config, rules)
    ensures ProjectProfile(x, matrix, config, rules).Ok? && ProjectProfile(y, matrix, config, rules).Ok?
    ensures DynamicFactors.Evaluated(config, ProjectFacts(x)).Ok?
    ensures DynamicFactors.Evaluated(config, ProjectFacts(y)).Ok?
    ensures RuleEngine.Fired(rules, "project", ProjectFacts(x)).Ok?
    ensures RuleEngine.Fired(rules, "project", ProjectFacts(y)).Ok?
    ensures ProjectProfile(x, matrix, config, rules).value.score <= ProjectProfile(y, matrix, config, rules).value.score
       <==> !(Bonus(x, rules) >= 20.0 && RawScore(x, matrix, config, rules) <= 60.0
              && 60.0 < RawScore(y, matrix, config, rules) < 61.0)
  {
    StagesMonotone(x, y, matrix, config, rules);
  }

  function ExampleInputs(schedule: real): ProjectInputs {
    ProjectInputs(0, 1, 0, schedule, None, 0, 0, 0)
  }

  /** A concrete drop: schedule pressure 40 scores 61, schedule pressure 40.5 scores 60.5. */
  lemma ScoreDropExample()
    ensures var config, rules := ExampleConfig(), [ExampleRule()];
            var x, y := ExampleInputs(40.0), ExampleInputs(40.5);
            && InputsLeq(x, y) && NonNegativeInputs(x) && RisingSetup(map[], config, rules)
            && ScoreIs(x, map[], config, rules, 61.0) && ScoreIs(y, map[], config, rules, 60.5)
  {
    ExampleScore(40.0);
    ExampleScore(40.5);
  }

  ghost predicate ScoreIs(x: ProjectInputs, matrix: map<string, Coefficients>, config: DynamicFactors.Config,
                          rules: seq<RuleEngine.Rule>, score: real) {
    var profile := ProjectProfile(x, matrix, config, rules);
    profile.Ok? && profile.value.score == score
  }

  lemma ExampleScore(schedule: real)
    requires schedule == 40.0 || schedule == 40.5
    ensures ScoreIs(ExampleInputs(schedule), map[], ExampleConfig(), [ExampleRule()],
                    if schedule == 40.0 then 61.0 else 60.5)
  {
    ExampleStages(ExampleInputs(schedule), ExampleConfig(), [ExampleRule()]);
  }

  function ExampleConfig(): DynamicFactors.Config {
    DynamicFactors.Config(1.0, 1.5, {}, [])
  }

  function ExampleRule(): RuleEngine.Rule {
    RuleEngine.Rule("SR-PROJ-001", "project", "major hazard overdue", "high", "tag",
                    RuleEngine.Test("major_hazard_overdue_count", ">", One(Number(0.0))), 20.0,
                    None, None, "normal", true)
  }

  lemma ExampleStages(x: ProjectInputs, config: DynamicFactors.Config, rules: seq<RuleEngine.Rule>)
    requires x.hazards == 0 && x.majorHazards == 1 && x.equipment == 0 && x.projectType == None
    requires x.schedule == 40.0 || x.schedule == 40.5
    requires config == ExampleConfig()
    requires rules == [ExampleRule()]
    ensures DynamicFactors.Evaluated(config, ProjectFacts(x)).Ok?
    ensures DynamicFactors.Evaluated(config, ProjectFacts(x)).value.factor == 1.0
    ensures RuleEngine.Fired(rules, "project", ProjectFacts(x)).Ok? && Bonus(x, rules) == 20.0
    ensures RawScore(x, map[], config, rules) == x.schedule + 20.0
  {
    assert DynamicFactors.TotalDelta([], {}) == 0.0;
    RoundExact(1.0, 10000, TenThousandths);
    assert Front(rules) == [];
    var t := RuleEngine.TriggerOf(rules[0], ProjectFacts(x));
    assert RuleEngine.Fired([], "project", ProjectFacts(x)) == Ok([]);
    assert Get(ProjectFacts(x), "major_hazard_overdue_count") == Number(1.0);
    assert RuleEngine.ConditionMatches(rules[0].condition, ProjectFacts(x)) == Ok(true);
    assert [] + [t] == [t];
    assert RuleEngine.Fired(rules, "project", ProjectFacts(x)) == Ok([t]);
    RuleEngine.BonusAppend([], t);
    assert BaseScore(x, map[]) == Round(x.schedule, Hundredths);
    RoundExact(x.schedule, if x.schedule == 40.0 then 4000 else 4050, Hundredths);
    RoundExact(x.schedule + 20.0, if x.schedule == 40.0 then 6000 else 6050, Hundredths);
  }
}
