/**
 * The macro-target calculator of lib/calculations/recomp.ts: BMR by the
 * Mifflin-St Jeor equation, maintenance calories by one activity multiplier,
 * the subtract-method upper bound, protein and fat grams from g/kg ratios,
 * carbs from the calories left under the upper bound (capped), and the
 * macro-defined calorie total with its deficit percentage.
 */
module Recomp {
  import opened Wrappers
  import opened JsNumber

  datatype Gender = Male | Female

  datatype ActivityLevel = Sedentary | Light | Moderate | Active

  /** The values read from recomp-config.json (lib/config/index.ts re-exports them). */
  datatype RecompConfig = RecompConfig(
    activityMultiplier: real,
    subtractValue: real,
    intakeBufferMin: real,
    intakeBufferMax: real,
    proteinRatioPerKg: real,
    proteinCaloriesPerGram: real,
    fatRatioPerKg: real,
    fatCaloriesPerGram: real,
    carbsCaloriesPerGram: real,
    carbsMax: real)

  /** The carbs division is only meaningful for a positive calories-per-gram value. */
  predicate ValidConfig(cfg: RecompConfig) {
    cfg.carbsCaloriesPerGram > 0.0
  }

  /** Basal metabolic rate, Mifflin-St Jeor. */
  function CalculateBMR(weightKg: real, heightCm: real, age: real, gender: Gender): real {
    var base := 10.0 * weightKg + 6.25 * heightCm - 5.0 * age;
    if gender == Male then base + 5.0 else base - 161.0
  }

  /** For equal weight, height and age, the male BMR exceeds the female one by 166 kcal. */
  lemma BmrGenderGap(weightKg: real, heightCm: real, age: real)
    ensures CalculateBMR(weightKg, heightCm, age, Male) - CalculateBMR(weightKg, heightCm, age, Female) == 166.0
  {
  }

  /** BMR grows with weight and height and falls with age. */
  lemma BmrMonotone(w1: real, h1: real, a1: real, w2: real, h2: real, a2: real, gender: Gender)
    requires w1 <= w2 && h1 <= h2 && a2 <= a1
    ensures CalculateBMR(w1, h1, a1, gender) <= CalculateBMR(w2, h2, a2, gender)
  {
  }

  /** Maintenance calories: the unrounded BMR times the single config multiplier, rounded. */
  function CalculateMaintenanceCalories(
    weightKg: real, heightCm: real, age: real, gender: Gender, activityLevel: ActivityLevel,
    cfg: RecompConfig): (m: int)
    ensures var exact := CalculateBMR(weightKg, heightCm, age, gender) * cfg.activityMultiplier;
            exact - 0.5 < m as real <= exact + 0.5
  {
    Round(CalculateBMR(weightKg, heightCm, age, gender) * cfg.activityMultiplier)
  }

  /** The activity level is collected but plays no part in maintenance calories. */
  lemma MaintenanceIgnoresActivityLevel(
    weightKg: real, heightCm: real, age: real, gender: Gender,
    level1: ActivityLevel, level2: ActivityLevel, cfg: RecompConfig)
    ensures CalculateMaintenanceCalories(weightKg, heightCm, age, gender, level1, cfg)
         == CalculateMaintenanceCalories(weightKg, heightCm, age, gender, level2, cfg)
  {
  }

  /** The subtract method: the calorie upper bound is maintenance minus the configured value. */
  function CalculateRecompCalories(maintenance: real, cfg: RecompConfig): (upper: real)
    ensures upper + cfg.subtractValue == maintenance
    ensures cfg.subtractValue >= 0.0 ==> upper <= maintenance
  {
    maintenance - cfg.subtractValue
  }

  /** The deficit of `recompCalories` below `maintenance`, as a percentage with two decimals. */
  function CalculateDeficitPercentage(maintenance: real, recompCalories: real): (r: Num)
    ensures r.Finite? <==> maintenance != 0.0
    ensures maintenance != 0.0 ==>
              var exact := 100.0 * ((maintenance - recompCalories) / maintenance);
              exact - 0.005 < r.value <= exact + 0.005
    ensures maintenance != 0.0 ==> 100.0 * r.value == (100.0 * r.value).Floor as real
    ensures maintenance == 0.0 ==> r == Quotient(-recompCalories, 0.0)
  {
    RoundedPercent(maintenance - recompCalories, maintenance)
  }

  /** The protein ratio in effect: the override unless it is undefined (`??`). */
  function ProteinRatio(ratio: Option<real>, cfg: RecompConfig): real {
    ratio.GetOr(cfg.proteinRatioPerKg)
  }

  /** The fat ratio in effect: the override unless it is undefined (`??`). */
  function FatRatio(ratio: Option<real>, cfg: RecompConfig): real {
    ratio.GetOr(cfg.fatRatioPerKg)
  }

  /** Protein grams: weight times the ratio in effect, rounded. */
  function CalculateProteinRequirement(weightKg: real, ratio: Option<real>, cfg: RecompConfig): (grams: int)
    ensures var exact := weightKg * ProteinRatio(ratio, cfg);
            exact - 0.5 < grams as real <= exact + 0.5
  {
    Round(weightKg * ProteinRatio(ratio, cfg))
  }

  /** Fat grams: weight times the ratio in effect, rounded. */
  function CalculateFatRequirement(weightKg: real, ratio: Option<real>, cfg: RecompConfig): (grams: int)
    ensures var exact := weightKg * FatRatio(ratio, cfg);
            exact - 0.5 < grams as real <= exact + 0.5
  {
    Round(weightKg * FatRatio(ratio, cfg))
  }

  /**
   * An override replaces the config ratio whatever its value (zero included),
   * and an undefined override means exactly the config ratio.
   */
  lemma RatioFallsBackOnlyWhenUndefined(weightKg: real, k: real, cfg1: RecompConfig, cfg2: RecompConfig)
    ensures CalculateProteinRequirement(weightKg, Some(k), cfg1) == CalculateProteinRequirement(weightKg, Some(k), cfg2)
    ensures CalculateFatRequirement(weightKg, Some(k), cfg1) == CalculateFatRequirement(weightKg, Some(k), cfg2)
    ensures CalculateProteinRequirement(weightKg, None, cfg1)
         == CalculateProteinRequirement(weightKg, Some(cfg1.proteinRatioPerKg), cfg2)
    ensures CalculateFatRequirement(weightKg, None, cfg1)
         == CalculateFatRequirement(weightKg, Some(cfg1.fatRatioPerKg), cfg2)
    ensures CalculateProteinRequirement(weightKg, Some(0.0), cfg1) == 0
  {
  }

  /** Calories left for carbs once protein and fat calories are taken from `totalCalories`. */
  function RemainingCalories(totalCalories: real, proteinGrams: real, fatGrams: real, cfg: RecompConfig): real {
    totalCalories - proteinGrams * cfg.proteinCaloriesPerGram - fatGrams * cfg.fatCaloriesPerGram
  }

  /**
   * Carb grams: the remaining calories over the carb calories per gram, rounded,
   * then capped at the configured maximum. Nothing stops the result going negative.
   */
  function CalculateCarbRequirement(totalCalories: real, proteinGrams: real, fatGrams: real, cfg: RecompConfig): (carbs: real)
    requires ValidConfig(cfg)
    ensures carbs <= cfg.carbsMax
    ensures var rem := RemainingCalories(totalCalories, proteinGrams, fatGrams, cfg);
            carbs * cfg.carbsCaloriesPerGram <= rem + cfg.carbsCaloriesPerGram / 2.0
    ensures var rem := RemainingCalories(totalCalories, proteinGrams, fatGrams, cfg);
            carbs < cfg.carbsMax ==>
              rem - cfg.carbsCaloriesPerGram / 2.0 < carbs * cfg.carbsCaloriesPerGram
    ensures carbs < cfg.carbsMax ==> carbs == carbs.Floor as real
    ensures carbs == cfg.carbsMax ==>
              cfg.carbsMax <= Round(RemainingCalories(totalCalories, proteinGrams, fatGrams, cfg)
                                    / cfg.carbsCaloriesPerGram) as real
  {
    var rem := RemainingCalories(totalCalories, proteinGrams, fatGrams, cfg);
    var calculated := Round(rem / cfg.carbsCaloriesPerGram);
    RoundedQuotientBounds(rem, cfg.carbsCaloriesPerGram, calculated);
    if calculated as real <= cfg.carbsMax then
      calculated as real
    else
      CapBelow(cfg.carbsMax, calculated as real, rem, cfg.carbsCaloriesPerGram);
      cfg.carbsMax
  }

  /** `Math.round(rem / c) * c` lies within `c / 2` of `rem`, for a positive `c`. */
  lemma RoundedQuotientBounds(rem: real, c: real, n: int)
    requires c > 0.0 && n == Round(rem / c)
    ensures n as real * c <= rem + c / 2.0
    ensures rem - c / 2.0 < n as real * c
  {
    QuotientBelow(rem, c, n as real);
    QuotientAbove(rem, c, n as real);
  }

  lemma QuotientBelow(rem: real, c: real, x: real)
    requires c > 0.0 && x <= rem / c + 0.5
    ensures x * c <= rem + c / 2.0
  {
    NonNegativeProduct(rem / c + 0.5 - x, c);
    assert (rem / c + 0.5 - x) * c == rem + c / 2.0 - x * c;
  }

  lemma QuotientAbove(rem: real, c: real, x: real)
    requires c > 0.0 && rem / c - 0.5 < x
    ensures rem - c / 2.0 < x * c
  {
    PositiveProduct(x - rem / c + 0.5, c);
    assert (x - rem / c + 0.5) * c == x * c - rem + c / 2.0;
  }

  /** A cap below `x` keeps below any bound `x * c` keeps, for a positive `c`. */
  lemma CapBelow(cap: real, x: real, rem: real, c: real)
    requires c > 0.0 && cap < x && x * c <= rem + c / 2.0
    ensures cap * c <= rem + c / 2.0
  {
    PositiveProduct(x - cap, c);
    assert (x - cap) * c == x * c - cap * c;
  }

  lemma PositiveProduct(a: real, c: real)
    requires a > 0.0 && c > 0.0
    ensures a * c > 0.0
  {
  }

  lemma NonNegativeProduct(a: real, c: real)
    requires a >= 0.0 && c > 0.0
    ensures a * c >= 0.0
  {
  }

  /** Everything calculateRecompTargets returns. */
  datatype RecompTargets = RecompTargets(
    bmr: int,
    maintenance: int,
    recompCalories: real,
    deficitPercentage: Num,
    protein: int,
    fats: int,
    carbs: real,
    proteinCalories: real,
    fatCalories: real,
    carbCalories: real)

  /** The calorie upper bound of a set of targets: maintenance minus the subtract value. */
  function UpperBound(t: RecompTargets, cfg: RecompConfig): real {
    CalculateRecompCalories(t.maintenance as real, cfg)
  }

  /** All macro targets, computed in the order of calculateRecompTargets. */
  function CalculateRecompTargets(
    weightKg: real, heightCm: real, age: real, gender: Gender, activityLevel: ActivityLevel,
    proteinRatio: Option<real>, fatRatio: Option<real>, cfg: RecompConfig): (t: RecompTargets)
    requires ValidConfig(cfg)
    // the rounded BMR is reported, but maintenance is computed from the unrounded one
    ensures t.bmr == Round(CalculateBMR(weightKg, heightCm, age, gender))
    ensures t.maintenance == CalculateMaintenanceCalories(weightKg, heightCm, age, gender, activityLevel, cfg)
    ensures t.protein == CalculateProteinRequirement(weightKg, proteinRatio, cfg)
    ensures t.fats == CalculateFatRequirement(weightKg, fatRatio, cfg)
    ensures ConsistentMacros(t, cfg)
    ensures t.deficitPercentage == CalculateDeficitPercentage(t.maintenance as real, t.recompCalories)
  {
    var t := AssembleTargets(
      Round(CalculateBMR(weightKg, heightCm, age, gender)),
      CalculateMaintenanceCalories(weightKg, heightCm, age, gender, activityLevel, cfg),
      CalculateProteinRequirement(weightKg, proteinRatio, cfg),
      CalculateFatRequirement(weightKg, fatRatio, cfg),
      cfg);
    var deficit := CalculateDeficitPercentage(t.maintenance as real, t.recompCalories);
    ConsistencyIgnoresDeficit(t, deficit, cfg);
    t.(deficitPercentage := deficit)
  }

  /** The deficit percentage plays no part in the consistency of the macro fields. */
  lemma ConsistencyIgnoresDeficit(t: RecompTargets, deficit: Num, cfg: RecompConfig)
    requires ValidConfig(cfg) && ConsistentMacros(t, cfg)
    ensures ConsistentMacros(t.(deficitPercentage := deficit), cfg)
  {
  }

  /**
   * The deficit percentage reports how far the macro-defined calories fall below
   * maintenance, to two decimals; it is not a finite number when maintenance is zero.
   */
  lemma TargetsDeficitPercentage(
    weightKg: real, heightCm: real, age: real, gender: Gender, activityLevel: ActivityLevel,
    proteinRatio: Option<real>, fatRatio: Option<real>, cfg: RecompConfig)
    requires ValidConfig(cfg)
    ensures var t := CalculateRecompTargets(weightKg, heightCm, age, gender, activityLevel, proteinRatio, fatRatio, cfg);
            t.deficitPercentage.Finite? <==> t.maintenance != 0
    ensures var t := CalculateRecompTargets(weightKg, heightCm, age, gender, activityLevel, proteinRatio, fatRatio, cfg);
            t.maintenance != 0 ==>
              var exact := 100.0 * ((t.maintenance as real - t.recompCalories) / t.maintenance as real);
              exact - 0.005 < t.deficitPercentage.value <= exact + 0.005
  {
    var t := CalculateRecompTargets(weightKg, heightCm, age, gender, activityLevel, proteinRatio, fatRatio, cfg);
    assert t.deficitPercentage == CalculateDeficitPercentage(t.maintenance as real, t.recompCalories);
  }

  /**
   * The macro-defined calories are never above the upper bound by more than half a
   * gram of carbs and, unless the carbs cap applied, not below it by as much.
   */
  lemma TargetsNearUpperBound(
    weightKg: real, heightCm: real, age: real, gender: Gender, activityLevel: ActivityLevel,
    proteinRatio: Option<real>, fatRatio: Option<real>, cfg: RecompConfig)
    requires ValidConfig(cfg)
    ensures var t := CalculateRecompTargets(weightKg, heightCm, age, gender, activityLevel, proteinRatio, fatRatio, cfg);
            && t.carbs <= cfg.carbsMax
            && t.recompCalories <= UpperBound(t, cfg) + cfg.carbsCaloriesPerGram / 2.0
            && (t.carbs < cfg.carbsMax ==> UpperBound(t, cfg) - cfg.carbsCaloriesPerGram / 2.0 < t.recompCalories)
  {
    var t := CalculateRecompTargets(weightKg, heightCm, age, gender, activityLevel, proteinRatio, fatRatio, cfg);
    MacroSumBounds(t, cfg);
  }

  /**
   * The carbs and the per-macro calories, from the rounded BMR, maintenance, protein and
   * fats; the deficit percentage is filled in afterwards.
   */
  function AssembleTargets(bmr: int, maintenance: int, protein: int, fats: int, cfg: RecompConfig): (t: RecompTargets)
    requires ValidConfig(cfg)
    ensures t.bmr == bmr && t.maintenance == maintenance && t.protein == protein && t.fats == fats
    ensures ConsistentMacros(t, cfg)
    ensures t.carbs <= cfg.carbsMax
    ensures t.recompCalories <= UpperBound(t, cfg) + cfg.carbsCaloriesPerGram / 2.0
    ensures t.carbs < cfg.carbsMax ==> UpperBound(t, cfg) - cfg.carbsCaloriesPerGram / 2.0 < t.recompCalories
  {
    var carbs := CalculateCarbRequirement(CalculateRecompCalories(maintenance as real, cfg), protein as real, fats as real, cfg);
    var proteinCalories := protein as real * cfg.proteinCaloriesPerGram;
    var fatCalories := fats as real * cfg.fatCaloriesPerGram;
    var carbCalories := carbs * cfg.carbsCaloriesPerGram;
    var recompCalories := proteinCalories + fatCalories + carbCalories;
    var t := RecompTargets(
      bmr, maintenance, recompCalories, NaN,
      protein, fats, carbs, proteinCalories, fatCalories, carbCalories);
    MacroSumBounds(t, cfg);
    t
  }

  /**
   * How the macro fields of a target set hang together: carbs fitted to the upper bound
   * after protein and fat, each macro's calories its grams times kcal/g, and the
   * macro-defined calories their sum.
   */
  predicate ConsistentMacros(t: RecompTargets, cfg: RecompConfig)
    requires ValidConfig(cfg)
  {
    && t.carbs == CalculateCarbRequirement(UpperBound(t, cfg), t.protein as real, t.fats as real, cfg)
    && t.proteinCalories == t.protein as real * cfg.proteinCaloriesPerGram
    && t.fatCalories == t.fats as real * cfg.fatCaloriesPerGram
    && t.carbCalories == t.carbs * cfg.carbsCaloriesPerGram
    && t.recompCalories == t.proteinCalories + t.fatCalories + t.carbCalories
  }

  /** Consistent macros add up to within half a carb gram of the upper bound. */
  lemma MacroSumBounds(t: RecompTargets, cfg: RecompConfig)
    requires ValidConfig(cfg) && ConsistentMacros(t, cfg)
    ensures t.carbs <= cfg.carbsMax
    ensures t.recompCalories <= UpperBound(t, cfg) + cfg.carbsCaloriesPerGram / 2.0
    ensures t.carbs < cfg.carbsMax ==> UpperBound(t, cfg) - cfg.carbsCaloriesPerGram / 2.0 < t.recompCalories
  {
  }

  /** A sample configuration: multiplier 1.5, subtract 500, 2.2 g/kg protein, 0.8 g/kg fat, at most 300 g carbs, 4/9/4 kcal/g. */
  function ExampleConfig(): RecompConfig {
    RecompConfig(1.5, 500.0, -100.0, 100.0, 2.2, 4.0, 0.8, 9.0, 4.0, 300.0)
  }

  /**
   * The worked example (70 kg, 175 cm, 30 years, male): BMR 1648.75, and maintenance
   * round(1648.75 * 1.5) = 2473, not the 2474 that rounding the BMR first would give.
   * Carbs round 853 / 4 = 213.25 to 213 g, so the macro total is 1972 kcal, one below
   * the upper bound 1973 kcal, a deficit of 20.26 %.
   */
  lemma ExampleTargets()
    ensures CalculateBMR(70.0, 175.0, 30.0, Male) == 1648.75
    ensures Round(Round(1648.75) as real * 1.5) == 2474
    ensures var t := CalculateRecompTargets(70.0, 175.0, 30.0, Male, Moderate, None, None, ExampleConfig());
            && t.bmr == 1649 && t.maintenance == 2473
            && t.protein == 154 && t.fats == 56 && t.carbs == 213.0
            && t.recompCalories == 1972.0 && UpperBound(t, ExampleConfig()) == 1973.0
            && t.deficitPercentage == Finite(20.26)
  {
    ExampleComponents();
    var t := AssembleTargets(1649, 2473, 154, 56, ExampleConfig());
    assert t.carbs == 213.0 && t.recompCalories == 1972.0;
  }

  /** The single rounded steps of the worked example. */
  lemma ExampleComponents()
    ensures Round(1648.75) == 1649
    ensures CalculateMaintenanceCalories(70.0, 175.0, 30.0, Male, Moderate, ExampleConfig()) == 2473
    ensures CalculateProteinRequirement(70.0, None, ExampleConfig()) == 154
    ensures CalculateFatRequirement(70.0, None, ExampleConfig()) == 56
    ensures CalculateCarbRequirement(1973.0, 154.0, 56.0, ExampleConfig()) == 213.0
    ensures CalculateDeficitPercentage(2473.0, 1972.0) == Finite(20.26)
  {
    assert Round(1648.75 * 1.5) == 2473;
    assert Round(70.0 * 2.2) == 154;
    assert Round(70.0 * 0.8) == 56;
    assert Round(853.0 / 4.0) == 213;
    assert Round(501.0 / 2473.0 * 100.0 * 100.0) == 2026;
  }
}
