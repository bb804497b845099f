/**
 * What the profile setup page (app/setup/page.tsx) and the settings page
 * (app/dashboard/settings) share: the form's fields, the feet-and-inches height
 * conversion both ways, the gym-days table both ways, and the payload sent to
 * createUserProfile / updateUserProfile. Number inputs are None when blank.
 */
module ProfileForm {
  import opened Wrappers
  import opened JsNumber
  import opened Recomp

  /** The profile form's fields; `gymDays` is the value of the gym-days select. */
  datatype ProfileFields = ProfileFields(
    weightKg: Option<real>,
    heightFeet: Option<real>,
    heightInches: Option<real>,
    age: Option<real>,
    bodyFatPercent: Option<real>,
    gender: Gender,
    gymDays: string)

  /** One change event: the field named by the input and its new value. */
  datatype FieldEdit =
    | WeightKg(weight: Option<real>)
    | HeightFeet(feet: Option<real>)
    | HeightInches(inches: Option<real>)
    | Age(age: Option<real>)
    | BodyFatPercent(bodyFat: Option<real>)
    | GenderChoice(gender: Gender)
    | GymDays(gymDays: string)

  /** `{ ...formData, [name]: value }`: the named field takes the value, the others stay. */
  function ApplyEdit(f: ProfileFields, e: FieldEdit): (g: ProfileFields)
    ensures e.WeightKg? ==> g.weightKg == e.weight
    ensures !e.WeightKg? ==> g.weightKg == f.weightKg
    ensures e.HeightFeet? ==> g.heightFeet == e.feet
    ensures !e.HeightFeet? ==> g.heightFeet == f.heightFeet
    ensures e.HeightInches? ==> g.heightInches == e.inches
    ensures !e.HeightInches? ==> g.heightInches == f.heightInches
    ensures e.Age? ==> g.age == e.age
    ensures !e.Age? ==> g.age == f.age
    ensures e.BodyFatPercent? ==> g.bodyFatPercent == e.bodyFat
    ensures !e.BodyFatPercent? ==> g.bodyFatPercent == f.bodyFatPercent
    ensures e.GenderChoice? ==> g.gender == e.gender
    ensures !e.GenderChoice? ==> g.gender == f.gender
    ensures e.GymDays? ==> g.gymDays == e.gymDays
    ensures !e.GymDays? ==> g.gymDays == f.gymDays
  {
    match e
    case WeightKg(v) => f.(weightKg := v)
    case HeightFeet(v) => f.(heightFeet := v)
    case HeightInches(v) => f.(heightInches := v)
    case Age(v) => f.(age := v)
    case BodyFatPercent(v) => f.(bodyFatPercent := v)
    case GenderChoice(g) => f.(gender := g)
    case GymDays(d) => f.(gymDays := d)
  }

  /** Centimetres per inch. */
  const CmPerInch := 2.54

  /** Feet and inches to centimetres, a blank field counting as 0. */
  function FeetInchesToCm(feet: Option<real>, inches: Option<real>): (cm: real)
    ensures cm == (12.0 * feet.GetOr(0.0) + inches.GetOr(0.0)) * CmPerInch
    ensures feet.GetOr(0.0) >= 0.0 && inches.GetOr(0.0) >= 0.0 ==> cm >= 0.0
  {
    (feet.GetOr(0.0) * 12.0 + inches.GetOr(0.0)) * CmPerInch
  }

  /**
   * The gym-days table: 0 and 1 days are sedentary, 2 light, 3 and 4 moderate,
   * 5 to 7 active; any other value falls back to moderate.
   */
  function GymDaysToActivity(gymDays: string): (a: ActivityLevel)
    ensures a == Sedentary <==> gymDays in {"0", "1"}
    ensures a == Light <==> gymDays == "2"
    ensures a == Active <==> gymDays in {"5", "6", "7"}
    ensures a == Moderate <==> gymDays !in {"0", "1", "2", "5", "6", "7"}
  {
    if gymDays == "0" || gymDays == "1" then Sedentary
    else if gymDays == "2" then Light
    else if gymDays == "3" || gymDays == "4" then Moderate
    else if gymDays == "5" || gymDays == "6" || gymDays == "7" then Active
    else Moderate
  }

  /** The name an activity level is stored under. */
  function LevelName(a: ActivityLevel): string {
    match a
    case Sedentary => "sedentary"
    case Light => "light"
    case Moderate => "moderate"
    case Active => "active"
  }

  /**
   * The settings page's reverse table, on the stored level name: the first gym-days
   * value of each level's band, and "3" for a name outside the table.
   */
  function ActivityToGymDays(level: string): (gymDays: string)
    ensures gymDays in {"0", "2", "3", "5"}
    ensures level !in {"sedentary", "light", "moderate", "active"} ==> gymDays == "3"
  {
    if level == "sedentary" then "0"
    else if level == "light" then "2"
    else if level == "moderate" then "3"
    else if level == "active" then "5"
    else "3"
  }

  /**
   * Reading a stored activity level back into the gym-days select and submitting it
   * stores the same level; a gym-days value the user picked comes back as the first
   * value of its band, which maps to the same level; a stored name outside the table
   * comes back as moderate.
   */
  lemma GymDaysRoundTrip(a: ActivityLevel, gymDays: string, level: string)
    ensures GymDaysToActivity(ActivityToGymDays(LevelName(a))) == a
    ensures GymDaysToActivity(ActivityToGymDays(LevelName(GymDaysToActivity(gymDays)))) == GymDaysToActivity(gymDays)
    ensures ActivityToGymDays(LevelName(GymDaysToActivity(gymDays))) == gymDays <==> gymDays in {"0", "2", "3", "5"}
    ensures level !in {"sedentary", "light", "moderate", "active"} ==> GymDaysToActivity(ActivityToGymDays(level)) == Moderate
  {
  }

  /**
   * The settings page's conversion of a stored height, as written: the feet are the
   * whole dozens of inches, and the inches the remainder rounded on its own.
   */
  function CmToFeetInches(heightCm: real): (r: (int, int))
    ensures heightCm >= 0.0 ==> r.0 >= 0 && 0 <= r.1 <= 12
  {
    var totalInches := heightCm / CmPerInch;
    ((totalInches / 12.0).Floor, Round(RemTwelve(totalInches)))
  }

  /** Rounding commutes with adding a whole number. */
  lemma RoundShift(k: int, x: real)
    ensures Round(k as real + x) == k + Round(x)
  {
    assert k as real + x + 0.5 == k as real + (x + 0.5);
  }

  /**
   * As written, a height whose inches' remainder rounds up to a full foot is shown as
   * 12 inches instead of one more foot: 71.6 inches (181.864 cm) reads 5 ft 12 in.
   */
  lemma InchesReachTwelve()
    ensures CmToFeetInches(181.864) == (5, 12)
  {
    var total := 181.864 / CmPerInch;
    assert total == 71.6;
    assert (total / 12.0).Floor == 5;
    assert Trunc(total / 12.0) == 5;
    assert RemTwelve(total) == 11.6;
  }

  /** The corrected conversion: round the total inches first, then carry whole feet. */
  function HeightFeetInches(heightCm: real): (r: (int, int))
    ensures 0 <= r.1 < 12
    ensures 12 * r.0 + r.1 == Round(heightCm / CmPerInch)
    ensures heightCm >= 0.0 ==> r.0 >= 0
  {
    var n := Round(heightCm / CmPerInch);
    (n / 12, n % 12)
  }

  /**
   * For any non-negative height the two conversions describe the same number of
   * inches; they differ only in whether a rounded-up remainder is carried into the feet.
   */
  lemma ConversionsAgreeOnTotal(heightCm: real)
    requires heightCm >= 0.0
    ensures var w := CmToFeetInches(heightCm);
            12 * w.0 + w.1 == 12 * HeightFeetInches(heightCm).0 + HeightFeetInches(heightCm).1
    ensures CmToFeetInches(heightCm).1 < 12 ==> CmToFeetInches(heightCm) == HeightFeetInches(heightCm)
  {
    var total := heightCm / CmPerInch;
    var feet := (total / 12.0).Floor;
    assert Trunc(total / 12.0) == feet;
    var rem := RemTwelve(total);
    assert total == 12.0 * feet as real + rem;
    RoundShift(12 * feet, rem);
    var n := Round(total);
    assert n == 12 * feet + Round(rem);
    if Round(rem) < 12 {
      assert n / 12 == feet && n % 12 == Round(rem);
    }
  }

  /**
   * Converting the corrected feet and inches back gives the stored height to within
   * half an inch (1.27 cm), and exactly when the height is a whole number of inches.
   */
  lemma HeightBackConversion(heightCm: real)
    ensures var r := HeightFeetInches(heightCm);
            var back := FeetInchesToCm(Some(r.0 as real), Some(r.1 as real));
            && heightCm - 1.27 < back <= heightCm + 1.27
            && (back == heightCm <==> (heightCm / CmPerInch).Floor as real == heightCm / CmPerInch)
  {
    var r := HeightFeetInches(heightCm);
    var t := heightCm / CmPerInch;
    var n := Round(t);
    assert 12.0 * r.0 as real + r.1 as real == n as real;
    var back := FeetInchesToCm(Some(r.0 as real), Some(r.1 as real));
    assert back == n as real * CmPerInch;
    assert heightCm == t * CmPerInch;
    if t.Floor as real == t {
      RoundOfInteger(t.Floor);
    }
    if back == heightCm {
      assert n as real == t;
    }
  }

  /** The target fields of a payload; NaN wherever the form left the reals. */
  datatype TargetFields = TargetFields(calories: Num, protein: Num, fats: Num, carbs: Num)

  /** The target fields taken from a set of computed targets. */
  function FieldsOf(t: RecompTargets): (f: TargetFields)
    ensures f.calories.Finite? && f.protein.Finite? && f.fats.Finite? && f.carbs.Finite?
  {
    TargetFields(Finite(t.recompCalories), Finite(t.protein as real), Finite(t.fats as real), Finite(t.carbs))
  }

  /** Target fields that are all numbers, with the calories the sum of the macro calories and carbs within the cap. */
  predicate FieldsAddUp(f: TargetFields, cfg: RecompConfig) {
    && f.calories.Finite? && f.protein.Finite? && f.fats.Finite? && f.carbs.Finite?
    && f.calories.value == f.protein.value * cfg.proteinCaloriesPerGram
                           + f.fats.value * cfg.fatCaloriesPerGram
                           + f.carbs.value * cfg.carbsCaloriesPerGram
    && f.carbs.value <= cfg.carbsMax
  }

  /** The fields of consistent targets add up. */
  lemma FieldsOfConsistent(t: RecompTargets, cfg: RecompConfig)
    requires ValidConfig(cfg) && ConsistentMacros(t, cfg)
    ensures FieldsAddUp(FieldsOf(t), cfg)
  {
    MacroSumBounds(t, cfg);
  }

  /** The profile data both pages send: the parsed fields, the height, the level and the targets. */
  datatype ProfilePayload = ProfilePayload(
    weightKg: Num,
    heightCm: real,
    age: Num,
    bodyFatPercent: Num,
    gender: Gender,
    activityLevel: ActivityLevel,
    targets: TargetFields)

  /** The payload for a form and the targets to save with it. */
  function PayloadOf(f: ProfileFields, targets: TargetFields): (payload: ProfilePayload)
    ensures payload.heightCm == (12.0 * f.heightFeet.GetOr(0.0) + f.heightInches.GetOr(0.0)) * CmPerInch
    ensures payload.activityLevel == GymDaysToActivity(f.gymDays)
    ensures payload.gender == f.gender && payload.targets == targets
    ensures payload.weightKg == ParseFloat(f.weightKg) && payload.age == ParseInt(f.age)
    ensures payload.bodyFatPercent == ParseFloat(f.bodyFatPercent)
  {
    ProfilePayload(
      ParseFloat(f.weightKg), FeetInchesToCm(f.heightFeet, f.heightInches), ParseInt(f.age),
      ParseFloat(f.bodyFatPercent), f.gender, GymDaysToActivity(f.gymDays), targets)
  }

  /** The answer of createUserProfile / updateUserProfile. */
  datatype SaveResult = Saved | NotSaved(error: Option<string>)
}
