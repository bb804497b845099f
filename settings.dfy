/**
 * The settings page (app/dashboard/settings): the server page that seeds the form from
 * the stored profile, and the client form that recomputes the targets from whatever
 * the form holds on submit and saves them with the profile.
 */
module Settings {
  import opened Wrappers
  import opened JsNumber
  import opened Recomp
  import opened Profiles
  import opened ProfileForm

  /** The server page's outcome. */
  datatype PageOutcome = RedirectTo(path: string) | Render(fields: ProfileFields)

  /**
   * The form seeded from a stored profile: the numbers as they are stored, the height
   * in feet and inches as the page converts it, the activity level as the first
   * gym-days value of its band.
   */
  function SeedFields(p: UserProfile): (f: ProfileFields)
    ensures f.weightKg == Some(p.weightKg) && f.age == Some(p.age as real)
    ensures f.bodyFatPercent == Some(p.bodyFatPercent) && f.gender == p.gender
    ensures f.heightFeet.Some? && f.heightInches.Some?
    ensures GymDaysToActivity(f.gymDays) == p.activityLevel
  {
    var h := CmToFeetInches(p.heightCm);
    ProfileFields(
      Some(p.weightKg), Some(h.0 as real), Some(h.1 as real), Some(p.age as real),
      Some(p.bodyFatPercent), p.gender, ActivityToGymDays(LevelName(p.activityLevel)))
  }

  /** SettingsPage: no user goes to login, no profile to setup, otherwise the seeded form. */
  function SettingsPage(userId: Option<string>, profile: Option<UserProfile>): (o: PageOutcome)
    ensures o == RedirectTo("/login") <==> userId.None? || userId.value == ""
    ensures o == RedirectTo("/setup") <==> userId.Some? && userId.value != "" && profile.None?
    ensures o.Render? ==> profile.Some? && o.fields == SeedFields(profile.value)
  {
    if userId.None? || userId.value == "" then RedirectTo("/login")
    else if profile.None? then RedirectTo("/setup")
    else Render(SeedFields(profile.value))
  }

  /**
   * The targets handleSubmit computes from the form: parseFloat of a blank weight and
   * parseInt of a blank age are NaN, which spreads to every target that depends on
   * them. Protein and fats need only the weight; calories and carbs need the age too.
   */
  function SubmittedTargets(f: ProfileFields, cfg: RecompConfig): (t: TargetFields)
    requires ValidConfig(cfg)
    ensures t.protein.Finite? <==> f.weightKg.Some?
    ensures t.fats.Finite? <==> f.weightKg.Some?
    ensures t.calories.Finite? <==> f.weightKg.Some? && f.age.Some?
    ensures t.carbs.Finite? <==> f.weightKg.Some? && f.age.Some?
    ensures !t.protein.Finite? ==> t.protein == NaN && t.fats == NaN
    ensures !t.calories.Finite? ==> t.calories == NaN && t.carbs == NaN
    ensures f.weightKg.Some? ==>
              && t.protein.value == CalculateProteinRequirement(f.weightKg.value, None, cfg) as real
              && t.fats.value == CalculateFatRequirement(f.weightKg.value, None, cfg) as real
  {
    match (f.weightKg, f.age)
    case (Some(w), Some(a)) =>
      FieldsOf(CalculateRecompTargets(
        w, FeetInchesToCm(f.heightFeet, f.heightInches), Trunc(a) as real, f.gender,
        GymDaysToActivity(f.gymDays), None, None, cfg))
    case (Some(w), None) =>
      TargetFields(NaN, Finite(CalculateProteinRequirement(w, None, cfg) as real),
                   Finite(CalculateFatRequirement(w, None, cfg) as real), NaN)
    case (None, _) => TargetFields(NaN, NaN, NaN, NaN)
  }

  /**
   * With both weight and age filled in, the saved targets satisfy the calculator's
   * macro consistency: calories are the sum of the macro calories, carbs at most the cap.
   */
  lemma SubmittedTargetsConsistent(f: ProfileFields, cfg: RecompConfig)
    requires ValidConfig(cfg) && f.weightKg.Some? && f.age.Some?
    ensures FieldsAddUp(SubmittedTargets(f, cfg), cfg)
  {
    var h := FeetInchesToCm(f.heightFeet, f.heightInches);
    var a := Trunc(f.age.value) as real;
    var r := CalculateRecompTargets(f.weightKg.value, h, a, f.gender, GymDaysToActivity(f.gymDays), None, None, cfg);
    assert SubmittedTargets(f, cfg) == FieldsOf(r);
    FieldsOfConsistent(r, cfg);
  }

  /**
   * The page seeds a height of 181.864 cm as 5 ft 12 in: an inches value above the
   * `max="11"` of the form's inches input.
   */
  lemma SeededInchesExceedInputMax(p: UserProfile)
    requires p.heightCm == 181.864
    ensures SettingsPage(Some("user"), Some(p)) == Render(SeedFields(p))
    ensures SeedFields(p).heightFeet == Some(5.0) && SeedFields(p).heightInches == Some(12.0)
  {
    InchesReachTwelve();
  }

  /**
   * Submitting the seeded form unchanged stores the profile's own weight, age, body fat,
   * gender and activity level, for a non-negative stored height a height within half an
   * inch of it, and the targets the calculator gives for that profile at that height.
   */
  lemma SeededSubmitRoundTrip(p: UserProfile, cfg: RecompConfig)
    requires ValidConfig(cfg)
    ensures var f := SeedFields(p);
            var payload := PayloadOf(f, SubmittedTargets(f, cfg));
            && payload.weightKg == Finite(p.weightKg)
            && payload.age == Finite(p.age as real)
            && payload.bodyFatPercent == Finite(p.bodyFatPercent)
            && payload.gender == p.gender
            && payload.activityLevel == p.activityLevel
            && (p.heightCm >= 0.0 ==> p.heightCm - 1.27 < payload.heightCm <= p.heightCm + 1.27)
            && payload.targets == FieldsOf(ProfileTargets(p.(heightCm := payload.heightCm), cfg))
  {
    var f := SeedFields(p);
    GymDaysRoundTrip(p.activityLevel, f.gymDays, "");
    if p.heightCm >= 0.0 {
      SeededHeight(p.heightCm);
    }
    RoundOfInteger(p.age);
    assert Trunc(p.age as real) == p.age;
  }

  /** The seeded feet and inches convert back to within half an inch of a non-negative height. */
  lemma SeededHeight(heightCm: real)
    requires heightCm >= 0.0
    ensures var w := CmToFeetInches(heightCm);
            var back := FeetInchesToCm(Some(w.0 as real), Some(w.1 as real));
            heightCm - 1.27 < back <= heightCm + 1.27
  {
    var w := CmToFeetInches(heightCm);
    var h := HeightFeetInches(heightCm);
    ConversionsAgreeOnTotal(heightCm);
    HeightBackConversion(heightCm);
    assert 12.0 * w.0 as real + w.1 as real == 12.0 * h.0 as real + h.1 as real;
  }

  /** The settings form's state. */
  class SettingsForm {
    const cfg: RecompConfig
    var fields: ProfileFields
    var error: string
    var success: string
    var loading: bool

    constructor (cfg: RecompConfig, seed: ProfileFields)
      requires ValidConfig(cfg)
      ensures this.cfg == cfg && fields == seed && error == "" && success == "" && !loading
    {
      this.cfg := cfg;
      fields, error, success, loading := seed, "", "", false;
    }

    /** handleInputChange: the named field takes the new value. */
    method HandleInputChange(edit: FieldEdit)
      modifies this
      ensures fields == ApplyEdit(old(fields), edit)
      ensures error == old(error) && success == old(success) && loading == old(loading)
    {
      fields := ApplyEdit(fields, edit);
    }

    /**
     * handleSubmit, with the answer of updateUserProfile as `result`: the form is always
     * sent, with the targets recomputed from it; success shows the confirmation and goes
     * on to the dashboard, failure shows the error.
     */
    method HandleSubmit(result: SaveResult) returns (call: ProfilePayload, toDashboard: bool)
      requires ValidConfig(cfg)
      modifies this
      ensures !loading && fields == old(fields)
      ensures call == PayloadOf(fields, SubmittedTargets(fields, cfg))
      ensures result.Saved? ==> toDashboard && success == "Profile updated successfully!" && error == ""
      ensures result.NotSaved? ==>
                !toDashboard && success == "" && error == StringOr(result.error, "Failed to update profile")
    {
      error := "";
      success := "";
      loading := true;
      call := PayloadOf(fields, SubmittedTargets(fields, cfg));
      if result.Saved? {
        success := "Profile updated successfully!";
        toDashboard := true;
      } else {
        error := StringOr(result.error, "Failed to update profile");
        toDashboard := false;
      }
      loading := false;
    }
  }
}
