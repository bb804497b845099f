/**
 * The first-run profile setup page (app/setup/page.tsx): targets are recomputed
 * whenever an edit leaves the form complete, kept otherwise, and the profile is saved
 * with the last targets computed.
 */
module Setup {
  import opened Wrappers
  import opened JsNumber
  import opened Recomp
  import opened ProfileForm

  /** The form the page starts with: blanks, male, 3 gym days. */
  const InitialFields := ProfileFields(None, None, None, None, None, Male, "3")

  /**
   * The test of handleInputChange: weight, feet and the whole years of age are
   * non-zero (a blank counts as 0) and a gym-days value is chosen.
   */
  predicate Complete(f: ProfileFields) {
    f.weightKg.GetOr(0.0) != 0.0 && f.heightFeet.GetOr(0.0) != 0.0
    && Trunc(f.age.GetOr(0.0)) != 0 && f.gymDays != ""
  }

  /**
   * calculateTargets: the recomp targets for the form, with the configured ratios, when
   * weight, height in centimetres and whole years of age are all non-zero; none otherwise.
   */
  function FormTargets(f: ProfileFields, cfg: RecompConfig): (t: Option<RecompTargets>)
    requires ValidConfig(cfg)
    ensures t.Some? <==>
              && Truthy(f.weightKg) && FeetInchesToCm(f.heightFeet, f.heightInches) != 0.0
              && f.age.Some? && Trunc(f.age.value) != 0
    ensures t.Some? ==>
              && t.value.maintenance == CalculateMaintenanceCalories(
                   f.weightKg.value, FeetInchesToCm(f.heightFeet, f.heightInches),
                   Trunc(f.age.value) as real, f.gender, GymDaysToActivity(f.gymDays), cfg)
              && t.value.protein == CalculateProteinRequirement(f.weightKg.value, None, cfg)
              && t.value.fats == CalculateFatRequirement(f.weightKg.value, None, cfg)
              && ConsistentMacros(t.value, cfg)
  {
    var heightCm := FeetInchesToCm(f.heightFeet, f.heightInches);
    if Truthy(f.weightKg) && heightCm != 0.0 && ParseInt(f.age).IsTruthy() then
      Some(CalculateRecompTargets(
        f.weightKg.value, heightCm, Trunc(f.age.value) as real, f.gender, GymDaysToActivity(f.gymDays),
        None, None, cfg))
    else
      None
  }

  /** Where the page sends the user. */
  datatype Navigation = Stay | ToLogin | ToDashboard

  /** The page's state. */
  class SetupPage {
    const cfg: RecompConfig
    var userId: Option<string>
    var fields: ProfileFields
    var targets: Option<RecompTargets>
    var error: string
    var loading: bool

    /**
     * The shown targets are those of the current form whenever the form is complete
     * enough to have them.
     */
    predicate Valid()
      reads this
    {
      ValidConfig(cfg)
      && (Complete(fields) && FormTargets(fields, cfg).Some? ==> targets == FormTargets(fields, cfg))
    }

    constructor (cfg: RecompConfig)
      requires ValidConfig(cfg)
      ensures Valid()
      ensures this.cfg == cfg && userId.None? && fields == InitialFields && targets.None?
      ensures error == "" && !loading
    {
      this.cfg := cfg;
      userId, fields, targets, error, loading := None, InitialFields, None, "", false;
    }

    /** The mount effect: keep the signed-in user, or go to the login page. */
    method LoadUser(current: Option<string>) returns (nav: Navigation)
      modifies this
      ensures current.Some? && current.value != "" ==> userId == current && nav == Stay
      ensures !(current.Some? && current.value != "") ==> userId == old(userId) && nav == ToLogin
      ensures fields == old(fields) && targets == old(targets) && error == old(error) && loading == old(loading)
    {
      if current.Some? && current.value != "" {
        userId := current;
        nav := Stay;
      } else {
        nav := ToLogin;
      }
    }

    /**
     * handleInputChange: apply the edit; when the edited form is complete, recompute
     * the targets, which stay as they were if the computation has none to give.
     */
    method HandleInputChange(edit: FieldEdit)
      requires Valid()
      modifies this
      ensures Valid()
      ensures fields == ApplyEdit(old(fields), edit)
      ensures Complete(fields) && FormTargets(fields, cfg).Some? ==> targets == FormTargets(fields, cfg)
      ensures !(Complete(fields) && FormTargets(fields, cfg).Some?) ==> targets == old(targets)
      ensures userId == old(userId) && error == old(error) && loading == old(loading)
    {
      fields := ApplyEdit(fields, edit);
      if Complete(fields) {
        var calculated := FormTargets(fields, cfg);
        if calculated.Some? {
          targets := calculated;
        }
      }
    }

    /**
     * handleSubmit, with the answer of createUserProfile as `result`: without a user it
     * asks to log in, without targets it asks for the missing fields; otherwise it saves
     * the form with the targets last computed and goes to the dashboard, or shows the error.
     */
    method HandleSubmit(result: SaveResult) returns (call: Option<ProfilePayload>, nav: Navigation)
      requires Valid()
      modifies this
      ensures Valid() && !loading
      ensures fields == old(fields) && targets == old(targets) && userId == old(userId)
      ensures userId.None? ==> call.None? && nav == ToLogin && error == "Please login first"
      ensures userId.Some? && targets.None? ==>
                call.None? && nav == Stay && error == "Please fill all fields to calculate targets"
      ensures userId.Some? && targets.Some? ==> call == Some(PayloadOf(fields, FieldsOf(targets.value)))
      ensures userId.Some? && targets.Some? && result.Saved? ==> nav == ToDashboard && error == ""
      ensures userId.Some? && targets.Some? && result.NotSaved? ==>
                nav == Stay && error == StringOr(result.error, "Failed to save profile")
    {
      error := "";
      loading := true;
      if userId.None? {
        error := "Please login first";
        loading := false;
        return None, ToLogin;
      }
      if targets.None? {
        error := "Please fill all fields to calculate targets";
        loading := false;
        return None, Stay;
      }
      call := Some(PayloadOf(fields, FieldsOf(targets.value)));
      if result.Saved? {
        nav := ToDashboard;
      } else {
        error := StringOr(result.error, "Failed to save profile");
        nav := Stay;
      }
      loading := false;
    }
  }

  /**
   * A complete form is saved with its own targets: submitting a form that is complete
   * and has targets sends exactly those targets, whatever was edited before.
   */
  lemma SubmittedTargetsMatchForm(p: SetupPage)
    requires p.Valid() && Complete(p.fields) && FormTargets(p.fields, p.cfg).Some?
    ensures p.targets.Some?
    ensures PayloadOf(p.fields, FieldsOf(p.targets.value)).targets == FieldsOf(FormTargets(p.fields, p.cfg).value)
  {
  }

  /**
   * Targets are never cleared: after a complete form (say 80 kg, 5 ft, 30 years) has
   * produced targets, blanking the weight keeps them, and the page would save them with
   * a blank weight.
   */
  method StaleTargetsExample(cfg: RecompConfig) returns (p: SetupPage)
    requires ValidConfig(cfg)
    ensures p.fields.weightKg.None? && p.targets.Some?
  {
    p := new SetupPage(cfg);
    p.HandleInputChange(WeightKg(Some(80.0)));
    p.HandleInputChange(HeightFeet(Some(5.0)));
    p.HandleInputChange(Age(Some(30.0)));
    assert Complete(p.fields) && FormTargets(p.fields, cfg).Some?;
    p.HandleInputChange(WeightKg(None));
  }
}
