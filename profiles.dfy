/** The stored user profile (the user_profiles table) and the targets computed from it. */
module Profiles {
  import opened Wrappers
  import opened Recomp

  /** A user profile row; the saved targets may be absent. */
  datatype UserProfile = UserProfile(
    weightKg: real,
    heightCm: real,
    age: int,
    bodyFatPercent: real,
    gender: Gender,
    activityLevel: ActivityLevel,
    targetCalories: Option<real>,
    targetProtein: Option<real>,
    targetFats: Option<real>,
    targetCarbs: Option<real>)

  /** The targets the pages recompute from a profile, with the configured ratios. */
  function ProfileTargets(p: UserProfile, cfg: RecompConfig): RecompTargets
    requires ValidConfig(cfg)
  {
    CalculateRecompTargets(p.weightKg, p.heightCm, p.age as real, p.gender, p.activityLevel, None, None, cfg)
  }
}
