/** `src/config.rs`: the bundle specification and the rules `check` applies
    to it before anything is built. */
module Config {
  import opened Wrappers
  import opened BundleIni

  /** The `Build` section of a specification. */
  datatype BuildSpec = BuildSpec(
    versionFile: string,
    requiredPackages: Option<seq<string>>,
    buildCommand: Option<string>,
    executables: Option<seq<string>>,
    libraries: Option<seq<string>>,
    resources: Option<seq<string>>,
    extraElfFiles: Option<seq<string>>,
    requiredModules: Option<seq<string>>)

  datatype BundleSpec = BundleSpec(
    name: string,
    bundleType: BundleType,
    storeId: Option<string>,
    homebrewId: Option<string>,
    exec: Option<string>,
    background: Option<bool>,
    preferXboxMode: Option<bool>,
    launcher: Option<string>,
    launcherTags: Option<seq<string>>,
    launcherExec: Option<string>,
    runnerPatch: Option<string>,
    build: BuildSpec)

  /** The errors of loading (`Io`, `Yaml`) and of `check`. */
  datatype SpecError =
    | Io
    | Yaml
    | ConflictingOrigins
    | NoLauncherTags
    | NoLauncherExec(reason: string)
    | NoExec(reason: string)
    | UselessExec
    | NoHomebrewLaunchers
    | NoHomebrewBackgroundBundles
    | NoOriginId

  const LauncherTagsReason := "launcher tags"
  const BundleTypeReason := "bundle type"

  /** `launcher_tags.unwrap_or_default()` */
  function Tags(spec: BundleSpec): seq<string>
  {
    spec.launcherTags.GetOr([])
  }

  predicate NeedsExec(t: BundleType)
  {
    t == Game || t == Application
  }

  // ---------------------------------------------------------------------
  // What an acceptable specification looks like, stated as plain facts.
  // ---------------------------------------------------------------------

  /** A store bundle: no homebrew ID; launcher tags and a launcher command
      come together; a game or application has a command to run; a
      launcher-only bundle has a launcher command and no other. */
  predicate ValidStore(spec: BundleSpec)
  {
    && spec.homebrewId.None?
    && (|Tags(spec)| > 0 <==> spec.launcherExec.Some?)
    && (NeedsExec(spec.bundleType) ==> spec.exec.Some?)
    && (spec.bundleType == LauncherOnly ==> spec.launcherExec.Some? && spec.exec.None?)
  }

  /** A homebrew bundle: never a launcher, always a command, never in the
      background. */
  predicate ValidHomebrew(spec: BundleSpec)
  {
    && |Tags(spec)| == 0 && spec.launcherExec.None?
    && NeedsExec(spec.bundleType)
    && spec.exec.Some?
    && spec.background != Some(true)
  }

  predicate ValidSpec(spec: BundleSpec)
  {
    if spec.storeId.Some? then ValidStore(spec)
    else spec.homebrewId.Some? && ValidHomebrew(spec)
  }

  // ---------------------------------------------------------------------
  // The rules as the code applies them, first failure wins.
  // ---------------------------------------------------------------------

  /** The final launcher test of `check_store_bundle`. */
  function TrailingLauncherCheck(spec: BundleSpec): Result<(), SpecError>
  {
    if spec.launcherExec.Some? && (spec.launcherTags.None? || |spec.launcherTags.value| == 0)
    then Err(NoLauncherTags)
    else Ok(())
  }

  /** `check_store_bundle` up to, but not including, its final launcher test. */
  function StoreRulesBeforeTrailing(spec: BundleSpec): (r: Result<(), SpecError>)
    ensures r.Ok? ==> TrailingLauncherCheck(spec) == Ok(())
  {
    if spec.homebrewId.Some? then Err(ConflictingOrigins)
    else if |Tags(spec)| == 0 && spec.launcherExec.Some? then Err(NoLauncherTags)
    else if |Tags(spec)| > 0 && spec.launcherExec.None? then Err(NoLauncherExec(LauncherTagsReason))
    else if NeedsExec(spec.bundleType) then
      if spec.exec.None? then Err(NoExec(BundleTypeReason)) else Ok(())
    else if spec.launcherExec.None? then Err(NoLauncherExec(BundleTypeReason))
    else if spec.exec.Some? then Err(UselessExec)
    else Ok(())
  }

  /** `check_store_bundle`: which error it reports, in the order it looks. */
  function CheckStoreBundle(spec: BundleSpec): (r: Result<(), SpecError>)
    ensures r == Ok(()) <==> ValidStore(spec)
    ensures r == Err(ConflictingOrigins) <==> spec.homebrewId.Some?
    ensures r == Err(NoLauncherTags) <==>
      spec.homebrewId.None? && |Tags(spec)| == 0 && spec.launcherExec.Some?
    ensures r == Err(NoLauncherExec(LauncherTagsReason)) <==>
      spec.homebrewId.None? && |Tags(spec)| > 0 && spec.launcherExec.None?
    ensures r == Err(NoExec(BundleTypeReason)) <==>
      spec.homebrewId.None? && (|Tags(spec)| > 0 <==> spec.launcherExec.Some?)
      && NeedsExec(spec.bundleType) && spec.exec.None?
    ensures r == Err(NoLauncherExec(BundleTypeReason)) <==>
      spec.homebrewId.None? && |Tags(spec)| == 0 && spec.launcherExec.None?
      && spec.bundleType == LauncherOnly
    ensures r == Err(UselessExec) <==>
      spec.homebrewId.None? && |Tags(spec)| > 0 && spec.launcherExec.Some?
      && spec.bundleType == LauncherOnly && spec.exec.Some?
  {
    match StoreRulesBeforeTrailing(spec)
    case Err(e) => Err(e)
    case Ok(_) => TrailingLauncherCheck(spec)
  }

  /** `check_homebrew_bundle`. */
  function CheckHomebrewBundle(spec: BundleSpec): (r: Result<(), SpecError>)
    ensures r == Ok(()) <==> ValidHomebrew(spec)
    ensures r == Err(NoHomebrewLaunchers) <==>
      |Tags(spec)| > 0 || spec.launcherExec.Some? || spec.bundleType == LauncherOnly
    ensures r == Err(NoExec(BundleTypeReason)) <==>
      |Tags(spec)| == 0 && spec.launcherExec.None? && NeedsExec(spec.bundleType) && spec.exec.None?
    ensures r == Err(NoHomebrewBackgroundBundles) <==>
      |Tags(spec)| == 0 && spec.launcherExec.None? && NeedsExec(spec.bundleType)
      && spec.exec.Some? && spec.background == Some(true)
  {
    if |Tags(spec)| > 0 || spec.launcherExec.Some? then Err(NoHomebrewLaunchers)
    else if NeedsExec(spec.bundleType) then
      if spec.exec.None? then Err(NoExec(BundleTypeReason))
      else if spec.background.GetOr(false) then Err(NoHomebrewBackgroundBundles)
      else Ok(())
    else Err(NoHomebrewLaunchers)
  }

  /** `BundleSpec::check`: a store ID selects the store rules (whatever else
      is set), otherwise a homebrew ID selects the homebrew rules. */
  function Check(spec: BundleSpec): (r: Result<(), SpecError>)
    ensures r == Ok(()) <==> ValidSpec(spec)
    ensures spec.storeId.Some? ==> r == CheckStoreBundle(spec)
    ensures spec.storeId.Some? && spec.homebrewId.Some? ==> r == Err(ConflictingOrigins)
    ensures spec.storeId.None? && spec.homebrewId.Some? ==> r == CheckHomebrewBundle(spec)
    ensures r == Err(NoOriginId) <==> spec.storeId.None? && spec.homebrewId.None?
  {
    if spec.storeId.Some? then CheckStoreBundle(spec)
    else if spec.homebrewId.Some? then CheckHomebrewBundle(spec)
    else Err(NoOriginId)
  }
}
