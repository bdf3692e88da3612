/**
 * The immutable record of every choice made for one scaffolding run
 * (`ProjectConfiguration`) and its two starter-kit predicates.
 */
module ProjectConfiguration {
  import opened Wrappers
  import opened Text
  import opened PackageManagers

  /**
   * The record. A datatype value never changes, which is what the `readonly`
   * class promises; the package-manager fields are filled in later by building
   * a new value.
   */
  datatype Config = Config(
    name: string,
    directory: string,
    version: string,
    starterKit: Option<string>,
    database: string,
    shouldMigrate: bool,
    useGit: bool,
    gitBranch: string,
    useGitHub: bool,
    githubOrganization: Option<string>,
    githubFlags: string,
    usePest: bool,
    packageManager: Option<Manager>,
    shouldRunPackageManager: bool,
    force: bool,
    isDev: bool,
    isInteractive: bool,
    useLivewireClassComponents: bool,
    useWorkOS: bool)

  /** `isUsingStarterKit`: any non-null kit, the empty string included. */
  predicate IsUsingStarterKit(c: Config) {
    c.starterKit != None
  }

  /**
   * `isUsingLaravelStarterKit`: a truthy kit that starts with `laravel/`. The
   * truthiness test is subsumed by the prefix test, and a Laravel kit is
   * always a starter kit; the empty kit is a starter kit but never a Laravel one.
   */
  predicate IsUsingLaravelStarterKit(c: Config): (b: bool)
    ensures b <==> c.starterKit.Some? && StartsWith(c.starterKit.value, "laravel/")
    ensures b ==> IsUsingStarterKit(c)
    ensures c.starterKit == Some("") ==> IsUsingStarterKit(c) && !b
  {
    Truthy(c.starterKit) && StartsWith(c.starterKit.value, "laravel/")
  }
}
