/**
 * The `new` command's decision helpers (`NewCommand`): which starter kit the
 * options select, where the project goes, which version is installed, the
 * validation of the project name, the database driver and the target
 * directory, the Volt prompt, the configuration record built from the
 * options, and the package-manager step at the end of a run.
 */
module NewCommand {
  import opened Wrappers
  import opened Text
  import opened PackageManagers
  import opened ProjectConfiguration
  import opened CommandRunner
  import opened Files
  import opened PackageManagerDetector
  import ProjectBuilder
  import DatabaseConfigurator

  /** `--github`: not given (`false`), given bare (`null`), or given a value. */
  datatype GitHubOption = NotGiven | Bare | Given(value: string)

  /** The console options and the `name` argument the helpers read. */
  datatype Options = Options(
    name: string,
    dev: bool,
    git: bool,
    branch: Option<string>,
    github: GitHubOption,
    organization: Option<string>,
    database: Option<string>,
    react: bool,
    vue: bool,
    livewire: bool,
    livewireClassComponents: bool,
    workos: bool,
    noAuthentication: bool,
    pest: bool,
    using: Option<string>,
    force: bool)

  // ---------------------------------------------------------------------
  // Starter kit, directory, version

  /** The name of a first-party kit: `laravel/[blank-]{frontend}-starter-kit`. */
  function FirstPartyKit(frontend: string, blank: bool): string {
    "laravel/" + (if blank then "blank-" else "") + frontend + "-starter-kit"
  }

  /** The React kit names, spelled out. */
  lemma ReactKitName(blank: bool)
    ensures FirstPartyKit("react", blank)
      == if blank then "laravel/blank-react-starter-kit" else "laravel/react-starter-kit"
  {
  }

  /** The Vue kit names, spelled out. */
  lemma VueKitName(blank: bool)
    ensures FirstPartyKit("vue", blank)
      == if blank then "laravel/blank-vue-starter-kit" else "laravel/vue-starter-kit"
  {
  }

  /** The Livewire kit names, spelled out. */
  lemma LivewireKitName(blank: bool)
    ensures FirstPartyKit("livewire", blank)
      == if blank then "laravel/blank-livewire-starter-kit" else "laravel/livewire-starter-kit"
  {
  }

  /**
   * `getStarterKit`: React, then Vue, then Livewire, each switched to its
   * blank variant under `--no-authentication`; with none of the three, the
   * `--using` package (possibly none).
   */
  function StarterKit(o: Options): (kit: Option<string>)
    ensures o.react ==> kit == Some(FirstPartyKit("react", o.noAuthentication))
    ensures !o.react && o.vue ==> kit == Some(FirstPartyKit("vue", o.noAuthentication))
    ensures !o.react && !o.vue && o.livewire ==> kit == Some(FirstPartyKit("livewire", o.noAuthentication))
    ensures !o.react && !o.vue && !o.livewire ==> kit == o.using
  {
    if o.react then
      ReactKitName(o.noAuthentication);
      if o.noAuthentication then Some("laravel/blank-react-starter-kit") else Some("laravel/react-starter-kit")
    else if o.vue then
      VueKitName(o.noAuthentication);
      if o.noAuthentication then Some("laravel/blank-vue-starter-kit") else Some("laravel/vue-starter-kit")
    else if o.livewire then
      LivewireKitName(o.noAuthentication);
      if o.noAuthentication then Some("laravel/blank-livewire-starter-kit") else Some("laravel/livewire-starter-kit")
    else o.using
  }

  /**
   * A first-party kit name starts with `laravel/`, and with
   * `laravel/blank-` exactly when it is a blank variant.
   */
  lemma FirstPartyKitPrefix(frontend: string, blank: bool)
    requires |frontend| > 0 && frontend[0] != 'b'
    ensures StartsWith(FirstPartyKit(frontend, blank), "laravel/")
    ensures StartsWith(FirstPartyKit(frontend, blank), "laravel/blank-") <==> blank
  {
    var kit := FirstPartyKit(frontend, blank);
    if blank {
      assert kit == "laravel/blank-" + (frontend + "-starter-kit");
    } else {
      assert kit == "laravel/" + (frontend + "-starter-kit");
      assert kit[8] == frontend[0];
    }
  }

  /**
   * Every first-party kit is a Laravel starter kit for the configuration
   * predicates, and it is a blank variant exactly under `--no-authentication`.
   */
  lemma FirstPartyKitsAreLaravelKits(o: Options)
    requires o.react || o.vue || o.livewire
    ensures StarterKit(o).Some? && StartsWith(StarterKit(o).value, "laravel/")
    ensures StartsWith(StarterKit(o).value, "laravel/blank-") <==> o.noAuthentication
  {
    var frontend := if o.react then "react" else if o.vue then "vue" else "livewire";
    assert StarterKit(o).value == FirstPartyKit(frontend, o.noAuthentication);
    assert frontend[0] != 'b';
    FirstPartyKitPrefix(frontend, o.noAuthentication);
  }

  /**
   * `getInstallationDirectory`: `.` stays `.`; any other name is placed
   * below the working directory.
   */
  function InstallationDirectory(name: string, cwd: string): (directory: string)
    ensures directory == "." <==> name == "."
    ensures name != "." ==> StartsWith(directory, cwd + "/") && directory[|cwd| + 1..] == name
  {
    if name != "." then
      var directory := cwd + "/" + name;
      assert directory[|cwd|] == '/';
      directory
    else "."
  }

  /** `getVersion`: the development branch with `--dev`, otherwise the latest release. */
  function Version(dev: bool): (version: string)
    ensures version == "dev-master" <==> dev
    ensures !dev ==> version == ""
  {
    if dev then "dev-master" else ""
  }

  // ---------------------------------------------------------------------
  // Validation

  const InvalidNameMessage := "The name may only contain letters, numbers, dashes, underscores, and periods."

  /**
   * A character the name pattern accepts: a Unicode letter or number (an
   * abstract predicate here), a dash, an underscore or a period.
   */
  predicate NameChar(c: char, letterOrNumber: char -> bool) {
    letterOrNumber(c) || c == '-' || c == '_' || c == '.'
  }

  /**
   * `projectExists`, as written: something exists at the path and the path
   * differs from the working directory.
   */
  predicate ProjectExists(directory: string, present: set<string>, cwd: string) {
    directory in present && directory != cwd
  }

  /**
   * The existence test the comparison with the working directory aims at:
   * `.` is resolved to the working directory first, so installing into the
   * current directory is not refused.
   */
  predicate ProjectExistsResolved(directory: string, present: set<string>, cwd: string) {
    var resolved := if directory == "." then cwd else directory;
    resolved in present && resolved != cwd
  }

  /**
   * As written, `.` always counts as an existing application: the current
   * directory always exists and `getcwd()` is absolute, so it never equals
   * `.`. An interactive `new .` without `--force` is therefore refused with
   * "Application already exists!", and with `--force` it is refused too.
   */
  lemma CurrentDirectoryAlwaysExists(present: set<string>, cwd: string)
    requires "." in present && StartsWith(cwd, "/")
    ensures ProjectExists(".", present, cwd)
  {
    assert cwd[0] == '/';
  }

  /**
   * The resolved test never refuses the current directory, and agrees with
   * the code as written on every other path.
   */
  lemma ResolvedTestAcceptsCurrentDirectory(directory: string, present: set<string>, cwd: string)
    ensures !ProjectExistsResolved(".", present, cwd)
    ensures directory != "." ==> (ProjectExistsResolved(directory, present, cwd) <==> ProjectExists(directory, present, cwd))
  {
  }

  /**
   * `validateProjectName` (the prompt's validator): the character rule
   * first, then, unless forced, the existence of the target directory. No
   * message means the name is accepted.
   */
  function ValidateProjectName(name: string, force: bool, letterOrNumber: char -> bool,
                               cwd: string, present: set<string>): (message: Option<string>)
    ensures (exists i :: 0 <= i < |name| && !NameChar(name[i], letterOrNumber)) ==> message == Some(InvalidNameMessage)
    ensures (forall i :: 0 <= i < |name| ==> NameChar(name[i], letterOrNumber)) ==>
      (message.Some? <==> !force && ProjectExistsResolved(InstallationDirectory(name, cwd), present, cwd))
    ensures message.Some? ==> message == Some(InvalidNameMessage) || message == Some("Application already exists.")
  {
    if exists i :: 0 <= i < |name| && !NameChar(name[i], letterOrNumber) then Some(InvalidNameMessage)
    else if force then None
    else if ProjectExistsResolved(InstallationDirectory(name, cwd), present, cwd) then Some("Application already exists.")
    else None
  }

  /** `validateProjectName` with the existence test as written. */
  function ValidateProjectNameAsWritten(name: string, force: bool, letterOrNumber: char -> bool,
                                        cwd: string, present: set<string>): (message: Option<string>)
    ensures (exists i :: 0 <= i < |name| && !NameChar(name[i], letterOrNumber)) ==> message == Some(InvalidNameMessage)
    ensures (forall i :: 0 <= i < |name| ==> NameChar(name[i], letterOrNumber)) ==>
      (message.Some? <==> !force && ProjectExists(InstallationDirectory(name, cwd), present, cwd))
  {
    if exists i :: 0 <= i < |name| && !NameChar(name[i], letterOrNumber) then Some(InvalidNameMessage)
    else if force then None
    else if ProjectExists(InstallationDirectory(name, cwd), present, cwd) then Some("Application already exists.")
    else None
  }

  /**
   * As written, the name prompt refuses `.` without `--force`: the current
   * directory counts as an existing application. The resolved test accepts it.
   */
  lemma NameDotRefusedAsWritten(letterOrNumber: char -> bool, cwd: string, present: set<string>)
    requires "." in present && StartsWith(cwd, "/")
    ensures ValidateProjectNameAsWritten(".", false, letterOrNumber, cwd, present) == Some("Application already exists.")
    ensures ValidateProjectName(".", false, letterOrNumber, cwd, present) == None
  {
    assert forall i :: 0 <= i < |"."| ==> NameChar("."[i], letterOrNumber);
    CurrentDirectoryAlwaysExists(present, cwd);
  }

  const ForceInCurrentDirectory := "Cannot use --force option when using current directory for installation!"

  /**
   * `verifyProjectDirectory`: with `--force`, only the current directory is
   * refused (it would be deleted); without it, an existing target is.
   */
  function VerifyProjectDirectory(name: string, force: bool, cwd: string, present: set<string>): (o: Outcome<string>)
    ensures force ==> (o.Fail? <==> name == ".")
    ensures force && o.Fail? ==> o.error == ForceInCurrentDirectory
    ensures !force ==> (o.Fail? <==> ProjectExistsResolved(InstallationDirectory(name, cwd), present, cwd))
    ensures !force && o.Fail? ==> o.error == "Application already exists!"
  {
    var directory := InstallationDirectory(name, cwd);
    if force then
      if directory == "." then Fail(ForceInCurrentDirectory) else Pass
    else if ProjectExistsResolved(directory, present, cwd) then Fail("Application already exists!")
    else Pass
  }

  /** `verifyProjectDirectory` with the existence test as written. */
  function VerifyProjectDirectoryAsWritten(name: string, force: bool, cwd: string, present: set<string>): (o: Outcome<string>)
    ensures force ==> (o.Fail? <==> name == ".")
    ensures !force ==> (o.Fail? <==> ProjectExists(InstallationDirectory(name, cwd), present, cwd))
  {
    var directory := InstallationDirectory(name, cwd);
    if force then
      if directory == "." then Fail(ForceInCurrentDirectory) else Pass
    else if ProjectExists(directory, present, cwd) then Fail("Application already exists!")
    else Pass
  }

  /**
   * As written, an interactive run can never install into the current
   * directory: with `--force` it is refused outright, and without it the
   * existence test always fires. With the resolved test, the run without
   * `--force` goes ahead.
   */
  lemma CurrentDirectoryRefused(force: bool, cwd: string, present: set<string>)
    requires "." in present && StartsWith(cwd, "/")
    ensures VerifyProjectDirectoryAsWritten(".", force, cwd, present).Fail?
    ensures VerifyProjectDirectory(".", false, cwd, present) == Pass
  {
    CurrentDirectoryAlwaysExists(present, cwd);
  }

  /** The supported drivers, in the order the help text lists them. */
  const DatabaseDrivers := ["mysql", "mariadb", "pgsql", "sqlite", "sqlsrv"]

  /**
   * `validateDatabaseDriver`: a truthy `--database` outside the list raises
   * an `InvalidArgumentException` naming it and the list; an absent or falsy
   * one passes. The message names the rejected driver and every supported one.
   */
  function ValidateDatabaseDriver(database: Option<string>): (o: Outcome<string>)
    ensures o.Fail? <==> Truthy(database) && database.value !in DatabaseDrivers
    ensures o.Fail? ==>
      o.error == "Invalid database driver [" + database.value + "]. Possible values are: "
        + Join(DatabaseDrivers, ", ") + "."
    ensures o.Fail? ==> Contains(o.error, database.value)
    ensures o.Fail? ==> forall k :: 0 <= k < |DatabaseDrivers| ==> Contains(o.error, DatabaseDrivers[k])
  {
    if Truthy(database) && database.value !in DatabaseDrivers then
      var message := "Invalid database driver [" + database.value + "]. Possible values are: " + Join(DatabaseDrivers, ", ") + ".";
      DriverMessageNames(database.value);
      Fail(message)
    else Pass
  }

  /** The rejection message contains the driver given and each supported driver. */
  lemma DriverMessageNames(database: string)
    ensures var message := "Invalid database driver [" + database + "]. Possible values are: " + Join(DatabaseDrivers, ", ") + ".";
      && Contains(message, database)
      && forall k :: 0 <= k < |DatabaseDrivers| ==> Contains(message, DatabaseDrivers[k])
  {
    var head := "Invalid database driver [";
    var middle := "]. Possible values are: ";
    var list := Join(DatabaseDrivers, ", ");
    assert OccursAt(database, database, 0);
    ContainsWithin(head, database, middle + list + ".", database);
    assert head + database + middle + list + "." == head + database + (middle + list + ".");
    forall k | 0 <= k < |DatabaseDrivers|
      ensures Contains(head + database + middle + list + ".", DatabaseDrivers[k])
    {
      JoinContainsEach(DatabaseDrivers, ", ", k);
      ContainsWithin(head + database + middle, list, ".", DatabaseDrivers[k]);
    }
  }

  /** The list as the message prints it. */
  lemma DriverListText()
    ensures Join(DatabaseDrivers, ", ") == "mysql, mariadb, pgsql, sqlite, sqlsrv"
  {
    var ds := DatabaseDrivers;
    assert ds[1..] == ["mariadb", "pgsql", "sqlite", "sqlsrv"];
    assert ds[1..][1..] == ["pgsql", "sqlite", "sqlsrv"];
    assert ds[1..][1..][1..] == ["sqlite", "sqlsrv"];
    assert ds[1..][1..][1..][1..] == ["sqlsrv"];
  }

  // ---------------------------------------------------------------------
  // Prompts that feed the configuration

  /** `shouldPromptForVolt`: Livewire with authentication and without WorkOS. */
  predicate ShouldPromptForVolt(o: Options) {
    o.livewire && !o.workos && !o.noAuthentication
  }

  /**
   * The options after the Volt question: when it is asked, choosing Volt
   * turns class components off and declining turns them on; otherwise the
   * options are unchanged.
   */
  function AnswerVolt(o: Options, useVolt: bool): (r: Options)
    ensures ShouldPromptForVolt(o) ==> r.livewireClassComponents == !useVolt
    ensures r == o.(livewireClassComponents := r.livewireClassComponents)
    ensures !ShouldPromptForVolt(o) ==> r == o
  {
    if ShouldPromptForVolt(o) then o.(livewireClassComponents := !useVolt) else o
  }

  /** The Volt question never changes which kit is installed. */
  lemma VoltKeepsKit(o: Options, useVolt: bool)
    ensures StarterKit(AnswerVolt(o, useVolt)) == StarterKit(o)
    ensures ShouldPromptForVolt(o) ==> StarterKit(o) == Some("laravel/livewire-starter-kit") || o.react || o.vue
  {
  }

  // ---------------------------------------------------------------------
  // The configuration record

  /** The characters `rtrim($name, '/\\')` strips. */
  const Slashes: set<char> := {'/', '\\'}

  /**
   * `buildConfiguration`: the driver is validated first; the name loses its
   * trailing slashes and backslashes before the directory is derived from
   * it; git is used when `--git` or `--github` is given; the GitHub flags
   * default to `--private`; the branch defaults to git's default branch;
   * the database defaults to `sqlite`; the package manager is not chosen yet.
   */
  function BuildConfiguration(o: Options, cwd: string, defaultBranch: string, interactive: bool): (r: Result<Config, string>)
    ensures r.Err? <==> ValidateDatabaseDriver(o.database).Fail?
    ensures r.Ok? ==> r.value == Configure(o, cwd, defaultBranch, interactive)
  {
    match ValidateDatabaseDriver(o.database)
    case Fail(message) => Err(message)
    case Pass => Ok(Configure(o, cwd, defaultBranch, interactive))
  }

  /** The record `buildConfiguration` fills in once the driver is accepted. */
  function Configure(o: Options, cwd: string, defaultBranch: string, interactive: bool): (c: Config)
  {
    var name := TrimRight(o.name, Slashes);
    Config(
      name := name,
      directory := InstallationDirectory(name, cwd),
      version := Version(o.dev),
      starterKit := StarterKit(o),
      database := o.database.GetOr("sqlite"),
      shouldMigrate := false,
      useGit := o.git || o.github != NotGiven,
      gitBranch := if Truthy(o.branch) then o.branch.value else defaultBranch,
      useGitHub := o.github != NotGiven,
      githubOrganization := o.organization,
      githubFlags := if o.github.Given? && Truthy(Some(o.github.value)) then o.github.value else "--private",
      usePest := o.pest,
      packageManager := None,
      shouldRunPackageManager := false,
      force := o.force,
      isDev := o.dev,
      isInteractive := interactive,
      useLivewireClassComponents := o.livewireClassComponents,
      useWorkOS := o.workos)
  }

  /**
   * What a built configuration guarantees: GitHub implies git; the GitHub
   * flags are never blank; the name ends in neither separator; the database
   * is a supported driver or falsy (and then left to the database step's
   * default); the project goes into the current directory exactly when the
   * trimmed name is `.`.
   */
  lemma ConfigurationInvariants(o: Options, cwd: string, defaultBranch: string, interactive: bool)
    requires BuildConfiguration(o, cwd, defaultBranch, interactive).Ok?
    ensures var c := BuildConfiguration(o, cwd, defaultBranch, interactive).value;
      && (c.useGitHub ==> c.useGit)
      && Truthy(Some(c.githubFlags))
      && (|c.name| == 0 || c.name[|c.name| - 1] !in Slashes)
      && o.name == c.name + o.name[|c.name|..]
      && (forall i :: |c.name| <= i < |o.name| ==> o.name[i] in Slashes)
      && (c.database in DatabaseDrivers || !Truthy(Some(c.database)))
      && (c.directory == "." <==> c.name == ".")
      && (Truthy(Some(defaultBranch)) ==> Truthy(Some(c.gitBranch)))
      && c.packageManager.None? && !c.shouldRunPackageManager
  {
    ConfiguredRecord(o, cwd, defaultBranch, interactive);
  }

  /** The invariants of `ConfigurationInvariants`, for the record built from an accepted driver. */
  lemma ConfiguredRecord(o: Options, cwd: string, defaultBranch: string, interactive: bool)
    requires !Truthy(o.database) || o.database.value in DatabaseDrivers
    ensures var c := Configure(o, cwd, defaultBranch, interactive);
      && (c.useGitHub ==> c.useGit)
      && Truthy(Some(c.githubFlags))
      && (|c.name| == 0 || c.name[|c.name| - 1] !in Slashes)
      && o.name == c.name + o.name[|c.name|..]
      && (forall i :: |c.name| <= i < |o.name| ==> o.name[i] in Slashes)
      && (c.database in DatabaseDrivers || !Truthy(Some(c.database)))
      && (c.directory == "." <==> c.name == ".")
      && (Truthy(Some(defaultBranch)) ==> Truthy(Some(c.gitBranch)))
      && c.packageManager.None? && !c.shouldRunPackageManager
  {
    var c := Configure(o, cwd, defaultBranch, interactive);
    assert "--private" != "" && "--private" != "0";
    if o.database.None? {
      assert c.database == "sqlite" == DatabaseDrivers[3];
    }
  }

  /**
   * `getVersion` feeds the skeleton's `create-project` command: `--dev`
   * installs `dev-master`, and without it the version argument is empty, so
   * Composer picks the latest release.
   */
  lemma DevSelectsMaster(o: Options, cwd: string, defaultBranch: string, interactive: bool, composer: string, directory: string)
    requires BuildConfiguration(o, cwd, defaultBranch, interactive).Ok?
    ensures var c := BuildConfiguration(o, cwd, defaultBranch, interactive).value;
      !Truthy(c.starterKit) ==>
        ProjectBuilder.CreateProjectCommand(c, composer, directory)
          == ProjectBuilder.SkeletonCommand(composer, directory, if o.dev then "dev-master" else "")
  {
  }

  /**
   * The options decide the kit and the git settings: a first-party flag
   * yields a Laravel kit, none of them leaves `--using` in charge; GitHub
   * publication is requested exactly when `--github` is given.
   */
  lemma ConfigurationFollowsOptions(o: Options, cwd: string, defaultBranch: string, interactive: bool)
    requires BuildConfiguration(o, cwd, defaultBranch, interactive).Ok?
    ensures var c := BuildConfiguration(o, cwd, defaultBranch, interactive).value;
      && ((o.react || o.vue || o.livewire) ==> IsUsingLaravelStarterKit(c))
      && (!(o.react || o.vue || o.livewire) ==> c.starterKit == o.using)
      && (c.useGitHub <==> o.github != NotGiven)
      && (c.useGit <==> o.git || o.github != NotGiven)
      && (o.github.Given? && Truthy(Some(o.github.value)) ==> c.githubFlags == o.github.value)
      && (!Truthy(o.branch) ==> c.gitBranch == defaultBranch)
      && (c.version == "dev-master" <==> o.dev)
  {
    if o.react || o.vue || o.livewire {
      FirstPartyKitsAreLaravelKits(o);
    }
  }

  /**
   * Because the database defaults to `sqlite` when the option is absent, the
   * database menu of the next step is reached only through an explicitly
   * blank (`""` or `"0"`) `--database`; without the option, a project without
   * a starter kit gets SQLite and its migrations.
   */
  lemma DatabaseMenuNeedsBlankOption(o: Options, cwd: string, defaultBranch: string, interactive: bool,
                                     loaded: string -> bool, selected: string, confirmMigrate: bool)
    requires BuildConfiguration(o, cwd, defaultBranch, interactive).Ok?
    ensures var c := BuildConfiguration(o, cwd, defaultBranch, interactive).value;
      && (DatabaseConfigurator.Prompts(c) ==> o.database == Some("") || o.database == Some("0"))
      && (o.database.None? && !IsUsingStarterKit(c) ==>
            DatabaseConfigurator.PromptForDatabaseOptions(c, loaded, selected, confirmMigrate)
              == DatabaseConfigurator.DatabaseChoice("sqlite", true))
  {
    var c := BuildConfiguration(o, cwd, defaultBranch, interactive).value;
    assert "sqlite" != "" && "sqlite" != "0";
  }

  // ---------------------------------------------------------------------
  // The package-manager step

  /**
   * `setupPackageManager` as written: it assigns the selection to
   * `$config->packageManager`, a property of a `readonly` class, from
   * outside the class. PHP raises an `Error` on that first assignment, which
   * `execute` does not catch (it catches `RuntimeException` only), so the
   * run stops there: no confirmation, no lock-file cleanup, no asset build.
   */
  function SetupPackageManagerAsWritten(config: Config, selection: Selection): (r: Result<Config, string>)
    ensures r.Err?
  {
    Err("Cannot modify readonly property Laravel\\Installer\\ValueObjects\\ProjectConfiguration::$packageManager")
  }

  /**
   * The package-manager step as intended, with the late-bound choice carried
   * in a new record instead of assigned into the readonly one. In order:
   * detect; ask whether to run the manager only when detection did not
   * settle it and the run is interactive; clean up the other managers' lock
   * files; install and build the assets only when the manager should run.
   * What the asset build leaves is the input `built`; the build starts from
   * the cleaned tree.
   */
  method SetupPackageManager(ws: Workspace, config: Config, flags: ManagerFlags, catalog: Catalog, confirmRun: bool,
                             built: Snapshot)
    returns (final: Config)
    modifies ws
    ensures final == config.(packageManager := final.packageManager, shouldRunPackageManager := final.shouldRunPackageManager)
    ensures final.packageManager.Some?
    ensures final.shouldRunPackageManager <==> AnyFlag(flags) || (config.isInteractive && confirmRun)
    ensures flags.pnpm ==> final.packageManager == Some(PNPM)
    ensures !flags.pnpm && flags.bun ==> final.packageManager == Some(BUN)
    ensures !flags.pnpm && !flags.bun && flags.yarn ==> final.packageManager == Some(YARN)
    ensures !flags.pnpm && !flags.bun && !flags.yarn && flags.npm ==> final.packageManager == Some(NPM)
    ensures !AnyFlag(flags) ==> var existing := old(ws.files.Keys + ws.dirs); var m := final.packageManager.value;
      || (m == NPM && NoLockBefore(catalog, |catalog.cases|, config.directory, existing))
      || (exists i :: 0 <= i < |catalog.cases| && catalog.cases[i] == m && m != NPM
            && HasLockFile(catalog, m, config.directory, existing)
            && NoLockBefore(catalog, i, config.directory, existing))
    ensures var cleaned := old(ws.files)
      - StaleLockPaths(config.directory, catalog.lockFiles(final.packageManager.value), catalog.allLockFiles);
      && (!final.shouldRunPackageManager ==> ws.files == cleaned && ws.dirs == old(ws.dirs) && ws.trace == old(ws.trace))
      && (final.shouldRunPackageManager ==>
            && ws.files == built.files && ws.dirs == built.dirs
            && ws.trace == old(ws.trace)
                 + [Ran(ProjectBuilder.InstallAndBuildAssets(final, catalog).value, Snapshot(cleaned, old(ws.dirs)))])
  {
    var selection := Detect(flags, config.directory, catalog, ws.files.Keys + ws.dirs);
    var shouldRun := selection.shouldRun;
    if !selection.shouldRun && config.isInteractive {
      shouldRun := confirmRun;
    }
    final := config.(packageManager := Some(selection.manager), shouldRunPackageManager := shouldRun);
    CleanupLockFiles(ws, final, catalog);
    if final.shouldRunPackageManager {
      ws.Run(ProjectBuilder.InstallAndBuildAssets(final, catalog).value, built);
    }
  }

}
