# Laravel installer core, modelled in Dafny

The Laravel installer's `new` command scaffolds a Laravel application. It first
resolves the command-line options and the interactive answers into one
configuration record. It then assembles and runs a fixed sequence of shell
command batches:

- creating the project with Composer;
- configuring the database in `.env` and `.env.example`;
- initialising git and, optionally, publishing to GitHub;
- converting the test suite to Pest;
- choosing a JavaScript package manager, cleaning up foreign lock files and building the front-end assets.

It also keeps a one-day cache of the Packagist version feed, which it uses to
announce new installer releases.

This project models that core:

- Values the code only computes become datatypes and functions: command lists, the configuration record, the starter-kit choice, the version feed, the `.env` rewrites.
- Step-by-step changes become imperative Dafny:
  - a `Workspace` class holds the files, the directories and an ordered trace of file writes and command batches;
  - a `VersionCache` class holds the two cache files.
- Most methods are proved equal to a specification function, and properties of those functions are proved as lemmas. `PestInstaller.Install` states the starter-kit writes only as writes; see "Left out".

Processes, HTTP, the clock and the prompts are inputs:
- A batch handed to the runner is an `Invocation` value: mode, commands, working path and environment. The trace records each batch with the files and directories it started from. The tree the batch leaves behind is an input (`Workspace.Run`), since what Composer, Pest, npm, artisan or git write is outside the model.
- A finished process is its exit code and error output.
- An HTTP exchange is a status, an optional `Last-Modified` value and a body.
- A prompt answer is a parameter.

Modules, one per source file, plus shared pieces:

| module | file | models |
|---|---|---|
| `Wrappers` | wrappers.dfy | `Option`, `Result`, `Outcome` |
| `Text` | text.dfy | the PHP string functions the core relies on (`str_replace`, `str_contains`, `str_starts_with`, `trim`, `implode`, `explode`, `strtolower`), with their laws |
| `Platform`, `PackageManagers` | platform.dfy | the host (OS family, working directory, Composer and PHP binaries, `escapeshellarg`); the package-manager catalogue |
| `ProjectConfiguration` | project_configuration.dfy | the readonly configuration record |
| `CommandRunner` | command_runner.dfy | flag injection, command composition, the three run modes |
| `Files` | workspace.dfy | the filesystem and effect trace (`Workspace`) |
| `ProjectBuilder` | project_builder.dfy | the creation plan and the asset build |
| `VersionChecker` | version_checker.dfy | the version cache, the feed, the update decision |
| `PackageManagerDetector` | package_manager_detector.dfy | manager detection and lock-file cleanup |
| `EnvFile`, `DatabaseConfigurator` | env_file.dfy, database_configurator.dfy | `.env` rewrites, the database prompt, migrations |
| `PestInstaller` | pest_installer.dfy | the Pest conversion |
| `GitService`, `GitHubService` | git_service.dfy | git and GitHub batches |
| `NewCommand` | new_command.dfy | the `new` command's helpers and its package-manager step |

## Model

| member | source | states |
|---|---|---|
| CommandRunner.AddFlagsPerCommand | src/Services/CommandRunner.php:72-93 | Flag injection keeps the number and order of commands. A command on the skip list is unchanged. Every other command gains ` --no-ansi` when output is not decorated, then ` --quiet` when quiet is set, in that order. |
| CommandRunner.AddFlagsIdentity | src/Services/CommandRunner.php:72-93 | With decorated output and no quiet flag, the commands come back unchanged. |
| CommandRunner.SkipStable | src/Services/CommandRunner.php:74-90 | Appending ` --no-ansi` never changes whether a command is skipped. The quiet pass therefore skips the same commands as the first pass. |
| CommandRunner.SkipExamples | src/Services/CommandRunner.php:95-98 | The skip test is a literal prefix test. `rmdir …` and `git …` are skipped. A quoted PHP path before `./vendor/bin/pest` is not skipped, and neither is `composer install`. |
| CommandRunner.ComposeAppend | src/Services/CommandRunner.php:61-70 | The shell line of a batch with one more command is the old line, then ` && `, then that command. |
| CommandRunner.ComposeConcat | src/Services/CommandRunner.php:61-70 | The line of two batches run together is their two lines joined by ` && `. |
| CommandRunner.Run | src/Services/CommandRunner.php:12-19 | `run` succeeds exactly when the exit code is 0. Otherwise it fails with that exit code, and its command line contains every command of the batch. |
| CommandRunner.RunSilent | src/Services/CommandRunner.php:21-34 | `runSilent` succeeds exactly when `run` would. On failure the message starts with `Command failed: `, names every command of the batch, and ends with the error output after a newline. |
| CommandRunner.Indent | src/Services/CommandRunner.php:54-56 | One write per chunk, each starting with four spaces. Removing those four spaces gives back the chunks, in order. |
| CommandRunner.RunWithOutput | src/Services/CommandRunner.php:36-59 | The line contains every command, with its flags added unless it is on the skip list. The TTY is used only when it is supported and attaching it did not fail. A failure to attach writes one WARN line first. The remaining writes give back the output chunks in order. The exit code is returned unchecked. |
| CommandRunner.FlaggedPairLine | src/Services/CommandRunner.php:61-93 | For a two-command batch, the line is the first command, ` && `, then the second, each with the flags it would get on its own. |
| ProjectBuilder.DeleteCommandRoundTrip | src/Services/ProjectBuilder.php:117-124 | The directory the delete command removes, read back from the command text, is the escaped directory, on Windows and elsewhere. Off Windows, the command is on the runner's skip list. |
| ProjectBuilder.BuildCreateProjectCommand | src/Services/ProjectBuilder.php:79-115 | The method builds the create step in place and equals its specification. A falsy kit gives the `laravel/laravel` skeleton with the version. A non-Laravel kit containing `://` gives tiged then `composer install`. Any other non-Laravel kit gets the plain `--stability=dev` command. |
| ProjectBuilder.BuildCreationCommands | src/Services/ProjectBuilder.php:51-77 | The method appends step by step and equals the plan. The plan has 3 entries, plus one for a forced delete of a real directory, plus one off Windows. |
| ProjectBuilder.PlanLayout | src/Services/ProjectBuilder.php:51-77 | In order: the optional delete first, then create, `post-root-package-install -d D`, `key:generate --ansi`, and `chmod 755 D/artisan` off Windows. This holds for every kind of kit. |
| ProjectBuilder.NoDeleteOfCurrentDirectory | src/Services/ProjectBuilder.php:60-62 | For the directory `.`, no delete is planned, even with `--force`. |
| ProjectBuilder.DemoScenario | src/Services/ProjectBuilder.php:51-86 | The full plan for a plain project on Linux, command by command, including the double space left by an empty version. |
| ProjectBuilder.RewriteOnce | src/Services/ProjectBuilder.php:93-97 | When the kit token ` kit ` occurs exactly once, `str_replace` inserts the suffix right after the kit name. |
| ProjectBuilder.TokenGoneAfterRewrite | src/Services/ProjectBuilder.php:93-106 | Once a suffix is inserted, the token ` kit ` no longer occurs, so the second rewrite cannot match. |
| ProjectBuilder.KitVariants | src/Services/ProjectBuilder.php:88-107 | For a Laravel kit whose token ` kit ` occurs in the command only as the kit argument (not also inside the directory): `:dev-components` with class components (even when WorkOS is also set), `:dev-workos` with WorkOS alone, otherwise no suffix. |
| ProjectBuilder.UrlKit | src/Services/ProjectBuilder.php:109-112 | A non-Laravel URL kit is fetched with `npx tiged@latest`, then `cd` and `composer install`. |
| ProjectBuilder.Build | src/Services/ProjectBuilder.php:18-27 | The plan is run fail-fast with an empty environment. Whatever the output flags, the line is the composed plan. The working path is the working directory only when the project directory is `.`, and then no delete is planned. |
| ProjectBuilder.InstallAndBuildAssets | src/Services/ProjectBuilder.php:29-49 | No batch without a package manager. Otherwise the batch is `[install, build]`, streamed in the project directory, and its line is the install command, ` && `, then the build command, each with its flags. |
| ProjectBuilder.BuildFailureNamesPlan | src/Services/ProjectBuilder.php:18-27 | A failed creation reports the whole composed plan. When a delete is planned, the line starts with it. |
| ProjectConfiguration.IsUsingLaravelStarterKit | src/ValueObjects/ProjectConfiguration.php:30-38 | Holds exactly for a kit starting with `laravel/`. It implies `isUsingStarterKit`. An empty-string kit is a starter kit but not a Laravel one. |
| VersionChecker.Fetch | src/Services/VersionChecker.php:126-180 | A cache younger than a day is returned without a request. Otherwise the request is conditional exactly when a token is stored. The token changes only on a 200 with `Last-Modified`, to its trimmed value. A cached payload is never lost. The data returned is the payload cached afterwards. |
| VersionChecker.VersionCache.FetchVersionData | src/Services/VersionChecker.php:126-180 | The in-place update of the cache fields and the returned data and request equal the `Fetch` transition. |
| VersionChecker.NotModifiedTouches | src/Services/VersionChecker.php:159-162 | A 304 with a cached payload only moves the timestamp to now and returns the same contents. |
| VersionChecker.FallbackKeepsCache | src/Services/VersionChecker.php:175-179 | These leave both files unchanged and return the cached contents, or null: a failed request, any status other than 200 and 304, or a 304 without a cached file. |
| VersionChecker.RevalidationReturnsSameBody | src/Services/VersionChecker.php:139-173 | After a 200, a later 304 returns the body of that 200. The revalidation sends the trimmed `Last-Modified` of the 200, or the older token when the 200 had none. |
| VersionChecker.RefreshedCacheIsFresh | src/Services/VersionChecker.php:131-134 | After a 200, or a 304 on a cached payload, every fetch within the next day is answered from the cache without a request. |
| VersionChecker.Field | src/Services/VersionChecker.php:119 | Array access under `??`: a present, non-null member of an object. |
| VersionChecker.First | src/Services/VersionChecker.php:119 | `[0]` under `??`: the first list item, or the member keyed `"0"`, unless it is null. |
| VersionChecker.GetLatestVersion | src/Services/VersionChecker.php:110-124 | Falsy data gives null. A missing field gives `""`. A string field gives that string with its leading `v` characters removed. A list or object in the field, and only that, raises an error the code does not catch. |
| VersionChecker.LatestFromFeed | src/Services/VersionChecker.php:110-124 | For any feed with a `packages` object holding a non-empty `laravel/installer` list whose first release has a string `version`, other keys allowed, the result is that version without its `v` prefix. |
| VersionChecker.ParseVersion | src/Services/VersionChecker.php:26 | A dotted numeric version parses to its list of component values. Anything else does not parse. |
| VersionChecker.OlderIrreflexive | src/Services/VersionChecker.php:26 | No version is older than itself. |
| VersionChecker.OlderTransitive | src/Services/VersionChecker.php:26 | "Older" is transitive. |
| VersionChecker.OlderTotal | src/Services/VersionChecker.php:26 | Any two different versions are ordered one way or the other. |
| VersionChecker.NotifyExamples | src/Services/VersionChecker.php:21-28 | For installed 5.0.0: 5.1 is announced. 5.0.0, an empty answer and no answer are not. |
| VersionChecker.NoNoticeForCurrentOrOlder | src/Services/VersionChecker.php:26-28 | No notice when the latest version equals the current one or is older. |
| VersionChecker.RouteByLocation | src/Services/VersionChecker.php:38-49 | A path with a `Herd` directory anywhere means Herd, even below `herd-lite`. A path with a `herd-lite` directory and no `Herd` one means Herd Lite. An executable that is not found means Composer. |
| VersionChecker.UpdateCheck | src/Services/VersionChecker.php:21-49 | A route is chosen exactly when a notice is due. Then the latest version is numeric, differs from the installed one and is not older than it. The route is the installer path's. |
| VersionChecker.HerdLitePath | src/Services/VersionChecker.php:192-200 | A Herd Lite path is not mistaken for a Herd one. |
| PackageManagerDetector.Detect | src/Services/PackageManagerDetector.php:16-49 | Flags take the priority pnpm > bun > yarn > npm, with shouldRun true. Without flags, shouldRun is false. The result is then the first non-NPM manager in case order that has a lock file, or NPM when none has one. |
| PackageManagerDetector.CleanupLockFiles | src/Services/PackageManagerDetector.php:51-68 | Nothing is removed without a chosen manager. Otherwise exactly the known lock files the chosen manager does not use are removed from the directory. |
| PackageManagerDetector.CleanupOutcome | src/Services/PackageManagerDetector.php:57-67 | After cleanup, no foreign lock file remains. The chosen manager's lock files and all other files are untouched. |
| EnvFile.ConnectionRewriteIsPerLine | src/Services/DatabaseConfigurator.php:80-90 | The `/DB_CONNECTION=.*/` replacement equals an independent per-line rule: on each line, the first `DB_CONNECTION=` and the rest of that line become `DB_CONNECTION=<driver>`. |
| EnvFile.NoConnectionUntouched | src/Services/DatabaseConfigurator.php:80-90 | A file without `DB_CONNECTION=` is left unchanged. |
| EnvFile.CommentAll | src/Services/DatabaseConfigurator.php:114 | Every line gets `# ` in front, one for one and in order. |
| EnvFile.CommentedLines | src/Services/DatabaseConfigurator.php:106-114 | Each of the five commented lines is its default line behind `# `. The first is the marker `# DB_HOST=127.0.0.1`. |
| EnvFile.SqliteRepeatIsNoOp | src/Services/DatabaseConfigurator.php:100-119 | After the SQLite rewrite, `.env` holds the marker. A second run therefore changes neither file. |
| EnvFile.DefaultPort | src/Services/DatabaseConfigurator.php:14-17 | Only pgsql (5432) and sqlsrv (1433) have their own port. |
| EnvFile.DatabaseName | src/Services/DatabaseConfigurator.php:153 | The database name is the project name, character by character, lower-cased with `-` turned into `_`. It has no `-` and no upper-case ASCII letter. |
| EnvFile.PortRewritten | src/Services/DatabaseConfigurator.php:137-150 | For pgsql and sqlsrv, a `DB_PORT=3306` line ends up with the driver's port. |
| DatabaseConfigurator.SelectAppend | src/Services/DatabaseConfigurator.php:191 | Selecting from two lists joined is selecting from each and joining the results, so the selection keeps list order. |
| DatabaseConfigurator.MenuOrder | src/Services/DatabaseConfigurator.php:181-191 | The menu holds every driver once. Those with a loaded extension come first. Within each group, the drivers keep their list order, as the stable `uasort` leaves them. |
| DatabaseConfigurator.StableGroups | src/Services/DatabaseConfigurator.php:181-191 | For any driver list, putting the loaded ones first keeps its length and its members, and each group keeps its order. |
| DatabaseConfigurator.SelectPartition | src/Services/DatabaseConfigurator.php:191 | The loaded and missing drivers together account for every driver. |
| DatabaseConfigurator.AvailableDatabases | src/Services/DatabaseConfigurator.php:181-197 | The menu in that order. Each caption is the driver's name, marked `(Missing PDO extension)` when its extension is not loaded. |
| DatabaseConfigurator.DefaultDatabase | src/Services/DatabaseConfigurator.php:50-51 | The default is the first menu entry: sqlite, mysql, pgsql or sqlsrv, whichever extension is loaded first in that order. With none loaded, it is sqlite. |
| DatabaseConfigurator.PromptForDatabaseOptions | src/Services/DatabaseConfigurator.php:45-75 | With a starter kit: the configured database and no migrations. With the menu, the selection is used, and SQLite always migrates while other drivers migrate as confirmed. Otherwise: the database, or the default when it is falsy, and migrations always run, because the option is always defined. |
| DatabaseConfigurator.ReplaceInFile | src/Services/DatabaseConfigurator.php:205-209 | A missing file raises and changes nothing. Otherwise the file is rewritten by the sequential `str_replace` and written once. |
| DatabaseConfigurator.PregReplaceConnection | src/Services/DatabaseConfigurator.php:211-215 | The same for the `DB_CONNECTION` pattern. |
| DatabaseConfigurator.ConfigureSqlite | src/Services/DatabaseConfigurator.php:100-119 | Both files get the commenting rewrite, guarded by the marker in `.env`. Only files are written. Without `.env.example`, `.env` is rewritten and then the read of `.env.example` raises, unless the marker skips both. |
| DatabaseConfigurator.ConfigureNonSqlite | src/Services/DatabaseConfigurator.php:121-156 | Both files are uncommented, then get the port and then the database name, each step on `.env` first. Without `.env.example`, `.env` is uncommented and then the step raises. |
| DatabaseConfigurator.NonSqliteSteps | src/Services/DatabaseConfigurator.php:121-156 | The three two-file steps compose into one rewrite per file. |
| DatabaseConfigurator.ConfigureConnection | src/Services/DatabaseConfigurator.php:77-98 | The connection line is set in both files, then the SQLite or non-SQLite rewrite follows. A missing `.env` raises before anything is written. A missing `.env.example` raises after the connection line of `.env` is written. |
| DatabaseConfigurator.MigrateCommandShape | src/Services/DatabaseConfigurator.php:171-176 | The command is `<php> artisan migrate`, with ` --no-interaction` exactly when the run is not interactive. |
| DatabaseConfigurator.RunMigrations | src/Services/DatabaseConfigurator.php:158-179 | For SQLite, an empty database file is created only when none exists. Then the migrate command is streamed in the project directory, starting from that tree. The tree afterwards is what the migrations leave. |
| DatabaseConfigurator.Configure | src/Services/DatabaseConfigurator.php:25-43 | A missing `.env` raises before anything changes. A missing `.env.example` raises after `.env` got the `APP_URL` and connection lines. With both files, both end up fully configured. Without migrations, that is the final state and only files were written. With migrations, the migrate batch is the last effect and starts from the configured files. |
| PestInstaller.InstallCommands | src/Services/PestInstaller.php:28-36 | The seven commands, in order: remove PHPUnit without updating, require Pest and its Laravel plugin as dev dependencies without updating, `composer update`, `pest --init`, require the drift plugin, run `pest --drift`, then remove the drift plugin. Each uses the configured Composer or PHP binary. |
| PestInstaller.AfterLast | src/Services/PestInstaller.php:94 | The text after the last separator. There is none exactly when the separator is absent. |
| PestInstaller.Extension | src/Services/PestInstaller.php:94 | The extension is what follows the last dot of the base name. It contains neither a dot nor a slash. |
| PestInstaller.ExtensionIsPhp | src/Services/PestInstaller.php:94 | A file counts as PHP exactly when its path ends in `.php`. |
| PestInstaller.RewrittenIffUses | src/Services/PestInstaller.php:98-107 | A test script is written back exactly when it contains the `uses(RefreshDatabase)` line. |
| PestInstaller.PestConfigRewrittenTwice | src/Services/PestInstaller.php:67-80 | `tests/Pest.php` first gets `->use(RefreshDatabase)` uncommented. Then, as a `.php` file under `tests`, it loses any `uses(RefreshDatabase)` line. |
| PestInstaller.RewriteChanged | src/Services/PestInstaller.php:93-108 | The loop leaves every selected file rewritten. It writes only files whose contents changed, and every one of those. |
| PestInstaller.RemoveRefreshDatabaseFromTests | src/Services/PestInstaller.php:83-109 | Without the tests directory, nothing changes. Otherwise every `.php` file below it loses the line. Exactly the files that contained it are written. |
| PestInstaller.ReplaceInFile | src/Services/PestInstaller.php:111-115 | A missing file raises. Otherwise the file is rewritten and written once. |
| PestInstaller.ConfigureStarterKit | src/Services/PestInstaller.php:55-81 | It succeeds exactly when each named path is a file or does not exist. On success the files are: the workflow switched to `./vendor/bin/pest` if it exists, Pest.php enabled if it exists, and the test scripts stripped. |
| PestInstaller.Install | src/Services/PestInstaller.php:20-53 | The Pest batch runs first, on the tree as it was. Then the starter-kit rewrites happen, only with a kit, on the tree the Pest batch left. Last comes the `Install Pest` commit, only with git and only after the rewrites succeeded; it starts from the rewritten tree. |
| GitService.DefaultBranch | src/Services/GitService.php:14-22 | The trimmed output when the process succeeded and that output is truthy, otherwise `main`. The result is never blank or `0`. |
| GitService.DefaultBranchTrimmed | src/Services/GitService.php:19-21 | The branch has no surrounding whitespace. |
| GitService.Initialize | src/Services/GitService.php:24-34 | Four commands, silent, in the project directory: `git init -q`, `git add .`, the initial commit, then `git branch -M <branch>`. |
| GitService.CommitMessageRoundTrip | src/Services/GitService.php:36-44 | The commit batch stages everything first. Reading the message back from the commit command gives the message passed in. |
| GitService.InitializeCommitsInitialMessage | src/Services/GitService.php:24-34 | The initial batch is `git init -q`, then the commit batch for `Set up a fresh Laravel app`, then the branch rename. The commit command reads back as that message. |
| GitService.InitializeLine | src/Services/GitService.php:24-33 | The composed shell line of the initial batch. |
| GitService.InitializeFailure | src/Services/GitService.php:33 | A failed initial batch raises with that whole line, then the error output. |
| GitService.GitBatchesTakeNoFlags | src/Services/GitService.php:26-41 | Every git command is on the runner's skip list, so flag injection leaves both batches unchanged. |
| GitHubService.RepositoryName | src/Services/GitHubService.php:25-27 | `org/name` for a truthy organization, otherwise the bare name. |
| GitHubService.CreateAndPush | src/Services/GitHubService.php:15-34 | The step is skipped with a warning exactly when `gh` is not authenticated. Otherwise one command runs silently in the project directory with `GIT_TERMINAL_PROMPT=0`. |
| GitHubService.PushCommandLayout | src/Services/GitHubService.php:29-31 | The command is `gh repo create <name>`, then ` --source=. --push `, then the configured flags, and nothing else. |
| NewCommand.StarterKit | src/NewCommand.php:435-452 | The kit follows the priority React > Vue > Livewire > `--using`. Each first-party kit is `laravel/[blank-]<frontend>-starter-kit`, blank exactly under `--no-authentication`. |
| NewCommand.FirstPartyKitsAreLaravelKits | src/NewCommand.php:435-452 | A first-party choice always gives a Laravel kit. It starts with `laravel/blank-` exactly under `--no-authentication`. |
| NewCommand.InstallationDirectory | src/NewCommand.php:466-469 | `.` stays `.`, which no other name gives. Any other name goes below the working directory after a `/`. |
| NewCommand.ValidateProjectName | src/NewCommand.php:168-184 | Any character other than a letter, a number, `-`, `_` or `.` is rejected first. With `--force`, nothing else is checked. Otherwise an existing target is rejected, with the existence test corrected (see Findings). |
| NewCommand.ValidateProjectNameAsWritten | src/NewCommand.php:168-184 | The same rule with the existence test as written. |
| NewCommand.NameDotRefusedAsWritten | src/NewCommand.php:178-181 | As written, the name `.` is refused without `--force` with "Application already exists.". With the corrected test it is accepted. |
| NewCommand.VerifyProjectDirectory | src/NewCommand.php:186-200 | With `--force`, only `.` is refused, with its own message. Without it, an existing target is refused with "Application already exists!". |
| NewCommand.VerifyProjectDirectoryAsWritten | src/NewCommand.php:186-200 | The same checks with the existence test as written: with `--force`, only `.` is refused; without it, a target the test finds is refused. |
| NewCommand.ValidateDatabaseDriver | src/NewCommand.php:454-464 | An error exactly for a truthy driver outside the five. The message contains the rejected driver and each of the five. |
| NewCommand.DriverListText | src/NewCommand.php:460-461 | The list reads `mysql, mariadb, pgsql, sqlite, sqlsrv` in the message. |
| NewCommand.AnswerVolt | src/NewCommand.php:230-235 | The Volt question is asked only for Livewire with authentication and without WorkOS. Choosing Volt turns class components off. Nothing else changes. |
| NewCommand.VoltKeepsKit | src/NewCommand.php:230-235 | The Volt answer never changes the kit. |
| NewCommand.BuildConfiguration | src/NewCommand.php:273-276 | An invalid driver aborts before any record is built, and only then. |
| NewCommand.ConfigurationInvariants | src/NewCommand.php:276-301 | In every built record:<br>- GitHub implies git;<br>- the GitHub flags are truthy;<br>- the name is the argument minus trailing `/` and `\`, and ends in neither;<br>- the database is supported or falsy;<br>- the directory is `.` exactly for the name `.`;<br>- the branch is truthy when git's default is;<br>- no package manager is chosen yet. |
| NewCommand.ConfigurationFollowsOptions | src/NewCommand.php:279-289 | A first-party flag yields a Laravel kit; otherwise `--using` decides. Git and GitHub follow `--git` and `--github`. A truthy `--github` value becomes the flags. Without a truthy `--branch`, git's default branch is used. The version is `dev-master` exactly with `--dev`. |
| NewCommand.DevSelectsMaster | src/NewCommand.php:471-474 | Without a starter kit, the create command installs `dev-master` with `--dev`, and otherwise gets an empty version. |
| NewCommand.DatabaseMenuNeedsBlankOption | src/NewCommand.php:285 | The later database menu is reached only through an explicitly blank `--database`. Without the option, a project without a kit gets SQLite and runs its migrations. |
| NewCommand.SetupPackageManagerAsWritten | src/NewCommand.php:352-356 | Assigning into the readonly record always ends in an error (see Findings). |
| NewCommand.SetupPackageManager | src/NewCommand.php:345-370 | The steps run in order:<br>1. Detect; the flag priority picks the manager. Without flags, the manager is the first in case order with a lock file in the directory, or npm.<br>2. The run decision is the flag's, or the confirmation when detection did not settle it and the run is interactive.<br>3. Foreign lock files are removed.<br>4. The asset batch runs exactly when the manager should run, and it starts from the cleaned tree. Without it, the cleaned tree is the final state.<br>No other field of the record changes. |
| NewCommand.CurrentDirectoryAlwaysExists | src/NewCommand.php:409-412 | As written, `.` always counts as an existing project when the working directory is absolute. |
| NewCommand.CurrentDirectoryRefused | src/NewCommand.php:186-200 | As written, an interactive `new .` is refused both with and without `--force`. With the resolved test, it is accepted without `--force`. |
| NewCommand.ResolvedTestAcceptsCurrentDirectory | src/NewCommand.php:409-412 | The resolved existence test never refuses `.`. It agrees with the code on every other path. |

## Left out

- Process spawning, TTY handling, streaming callbacks, curl, `time()`/`filemtime` and the real filesystem. A finished process is its exit code and error output. An HTTP exchange is an `HttpOutcome`. The filesystem is the `Workspace` maps. The clock is a parameter.
- The interactive and display code: the prompts, the banner, `displaySuccessMessage`, `ensureExtensionsAreAvailable`, and the update handlers after the route is chosen (Herd, Herd Lite, Composer, and the `exit` in `proxyToLaravel`). Prompt answers are parameters.
- `interact` and `execute` as orchestrations. The option mutations in `promptForStarterKit`, `promptForAuthentication` and `promptForTestingFramework` are not modelled. Neither is the order in which `execute` calls the services, which are modelled one by one. Only the Volt answer (`AnswerVolt`) is modelled.
- src/ServiceProvider.php: dependency wiring only.
- src/Services/PhpBinaryLocator.php and `getComposerBinary`: the PHP and Composer binaries are opaque strings in `Host`.
- `escapeshellarg`: an opaque function carried by `Host`.
- PHP's full `version_compare`: versions are compared as dotted numeric sequences; any other version string yields no notice.
- `json_decode`: a parameter returning an already-decoded `Json` tree.
- The `NodePackageManager` enum is not part of this model. Its cases, lock files and commands are the `Catalog` parameter.
- The Unicode `\pL` and `\pN` classes of the name rule: an abstract character predicate parameter of `ValidateProjectName`.
- The `Last-Modified` header regex: the response carries the header value already extracted.
- The logger calls, and the message of a `mustRun` failure beyond the command line and exit code.
- `RecursiveDirectoryIterator` order: the rewrite loop visits the tests in an unspecified order. The result does not depend on it, and the contracts state only which files are written, not in what order.
- What the command batches write (Composer, `pest --init` and the drift conversion, the asset build, `artisan migrate`, git): the tree a batch leaves is an input of `Workspace.Run`. The model states which tree each batch starts from, not what it produces.
- ProjectBuilder.KitVariants: when the token ` kit ` also occurs inside the escaped directory, `str_replace` rewrites that occurrence as well; the lemma assumes the token occurs once.
- PestInstaller.Install: the order of the writes made by the starter-kit step is not stated, only that they are writes.
- DatabaseConfigurator.MigrateCommandShape: the code passes `<php> artisan migrate %s` to `sprintf` as the format (src/Services/DatabaseConfigurator.php:172-175), so a `%` in the PHP binary path would be read as a conversion. The model joins the strings as they are and assumes the path holds no `%`.

## Findings

| source | as written | input that shows it | evidently intended | confidence | as-written member | corrected member |
|---|---|---|---|---|---|---|
| src/NewCommand.php:352-356 | `setupPackageManager` assigns `packageManager` and `shouldRunPackageManager` on a `readonly` `ProjectConfiguration` (src/ValueObjects/ProjectConfiguration.php:6). PHP raises an `Error` there. `execute` catches only `RuntimeException`, so the run aborts before lock-file cleanup and the asset build. | any run that reaches the step, e.g. `laravel new app -n` | carry the detected manager and the run decision in a new record, then clean up and build | high, not executed | NewCommand.SetupPackageManagerAsWritten | NewCommand.SetupPackageManager |
| src/NewCommand.php:409-412 | `projectExists('.')` compares the literal `.` with the absolute `getcwd()`. The comparison never matches, so the current directory always counts as an existing project. | interactive `laravel new .` in `/home/u/app` without `--force`: refused with "Application already exists!" | resolve `.` to the working directory before comparing, so the current directory may be used | medium, not executed | NewCommand.CurrentDirectoryRefused | NewCommand.VerifyProjectDirectory |
| src/NewCommand.php:178-181 | `validateProjectName` uses the same `projectExists` test, so the name prompt also treats `.` as an existing application. | interactive `laravel new` in `/home/u/app`, answering `.` to the name prompt without `--force`: refused with "Application already exists." | resolve `.` to the working directory, so `.` is accepted | medium, not executed | NewCommand.NameDotRefusedAsWritten | NewCommand.ValidateProjectName |
