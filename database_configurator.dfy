/**
 * Choosing the database and configuring the new project for it
 * (`DatabaseConfigurator`): the driver list, the prompt decision, the rewrites
 * of `.env` and `.env.example`, and the migration run.
 */
module DatabaseConfigurator {
  import opened Wrappers
  import opened Text
  import opened CommandRunner
  import opened ProjectConfiguration
  import opened Files
  import opened EnvFile

  // ---------------------------------------------------------------------
  // The driver list

  /** A driver: its key, its display name and the PDO extension it needs. */
  datatype Driver = Driver(key: string, title: string, extension: string)

  const Drivers: seq<Driver> := [
    Driver("sqlite", "SQLite", "pdo_sqlite"),
    Driver("mysql", "MySQL", "pdo_mysql"),
    Driver("mariadb", "MariaDB", "pdo_mysql"),
    Driver("pgsql", "PostgreSQL", "pdo_pgsql"),
    Driver("sqlsrv", "SQL Server", "pdo_sqlsrv")]

  /** An entry of the database menu: its key and the text shown. */
  datatype DatabaseOption = DatabaseOption(key: string, caption: string)

  function Label(d: Driver, loaded: string -> bool): string {
    d.title + (if loaded(d.extension) then "" else " (Missing PDO extension)")
  }

  /** The drivers whose extension is (`want`) or is not (`!want`) loaded, in list order. */
  function Select(ds: seq<Driver>, loaded: string -> bool, want: bool): (r: seq<Driver>)
    ensures forall d :: d in r ==> d in ds && loaded(d.extension) == want
    ensures forall d :: d in ds && loaded(d.extension) == want ==> d in r
    ensures |r| <= |ds|
    decreases |ds|
  {
    if |ds| == 0 then []
    else if loaded(ds[0].extension) == want then [ds[0]] + Select(ds[1..], loaded, want)
    else Select(ds[1..], loaded, want)
  }

  /**
   * Selection is a filter that keeps list order: selecting from two lists
   * one after the other is selecting from each and concatenating.
   */
  lemma {:induction false} SelectAppend(xs: seq<Driver>, ys: seq<Driver>, loaded: string -> bool, want: bool)
    ensures Select(xs + ys, loaded, want) == Select(xs, loaded, want) + Select(ys, loaded, want)
    decreases |xs|
  {
    if |xs| > 0 {
      assert (xs + ys)[1..] == xs[1..] + ys;
      SelectAppend(xs[1..], ys, loaded, want);
    } else {
      assert xs + ys == ys;
    }
  }

  /** Selecting again from a selection keeps it whole, or leaves nothing of it. */
  lemma {:induction false} SelectOfSelect(ds: seq<Driver>, loaded: string -> bool, want: bool)
    ensures Select(Select(ds, loaded, want), loaded, want) == Select(ds, loaded, want)
    ensures Select(Select(ds, loaded, want), loaded, !want) == []
    decreases |ds|
  {
    if |ds| > 0 {
      SelectOfSelect(ds[1..], loaded, want);
      if loaded(ds[0].extension) == want {
        var rest := Select(ds[1..], loaded, want);
        assert ([ds[0]] + rest)[1..] == rest;
      }
    }
  }

  /**
   * Putting the selected drivers first and the others after them keeps
   * every driver once, puts the loaded ones first, and keeps the order
   * within each group.
   */
  lemma StableGroups(ds: seq<Driver>, loaded: string -> bool)
    ensures var r := Select(ds, loaded, true) + Select(ds, loaded, false);
      && |r| == |ds|
      && (forall d :: d in r <==> d in ds)
      && (forall i, j :: 0 <= i < j < |r| && !loaded(r[i].extension) ==> !loaded(r[j].extension))
      && Select(r, loaded, true) == Select(ds, loaded, true)
      && Select(r, loaded, false) == Select(ds, loaded, false)
  {
    GroupsCover(ds, loaded);
    GroupsKeepOrder(ds, loaded, true);
    GroupsKeepOrder(ds, loaded, false);
  }

  lemma GroupsCover(ds: seq<Driver>, loaded: string -> bool)
    ensures var r := Select(ds, loaded, true) + Select(ds, loaded, false);
      && |r| == |ds|
      && (forall d :: d in r <==> d in ds)
      && (forall i, j :: 0 <= i < j < |r| && !loaded(r[i].extension) ==> !loaded(r[j].extension))
  {
    var first := Select(ds, loaded, true);
    var rest := Select(ds, loaded, false);
    SelectPartition(ds, loaded);
    assert forall j :: |first| <= j < |first + rest| ==> (first + rest)[j] in rest;
  }

  lemma GroupsKeepOrder(ds: seq<Driver>, loaded: string -> bool, want: bool)
    ensures Select(Select(ds, loaded, true) + Select(ds, loaded, false), loaded, want) == Select(ds, loaded, want)
  {
    SelectAppend(Select(ds, loaded, true), Select(ds, loaded, false), loaded, want);
    SelectOfSelect(ds, loaded, true);
    SelectOfSelect(ds, loaded, false);
  }

  /**
   * The order `uasort` leaves the drivers in: those with a loaded extension
   * first; the sort is stable, so each group keeps list order.
   */
  function MenuOrder(loaded: string -> bool): (r: seq<Driver>)
    ensures |r| == |Drivers|
    ensures forall d :: d in r <==> d in Drivers
    ensures forall i, j :: 0 <= i < j < |r| && !loaded(r[i].extension) ==> !loaded(r[j].extension)
    ensures Select(r, loaded, true) == Select(Drivers, loaded, true)
    ensures Select(r, loaded, false) == Select(Drivers, loaded, false)
  {
    StableGroups(Drivers, loaded);
    Select(Drivers, loaded, true) + Select(Drivers, loaded, false)
  }

  lemma {:induction false} SelectPartition(ds: seq<Driver>, loaded: string -> bool)
    ensures |Select(ds, loaded, true)| + |Select(ds, loaded, false)| == |ds|
    decreases |ds|
  {
    if |ds| > 0 {
      SelectPartition(ds[1..], loaded);
    }
  }

  /** `getAvailableDatabases`: the menu in that order, noting a missing extension. */
  function AvailableDatabases(loaded: string -> bool): (options: seq<DatabaseOption>)
    ensures |options| == |MenuOrder(loaded)|
    ensures forall i :: 0 <= i < |options| ==>
      options[i].key == MenuOrder(loaded)[i].key && options[i].caption == Label(MenuOrder(loaded)[i], loaded)
  {
    var ordered := MenuOrder(loaded);
    seq(|ordered|, i requires 0 <= i < |ordered| => DatabaseOption(ordered[i].key, Label(ordered[i], loaded)))
  }

  /** `array_key_first` of the menu: the default choice. */
  function DefaultDatabase(loaded: string -> bool): (key: string)
    ensures loaded("pdo_sqlite") ==> key == "sqlite"
    ensures !loaded("pdo_sqlite") && loaded("pdo_mysql") ==> key == "mysql"
    ensures !loaded("pdo_sqlite") && !loaded("pdo_mysql") && loaded("pdo_pgsql") ==> key == "pgsql"
    ensures !loaded("pdo_sqlite") && !loaded("pdo_mysql") && !loaded("pdo_pgsql") && loaded("pdo_sqlsrv") ==> key == "sqlsrv"
    ensures !loaded("pdo_sqlite") && !loaded("pdo_mysql") && !loaded("pdo_pgsql") && !loaded("pdo_sqlsrv") ==> key == "sqlite"
  {
    AvailableDatabases(loaded)[0].key
  }

  // ---------------------------------------------------------------------
  // The prompt decision

  /** The database to configure and whether to migrate. */
  datatype DatabaseChoice = DatabaseChoice(database: string, shouldMigrate: bool)

  /** The menu is shown only for an interactive run without a starter kit and without a database. */
  predicate Prompts(config: Config) {
    !IsUsingStarterKit(config) && !Truthy(Some(config.database)) && config.isInteractive
  }

  /**
   * `promptForDatabaseOptions`, with the answers to the menu (`selected`) and
   * to the migration question (`confirmMigrate`) as inputs. The last branch
   * migrates because the `database` option is always defined on the command,
   * whether or not it was given.
   */
  function PromptForDatabaseOptions(config: Config, loaded: string -> bool, selected: string, confirmMigrate: bool)
    : (choice: DatabaseChoice)
    ensures IsUsingStarterKit(config) ==> choice == DatabaseChoice(config.database, false)
    ensures Prompts(config) ==> choice.database == selected
    ensures Prompts(config) && selected == "sqlite" ==> choice.shouldMigrate
    ensures Prompts(config) && selected != "sqlite" ==> choice.shouldMigrate == confirmMigrate
    ensures !IsUsingStarterKit(config) && !Prompts(config) ==>
      choice == DatabaseChoice(if Truthy(Some(config.database)) then config.database else DefaultDatabase(loaded), true)
  {
    if IsUsingStarterKit(config) then DatabaseChoice(config.database, false)
    else if !Truthy(Some(config.database)) && config.isInteractive then
      DatabaseChoice(selected, if selected == "sqlite" then true else confirmMigrate)
    else
      DatabaseChoice(if Truthy(Some(config.database)) then config.database else DefaultDatabase(loaded), true)
  }

  // ---------------------------------------------------------------------
  // Rewriting the environment files

  /** `replaceInFile` (array form; a single pair is a one-element array). */
  method ReplaceInFile(ws: Workspace, search: seq<string>, replace: seq<string>, file: string)
    returns (o: Outcome<FileError>)
    requires |search| == |replace|
    modifies ws
    ensures ws.dirs == old(ws.dirs)
    ensures file !in old(ws.files) ==> o == Fail(FileNotFound(file)) && ws.files == old(ws.files) && ws.trace == old(ws.trace)
    ensures file in old(ws.files) ==> (o == Pass
      && ws.files == old(ws.files)[file := ReplaceEach(old(ws.files)[file], search, replace)]
      && ws.trace == old(ws.trace) + [Wrote(file)])
  {
    if file !in ws.files {
      return Fail(FileNotFound(file));
    }
    ws.Put(file, ReplaceEach(ws.files[file], search, replace));
    return Pass;
  }

  /** `pregReplaceInFile` with the `DB_CONNECTION=` pattern. */
  method PregReplaceConnection(ws: Workspace, database: string, file: string) returns (o: Outcome<FileError>)
    modifies ws
    ensures ws.dirs == old(ws.dirs)
    ensures file !in old(ws.files) ==> o == Fail(FileNotFound(file)) && ws.files == old(ws.files) && ws.trace == old(ws.trace)
    ensures file in old(ws.files) ==> (o == Pass
      && ws.files == old(ws.files)[file := SetConnection(old(ws.files)[file], database)]
      && ws.trace == old(ws.trace) + [Wrote(file)])
  {
    if file !in ws.files {
      return Fail(FileNotFound(file));
    }
    ws.Put(file, SetConnection(ws.files[file], database));
    return Pass;
  }

  /** `.env` after `configureConnection`, from its contents before it. */
  function ConfiguredEnv(env: string, database: string, name: string): string {
    var env1 := SetConnection(env, database);
    if database == "sqlite" then SqliteRewrite(env1, env1) else NonSqliteRewrite(env1, database, name)
  }

  /** `.env.example` after `configureConnection`; the SQLite guard looks at `.env`. */
  function ConfiguredExample(example: string, env: string, database: string, name: string): string {
    var example1 := SetConnection(example, database);
    if database == "sqlite" then SqliteRewrite(example1, SetConnection(env, database))
    else NonSqliteRewrite(example1, database, name)
  }

  function EnvPath(directory: string): string { directory + "/.env" }
  function ExamplePath(directory: string): string { directory + "/.env.example" }

  lemma PathsDiffer(directory: string)
    ensures EnvPath(directory) != ExamplePath(directory)
  {
    assert |EnvPath(directory)| != |ExamplePath(directory)|;
  }

  /** `configureSqlite`: comment the defaults in both files unless `.env` has the marker. */
  method ConfigureSqlite(ws: Workspace, directory: string) returns (o: Outcome<FileError>)
    modifies ws
    ensures ws.dirs == old(ws.dirs) && WritesOnly(old(ws.trace), ws.trace)
    ensures var env := EnvPath(directory); var example := ExamplePath(directory);
      && (env !in old(ws.files) ==> o.Fail? && ws.files == old(ws.files))
      && (env in old(ws.files) && example in old(ws.files) ==>
            o == Pass
            && ws.files == old(ws.files)[env := SqliteRewrite(old(ws.files)[env], old(ws.files)[env])]
                                        [example := SqliteRewrite(old(ws.files)[example], old(ws.files)[env])])
    ensures var env := EnvPath(directory); var example := ExamplePath(directory);
      env in old(ws.files) && example !in old(ws.files) ==>
        && o == (if Contains(old(ws.files)[env], Marker) then Pass else Fail(FileNotFound(example)))
        && ws.files == old(ws.files)[env := SqliteRewrite(old(ws.files)[env], old(ws.files)[env])]
  {
    PathsDiffer(directory);
    var env := EnvPath(directory);
    if env !in ws.files {
      return Fail(FileNotFound(env));
    }
    var environment := ws.files[env];
    if !Contains(environment, Marker) {
      o := ReplaceInFile(ws, Defaults, Commented, env);
      o := ReplaceInFile(ws, Defaults, Commented, ExamplePath(directory));
    } else {
      o := Pass;
    }
  }

  /** One `replaceInFile` on `.env` followed by the same on `.env.example`. */
  method ReplaceInBoth(ws: Workspace, search: seq<string>, replace: seq<string>, directory: string)
    returns (o: Outcome<FileError>)
    requires |search| == |replace|
    modifies ws
    ensures ws.dirs == old(ws.dirs) && WritesOnly(old(ws.trace), ws.trace)
    ensures var env := EnvPath(directory); var example := ExamplePath(directory);
      && (env !in old(ws.files) ==> o.Fail? && ws.files == old(ws.files))
      && (env in old(ws.files) && example in old(ws.files) ==>
            o == Pass
            && ws.files == old(ws.files)[env := ReplaceEach(old(ws.files)[env], search, replace)]
                                        [example := ReplaceEach(old(ws.files)[example], search, replace)])
    ensures var env := EnvPath(directory); var example := ExamplePath(directory);
      env in old(ws.files) && example !in old(ws.files) ==>
        && o == Fail(FileNotFound(example))
        && ws.files == old(ws.files)[env := ReplaceEach(old(ws.files)[env], search, replace)]
  {
    PathsDiffer(directory);
    o := ReplaceInFile(ws, search, replace, EnvPath(directory));
    if o.Fail? { return; }
    o := ReplaceInFile(ws, search, replace, ExamplePath(directory));
  }

  /** `configureNonSqlite`: uncomment, set the port, set the database name, each in both files. */
  method ConfigureNonSqlite(ws: Workspace, directory: string, database: string, name: string) returns (o: Outcome<FileError>)
    modifies ws
    ensures ws.dirs == old(ws.dirs) && WritesOnly(old(ws.trace), ws.trace)
    ensures var env := EnvPath(directory); var example := ExamplePath(directory);
      && (env !in old(ws.files) ==> o.Fail? && ws.files == old(ws.files))
      && (env in old(ws.files) && example in old(ws.files) ==>
            o == Pass
            && ws.files == old(ws.files)[env := NonSqliteRewrite(old(ws.files)[env], database, name)]
                                        [example := NonSqliteRewrite(old(ws.files)[example], database, name)])
    ensures var env := EnvPath(directory); var example := ExamplePath(directory);
      env in old(ws.files) && example !in old(ws.files) ==>
        && o == Fail(FileNotFound(example))
        && ws.files == old(ws.files)[env := Uncomment(old(ws.files)[env])]
  {
    PathsDiffer(directory);
    ghost var env := EnvPath(directory);
    ghost var example := ExamplePath(directory);
    ghost var f0 := ws.files;
    o := ReplaceInBoth(ws, Commented, Defaults, directory);
    if o.Fail? { return; }
    ghost var t0 := ws.trace;
    ghost var f1 := ws.files;
    var port := DefaultPort(database);
    if port.Some? {
      o := ReplaceInBoth(ws, ["DB_PORT=3306"], ["DB_PORT=" + port.value], directory);
    }
    assert WritesOnly(t0, ws.trace);
    ghost var t1 := ws.trace;
    ghost var f2 := ws.files;
    o := ReplaceInBoth(ws, ["DB_DATABASE=laravel"], ["DB_DATABASE=" + DatabaseName(name)], directory);
    WritesOnlyChain(old(ws.trace), t0, t1, ws.trace);
    if env in f0 && example in f0 {
      NonSqliteSteps(f0, f1, f2, ws.files, env, example, database, name);
    }
  }

  /** The three two-file steps of `configureNonSqlite` compose to `NonSqliteRewrite` on each file. */
  lemma NonSqliteSteps(f0: map<string, string>, f1: map<string, string>, f2: map<string, string>, f3: map<string, string>,
                       env: string, example: string, database: string, name: string)
    requires env != example && env in f0 && example in f0
    requires f1 == f0[env := ReplaceEach(f0[env], Commented, Defaults)][example := ReplaceEach(f0[example], Commented, Defaults)]
    requires DefaultPort(database).None? ==> f2 == f1
    requires DefaultPort(database).Some? ==>
      var s := ["DB_PORT=3306"]; var r := ["DB_PORT=" + DefaultPort(database).value];
      f2 == f1[env := ReplaceEach(f1[env], s, r)][example := ReplaceEach(f1[example], s, r)]
    requires var s := ["DB_DATABASE=laravel"]; var r := ["DB_DATABASE=" + DatabaseName(name)];
      f3 == f2[env := ReplaceEach(f2[env], s, r)][example := ReplaceEach(f2[example], s, r)]
    ensures f3 == f0[env := NonSqliteRewrite(f0[env], database, name)][example := NonSqliteRewrite(f0[example], database, name)]
  {
    SingleReplace(f0[env], database, name);
    SingleReplace(f0[example], database, name);
  }

  /** A one-pair `str_replace` array is the plain replacement. */
  lemma SingleReplace(contents: string, database: string, name: string)
    ensures var u := Uncomment(contents);
      var p := if DefaultPort(database).Some?
               then ReplaceEach(u, ["DB_PORT=3306"], ["DB_PORT=" + DefaultPort(database).value]) else u;
      ReplaceEach(p, ["DB_DATABASE=laravel"], ["DB_DATABASE=" + DatabaseName(name)]) == NonSqliteRewrite(contents, database, name)
  {
  }

  /**
   * `configureConnection`: the connection line in `.env`, then in
   * `.env.example`, then the driver-specific rewrites. A missing `.env`
   * changes nothing.
   */
  method ConfigureConnection(ws: Workspace, directory: string, database: string, name: string) returns (o: Outcome<FileError>)
    modifies ws
    ensures ws.dirs == old(ws.dirs) && WritesOnly(old(ws.trace), ws.trace)
    ensures var env := EnvPath(directory); var example := ExamplePath(directory);
      && (env !in old(ws.files) ==> o == Fail(FileNotFound(env)) && ws.files == old(ws.files))
      && (env in old(ws.files) && example in old(ws.files) ==>
            o == Pass
            && ws.files == old(ws.files)[env := ConfiguredEnv(old(ws.files)[env], database, name)]
                                        [example := ConfiguredExample(old(ws.files)[example], old(ws.files)[env], database, name)])
    ensures var env := EnvPath(directory); var example := ExamplePath(directory);
      env in old(ws.files) && example !in old(ws.files) ==>
        && o == Fail(FileNotFound(example))
        && ws.files == old(ws.files)[env := SetConnection(old(ws.files)[env], database)]
  {
    PathsDiffer(directory);
    ghost var env := EnvPath(directory);
    ghost var example := ExamplePath(directory);
    o := PregReplaceConnection(ws, database, EnvPath(directory));
    if o.Fail? { return; }
    ghost var t0 := ws.trace;
    o := PregReplaceConnection(ws, database, ExamplePath(directory));
    if o.Fail? { return; }
    ghost var t1 := ws.trace;
    ghost var mid := ws.files;
    if database == "sqlite" {
      o := ConfigureSqlite(ws, directory);
    } else {
      o := ConfigureNonSqlite(ws, directory, database, name);
    }
    WritesOnlyChain(old(ws.trace), t0, t1, ws.trace);
    if example in old(ws.files) {
      assert mid == old(ws.files)[env := SetConnection(old(ws.files)[env], database)]
                                 [example := SetConnection(old(ws.files)[example], database)];
      UpdateTwice(old(ws.files), env, example,
        SetConnection(old(ws.files)[env], database), SetConnection(old(ws.files)[example], database),
        ConfiguredEnv(old(ws.files)[env], database, name),
        ConfiguredExample(old(ws.files)[example], old(ws.files)[env], database, name));
    }
  }

  lemma UpdateTwice(m: map<string, string>, a: string, b: string, x: string, y: string, x': string, y': string)
    requires a != b
    ensures m[a := x][b := y][a := x'][b := y'] == m[a := x'][b := y']
  {
  }

  // ---------------------------------------------------------------------
  // Migrations

  /** The migrate command: `--no-interaction` exactly when the run is not interactive. */
  function MigrateCommand(php: string, interactive: bool): string {
    Trim(php + " artisan migrate " + (if !interactive then "--no-interaction" else ""))
  }

  /** For a PHP binary without surrounding blanks the command is the plain artisan call. */
  lemma MigrateCommandShape(php: string, interactive: bool)
    requires |php| > 0 && php[0] !in Whitespace && php[|php| - 1] !in Whitespace
    ensures MigrateCommand(php, interactive)
      == php + " artisan migrate" + (if !interactive then " --no-interaction" else "")
  {
    var flag := if !interactive then "--no-interaction" else "";
    var s := php + " artisan migrate " + flag;
    var left := TrimLeft(s, Whitespace);
    assert s[0] == php[0];
    assert left == s;
    var want := php + " artisan migrate" + (if !interactive then " --no-interaction" else "");
    if interactive {
      assert s == want + " ";
      TrimRightDropsOne(want, ' ');
    } else {
      assert s == want;
      assert s[|s| - 1] == 'n';
      TrimRightKeeps(s);
    }
  }

  lemma TrimRightDropsOne(w: string, c: char)
    requires c in Whitespace && |w| > 0 && w[|w| - 1] !in Whitespace
    ensures TrimRight(w + [c], Whitespace) == w
  {
  }

  lemma TrimRightKeeps(s: string)
    requires |s| > 0 && s[|s| - 1] !in Whitespace
    ensures TrimRight(s, Whitespace) == s
  {
  }

  function SqlitePath(directory: string): string { directory + "/database/database.sqlite" }

  /** The migrate batch, streamed in the project directory. */
  function MigrateInvocation(config: Config, php: string): Invocation {
    Invocation(Streamed, [MigrateCommand(php, config.isInteractive)], Some(config.directory), map[])
  }

  /**
   * `runMigrations`: for SQLite an empty database file is created when none
   * exists; then the migrate command is streamed in the project directory.
   * What the migrations leave behind is the input `migrated`; the batch
   * starts from the tree with the empty database file in place.
   */
  method RunMigrations(ws: Workspace, config: Config, database: string, php: string, migrated: Snapshot)
    modifies ws
    ensures ws.files == migrated.files && ws.dirs == migrated.dirs
    ensures var created := database == "sqlite" && !old(ws.Exists(SqlitePath(config.directory)));
      var prepared := if created then old(ws.files)[SqlitePath(config.directory) := ""] else old(ws.files);
      ws.trace == old(ws.trace) + (if created then [Wrote(SqlitePath(config.directory))] else [])
        + [Ran(MigrateInvocation(config, php), Snapshot(prepared, old(ws.dirs)))]
  {
    if database == "sqlite" {
      var dbPath := SqlitePath(config.directory);
      if !ws.Exists(dbPath) {
        ws.Put(dbPath, "");
      }
    }
    ws.Run(MigrateInvocation(config, php), migrated);
  }

  /** `generateAppUrl`: fixed in this version of the installer. */
  const AppUrl: string := "http://localhost:8000"

  /** The `APP_URL` line `configure` writes into `.env`. */
  function SetAppUrl(env: string): string {
    ReplaceEach(env, ["APP_URL=http://localhost"], ["APP_URL=" + AppUrl])
  }

  /** Both environment files once `configure` has rewritten them. */
  function ConfiguredFiles(files: map<string, string>, directory: string, database: string, name: string): map<string, string>
    requires EnvPath(directory) in files && ExamplePath(directory) in files
  {
    var env := SetAppUrl(files[EnvPath(directory)]);
    files[EnvPath(directory) := ConfiguredEnv(env, database, name)]
         [ExamplePath(directory) := ConfiguredExample(files[ExamplePath(directory)], env, database, name)]
  }

  /** The tree the migrate batch starts from: the SQLite database file is there, empty when just created. */
  function WithDatabaseFile(files: map<string, string>, dirs: set<string>, directory: string, database: string): map<string, string> {
    var path := SqlitePath(directory);
    if database == "sqlite" && path !in files && path !in dirs then files[path := ""] else files
  }

  /** The `APP_URL` step followed by `configureConnection` gives `ConfiguredFiles`. */
  lemma ConfigureSteps(f: map<string, string>, f0: map<string, string>, f1: map<string, string>,
                       directory: string, database: string, name: string)
    requires EnvPath(directory) in f && ExamplePath(directory) in f
    requires f0 == f[EnvPath(directory) := SetAppUrl(f[EnvPath(directory)])]
    requires f1 == f0[EnvPath(directory) := ConfiguredEnv(f0[EnvPath(directory)], database, name)]
                     [ExamplePath(directory) := ConfiguredExample(f0[ExamplePath(directory)], f0[EnvPath(directory)], database, name)]
    ensures f1 == ConfiguredFiles(f, directory, database, name)
  {
    PathsDiffer(directory);
  }

  /**
   * `configure`: the application URL in `.env`, the connection, and the
   * migrations when chosen. A missing `.env` stops it before anything
   * changes; a missing `.env.example` stops it after `.env` is rewritten.
   * The migrate batch starts from the configured files.
   */
  method Configure(ws: Workspace, config: Config, choice: DatabaseChoice, php: string, migrated: Snapshot)
    returns (o: Outcome<FileError>)
    modifies ws
    ensures EnvPath(config.directory) !in old(ws.files) ==>
      o == Fail(FileNotFound(EnvPath(config.directory))) && ws.files == old(ws.files) && ws.trace == old(ws.trace)
    ensures var env := EnvPath(config.directory); var example := ExamplePath(config.directory);
      env in old(ws.files) && example !in old(ws.files) ==>
        && o == Fail(FileNotFound(example))
        && ws.files == old(ws.files)[env := SetConnection(SetAppUrl(old(ws.files)[env]), choice.database)]
    ensures EnvPath(config.directory) in old(ws.files) && ExamplePath(config.directory) in old(ws.files) ==>
      var configured := ConfiguredFiles(old(ws.files), config.directory, choice.database, config.name);
      && o == Pass
      && (!choice.shouldMigrate ==> ws.files == configured)
      && (choice.shouldMigrate ==>
            && ws.files == migrated.files && ws.dirs == migrated.dirs
            && |ws.trace| > 0
            && ws.trace[|ws.trace| - 1] == Ran(MigrateInvocation(config, php),
                 Snapshot(WithDatabaseFile(configured, old(ws.dirs), config.directory, choice.database), old(ws.dirs))))
    ensures !(o.Pass? && choice.shouldMigrate) ==> ws.dirs == old(ws.dirs) && WritesOnly(old(ws.trace), ws.trace)
  {
    var env := EnvPath(config.directory);
    PathsDiffer(config.directory);
    o := ReplaceInFile(ws, ["APP_URL=http://localhost"], ["APP_URL=" + AppUrl], env);
    if o.Fail? { return; }
    ghost var t0 := ws.trace;
    ghost var f0 := ws.files;
    o := ConfigureConnection(ws, config.directory, choice.database, config.name);
    WritesOnlyChain(old(ws.trace), t0, ws.trace, ws.trace);
    if o.Fail? { return; }
    if ExamplePath(config.directory) in old(ws.files) {
      ConfigureSteps(old(ws.files), f0, ws.files, config.directory, choice.database, config.name);
    }
    if choice.shouldMigrate {
      RunMigrations(ws, config, choice.database, php, migrated);
    }
  }


}
