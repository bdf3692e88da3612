/**
 * Replacing PHPUnit by Pest in a fresh project (`PestInstaller`): one
 * streamed batch of composer and Pest commands, then, for starter kits, three
 * file rewrites (the CI workflow, `tests/Pest.php`, and every PHP file under
 * `tests/`), then an optional "Install Pest" commit.
 */
module PestInstaller {
  import opened Wrappers
  import opened Text
  import opened CommandRunner
  import opened ProjectConfiguration
  import opened Files
  import GitService

  // ---------------------------------------------------------------------
  // The install batch

  /**
   * The seven commands, in order: drop PHPUnit, require Pest and its Laravel
   * plugin without updating, update, initialise Pest, then convert the
   * existing tests with the drift plugin, which is required only for that
   * conversion and removed again at the end.
   */
  function InstallCommands(composer: string, php: string): (cs: seq<string>)
    ensures |cs| == 7
    ensures cs[0] == composer + " remove phpunit/phpunit --dev --no-update"
    ensures cs[1] == composer + " require pestphp/pest pestphp/pest-plugin-laravel --no-update --dev"
    ensures cs[2] == composer + " update"
    ensures cs[3] == php + " ./vendor/bin/pest --init"
    ensures cs[4] == composer + " require pestphp/pest-plugin-drift --dev"
    ensures cs[5] == php + " ./vendor/bin/pest --drift"
    ensures cs[6] == composer + " remove pestphp/pest-plugin-drift --dev"
  {
    [ composer + " remove phpunit/phpunit --dev --no-update",
      composer + " require pestphp/pest pestphp/pest-plugin-laravel --no-update --dev",
      composer + " update",
      php + " ./vendor/bin/pest --init",
      composer + " require pestphp/pest-plugin-drift --dev",
      php + " ./vendor/bin/pest --drift",
      composer + " remove pestphp/pest-plugin-drift --dev" ]
  }

  /** The batch is streamed in the project directory with Pest's support prompt turned off. */
  function PestInvocation(config: Config, composer: string, php: string): Invocation {
    Invocation(Streamed, InstallCommands(composer, php), Some(config.directory),
      map["PEST_NO_SUPPORT" := "true"])
  }

  // ---------------------------------------------------------------------
  // File names as `SplFileInfo::getExtension` sees them

  /** The text after the last `c` in `s`, or nothing when `c` does not occur. */
  function AfterLast(s: string, c: char): (r: Option<string>)
    ensures r.None? <==> c !in s
    ensures r.Some? ==>
      && c !in r.value && |r.value| < |s|
      && s[|s| - |r.value| - 1] == c && s[|s| - |r.value|..] == r.value
    decreases |s|
  {
    if |s| == 0 then None
    else if s[|s| - 1] == c then Some("")
    else match AfterLast(s[..|s| - 1], c)
      case None => None
      case Some(t) => Some(t + [s[|s| - 1]])
  }

  /** A suffix preceded by `c` and free of `c` is what follows the last `c`. */
  lemma {:induction false} AfterLastSuffix(s: string, c: char, t: string)
    requires |t| < |s| && s[|s| - |t| - 1] == c && s[|s| - |t|..] == t && c !in t
    ensures AfterLast(s, c) == Some(t)
    decreases |t|
  {
    if |t| > 0 {
      var u := s[..|s| - 1];
      var t' := t[..|t| - 1];
      assert u[|u| - |t'| - 1] == c;
      assert u[|u| - |t'|..] == t';
      assert s[|s| - 1] == t[|t| - 1];
      AfterLastSuffix(u, c, t');
      assert t' + [s[|s| - 1]] == t;
    }
  }

  /** The last path component. */
  function BaseName(path: string): (b: string)
    ensures '/' !in b && |b| <= |path| && path[|path| - |b|..] == b
    ensures |b| < |path| ==> path[|path| - |b| - 1] == '/'
  {
    match AfterLast(path, '/')
      case None => path
      case Some(b) => b
  }

  /** `getExtension`: what follows the last dot of the base name, empty without a dot. */
  function Extension(path: string): (e: string)
    ensures '.' !in e && '/' !in e
  {
    match AfterLast(BaseName(path), '.')
      case None => ""
      case Some(e) => e
  }

  /** An extension `php` means the path ends in `.php`. */
  lemma PhpExtensionEndsPath(path: string)
    requires Extension(path) == "php"
    ensures |path| >= 4 && path[|path| - 4..] == ".php"
  {
    var e := Extension(path);
    ExtensionEndsPath(path);
    calc {
      path[|path| - 4..];
      path[|path| - |e| - 1..];
      ['.'] + e;
      { DotPhp(); }
      ".php";
    }
  }

  lemma DotPhp()
    ensures ['.'] + "php" == ".php"
  {
  }

  /** A non-empty extension ends the path, behind a dot. */
  lemma ExtensionEndsPath(path: string)
    ensures var e := Extension(path);
      e != "" ==> |e| < |path| && path[|path| - |e| - 1..] == ['.'] + e
  {
    var b := BaseName(path);
    if AfterLast(b, '.').Some? {
      var e := AfterLast(b, '.').value;
      SeparatorAndSuffix(b, '.', e);
      SuffixOfSuffix(path, b, |e| + 1);
    }
  }

  /** The separator and what follows it form a suffix. */
  lemma SeparatorAndSuffix(s: string, c: char, t: string)
    requires |t| < |s| && s[|s| - |t| - 1] == c && s[|s| - |t|..] == t
    ensures s[|s| - |t| - 1..] == [c] + t
  {
  }

  /** A suffix of a suffix is a suffix. */
  lemma SuffixOfSuffix(s: string, t: string, n: nat)
    requires |t| <= |s| && s[|s| - |t|..] == t && n <= |t|
    ensures s[|s| - n..] == t[|t| - n..]
  {
  }

  /** A path ending in `.php` has the extension `php`. */
  lemma PathEndsPhpExtension(path: string)
    requires |path| >= 4 && path[|path| - 4..] == ".php"
    ensures Extension(path) == "php"
  {
    var b := BaseName(path);
    assert path[|path| - 4..] == ".php";
    assert b[|b| - 4..] == ".php" by {
      assert b[|b| - 4..] == path[|path| - 4..];
    }
    assert '.' !in "php";
    AfterLastSuffix(b, '.', "php");
  }

  /** A file counts as PHP exactly when its path ends in `.php`. */
  lemma ExtensionIsPhp(path: string)
    ensures Extension(path) == "php" <==> |path| >= 4 && path[|path| - 4..] == ".php"
  {
    if Extension(path) == "php" {
      PhpExtensionEndsPath(path);
    }
    if |path| >= 4 && path[|path| - 4..] == ".php" {
      PathEndsPhpExtension(path);
    }
  }

  // ---------------------------------------------------------------------
  // What the starter-kit rewrites produce

  /** The `uses(RefreshDatabase)` line the drift conversion leaves in test files. */
  const UsesRefreshDatabase := "\n\nuses(\\Illuminate\\Foundation\\Testing\\RefreshDatabase::class);"

  /** Pest.php's commented-out and enabled `->use(RefreshDatabase)` lines. */
  const CommentedRefresh := " // ->use(Illuminate\\Foundation\\Testing\\RefreshDatabase::class)"
  const EnabledRefresh := "    ->use(Illuminate\\Foundation\\Testing\\RefreshDatabase::class)"

  function WorkflowPath(directory: string): string { directory + "/.github/workflows/tests.yml" }
  function PestPath(directory: string): string { directory + "/tests/Pest.php" }
  function TestsPath(directory: string): string { directory + "/tests" }

  /** Every occurrence of the `uses(RefreshDatabase)` line erased. */
  function StripUses(contents: string): string {
    ReplaceAll(contents, UsesRefreshDatabase, "")
  }

  /** A file the removal pass reads: a `.php` file anywhere below the tests directory. */
  predicate IsTestScript(path: string, testsDirectory: string) {
    StartsWith(path, testsDirectory + "/") && Extension(path) == "php"
  }

  /** The files after the removal pass. */
  function StrippedTests(files: map<string, string>, testsDirectory: string): map<string, string> {
    map p | p in files :: if IsTestScript(p, testsDirectory) then StripUses(files[p]) else files[p]
  }

  /** A test script the removal pass writes back. */
  predicate Rewritten(files: map<string, string>, testsDirectory: string, path: string) {
    path in files && IsTestScript(path, testsDirectory) && StripUses(files[path]) != files[path]
  }

  /** `replaceInFile` / the Pest.php rewrite, applied only to a file that exists. */
  function RewriteIfPresent(files: map<string, string>, path: string, search: string, replace: string): (r: map<string, string>)
    ensures r.Keys == files.Keys
  {
    if path in files then files[path := ReplaceAll(files[path], search, replace)] else files
  }

  /** The files after `configureStarterKit`, when it completes. */
  function StarterKitFiles(files: map<string, string>, dirs: set<string>, directory: string): map<string, string> {
    var workflow := RewriteIfPresent(files, WorkflowPath(directory), "./vendor/bin/phpunit", "./vendor/bin/pest");
    var pest := RewriteIfPresent(workflow, PestPath(directory), CommentedRefresh, EnabledRefresh);
    if TestsPath(directory) in dirs then StrippedTests(pest, TestsPath(directory)) else pest
  }

  /** A test script is written back exactly when it contains the `uses(RefreshDatabase)` line. */
  lemma RewrittenIffUses(files: map<string, string>, testsDirectory: string, path: string)
    requires path in files && IsTestScript(path, testsDirectory)
    ensures Rewritten(files, testsDirectory, path) <==> Contains(files[path], UsesRefreshDatabase)
  {
    if Contains(files[path], UsesRefreshDatabase) {
      EraseShrinks(files[path], UsesRefreshDatabase);
    } else {
      ReplaceAbsent(files[path], UsesRefreshDatabase, "");
    }
  }

  /**
   * Pest.php lies below the tests directory and is a PHP file, so when that
   * directory exists it is both switched to `->use(RefreshDatabase)` and
   * then run through the removal pass.
   */
  lemma PestConfigRewrittenTwice(files: map<string, string>, dirs: set<string>, directory: string)
    requires PestPath(directory) in files && TestsPath(directory) in dirs
    ensures PestPath(directory) in StarterKitFiles(files, dirs, directory)
    ensures StarterKitFiles(files, dirs, directory)[PestPath(directory)]
      == StripUses(ReplaceAll(files[PestPath(directory)], CommentedRefresh, EnabledRefresh))
  {
    var p := PestPath(directory);
    var t := TestsPath(directory);
    var w := RewriteIfPresent(files, WorkflowPath(directory), "./vendor/bin/phpunit", "./vendor/bin/pest");
    var q := RewriteIfPresent(w, p, CommentedRefresh, EnabledRefresh);
    assert p in q && q[p] == ReplaceAll(files[p], CommentedRefresh, EnabledRefresh) by {
      WorkflowIsNotPestConfig(directory);
    }
    assert StarterKitFiles(files, dirs, directory) == StrippedTests(q, t);
    PestConfigIsTestScript(directory);
    StrippedScript(q, t, p);
  }

  lemma StrippedScript(files: map<string, string>, testsDirectory: string, path: string)
    requires path in files && IsTestScript(path, testsDirectory)
    ensures path in StrippedTests(files, testsDirectory)
    ensures StrippedTests(files, testsDirectory)[path] == StripUses(files[path])
  {
  }

  lemma PestConfigIsTestScript(directory: string)
    ensures IsTestScript(PestPath(directory), TestsPath(directory))
  {
    var p := PestPath(directory);
    var t := TestsPath(directory);
    assert p == t + "/" + "Pest.php";
    assert StartsWith(p, t + "/");
    PestSuffix(t + "/");
    PathEndsPhpExtension(p);
  }

  lemma PestSuffix(prefix: string)
    ensures var p := prefix + "Pest.php"; |p| >= 4 && p[|p| - 4..] == ".php"
  {
  }

  lemma WorkflowIsNotPestConfig(directory: string)
    ensures WorkflowPath(directory) != PestPath(directory)
  {
    assert |WorkflowPath(directory)| != |PestPath(directory)|;
  }

  // ---------------------------------------------------------------------
  // The installer

  /** `files` with `rewrite` applied to the contents of every path in `paths`. */
  function RewriteEach(files: map<string, string>, paths: set<string>, rewrite: string -> string): map<string, string> {
    map q | q in files :: if q in paths then rewrite(files[q]) else files[q]
  }

  lemma RewriteOneMore(files: map<string, string>, paths: set<string>, rewrite: string -> string, p: string)
    requires p in files
    ensures RewriteEach(files, paths, rewrite)[p := rewrite(files[p])] == RewriteEach(files, paths + {p}, rewrite)
  {
  }

  /** One file: rewritten, and written back only when that changed it. */
  method RewriteOne(ws: Workspace, p: string, rewrite: string -> string)
    requires p in ws.files
    modifies ws
    ensures ws.files == old(ws.files)[p := rewrite(old(ws.files)[p])]
    ensures ws.dirs == old(ws.dirs)
    ensures ws.trace == old(ws.trace) + if rewrite(old(ws.files)[p]) != old(ws.files)[p] then [Wrote(p)] else []
  {
    var contents := ws.files[p];
    var updated := rewrite(contents);
    if contents != updated {
      ws.Put(p, updated);
    } else {
      assert ws.files == ws.files[p := updated];
    }
  }

  /**
   * The loop of the removal pass: every path of `paths` is visited once, in
   * an order the model leaves open, its contents rewritten, and only the
   * files that changed are written back.
   */
  method RewriteChanged(ws: Workspace, paths: set<string>, rewrite: string -> string)
    requires paths <= ws.files.Keys
    modifies ws
    ensures ws.dirs == old(ws.dirs)
    ensures ws.files == RewriteEach(old(ws.files), paths, rewrite)
    ensures WritesOnly(old(ws.trace), ws.trace)
    ensures WroteChanged(old(ws.files), rewrite, paths, ws.trace[|old(ws.trace)|..])
  {
    ghost var original := ws.files;
    ghost var prefix := ws.trace;
    ghost var written: seq<Effect> := [];
    var pending := paths;
    ghost var visited: set<string> := {};
    assert original == RewriteEach(original, visited, rewrite);
    while pending != {}
      invariant visited + pending == paths && visited !! pending
      invariant ws.dirs == old(ws.dirs)
      invariant ws.files == RewriteEach(original, visited, rewrite)
      invariant ws.trace == prefix + written
      invariant WroteChanged(original, rewrite, visited, written)
      decreases pending
    {
      var p :| p in pending;
      assert ws.files[p] == original[p];
      RewriteOne(ws, p, rewrite);
      RewriteOneMore(original, visited, rewrite, p);
      WroteChangedStep(original, rewrite, visited, written, p);
      written := written + if rewrite(original[p]) != original[p] then [Wrote(p)] else [];
      pending := pending - {p};
      visited := visited + {p};
    }
    WroteChangedWritesOnly(original, rewrite, paths, prefix, written);
  }

  /**
   * `written` holds one write for each file of `visited` that `rewrite`
   * changes, and nothing else.
   */
  predicate WroteChanged(files: map<string, string>, rewrite: string -> string, visited: set<string>, written: seq<Effect>) {
    && (forall k :: 0 <= k < |written| ==>
         written[k].Wrote? && written[k].path in visited && written[k].path in files
         && rewrite(files[written[k].path]) != files[written[k].path])
    && (forall p :: p in visited && p in files && rewrite(files[p]) != files[p] ==> Wrote(p) in written)
  }

  lemma WroteChangedStep(files: map<string, string>, rewrite: string -> string, visited: set<string>,
                         written: seq<Effect>, p: string)
    requires p in files && WroteChanged(files, rewrite, visited, written)
    ensures WroteChanged(files, rewrite, visited + {p},
      written + if rewrite(files[p]) != files[p] then [Wrote(p)] else [])
  {
  }

  lemma WroteChangedWritesOnly(files: map<string, string>, rewrite: string -> string, visited: set<string>,
                               prefix: seq<Effect>, written: seq<Effect>)
    requires WroteChanged(files, rewrite, visited, written)
    ensures WritesOnly(prefix, prefix + written)
    ensures (prefix + written)[|prefix|..] == written
  {
    assert (prefix + written)[..|prefix|] == prefix;
    assert (prefix + written)[|prefix|..] == written;
  }

  /**
   * `removeRefreshDatabaseFromTests`: nothing when the tests directory does
   * not exist; otherwise every PHP file below it, in whatever order the
   * directory iterator yields them, loses the `uses(RefreshDatabase)` line,
   * and only the files that changed are written back.
   */
  method RemoveRefreshDatabaseFromTests(ws: Workspace, testsDirectory: string)
    modifies ws
    ensures ws.dirs == old(ws.dirs)
    ensures testsDirectory !in old(ws.dirs) ==> ws.files == old(ws.files) && ws.trace == old(ws.trace)
    ensures testsDirectory in old(ws.dirs) ==> ws.files == StrippedTests(old(ws.files), testsDirectory)
    ensures WritesOnly(old(ws.trace), ws.trace)
    ensures forall k :: |old(ws.trace)| <= k < |ws.trace| ==>
      ws.trace[k].Wrote? && Rewritten(old(ws.files), testsDirectory, ws.trace[k].path)
    ensures testsDirectory in old(ws.dirs) ==> forall p :: Rewritten(old(ws.files), testsDirectory, p) ==>
      Wrote(p) in ws.trace[|old(ws.trace)|..]
  {
    if testsDirectory !in ws.dirs {
      return;
    }
    var scripts := set p | p in ws.files && IsTestScript(p, testsDirectory);
    ghost var files := ws.files;
    ghost var start := ws.trace;
    RewriteChanged(ws, scripts, StripUses);
    ScriptsStripped(files, testsDirectory, scripts);
    assert forall k :: |start| <= k < |ws.trace| ==> Rewritten(files, testsDirectory, ws.trace[k].path);
  }

  /** Rewriting every test script with `StripUses` is the removal pass. */
  lemma ScriptsStripped(files: map<string, string>, testsDirectory: string, scripts: set<string>)
    requires scripts == set p | p in files && IsTestScript(p, testsDirectory)
    ensures RewriteEach(files, scripts, StripUses) == StrippedTests(files, testsDirectory)
  {
  }

  /** The private `replaceInFile`: read (a missing regular file raises), rewrite, put back. */
  method ReplaceInFile(ws: Workspace, search: string, replace: string, file: string) returns (o: Outcome<FileError>)
    modifies ws
    ensures ws.dirs == old(ws.dirs)
    ensures file !in old(ws.files) ==> o == Fail(FileNotFound(file)) && ws.files == old(ws.files) && ws.trace == old(ws.trace)
    ensures file in old(ws.files) ==>
      && o == Pass
      && ws.files == RewriteIfPresent(old(ws.files), file, search, replace)
      && ws.trace == old(ws.trace) + [Wrote(file)]
  {
    if file !in ws.files {
      return Fail(FileNotFound(file));
    }
    ws.Put(file, ReplaceAll(ws.files[file], search, replace));
    return Pass;
  }

  /**
   * `configureStarterKit`. Each of the two named files is touched only when it
   * exists; one that exists as a directory cannot be read and aborts the rest.
   */
  method ConfigureStarterKit(ws: Workspace, directory: string) returns (o: Outcome<FileError>)
    modifies ws
    ensures ws.dirs == old(ws.dirs)
    ensures WritesOnly(old(ws.trace), ws.trace)
    ensures WorkflowPath(directory) in old(ws.dirs) && WorkflowPath(directory) !in old(ws.files) ==>
      o == Fail(FileNotFound(WorkflowPath(directory)))
    ensures o.Pass? <==>
      (WorkflowPath(directory) in old(ws.files) || WorkflowPath(directory) !in old(ws.dirs))
      && (PestPath(directory) in old(ws.files) || PestPath(directory) !in old(ws.dirs))
    ensures o.Fail? ==> o.error == FileNotFound(WorkflowPath(directory)) || o.error == FileNotFound(PestPath(directory))
    ensures o.Pass? ==> ws.files == StarterKitFiles(old(ws.files), old(ws.dirs), directory)
  {
    var workflow := WorkflowPath(directory);
    var pest := PestPath(directory);
    assert |workflow| != |pest|;
    ghost var f0 := ws.files;
    ghost var t0 := ws.trace;
    if ws.Exists(workflow) {
      o := ReplaceInFile(ws, "./vendor/bin/phpunit", "./vendor/bin/pest", workflow);
      if o.Fail? {
        return;
      }
    }
    ghost var f1 := ws.files;
    ghost var t1 := ws.trace;
    assert WritesOnly(t0, t1);
    assert f1 == RewriteIfPresent(f0, workflow, "./vendor/bin/phpunit", "./vendor/bin/pest");
    assert pest in f1 <==> pest in f0;
    if ws.Exists(pest) {
      if pest !in ws.files {
        assert WritesOnly(t0, ws.trace);
        return Fail(FileNotFound(pest));
      }
      var contents := ReplaceAll(ws.files[pest], CommentedRefresh, EnabledRefresh);
      ws.Put(pest, contents);
    }
    ghost var f2 := ws.files;
    ghost var t2 := ws.trace;
    assert WritesOnly(t1, t2);
    assert f2 == RewriteIfPresent(f1, pest, CommentedRefresh, EnabledRefresh);
    RemoveRefreshDatabaseFromTests(ws, TestsPath(directory));
    WritesOnlyChain(t0, t1, t2, ws.trace);
    return Pass;
  }

  /**
   * `install`: the streamed batch first; for a starter kit the file rewrites;
   * with git enabled the "Install Pest" commit last. The streamed batch never
   * raises, so only an unreadable file stops the rest. What the Pest batch
   * (`pest --init`, the drift conversion) leaves is the input `converted`,
   * and what the commit leaves is `committed`: the rewrites apply to the
   * converted tree, and the commit starts from the rewritten one.
   */
  method Install(ws: Workspace, config: Config, composer: string, php: string, converted: Snapshot, committed: Snapshot)
    returns (o: Outcome<FileError>)
    modifies ws
    ensures !IsUsingStarterKit(config) ==> o == Pass
    ensures var rewritten := KitFiles(config, converted);
      && (o.Pass? && !config.useGit ==> ws.files == rewritten && ws.dirs == converted.dirs)
      && (o.Pass? && config.useGit ==> ws.files == committed.files && ws.dirs == committed.dirs)
      && (o.Fail? ==> ws.dirs == converted.dirs)
      && RunWritesThenCommit(old(ws.trace), ws.trace,
           Ran(PestInvocation(config, composer, php), Snapshot(old(ws.files), old(ws.dirs))),
           o.Pass? && config.useGit,
           Ran(GitService.CommitChanges("Install Pest", config.directory), Snapshot(rewritten, converted.dirs)))
  {
    ws.Run(PestInvocation(config, composer, php), converted);
    ghost var afterRun := ws.trace;
    o := Pass;
    if IsUsingStarterKit(config) {
      o := ConfigureStarterKit(ws, config.directory);
    }
    ghost var afterKit := ws.trace;
    if o.Pass? && config.useGit {
      ws.Run(GitService.CommitChanges("Install Pest", config.directory), committed);
    }
    RunWritesThenCommitShape(old(ws.trace), afterKit, ws.trace,
      Ran(PestInvocation(config, composer, php), Snapshot(old(ws.files), old(ws.dirs))),
      o.Pass? && config.useGit,
      Ran(GitService.CommitChanges("Install Pest", config.directory), Snapshot(KitFiles(config, converted), converted.dirs)));
  }

  /** The files once the starter-kit rewrites, when they apply, have run on `tree`. */
  function KitFiles(config: Config, tree: Snapshot): map<string, string> {
    if IsUsingStarterKit(config) then StarterKitFiles(tree.files, tree.dirs, config.directory) else tree.files
  }

  /**
   * The shape of the effects of `install`: the streamed command, then file
   * writes only, then the commit when `committed`.
   */
  predicate RunWritesThenCommit(before: seq<Effect>, after: seq<Effect>, first: Effect, committed: bool, last: Effect) {
    var commit := if committed then 1 else 0;
    && |after| >= |before| + 1 + commit
    && after[..|before| + 1] == before + [first]
    && WritesOnly(after[..|before| + 1], after[..|after| - commit])
    && (committed ==> after[|after| - 1] == last)
  }

  lemma RunWritesThenCommitShape(before: seq<Effect>, middle: seq<Effect>, after: seq<Effect>,
                                 first: Effect, committed: bool, last: Effect)
    requires WritesOnly(before + [first], middle)
    requires after == middle + if committed then [last] else []
    ensures RunWritesThenCommit(before, after, first, committed, last)
  {
    var start := before + [first];
    var commit := if committed then 1 else 0;
    assert after[..|after| - commit] == middle;
    assert after[..|before| + 1] == middle[..|start|];
  }
}
