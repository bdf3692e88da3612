/**
 * The build-plan assembler (`ProjectBuilder`): from a configuration and the
 * host it derives the ordered shell commands that create the project, and
 * hands them to the fail-fast runner.
 */
module ProjectBuilder {
  import opened Wrappers
  import opened Text
  import opened Platform
  import opened PackageManagers
  import opened ProjectConfiguration
  import opened CommandRunner

  /** `getDeleteCommand`: a guarded `rd` on Windows, `rm -rf` elsewhere. */
  function DeleteCommand(host: Host, directory: string): (cmd: string)
    ensures var e := host.escape(directory);
      if host.os == Windows then cmd == "(if exist " + e + " rd /s /q " + e + ")"
      else cmd == "rm -rf " + e
  {
    var escaped := host.escape(directory);
    if host.os == Windows then "(if exist " + escaped + " rd /s /q " + escaped + ")"
    else "rm -rf " + escaped
  }

  /**
   * The directory a delete command removes, read back from the command: the
   * argument of `rm -rf`, or the argument that the Windows form tests for
   * and then removes.
   */
  function DeletedDirectory(os: OsFamily, cmd: string): Option<string> {
    if os != Windows then
      if StartsWith(cmd, "rm -rf ") then Some(cmd[7..]) else None
    else if StartsWith(cmd, "(if exist ") && |cmd| >= 21 && (|cmd| - 21) % 2 == 0 then
      var e := cmd[10..10 + (|cmd| - 21) / 2];
      if cmd == "(if exist " + e + " rd /s /q " + e + ")" then Some(e) else None
    else None
  }

  /**
   * The delete command removes exactly the escaped project directory, on
   * every OS, so two commands are equal only for directories that escape
   * alike; off Windows it starts with `rm` and is never given output flags.
   */
  lemma DeleteCommandRoundTrip(host: Host, directory: string)
    ensures DeletedDirectory(host.os, DeleteCommand(host, directory)) == Some(host.escape(directory))
    ensures host.os != Windows ==> ShouldSkipFlag(DeleteCommand(host, directory))
  {
    var e := host.escape(directory);
    var cmd := DeleteCommand(host, directory);
    if host.os == Windows {
      assert cmd == "(if exist " + (e + " rd /s /q " + e + ")");
      assert cmd[..10] == "(if exist ";
      assert cmd[10..10 + |e|] == e;
    } else {
      assert cmd == "rm -rf " + e;
      assert cmd[..7] == "rm -rf ";
      assert cmd[7..] == e;
      assert cmd[..2] == "rm";
    }
  }

  /** The version suffixes the kit-variant rewrites append to the kit name. */
  const ComponentsVariant := ":dev-components"
  const WorkOSVariant := ":dev-workos"

  /** The create step before any kit rewrite, for a truthy kit. */
  function KitBase(kit: string, composer: string, directory: string): string {
    composer + " create-project " + kit + " " + directory + " --stability=dev"
  }

  /** The create step for the default skeleton (no kit, or a falsy one). */
  function SkeletonCommand(composer: string, directory: string, version: string): string {
    composer + " create-project laravel/laravel " + directory + " " + version
      + " --remove-vcs --prefer-dist --no-scripts"
  }

  /** The create step for a kit fetched from a URL. */
  function TigedCommand(kit: string, composer: string, directory: string): string {
    "npx tiged@latest " + kit + " " + directory + " && cd " + directory + " && " + composer + " install"
  }

  /** The create step (`buildCreateProjectCommand`), as the code computes it. */
  function CreateProjectCommand(config: Config, composer: string, directory: string): string {
    if !Truthy(config.starterKit) then SkeletonCommand(composer, directory, config.version)
    else
      var kit := config.starterKit.value;
      var laravelKit := IsUsingLaravelStarterKit(config);
      var base := KitBase(kit, composer, directory);
      var afterComponents :=
        if laravelKit && config.useLivewireClassComponents
        then ReplaceAll(base, " " + kit + " ", " " + kit + ComponentsVariant + " ") else base;
      var afterWorkOS :=
        if laravelKit && config.useWorkOS
        then ReplaceAll(afterComponents, " " + kit + " ", " " + kit + WorkOSVariant + " ") else afterComponents;
      if !laravelKit && Contains(kit, "://") then TigedCommand(kit, composer, directory)
      else afterWorkOS
  }

  /**
   * `buildCreateProjectCommand`: the command is built and then rewritten in
   * place by the two kit-variant replacements.
   */
  method BuildCreateProjectCommand(config: Config, composer: string, directory: string)
    returns (command: string)
    ensures command == CreateProjectCommand(config, composer, directory)
    ensures !Truthy(config.starterKit) ==> command == SkeletonCommand(composer, directory, config.version)
    ensures Truthy(config.starterKit) && !IsUsingLaravelStarterKit(config) ==>
      command == if Contains(config.starterKit.value, "://")
                 then TigedCommand(config.starterKit.value, composer, directory)
                 else KitBase(config.starterKit.value, composer, directory)
  {
    if !Truthy(config.starterKit) {
      return SkeletonCommand(composer, directory, config.version);
    }
    var kit := config.starterKit.value;
    command := KitBase(kit, composer, directory);
    if IsUsingLaravelStarterKit(config) {
      if config.useLivewireClassComponents {
        command := ReplaceAll(command, " " + kit + " ", " " + kit + ComponentsVariant + " ");
      }
      if config.useWorkOS {
        command := ReplaceAll(command, " " + kit + " ", " " + kit + WorkOSVariant + " ");
      }
    }
    if !IsUsingLaravelStarterKit(config) && Contains(kit, "://") {
      return TigedCommand(kit, composer, directory);
    }
  }

  /** A forced delete is planned only for a real directory. */
  predicate DeletesFirst(config: Config) {
    config.directory != "." && config.force
  }

  /** The plan `buildCreationCommands` returns. */
  function Plan(config: Config, host: Host): seq<string> {
    var d := host.escape(config.directory);
    (if DeletesFirst(config) then [DeleteCommand(host, config.directory)] else [])
    + [ CreateProjectCommand(config, host.composer, d),
        host.composer + " run post-root-package-install -d " + d,
        host.php + " " + d + "/artisan key:generate --ansi" ]
    + (if host.os != Windows then ["chmod 755 " + d + "/artisan"] else [])
  }

  /**
   * `buildCreationCommands`: an optional forced delete, the create step, the
   * post-install hook, key generation and, off Windows, the chmod step.
   */
  method BuildCreationCommands(config: Config, host: Host) returns (commands: seq<string>)
    ensures commands == Plan(config, host)
    ensures |commands| == 3 + (if DeletesFirst(config) then 1 else 0) + (if host.os != Windows then 1 else 0)
  {
    var composer := host.composer;
    var php := host.php;
    var directory := host.escape(config.directory);
    commands := [];
    if config.directory != "." && config.force {
      commands := commands + [DeleteCommand(host, config.directory)];
    }
    ghost var deletion := commands;
    var create := BuildCreateProjectCommand(config, composer, directory);
    commands := commands + [create];
    commands := commands + [composer + " run post-root-package-install -d " + directory];
    commands := commands + [php + " " + directory + "/artisan key:generate --ansi"];
    ghost var core := commands[|deletion|..];
    assert commands == deletion + core;
    if host.os != Windows {
      commands := commands + ["chmod 755 " + directory + "/artisan"];
    }
  }

  /**
   * The shape of the plan: the delete (when planned) is first, then the create
   * step, the post-install hook and key generation, whatever the kit, then the
   * chmod step exactly when the host is not Windows.
   */
  lemma PlanLayout(config: Config, host: Host)
    ensures var k := if DeletesFirst(config) then 1 else 0;
      var d := host.escape(config.directory);
      var p := Plan(config, host);
      && |p| == 3 + k + (if host.os != Windows then 1 else 0)
      && (DeletesFirst(config) ==> p[0] == DeleteCommand(host, config.directory))
      && p[k] == CreateProjectCommand(config, host.composer, d)
      && p[k + 1] == host.composer + " run post-root-package-install -d " + d
      && p[k + 2] == host.php + " " + d + "/artisan key:generate --ansi"
      && (host.os != Windows ==> p[k + 3] == "chmod 755 " + d + "/artisan")
  {
  }

  /** The current directory is never deleted, whatever `force` says. */
  lemma NoDeleteOfCurrentDirectory(config: Config, host: Host)
    requires config.directory == "."
    ensures |Plan(config, host)| == 3 + (if host.os != Windows then 1 else 0)
    ensures Plan(config, host)[0] == CreateProjectCommand(config, host.composer, host.escape("."))
  {
  }

  /**
   * The default-skeleton scenario: project `demo` in `/tmp/demo`, no kit, the
   * stable channel, no force.
   */
  lemma DemoScenario(config: Config, host: Host)
    requires config.directory == "/tmp/demo" && config.starterKit == None
    requires config.version == "" && !config.force && host.os == Linux
    ensures var d := host.escape("/tmp/demo");
      Plan(config, host) == [
        host.composer + " create-project laravel/laravel " + d + " " + " --remove-vcs --prefer-dist --no-scripts",
        host.composer + " run post-root-package-install -d " + d,
        host.php + " " + d + "/artisan key:generate --ansi",
        "chmod 755 " + d + "/artisan"]
  {
    var d := host.escape("/tmp/demo");
    assert !DeletesFirst(config) by {
      assert config.directory[0] == '/';
    }
    PlanWithoutDelete(config, host);
    SkeletonWithoutVersion(host.composer, d);
  }

  /** Without a delete, off Windows, the plan is exactly four commands. */
  lemma PlanWithoutDelete(config: Config, host: Host)
    requires !DeletesFirst(config) && host.os != Windows
    ensures var d := host.escape(config.directory);
      Plan(config, host) == [
        CreateProjectCommand(config, host.composer, d),
        host.composer + " run post-root-package-install -d " + d,
        host.php + " " + d + "/artisan key:generate --ansi",
        "chmod 755 " + d + "/artisan"]
  {
  }

  /** The stable channel leaves two spaces between the directory and the flags. */
  lemma SkeletonWithoutVersion(composer: string, d: string)
    ensures SkeletonCommand(composer, d, "")
      == composer + " create-project laravel/laravel " + d + " " + " --remove-vcs --prefer-dist --no-scripts"
  {
    var x := composer + " create-project laravel/laravel " + d + " ";
    assert x + "" == x;
  }

  // ---------------------------------------------------------------------
  // The kit-variant rewrites

  /** No space inside the kit name. */
  predicate SpaceFree(s: string) {
    forall i :: 0 <= i < |s| ==> s[i] != ' '
  }

  /**
   * The kit token ` kit ` occurs in the unrewritten command only as the kit
   * argument: not within the composer command and the words before the kit,
   * and not within the directory argument and the flag after it.
   */
  predicate KitTokenUnique(kit: string, composer: string, directory: string) {
    && SpaceFree(kit)
    && !Contains(composer + " create-project " + kit, " " + kit + " ")
    && !Contains(" " + directory + " --stability=dev", " " + kit + " ")
  }

  /** An occurrence starting inside `a` would lie within `a + " " + kit`. */
  lemma NoEarlyOccurrence(s: string, a: string, kit: string)
    requires |a + " " + kit| <= |s| && s[..|a| + 1 + |kit|] == a + " " + kit
    requires !Contains(a + " " + kit, " " + kit + " ")
    ensures forall i :: 0 <= i < |a| ==> !OccursAt(s, " " + kit + " ", i)
  {
    forall i | 0 <= i < |a|
      ensures !OccursAt(s, " " + kit + " ", i)
    {
      OccursInPrefix(s, a + " " + kit, " " + kit + " ", i);
    }
  }

  /** Dropping a leading space cannot create an occurrence. */
  lemma NoOccurrenceAfterSpace(b: string, p: string)
    requires !Contains(" " + b, p)
    ensures !Contains(b, p)
  {
    forall j | 0 <= j <= |b| - |p|
      ensures !OccursAt(b, p, j)
    {
      assert (" " + b)[j + 1..j + 1 + |p|] == b[j..j + |p|];
      assert !OccursAt(" " + b, p, j + 1);
    }
  }

  /** The command `a + token + b` rewritten once. */
  lemma RewriteOnce(a: string, kit: string, b: string, suffix: string)
    requires !Contains(a + " " + kit, " " + kit + " ")
    requires !Contains(" " + b, " " + kit + " ")
    ensures ReplaceAll(a + " " + kit + " " + b, " " + kit + " ", " " + kit + suffix + " ")
         == a + " " + kit + suffix + " " + b
  {
    var p := " " + kit + " ";
    var r := " " + kit + suffix + " ";
    var s := a + " " + kit + " " + b;
    TokenSplits(a, kit, b);
    assert forall i :: 0 <= i < |a| ==> !OccursAt(s, p, i) by {
      NoEarlyOccurrence(s, a, kit);
    }
    assert !Contains(s[|a| + |p|..], p) by {
      NoOccurrenceAfterSpace(b, p);
    }
    ReplaceSole(s, p, r, |a|);
    assert a + r + b == a + " " + kit + suffix + " " + b by {
      ConcatAssoc(a, " " + kit + suffix, " ");
      ConcatAssoc(a, " " + kit, suffix);
      ConcatAssoc(a, " ", kit);
    }
  }

  /** Where the token lies in `a + " " + kit + " " + b`. */
  lemma TokenSplits(a: string, kit: string, b: string)
    ensures var s := a + " " + kit + " " + b;
      && OccursAt(s, " " + kit + " ", |a|)
      && s[..|a|] == a
      && s[|a| + |kit| + 2..] == b
      && s[..|a| + 1 + |kit|] == a + " " + kit
  {
    var p := " " + kit + " ";
    var s := a + " " + kit + " " + b;
    assert s == a + p + b;
    assert s[|a|..|a| + |p|] == p;
  }

  /**
   * After one rewrite with a space-free suffix that does not start with a
   * space, the token no longer occurs, so a second rewrite has nothing to do.
   */
  lemma TokenGoneAfterRewrite(a: string, kit: string, b: string, suffix: string)
    requires SpaceFree(kit) && SpaceFree(suffix) && |suffix| > 0
    requires !Contains(a + " " + kit, " " + kit + " ")
    requires !Contains(" " + b, " " + kit + " ")
    ensures !Contains(a + " " + kit + suffix + " " + b, " " + kit + " ")
  {
    var p := " " + kit + " ";
    var r := " " + kit + suffix + " ";
    var t := a + r + b;
    assert t == a + " " + kit + suffix + " " + b;
    forall i | 0 <= i <= |t| - |p|
      ensures !OccursAt(t, p, i)
    {
      if i < |a| {
        assert t[..|a| + |p| - 1] == a + " " + kit;
        OccursInPrefix(t, a + " " + kit, p, i);
      } else if i < |a| + |r| - 1 {
        NoTokenInReplacement(a, kit, b, suffix, t, i);
      } else {
        NoTokenInTail(a, r, b, p, t, i);
      }
    }
  }

  /** An occurrence cannot start on the replacement's leading space or within it. */
  lemma NoTokenInReplacement(a: string, kit: string, b: string, suffix: string, t: string, i: int)
    requires SpaceFree(kit) && SpaceFree(suffix) && |suffix| > 0
    requires t == a + (" " + kit + suffix + " ") + b
    requires |a| <= i < |a| + |kit| + |suffix| + 1 && i <= |t| - |kit| - 2
    ensures !OccursAt(t, " " + kit + " ", i)
  {
    var p := " " + kit + " ";
    var r := " " + kit + suffix + " ";
    if i == |a| {
      assert t[i + |p| - 1] == r[|kit| + 1] == suffix[0];
      assert p[|p| - 1] == ' ';
    } else {
      var j := i - |a|;
      assert t[i] == r[j];
      if j <= |kit| {
        assert r[j] == kit[j - 1];
      } else {
        assert r[j] == suffix[j - 1 - |kit|];
      }
    }
  }

  /** An occurrence starting on the replacement's last space lies within `" " + b`. */
  lemma NoTokenInTail(a: string, r: string, b: string, p: string, t: string, i: int)
    requires |r| > 0 && t == a + r + b && r[|r| - 1] == ' '
    requires |a| + |r| - 1 <= i <= |t| - |p|
    requires !Contains(" " + b, p)
    ensures !OccursAt(t, p, i)
  {
    var m := |a| + |r| - 1;
    assert t[m..] == " " + b;
    assert t[i..i + |p|] == (" " + b)[i - m..i - m + |p|];
    assert !OccursAt(" " + b, p, i - m);
  }

  /**
   * The kit-variant rewrites, when the kit token is unique: class components
   * select `:dev-components`; WorkOS alone selects `:dev-workos`; with both
   * set the second search string no longer matches, so `:dev-components` wins.
   */
  lemma KitVariants(config: Config, composer: string, directory: string)
    requires IsUsingLaravelStarterKit(config)
    requires KitTokenUnique(config.starterKit.value, composer, directory)
    ensures var kit := config.starterKit.value;
      var variant := if config.useLivewireClassComponents then ComponentsVariant
                     else if config.useWorkOS then WorkOSVariant else "";
      CreateProjectCommand(config, composer, directory)
        == composer + " create-project " + kit + variant + " " + directory + " --stability=dev"
  {
    var kit := config.starterKit.value;
    var a := composer + " create-project";
    var b := directory + " --stability=dev";
    var p := " " + kit + " ";
    var variant := if config.useLivewireClassComponents then ComponentsVariant
                   else if config.useWorkOS then WorkOSVariant else "";
    var base := KitBase(kit, composer, directory);
    var afterComponents :=
      if config.useLivewireClassComponents then ReplaceAll(base, p, " " + kit + ComponentsVariant + " ") else base;
    var afterWorkOS :=
      if config.useWorkOS then ReplaceAll(afterComponents, p, " " + kit + WorkOSVariant + " ") else afterComponents;
    assert CreateProjectCommand(config, composer, directory) == afterWorkOS;
    KitBaseSplits(composer, kit, directory);
    UniqueTokenSplits(kit, composer, directory);
    VariantsSpaceFree();
    if config.useLivewireClassComponents {
      RewriteOnce(a, kit, b, ComponentsVariant);
      if config.useWorkOS {
        TokenGoneAfterRewrite(a, kit, b, ComponentsVariant);
        ReplaceAbsent(afterComponents, p, " " + kit + WorkOSVariant + " ");
      }
    } else if config.useWorkOS {
      RewriteOnce(a, kit, b, WorkOSVariant);
    }
    KitCommandSplits(composer, kit, variant, directory);
  }

  /** The create command around the kit token. */
  lemma KitCommandSplits(composer: string, kit: string, variant: string, directory: string)
    ensures composer + " create-project " + kit + variant + " " + directory + " --stability=dev"
      == composer + " create-project" + " " + kit + variant + " " + (directory + " --stability=dev")
  {
    assert " create-project " == " create-project" + " ";
  }

  lemma KitBaseSplits(composer: string, kit: string, directory: string)
    ensures KitBase(kit, composer, directory)
      == composer + " create-project" + " " + kit + " " + (directory + " --stability=dev")
  {
    assert " create-project " == " create-project" + " ";
  }

  lemma UniqueTokenSplits(kit: string, composer: string, directory: string)
    requires KitTokenUnique(kit, composer, directory)
    ensures !Contains(composer + " create-project" + " " + kit, " " + kit + " ")
    ensures !Contains(" " + (directory + " --stability=dev"), " " + kit + " ")
  {
    assert composer + " create-project " + kit == composer + " create-project" + " " + kit by {
      assert " create-project " == " create-project" + " ";
    }
    assert " " + directory + " --stability=dev" == " " + (directory + " --stability=dev");
  }

  lemma VariantsSpaceFree()
    ensures SpaceFree(ComponentsVariant) && |ComponentsVariant| > 0
    ensures SpaceFree(WorkOSVariant) && |WorkOSVariant| > 0
  {
  }

  /** A URL kit that is not a Laravel kit is fetched with tiged and installed in place. */
  lemma UrlKit(config: Config, host: Host)
    requires Truthy(config.starterKit) && !IsUsingLaravelStarterKit(config)
    requires Contains(config.starterKit.value, "://")
    ensures var d := host.escape(config.directory);
      Plan(config, host)[if DeletesFirst(config) then 1 else 0]
        == "npx tiged@latest " + config.starterKit.value + " " + d + " && cd " + d + " && " + host.composer + " install"
  {
  }

  // ---------------------------------------------------------------------
  // Hand-off to the runner

  /**
   * `build`: the plan goes to the fail-fast runner with an empty environment,
   * in the current directory only when installing into `.`.
   */
  method Build(config: Config, host: Host) returns (inv: Invocation)
    ensures inv.mode == FailFast && inv.commands == Plan(config, host) && inv.env == map[]
    ensures inv.workingPath == if config.directory != "." then None else Some(host.cwd)
    ensures forall decorated: bool, quiet: bool :: CommandLine(inv, decorated, quiet) == Compose(Plan(config, host))
    ensures inv.workingPath.Some? ==> !DeletesFirst(config)
  {
    var commands := BuildCreationCommands(config, host);
    inv := Invocation(FailFast, commands, if config.directory != "." then None else Some(host.cwd), map[]);
  }

  /**
   * `installAndBuildAssets`: nothing without a package manager; otherwise its
   * install and build commands, streamed, in the project directory. The line
   * that runs is the install command, then the build command, each with the
   * output flags unless it is on the skip list.
   */
  function InstallAndBuildAssets(config: Config, catalog: Catalog): (inv: Option<Invocation>)
    ensures inv.None? <==> config.packageManager.None?
    ensures inv.Some? ==> inv.value == Invocation(Streamed,
      [catalog.installCommand(config.packageManager.value), catalog.buildCommand(config.packageManager.value)],
      Some(config.directory), map[])
    ensures inv.Some? ==> forall decorated: bool, quiet: bool ::
      CommandLine(inv.value, decorated, quiet)
        == Flagged(catalog.installCommand(config.packageManager.value), decorated, quiet) + " && "
           + Flagged(catalog.buildCommand(config.packageManager.value), decorated, quiet)
  {
    match config.packageManager
    case None => None
    case Some(m) =>
      FlaggedPairLine(catalog.installCommand(m), catalog.buildCommand(m));
      Some(Invocation(Streamed, [catalog.installCommand(m), catalog.buildCommand(m)], Some(config.directory), map[]))
  }

  /**
   * A failing step stops the whole plan: the runner reports the composed
   * line, which starts with the delete when one is planned.
   */
  lemma BuildFailureNamesPlan(config: Config, host: Host, result: ProcessResult)
    requires result.exitCode != 0
    ensures Run(Plan(config, host), result) == Fail(ProcessFailed(Compose(Plan(config, host)), result.exitCode))
    ensures DeletesFirst(config) ==> StartsWith(Compose(Plan(config, host)), DeleteCommand(host, config.directory))
  {
    var p := Plan(config, host);
    if DeletesFirst(config) {
      assert p == [p[0]] + p[1..];
      ComposeConcat([p[0]], p[1..]);
      assert Compose([p[0]]) == p[0];
    }
  }
}
