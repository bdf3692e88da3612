/**
 * Local git operations (`GitService`): the default branch read from the
 * user's global git configuration, the initial commit of a fresh project and
 * later commits. Every git batch runs through the runner's silent mode in the
 * project directory, with no extra environment.
 */
module GitService {
  import opened Wrappers
  import opened Text
  import opened CommandRunner
  import opened ProjectConfiguration

  /** The branch used when git has no usable `init.defaultBranch`. */
  const FallbackBranch := "main"

  lemma FallbackTrimmed()
    ensures Trim(FallbackBranch) == FallbackBranch
  {
    assert FallbackBranch[0] == 'm' && FallbackBranch[3] == 'n';
    TrimKeeps(FallbackBranch);
  }

  /**
   * `getDefaultBranch`: the trimmed output of `git config --global
   * init.defaultBranch` when the process succeeded and that output is truthy,
   * and `main` otherwise. The branch is never blank, never `0`, and carries
   * no surrounding whitespace.
   */
  function DefaultBranch(successful: bool, output: string): (branch: string)
    ensures Truthy(Some(branch))
    ensures branch != FallbackBranch ==> successful && branch == Trim(output)
    ensures successful && Trim(output) != "" && Trim(output) != "0" ==> branch == Trim(output)
  {
    if successful && Truthy(Some(Trim(output))) then Trim(output) else FallbackBranch
  }

  /** The branch handed to `git branch -M` never carries surrounding whitespace. */
  lemma DefaultBranchTrimmed(successful: bool, output: string)
    ensures DefaultBranch(successful, output) == Trim(DefaultBranch(successful, output))
  {
    if DefaultBranch(successful, output) == FallbackBranch {
      FallbackTrimmed();
    } else {
      TrimIdempotent(output);
    }
  }

  /** The message of the first commit. */
  const InitialMessage := "Set up a fresh Laravel app"

  /** The command of the first commit. */
  const InitialCommit := "git commit -q -m \"" + InitialMessage + "\""

  /**
   * `initialize`: create the repository, stage and commit everything, then
   * rename the branch to the configured one, in that order, silently, in the
   * project directory.
   */
  function Initialize(config: Config): (inv: Invocation)
    ensures inv.mode == Silent && inv.workingPath == Some(config.directory) && inv.env == map[]
    ensures |inv.commands| == 4 && inv.commands[0] == "git init -q"
    ensures inv.commands[1] == "git add ."
    ensures inv.commands[2] == InitialCommit
    ensures inv.commands[3] == "git branch -M " + config.gitBranch
  {
    Invocation(Silent,
      ["git init -q", "git add .", InitialCommit, "git branch -M " + config.gitBranch],
      Some(config.directory), map[])
  }

  /** `commitChanges`: stage everything and commit with the message, in quotes. */
  function CommitChanges(message: string, directory: string): (inv: Invocation)
    ensures inv.mode == Silent && inv.workingPath == Some(directory) && inv.env == map[]
    ensures inv.commands == ["git add .", "git commit -q -m \"" + message + "\""]
  {
    Invocation(Silent, ["git add .", "git commit -q -m \"" + message + "\""], Some(directory), map[])
  }

  /** What precedes the message in a commit command. */
  const CommitPrefix := "git commit -q -m \""

  /** The message a commit command records, read back from the command. */
  function CommittedMessage(command: string): Option<string> {
    if StartsWith(command, CommitPrefix) && |command| > |CommitPrefix| && command[|command| - 1] == '"'
    then Some(command[|CommitPrefix|..|command| - 1])
    else None
  }

  /**
   * The commit records exactly the message given (the message is placed in
   * the command as it is), after staging everything.
   */
  lemma CommitMessageRoundTrip(message: string, directory: string)
    ensures CommitChanges(message, directory).commands[0] == "git add ."
    ensures CommittedMessage(CommitChanges(message, directory).commands[1]) == Some(message)
  {
    var c := CommitChanges(message, directory).commands[1];
    assert c == CommitPrefix + message + "\"";
    assert c[..|CommitPrefix|] == CommitPrefix;
    assert c[|CommitPrefix|..|c| - 1] == message;
  }

  /**
   * The initial batch is `git init`, then the `commitChanges` batch for the
   * message "Set up a fresh Laravel app", then the branch rename, all in the
   * same directory and the same mode.
   */
  lemma InitializeCommitsInitialMessage(config: Config)
    ensures var commit := CommitChanges(InitialMessage, config.directory);
      && Initialize(config).commands == ["git init -q"] + commit.commands + ["git branch -M " + config.gitBranch]
      && Initialize(config).workingPath == commit.workingPath && Initialize(config).mode == commit.mode
    ensures CommittedMessage(Initialize(config).commands[2]) == Some(InitialMessage)
  {
    CommitMessageRoundTrip(InitialMessage, config.directory);
  }

  /** The shell line of the initial batch: the four commands joined by ` && `. */
  lemma InitializeLine(config: Config)
    ensures Compose(Initialize(config).commands)
      == "git init -q" + " && " + "git add ." + " && " + InitialCommit + " && " + "git branch -M " + config.gitBranch
  {
    ComposeFour("git init -q", "git add .", InitialCommit, "git branch -M " + config.gitBranch);
    ConcatAssoc("git init -q" + " && " + "git add ." + " && " + InitialCommit + " && ", "git branch -M ", config.gitBranch);
  }

  /**
   * A failed initial commit surfaces as runSilent's exception, naming the
   * whole composed batch (the branch rename last) and then the process's
   * error output.
   */
  lemma InitializeFailure(config: Config, result: ProcessResult)
    requires result.exitCode != 0
    ensures RunSilent(Initialize(config).commands, result) == Fail(CommandFailed("Command failed: "
      + "git init -q" + " && " + "git add ." + " && " + InitialCommit + " && " + "git branch -M " + config.gitBranch
      + "\n" + result.errorOutput))
  {
    InitializeLine(config);
    var line := "git init -q" + " && " + "git add ." + " && " + InitialCommit + " && " + "git branch -M " + config.gitBranch;
    assert "Command failed: " + line == "Command failed: "
      + "git init -q" + " && " + "git add ." + " && " + InitialCommit + " && " + "git branch -M " + config.gitBranch;
  }

  /** Every git batch is on the runner's skip list, so no flag is ever appended to it. */
  lemma GitBatchesTakeNoFlags(config: Config, message: string, directory: string, decorated: bool, quiet: bool)
    ensures AddFlags(Initialize(config).commands, decorated, quiet) == Initialize(config).commands
    ensures AddFlags(CommitChanges(message, directory).commands, decorated, quiet)
      == CommitChanges(message, directory).commands
  {
    InitializeSkipped(config);
    AllSkippedUnchanged(Initialize(config).commands, decorated, quiet);
    CommitSkipped(message, directory);
    AllSkippedUnchanged(CommitChanges(message, directory).commands, decorated, quiet);
  }

  /** A commit command, whatever its message, is on the skip list. */
  lemma CommitCommandSkipped(message: string)
    ensures ShouldSkipFlag("git commit -q -m \"" + message + "\"")
  {
    var c := "git commit -q -m \"" + message + "\"";
    assert c[..3] == "git";
    GitSkipped(c);
  }

  lemma InitializeSkipped(config: Config)
    ensures forall i :: 0 <= i < |Initialize(config).commands| ==> ShouldSkipFlag(Initialize(config).commands[i])
  {
    var xs := Initialize(config).commands;
    assert xs[0][..3] == "git";
    GitSkipped(xs[0]);
    assert xs[1][..3] == "git";
    GitSkipped(xs[1]);
    CommitCommandSkipped(InitialMessage);
    assert xs[3] == "git branch -M " + config.gitBranch;
    assert xs[3][..3] == "git";
    GitSkipped(xs[3]);
  }

  lemma CommitSkipped(message: string, directory: string)
    ensures forall i :: 0 <= i < |CommitChanges(message, directory).commands| ==>
      ShouldSkipFlag(CommitChanges(message, directory).commands[i])
  {
    var ys := CommitChanges(message, directory).commands;
    assert ys[0][..3] == "git";
    GitSkipped(ys[0]);
    CommitCommandSkipped(message);
  }
}

/**
 * Publishing to GitHub (`GitHubService`): when the `gh` CLI is authenticated,
 * one `gh repo create` command, run silently in the project directory with
 * terminal prompting disabled; otherwise a warning and nothing else.
 */
module GitHubService {
  import opened Wrappers
  import opened Text
  import opened CommandRunner
  import opened ProjectConfiguration

  /** What `createAndPush` does. */
  datatype Publish =
    | Skipped(warning: string)        // `gh auth status` failed
    | Push(invocation: Invocation)    // handed to `runSilent`

  const SkipWarning :=
    "  <bg=yellow;fg=black> WARN </> Make sure the \"gh\" CLI tool is installed "
    + "and that you're authenticated to GitHub. Skipping..."

  /** The repository name: `organization/name` for a truthy organization, else the bare name. */
  function RepositoryName(config: Config): (r: string)
    ensures Truthy(config.githubOrganization) ==>
      StartsWith(r, config.githubOrganization.value + "/") && r[|config.githubOrganization.value| + 1..] == config.name
    ensures !Truthy(config.githubOrganization) ==> r == config.name
  {
    if Truthy(config.githubOrganization) then config.githubOrganization.value + "/" + config.name
    else config.name
  }

  /**
   * `createAndPush`, given whether `gh auth status` succeeded and the
   * platform's end-of-line.
   */
  function CreateAndPush(config: Config, authenticated: bool, eol: string): (p: Publish)
    ensures !authenticated <==> p.Skipped?
    ensures p.Skipped? ==> p.warning == SkipWarning + eol
    ensures p.Push? ==>
      && p.invocation.mode == Silent
      && p.invocation.workingPath == Some(config.directory)
      && p.invocation.env == map["GIT_TERMINAL_PROMPT" := "0"]
      && |p.invocation.commands| == 1
  {
    if !authenticated then Skipped(SkipWarning + eol)
    else Push(Invocation(Silent,
      ["gh repo create " + RepositoryName(config) + " --source=. --push " + config.githubFlags],
      Some(config.directory), map["GIT_TERMINAL_PROMPT" := "0"]))
  }

  /**
   * The single command names the repository right after `gh repo create `,
   * pushes the current directory, and ends with the configured flags.
   */
  lemma PushCommandLayout(config: Config, eol: string)
    ensures var c := CreateAndPush(config, true, eol).invocation.commands[0];
      var n := RepositoryName(config);
      && |c| == |"gh repo create " + n + " --source=. --push "| + |config.githubFlags|
      && StartsWith(c, "gh repo create " + n + " ")
      && c[|"gh repo create " + n|..|"gh repo create " + n| + 19] == " --source=. --push "
      && c[|c| - |config.githubFlags|..] == config.githubFlags
  {
    var n := RepositoryName(config);
    var c := "gh repo create " + n + " --source=. --push " + config.githubFlags;
    assert c == ("gh repo create " + n) + " --source=. --push " + config.githubFlags;
    assert c[..|"gh repo create " + n + " "|] == "gh repo create " + n + " ";
  }
}
