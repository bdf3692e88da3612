/**
 * The command-execution engine (`CommandRunner`). A group of commands is
 * composed into one shell line joined by ` && `; the streamed mode first
 * appends `--no-ansi` / `--quiet` to every command that is not on the skip
 * list. Running the process is outside the model: its result is an input.
 */
module CommandRunner {
  import opened Wrappers
  import opened Text

  /** The three ways of running: `run`, `runSilent` and `runWithOutput`. */
  datatype Mode = FailFast | Silent | Streamed

  /** What a service hands to the runner. */
  datatype Invocation = Invocation(
    mode: Mode,
    commands: seq<string>,
    workingPath: Option<string>,
    env: map<string, string>)

  /** How the child process ended. */
  datatype ProcessResult = ProcessResult(exitCode: int, errorOutput: string)

  /** The exceptions the runner raises. */
  datatype RunError =
    | ProcessFailed(commandLine: string, exitCode: int)   // mustRun's ProcessFailedException
    | CommandFailed(message: string)                      // runSilent's RuntimeException

  /** The shell line a group of commands becomes (`implode(' && ', $commands)`). */
  function Compose(commands: seq<string>): string {
    Join(commands, " && ")
  }

  /** Commands the flags are never appended to: a literal prefix test. */
  predicate ShouldSkipFlag(command: string) {
    StartsWith(command, "chmod") || StartsWith(command, "rm")
    || StartsWith(command, "git") || StartsWith(command, "php ./vendor/bin/pest")
  }

  /** One `array_map` pass: appends `flag` to every command that is not skipped. */
  function AppendFlag(commands: seq<string>, flag: string): (r: seq<string>)
  {
    seq(|commands|, i requires 0 <= i < |commands| =>
      if ShouldSkipFlag(commands[i]) then commands[i] else commands[i] + flag)
  }

  /** `addFlags`: the `--no-ansi` pass when output is not decorated, then the `--quiet` pass. */
  function AddFlags(commands: seq<string>, decorated: bool, quiet: bool): seq<string> {
    var plain := if !decorated then AppendFlag(commands, " --no-ansi") else commands;
    if quiet then AppendFlag(plain, " --quiet") else plain
  }

  /** The flags a command that is not skipped receives, in order. */
  function FlagSuffix(decorated: bool, quiet: bool): string {
    (if !decorated then " --no-ansi" else "") + (if quiet then " --quiet" else "")
  }

  /**
   * A prefix test survives appending `f` when no tail of the prefix is the
   * start of `f`.
   */
  lemma PrefixKept(command: string, f: string, p: string)
    requires forall k | 0 <= k < |p| :: !StartsWith(f, p[k..])
    ensures StartsWith(command + f, p) == StartsWith(command, p)
  {
    var c := command + f;
    if |p| <= |command| {
      assert c[..|p|] == command[..|p|];
    } else if |p| <= |c| {
      var k := |command|;
      assert !StartsWith(f, p[k..]);
      assert c[..|p|][k..] == f[..|p| - k];
    }
  }

  /**
   * Appending ` --no-ansi` never changes whether a command is skipped, so the
   * second pass sees the same skip decision as the first.
   */
  lemma SkipStable(command: string)
    ensures ShouldSkipFlag(command + " --no-ansi") == ShouldSkipFlag(command)
  {
    var f := " --no-ansi";
    forall k | 0 <= k < 5 ensures !StartsWith(f, "chmod"[k..]) {
      assert "chmod"[k] != ' ';
    }
    forall k | 0 <= k < 2 ensures !StartsWith(f, "rm"[k..]) {
      assert "rm"[k] != ' ';
    }
    forall k | 0 <= k < 3 ensures !StartsWith(f, "git"[k..]) {
      assert "git"[k] != ' ';
    }
    PrefixKept(command, f, "chmod");
    PrefixKept(command, f, "rm");
    PrefixKept(command, f, "git");
    var pest := "php ./vendor/bin/pest";
    forall k | 0 <= k < |pest| ensures !StartsWith(f, pest[k..]) {
      if k != 3 {
        assert pest[k] != ' ';
      } else {
        assert pest[k..][1] == '.';
      }
    }
    PrefixKept(command, f, pest);
  }

  /**
   * `addFlags` keeps the number and order of the commands; a skipped command
   * is returned unchanged, every other one gets `--no-ansi` (when output is
   * not decorated) followed by `--quiet` (when quiet).
   */
  lemma AddFlagsPerCommand(commands: seq<string>, decorated: bool, quiet: bool)
    ensures |AddFlags(commands, decorated, quiet)| == |commands|
    ensures forall i :: 0 <= i < |commands| ==>
      AddFlags(commands, decorated, quiet)[i] ==
        if ShouldSkipFlag(commands[i]) then commands[i]
        else commands[i] + FlagSuffix(decorated, quiet)
  {
    var plain := if !decorated then AppendFlag(commands, " --no-ansi") else commands;
    forall i | 0 <= i < |commands|
      ensures ShouldSkipFlag(plain[i]) == ShouldSkipFlag(commands[i])
    {
      SkipStable(commands[i]);
    }
  }

  /** A batch made only of skipped commands is left alone by flag injection. */
  lemma AllSkippedUnchanged(commands: seq<string>, decorated: bool, quiet: bool)
    requires forall i :: 0 <= i < |commands| ==> ShouldSkipFlag(commands[i])
    ensures AddFlags(commands, decorated, quiet) == commands
  {
    AddFlagsPerCommand(commands, decorated, quiet);
  }

  /** Every git command is skipped. */
  lemma GitSkipped(command: string)
    requires |command| >= 3 && command[..3] == "git"
    ensures ShouldSkipFlag(command)
  {
  }

  /** With decorated output and no `--quiet`, the commands are left alone. */
  lemma AddFlagsIdentity(commands: seq<string>)
    ensures AddFlags(commands, true, false) == commands
  {
  }

  // ---------------------------------------------------------------------
  // The three execution modes

  /** Every command of a batch occurs in its shell line. */
  lemma ComposeNamesEach(commands: seq<string>)
    ensures forall i :: 0 <= i < |commands| ==> Contains(Compose(commands), commands[i])
  {
    forall i | 0 <= i < |commands|
      ensures Contains(Compose(commands), commands[i])
    {
      JoinContainsEach(commands, " && ", i);
    }
  }

  /**
   * `run`: `mustRun` raises exactly when the composed process exits non-zero,
   * and the exception names the line, so every command of the batch, and
   * the exit code.
   */
  function Run(commands: seq<string>, result: ProcessResult): (o: Outcome<RunError>)
    ensures o.Pass? <==> result.exitCode == 0
    ensures o.Fail? ==> o.error == ProcessFailed(Compose(commands), result.exitCode)
    ensures o.Fail? ==> forall i :: 0 <= i < |commands| ==> Contains(o.error.commandLine, commands[i])
  {
    ComposeNamesEach(commands);
    if result.exitCode == 0 then Pass else Fail(ProcessFailed(Compose(commands), result.exitCode))
  }

  /**
   * `runSilent`: a failure becomes `Command failed: <line>\n<stderr>`, so the
   * message names every command of the batch and ends with the process's
   * error output. No flag is added: the line is the one `run` reports.
   */
  function RunSilent(commands: seq<string>, result: ProcessResult): (o: Outcome<RunError>)
    ensures o.Pass? <==> Run(commands, result).Pass?
    ensures o.Fail? ==> o.error == CommandFailed("Command failed: " + Run(commands, result).error.commandLine + "\n" + result.errorOutput)
    ensures o.Fail? ==> forall i :: 0 <= i < |commands| ==> Contains(o.error.message, commands[i])
    ensures o.Fail? ==> StartsWith(o.error.message, "Command failed: ")
    ensures o.Fail? ==> o.error.message[|o.error.message| - |result.errorOutput|..] == result.errorOutput
  {
    if result.exitCode == 0 then Pass
    else
      var line := Compose(commands);
      var message := "Command failed: " + line + "\n" + result.errorOutput;
      assert message == "Command failed: " + (line + "\n" + result.errorOutput);
      assert message == "Command failed: " + line + ("\n" + result.errorOutput);
      ComposeNamesEach(commands);
      forall i | 0 <= i < |commands|
        ensures Contains(message, commands[i])
      {
        ContainsWithin("Command failed: ", line, "\n" + result.errorOutput, commands[i]);
      }
      Fail(CommandFailed(message))
  }

  /** What `runWithOutput` writes: a `writeln` line or a `write` chunk. */
  datatype Written = Line(text: string) | Chunk(text: string)

  /** The process `runWithOutput` hands back, with what it wrote on the way. */
  datatype StreamedRun = StreamedRun(
    commandLine: string,
    tty: bool,
    written: seq<Written>,
    exitCode: int)

  /** The line written when a TTY cannot be attached. */
  function WarnLine(message: string, eol: string): string {
    "  <bg=yellow;fg=black> WARN </> " + message + eol
  }

  /** The chunk texts with the four-space indent taken off again. */
  function Unindent(w: seq<Written>): seq<string> {
    seq(|w|, i requires 0 <= i < |w| => if StartsWith(w[i].text, "    ") then w[i].text[4..] else w[i].text)
  }

  /**
   * Each chunk of child output, indented by four spaces: nothing of the
   * child's output is lost, reordered or merged, since taking the indent off
   * again gives back the chunks.
   */
  function Indent(chunks: seq<string>): (w: seq<Written>)
    ensures |w| == |chunks|
    ensures forall i :: 0 <= i < |chunks| ==> w[i].Chunk? && StartsWith(w[i].text, "    ")
    ensures Unindent(w) == chunks
  {
    var w := seq(|chunks|, i requires 0 <= i < |chunks| => Chunk("    " + chunks[i]));
    assert forall i :: 0 <= i < |chunks| ==> w[i].text[..4] == "    " && w[i].text[4..] == chunks[i];
    w
  }

  /** A command as flag injection leaves it. */
  function Flagged(command: string, decorated: bool, quiet: bool): string {
    if ShouldSkipFlag(command) then command else command + FlagSuffix(decorated, quiet)
  }

  /**
   * `runWithOutput`: flags are added, the commands composed, a TTY attached
   * when the host supports one (a failure to attach is only a warning), the
   * child's output streamed with indentation, and the process returned whatever
   * its exit status: this mode never fails. The line names every command as
   * flag injection leaves it; the output written is at most one warning line
   * followed by the child's whole output, in order.
   */
  function RunWithOutput(
    commands: seq<string>, decorated: bool, quiet: bool,
    ttySupported: bool, ttyError: Option<string>, eol: string,
    chunks: seq<string>, exitCode: int): (p: StreamedRun)
    ensures p.commandLine == Compose(AddFlags(commands, decorated, quiet))
    ensures forall i :: 0 <= i < |commands| ==> Contains(p.commandLine, Flagged(commands[i], decorated, quiet))
    ensures p.tty <==> ttySupported && ttyError.None?
    ensures p.exitCode == exitCode
    ensures |p.written| == |chunks| + (if ttySupported && ttyError.Some? then 1 else 0)
    ensures ttySupported && ttyError.Some? ==> p.written[0] == Line(WarnLine(ttyError.value, eol))
    ensures Unindent(p.written[|p.written| - |chunks|..]) == chunks
  {
    var warned := ttySupported && ttyError.Some?;
    FlaggedLineNamesEach(commands, decorated, quiet);
    var written := (if warned then [Line(WarnLine(ttyError.value, eol))] else []) + Indent(chunks);
    IndentedTail(if warned then [Line(WarnLine(ttyError.value, eol))] else [], chunks);
    StreamedRun(Compose(AddFlags(commands, decorated, quiet)), ttySupported && ttyError.None?, written, exitCode)
  }

  /** The streamed line names every command as flag injection leaves it. */
  lemma FlaggedLineNamesEach(commands: seq<string>, decorated: bool, quiet: bool)
    ensures forall i :: 0 <= i < |commands| ==>
      Contains(Compose(AddFlags(commands, decorated, quiet)), Flagged(commands[i], decorated, quiet))
  {
    AddFlagsPerCommand(commands, decorated, quiet);
    ComposeNamesEach(AddFlags(commands, decorated, quiet));
  }

  /** Whatever is written before the indented output, the output is the tail. */
  lemma IndentedTail(before: seq<Written>, chunks: seq<string>)
    ensures var w := before + Indent(chunks); Unindent(w[|w| - |chunks|..]) == chunks
  {
    var w := before + Indent(chunks);
    assert w[|w| - |chunks|..] == Indent(chunks);
  }

  /** The line of a two-command batch as the streamed mode runs it. */
  lemma FlaggedPairLine(a: string, b: string)
    ensures forall decorated: bool, quiet: bool ::
      Compose(AddFlags([a, b], decorated, quiet)) == Flagged(a, decorated, quiet) + " && " + Flagged(b, decorated, quiet)
  {
    forall decorated: bool, quiet: bool
      ensures Compose(AddFlags([a, b], decorated, quiet))
        == Flagged(a, decorated, quiet) + " && " + Flagged(b, decorated, quiet)
    {
      AddFlagsPerCommand([a, b], decorated, quiet);
      var f := AddFlags([a, b], decorated, quiet);
      assert |f| == 2 && f[1..] == [f[1]];
      assert Join(f[1..], " && ") == f[1];
    }
  }

  /** The shell line a handed-off invocation runs as. */
  function CommandLine(inv: Invocation, decorated: bool, quiet: bool): string {
    if inv.mode == Streamed then Compose(AddFlags(inv.commands, decorated, quiet))
    else Compose(inv.commands)
  }

  // ---------------------------------------------------------------------
  // Composition

  /** Composing one more command appends it after ` && `. */
  lemma {:induction false} ComposeAppend(commands: seq<string>, c: string)
    requires |commands| > 0
    ensures Compose(commands + [c]) == Compose(commands) + " && " + c
    decreases |commands|
  {
    if |commands| == 1 {
      assert (commands + [c])[1..] == [c];
      assert Compose([c]) == c;
    } else {
      assert (commands + [c])[1..] == commands[1..] + [c];
      ComposeAppend(commands[1..], c);
    }
  }

  /** The line of a four-command batch. */
  lemma ComposeFour(a: string, b: string, c: string, d: string)
    ensures Compose([a, b, c, d]) == a + " && " + b + " && " + c + " && " + d
  {
    var sep := " && ";
    assert [a, b, c, d][1..] == [b, c, d];
    assert [b, c, d][1..] == [c, d];
    assert [c, d][1..] == [d];
    assert Join([d], sep) == d;
    assert Join([c, d], sep) == c + sep + d;
    assert Join([b, c, d], sep) == b + sep + (c + sep + d);
    assert Join([a, b, c, d], sep) == a + sep + (b + sep + (c + sep + d));
  }

  /** Composing two groups is composing each and joining them with ` && `. */
  lemma {:induction false} ComposeConcat(xs: seq<string>, ys: seq<string>)
    requires |xs| > 0 && |ys| > 0
    ensures Compose(xs + ys) == Compose(xs) + " && " + Compose(ys)
    decreases |xs|
  {
    if |xs| == 1 {
      assert (xs + ys)[1..] == ys;
    } else {
      assert (xs + ys)[1..] == xs[1..] + ys;
      ComposeConcat(xs[1..], ys);
    }
  }

  /** Examples of the literal prefix test. */
  lemma SkipExamples()
    ensures ShouldSkipFlag("rmdir build")
    ensures ShouldSkipFlag("git add .")
    ensures !ShouldSkipFlag("'/usr/bin/php' ./vendor/bin/pest --init")
    ensures !ShouldSkipFlag("composer install")
  {
    assert "rmdir build"[..2] == "rm";
    assert "git add ."[..3] == "git";
    var q := "'/usr/bin/php' ./vendor/bin/pest --init";
    assert q[0] == '\'' && q[0] != 'c' && q[0] != 'r' && q[0] != 'g' && q[0] != 'p';
    var k := "composer install";
    assert k[1] == 'o' && k[0] == 'c';
  }
}
