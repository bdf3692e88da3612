/**
 * The project's filesystem and what happens to it, as the services see them
 * through Laravel's `Filesystem`: regular files with their contents, the
 * directories, and the ordered record of file writes and of command batches
 * handed to the command runner.
 */
module Files {
  import opened CommandRunner

  /** `Filesystem::get` on a path that is not a regular file (`FileNotFoundException`). */
  datatype FileError = FileNotFound(path: string)

  /** The files and directories of the tree at one moment. */
  datatype Snapshot = Snapshot(files: map<string, string>, dirs: set<string>)

  /**
   * One observable effect, in the order it happened. A batch is recorded
   * with the tree it started from.
   */
  datatype Effect = Wrote(path: string) | Ran(invocation: Invocation, on: Snapshot)

  /** `after` is `before` followed by file writes only. */
  predicate WritesOnly(before: seq<Effect>, after: seq<Effect>) {
    |before| <= |after| && after[..|before|] == before
    && forall k :: |before| <= k < |after| ==> after[k].Wrote?
  }

  lemma WritesOnlyChain(a: seq<Effect>, b: seq<Effect>, c: seq<Effect>, d: seq<Effect>)
    requires WritesOnly(a, b) && WritesOnly(b, c) && WritesOnly(c, d)
    ensures WritesOnly(a, d)
  {
    assert d[..|b|] == b && d[..|a|] == a by {
      assert d[..|c|] == c && c[..|b|] == b && b[..|a|] == a;
      assert d[..|b|] == d[..|c|][..|b|];
      assert d[..|a|] == d[..|b|][..|a|];
    }
    forall k | |a| <= k < |d|
      ensures d[k].Wrote?
    {
      if k < |b| {
        assert d[k] == b[k];
      } else if k < |c| {
        assert d[k] == c[k];
      }
    }
  }

  class Workspace {
    /** Regular files, by path. */
    var files: map<string, string>
    /** Existing directories. */
    var dirs: set<string>
    /** File writes and command batches, oldest first. */
    var trace: seq<Effect>

    constructor (files: map<string, string>, dirs: set<string>)
      ensures this.files == files && this.dirs == dirs && trace == []
    {
      this.files := files;
      this.dirs := dirs;
      trace := [];
    }

    /** `Filesystem::exists`: a file or a directory. */
    predicate Exists(path: string)
      reads this
    {
      path in files || path in dirs
    }

    /** `Filesystem::put` / `file_put_contents`: creates or overwrites a file. */
    method Put(path: string, contents: string)
      modifies this
      ensures files == old(files)[path := contents]
      ensures dirs == old(dirs) && trace == old(trace) + [Wrote(path)]
    {
      files := files[path := contents];
      trace := trace + [Wrote(path)];
    }

    /**
     * Hands a batch of commands to the runner. What the commands do to the
     * tree is outside the model, so the tree they leave, `after`, is an input.
     */
    method Run(invocation: Invocation, after: Snapshot)
      modifies this
      ensures files == after.files && dirs == after.dirs
      ensures trace == old(trace) + [Ran(invocation, Snapshot(old(files), old(dirs)))]
    {
      trace := trace + [Ran(invocation, Snapshot(files, dirs))];
      files := after.files;
      dirs := after.dirs;
    }
  }
}
