/**
 * Choosing the node package manager (`PackageManagerDetector`) and removing
 * the lock files that do not belong to the chosen one.
 */
module PackageManagerDetector {
  import opened Wrappers
  import opened PackageManagers
  import opened ProjectConfiguration
  import opened Files

  /** The `--pnpm`, `--bun`, `--yarn` and `--npm` options. */
  datatype ManagerFlags = ManagerFlags(pnpm: bool, bun: bool, yarn: bool, npm: bool)

  /** `PackageManagerSelection`: the manager and whether to run it without asking. */
  datatype Selection = Selection(manager: Manager, shouldRun: bool)

  predicate AnyFlag(flags: ManagerFlags) {
    flags.pnpm || flags.bun || flags.yarn || flags.npm
  }

  /** Some lock file of `m` exists in `directory`. */
  predicate HasLockFile(catalog: Catalog, m: Manager, directory: string, existing: set<string>) {
    exists k :: 0 <= k < |catalog.lockFiles(m)| && directory + "/" + catalog.lockFiles(m)[k] in existing
  }

  /** No manager before position `i` in case order, NPM excepted, has a lock file. */
  predicate NoLockBefore(catalog: Catalog, i: int, directory: string, existing: set<string>)
    requires 0 <= i <= |catalog.cases|
  {
    forall j :: 0 <= j < i && catalog.cases[j] != NPM ==> !HasLockFile(catalog, catalog.cases[j], directory, existing)
  }

  /**
   * `detect`: an explicit flag wins (pnpm, then bun, yarn, npm) and is run
   * without asking; otherwise the first manager in case order, NPM skipped,
   * with a lock file in the directory; otherwise NPM. `existing` is the set of
   * paths that exist.
   */
  method Detect(flags: ManagerFlags, directory: string, catalog: Catalog, existing: set<string>)
    returns (sel: Selection)
    ensures sel.shouldRun <==> AnyFlag(flags)
    ensures flags.pnpm ==> sel.manager == PNPM
    ensures !flags.pnpm && flags.bun ==> sel.manager == BUN
    ensures !flags.pnpm && !flags.bun && flags.yarn ==> sel.manager == YARN
    ensures !flags.pnpm && !flags.bun && !flags.yarn && flags.npm ==> sel.manager == NPM
    ensures !AnyFlag(flags) ==>
      || (sel.manager == NPM && NoLockBefore(catalog, |catalog.cases|, directory, existing))
      || (exists i :: 0 <= i < |catalog.cases| && catalog.cases[i] == sel.manager && sel.manager != NPM
            && HasLockFile(catalog, sel.manager, directory, existing)
            && NoLockBefore(catalog, i, directory, existing))
  {
    if flags.pnpm {
      return Selection(PNPM, true);
    }
    if flags.bun {
      return Selection(BUN, true);
    }
    if flags.yarn {
      return Selection(YARN, true);
    }
    if flags.npm {
      return Selection(NPM, true);
    }
    var i := 0;
    while i < |catalog.cases|
      invariant 0 <= i <= |catalog.cases|
      invariant NoLockBefore(catalog, i, directory, existing)
    {
      var m := catalog.cases[i];
      if m != NPM {
        var lockFiles := catalog.lockFiles(m);
        var k := 0;
        while k < |lockFiles|
          invariant 0 <= k <= |lockFiles|
          invariant forall k' :: 0 <= k' < k ==> directory + "/" + lockFiles[k'] !in existing
        {
          if directory + "/" + lockFiles[k] in existing {
            return Selection(m, false);
          }
          k := k + 1;
        }
      }
      i := i + 1;
    }
    return Selection(NPM, false);
  }

  /** The paths `cleanupLockFiles` removes: every known lock file the chosen manager does not use. */
  function StaleLockPaths(directory: string, valid: seq<string>, all: seq<string>): set<string> {
    set lockFile | lockFile in all && lockFile !in valid :: directory + "/" + lockFile
  }

  /**
   * `cleanupLockFiles`: without a chosen manager nothing happens; otherwise
   * every known lock file outside the chosen manager's list is deleted from
   * the project directory, and nothing else is touched.
   */
  method CleanupLockFiles(ws: Workspace, config: Config, catalog: Catalog)
    modifies ws
    ensures config.packageManager.None? ==> ws.files == old(ws.files)
    ensures config.packageManager.Some? ==>
      ws.files == old(ws.files) - StaleLockPaths(config.directory, catalog.lockFiles(config.packageManager.value), catalog.allLockFiles)
    ensures ws.dirs == old(ws.dirs) && ws.trace == old(ws.trace)
  {
    if config.packageManager.None? {
      return;
    }
    var valid := catalog.lockFiles(config.packageManager.value);
    var all := catalog.allLockFiles;
    var i := 0;
    while i < |all|
      invariant 0 <= i <= |all|
      invariant ws.files == old(ws.files) - StaleLockPaths(config.directory, valid, all[..i])
      invariant ws.dirs == old(ws.dirs) && ws.trace == old(ws.trace)
    {
      assert all[..i + 1] == all[..i] + [all[i]];
      if all[i] !in valid {
        var path := config.directory + "/" + all[i];
        if path in ws.files {
          ws.files := ws.files - {path};
        }
        assert StaleLockPaths(config.directory, valid, all[..i + 1])
            == StaleLockPaths(config.directory, valid, all[..i]) + {path};
      } else {
        assert StaleLockPaths(config.directory, valid, all[..i + 1])
            == StaleLockPaths(config.directory, valid, all[..i]);
      }
      i := i + 1;
    }
    assert all[..i] == all;
  }

  /**
   * After cleanup no stale lock file is left, while the chosen manager's own
   * lock files and every file that is not a known lock file keep their contents.
   */
  lemma CleanupOutcome(before: map<string, string>, directory: string, valid: seq<string>, all: seq<string>)
    ensures var after := before - StaleLockPaths(directory, valid, all);
      && (forall lockFile :: lockFile in all && lockFile !in valid ==> directory + "/" + lockFile !in after)
      && (forall p :: p in before && p !in StaleLockPaths(directory, valid, all) ==> p in after && after[p] == before[p])
      && (forall own :: own in valid && directory + "/" + own in before ==>
            directory + "/" + own in after && after[directory + "/" + own] == before[directory + "/" + own])
  {
    forall own, lockFile | own in valid && lockFile in all && lockFile !in valid
      ensures directory + "/" + lockFile != directory + "/" + own
    {
      assert (directory + "/" + lockFile)[|directory| + 1..] == lockFile;
      assert (directory + "/" + own)[|directory| + 1..] == own;
    }
  }
}
