/**
 * What the installer takes from the machine it runs on. The PHP binary
 * (located and shell-escaped by the binary locator), the composer command line
 * and `escapeshellarg` are opaque to the model and supplied here.
 */
module Platform {

  /** The values of `PHP_OS_FAMILY`. */
  datatype OsFamily = Windows | BSD | Darwin | Solaris | Linux | Unknown

  datatype Host = Host(
    os: OsFamily,
    /** `getcwd()` */
    cwd: string,
    /** `implode(' ', $composer->findComposer())` */
    composer: string,
    /** the already escaped PHP binary, or `php` */
    php: string,
    /** `escapeshellarg` */
    escape: string -> string)
}

/**
 * The node package managers the installer knows. The enum that defines their
 * cases, lock files and install/build commands is not part of this model; a
 * `Catalog` supplies what it would answer.
 */
module PackageManagers {

  datatype Manager = NPM | YARN | PNPM | BUN

  datatype Catalog = Catalog(
    /** `NodePackageManager::cases()`, in declaration order */
    cases: seq<Manager>,
    /** `$manager->lockFiles()` */
    lockFiles: Manager -> seq<string>,
    /** `NodePackageManager::allLockFiles()` */
    allLockFiles: seq<string>,
    /** `$manager->installCommand()` */
    installCommand: Manager -> string,
    /** `$manager->buildCommand()` */
    buildCommand: Manager -> string)
}
