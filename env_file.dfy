/**
 * The rewrites the database configurator applies to the contents of `.env`
 * and `.env.example`: pointing `DB_CONNECTION` at the chosen driver,
 * commenting or uncommenting the five default connection lines, the port and
 * the database name.
 */
module EnvFile {
  import opened Wrappers
  import opened Text

  const ConnectionKey: string := "DB_CONNECTION="

  /** Where the current line ends: the first line break, or the end of the text. */
  function LineEnd(s: string): (n: nat)
    ensures n <= |s| && (n == |s| || s[n] == '\n')
    ensures forall i :: 0 <= i < n ==> s[i] != '\n'
    decreases |s|
  {
    if |s| == 0 || s[0] == '\n' then 0 else 1 + LineEnd(s[1..])
  }

  predicate SingleLine(s: string) {
    forall i :: 0 <= i < |s| ==> s[i] != '\n'
  }

  /** A pattern of the form `key.*`: the key is a non-empty piece of one line. */
  predicate LineKey(key: string) {
    |key| > 0 && SingleLine(key)
  }

  /**
   * `preg_replace('/<key>.*\/', replacement, $s)`: each match runs from the
   * key to the end of its line (`.` stops at a line feed), and the scan
   * resumes after it.
   */
  function ScanRewrite(s: string, key: string, replacement: string): string
    requires |key| > 0
    decreases |s|
  {
    if |s| == 0 then ""
    else if StartsWith(s, key) then
      var t := s[|key|..];
      replacement + ScanRewrite(t[LineEnd(t)..], key, replacement)
    else [s[0]] + ScanRewrite(s[1..], key, replacement)
  }

  /** The `DB_CONNECTION=.*` replacement with `DB_CONNECTION=<db>`. */
  function SetConnection(s: string, db: string): string {
    ScanRewrite(s, ConnectionKey, ConnectionKey + db)
  }

  /** One line with its first `key` and everything after it replaced. */
  function FixLine(line: string, key: string, replacement: string): string {
    match IndexOf(line, key)
    case None => line
    case Some(i) => line[..i] + replacement
  }

  function FixLines(lines: seq<string>, key: string, replacement: string): (r: seq<string>)
    ensures |r| == |lines|
    decreases |lines|
  {
    if |lines| == 0 then [] else [FixLine(lines[0], key, replacement)] + FixLines(lines[1..], key, replacement)
  }

  /** The rewrite read line by line: an independent statement of the same rule. */
  function RewriteByLine(s: string, key: string, replacement: string): string {
    Join(FixLines(Explode(s, '\n'), key, replacement), "\n")
  }

  function SetConnectionByLine(s: string, db: string): string {
    RewriteByLine(s, ConnectionKey, ConnectionKey + db)
  }

  lemma ConnectionKeyIsLineKey()
    ensures LineKey(ConnectionKey) && ConnectionKey[0] != '\n'
  {
  }

  /** Within one line, the scan and the per-line rule agree. */
  lemma {:induction false} SingleLineAgrees(l: string, key: string, r: string)
    requires LineKey(key) && SingleLine(l)
    ensures ScanRewrite(l, key, r) == FixLine(l, key, r)
    decreases |l|
  {
    if |l| == 0 {
    } else if StartsWith(l, key) {
      AgreeAtKey(l, key, r);
    } else {
      SingleLineAgrees(l[1..], key, r);
      AgreeAfterFirst(l, key, r);
    }
  }

  /** A line that starts with the key becomes the replacement. */
  lemma AgreeAtKey(l: string, key: string, r: string)
    requires LineKey(key) && SingleLine(l) && StartsWith(l, key)
    ensures ScanRewrite(l, key, r) == FixLine(l, key, r)
  {
    var t := l[|key|..];
    assert LineEnd(t) == |t|;
    assert t[|t|..] == "";
    assert IndexOf(l, key) == Some(0);
  }

  /** A line that does not start with the key keeps its first character. */
  lemma AgreeAfterFirst(l: string, key: string, r: string)
    requires LineKey(key) && SingleLine(l) && |l| > 0 && !StartsWith(l, key)
    requires ScanRewrite(l[1..], key, r) == FixLine(l[1..], key, r)
    ensures ScanRewrite(l, key, r) == FixLine(l, key, r)
  {
    assert ScanRewrite(l, key, r) == [l[0]] + FixLine(l[1..], key, r);
    FixLineAfterFirst(l, key, r);
  }

  /** The per-line rule on a line that does not start with the key. */
  lemma FixLineAfterFirst(l: string, key: string, r: string)
    requires |l| > 0 && !StartsWith(l, key)
    ensures FixLine(l, key, r) == [l[0]] + FixLine(l[1..], key, r)
  {
    IndexOfAfterFirst(l, key);
    match IndexOf(l[1..], key)
    case None =>
      ConsTail(l);
    case Some(j) =>
      ConsPrefix(l, j, r);
  }

  lemma IndexOfAfterFirst(l: string, key: string)
    requires |l| > 0 && !StartsWith(l, key)
    ensures IndexOf(l, key) == match IndexOf(l[1..], key) case None => None case Some(j) => Some(j + 1)
  {
  }

  lemma ConsTail(l: string)
    requires |l| > 0
    ensures [l[0]] + l[1..] == l
  {
  }

  lemma ConsPrefix(l: string, j: nat, r: string)
    requires j < |l|
    ensures l[..j + 1] + r == [l[0]] + (l[1..][..j] + r)
  {
    assert l[..j + 1] == [l[0]] + l[1..][..j];
  }

  /** A text that does not start with the key still does not once a line break is reached early. */
  lemma KeyNotAcrossBreak(l: string, rest: string, key: string)
    requires LineKey(key) && SingleLine(l)
    ensures StartsWith(l + "\n" + rest, key) == StartsWith(l, key)
  {
    var s := l + "\n" + rest;
    if |l| >= |key| {
      assert s[..|key|] == l[..|key|];
    } else if |s| >= |key| {
      assert s[..|key|][|l|] == '\n';
      assert key[|l|] != '\n';
    }
  }

  /** The scan passes over a line break. */
  lemma ScanPassesBreak(rest: string, key: string, r: string)
    requires LineKey(key)
    ensures ScanRewrite("\n" + rest, key, r) == "\n" + ScanRewrite(rest, key, r)
  {
    assert !StartsWith("\n" + rest, key) by {
      assert |"\n" + rest| < |key| || ("\n" + rest)[..|key|][0] != key[0];
    }
    assert ("\n" + rest)[1..] == rest;
  }

  /** The scan treats the lines on either side of a line break separately. */
  lemma {:induction false} ScanSplitsAtBreak(l: string, rest: string, key: string, r: string)
    requires LineKey(key) && SingleLine(l)
    ensures ScanRewrite(l + "\n" + rest, key, r) == ScanRewrite(l, key, r) + "\n" + ScanRewrite(rest, key, r)
    decreases |l|
  {
    var s := l + "\n" + rest;
    KeyNotAcrossBreak(l, rest, key);
    ScanPassesBreak(rest, key, r);
    if |l| == 0 {
      assert s == "\n" + rest;
    } else if StartsWith(l, key) {
      ScanSplitsAtKey(l, rest, key, r);
    } else {
      assert s[1..] == l[1..] + "\n" + rest;
      ScanSplitsAtBreak(l[1..], rest, key, r);
    }
  }

  /** A line that starts with the key: the match stops at the line break. */
  lemma ScanSplitsAtKey(l: string, rest: string, key: string, r: string)
    requires LineKey(key) && SingleLine(l) && StartsWith(l, key)
    requires ScanRewrite("\n" + rest, key, r) == "\n" + ScanRewrite(rest, key, r)
    ensures ScanRewrite(l + "\n" + rest, key, r) == ScanRewrite(l, key, r) + "\n" + ScanRewrite(rest, key, r)
  {
    var s := l + "\n" + rest;
    KeyNotAcrossBreak(l, rest, key);
    MatchEndsAtBreak(l, rest, key);
    MatchEndsLine(l, key);
    assert ScanRewrite(s, key, r) == r + ScanRewrite("\n" + rest, key, r);
    assert ScanRewrite(l, key, r) == r;
  }

  /** After a key at the start of `l`, the match stops at the line break that ends `l`. */
  lemma MatchEndsAtBreak(l: string, rest: string, key: string)
    requires SingleLine(l) && |key| <= |l|
    ensures var t := (l + "\n" + rest)[|key|..];
      t[LineEnd(t)..] == "\n" + rest
  {
    var t := (l + "\n" + rest)[|key|..];
    var u := l[|key|..];
    assert t == u + "\n" + rest;
    assert t[|u|] == '\n';
    assert forall i :: 0 <= i < |u| ==> t[i] == u[i];
    assert LineEnd(t) == |u|;
  }

  /** A line that starts with the key is matched to its end. */
  lemma MatchEndsLine(l: string, key: string)
    requires SingleLine(l) && |key| <= |l|
    ensures var u := l[|key|..]; u[LineEnd(u)..] == ""
  {
    var u := l[|key|..];
    assert LineEnd(u) == |u|;
  }

  /** The line-anchored scan is exactly the per-line rule, for any one-line key. */
  lemma {:induction false} ScanIsPerLine(s: string, key: string, r: string)
    requires LineKey(key)
    ensures ScanRewrite(s, key, r) == RewriteByLine(s, key, r)
    decreases |s|
  {
    var j := LineEnd(s);
    var l := s[..j];
    if j == |s| {
      assert l == s;
      ExplodeOnePiece(s, '\n');
      SingleLineAgrees(s, key, r);
    } else {
      var rest := s[j + 1..];
      assert s == l + "\n" + rest;
      ScanSplitsAtBreak(l, rest, key, r);
      SingleLineAgrees(l, key, r);
      ScanIsPerLine(rest, key, r);
      ExplodeFirstPiece(l, '\n', rest);
      var tail := FixLines(Explode(rest, '\n'), key, r);
      assert FixLines([l] + Explode(rest, '\n'), key, r) == [FixLine(l, key, r)] + tail;
      assert |tail| >= 1;
    }
  }

  /** The regular-expression rewrite is exactly the per-line rule. */
  lemma ConnectionRewriteIsPerLine(s: string, db: string)
    ensures SetConnection(s, db) == SetConnectionByLine(s, db)
  {
    ConnectionKeyIsLineKey();
    ScanIsPerLine(s, ConnectionKey, ConnectionKey + db);
  }

  /** A text without the key is left alone. */
  lemma NoConnectionUntouched(s: string, db: string)
    requires forall i :: 0 <= i ==> !OccursAt(s, ConnectionKey, i)
    ensures SetConnection(s, db) == s
  {
    ConnectionKeyIsLineKey();
    NoKeyUntouched(s, ConnectionKey, ConnectionKey + db);
  }

  lemma NoKeyUntouched(s: string, key: string, r: string)
    requires LineKey(key)
    requires forall i :: 0 <= i ==> !OccursAt(s, key, i)
    ensures ScanRewrite(s, key, r) == s
  {
    ScanIsPerLine(s, key, r);
    var lines := Explode(s, '\n');
    forall k | 0 <= k < |lines|
      ensures FixLine(lines[k], key, r) == lines[k]
    {
      NoKeyInLines(s, key, k);
    }
    FixLinesIdentity(lines, key, r);
    ExplodeJoin(s, '\n');
  }

  lemma NoKeyInLines(s: string, key: string, k: int)
    requires forall i :: 0 <= i ==> !OccursAt(s, key, i)
    requires 0 <= k < |Explode(s, '\n')|
    ensures IndexOf(Explode(s, '\n')[k], key) == None
    decreases |s|
  {
    var j := LineEnd(s);
    var l := s[..j];
    if j == |s| {
      assert l == s;
      ExplodeOnePiece(s, '\n');
    } else {
      var rest := s[j + 1..];
      assert s == l + "\n" + rest;
      ExplodeFirstPiece(l, '\n', rest);
      if k == 0 {
        forall i | 0 <= i
          ensures !OccursAt(l, key, i)
        {
          if i + |key| <= |l| {
            OccursInPrefix(s, l, key, i);
          }
        }
      } else {
        forall i | 0 <= i
          ensures !OccursAt(rest, key, i)
        {
          OccursShift(s, j + 1, key, i);
        }
        NoKeyInLines(rest, key, k - 1);
      }
    }
  }

  lemma {:induction false} FixLinesIdentity(lines: seq<string>, key: string, r: string)
    requires forall k :: 0 <= k < |lines| ==> FixLine(lines[k], key, r) == lines[k]
    ensures FixLines(lines, key, r) == lines
    decreases |lines|
  {
    if |lines| > 0 {
      FixLinesIdentity(lines[1..], key, r);
      assert lines == [lines[0]] + lines[1..];
    }
  }

  // ---------------------------------------------------------------------
  // The five default connection lines

  const Marker: string := "# DB_HOST=127.0.0.1"
  const Defaults: seq<string> := ["DB_HOST=127.0.0.1", "DB_PORT=3306", "DB_DATABASE=laravel", "DB_USERNAME=root", "DB_PASSWORD="]
  const Commented: seq<string> := CommentAll(Defaults)

  /** The `array_map` that puts `# ` in front of every line. */
  function CommentAll(lines: seq<string>): (r: seq<string>)
    ensures |r| == |lines|
    ensures forall i :: 0 <= i < |lines| ==> r[i] == "# " + lines[i]
  {
    if lines == [] then [] else ["# " + lines[0]] + CommentAll(lines[1..])
  }

  /** Each commented line is its default line behind `# `, and the first one is the marker. */
  lemma CommentedLines()
    ensures |Defaults| == |Commented| == 5
    ensures forall i :: 0 <= i < 5 ==> Commented[i] == "# " + Defaults[i]
    ensures Commented[0] == Marker
  {
    assert Defaults[0] == "DB_HOST=127.0.0.1";
  }

  function CommentOut(env: string): string {
    ReplaceEach(env, Defaults, Commented)
  }

  function Uncomment(env: string): string {
    ReplaceEach(env, Commented, Defaults)
  }

  /** `configureSqlite` on one file: comment the defaults unless `.env` already has the marker. */
  function SqliteRewrite(contents: string, env: string): string {
    if Contains(env, Marker) then contents else CommentOut(contents)
  }

  /** A search text of the `DB_` family other than `DB_HOST` cannot disturb the marker. */
  lemma MarkerSafe(p: string)
    requires |p| >= 4 && p[0] == 'D' && p[1] == 'B' && p[3] != 'H'
    requires forall k :: 0 <= k < |p| ==> p[k] != '#'
    ensures Harmless(p, Marker)
  {
    forall k | 0 <= k < |Marker|
      ensures !StartsWith(p, Marker[k..])
    {
      if k == 2 {
        assert |Marker[k..]| < 4 || Marker[k..][3] == 'H';
      } else if k < |Marker| {
        assert Marker[k..][0] == Marker[k];
        assert Marker[k] != 'D';
      }
    }
    forall i | 0 <= i <= |Marker| - |p|
      ensures !OccursAt(Marker, p, i)
    {
      assert Marker[i..i + |p|][0] == Marker[i];
      if i == 2 {
        assert Marker[i..i + |p|][3] == 'H';
      } else {
        assert Marker[i] != 'D';
      }
    }
  }

  /** The four defaults after `DB_HOST` cannot disturb the marker. */
  lemma LaterDefaultsSafe()
    ensures forall j :: 0 <= j < |Defaults[1..]| ==> Harmless(Defaults[1..][j], Marker)
  {
    MarkerSafe(Defaults[1]);
    MarkerSafe(Defaults[2]);
    MarkerSafe(Defaults[3]);
    MarkerSafe(Defaults[4]);
    assert forall j :: 0 <= j < 4 ==> Defaults[1..][j] == Defaults[j + 1];
  }

  /**
   * The marker guard works: once `.env` holds an uncommented `DB_HOST` line,
   * commenting leaves the marker behind, so a repeated SQLite configuration
   * changes nothing.
   */
  lemma SqliteRepeatIsNoOp(env: string, example: string)
    requires Contains(env, "DB_HOST=127.0.0.1")
    ensures Contains(SqliteRewrite(env, env), Marker)
    ensures var env' := SqliteRewrite(env, env);
      SqliteRewrite(env', env') == env' && SqliteRewrite(SqliteRewrite(example, env), env') == SqliteRewrite(example, env)
  {
    if !Contains(env, Marker) {
      CommentedLines();
      var s1 := ReplaceAll(env, Defaults[0], Commented[0]);
      ReplaceIntroduces(env, Defaults[0], Commented[0]);
      LaterDefaultsSafe();
      ReplaceEachKeeps(s1, Defaults[1..], Commented[1..], Marker);
      assert CommentOut(env) == ReplaceEach(s1, Defaults[1..], Commented[1..]);
    }
  }

  // ---------------------------------------------------------------------
  // Port and database name

  /** `DEFAULT_PORTS`: the drivers whose port differs from MySQL's 3306. */
  function DefaultPort(db: string): (port: Option<string>)
    ensures port.Some? <==> db == "pgsql" || db == "sqlsrv"
    ensures db == "pgsql" ==> port == Some("5432")
    ensures db == "sqlsrv" ==> port == Some("1433")
  {
    if db == "pgsql" then Some("5432") else if db == "sqlsrv" then Some("1433") else None
  }

  function SetPort(env: string, db: string): string {
    match DefaultPort(db)
    case None => env
    case Some(port) => ReplaceAll(env, "DB_PORT=3306", "DB_PORT=" + port)
  }

  /** The database name: the project name in ASCII lower case with `-` turned into `_`. */
  function DatabaseName(name: string): (r: string)
    ensures |r| == |name|
    ensures forall i :: 0 <= i < |r| ==> r[i] == if name[i] == '-' then '_' else LowerChar(name[i])
    ensures forall i :: 0 <= i < |r| ==> r[i] != '-' && !('A' <= r[i] <= 'Z')
  {
    ReplaceChar(Lower(name), '-', '_');
    ReplaceAll(Lower(name), "-", "_")
  }

  function SetDatabaseName(env: string, name: string): string {
    ReplaceAll(env, "DB_DATABASE=laravel", "DB_DATABASE=" + DatabaseName(name))
  }

  /** `configureNonSqlite` on one file. */
  function NonSqliteRewrite(contents: string, db: string, name: string): string {
    SetDatabaseName(SetPort(Uncomment(contents), db), name)
  }

  /** For the drivers with their own port, a 3306 line ends up with that port. */
  lemma PortRewritten(env: string, db: string)
    requires db == "pgsql" || db == "sqlsrv"
    requires Contains(env, "DB_PORT=3306")
    ensures Contains(SetPort(env, db), "DB_PORT=" + DefaultPort(db).value)
  {
    ReplaceIntroduces(env, "DB_PORT=3306", "DB_PORT=" + DefaultPort(db).value);
  }
}
