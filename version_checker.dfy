/**
 * The update check (`VersionChecker`): a one-day cache of the Packagist feed
 * revalidated with a conditional GET (If-Modified-Since, section 13.1.3 of
 * RFC 9110; 304 Not Modified, section 15.4.5), extraction of the newest
 * version from the feed, and the decision to show an update notice.
 * The clock and the HTTP exchange are inputs.
 */
module VersionChecker {
  import opened Wrappers
  import opened Text
  import opened Platform

  /** Cached data is reused for 24 hours. */
  const CacheTtlSeconds: int := 86400

  /** The outcome of the HTTP request: a response (its status, the captured
   *  `Last-Modified` value if the header matched, the body after the headers)
   *  or a transfer that failed. */
  datatype HttpOutcome = Response(status: int, lastModified: Option<string>, body: string) | Failed

  /** The request sent: its `If-Modified-Since` header, when there is one. */
  datatype Request = Request(ifModifiedSince: Option<string>)

  /**
   * The two cache files: the cached feed (`payload`, absent when the file does
   * not exist) with its modification time, and the stored Last-Modified token.
   */
  datatype CacheState = CacheState(payload: Option<string>, mtime: int, token: Option<string>)

  /** What one fetch leaves behind: the new cache, the data returned, the request made. */
  datatype Step = Step(cache: CacheState, data: Option<string>, request: Option<Request>)

  /** The cache answers without a request while strictly younger than a day. */
  predicate Fresh(s: CacheState, now: int) {
    s.payload.Some? && s.mtime > now - CacheTtlSeconds
  }

  /** `fetchVersionData` as a transition of the cache. */
  function Fetch(s: CacheState, now: int, response: HttpOutcome): (st: Step)
    // A fresh cache is returned as it is and no request is made.
    ensures Fresh(s, now) ==> st == Step(s, s.payload, None)
    // Otherwise a request is made, conditional exactly when a token is stored.
    ensures !Fresh(s, now) ==> st.request == Some(Request(s.token))
    // The token changes only on a 200 carrying Last-Modified, to its trimmed value.
    ensures st.cache.token != s.token ==>
      !Fresh(s, now) && response.Response? && response.status == 200 && response.lastModified.Some?
      && st.cache.token == Some(Trim(response.lastModified.value))
    // Cached data is never lost, and data is returned whenever a payload is cached afterwards.
    ensures s.payload.Some? ==> st.cache.payload.Some?
    ensures st.data == st.cache.payload
  {
    if Fresh(s, now) then Step(s, s.payload, None)
    else
      var request := Some(Request(s.token));
      match response
      case Response(status, lastModified, body) =>
        if status == 304 && s.payload.Some? then
          Step(s.(mtime := now), s.payload, request)
        else if status == 200 then
          var token := if lastModified.Some? then Some(Trim(lastModified.value)) else s.token;
          Step(CacheState(Some(body), now, token), Some(body), request)
        else Step(s, s.payload, request)
      case Failed => Step(s, s.payload, request)
  }

  /** The on-disk cache, updated in place by each fetch. */
  class VersionCache {
    var payload: Option<string>
    var mtime: int
    var token: Option<string>

    function State(): CacheState
      reads this
    {
      CacheState(payload, mtime, token)
    }

    constructor (payload: Option<string>, mtime: int, token: Option<string>)
      ensures State() == CacheState(payload, mtime, token)
    {
      this.payload := payload;
      this.mtime := mtime;
      this.token := token;
    }

    /**
     * `fetchVersionData`: answer from a fresh cache; otherwise send the
     * request, touch the cache on a 304, replace it on a 200, and fall back
     * to whatever is cached on anything else.
     */
    method FetchVersionData(now: int, response: HttpOutcome) returns (data: Option<string>, request: Option<Request>)
      modifies this
      ensures Step(State(), data, request) == Fetch(old(State()), now, response)
    {
      if payload.Some? && mtime > now - CacheTtlSeconds {
        return payload, None;
      }
      request := Some(Request(token));
      if response.Response? && response.status == 304 && payload.Some? {
        mtime := now;
        return payload, request;
      }
      if response.Response? && response.status == 200 {
        payload := Some(response.body);
        mtime := now;
        if response.lastModified.Some? {
          token := Some(Trim(response.lastModified.value));
        }
        return Some(response.body), request;
      }
      return payload, request;
    }
  }

  /** A 304 for a cached payload touches the file and returns the same contents. */
  lemma NotModifiedTouches(s: CacheState, now: int, lastModified: Option<string>, body: string)
    requires !Fresh(s, now) && s.payload.Some?
    ensures Fetch(s, now, Response(304, lastModified, body)) == Step(s.(mtime := now), s.payload, Some(Request(s.token)))
  {
  }

  /** Any status but 200, a 304 without a cached payload, or a failure changes nothing. */
  lemma FallbackKeepsCache(s: CacheState, now: int, response: HttpOutcome)
    requires !Fresh(s, now)
    requires response.Failed? || (response.status != 200 && (response.status != 304 || s.payload.None?))
    ensures Fetch(s, now, response) == Step(s, s.payload, Some(Request(s.token)))
  {
  }

  /**
   * Revalidation: after a 200 at `t1`, a 304 at any `t2` a day or more later
   * sends the token that response stored and returns the same body.
   */
  lemma RevalidationReturnsSameBody(s: CacheState, t1: int, t2: int, lm: Option<string>, body: string,
                                    lm2: Option<string>, body2: string)
    requires !Fresh(s, t1) && t2 >= t1 + CacheTtlSeconds
    ensures var first := Fetch(s, t1, Response(200, lm, body));
      var second := Fetch(first.cache, t2, Response(304, lm2, body2));
      && second.data == Some(body)
      && second.request == Some(Request(if lm.Some? then Some(Trim(lm.value)) else s.token))
      && second.cache == first.cache.(mtime := t2)
  {
  }

  /** A refreshed cache answers every fetch within the next day without a request. */
  lemma RefreshedCacheIsFresh(s: CacheState, t1: int, t2: int, response: HttpOutcome, later: HttpOutcome)
    requires !Fresh(s, t1)
    requires response.Response? && (response.status == 200 || (response.status == 304 && s.payload.Some?))
    requires t1 <= t2 < t1 + CacheTtlSeconds
    ensures var first := Fetch(s, t1, response);
      Fetch(first.cache, t2, later) == Step(first.cache, first.data, None)
  {
  }

  // ---------------------------------------------------------------------
  // Reading the newest version from the feed

  /**
   * A decoded JSON document (`json_decode($data, true)`). A number is kept
   * as PHP's string form of the decoded int or float (`5.10` as `5.1`,
   * `1e3` as `1000`), which is what `ltrim` sees; `decode` supplies it.
   */
  datatype Json =
    | JNull
    | JBool(b: bool)
    | JNum(asString: string)
    | JStr(s: string)
    | JArr(items: seq<Json>)
    | JObj(members: map<string, Json>)

  /**
   * `$j[$key]` under `??`: only arrays have entries; a decoded object is an
   * array keyed by its member names; null counts as unset.
   */
  function Field(j: Json, key: string): (r: Option<Json>)
    ensures r.Some? ==> j.JObj? && key in j.members && r.value == j.members[key] && !r.value.JNull?
  {
    if j.JObj? && key in j.members && !j.members[key].JNull? then Some(j.members[key]) else None
  }

  /**
   * `$j[0]` under `??`: the first item of a list, or the member named "0" of
   * an object (PHP turns the key "0" into the integer 0).
   */
  function First(j: Json): (r: Option<Json>)
    ensures r.Some? ==> !r.value.JNull?
    ensures r.Some? <==> ((j.JArr? && |j.items| > 0 && !j.items[0].JNull?)
                          || (j.JObj? && "0" in j.members && !j.members["0"].JNull?))
  {
    match j
    case JArr(items) => if |items| > 0 && !items[0].JNull? then Some(items[0]) else None
    case JObj(members) => if "0" in members && !members["0"].JNull? then Some(members["0"]) else None
    case _ => None
  }

  /** `$decoded['packages']['laravel/installer'][0]['version'] ?? ''`. */
  function VersionField(decoded: Option<Json>): Option<Json> {
    if decoded.None? then None
    else match Field(decoded.value, "packages")
      case None => None
      case Some(packages) => match Field(packages, "laravel/installer")
        case None => None
        case Some(releases) => match First(releases)
          case None => None
          case Some(latest) => Field(latest, "version")
  }

  /** Why reading the version stopped the command (an uncaught error). */
  datatype ReadError = NotAString

  /**
   * `getLatestVersion`: null for absent or falsy data; otherwise the version
   * field, coerced to a string as `ltrim` does, with every leading `v`
   * stripped, or the empty string when it is missing. A list or object in
   * that field cannot be coerced, and the error is not one the code catches.
   */
  function GetLatestVersion(data: Option<string>, decode: string -> Option<Json>): (r: Result<Option<string>, ReadError>)
    ensures r.Ok? && r.value.None? <==> !Truthy(data)
    ensures r.Ok? && r.value.Some? ==> r.value.value == [] || r.value.value[0] != 'v'
    ensures Truthy(data) && VersionField(decode(data.value)).None? ==> r == Ok(Some(""))
    ensures Truthy(data) && VersionField(decode(data.value)).Some? && VersionField(decode(data.value)).value.JStr? ==>
      r == Ok(Some(TrimLeft(VersionField(decode(data.value)).value.s, {'v'})))
    ensures r.Err? <==> (Truthy(data) && VersionField(decode(data.value)).Some?
                         && (VersionField(decode(data.value)).value.JArr? || VersionField(decode(data.value)).value.JObj?))
  {
    if !Truthy(data) then Ok(None)
    else match VersionField(decode(data.value))
      case None => Ok(Some(""))
      case Some(v) => match v
        case JStr(s) => Ok(Some(TrimLeft(s, {'v'})))
        case JNum(asString) => Ok(Some(TrimLeft(asString, {'v'})))
        case JBool(b) => Ok(Some(if b then "1" else ""))
        case JNull => Ok(Some(""))
        case JArr(_) => Err(NotAString)
        case JObj(_) => Err(NotAString)
  }

  /**
   * A feed whose first `laravel/installer` release carries the version `tag`
   * or `v` + `tag` yields `tag`, whatever other members the document, the
   * package map and the release hold and however many releases follow.
   */
  lemma LatestFromFeed(data: string, decode: string -> Option<Json>,
                       top: map<string, Json>, packages: map<string, Json>, releases: seq<Json>,
                       release: map<string, Json>, tag: string, prefixed: bool)
    requires data != "" && data != "0"
    requires decode(data) == Some(JObj(top))
    requires "packages" in top && top["packages"] == JObj(packages)
    requires "laravel/installer" in packages && packages["laravel/installer"] == JArr(releases)
    requires |releases| > 0 && releases[0] == JObj(release)
    requires "version" in release && release["version"] == JStr(if prefixed then "v" + tag else tag)
    requires tag == [] || tag[0] != 'v'
    ensures GetLatestVersion(Some(data), decode) == Ok(Some(tag))
  {
    assert Field(JObj(top), "packages") == Some(JObj(packages));
    assert Field(JObj(packages), "laravel/installer") == Some(JArr(releases));
    assert First(JArr(releases)) == Some(JObj(release));
    assert VersionField(decode(data)) == Some(JStr(if prefixed then "v" + tag else tag));
    if prefixed {
      StripLeadingV(tag);
    }
  }

  /** Stripping the leading `v` of `v` followed by a tag that does not start with one. */
  lemma StripLeadingV(tag: string)
    requires tag == [] || tag[0] != 'v'
    ensures TrimLeft("v" + tag, {'v'}) == tag
  {
    assert ("v" + tag)[1..] == tag;
  }

  // ---------------------------------------------------------------------
  // Comparing versions

  /** A run of decimal digits. */
  predicate IsDigits(s: string) {
    |s| > 0 && forall i :: 0 <= i < |s| ==> '0' <= s[i] <= '9'
  }

  function DigitsValue(s: string): nat
    requires forall i :: 0 <= i < |s| ==> '0' <= s[i] <= '9'
    decreases |s|
  {
    if |s| == 0 then 0 else 10 * DigitsValue(s[..|s| - 1]) + (s[|s| - 1] as int - '0' as int)
  }

  predicate AllDigits(parts: seq<string>) {
    forall k :: 0 <= k < |parts| ==> IsDigits(parts[k])
  }

  /** A dotted numeric version such as `5.0.0`; anything else is not parsed. */
  function ParseVersion(s: string): (v: Option<seq<nat>>)
    ensures v.Some? <==> AllDigits(Explode(s, '.'))
    ensures v.Some? ==> (|v.value| == |Explode(s, '.')|
      && forall k :: 0 <= k < |v.value| ==> v.value[k] == DigitsValue(Explode(s, '.')[k]))
  {
    var parts := Explode(s, '.');
    if AllDigits(parts)
    then Some(seq(|parts|, k requires 0 <= k < |parts| => DigitsValue(parts[k])))
    else None
  }

  /**
   * `version_compare($a, $b) < 0` on numeric versions: the first differing
   * component decides, and a version is older than its own extensions
   * (`1.0` is older than `1.0.0`).
   */
  predicate Older(a: seq<nat>, b: seq<nat>)
    decreases |a|
  {
    if |b| == 0 then false
    else if |a| == 0 then true
    else a[0] < b[0] || (a[0] == b[0] && Older(a[1..], b[1..]))
  }

  lemma {:induction false} OlderIrreflexive(a: seq<nat>)
    ensures !Older(a, a)
    decreases |a|
  {
    if |a| > 0 {
      OlderIrreflexive(a[1..]);
    }
  }

  lemma {:induction false} OlderTransitive(a: seq<nat>, b: seq<nat>, c: seq<nat>)
    requires Older(a, b) && Older(b, c)
    ensures Older(a, c)
    decreases |a|
  {
    if |a| > 0 && a[0] == b[0] && b[0] == c[0] {
      OlderTransitive(a[1..], b[1..], c[1..]);
    }
  }

  /** Any two different versions are ordered one way or the other. */
  lemma {:induction false} OlderTotal(a: seq<nat>, b: seq<nat>)
    requires a != b
    ensures Older(a, b) || Older(b, a)
    decreases |a|
  {
    if |a| > 0 && |b| > 0 && a[0] == b[0] {
      assert a == [a[0]] + a[1..] && b == [b[0]] + b[1..];
      OlderTotal(a[1..], b[1..]);
    }
  }

  /** The installer's own version. */
  const CurrentVersion: seq<nat> := [5, 0, 0]

  /**
   * The notice condition of `checkAndPromptForUpdate`: a truthy latest
   * version that the current one is older than.
   */
  predicate ShouldNotify(current: seq<nat>, latest: Option<string>) {
    Truthy(latest) && ParseVersion(latest.value).Some? && Older(current, ParseVersion(latest.value).value)
  }

  lemma ExplodeExamples()
    ensures Explode("5.1", '.') == ["5", "1"]
    ensures Explode("5.0.0", '.') == ["5", "0", "0"]
  {
    VersionTextsSplit();
    ExplodeOnePiece("1", '.');
    ExplodeOnePiece("0", '.');
    ExplodeFirstPiece("5", '.', "1");
    ExplodeFirstPiece("0", '.', "0");
    ExplodeFirstPiece("5", '.', "0.0");
  }

  lemma VersionTextsSplit()
    ensures "5.1" == "5" + ['.'] + "1"
    ensures "5.0.0" == "5" + ['.'] + "0.0" && "0.0" == "0" + ['.'] + "0"
  {
  }

  lemma ParseNewer()
    ensures ParseVersion("5.1") == Some([5, 1])
  {
    ExplodeExamples();
    assert "5"[..0] == "" && "1"[..0] == "";
    assert DigitsValue("5") == 5 && DigitsValue("1") == 1;
    assert IsDigits("5") && IsDigits("1");
    assert AllDigits(["5", "1"]);
    var newer := ParseVersion("5.1").value;
    assert newer == [5, 1] by { assert newer[0] == 5 && newer[1] == 1; }
  }

  lemma ParseCurrent()
    ensures ParseVersion("5.0.0") == Some([5, 0, 0])
  {
    ExplodeExamples();
    assert "5"[..0] == "" && "0"[..0] == "";
    assert DigitsValue("5") == 5 && DigitsValue("0") == 0;
    assert IsDigits("5") && IsDigits("0");
    assert AllDigits(["5", "0", "0"]);
    var same := ParseVersion("5.0.0").value;
    assert same == [5, 0, 0] by { assert same[0] == 5 && same[1] == 0 && same[2] == 0; }
  }

  lemma ParseExamples()
    ensures ParseVersion("5.1") == Some([5, 1])
    ensures ParseVersion("5.0.0") == Some([5, 0, 0])
  {
    ParseNewer();
    ParseCurrent();
  }

  /** A newer minor release is announced; the installed release, an empty answer and no answer are not. */
  lemma NotifyExamples()
    ensures ShouldNotify(CurrentVersion, Some("5.1"))
    ensures !ShouldNotify(CurrentVersion, Some("5.0.0"))
    ensures !ShouldNotify(CurrentVersion, Some(""))
    ensures !ShouldNotify(CurrentVersion, None)
  {
    ParseExamples();
    OlderIrreflexive(CurrentVersion);
  }

  /** An update is offered only for a strictly newer version: never for the current one or an older one. */
  lemma NoNoticeForCurrentOrOlder(current: seq<nat>, latest: string)
    requires ParseVersion(latest).Some?
    requires ParseVersion(latest).value == current || Older(ParseVersion(latest).value, current)
    ensures !ShouldNotify(current, Some(latest))
  {
    var v := ParseVersion(latest).value;
    if v == current {
      OlderIrreflexive(current);
    } else if Older(current, v) {
      OlderTransitive(current, v, current);
      OlderIrreflexive(current);
    }
  }

  // ---------------------------------------------------------------------
  // Choosing how to update

  datatype UpdateRoute = HerdUpdate | HerdLiteUpdate | ComposerUpdate

  /** `DIRECTORY_SEPARATOR`. */
  function Separator(os: OsFamily): string {
    if os == Windows then "\\" else "/"
  }

  /**
   * `promptForUpdate`: the `laravel` executable's path (empty when it is not
   * found) decides whether Herd, Herd Lite or Composer updates the installer.
   */
  function ClassifyInstaller(path: Option<string>, os: OsFamily): (route: UpdateRoute)
    ensures var p := path.GetOr(""); var sep := Separator(os);
      && (route == HerdUpdate <==> Contains(p, sep + "Herd" + sep))
      && (route == HerdLiteUpdate <==> !Contains(p, sep + "Herd" + sep) && Contains(p, sep + "herd-lite" + sep))
      && (route == ComposerUpdate <==> !Contains(p, sep + "Herd" + sep) && !Contains(p, sep + "herd-lite" + sep))
  {
    var p := path.GetOr("");
    var sep := Separator(os);
    if Contains(p, sep + "Herd" + sep) then HerdUpdate
    else if Contains(p, sep + "herd-lite" + sep) then HerdLiteUpdate
    else ComposerUpdate
  }

  /** Of two versions, at most one is older than the other. */
  lemma OlderAsymmetric(a: seq<nat>, b: seq<nat>)
    requires Older(a, b)
    ensures !Older(b, a)
  {
    if Older(b, a) {
      OlderTransitive(a, b, a);
      OlderIrreflexive(a);
    }
  }

  /**
   * `checkAndPromptForUpdate`: no route at all unless a notice is due, so an
   * update is offered only for a numeric version strictly newer than the
   * installed one, never for the installed one or an older one.
   */
  function UpdateCheck(latest: Option<string>, installerPath: Option<string>, os: OsFamily): (r: Option<UpdateRoute>)
    ensures r.Some? <==> ShouldNotify(CurrentVersion, latest)
    ensures r.Some? ==> r.value == ClassifyInstaller(installerPath, os)
    ensures r.Some? ==> (Truthy(latest) && ParseVersion(latest.value).Some?
                         && ParseVersion(latest.value).value != CurrentVersion
                         && !Older(ParseVersion(latest.value).value, CurrentVersion))
  {
    if ShouldNotify(CurrentVersion, latest) then
      OlderIrreflexive(CurrentVersion);
      OlderAsymmetric(CurrentVersion, ParseVersion(latest.value).value);
      Some(ClassifyInstaller(installerPath, os))
    else None
  }

  /**
   * The route follows the directory the executable sits in: a `Herd`
   * directory anywhere on the path means Herd, even below a `herd-lite` one;
   * a `herd-lite` directory on a path without a `Herd` one means Herd Lite;
   * an executable that is not found means Composer.
   */
  lemma RouteByLocation(before: string, after: string, os: OsFamily)
    ensures var sep := Separator(os);
      ClassifyInstaller(Some(before + (sep + "Herd" + sep) + after), os) == HerdUpdate
    ensures var sep := Separator(os); var path := before + (sep + "herd-lite" + sep) + after;
      !Contains(path, sep + "Herd" + sep) ==> ClassifyInstaller(Some(path), os) == HerdLiteUpdate
    ensures ClassifyInstaller(None, os) == ComposerUpdate
  {
    var sep := Separator(os);
    MarkerFound(before, sep + "Herd" + sep, after);
    MarkerFound(before, sep + "herd-lite" + sep, after);
  }

  lemma MarkerFound(before: string, marker: string, after: string)
    ensures Contains(before + marker + after, marker)
  {
    OccursInMiddle(before, marker, after);
    assert before + marker + after == before + (marker + after);
  }

  /** A Herd Lite install location on macOS. */
  const HerdLiteExample := "/Users/me/.config/herd-lite/bin/laravel"

  /** A Herd Lite path is not mistaken for a Herd one. */
  lemma HerdLitePath()
    ensures ClassifyInstaller(Some(HerdLiteExample), Darwin) == HerdLiteUpdate
  {
    DarwinMarkers();
    HerdLiteExampleSplits();
    OccursInMiddle("/Users/me/.config", "/herd-lite/", "bin/laravel");
    HerdLiteExampleLacksH();
    LacksCharacter(HerdLiteExample, "/Herd/", 1);
  }

  lemma DarwinMarkers()
    ensures Separator(Darwin) + "Herd" + Separator(Darwin) == "/Herd/"
    ensures Separator(Darwin) + "herd-lite" + Separator(Darwin) == "/herd-lite/"
  {
  }

  lemma HerdLiteExampleSplits()
    ensures HerdLiteExample == "/Users/me/.config" + ("/herd-lite/" + "bin/laravel")
  {
  }

  lemma HerdLiteExampleLacksH()
    ensures forall k :: 0 <= k < |HerdLiteExample| ==> HerdLiteExample[k] != "/Herd/"[1]
  {
  }
}
