/**
 * The PHP string primitives the installer builds its commands and file
 * rewrites from: `str_starts_with`, `str_contains`, `str_replace` (single and
 * array form), `implode`, `trim`/`ltrim`/`rtrim` and ASCII `strtolower`.
 * Strings are sequences of characters.
 */
module Text {
  import opened Wrappers

  /** PHP truthiness of a nullable string: `null`, `""` and `"0"` are false. */
  predicate Truthy(s: Option<string>) {
    s.Some? && s.value != "" && s.value != "0"
  }

  /** `str_starts_with($s, $p)`. */
  predicate StartsWith(s: string, p: string) {
    |p| <= |s| && s[..|p|] == p
  }

  /** `p` occurs in `s` starting at index `i`. */
  predicate OccursAt(s: string, p: string, i: int) {
    0 <= i && i + |p| <= |s| && s[i..i + |p|] == p
  }

  /** `str_contains($s, $p)`; the empty needle is contained in every string. */
  predicate Contains(s: string, p: string) {
    exists i | 0 <= i <= |s| - |p| :: OccursAt(s, p, i)
  }

  /**
   * `str_replace($p, $r, $s)`: scans `s` from the left and replaces every
   * non-overlapping occurrence of `p` by `r`; replaced text is not rescanned.
   * An empty search string leaves `s` unchanged.
   */
  function ReplaceAll(s: string, p: string, r: string): string
    decreases |s|
  {
    if |p| == 0 || |s| < |p| then s
    else if s[..|p|] == p then r + ReplaceAll(s[|p|..], p, r)
    else [s[0]] + ReplaceAll(s[1..], p, r)
  }

  /**
   * `str_replace($ps, $rs, $s)` with two arrays of equal length: the pairs are
   * applied one after the other, each to the result of the previous one.
   */
  function ReplaceEach(s: string, ps: seq<string>, rs: seq<string>): string
    requires |ps| == |rs|
    decreases |ps|
  {
    if |ps| == 0 then s else ReplaceEach(ReplaceAll(s, ps[0], rs[0]), ps[1..], rs[1..])
  }

  /** `strpos($s, $p)`: where `p` first occurs in `s`, if anywhere. */
  function IndexOf(s: string, p: string): (r: Option<nat>)
    ensures r.Some? ==> OccursAt(s, p, r.value) && forall i :: 0 <= i < r.value ==> !OccursAt(s, p, i)
    ensures r.None? ==> forall i :: 0 <= i ==> !OccursAt(s, p, i)
    decreases |s|
  {
    if StartsWith(s, p) then Some(0)
    else if |s| == 0 then None
    else
      var rest := IndexOf(s[1..], p);
      assert forall i :: 1 <= i ==> (OccursAt(s, p, i) <==> OccursAt(s[1..], p, i - 1)) by {
        forall i | 1 <= i
          ensures OccursAt(s, p, i) <==> OccursAt(s[1..], p, i - 1)
        {
          OccursShift(s, 1, p, i - 1);
        }
      }
      assert !OccursAt(s, p, 0);
      if rest.None? then None else Some(rest.value + 1)
  }

  /** `implode($sep, $xs)`. */
  function Join(xs: seq<string>, sep: string): string
    decreases |xs|
  {
    if |xs| == 0 then "" else if |xs| == 1 then xs[0] else xs[0] + sep + Join(xs[1..], sep)
  }

  /** `explode($c, $s)` for a one-character separator: the pieces between separators. */
  function Explode(s: string, c: char): (parts: seq<string>)
    ensures |parts| >= 1
    ensures forall k, j :: 0 <= k < |parts| && 0 <= j < |parts[k]| ==> parts[k][j] != c
    decreases |s|
  {
    if |s| == 0 then [""]
    else
      var rest := Explode(s[1..], c);
      if s[0] == c then [""] + rest else [[s[0]] + rest[0]] + rest[1..]
  }

  /** `explode` on a text whose first piece is `l`. */
  lemma {:induction false} ExplodeFirstPiece(l: string, c: char, rest: string)
    requires forall i :: 0 <= i < |l| ==> l[i] != c
    ensures Explode(l + [c] + rest, c) == [l] + Explode(rest, c)
    decreases |l|
  {
    var s := l + [c] + rest;
    if |l| == 0 {
      assert s == [c] + rest && s[1..] == rest;
    } else {
      assert s[1..] == l[1..] + [c] + rest;
      ExplodeFirstPiece(l[1..], c, rest);
      assert [l[0]] + l[1..] == l;
    }
  }

  /** `explode` on a text without the separator. */
  lemma {:induction false} ExplodeOnePiece(l: string, c: char)
    requires forall i :: 0 <= i < |l| ==> l[i] != c
    ensures Explode(l, c) == [l]
    decreases |l|
  {
    if |l| > 0 {
      ExplodeOnePiece(l[1..], c);
      assert [l[0]] + l[1..] == l;
    }
  }

  /** The characters PHP's `trim` strips by default: space, tab, LF, CR, NUL, vertical tab. */
  const Whitespace: set<char> := {' ', '\t', '\n', '\r', '\0', '\U{000B}'}

  /** `ltrim($s, $cs)`: drops leading characters that belong to `cs`. */
  function TrimLeft(s: string, cs: set<char>): (r: string)
    ensures |r| <= |s| && r == s[|s| - |r|..]
    ensures r == [] || r[0] !in cs
    ensures forall i :: 0 <= i < |s| - |r| ==> s[i] in cs
    decreases |s|
  {
    if |s| > 0 && s[0] in cs then TrimLeft(s[1..], cs) else s
  }

  /** `rtrim($s, $cs)`: drops trailing characters that belong to `cs`. */
  function TrimRight(s: string, cs: set<char>): (r: string)
    ensures |r| <= |s| && r == s[..|r|]
    ensures r == [] || r[|r| - 1] !in cs
    ensures forall i :: |r| <= i < |s| ==> s[i] in cs
    decreases |s|
  {
    if |s| > 0 && s[|s| - 1] in cs then TrimRight(s[..|s| - 1], cs) else s
  }

  /** `trim($s)` with the default character list. */
  function Trim(s: string): string {
    TrimRight(TrimLeft(s, Whitespace), Whitespace)
  }

  /** `trim` leaves alone a string that neither starts nor ends with whitespace. */
  lemma TrimKeeps(s: string)
    requires |s| == 0 || (s[0] !in Whitespace && s[|s| - 1] !in Whitespace)
    ensures Trim(s) == s
  {
    assert TrimLeft(s, Whitespace) == s;
  }

  /** `trim` is idempotent. */
  lemma TrimIdempotent(s: string)
    ensures Trim(Trim(s)) == Trim(s)
  {
    var l := TrimLeft(s, Whitespace);
    var t := TrimRight(l, Whitespace);
    if |t| > 0 {
      assert t[0] == l[0];
    }
    TrimKeeps(t);
  }

  /**
   * Erasing a non-empty needle never lengthens a string, and shortens it
   * exactly when the needle occurs.
   */
  lemma {:induction false} EraseShrinks(s: string, p: string)
    requires |p| > 0
    ensures |ReplaceAll(s, p, "")| <= |s|
    ensures Contains(s, p) ==> |ReplaceAll(s, p, "")| < |s|
    decreases |s|
  {
    if |s| < |p| {
    } else if s[..|p|] == p {
      EraseShrinks(s[|p|..], p);
    } else {
      EraseShrinks(s[1..], p);
      if Contains(s, p) {
        var i :| 0 <= i <= |s| - |p| && OccursAt(s, p, i);
        assert i != 0;
        OccursShift(s, 1, p, i - 1);
        assert OccursAt(s[1..], p, i - 1);
      }
    }
  }

  /** ASCII lower-casing of one character (PHP 8 `strtolower` is locale-insensitive). */
  function LowerChar(c: char): char {
    if 'A' <= c <= 'Z' then (c as int + 32) as char else c
  }

  /** `strtolower($s)`. */
  function Lower(s: string): (r: string)
    ensures |r| == |s| && forall i :: 0 <= i < |s| ==> r[i] == LowerChar(s[i])
  {
    seq(|s|, i requires 0 <= i < |s| => LowerChar(s[i]))
  }

  // ---------------------------------------------------------------------
  // Facts about occurrences and replacement

  /** Concatenation regroups to the right. */
  lemma ConcatAssoc(x: string, y: string, z: string)
    ensures x + y + z == x + (y + z)
  {
  }

  /** An occurrence inside a prefix is an occurrence in the whole string, and back. */
  lemma OccursInPrefix(x: string, y: string, p: string, i: int)
    requires |y| <= |x| && x[..|y|] == y
    requires 0 <= i && i + |p| <= |y|
    ensures OccursAt(x, p, i) <==> OccursAt(y, p, i)
  {
    assert y[i..i + |p|] == x[..|y|][i..i + |p|] == x[i..i + |p|];
  }

  /** A string that does not contain `p` is left as it is by `str_replace`. */
  lemma {:induction false} ReplaceAbsent(s: string, p: string, r: string)
    requires !Contains(s, p)
    ensures ReplaceAll(s, p, r) == s
    decreases |s|
  {
    if |p| == 0 || |s| < |p| {
    } else {
      assert !OccursAt(s, p, 0);
      forall i | 0 <= i <= |s[1..]| - |p|
        ensures !OccursAt(s[1..], p, i)
      {
        assert !OccursAt(s, p, i + 1);
        assert s[1..][i..i + |p|] == s[i + 1..i + 1 + |p|];
      }
      ReplaceAbsent(s[1..], p, r);
    }
  }

  /**
   * When the first occurrence of `p` is at `k` and none starts after it ends,
   * `str_replace` rewrites exactly that one occurrence.
   */
  lemma {:induction false} ReplaceSole(s: string, p: string, r: string, k: nat)
    requires |p| > 0 && OccursAt(s, p, k)
    requires forall i :: 0 <= i < k ==> !OccursAt(s, p, i)
    requires !Contains(s[k + |p|..], p)
    ensures ReplaceAll(s, p, r) == s[..k] + r + s[k + |p|..]
    decreases k
  {
    if k == 0 {
      assert s[..|p|] == p;
      ReplaceAbsent(s[|p|..], p, r);
    } else {
      var t := s[1..];
      assert ReplaceAll(s, p, r) == [s[0]] + ReplaceAll(t, p, r) by {
        assert !OccursAt(s, p, 0);
      }
      SoleInTail(s, p, k);
      ReplaceSole(t, p, r, k - 1);
      ConsSplit(s, k, r, |p|);
    }
  }

  /** The conditions of `ReplaceSole` carry over from `s` and `k` to `s[1..]` and `k - 1`. */
  lemma SoleInTail(s: string, p: string, k: nat)
    requires 1 <= k && OccursAt(s, p, k)
    requires forall i :: 0 <= i < k ==> !OccursAt(s, p, i)
    requires !Contains(s[k + |p|..], p)
    ensures OccursAt(s[1..], p, k - 1)
    ensures forall i :: 0 <= i < k - 1 ==> !OccursAt(s[1..], p, i)
    ensures !Contains(s[1..][k - 1 + |p|..], p)
  {
    forall i | 0 <= i < k - 1
      ensures !OccursAt(s[1..], p, i)
    {
      OccursShift(s, 1, p, i);
    }
    OccursShift(s, 1, p, k - 1);
    assert s[1..][k - 1 + |p|..] == s[k + |p|..];
  }

  /** Regrouping after the first character. */
  lemma ConsSplit(s: string, k: nat, r: string, n: nat)
    requires 1 <= k && k + n <= |s|
    ensures [s[0]] + (s[1..][..k - 1] + r + s[1..][k - 1 + n..]) == s[..k] + r + s[k + n..]
  {
    assert s[..k] == [s[0]] + s[1..][..k - 1];
    assert s[1..][k - 1 + n..] == s[k + n..];
  }

  /** After `str_replace`, the replacement text is present whenever the search text was. */
  lemma {:induction false} ReplaceIntroduces(s: string, p: string, r: string)
    requires |p| > 0 && Contains(s, p)
    ensures Contains(ReplaceAll(s, p, r), r)
    decreases |s|
  {
    var i :| 0 <= i <= |s| - |p| && OccursAt(s, p, i);
    if s[..|p|] == p {
      assert OccursAt(r + ReplaceAll(s[|p|..], p, r), r, 0);
    } else {
      assert i > 0;
      assert s[1..][i - 1..i - 1 + |p|] == s[i..i + |p|];
      assert OccursAt(s[1..], p, i - 1);
      ReplaceIntroduces(s[1..], p, r);
      var t := ReplaceAll(s[1..], p, r);
      var j :| 0 <= j <= |t| - |r| && OccursAt(t, r, j);
      assert ([s[0]] + t)[j + 1..j + 1 + |r|] == t[j..j + |r|];
      assert OccursAt([s[0]] + t, r, j + 1);
    }
  }

  /** Joining the pieces of `explode` with the separator gives the string back. */
  lemma {:induction false} ExplodeJoin(s: string, c: char)
    ensures Join(Explode(s, c), [c]) == s
    decreases |s|
  {
    if |s| > 0 {
      var rest := Explode(s[1..], c);
      ExplodeJoin(s[1..], c);
      assert s == [s[0]] + s[1..];
      if s[0] == c {
        assert Explode(s, c) == [""] + rest;
        assert ([""] + rest)[1..] == rest;
      } else if |rest| == 1 {
        assert Join(rest, [c]) == rest[0];
      } else {
        var parts := [[s[0]] + rest[0]] + rest[1..];
        assert parts[1..] == rest[1..];
        assert Join(rest, [c]) == rest[0] + [c] + Join(rest[1..], [c]);
      }
    }
  }

  /** Occurrences in a suffix are occurrences in the whole string, shifted. */
  lemma OccursShift(x: string, k: nat, p: string, i: int)
    requires k <= |x| && 0 <= i
    ensures OccursAt(x[k..], p, i) <==> OccursAt(x, p, i + k)
  {
    if 0 <= i && i + |p| <= |x| - k {
      assert x[k..][i..i + |p|] == x[i + k..i + k + |p|];
    }
  }

  /**
   * `str_replace` works on the two halves of a string independently when no
   * occurrence of the search text straddles the boundary.
   */
  lemma {:induction false} ReplaceSplit(a: string, t: string, p: string, r: string)
    requires |p| > 0
    requires forall i :: 0 <= i < |a| < i + |p| ==> !OccursAt(a + t, p, i)
    ensures ReplaceAll(a + t, p, r) == ReplaceAll(a, p, r) + ReplaceAll(t, p, r)
    decreases |a|
  {
    var s := a + t;
    if |a| == 0 {
      assert s == t;
    } else if |s| < |p| {
    } else if s[..|p|] == p {
      assert OccursAt(s, p, 0);
      assert |p| <= |a|;
      assert a[..|p|] == p;
      var a' := a[|p|..];
      assert s[|p|..] == a' + t;
      forall i | 0 <= i < |a'| < i + |p|
        ensures !OccursAt(a' + t, p, i)
      {
        OccursShift(s, |p|, p, i);
      }
      ReplaceSplit(a', t, p, r);
      ConcatAssoc(r, ReplaceAll(a', p, r), ReplaceAll(t, p, r));
    } else {
      var a' := a[1..];
      assert s[1..] == a' + t;
      forall i | 0 <= i < |a'| < i + |p|
        ensures !OccursAt(a' + t, p, i)
      {
        OccursShift(s, 1, p, i);
      }
      ReplaceSplit(a', t, p, r);
      if |a| >= |p| {
        assert a[..|p|] == s[..|p|];
      } else {
        assert ReplaceAll(a, p, r) == a == [a[0]] + ReplaceAll(a', p, r);
      }
      ConcatAssoc([a[0]], ReplaceAll(a', p, r), ReplaceAll(t, p, r));
    }
  }

  /**
   * `str_replace` keeps an occurrence of `q` when its search text `p` is not
   * inside `q`, contains no character that could begin `q`, and does not
   * start with any tail of `q`.
   */
  lemma ReplaceKeeps(s: string, p: string, r: string, q: string)
    requires |p| > 0 && |q| > 0 && Contains(s, q)
    requires !Contains(q, p)
    requires forall k :: 0 <= k < |p| ==> p[k] != q[0]
    requires forall k :: 0 <= k < |q| ==> !StartsWith(p, q[k..])
    ensures Contains(ReplaceAll(s, p, r), q)
  {
    var i :| 0 <= i <= |s| - |q| && OccursAt(s, q, i);
    var a := s[..i];
    var b := s[i + |q|..];
    assert s == a + (q + b) by {
      assert s[i..i + |q|] == q;
    }
    ReplaceAround(a, q, b, p, r);
    OccursInMiddle(ReplaceAll(a, p, r), q, ReplaceAll(b, p, r));
  }

  /** Under the conditions of `ReplaceKeeps`, `str_replace` passes over `q` untouched. */
  lemma ReplaceAround(a: string, q: string, b: string, p: string, r: string)
    requires |p| > 0 && |q| > 0
    requires !Contains(q, p)
    requires forall k :: 0 <= k < |p| ==> p[k] != q[0]
    requires forall k :: 0 <= k < |q| ==> !StartsWith(p, q[k..])
    ensures ReplaceAll(a + (q + b), p, r) == ReplaceAll(a, p, r) + (q + ReplaceAll(b, p, r))
  {
    NoStraddleBefore(a, q + b, p);
    ReplaceSplit(a, q + b, p, r);
    NoStraddleAfter(q, b, p);
    ReplaceSplit(q, b, p, r);
    ReplaceAbsent(q, p, r);
  }

  /** A string that lacks one of the characters of `q` does not contain `q`. */
  lemma LacksCharacter(s: string, q: string, j: int)
    requires 0 <= j < |q|
    requires forall k :: 0 <= k < |s| ==> s[k] != q[j]
    ensures !Contains(s, q)
  {
    forall i | 0 <= i <= |s| - |q|
      ensures !OccursAt(s, q, i)
    {
      assert s[i..i + |q|][j] == s[i + j];
    }
  }

  lemma OccursInMiddle(u: string, q: string, v: string)
    ensures OccursAt(u + (q + v), q, |u|)
  {
    assert (u + (q + v))[|u|..|u| + |q|] == q;
  }

  /** A search text that, by the conditions of `ReplaceKeeps`, cannot disturb `q`. */
  predicate Harmless(p: string, q: string) {
    && |p| > 0 && |q| > 0
    && !Contains(q, p)
    && (forall k :: 0 <= k < |p| ==> p[k] != q[0])
    && (forall k :: 0 <= k < |q| ==> !StartsWith(p, q[k..]))
  }

  /** A run of replacements whose search texts are all harmless to `q` keeps `q`. */
  lemma {:induction false} ReplaceEachKeeps(s: string, ps: seq<string>, rs: seq<string>, q: string)
    requires |ps| == |rs| && |q| > 0 && Contains(s, q)
    requires forall j :: 0 <= j < |ps| ==> Harmless(ps[j], q)
    ensures Contains(ReplaceEach(s, ps, rs), q)
    decreases |ps|
  {
    if |ps| > 0 {
      assert Harmless(ps[0], q);
      ReplaceKeeps(s, ps[0], rs[0], q);
      assert forall j :: 0 <= j < |ps| - 1 ==> ps[1..][j] == ps[j + 1];
      ReplaceEachKeeps(ReplaceAll(s, ps[0], rs[0]), ps[1..], rs[1..], q);
    }
  }

  /** No occurrence of `p` runs from `a` into `y` when `p` lacks the first character of `y`. */
  lemma NoStraddleBefore(a: string, y: string, p: string)
    requires |y| > 0 && forall k :: 0 <= k < |p| ==> p[k] != y[0]
    ensures forall j :: 0 <= j < |a| < j + |p| ==> !OccursAt(a + y, p, j)
  {
    var s := a + y;
    forall j | 0 <= j < |a| < j + |p|
      ensures !OccursAt(s, p, j)
    {
      if j + |p| <= |s| {
        assert s[j..j + |p|][|a| - j] == s[|a|] == y[0];
      }
    }
  }

  /** No occurrence of `p` runs from `q` into `b` when `p` starts with no tail of `q`. */
  lemma NoStraddleAfter(q: string, b: string, p: string)
    requires forall k :: 0 <= k < |q| ==> !StartsWith(p, q[k..])
    ensures forall j :: 0 <= j < |q| < j + |p| ==> !OccursAt(q + b, p, j)
  {
    forall j | 0 <= j < |q| < j + |p|
      ensures !OccursAt(q + b, p, j)
    {
      if j + |p| <= |q + b| {
        assert (q + b)[j..j + |p|][..|q| - j] == q[j..];
        assert !StartsWith(p, q[j..]);
      }
    }
  }

  /** Replacing one character by another rewrites it position by position. */
  lemma {:induction false} ReplaceChar(s: string, c: char, d: char)
    ensures |ReplaceAll(s, [c], [d])| == |s|
    ensures forall i :: 0 <= i < |s| ==> ReplaceAll(s, [c], [d])[i] == if s[i] == c then d else s[i]
    decreases |s|
  {
    if |s| > 0 {
      ReplaceChar(s[1..], c, d);
      var rest := ReplaceAll(s[1..], [c], [d]);
      if s[..1] == [c] {
        assert ReplaceAll(s, [c], [d]) == [d] + rest;
      } else {
        assert ReplaceAll(s, [c], [d]) == [s[0]] + rest;
      }
    }
  }

  /** Text found in the middle part of a concatenation is found in the whole. */
  lemma ContainsWithin(a: string, b: string, c: string, p: string)
    requires Contains(b, p)
    ensures Contains(a + b + c, p)
  {
    var k :| 0 <= k <= |b| - |p| && OccursAt(b, p, k);
    var s := a + b + c;
    assert s[|a| + k..|a| + k + |p|] == b[k..k + |p|];
    assert OccursAt(s, p, |a| + k);
  }

  /** `implode` keeps every piece: each one occurs in the joined text. */
  lemma {:induction false} JoinContainsEach(xs: seq<string>, sep: string, i: int)
    requires 0 <= i < |xs|
    ensures Contains(Join(xs, sep), xs[i])
    decreases |xs|
  {
    var s := Join(xs, sep);
    if |xs| == 1 {
      assert OccursAt(s, xs[i], 0);
    } else if i == 0 {
      assert s == xs[0] + (sep + Join(xs[1..], sep));
      assert OccursAt(s, xs[0], 0);
    } else {
      JoinContainsEach(xs[1..], sep, i - 1);
      ContainsWithin(xs[0] + sep, Join(xs[1..], sep), "", xs[i]);
      assert s == xs[0] + sep + Join(xs[1..], sep) + "";
    }
  }
}
