/**
 * The JavaScript string operations the services rely on: `indexOf`,
 * `split` with a non-empty separator, `startsWith`, `trim` and
 * `toLowerCase`. Strings are sequences of characters.
 */
module Strings {
  import opened Wrappers

  /** JavaScript truthiness of an optional string: present and not empty. */
  predicate Truthy(s: Option<string>) {
    s.Some? && s.value != ""
  }

  /** `pat` occurs in `s` at index `i`. */
  predicate OccursAt(s: string, pat: string, i: nat) {
    i + |pat| <= |s| && s[i..i + |pat|] == pat
  }

  /** `pat` occurs nowhere in `s`. */
  predicate Absent(s: string, pat: string) {
    forall j: nat | j <= |s| :: !OccursAt(s, pat, j)
  }

  predicate StartsWith(s: string, prefix: string) {
    |prefix| <= |s| && s[..|prefix|] == prefix
  }

  lemma OccursInTail(s: string, pat: string, k: nat)
    requires |s| > 0
    ensures OccursAt(s[1..], pat, k) <==> OccursAt(s, pat, k + 1)
  {
    if k + 1 + |pat| <= |s| {
      assert s[1..][k..k + |pat|] == s[k + 1..k + 1 + |pat|];
    }
  }

  lemma OccursInPrefix(s: string, pat: string, n: nat, k: nat)
    requires n <= |s| && k + |pat| <= n
    ensures OccursAt(s[..n], pat, k) <==> OccursAt(s, pat, k)
  {
    assert s[..n][k..k + |pat|] == s[k..k + |pat|];
  }

  lemma OccursAfterPrefix(p: string, q: string, pat: string, k: nat)
    ensures OccursAt(p + q, pat, |p| + k) <==> OccursAt(q, pat, k)
  {
    if k + |pat| <= |q| {
      assert (p + q)[|p| + k..|p| + k + |pat|] == q[k..k + |pat|];
    }
  }

  /** `s.indexOf(pat)`: the first index at which `pat` occurs, if any. */
  function IndexOf(s: string, pat: string): (r: Option<nat>)
    requires |pat| > 0
    ensures r.Some? ==> OccursAt(s, pat, r.value)
    ensures r.Some? ==> forall j: nat :: j < r.value ==> !OccursAt(s, pat, j)
    ensures r.None? <==> Absent(s, pat)
    decreases |s|
  {
    if |s| < |pat| then None
    else if s[..|pat|] == pat then Some(0)
    else
      var rest := IndexOf(s[1..], pat);
      assert !OccursAt(s, pat, 0);
      assert forall k: nat :: OccursAt(s[1..], pat, k) <==> OccursAt(s, pat, k + 1) by {
        forall k: nat ensures OccursAt(s[1..], pat, k) <==> OccursAt(s, pat, k + 1) {
          OccursInTail(s, pat, k);
        }
      }
      assert forall j: nat :: j > 0 ==> (OccursAt(s, pat, j) <==> OccursAt(s[1..], pat, j - 1));
      match rest
      case None => None
      case Some(k) => Some(k + 1)
  }

  /** `s.lastIndexOf(pat)`: the last index at which `pat` occurs, if any. */
  function LastIndexOf(s: string, pat: string): (r: Option<nat>)
    requires |pat| > 0
    ensures r.Some? ==> OccursAt(s, pat, r.value)
    ensures r.Some? ==> forall j: nat :: j > r.value ==> !OccursAt(s, pat, j)
    ensures r.None? <==> Absent(s, pat)
    decreases |s|
  {
    if |s| < |pat| then None
    else if s[|s| - |pat|..] == pat then
      assert OccursAt(s, pat, |s| - |pat|) by { assert s[|s| - |pat|..|s|] == s[|s| - |pat|..]; }
      Some(|s| - |pat|)
    else
      var init := s[..|s| - 1];
      assert forall k: nat :: k + |pat| <= |init| ==> (OccursAt(init, pat, k) <==> OccursAt(s, pat, k)) by {
        forall k: nat | k + |pat| <= |init| ensures OccursAt(init, pat, k) <==> OccursAt(s, pat, k) {
          OccursInPrefix(s, pat, |s| - 1, k);
        }
      }
      LastIndexOf(init, pat)
  }

  /** `s.split(sep)` for a non-empty separator: the fields between non-overlapping occurrences, left to right. */
  function Split(s: string, sep: string): (r: seq<string>)
    requires |sep| > 0
    ensures |r| >= 1
    ensures forall k :: 0 <= k < |r| ==> Absent(r[k], sep)
    decreases |s|
  {
    match IndexOf(s, sep)
    case None => [s]
    case Some(i) =>
      FieldBeforeFirstIsClean(s, sep, i);
      [s[..i]] + Split(s[i + |sep|..], sep)
  }

  lemma FieldBeforeFirstIsClean(s: string, sep: string, i: nat)
    requires |sep| > 0 && IndexOf(s, sep) == Some(i)
    ensures Absent(s[..i], sep)
  {
    forall j: nat ensures !OccursAt(s[..i], sep, j) {
      if j + |sep| <= i {
        OccursInPrefix(s, sep, i, j);
      }
    }
  }

  /** `parts.join(sep)`. */
  function Join(parts: seq<string>, sep: string): string {
    if |parts| == 0 then ""
    else if |parts| == 1 then parts[0]
    else parts[0] + sep + Join(parts[1..], sep)
  }

  /** Splitting and joining again with the same separator gives back the string. */
  lemma {:induction false} JoinSplit(s: string, sep: string)
    requires |sep| > 0
    ensures Join(Split(s, sep), sep) == s
    decreases |s|
  {
    match IndexOf(s, sep)
    case None =>
    case Some(i) =>
      var rest := s[i + |sep|..];
      var tail := Split(rest, sep);
      assert Split(s, sep) == [s[..i]] + tail;
      JoinSplit(rest, sep);
      assert Join([s[..i]] + tail, sep) == s[..i] + sep + Join(tail, sep) by {
        assert ([s[..i]] + tail)[1..] == tail;
      }
      assert s[i..i + |sep|] == sep;
      assert s == s[..i] + sep + rest;
  }

  /** A separator's first occurrence ends the first field; the rest is split on its own. */
  lemma SplitAtFirst(p: string, sep: string, q: string)
    requires |sep| > 0 && IndexOf(p + sep + q, sep) == Some(|p|)
    ensures Split(p + sep + q, sep) == [p] + Split(q, sep)
  {
    var s := p + sep + q;
    assert s[..|p|] == p;
    assert s[|p| + |sep|..] == q;
  }

  /** For a one-character separator absent from `p`, its first occurrence in `p + sep + q` is right after `p`. */
  lemma FirstOfSingleChar(p: string, sep: string, q: string)
    requires |sep| == 1 && sep[0] !in p
    ensures IndexOf(p + sep + q, sep) == Some(|p|)
  {
    var s := p + sep + q;
    assert s[|p|..|p| + 1] == sep;
    assert OccursAt(s, sep, |p|);
    forall j: nat | j < |p| ensures !OccursAt(s, sep, j) {
      assert s[j] == p[j];
      assert p[j] in p;
      assert s[j..j + 1] == [s[j]];
    }
  }

  /** The characters of `s` before the first `c`. */
  function TakeUntil(s: string, c: char): (r: string)
    ensures c !in r && StartsWith(s, r)
    ensures |r| < |s| ==> s[|r|] == c
  {
    if s == [] || s[0] == c then [] else [s[0]] + TakeUntil(s[1..], c)
  }

  /** With a one-character separator the first field is everything before that character. */
  lemma {:induction false} FirstFieldOfSingleChar(s: string, c: char)
    ensures Split(s, [c])[0] == TakeUntil(s, c)
    decreases |s|
  {
    var t := TakeUntil(s, c);
    if |t| < |s| {
      assert s == t + [c] + s[|t| + 1..];
      FirstOfSingleChar(t, [c], s[|t| + 1..]);
    } else {
      assert t == s;
      forall j: nat ensures !OccursAt(s, [c], j) {
        if j + 1 <= |s| {
          assert s[j..j + 1] == [s[j]];
        }
      }
    }
  }

  // Whitespace and line terminators as `String.prototype.trim` sees them.
  predicate IsWhiteSpace(c: char) {
    || c == '\t' || c == '\n' || c == '\U{000B}' || c == '\U{000C}' || c == '\r' || c == ' '
    || c == '\U{00A0}' || c == '\U{1680}' || ('\U{2000}' <= c <= '\U{200A}')
    || c == '\U{2028}' || c == '\U{2029}' || c == '\U{202F}' || c == '\U{205F}'
    || c == '\U{3000}' || c == '\U{FEFF}'
  }

  /** `trimStart`: drops the leading whitespace, nothing else. */
  function TrimStart(s: string): (r: string)
    ensures |r| <= |s| && r == s[|s| - |r|..]
    ensures r == [] || !IsWhiteSpace(r[0])
    ensures forall k :: 0 <= k < |s| - |r| ==> IsWhiteSpace(s[k])
  {
    if s != [] && IsWhiteSpace(s[0]) then TrimStart(s[1..]) else s
  }

  /** `trimEnd`: drops the trailing whitespace, nothing else. */
  function TrimEnd(s: string): (r: string)
    ensures |r| <= |s| && r == s[..|r|]
    ensures r == [] || !IsWhiteSpace(r[|r| - 1])
    ensures forall k :: |r| <= k < |s| ==> IsWhiteSpace(s[k])
  {
    if s != [] && IsWhiteSpace(s[|s| - 1]) then TrimEnd(s[..|s| - 1]) else s
  }

  /** `trim`: whitespace removed from both ends. */
  function Trim(s: string): string {
    TrimEnd(TrimStart(s))
  }

  /** A trimmed string is a slice of the original that starts and ends with non-whitespace. */
  lemma TrimIsInnerSlice(s: string)
    ensures exists i, j :: 0 <= i <= j <= |s| && Trim(s) == s[i..j]
    ensures Trim(s) == [] || (!IsWhiteSpace(Trim(s)[0]) && !IsWhiteSpace(Trim(s)[|Trim(s)| - 1]))
  {
    var a := TrimStart(s);
    var b := TrimEnd(a);
    TrimIsSlice(s, a, b);
    if b != [] {
      TrimStartsClean(a, b);
    }
  }

  lemma TrimIsSlice(s: string, a: string, b: string)
    requires |a| <= |s| && a == s[|s| - |a|..] && |b| <= |a| && b == a[..|b|]
    ensures b == s[|s| - |a|..|s| - |a| + |b|]
  {
  }

  lemma TrimStartsClean(a: string, b: string)
    requires (a == [] || !IsWhiteSpace(a[0])) && b != [] && |b| <= |a| && b == a[..|b|]
    ensures !IsWhiteSpace(b[0])
  {
    assert b[0] == a[0];
  }

  /** Trimming twice is trimming once. */
  lemma TrimIdempotent(s: string)
    ensures Trim(Trim(s)) == Trim(s)
  {
    var t := Trim(s);
    TrimIsInnerSlice(s);
    if t != [] {
      assert TrimStart(t) == t;
    }
  }

  /** A string trims to nothing exactly when it is all whitespace. */
  lemma TrimEmptyIff(s: string)
    ensures Trim(s) == [] <==> forall k :: 0 <= k < |s| ==> IsWhiteSpace(s[k])
  {
    var a := TrimStart(s);
    if Trim(s) == [] {
      assert a == [];
    }
  }

  predicate IsAsciiUpper(c: char) { 'A' <= c <= 'Z' }
  predicate IsAsciiLower(c: char) { 'a' <= c <= 'z' }
  predicate IsAsciiDigit(c: char) { '0' <= c <= '9' }

  function LowerChar(c: char): char {
    if IsAsciiUpper(c) then (c as int + 32) as char else c
  }

  /** `toLowerCase` on the ASCII letters; every other character is kept. */
  function ToLower(s: string): (r: string)
    ensures |r| == |s|
    ensures forall k :: 0 <= k < |s| ==> !IsAsciiUpper(r[k])
    ensures forall k :: 0 <= k < |s| ==> (IsAsciiUpper(s[k]) || r[k] == s[k])
    ensures forall k :: 0 <= k < |s| && IsAsciiUpper(s[k]) ==> IsAsciiLower(r[k]) && r[k] as int == s[k] as int + 32
  {
    seq(|s|, k requires 0 <= k < |s| => LowerChar(s[k]))
  }

  /** Lower-casing a string without ASCII capitals changes nothing. */
  lemma LowerUnchanged(s: string)
    requires forall k :: 0 <= k < |s| ==> !IsAsciiUpper(s[k])
    ensures ToLower(s) == s
  {
  }
}
