/**
 * The parts of Python's `str` that the handler relies on: `isspace`, `strip()`,
 * `split()` with no separator, `in` and `find` on substrings, and `upper()` on
 * the ASCII letters of an HTTP method name.
 */
module Strings {
  import opened Wrappers

  /** The characters for which Python's `str.isspace()` holds. `strip()`, `split()`
      and the regular-expression class `\s` all use exactly this set. */
  predicate IsSpace(c: char) {
    ('\t' <= c <= '\r') || ('\U{1C}' <= c <= ' ') || c == '\U{85}' || c == '\U{A0}'
    || c == '\U{1680}' || ('\U{2000}' <= c <= '\U{200A}') || c == '\U{2028}' || c == '\U{2029}'
    || c == '\U{202F}' || c == '\U{205F}' || c == '\U{3000}'
  }

  /** Every character of s is whitespace (the empty string included). */
  predicate IsBlank(s: string) { forall i :: 0 <= i < |s| ==> IsSpace(s[i]) }

  /** Python's `s.lstrip()`. */
  function TrimStart(s: string): (r: string)
    ensures |r| <= |s| && r == s[|s| - |r|..]
    ensures IsBlank(s[..|s| - |r|])
    ensures r == [] || !IsSpace(r[0])
  {
    if s != [] && IsSpace(s[0]) then
      var r := TrimStart(s[1..]);
      LeadingSpaceTrimmed(s, r);
      r
    else s
  }

  /** A whitespace character before what `lstrip()` removes is removed too. */
  lemma LeadingSpaceTrimmed(s: string, r: string)
    requires s != [] && IsSpace(s[0])
    requires |r| <= |s| - 1 && r == s[1..][|s| - 1 - |r|..] && IsBlank(s[1..][..|s| - 1 - |r|])
    ensures r == s[|s| - |r|..] && IsBlank(s[..|s| - |r|])
  {
    var t, k := s[1..], |s| - |r|;
    assert s[k..] == t[k - 1..];
    assert s[..k] == [s[0]] + t[..k - 1];
    BlankConcat([s[0]], t[..k - 1]);
  }

  /** Python's `s.rstrip()`. */
  function TrimEnd(s: string): (r: string)
    ensures |r| <= |s| && r == s[..|r|]
    ensures IsBlank(s[|r|..])
    ensures r == [] || !IsSpace(r[|r| - 1])
  {
    if s != [] && IsSpace(s[|s| - 1]) then
      var p := s[..|s| - 1];
      var r := TrimEnd(p);
      assert s[|r|..] == p[|r|..] + [s[|s| - 1]];
      BlankConcat(p[|r|..], [s[|s| - 1]]);
      r
    else s
  }

  /** Python's `s.strip()`. */
  function Strip(s: string): (r: string)
    ensures |r| <= |s|
    ensures r == [] || (!IsSpace(r[0]) && !IsSpace(r[|r| - 1]))
  {
    TrimEnd(TrimStart(s))
  }

  lemma BlankConcat(a: string, b: string)
    ensures IsBlank(a + b) <==> IsBlank(a) && IsBlank(b)
  {
    assert forall i :: 0 <= i < |a| ==> (a + b)[i] == a[i];
    assert forall i :: 0 <= i < |b| ==> (a + b)[|a| + i] == b[i];
  }

  lemma {:induction false} BlankTrimStart(s: string)
    requires IsBlank(s)
    ensures TrimStart(s) == []
  {
    if s != [] { BlankTrimStart(s[1..]); }
  }

  /** `rstrip()` keeps every visible character. */
  lemma TrimEndKeepsVisibleAt(t: string, i: nat)
    requires i < |t| && !IsSpace(t[i])
    ensures i < |TrimEnd(t)|
  {
    var r := TrimEnd(t);
    forall j | |r| <= j < |t| ensures IsSpace(t[j]) {
      assert t[j] == t[|r|..][j - |r|];
    }
  }

  /** `not s.strip()`: stripping leaves nothing exactly when s is all whitespace. */
  lemma StripEmptyIffBlank(s: string)
    ensures Strip(s) == [] <==> IsBlank(s)
  {
    if IsBlank(s) {
      BlankTrimStart(s);
    } else {
      var t := TrimStart(s);
      var k := |s| - |t|;
      assert s == s[..k] + t;
      BlankConcat(s[..k], t);
      TrimEndKeepsVisibleAt(t, 0);
    }
  }

  /** Stripping ignores leading whitespace before the first visible character. */
  lemma {:induction false} StripAfterBlank(ws: string, t: string)
    requires IsBlank(ws) && t != [] && !IsSpace(t[0])
    ensures Strip(ws + t) == TrimEnd(t)
  {
    if ws != [] {
      assert (ws + t)[1..] == ws[1..] + t;
      StripAfterBlank(ws[1..], t);
    } else {
      assert ws + t == t;
    }
  }

  /** Trailing whitespace is only ever removed after the last visible character. */
  lemma {:induction false} TrimEndAfterVisible(p: string, q: string)
    requires p != [] && !IsSpace(p[|p| - 1])
    ensures TrimEnd(p + q) == p + TrimEnd(q)
  {
    if q == [] {
      assert p + q == p;
    } else if IsSpace(q[|q| - 1]) {
      assert (p + q)[..|p + q| - 1] == p + q[..|q| - 1];
      TrimEndAfterVisible(p, q[..|q| - 1]);
    }
  }

  /** Length of the run of whitespace at the start of s. */
  function SpaceRun(s: string): (n: nat)
    ensures n <= |s| && IsBlank(s[..n]) && (n < |s| ==> !IsSpace(s[n]))
  {
    if s != [] && IsSpace(s[0]) then 1 + SpaceRun(s[1..]) else 0
  }

  /** Length of the run of non-whitespace characters at the start of s. */
  function WordLength(s: string): (n: nat)
    ensures n <= |s| && (n < |s| ==> IsSpace(s[n]))
    ensures forall i :: 0 <= i < n ==> !IsSpace(s[i])
  {
    if s == [] || IsSpace(s[0]) then 0 else 1 + WordLength(s[1..])
  }

  /** The non-whitespace characters of s, in order. */
  function Visible(s: string): string {
    if s == [] then []
    else (if IsSpace(s[0]) then [] else [s[0]]) + Visible(s[1..])
  }

  function Concat(ws: seq<string>): string {
    if ws == [] then [] else ws[0] + Concat(ws[1..])
  }

  /** Python's `s.split()`: the maximal runs of non-whitespace characters, in order. */
  function Words(s: string): (ws: seq<string>)
    ensures forall i :: 0 <= i < |ws| ==> ws[i] != [] && Visible(ws[i]) == ws[i]
    decreases |s|
  {
    if s == [] then []
    else if IsSpace(s[0]) then Words(s[1..])
    else
      var n := WordLength(s);
      VisibleOfWord(s[..n]);
      [s[..n]] + Words(s[n..])
  }

  lemma {:induction false} VisibleOfWord(w: string)
    requires forall i :: 0 <= i < |w| ==> !IsSpace(w[i])
    ensures Visible(w) == w
  {
    if w != [] { VisibleOfWord(w[1..]); }
  }

  lemma {:induction false} VisibleAppend(a: string, b: string)
    ensures Visible(a + b) == Visible(a) + Visible(b)
  {
    if a != [] {
      assert (a + b)[1..] == a[1..] + b;
      VisibleAppend(a[1..], b);
    } else {
      assert a + b == b;
    }
  }

  /** `split()` neither loses nor invents a visible character: gluing the words back
      together gives exactly the non-whitespace characters of s. */
  lemma {:induction false} WordsKeepVisible(s: string)
    ensures Concat(Words(s)) == Visible(s)
    decreases |s|
  {
    if s == [] {
    } else if IsSpace(s[0]) {
      WordsKeepVisible(s[1..]);
    } else {
      var n := WordLength(s);
      assert s == s[..n] + s[n..];
      VisibleAppend(s[..n], s[n..]);
      VisibleOfWord(s[..n]);
      WordsKeepVisible(s[n..]);
      assert Words(s)[1..] == Words(s[n..]);
    }
  }

  /** `split()` of a string gives no words exactly when the string is all whitespace. */
  lemma {:induction false} WordsEmptyIffBlank(s: string)
    ensures Words(s) == [] <==> IsBlank(s)
    decreases |s|
  {
    if s != [] && IsSpace(s[0]) {
      WordsEmptyIffBlank(s[1..]);
      assert IsBlank(s) <==> IsBlank(s[1..]) by {
        if IsBlank(s[1..]) {
          forall i | 0 <= i < |s| ensures IsSpace(s[i]) {
            if i > 0 { assert s[i] == s[1..][i - 1]; }
          }
        }
      }
    }
  }

  lemma {:induction false} WordsAfterBlank(ws: string, u: string)
    requires IsBlank(ws)
    ensures Words(ws + u) == Words(u)
  {
    if ws != [] {
      assert (ws + u)[1..] == ws[1..] + u;
      WordsAfterBlank(ws[1..], u);
    } else {
      assert ws + u == u;
    }
  }

  lemma {:induction false} WordLengthBeforeBlank(u: string, ws: string)
    requires IsBlank(ws)
    ensures WordLength(u + ws) == WordLength(u)
  {
    if u != [] && !IsSpace(u[0]) {
      assert (u + ws)[1..] == u[1..] + ws;
      WordLengthBeforeBlank(u[1..], ws);
    }
  }

  lemma {:induction false} WordsBeforeBlank(u: string, ws: string)
    requires IsBlank(ws)
    ensures Words(u + ws) == Words(u)
    decreases |u|
  {
    if u == [] {
      assert u + ws == ws;
      WordsEmptyIffBlank(ws);
    } else if IsSpace(u[0]) {
      assert (u + ws)[1..] == u[1..] + ws;
      WordsBeforeBlank(u[1..], ws);
    } else {
      var n := WordLength(u);
      WordLengthBeforeBlank(u, ws);
      assert (u + ws)[..n] == u[..n];
      assert (u + ws)[n..] == u[n..] + ws;
      WordsBeforeBlank(u[n..], ws);
    }
  }

  /** s is the whitespace `lstrip()` removes followed by what it keeps. */
  lemma TrimStartSplit(s: string)
    ensures s == s[..|s| - |TrimStart(s)|] + TrimStart(s)
  {
  }

  /** t is what `rstrip()` keeps followed by the whitespace it removes. */
  lemma TrimEndSplit(t: string)
    ensures t == TrimEnd(t) + t[|TrimEnd(t)|..]
  {
  }

  /** `s.strip().split()` is `s.split()`. */
  lemma WordsOfStrip(s: string)
    ensures Words(Strip(s)) == Words(s)
  {
    var t := TrimStart(s);
    var r := TrimEnd(t);
    assert Strip(s) == r;
    TrimStartSplit(s);
    WordsAfterBlank(s[..|s| - |t|], t);
    assert Words(s) == Words(t);
    TrimEndSplit(t);
    WordsBeforeBlank(r, t[|r|..]);
  }

  lemma TrimStartKeepsVisible(s: string)
    ensures forall i :: 0 <= i < |s| && !IsSpace(s[i]) ==> |s| - |TrimStart(s)| <= i
  {
    var lo := |s| - |TrimStart(s)|;
    assert forall j :: 0 <= j < lo ==> s[j] == s[..lo][j];
  }

  lemma TrimEndKeepsVisible(t: string)
    ensures forall i :: 0 <= i < |t| && !IsSpace(t[i]) ==> i < |TrimEnd(t)|
  {
    var n := |TrimEnd(t)|;
    assert forall j :: n <= j < |t| ==> t[j] == t[n..][j - n];
  }

  /** `s.strip()` is a window of s that holds every visible character of s. */
  lemma StripWindow(s: string) returns (lo: nat)
    ensures lo + |Strip(s)| <= |s| && Strip(s) == s[lo..lo + |Strip(s)|]
    ensures forall i :: 0 <= i < |s| && !IsSpace(s[i]) ==> lo <= i < lo + |Strip(s)|
  {
    var t := TrimStart(s);
    var r := TrimEnd(t);
    lo := |s| - |t|;
    assert Strip(s) == r;
    PrefixOfSuffix(s, lo, |r|);
    TrimStartKeepsVisible(s);
    TrimEndKeepsVisible(t);
    forall i | 0 <= i < |s| && !IsSpace(s[i]) ensures i < lo + |r| {
      assert s[i] == t[i - lo];
    }
  }

  /** The first n elements after position lo are the window [lo, lo + n). */
  lemma PrefixOfSuffix<T>(s: seq<T>, lo: nat, n: nat)
    requires lo + n <= |s|
    ensures s[lo..][..n] == s[lo..lo + n]
  {
  }

  /** Every visible character of s is in `s.strip()`. */
  lemma VisibleInStrip(s: string, i: nat) returns (j: nat)
    requires i < |s| && !IsSpace(s[i])
    ensures j < |Strip(s)| && Strip(s)[j] == s[i]
  {
    var lo := StripWindow(s);
    j := i - lo;
    assert s[lo..lo + |Strip(s)|][j] == s[i];
  }

  /** Every character of `s.strip()` comes from s. */
  lemma StripCharFrom(s: string, j: nat) returns (i: nat)
    requires j < |Strip(s)|
    ensures i < |s| && s[i] == Strip(s)[j]
  {
    var lo := StripWindow(s);
    i := lo + j;
    assert s[lo..lo + |Strip(s)|][j] == s[i];
  }

  /** A property only visible characters can have occurs in `s.strip()` exactly when
      it occurs in s. */
  lemma StripKeepsVisibleProperty(s: string, p: char -> bool)
    requires forall c :: p(c) ==> !IsSpace(c)
    ensures (exists j :: 0 <= j < |Strip(s)| && p(Strip(s)[j])) <==> (exists i :: 0 <= i < |s| && p(s[i]))
  {
    if exists i :: 0 <= i < |s| && p(s[i]) {
      var i :| 0 <= i < |s| && p(s[i]);
      var j := VisibleInStrip(s, i);
    }
    if exists j :: 0 <= j < |Strip(s)| && p(Strip(s)[j]) {
      var j :| 0 <= j < |Strip(s)| && p(Strip(s)[j]);
      var i := StripCharFrom(s, j);
    }
  }

  /** A property that no character of s has, no character of any word of s has. */
  lemma {:induction false} WordsInherit(s: string, p: char -> bool)
    requires forall i :: 0 <= i < |s| ==> !p(s[i])
    ensures forall j, k :: 0 <= j < |Words(s)| && 0 <= k < |Words(s)[j]| ==> !p(Words(s)[j][k])
    decreases |s|
  {
    if s != [] {
      if IsSpace(s[0]) {
        WordsInherit(s[1..], p);
      } else {
        var n := WordLength(s);
        WordsInherit(s[n..], p);
        assert Words(s) == [s[..n]] + Words(s[n..]);
      }
    }
  }

  /** `pat` occurs in s starting at position k. */
  predicate OccursAt(s: string, pat: string, k: nat) {
    k + |pat| <= |s| && s[k..k + |pat|] == pat
  }

  /** Python's `pat in s`. */
  predicate Contains(s: string, pat: string) {
    exists k: nat :: k <= |s| - |pat| && OccursAt(s, pat, k)
  }

  /** The first occurrence of pat in s at or after `from`. */
  function IndexFrom(s: string, pat: string, from: nat): (r: Option<nat>)
    ensures r.Some? ==> from <= r.value && OccursAt(s, pat, r.value)
    ensures r.Some? ==> forall k :: from <= k < r.value ==> !OccursAt(s, pat, k)
    ensures r.None? ==> forall k :: from <= k ==> !OccursAt(s, pat, k)
    decreases |s| - from
  {
    if from + |pat| > |s| then None
    else if s[from..from + |pat|] == pat then Some(from)
    else IndexFrom(s, pat, from + 1)
  }

  /** Python's `s.find(pat)`, with None in place of -1. */
  function IndexOf(s: string, pat: string): (r: Option<nat>)
    ensures r.Some? <==> Contains(s, pat)
    ensures r.Some? ==> OccursAt(s, pat, r.value)
    ensures r.Some? ==> forall k :: 0 <= k < r.value ==> !OccursAt(s, pat, k)
  {
    IndexFrom(s, pat, 0)
  }

  /** Python's `s.split(pat)[0]`: s up to the first occurrence of pat, or all of s. */
  function UpTo(s: string, pat: string): (r: string)
    ensures Contains(s, pat) ==> r == s[..IndexOf(s, pat).value]
    ensures !Contains(s, pat) ==> r == s
  {
    match IndexOf(s, pat)
    case Some(i) => s[..i]
    case None => s
  }

  /** A string cannot contain a pattern whose first character it lacks. */
  lemma MissingFirstChar(s: string, pat: string)
    requires pat != [] && forall i :: 0 <= i < |s| ==> s[i] != pat[0]
    ensures !Contains(s, pat)
  {
    forall k: nat | k <= |s| - |pat| ensures !OccursAt(s, pat, k) {
      assert s[k..k + |pat|][0] == s[k];
    }
  }

  function UpperChar(c: char): char {
    if 'a' <= c <= 'z' then (c as int - 32) as char else c
  }

  /** Python's `s.upper()` on ASCII letters. */
  function Upper(s: string): (r: string)
    ensures |r| == |s|
  {
    seq(|s|, i requires 0 <= i < |s| => UpperChar(s[i]))
  }

  /** Upper-casing twice is upper-casing once. */
  lemma UpperIdempotent(s: string)
    ensures Upper(Upper(s)) == Upper(s)
  {
    forall i | 0 <= i < |s| ensures Upper(Upper(s))[i] == Upper(s)[i] {
      var c := s[i];
      assert Upper(s)[i] == UpperChar(c);
    }
  }
}
