/**
 * Citation resolution, `FactChecker._resolve_citations_in_claims`: a source that,
 * once stripped, begins with a marker `[n]` is replaced by the n-th entry of the
 * citations list the API returned alongside the answer, when that entry exists;
 * every other source is kept exactly as it was written.
 */
module Citations {
  import opened Wrappers
  import opened Strings
  import opened JsonData

  predicate IsDigit(c: char) { '0' <= c <= '9' }

  predicate AllDigits(s: string) { forall i :: 0 <= i < |s| ==> IsDigit(s[i]) }

  /** Length of the run of ASCII digits at the start of s: what the greedy `\d+` takes. */
  function DigitRun(s: string): (n: nat)
    ensures n <= |s| && AllDigits(s[..n]) && (n < |s| ==> !IsDigit(s[n]))
  {
    if s != [] && IsDigit(s[0]) then
      var n := 1 + DigitRun(s[1..]);
      assert forall i :: 1 <= i < n ==> s[i] == s[1..][i - 1];
      n
    else 0
  }

  lemma {:induction false} DigitRunAfterDigits(ds: string, u: string)
    requires AllDigits(ds)
    ensures DigitRun(ds + u) == |ds| + DigitRun(u)
  {
    if ds != [] {
      assert (ds + u)[1..] == ds[1..] + u;
      DigitRunAfterDigits(ds[1..], u);
    } else {
      assert ds + u == u;
    }
  }

  /** Python's `int(ds)` on ASCII digits; leading zeros are allowed. */
  function DigitsValue(ds: string): nat
    requires AllDigits(ds)
  {
    if ds == [] then 0 else DigitsValue(ds[..|ds| - 1]) * 10 + (ds[|ds| - 1] as int - '0' as int)
  }

  /** The decimal numeral of n, without leading zeros. */
  function Decimal(n: nat): (ds: string)
    ensures ds != [] && AllDigits(ds)
  {
    if n < 10 then [('0' as int + n) as char]
    else Decimal(n / 10) + [('0' as int + n % 10) as char]
  }

  /** Reading a numeral back gives the number it was written from. */
  lemma {:induction false} DecimalRoundTrip(n: nat)
    ensures DigitsValue(Decimal(n)) == n
  {
    if n >= 10 {
      DecimalRoundTrip(n / 10);
      var ds := Decimal(n);
      assert ds[..|ds| - 1] == Decimal(n / 10);
    }
  }

  lemma {:induction false} ZerosValue(zeros: string)
    requires forall i :: 0 <= i < |zeros| ==> zeros[i] == '0'
    ensures AllDigits(zeros) && DigitsValue(zeros) == 0
  {
    if zeros != [] { ZerosValue(zeros[..|zeros| - 1]); }
  }

  /** Leading zeros do not change the value of a numeral. */
  lemma {:induction false} LeadingZerosIgnored(zeros: string, ds: string)
    requires forall i :: 0 <= i < |zeros| ==> zeros[i] == '0'
    requires AllDigits(ds)
    ensures AllDigits(zeros + ds) && DigitsValue(zeros + ds) == DigitsValue(ds)
    decreases |ds|
  {
    ZerosValue(zeros);
    if ds == [] {
      assert zeros + ds == zeros;
    } else {
      var zd := zeros + ds;
      assert zd[..|zd| - 1] == zeros + ds[..|ds| - 1];
      assert zd[|zd| - 1] == ds[|ds| - 1];
      LeadingZerosIgnored(zeros, ds[..|ds| - 1]);
    }
  }

  /** `re.match(r"\[(\d+)\]", s)`: the number written in a `[digits]` marker at the
      very start of s. Trailing text after the `]` does not matter. */
  function LeadingMarker(s: string): Option<nat> {
    if s == [] || s[0] != '[' then None
    else
      var t := s[1..];
      var d := DigitRun(t);
      if 0 < d < |t| && t[d] == ']' then Some(DigitsValue(t[..d])) else None
  }

  /** The marker `[n]`, written with the given leading zeros. */
  function MarkerText(zeros: string, n: nat): string {
    "[" + zeros + Decimal(n) + "]"
  }

  /** The marker `[n]`, possibly written with leading zeros, is read back as n,
      whatever follows it. */
  lemma MarkerRoundTrip(zeros: string, n: nat, rest: string)
    requires forall i :: 0 <= i < |zeros| ==> zeros[i] == '0'
    ensures LeadingMarker(MarkerText(zeros, n) + rest) == Some(n)
  {
    var ds := Decimal(n);
    LeadingZerosIgnored(zeros, ds);
    DecimalRoundTrip(n);
    var digits, tail := zeros + ds, "]" + rest;
    var s := MarkerText(zeros, n) + rest;
    MarkerPieces(digits, tail);
    assert s == "[" + digits + tail;
    assert tail[0] == ']';
    DigitRunAfterDigits(digits, tail);
  }

  lemma MarkerPieces(digits: string, tail: string)
    ensures ("[" + digits + tail)[1..] == digits + tail
    ensures (digits + tail)[..|digits|] == digits
    ensures tail != [] ==> (digits + tail)[|digits|] == tail[0]
  {
    assert ("[" + digits + tail)[1..] == digits + tail;
  }

  /** s starts with `[`, then d ASCII digits, then `]`. */
  predicate MarkerOfLength(s: string, d: nat) {
    0 < d && d + 2 <= |s| && s[0] == '[' && AllDigits(s[1..d + 1]) && s[d + 1] == ']'
  }

  /** A marker is found exactly when s starts with one, and its value is that of the
      digits between the brackets. */
  lemma LeadingMarkerExact(s: string)
    ensures LeadingMarker(s).Some? <==> exists d: nat :: MarkerOfLength(s, d)
    ensures forall d: nat :: MarkerOfLength(s, d) ==> LeadingMarker(s) == Some(DigitsValue(s[1..d + 1]))
  {
    if LeadingMarker(s).Some? {
      var d := DigitRun(s[1..]);
      assert s[1..][..d] == s[1..d + 1];
      assert MarkerOfLength(s, d);
    }
    forall d: nat | MarkerOfLength(s, d) ensures LeadingMarker(s) == Some(DigitsValue(s[1..d + 1])) {
      var ds, u := s[1..d + 1], s[d + 1..];
      assert s[1..] == ds + u;
      DigitRunAfterDigits(ds, u);
      assert s[1..][..d] == ds;
    }
  }

  /** One source, resolved against the API's citations (lines 283-291). */
  function ResolveSource(source: string, citations: seq<string>): (r: string)
    ensures r == source || r in citations
  {
    match LeadingMarker(Strip(source))
    case Some(n) =>
      var idx := n - 1;
      if 0 <= idx < |citations| then citations[idx] else source
    case None => source
  }

  /** A claim's sources list, each entry resolved in place and in order. */
  function ResolveSources(sources: seq<string>, citations: seq<string>): (r: seq<string>)
    ensures |r| == |sources|
    ensures forall i :: 0 <= i < |sources| ==> r[i] == ResolveSource(sources[i], citations)
  {
    if sources == [] then []
    else [ResolveSource(sources[0], citations)] + ResolveSources(sources[1..], citations)
  }

  /** One entry of a parsed `claims` list. `sources` is the claim's `sources` entry when
      the resolver rewrites it (present and truthy), None when it leaves it alone. An
      entry that is not a JSON object is carried as it is. */
  datatype Claim =
    | Claim(fields: map<string, Json>, sources: Option<seq<string>>)
    | NotAnObject(value: Json)

  /** The claim after resolution: only a non-empty `sources` list is rewritten. */
  function ResolvedClaim(c: Claim, citations: seq<string>): Claim {
    match c
    case Claim(fields, Some(ss)) =>
      if ss != [] then Claim(fields, Some(ResolveSources(ss, citations))) else c
    case _ => c
  }

  /** Resolution keeps every other field of a claim, keeps the length and order of its
      sources, and puts in each slot either the original source or a citation. A claim
      without a `sources` list, or with an empty one, is left untouched. */
  lemma ResolvedClaimShape(c: Claim, citations: seq<string>)
    ensures ResolvedClaim(c, citations).Claim? == c.Claim?
    ensures c.Claim? ==> ResolvedClaim(c, citations).fields == c.fields
    ensures c.Claim? ==> ResolvedClaim(c, citations).sources.Some? == c.sources.Some?
    ensures c.Claim? && c.sources.Some? ==>
      var before, after := c.sources.value, ResolvedClaim(c, citations).sources.value;
      |after| == |before| &&
      forall i :: 0 <= i < |before| ==> after[i] == before[i] || after[i] in citations
    ensures !c.Claim? || c.sources.None? || c.sources.value == [] ==> ResolvedClaim(c, citations) == c
  {
  }

  /** The inner loop of the resolver (lines 281-291): builds the new sources list by
      appending one resolved entry per original entry, in order. */
  method ResolveSourceList(sources: seq<string>, citations: seq<string>) returns (updated: seq<string>)
    ensures updated == ResolveSources(sources, citations)
  {
    updated := [];
    for i := 0 to |sources|
      invariant updated == ResolveSources(sources[..i], citations)
    {
      ResolveSourcesAppend(sources[..i], sources[i], citations);
      PrefixExtend(sources, i);
      updated := updated + [ResolveSource(sources[i], citations)];
    }
    assert sources[..|sources|] == sources;
  }

  /** Resolving one more source appends its resolution. */
  lemma ResolveSourcesAppend(sources: seq<string>, source: string, citations: seq<string>)
    ensures ResolveSources(sources + [source], citations)
      == ResolveSources(sources, citations) + [ResolveSource(source, citations)]
  {
    var r := ResolveSources(sources + [source], citations);
    assert (sources + [source])[|sources|] == source;
    assert r == ResolveSources(sources, citations) + [ResolveSource(source, citations)];
  }

  lemma PrefixExtend<T>(s: seq<T>, i: nat)
    requires i < |s|
    ensures s[..i + 1] == s[..i] + [s[i]]
  {
  }

  /** The body of the outer loop (lines 280-292): a claim with a non-empty `sources`
      list gets the list built by the inner loop; any other claim is kept. */
  method ResolveClaim(claim: Claim, citations: seq<string>) returns (resolved: Claim)
    ensures resolved == ResolvedClaim(claim, citations)
  {
    resolved := claim;
    if claim.Claim? && claim.sources.Some? && claim.sources.value != [] {
      var updated := ResolveSourceList(claim.sources.value, citations);
      resolved := claim.(sources := Some(updated));
    }
  }

  /** `_resolve_citations_in_claims` (lines 279-292): rewrites, in place, the sources of
      every claim that has a non-empty `sources` list. */
  method ResolveCitationsInClaims(claims: array<Claim>, citations: seq<string>)
    modifies claims
    ensures forall i :: 0 <= i < claims.Length ==> claims[i] == ResolvedClaim(old(claims[i]), citations)
  {
    for i := 0 to claims.Length
      invariant forall k :: 0 <= k < i ==> claims[k] == ResolvedClaim(old(claims[k]), citations)
      invariant forall k :: i <= k < claims.Length ==> claims[k] == old(claims[k])
    {
      claims[i] := ResolveClaim(claims[i], citations);
    }
  }

  /** A source whose stripped form starts with an in-range marker becomes that citation,
      whatever whitespace precedes the marker and whatever text follows it. */
  lemma ResolvesMarker(source: string, ws: string, zeros: string, n: nat, rest: string, citations: seq<string>)
    requires source == ws + MarkerText(zeros, n) + rest
    requires IsBlank(ws)
    requires forall i :: 0 <= i < |zeros| ==> zeros[i] == '0'
    requires 1 <= n <= |citations|
    ensures ResolveSource(source, citations) == citations[n - 1]
  {
    KeepsMarker(ws, zeros, n, rest);
  }

  /** A marker `[0]` or one past the end of the citations leaves the source verbatim,
      without stripping it. */
  lemma KeepsOutOfRange(source: string, ws: string, zeros: string, n: nat, rest: string, citations: seq<string>)
    requires source == ws + MarkerText(zeros, n) + rest
    requires IsBlank(ws)
    requires forall i :: 0 <= i < |zeros| ==> zeros[i] == '0'
    requires n == 0 || n > |citations|
    ensures ResolveSource(source, citations) == source
  {
    KeepsMarker(ws, zeros, n, rest);
  }

  /** Stripping a source keeps a leading marker intact. */
  lemma KeepsMarker(ws: string, zeros: string, n: nat, rest: string)
    requires IsBlank(ws)
    requires forall i :: 0 <= i < |zeros| ==> zeros[i] == '0'
    ensures LeadingMarker(Strip(ws + MarkerText(zeros, n) + rest)) == Some(n)
  {
    var m := MarkerText(zeros, n);
    assert m[0] == '[' && m[|m| - 1] == ']';
    assert ws + m + rest == ws + (m + rest);
    StripAfterBlank(ws, m + rest);
    TrimEndAfterVisible(m, rest);
    MarkerRoundTrip(zeros, n, TrimEnd(rest));
  }

  /** A source without any `[` is kept verbatim, whatever the citations. */
  lemma KeepsUnbracketed(source: string, citations: seq<string>)
    requires forall i :: 0 <= i < |source| ==> source[i] != '['
    ensures ResolveSource(source, citations) == source
  {
    if Strip(source) != [] {
      var i := StripCharFrom(source, 0);
    }
  }

  /** A source that does not start with a marker once stripped is kept verbatim,
      whatever the citations. */
  lemma KeepsUnmarked(source: string, citations: seq<string>)
    requires forall d: nat :: !MarkerOfLength(Strip(source), d)
    ensures ResolveSource(source, citations) == source
  {
    LeadingMarkerExact(Strip(source));
  }

  /** No citation itself reads as a marker once stripped. */
  predicate Unmarked(citations: seq<string>) {
    forall i :: 0 <= i < |citations| ==> LeadingMarker(Strip(citations[i])).None?
  }

  lemma ResolveSourceIdempotent(source: string, citations: seq<string>)
    requires Unmarked(citations)
    ensures ResolveSource(ResolveSource(source, citations), citations) == ResolveSource(source, citations)
  {
  }

  /** Resolving twice is resolving once, as long as no citation is itself a marker. */
  lemma {:induction false} ResolutionIdempotent(sources: seq<string>, citations: seq<string>)
    requires Unmarked(citations)
    ensures ResolveSources(ResolveSources(sources, citations), citations) == ResolveSources(sources, citations)
  {
    var once := ResolveSources(sources, citations);
    forall i | 0 <= i < |sources|
      ensures ResolveSources(once, citations)[i] == once[i]
    {
      ResolveSourceIdempotent(sources[i], citations);
    }
  }

  /** The same for whole claims. */
  lemma ClaimResolutionIdempotent(c: Claim, citations: seq<string>)
    requires Unmarked(citations)
    ensures ResolvedClaim(ResolvedClaim(c, citations), citations) == ResolvedClaim(c, citations)
  {
    if c.Claim? && c.sources.Some? && c.sources.value != [] {
      ResolutionIdempotent(c.sources.value, citations);
    }
  }

  /** A citation that is itself a marker is followed again by a second pass: the
      condition of ResolutionIdempotent cannot be dropped. */
  lemma MarkedCitationIsFollowedAgain()
    ensures ResolveSource("[1]", ["[2]", "x"]) == "[2]"
    ensures ResolveSource(ResolveSource("[1]", ["[2]", "x"]), ["[2]", "x"]) == "x"
  {
    MarkerLiteral(1, "[1]");
    MarkerLiteral(2, "[2]");
    ResolvesMarker("[1]", "", "", 1, "", ["[2]", "x"]);
    ResolvesMarker("[2]", "", "", 2, "", ["[2]", "x"]);
  }

  /** The marker `[n]` for a one-digit n, spelt out. */
  lemma MarkerLiteral(n: nat, text: string)
    requires n < 10 && text == ['[', ('0' as int + n) as char, ']']
    ensures MarkerText("", n) == text && "" + MarkerText("", n) + "" == text
  {
  }

  /** With no citations, nothing changes. */
  lemma {:induction false} ResolutionWithoutCitations(sources: seq<string>)
    ensures ResolveSources(sources, []) == sources
  {
    forall i | 0 <= i < |sources| ensures ResolveSources(sources, [])[i] == sources[i] {
      assert ResolveSource(sources[i], []) == sources[i];
    }
  }

  /** Worked cases: `[2]` against three citations, and a trailing remark after the
      marker, which is dropped with it. */
  lemma ResolutionExamples()
    ensures ResolveSource("[2]", ["a", "b", "c"]) == "b"
    ensures ResolveSource("[1] extra", ["x"]) == "x"
  {
    MarkerLiteral(2, "[2]");
    ResolvesMarker("[2]", "", "", 2, "", ["a", "b", "c"]);
    TrailingTextExample();
  }

  lemma TrailingTextExample()
    ensures ResolveSource("[1] extra", ["x"]) == "x"
  {
    var source := "[1] extra";
    assert source == "[1]" + " extra";
    MarkerLiteral(1, "[1]");
    ResolvesMarker(source, "", "", 1, " extra", ["x"]);
  }

  /** Worked cases: a marker past the end of three citations, and `[0]`, stay as written. */
  lemma UnresolvedExamples()
    ensures ResolveSource("[5]", ["a", "b", "c"]) == "[5]"
    ensures ResolveSource("[0]", ["a", "b", "c"]) == "[0]"
  {
    OutOfRangeExample();
    ZeroMarkerExample();
  }

  lemma OutOfRangeExample()
    ensures ResolveSource("[5]", ["a", "b", "c"]) == "[5]"
  {
    var source := "[5]";
    MarkerLiteral(5, source);
    KeepsOutOfRange(source, "", "", 5, "", ["a", "b", "c"]);
  }

  lemma ZeroMarkerExample()
    ensures ResolveSource("[0]", ["a", "b", "c"]) == "[0]"
  {
    var source := "[0]";
    MarkerLiteral(0, source);
    KeepsOutOfRange(source, "", "", 0, "", ["a", "b", "c"]);
  }

  /** What iterating a truthy `sources` value yields, as strings: the items of a list
      of strings, or the one-character strings of a string. Anything else raises. */
  function SourceStrings(v: Json): Option<seq<string>> {
    match v
    case JArray(xs) => AsStrings(xs)
    case JString(s) => Some(seq(|s|, i requires 0 <= i < |s| => [s[i]]))
    case _ => None
  }

  /** One item of a parsed `claims` list as the resolver meets it (lines 279-282);
      None where Python raises on it. */
  function ClaimOf(item: Json): Option<Claim> {
    match item
    case JObject(m) =>
      if "sources" !in m || !Truthy(m["sources"]) then Some(Claim(m, None))
      else (match SourceStrings(m["sources"])
            case Some(ss) => Some(Claim(m - {"sources"}, Some(ss)))
            case None => None)
    case JString(s) => if Contains(s, "sources") then None else Some(NotAnObject(item))
    case JArray(xs) => if JString("sources") in xs then None else Some(NotAnObject(item))
    case _ => None
  }

  /** A claim written back as JSON, with `sources` as a list of strings. */
  function ClaimJson(c: Claim): Json {
    match c
    case Claim(m, None) => JObject(m)
    case Claim(m, Some(ss)) => JObject(m["sources" := JArray(JsonStrings(ss))])
    case NotAnObject(v) => v
  }

  /** Reading a claim and writing it back changes nothing, except that a non-empty
      string given as `sources` is turned into the list of its characters. */
  lemma ClaimRoundTrip(item: Json)
    requires ClaimOf(item).Some?
    requires !(item.JObject? && "sources" in item.fields && item.fields["sources"].JString?
               && item.fields["sources"].str != [])
    ensures ClaimJson(ClaimOf(item).value) == item
  {
    if item.JObject? && "sources" in item.fields && Truthy(item.fields["sources"]) {
      var m := item.fields;
      var c := ClaimOf(item).value;
      assert m["sources"].JArray?;
      var back := (m - {"sources"})["sources" := JArray(JsonStrings(c.sources.value))];
      assert back == m;
    }
  }

  /** All items of a `claims` list, or None when Python raises on one of them. */
  function ClaimsOf(items: seq<Json>): (r: Option<seq<Claim>>)
    ensures r.Some? <==> forall i :: 0 <= i < |items| ==> ClaimOf(items[i]).Some?
    ensures r.Some? ==> |r.value| == |items|
    ensures r.Some? ==> forall i :: 0 <= i < |items| ==> ClaimOf(items[i]) == Some(r.value[i])
  {
    if items == [] then Some([])
    else match (ClaimOf(items[0]), ClaimsOf(items[1..]))
      case (Some(c), Some(cs)) => Some([c] + cs)
      case _ => None
  }
}
