/**
 * `FactChecker._parse_response`: the model's answer text is read as JSON, taken
 * from the first ```` ```json ```` fence if there is one, else from the first plain
 * ```` ``` ```` fence, else as a whole. When that does not decode, a fallback record
 * keeps the raw text and whatever follows each `Source:` or `Sources:` label.
 *
 * `json.loads` is the parameter `parse`: None stands for `JSONDecodeError`.
 */
module ResponseParser {
  import opened Wrappers
  import opened Strings
  import opened JsonData

  const JsonFence := "```json"
  const Fence := "```"
  const NoCitationsFound := "No citations found"

  /** Python's `s.split(pat)[1]` for a pattern that occurs in s: the text between
      the first occurrence and the next one, or the end of s. */
  function SecondPiece(s: string, pat: string): (r: string)
    requires Contains(s, pat)
  {
    var i := IndexOf(s, pat).value;
    UpTo(s[i + |pat|..], pat)
  }

  /** The text handed to `json.loads` (lines 306-314). `split(...)[1]` cannot raise
      here, since each branch is taken only when its fence occurs. */
  function Payload(content: string): string {
    if Contains(content, JsonFence) then Strip(UpTo(SecondPiece(content, JsonFence), Fence))
    else if Contains(content, Fence) then Strip(UpTo(SecondPiece(content, Fence), Fence))
    else content
  }

  /** The characters of s include no backtick. */
  predicate NoTicks(s: string) { forall i :: 0 <= i < |s| ==> s[i] != '`' }

  lemma NoTicksConcat(a: string, b: string)
    requires NoTicks(a) && NoTicks(b)
    ensures NoTicks(a + b)
  {
    assert forall i :: |a| <= i < |a + b| ==> (a + b)[i] == b[i - |a|];
  }

  /** Every ```` ```json ```` fence begins with a plain fence. */
  lemma JsonFenceStartsFence(s: string, k: nat)
    ensures OccursAt(s, JsonFence, k) ==> OccursAt(s, Fence, k)
  {
    if k + 7 <= |s| {
      assert s[k..k + 7][..3] == s[k..k + 3];
    }
  }

  /** A ```` ```json ```` fence opens with three backticks. */
  lemma JsonFenceTicks(s: string, k: nat)
    ensures OccursAt(s, JsonFence, k) ==> s[k + 1] == '`' && s[k + 2] == '`'
  {
    if OccursAt(s, JsonFence, k) {
      assert s[k..k + 7][1] == s[k + 1] && s[k..k + 7][2] == s[k + 2];
    }
  }

  /** The fourth character of a ```` ```json ```` fence is `j`. */
  lemma JsonFenceLetter(s: string, k: nat)
    ensures OccursAt(s, JsonFence, k) ==> s[k + 3] == 'j'
  {
    if OccursAt(s, JsonFence, k) {
      assert s[k..k + 7][3] == s[k + 3];
    }
  }

  /** Text without backticks holds no fence of either kind. */
  lemma NoTicksNoFence(s: string)
    requires NoTicks(s)
    ensures !Contains(s, Fence) && !Contains(s, JsonFence)
  {
    MissingFirstChar(s, Fence);
    MissingFirstChar(s, JsonFence);
  }

  /** An occurrence that ends within a lies in a whatever follows a. */
  lemma OccursInPrefix(a: string, b: string, pat: string, k: nat)
    requires k + |pat| <= |a|
    ensures OccursAt(a + b, pat, k) <==> OccursAt(a, pat, k)
  {
    assert (a + b)[k..k + |pat|] == a[k..k + |pat|];
  }

  /** The first fence in `body + "```"` is the appended one: body holds no fence, and
      does not end in backticks that would form one with it. */
  predicate FenceFree(body: string) {
    forall k :: 0 <= k < |body| ==> !OccursAt(body + Fence, Fence, k)
  }

  lemma FenceFreeHasNoFence(body: string)
    requires FenceFree(body)
    ensures !Contains(body, Fence)
  {
    forall k: nat | k + |Fence| <= |body| ensures !OccursAt(body, Fence, k) {
      OccursInPrefix(body, Fence, Fence, k);
    }
  }

  /** Text without a plain fence holds no ```` ```json ```` fence either. */
  lemma NoFenceNoJsonFence(s: string)
    requires !Contains(s, Fence)
    ensures !Contains(s, JsonFence)
  {
    forall k: nat | k + |JsonFence| <= |s| ensures !OccursAt(s, JsonFence, k) {
      JsonFenceStartsFence(s, k);
    }
  }

  /** `split("```")[0]` of a fence-free body, a fence and anything: the body. */
  lemma UpToClosingFence(body: string, post: string)
    requires FenceFree(body)
    ensures UpTo(body + Fence + post, Fence) == body
  {
    var after := body + Fence + post;
    assert after == (body + Fence) + post;
    assert (body + Fence)[|body|..|body| + 3] == Fence;
    OccursInPrefix(body + Fence, post, Fence, |body|);
    forall k | 0 <= k < |body| ensures !OccursAt(after, Fence, k) {
      OccursInPrefix(body + Fence, post, Fence, k);
    }
    assert after[..|body|] == body;
  }

  /** The text between a fence and the closing fence is what is parsed. After a
      ```` ```json ```` fence, the text after the closing fence must not start with a
      backtick: a fourth backtick would make `split("```json")[1]` end one character
      later. */
  lemma ClosedAfterFence(body: string, post: string, pat: string)
    requires FenceFree(body)
    requires pat == Fence || (pat == JsonFence && (post == [] || post[0] != '`'))
    ensures UpTo(UpTo(body + Fence + post, pat), Fence) == body
  {
    UpToClosingFence(body, post);
    FenceFreeHasNoFence(body);
    if pat == JsonFence {
      ClosedAfterJsonFence(body, post);
    }
  }

  /** The ```` ```json ```` case: the first ```` ```json ```` after the body, if any,
      is at or after the closing fence, so cutting there keeps the closing fence. */
  lemma ClosedAfterJsonFence(body: string, post: string)
    requires FenceFree(body) && !Contains(body, Fence)
    requires post == [] || post[0] != '`'
    requires UpTo(body + Fence + post, Fence) == body
    ensures UpTo(UpTo(body + Fence + post, JsonFence), Fence) == body
  {
    var after := body + Fence + post;
    var cut := UpTo(after, JsonFence);
    if Contains(after, JsonFence) {
      var i := IndexOf(after, JsonFence).value;
      assert cut == after[..i];
      JsonFenceStartsFence(after, i);
      if i < |body| {
        OccursInPrefix(body + Fence, post, Fence, i);
        assert false;
      } else if i == |body| {
        assert cut == body;
        assert UpTo(body, Fence) == body;
      } else if i < |body| + 3 {
        ClosingTicks(body, post, i);
        assert false;
      } else {
        var j := i - |body| - 3;
        PrefixIntoLast(body, Fence, post, j);
        assert cut == body + Fence + post[..j];
        UpToClosingFence(body, post[..j]);
      }
    } else {
      assert cut == after;
    }
  }

  /** A ```` ```json ```` that starts inside a closing fence runs into the text after
      it, which then starts with a backtick. */
  lemma ClosingTicks(body: string, post: string, i: nat)
    requires |body| < i < |body| + 3 && OccursAt(body + Fence + post, JsonFence, i)
    ensures post != [] && post[0] == '`'
  {
    var after := body + Fence + post;
    JsonFenceTicks(after, i);
    assert after[|body| + 3] == post[0];
  }

  /** A prefix of a + b + c that reaches into c. */
  lemma PrefixIntoLast<T>(a: seq<T>, b: seq<T>, c: seq<T>, j: nat)
    requires j <= |c|
    ensures (a + b + c)[..|a| + |b| + j] == a + b + c[..j]
  {
  }

  /** Once the first fence of its kind is found at the end of pre, the parsed text is
      read from just after it. */
  lemma FenceAfterPrefix(pre: string, fence: string, rest: string)
    requires fence == JsonFence || fence == Fence
    requires forall k :: 0 <= k < |pre| ==> !OccursAt(pre + fence, fence, k)
    ensures Contains(pre + fence + rest, fence)
    ensures SecondPiece(pre + fence + rest, fence) == UpTo(rest, fence)
  {
    var content := pre + fence + rest;
    OccursInPrefix(pre + fence, rest, fence, |pre|);
    forall k | 0 <= k < |pre| ensures !OccursAt(content, fence, k) {
      OccursInPrefix(pre + fence, rest, fence, k);
    }
    assert content[|pre| + |fence|..] == rest;
  }

  /** A ```` ```json ```` fence takes priority over any plain fences before it: the text
      between the first ```` ```json ```` and the next ```` ``` ```` is what is parsed,
      whatever follows, as long as that does not start with a fourth backtick. */
  lemma JsonFencePayload(pre: string, body: string, post: string)
    requires forall k :: 0 <= k < |pre| ==> !OccursAt(pre + JsonFence, JsonFence, k)
    requires FenceFree(body) && (post == [] || post[0] != '`')
    ensures Payload(pre + JsonFence + body + Fence + post) == Strip(body)
  {
    assert pre + JsonFence + body + Fence + post == pre + JsonFence + (body + Fence + post);
    FenceAfterPrefix(pre, JsonFence, body + Fence + post);
    ClosedAfterFence(body, post, JsonFence);
  }

  /** Without a ```` ```json ```` fence, the text between the first two plain fences is
      what is parsed; later fenced blocks are ignored. */
  lemma PlainFencePayload(pre: string, body: string, post: string)
    requires !Contains(pre + Fence + body + Fence + post, JsonFence)
    requires forall k :: 0 <= k < |pre| ==> !OccursAt(pre + Fence, Fence, k)
    requires FenceFree(body)
    ensures Payload(pre + Fence + body + Fence + post) == Strip(body)
  {
    assert pre + Fence + body + Fence + post == pre + Fence + (body + Fence + post);
    FenceAfterPrefix(pre, Fence, body + Fence + post);
    ClosedAfterFence(body, post, Fence);
  }

  /** A fence that is never closed: everything after it, to the end of the answer, is
      what is parsed. */
  lemma UnclosedFencePayload(pre: string, fence: string, body: string)
    requires fence == JsonFence || (fence == Fence && !Contains(pre + fence + body, JsonFence))
    requires forall k :: 0 <= k < |pre| ==> !OccursAt(pre + fence, fence, k)
    requires !Contains(body, Fence)
    ensures Payload(pre + fence + body) == Strip(body)
  {
    FenceAfterPrefix(pre, fence, body);
    NoFenceNoJsonFence(body);
  }

  /** Why JsonFencePayload excludes a backtick right after the closing fence: when
      "`json" follows it, a second ```` ```json ```` starts one character into the
      closing backticks, and the payload keeps that first backtick. */
  lemma FourthBacktickKept(body: string)
    requires FenceFree(body)
    ensures Payload(JsonFence + body + Fence + "`json") == Strip(body + "`")
  {
    var b1 := body + "`";
    var rest := b1 + JsonFence;
    assert JsonFence + body + Fence + "`json" == [] + JsonFence + rest;
    FenceAfterPrefix([], JsonFence, rest);
    JsonFenceAfterBacktick(body);
    BacktickAfterFenceFree(body);
  }

  /** The first ```` ```json ```` of `body + "````json"` starts at its second backtick. */
  lemma JsonFenceAfterBacktick(body: string)
    requires FenceFree(body)
    ensures UpTo(body + "`" + JsonFence, JsonFence) == body + "`"
  {
    var b1 := body + "`";
    var rest := b1 + JsonFence;
    assert rest[|b1|..|b1| + 7] == JsonFence && rest[..|b1|] == b1;
    forall k | 0 <= k < |b1| ensures !OccursAt(rest, JsonFence, k) {
      JsonFenceStartsFence(rest, k);
      JsonFenceLetter(rest, k);
      if k < |body| {
        assert rest == (body + Fence) + "`json";
        OccursInPrefix(body + Fence, "`json", Fence, k);
      }
    }
    assert OccursAt(rest, JsonFence, |b1|);
    var i := IndexOf(rest, JsonFence).value;
    assert i == |b1|;
  }

  /** One backtick after a fence-free body does not make a fence. */
  lemma BacktickAfterFenceFree(body: string)
    requires FenceFree(body)
    ensures UpTo(body + "`", Fence) == body + "`"
  {
    var b1 := body + "`";
    forall k: nat | k + |Fence| <= |b1| ensures !OccursAt(b1, Fence, k) {
      assert b1 + "``" == body + Fence;
      OccursInPrefix(b1, "``", Fence, k);
    }
  }

  /** Without any fence, the whole answer, unstripped, is what is parsed. */
  lemma UnfencedPayload(content: string)
    requires !Contains(content, Fence)
    ensures Payload(content) == content
  {
    NoFenceNoJsonFence(content);
  }

  /** The length of the label `Sources?:` at the start of t, or 0. The optional `s` is
      tried first, as the greedy `?` does. */
  function TagLength(t: string): (n: nat)
    ensures n == 0 || n == 7 || n == 8
    ensures n == 8 <==> |t| >= 8 && t[..8] == "Sources:"
    ensures n == 7 <==> |t| >= 7 && t[..7] == "Source:"
    ensures n > 0 ==> t[0] == 'S'
  {
    if |t| >= 8 && t[..8] == "Sources:" then
      assert t[..7][6] == t[..8][6] == 's';
      8
    else if |t| >= 7 && t[..7] == "Source:" then 7
    else 0
  }

  /** The last position in [lo, hi) that does not hold a newline. */
  function LastNonNewline(t: string, lo: nat, hi: nat): (r: Option<nat>)
    requires lo <= hi <= |t|
    ensures r.Some? ==> lo <= r.value < hi && t[r.value] != '\n'
    ensures r.Some? ==> forall k :: r.value < k < hi ==> t[k] == '\n'
    ensures r.None? ==> forall k :: lo <= k < hi ==> t[k] == '\n'
    decreases hi - lo
  {
    if hi == lo then None
    else if t[hi - 1] != '\n' then Some(hi - 1)
    else LastNonNewline(t, lo, hi - 1)
  }

  /** The end of the line that position `from` is on: where `.+` stops. */
  function LineEnd(t: string, from: nat): (e: nat)
    requires from <= |t|
    ensures from <= e <= |t| && (e < |t| ==> t[e] == '\n')
    ensures forall k :: from <= k < e ==> t[k] != '\n'
    decreases |t| - from
  {
    if from == |t| || t[from] == '\n' then from else LineEnd(t, from + 1)
  }

  /** Where the group `(.+)` of `Sources?:\s*(.+)` starts, for a match at the start of
      t. `\s*` first takes the whole whitespace run; when nothing but that run follows,
      it gives back characters until `.` can take one, which must not be a newline. */
  function GroupStart(t: string): (r: Option<nat>)
    ensures r.Some? ==> TagLength(t) > 0 && TagLength(t) <= r.value < |t| && t[r.value] != '\n'
  {
    var tag := TagLength(t);
    if tag == 0 then None
    else
      var w := SpaceRun(t[tag..]);
      if tag + w < |t| then Some(tag + w)
      else LastNonNewline(t, tag, |t|)
  }

  /** `re.findall(r"Sources?:\s*(.+)", t)`: the groups of successive non-overlapping
      matches, scanning left to right. */
  function SourceCaptures(t: string): (r: seq<string>)
    ensures forall i :: 0 <= i < |r| ==> r[i] != [] && forall k :: 0 <= k < |r[i]| ==> r[i][k] != '\n'
    decreases |t|
  {
    if t == [] then []
    else match GroupStart(t)
      case Some(s) =>
        var e := LineEnd(t, s);
        assert forall k :: 0 <= k < e - s ==> t[s..e][k] == t[s + k];
        [t[s..e]] + SourceCaptures(t[e..])
      case None => SourceCaptures(t[1..])
  }

  /** The record returned when the answer does not decode (lines 316-319). */
  function FallbackRecord(content: string): (r: Json) {
    var captures := SourceCaptures(content);
    JObject(map[
      "raw_response" := JString(content),
      "extracted_citations" := if captures != [] then JArray(JsonStrings(captures)) else JString(NoCitationsFound)
    ])
  }

  /** `_parse_response` (lines 294-319). */
  function ParseResponse(content: string, parse: string -> Option<Json>): (r: Json) {
    match parse(Payload(content))
    case Some(j) => j
    case None => FallbackRecord(content)
  }

  /** The result is the decoded payload when it decodes, and otherwise a record whose
      `raw_response` is the whole answer, unstripped, and whose `extracted_citations` is
      a non-empty list of one-line captures or the text "No citations found". */
  lemma ParsedOrFallback(content: string, parse: string -> Option<Json>)
    ensures parse(Payload(content)).Some? ==> ParseResponse(content, parse) == parse(Payload(content)).value
    ensures parse(Payload(content)).None? ==>
      var r := ParseResponse(content, parse);
      r.JObject? && r.fields.Keys == {"raw_response", "extracted_citations"} &&
      r.fields["raw_response"] == JString(content) &&
      (r.fields["extracted_citations"] == JString(NoCitationsFound) <==> SourceCaptures(content) == []) &&
      (SourceCaptures(content) != [] ==>
        r.fields["extracted_citations"] == JArray(JsonStrings(SourceCaptures(content)))) &&
      (r.fields["extracted_citations"].JArray? ==>
        var xs := r.fields["extracted_citations"].items;
        xs != [] && forall i :: 0 <= i < |xs| ==> xs[i].JString? && xs[i].str != [] && '\n' !in xs[i].str)
  {
    if parse(Payload(content)).None? {
      var captures := SourceCaptures(content);
      var r := ParseResponse(content, parse);
      if captures != [] {
        var xs := JsonStrings(captures);
        assert r.fields["extracted_citations"] == JArray(xs);
        forall i | 0 <= i < |xs| ensures xs[i].JString? && xs[i].str != [] && '\n' !in xs[i].str {
          assert xs[i].str == captures[i];
        }
      }
    }
  }

  /** Text that never starts a label contributes no captures. */
  lemma {:induction false} NoLabelSkipped(prefix: string, tail: string)
    requires forall i :: 0 <= i < |prefix| ==> prefix[i] != 'S'
    ensures SourceCaptures(prefix + tail) == SourceCaptures(tail)
  {
    if prefix != [] {
      var t := prefix + tail;
      assert t[0] == prefix[0];
      assert t[1..] == prefix[1..] + tail;
      NoLabelSkipped(prefix[1..], tail);
    } else {
      assert prefix + tail == tail;
    }
  }

  /** An answer without the letter `S` has nothing to capture. */
  lemma NoLabelNoCaptures(content: string)
    requires forall i :: 0 <= i < |content| ==> content[i] != 'S'
    ensures SourceCaptures(content) == []
  {
    NoLabelSkipped(content, []);
    assert content + [] == content;
  }

  lemma {:induction false} SpaceRunAfterBlank(ws: string, y: string)
    requires IsBlank(ws) && y != [] && !IsSpace(y[0])
    ensures SpaceRun(ws + y) == |ws|
  {
    if ws != [] {
      assert (ws + y)[1..] == ws[1..] + y;
      SpaceRunAfterBlank(ws[1..], y);
    } else {
      assert ws + y == y;
    }
  }

  /** `.+` run from position s over n characters that are not newlines, up to a
      newline or the end, stops after those n characters. */
  lemma {:induction false} LineEndAfter(t: string, s: nat, n: nat)
    requires s + n <= |t|
    requires forall k :: s <= k < s + n ==> t[k] != '\n'
    requires s + n == |t| || t[s + n] == '\n'
    ensures LineEnd(t, s) == s + n
    decreases n
  {
    if n > 0 {
      LineEndAfter(t, s + 1, n - 1);
    }
  }

  /** The label at the start of a line is recognised with its full length. */
  lemma TagAt(tag: string, u: string)
    requires tag == "Source:" || tag == "Sources:"
    ensures TagLength(tag + u) == |tag|
  {
    var t := tag + u;
    assert t[..|tag|] == tag;
    if |tag| == 7 && |t| >= 8 {
      assert t[..8][6] == ':';
    }
  }

  /** The group starts after the label and its whitespace run when something follows. */
  lemma GroupStartAt(t: string, n: nat, w: nat)
    requires 0 < n <= |t| && TagLength(t) == n
    requires SpaceRun(t[n..]) == w && n + w < |t|
    ensures GroupStart(t) == Some(n + w)
  {
  }

  /** After a label and blanks, the group starts at the first visible character. */
  lemma GroupStartAfterLabel(tag: string, ws: string, y: string)
    requires 0 < |tag| && TagLength(tag + (ws + y)) == |tag|
    requires IsBlank(ws) && y != [] && !IsSpace(y[0])
    ensures GroupStart(tag + (ws + y)) == Some(|tag| + |ws|)
  {
    var u := ws + y;
    var t := tag + u;
    assert t[|tag|..] == u;
    SpaceRunAfterBlank(ws, y);
    GroupStartAt(t, |tag|, |ws|);
  }

  /** A line without newlines, followed by a newline or nothing, ends where it seems to. */
  lemma LineEndOfLine(t: string, s: nat, x: string, rest: string)
    requires s <= |t| && t[s..] == x + rest
    requires forall k :: 0 <= k < |x| ==> x[k] != '\n'
    requires rest == [] || rest[0] == '\n'
    ensures LineEnd(t, s) == s + |x|
  {
    forall k | s <= k < s + |x| ensures t[k] != '\n' {
      assert t[k] == t[s..][k - s];
    }
    if rest != [] {
      assert t[s + |x|] == t[s..][|x|];
    }
    LineEndAfter(t, s, |x|);
  }

  /** One step of the scan: the group found at the start of t, then the rest of t. */
  lemma CapturesAt(t: string, s: nat, e: nat)
    requires GroupStart(t) == Some(s) && LineEnd(t, s) == e
    ensures SourceCaptures(t) == [t[s..e]] + SourceCaptures(t[e..])
  {
  }

  /** The pieces of a labelled line, seen from where its group starts. */
  lemma LinePieces(pre: string, x: string, rest: string)
    ensures (pre + x + rest)[|pre|..] == x + rest
    ensures (pre + x + rest)[|pre|..|pre| + |x|] == x
    ensures (pre + x + rest)[|pre| + |x|..] == rest
  {
  }

  /** A label, blanks, then text up to the end of its line: the text is captured, the
      blanks are not, and scanning resumes at the newline. */
  lemma SourceLine(tag: string, ws: string, x: string, rest: string)
    requires tag == "Source:" || tag == "Sources:"
    requires IsBlank(ws)
    requires x != [] && !IsSpace(x[0]) && forall k :: 0 <= k < |x| ==> x[k] != '\n'
    requires rest == [] || rest[0] == '\n'
    ensures SourceCaptures(tag + ws + x + rest) == [x] + SourceCaptures(rest)
  {
    var pre := tag + ws;
    var t := pre + x + rest;
    assert t == tag + (ws + (x + rest));
    TagAt(tag, ws + (x + rest));
    GroupStartAfterLabel(tag, ws, x + rest);
    LinePieces(pre, x, rest);
    LineEndOfLine(t, |pre|, x, rest);
    CapturesAt(t, |pre|, |pre| + |x|);
  }

  /** Text holding exactly one label, then blanks, then one line: that line is the one
      capture. */
  lemma SingleSourceCaptures(prefix: string, tag: string, ws: string, x: string)
    requires forall i :: 0 <= i < |prefix| ==> prefix[i] != 'S'
    requires tag == "Source:" || tag == "Sources:"
    requires IsBlank(ws)
    requires x != [] && !IsSpace(x[0]) && forall k :: 0 <= k < |x| ==> x[k] != '\n'
    ensures SourceCaptures(prefix + tag + ws + x) == [x]
  {
    var line := tag + ws + x + [];
    assert prefix + tag + ws + x == prefix + line;
    NoLabelSkipped(prefix, line);
    SourceLine(tag, ws, x, []);
    assert SourceCaptures([]) == [];
  }

  /** An answer with no fence whose only label is one `Source:` line, and which does
      not decode: the fallback keeps it whole and captures the rest of that line. */
  lemma SingleSourceFallback(parse: string -> Option<Json>, prefix: string, tag: string, ws: string, x: string)
    requires !Contains(prefix + tag + ws + x, Fence) && parse(prefix + tag + ws + x).None?
    requires forall i :: 0 <= i < |prefix| ==> prefix[i] != 'S'
    requires tag == "Source:" || tag == "Sources:"
    requires IsBlank(ws)
    requires x != [] && !IsSpace(x[0]) && forall k :: 0 <= k < |x| ==> x[k] != '\n'
    ensures ParseResponse(prefix + tag + ws + x, parse) == JObject(map[
      "raw_response" := JString(prefix + tag + ws + x),
      "extracted_citations" := JArray([JString(x)])])
  {
    var content := prefix + tag + ws + x;
    UnfencedPayload(content);
    SingleSourceCaptures(prefix, tag, ws, x);
    assert JsonStrings([x]) == [JString(x)];
  }

  /** The same for a concrete answer. */
  lemma FallbackExample(parse: string -> Option<Json>, content: string)
    requires content == "no json here, Source: http://a.com and more text"
    requires parse(content).None?
    ensures ParseResponse(content, parse) == JObject(map[
      "raw_response" := JString(content),
      "extracted_citations" := JArray([JString("http://a.com and more text")])])
  {
    var prefix, tag, ws, x := "no json here, ", "Source:", " ", "http://a.com and more text";
    ExampleText(prefix, tag, ws, x);
    ExamplePieces(prefix, tag, ws, x);
    SingleSourceFallback(parse, prefix, tag, ws, x);
  }

  lemma ExampleText(prefix: string, tag: string, ws: string, x: string)
    requires prefix == "no json here, " && tag == "Source:" && ws == " " && x == "http://a.com and more text"
    ensures prefix + tag + ws + x == "no json here, Source: http://a.com and more text"
  {
  }

  lemma ExamplePieces(prefix: string, tag: string, ws: string, x: string)
    requires prefix == "no json here, " && tag == "Source:" && ws == " " && x == "http://a.com and more text"
    ensures !Contains(prefix + tag + ws + x, Fence)
    ensures forall i :: 0 <= i < |prefix| ==> prefix[i] != 'S'
    ensures IsBlank(ws) && x != [] && !IsSpace(x[0]) && forall k :: 0 <= k < |x| ==> x[k] != '\n'
  {
    assert NoTicks(prefix) && NoTicks(tag) && NoTicks(ws) && NoTicks(x);
    NoTicksConcat(prefix, tag);
    NoTicksConcat(prefix + tag, ws);
    NoTicksConcat(prefix + tag + ws, x);
    NoTicksNoFence(prefix + tag + ws + x);
  }
}
