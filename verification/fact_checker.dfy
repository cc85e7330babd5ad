/**
 * The `FactChecker` class: its construction from an API key, and `check_claim`, which
 * builds a chat request for the model API, sends it, and turns the reply into the
 * fact-check result, resolving `[n]` citation markers in the claims it finds there.
 *
 * The HTTP call is the parameter `api`, whose outcome says whether the request failed,
 * whether the reply was not JSON, or what the reply held; `json.loads` is `parse`.
 */
module FactChecking {
  import opened Wrappers
  import opened Strings
  import opened JsonData
  import opened Citations
  import opened ResponseParser
  import opened Language

  const ApiUrl := "https://api.perplexity.ai/chat/completions"
  const DefaultModel := "sonar-pro"
  const StructuredOutputModels: seq<string> := ["sonar", "sonar-pro", "sonar-reasoning", "sonar-reasoning-pro"]

  /** `model in STRUCTURED_OUTPUT_MODELS`: only a string can equal a listed name. */
  predicate SupportsStructuredOutput(model: Json) {
    model.JString? && model.str in StructuredOutputModels
  }

  datatype Message = Message(role: string, content: string)

  /** The request `check_claim` posts. `jsonSchema` records whether `response_format`
      (the JSON schema of a fact-check result) was added to the body. */
  datatype ChatRequest = ChatRequest(
    url: string,
    authorization: string,
    model: Json,
    messages: seq<Message>,
    jsonSchema: bool)

  /** The first entry of the reply's `choices`: with or without a `message`. Its
      `content` is None when it is missing or not a string. */
  datatype Choice = WithoutMessage | WithMessage(content: Option<string>)

  /** The decoded reply: its `citations` (empty when absent) and its `choices`
      (None when absent). */
  datatype Envelope = Envelope(citations: seq<string>, choices: Option<seq<Choice>>)

  /** What `requests.post`, `raise_for_status` and `response.json()` together yield. */
  datatype ApiOutcome =
    | RequestFailed(reason: string)
    | ReplyNotJson
    | Replied(reply: Envelope)

  /** Which `{"error": ...}` dictionary `check_claim` returns. */
  datatype ErrorKind =
    | EmptyInput
    | StructuredOutputUnparsable
    | UnexpectedResponseFormat
    | ApiRequestFailed(reason: string)
    | ApiReplyNotJson
    | UnexpectedError

  /** The `raw_response` an error dictionary carries, if any. */
  datatype Raw = NoRaw | RawContent(content: string) | RawReply(reply: Envelope)

  datatype CheckResult = Answer(value: Json) | Failure(kind: ErrorKind, raw: Raw)

  /** `api_key or os.environ.get("PPLX_API_KEY", "")`: an empty explicit key counts as
      none. The empty result is the missing key. */
  function ApiKeyFrom(explicitKey: Option<string>, environmentKey: Option<string>): string {
    if explicitKey.Some? && explicitKey.value != [] then explicitKey.value
    else if environmentKey.Some? then environmentKey.value
    else ""
  }

  /** The opening of the user prompt (line 212). */
  const PromptHead := "Fact check the following text and identify any false or misleading claims:\n\n"

  /** The opening of the language instruction (line 210). */
  const InstructionLead := "\n\n🚨 CRITICAL: The input text is in "

  /** The rest of the language instruction, which names the language twice more. */
  function InstructionRest(name: string): string {
    ". You MUST respond entirely in " + name
    + ". Do NOT use any other language in your response. Every word of your summary and explanation must be in "
    + name + "."
  }

  /** The instruction appended to the user prompt (line 210). */
  function LanguageInstruction(language: Language): string {
    InstructionLead + Name(language) + InstructionRest(Name(language))
  }

  /** The user prompt of line 212: the request, the text, and the language instruction. */
  function UserPrompt(text: string): string {
    PromptHead + text + LanguageInstruction(DetectLanguage(text))
  }

  /** The request of lines 212-233. */
  function BuildRequest(apiKey: string, systemPrompt: string, text: string, model: Json, structured: Json): ChatRequest {
    ChatRequest(
      ApiUrl,
      "Bearer " + apiKey,
      model,
      [Message("system", systemPrompt), Message("user", UserPrompt(text))],
      SupportsStructuredOutput(model) && Truthy(structured))
  }

  /** The resolver applied to the value of `parsed["claims"]`, following what Python's
      `for claim in claims` does with each kind of value; None where it raises. A list
      is resolved claim by claim; iterating a string yields one-character strings,
      none of which holds "sources"; iterating a dictionary yields its keys, and a key
      holding "sources" is then indexed by a string, which raises. */
  function ResolvedClaimsValue(v: Json, citations: seq<string>): Option<Json> {
    match v
    case JArray(items) =>
      (match ClaimsOf(items)
       case Some(cs) => Some(JArray(ResolvedClaimsJson(cs, citations)))
       case None => None)
    case JString(_) => Some(v)
    case JObject(m) => if exists k :: k in m && Contains(k, "sources") then None else Some(v)
    case _ => None
  }

  /** Each claim resolved and written back as JSON, in order. */
  function ResolvedClaimsJson(cs: seq<Claim>, citations: seq<string>): (r: seq<Json>)
    ensures |r| == |cs|
    ensures forall i :: 0 <= i < |cs| ==> r[i] == ClaimJson(ResolvedClaim(cs[i], citations))
  {
    seq(|cs|, i requires 0 <= i < |cs| => ClaimJson(ResolvedClaim(cs[i], citations)))
  }

  /** Lines 246-248 and 254-256: `if api_citations and "claims" in parsed`, then resolve
      `parsed["claims"]` in place. `in` on a list is membership and on a string is a
      substring test; on other values it raises, as does indexing a list or a string
      by "claims". */
  function AfterResolution(parsed: Json, citations: seq<string>): CheckResult {
    if citations == [] then Answer(parsed)
    else match parsed
      case JObject(m) =>
        if "claims" !in m then Answer(parsed)
        else (match ResolvedClaimsValue(m["claims"], citations)
              case Some(v) => Answer(JObject(m["claims" := v]))
              case None => Failure(UnexpectedError, NoRaw))
      case JArray(xs) => if JString("claims") in xs then Failure(UnexpectedError, NoRaw) else Answer(parsed)
      case JString(s) => if Contains(s, "claims") then Failure(UnexpectedError, NoRaw) else Answer(parsed)
      case _ => Failure(UnexpectedError, NoRaw)
  }

  /** Lines 241-258: the reply's first choice decides between the error for an
      unexpected format and one of the two parse paths. */
  function Dispatch(reply: Envelope, structured: bool, parse: string -> Option<Json>): CheckResult {
    if reply.choices.Some? && reply.choices.value != [] && reply.choices.value[0].WithMessage? then
      match reply.choices.value[0].content
      case None => Failure(UnexpectedError, NoRaw)
      case Some(content) =>
        if structured then
          (match parse(content)
           case Some(parsed) => AfterResolution(parsed, reply.citations)
           case None => Failure(StructuredOutputUnparsable, RawContent(content)))
        else AfterResolution(ParseResponse(content, parse), reply.citations)
    else Failure(UnexpectedResponseFormat, RawReply(reply))
  }

  /** `check_claim` (lines 193-269) as a function of its inputs and collaborators. */
  function CheckClaimResult(
    apiKey: string, systemPrompt: string, text: string, model: Json, structured: Json,
    api: ChatRequest -> ApiOutcome, parse: string -> Option<Json>): CheckResult
  {
    if Strip(text) == [] then Failure(EmptyInput, NoRaw)
    else
      var request := BuildRequest(apiKey, systemPrompt, text, model, structured);
      OutcomeResult(api(request), request.jsonSchema, parse)
  }

  /** Lines 235-268: the error dictionaries for a failed call or a reply that is not
      JSON, and otherwise the dispatch on the reply. */
  function OutcomeResult(outcome: ApiOutcome, structured: bool, parse: string -> Option<Json>): CheckResult {
    match outcome
    case RequestFailed(reason) => Failure(ApiRequestFailed(reason), NoRaw)
    case ReplyNotJson => Failure(ApiReplyNotJson, NoRaw)
    case Replied(reply) => Dispatch(reply, structured, parse)
  }

  /** Resolution of a parsed result as the source performs it: the claims are copied
      into an array, rewritten in place by the resolver, and written back. */
  method ResolveParsed(parsed: Json, citations: seq<string>) returns (result: CheckResult)
    ensures result == AfterResolution(parsed, citations)
  {
    if citations == [] || !parsed.JObject? || "claims" !in parsed.fields
       || !parsed.fields["claims"].JArray? || ClaimsOf(parsed.fields["claims"].items).None? {
      return AfterResolution(parsed, citations);
    }
    var m := parsed.fields;
    var cs := ClaimsOf(m["claims"].items).value;
    var claims := new Claim[|cs|](i requires 0 <= i < |cs| => cs[i]);
    ResolveCitationsInClaims(claims, citations);
    var written := seq(claims.Length, i requires 0 <= i < claims.Length reads claims => ClaimJson(claims[i]));
    assert written == ResolvedClaimsJson(cs, citations);
    result := Answer(JObject(m["claims" := JArray(written)]));
  }

  /** Lines 241-258, step by step. */
  method DispatchReply(reply: Envelope, structured: bool, parse: string -> Option<Json>)
    returns (result: CheckResult)
    ensures result == Dispatch(reply, structured, parse)
  {
    var choices := reply.choices;
    if choices.Some? && choices.value != [] && choices.value[0].WithMessage? {
      var content := choices.value[0].content;
      if content.None? {
        result := Failure(UnexpectedError, NoRaw);
      } else if structured {
        var parsed := parse(content.value);
        if parsed.None? {
          result := Failure(StructuredOutputUnparsable, RawContent(content.value));
        } else {
          result := ResolveParsed(parsed.value, reply.citations);
        }
      } else {
        result := ResolveParsed(ParseResponse(content.value, parse), reply.citations);
      }
    } else {
      result := Failure(UnexpectedResponseFormat, RawReply(reply));
    }
  }

  /** Lines 235-268, step by step: the call, then the error dictionaries for a failed
      call or a reply that is not JSON, and otherwise the dispatch on the reply. */
  method SendRequest(request: ChatRequest, api: ChatRequest -> ApiOutcome, parse: string -> Option<Json>)
    returns (result: CheckResult)
    ensures result == OutcomeResult(api(request), request.jsonSchema, parse)
  {
    var outcome := api(request);
    if outcome.RequestFailed? {
      result := Failure(ApiRequestFailed(outcome.reason), NoRaw);
    } else if outcome.ReplyNotJson? {
      result := Failure(ApiReplyNotJson, NoRaw);
    } else {
      result := DispatchReply(outcome.reply, request.jsonSchema, parse);
    }
  }

  class FactChecker {
    const apiKey: string
    const systemPrompt: string

    /** Lines 45-51, once a key has been found. */
    constructor (apiKey: string, systemPrompt: string)
      requires apiKey != []
      ensures this.apiKey == apiKey && this.systemPrompt == systemPrompt
    {
      this.apiKey := apiKey;
      this.systemPrompt := systemPrompt;
    }

    /** `FactChecker(api_key)`: null stands for the `ValueError` raised when neither the
        argument nor the environment supplies a key. */
    static method Create(explicitKey: Option<string>, environmentKey: Option<string>, systemPrompt: string)
      returns (checker: FactChecker?)
      ensures checker == null <==> ApiKeyFrom(explicitKey, environmentKey) == []
      ensures checker != null ==> fresh(checker) && checker.apiKey == ApiKeyFrom(explicitKey, environmentKey)
      ensures checker != null ==> checker.systemPrompt == systemPrompt
    {
      var key := ApiKeyFrom(explicitKey, environmentKey);
      if key == [] {
        return null;
      }
      checker := new FactChecker(key, systemPrompt);
    }

    /** `check_claim`, step by step: the guard, the request, the call, and the dispatch. */
    method CheckClaim(text: string, model: Json, structured: Json,
                      api: ChatRequest -> ApiOutcome, parse: string -> Option<Json>)
      returns (result: CheckResult)
      ensures result == CheckClaimResult(apiKey, systemPrompt, text, model, structured, api, parse)
    {
      if Strip(text) == [] {
        return Failure(EmptyInput, NoRaw);
      }
      var request := BuildRequest(apiKey, systemPrompt, text, model, structured);
      result := SendRequest(request, api, parse);
    }
  }
}

/** Properties of `check_claim` and of the resolution step it ends with. */
module FactCheckingProperties {
  import opened Wrappers
  import opened Strings
  import opened JsonData
  import opened Citations
  import opened ResponseParser
  import opened Language
  import opened FactChecking

  /** A key is missing exactly when neither the argument nor the environment gives a
      non-empty one; a non-empty argument wins over the environment. */
  lemma MissingKey(explicitKey: Option<string>, environmentKey: Option<string>)
    ensures ApiKeyFrom(explicitKey, environmentKey) == [] <==>
      (explicitKey.None? || explicitKey.value == []) && (environmentKey.None? || environmentKey.value == [])
    ensures explicitKey.Some? && explicitKey.value != [] ==> ApiKeyFrom(explicitKey, environmentKey) == explicitKey.value
  {
  }

  /** The default model may use structured output. */
  lemma DefaultModelIsStructured()
    ensures SupportsStructuredOutput(JString(DefaultModel))
  {
    assert StructuredOutputModels[1] == DefaultModel;
  }

  /** The allow-list holds exactly the four Sonar models, and only as strings. */
  lemma StructuredGate(model: Json)
    ensures SupportsStructuredOutput(model) <==>
      model == JString("sonar") || model == JString("sonar-pro") || model == JString("sonar-reasoning")
      || model == JString("sonar-reasoning-pro")
  {
    if SupportsStructuredOutput(model) {
      var i :| 0 <= i < |StructuredOutputModels| && StructuredOutputModels[i] == model.str;
      assert i == 0 || i == 1 || i == 2 || i == 3;
    }
    if model == JString("sonar") { assert StructuredOutputModels[0] == model.str; }
    if model == JString("sonar-pro") { assert StructuredOutputModels[1] == model.str; }
    if model == JString("sonar-reasoning") { assert StructuredOutputModels[2] == model.str; }
    if model == JString("sonar-reasoning-pro") { assert StructuredOutputModels[3] == model.str; }
  }

  /** The user prompt's text and the language name in its instruction both occur in
      it, whatever the fixed wording around them. */
  lemma PromptPieces(head: string, text: string, lead: string, name: string, rest: string)
    ensures Contains(head + text + (lead + name + rest), text)
    ensures Contains(head + text + (lead + name + rest), name)
  {
    var s := head + text + (lead + name + rest);
    assert s[|head|..|head| + |text|] == text;
    assert OccursAt(s, text, |head|);
    var k := |head| + |text| + |lead|;
    assert s[k..k + |name|] == name;
    assert OccursAt(s, name, k);
  }

  /** The user prompt contains the text and names the language detected in it. */
  lemma PromptCarriesText(text: string)
    ensures Contains(UserPrompt(text), text)
    ensures Contains(UserPrompt(text), Name(DetectLanguage(text)))
  {
    var name := Name(DetectLanguage(text));
    PromptPieces(PromptHead, text, InstructionLead, name, InstructionRest(name));
  }

  /** The request puts the system prompt first and then a user message that contains
      the text and names the language detected in it. The schema is asked for exactly
      when the model passes the gate and the flag is truthy. */
  lemma RequestCarriesText(apiKey: string, systemPrompt: string, text: string, model: Json, structured: Json)
    ensures var r := BuildRequest(apiKey, systemPrompt, text, model, structured);
      |r.messages| == 2 && r.messages[0].content == systemPrompt &&
      Contains(r.messages[1].content, text) &&
      Contains(r.messages[1].content, Name(DetectLanguage(text))) &&
      (r.jsonSchema <==> SupportsStructuredOutput(model) && Truthy(structured))
  {
    PromptCarriesText(text);
  }

  /** Text that is empty or all whitespace is refused before any request is built,
      and only such text is refused that way. */
  lemma EmptyTextRejected(
    apiKey: string, systemPrompt: string, text: string, model: Json, structured: Json,
    api: ChatRequest -> ApiOutcome, parse: string -> Option<Json>)
    ensures CheckClaimResult(apiKey, systemPrompt, text, model, structured, api, parse) == Failure(EmptyInput, NoRaw)
      <==> IsBlank(text)
  {
    StripEmptyIffBlank(text);
    if Strip(text) != [] {
      OutcomeKinds(BuildRequest(apiKey, systemPrompt, text, model, structured), api, parse);
    }
  }

  /** Once a request is sent, the empty-input error can no longer occur. */
  lemma OutcomeKinds(request: ChatRequest, api: ChatRequest -> ApiOutcome, parse: string -> Option<Json>)
    ensures OutcomeResult(api(request), request.jsonSchema, parse) != Failure(EmptyInput, NoRaw)
  {
    if api(request).Replied? {
      DispatchKinds(api(request).reply, request.jsonSchema, parse);
    }
  }

  /** Resolution either succeeds or fails with the generic error. */
  lemma ResolutionKinds(parsed: Json, citations: seq<string>)
    ensures AfterResolution(parsed, citations).Failure? ==>
      AfterResolution(parsed, citations) == Failure(UnexpectedError, NoRaw)
  {
  }

  /** The errors the dispatch on a reply can produce, with the raw value each carries. */
  lemma DispatchKinds(reply: Envelope, structured: bool, parse: string -> Option<Json>)
    ensures var r := Dispatch(reply, structured, parse);
      r.Failure? ==>
        r == Failure(UnexpectedResponseFormat, RawReply(reply))
        || r == Failure(UnexpectedError, NoRaw)
        || (structured && r.kind == StructuredOutputUnparsable && r.raw.RawContent?)
  {
    if reply.choices.Some? && reply.choices.value != [] && reply.choices.value[0].WithMessage?
       && reply.choices.value[0].content.Some? {
      var content := reply.choices.value[0].content.value;
      if structured && parse(content).Some? {
        ResolutionKinds(parse(content).value, reply.citations);
      } else if !structured {
        ResolutionKinds(ParseResponse(content, parse), reply.citations);
      }
    }
  }

  /** The error for an unexpected format comes exactly from a reply without a first
      choice holding a message, and carries the whole reply. */
  lemma UnexpectedFormat(reply: Envelope, structured: bool, parse: string -> Option<Json>)
    ensures Dispatch(reply, structured, parse).Failure?
      && Dispatch(reply, structured, parse).kind == UnexpectedResponseFormat
      <==> !(reply.choices.Some? && reply.choices.value != [] && reply.choices.value[0].WithMessage?)
    ensures Dispatch(reply, structured, parse).Failure?
      && Dispatch(reply, structured, parse).kind == UnexpectedResponseFormat
      ==> Dispatch(reply, structured, parse).raw == RawReply(reply)
  {
    DispatchKinds(reply, structured, parse);
  }

  /** With structured output, content that does not decode is an error carrying the
      content; without it, that error never occurs, because the fallback always yields
      a value. */
  lemma StructuredParseFailure(reply: Envelope, structured: bool, parse: string -> Option<Json>, content: string)
    requires reply.choices.Some? && reply.choices.value != []
    requires reply.choices.value[0] == WithMessage(Some(content))
    ensures structured && parse(content).None? ==>
      Dispatch(reply, structured, parse) == Failure(StructuredOutputUnparsable, RawContent(content))
    ensures !structured ==>
      !(Dispatch(reply, structured, parse).Failure? && Dispatch(reply, structured, parse).kind == StructuredOutputUnparsable)
  {
    DispatchKinds(reply, structured, parse);
  }

  /** Without citations, the parsed value is the answer, untouched. */
  lemma NoCitationsNoChange(reply: Envelope, structured: bool, parse: string -> Option<Json>, content: string)
    requires reply.choices.Some? && reply.choices.value != []
    requires reply.choices.value[0] == WithMessage(Some(content))
    requires reply.citations == []
    ensures structured && parse(content).Some? ==> Dispatch(reply, structured, parse) == Answer(parse(content).value)
    ensures !structured ==> Dispatch(reply, structured, parse) == Answer(ParseResponse(content, parse))
  {
  }

  /** The other half of the gate at lines 250 and 258: with or without citations, a
      parsed value in which `"claims"` does not occur (an object without that key, a
      list without that string, a string without that substring) is returned as it is. */
  lemma ClaimlessUnchanged(parsed: Json, citations: seq<string>)
    requires parsed.JObject? ==> "claims" !in parsed.fields
    requires parsed.JArray? ==> JString("claims") !in parsed.items
    requires parsed.JString? ==> !Contains(parsed.str, "claims")
    requires parsed.JObject? || parsed.JArray? || parsed.JString?
    ensures AfterResolution(parsed, citations) == Answer(parsed)
  {
  }

  /** The fallback record of `_parse_response` holds no `claims` key, so on the
      unstructured path it reaches the caller unchanged, whatever the citations. */
  lemma FallbackPassesThrough(reply: Envelope, parse: string -> Option<Json>, content: string)
    requires reply.choices.Some? && reply.choices.value != []
    requires reply.choices.value[0] == WithMessage(Some(content))
    requires parse(Payload(content)).None?
    ensures Dispatch(reply, false, parse) == Answer(ParseResponse(content, parse))
    ensures Dispatch(reply, false, parse) == Answer(FallbackRecord(content))
  {
    var record := ParseResponse(content, parse);
    assert record == FallbackRecord(content);
    FallbackHasNoClaims(content);
    ClaimlessUnchanged(record, reply.citations);
  }

  /** The fallback record has no `claims` key. */
  lemma FallbackHasNoClaims(content: string)
    ensures FallbackRecord(content).JObject? && "claims" !in FallbackRecord(content).fields
  {
    var record := FallbackRecord(content);
    assert record.fields.Keys == {"raw_response", "extracted_citations"};
    assert "claims"[0] != "raw_response"[0] && "claims"[0] != "extracted_citations"[0];
  }

  /** With citations, a `claims` value on which the loop at lines 279-292 raises (a
      number, or a claim whose sources are not strings) gives the generic error of
      lines 268-269, and so does a `claims` key met in a list or a string. */
  lemma UnresolvableClaimsFail(m: map<string, Json>, citations: seq<string>)
    requires citations != [] && "claims" in m
    ensures ResolvedClaimsValue(m["claims"], citations).None? <==>
      AfterResolution(JObject(m), citations) == Failure(UnexpectedError, NoRaw)
    ensures ResolvedClaimsValue(m["claims"], citations).None? <==> AfterResolution(JObject(m), citations).Failure?
  {
  }

  /** A `claims` that is None, a boolean or a number is not iterable: the generic
      error. */
  lemma ScalarClaimsFail(m: map<string, Json>, citations: seq<string>)
    requires citations != [] && "claims" in m
    requires m["claims"].JNull? || m["claims"].JBool? || m["claims"].JNumber?
    ensures AfterResolution(JObject(m), citations) == Failure(UnexpectedError, NoRaw)
  {
  }

  /** A claim whose non-empty `sources` list holds something other than a string
      makes `source.strip()` raise: the generic error. */
  lemma NonStringSourceFails(m: map<string, Json>, citations: seq<string>, xs: seq<Json>, i: nat, j: nat)
    requires citations != [] && "claims" in m && m["claims"] == JArray(xs)
    requires i < |xs| && xs[i].JObject? && "sources" in xs[i].fields
    requires xs[i].fields["sources"].JArray? && j < |xs[i].fields["sources"].items|
    requires !xs[i].fields["sources"].items[j].JString?
    ensures AfterResolution(JObject(m), citations) == Failure(UnexpectedError, NoRaw)
  {
    assert AsStrings(xs[i].fields["sources"].items).None?;
    assert ClaimOf(xs[i]).None?;
  }

  /** Resolution never adds or removes a top-level key: in particular no `citations`
      key is added to the answer. Every key other than `claims` keeps its value. */
  lemma ResolutionKeepsKeys(m: map<string, Json>, citations: seq<string>)
    ensures var r := AfterResolution(JObject(m), citations);
      r.Answer? ==>
        r.value.JObject? && r.value.fields.Keys == m.Keys
        && forall k :: k in m && k != "claims" ==> r.value.fields[k] == m[k]
  {
    var r := AfterResolution(JObject(m), citations);
    if r.Answer? && citations != [] && "claims" in m {
      var v := ResolvedClaimsValue(m["claims"], citations).value;
      assert r.value == JObject(m["claims" := v]);
      assert m["claims" := v].Keys == m.Keys;
    }
  }

  /** Resolution of a `claims` list rewrites each claim as the resolver does, in order,
      when there are citations and every entry can be read as a claim. */
  lemma ResolvedClaimsList(m: map<string, Json>, items: seq<Json>, cs: seq<Claim>, citations: seq<string>)
    requires "claims" in m && m["claims"] == JArray(items) && citations != []
    requires ClaimsOf(items) == Some(cs)
    ensures var r := AfterResolution(JObject(m), citations);
      r.Answer? && r.value.fields["claims"].JArray?
      && |r.value.fields["claims"].items| == |items|
      && forall i :: 0 <= i < |items| ==> r.value.fields["claims"].items[i] == ClaimJson(ResolvedClaim(cs[i], citations))
  {
  }
}
