# Fact checker backend: a Dafny model

This project models the backend of the fact-checking service. The backend is an Azure Function, `fact_check_function/__init__.py`. It receives text, or the URL of an article, in an HTTP request. It sends the text to the Perplexity chat-completions API together with a fact-checking prompt. It then turns the model's answer into a result: an overall rating, a summary, and claims with their sources.

The model covers five pieces of that file:

- **Citation resolution** (`_resolve_citations_in_claims`). A source whose stripped text begins with a marker `[n]` becomes the n-th entry of the `citations` list the API returned. The marker is ASCII digits in brackets, leading zeros allowed. It is resolved only when that entry exists; every other source is kept exactly as written. The method rewrites an array of claims in place. Each claim's new sources list is built by an inner loop that appends one entry per source.
- **Response parsing** (`_parse_response`). The JSON payload is taken from, in order of preference:
  - the first ```` ```json ```` fence;
  - else the first plain ```` ``` ```` fence;
  - else the whole answer.
  The payload is cut at the next fence and stripped. When it does not decode, the result is a fallback record. The record keeps the raw answer and the one-line captures of `re.findall(r"Sources?:\s*(.+)")`, including the backtracking of `\s*`.
- **Language detection** (`_detect_language`). The text is Vietnamese if, once lower-cased, it holds a letter with a Vietnamese diacritic. It is also Vietnamese if more than a fifth of its words are common Vietnamese words. Otherwise it is English.
- **`check_claim`**. The steps are:
  - the empty-text guard;
  - the request, with the structured-output gate (model on the allow-list and the flag truthy);
  - the call;
  - the error dictionaries;
  - the choice of parse path;
  - citation resolution, which runs only when citations came back and the parsed value holds `claims`.
  The class `FactChecker` holds the API key and system prompt. Its constructor refuses a missing key.
- **The HTTP entry point `main`**. Requests are routed by upper-cased method. For POST, the JSON body is read and the article behind a URL is fetched. The handler answers with a status code and a body kind.

Collaborators the code calls but does not define are parameters:
- `json.loads` is `parse: string -> Option<Json>`, where None is `JSONDecodeError`;
- `requests.post` with `raise_for_status` and `response.json()` is `api: ChatRequest -> ApiOutcome`;
- `requests.get` with newspaper's `Article` is `fetch: Json -> FetchOutcome`;
- `PPLX_API_KEY` is `environmentKey`.

Python's string semantics are written out:
- `str.isspace` is used for `strip`, `split` and the regex `\s`;
- `in` and `split(sep)` are modelled on strings;
- truthiness is modelled on JSON values;
- the model follows what `for … in` and `in` do on each kind of JSON value.

Five behaviours of the code are easy to miss:

- The `Source:` / `Sources:` label of the fallback is matched case-sensitively (line 315).
- When both `text` and `url` are given, the article behind the URL replaces the text (lines 392-401).
- After a ```` ```json ```` fence, the payload ends at the first ```` ```json ```` or ```` ``` ```` that follows (lines 307-308). A closing fence followed by "`json" therefore leaves one backtick in the payload.
- A fence without a closing fence is not a parse failure: everything after it, to the end of the answer, is parsed (lines 307 and 310).
- Resolution only rewrites `claims[].sources`. No top-level `citations` key is ever added to the result (lines 250-260).

Files:
- `wrappers.dfy`: Option.
- `json.dfy`: JSON values and truthiness.
- `strings.dfy`: Python string operations.
- `citations.dfy`: the resolver.
- `response.dfy`: the response parser.
- `language.dfy`: language detection.
- `fact_checker.dfy`: `FactChecker` and `check_claim`, with their properties.
- `handler.dfy`: `main`, with its properties.

Where the source works step by step, the model has a method that does the same: `ResolveCitationsInClaims` rewrites an array of claims in place, and `FactChecker.CheckClaim`, `SendRequest` and `DispatchReply` follow the control flow of `check_claim`. Each such method is proved to return what a function of the same inputs specifies. The properties are then proved about those functions, since lemmas cannot call methods.

## Model

| member | source | states |
|---|---|---|
| `Citations.ResolveSources` | fact_check_function/__init__.py:281-291 | The rebuilt `sources` list has the length of the original, and slot i holds the resolution of source i. The in-place loop `Citations.ResolveSourceList` is proved to build it. |
| `Citations.ResolvedClaim` | fact_check_function/__init__.py:280-292 | The claim after the loop body. Its contract has no clause of its own; `Citations.ResolvedClaimShape` states what it keeps and what it rewrites, and `Citations.ClaimResolutionIdempotent` when a second pass changes nothing. |
| `Citations.LeadingMarker` | fact_check_function/__init__.py:283-285 | `re.match` of `\[(\d+)\]` then `int()` of the group. No clause of its own; `Citations.LeadingMarkerExact` states when it matches and what it reads, and `Citations.MarkerRoundTrip` that it reads back a written marker. |
| `Citations.DigitsValue` | fact_check_function/__init__.py:285 | `int()` of a digit string. No clause of its own; `Citations.DecimalRoundTrip` and `Citations.LeadingZerosIgnored` state its value. |
| `Citations.ClaimOf` | fact_check_function/__init__.py:279-282 | How the loop meets one item of `claims`; None where Python raises. No clause of its own; `Citations.ClaimRoundTrip` and `Citations.ClaimsOf` state it. |
| `Citations.MarkerRoundTrip` | fact_check_function/__init__.py:283-285 | `re.match(r"\[(\d+)\]")` followed by `int(...)` reads a marker `[n]` back as n, with any leading zeros and whatever follows the `]`. |
| `Citations.LeadingZerosIgnored` | fact_check_function/__init__.py:285 | `int()` of a numeral ignores its leading zeros. |
| `Citations.DecimalRoundTrip` | fact_check_function/__init__.py:285 | The value of a decimal numeral is the number it was written from. |
| `Citations.ResolveSource` | fact_check_function/__init__.py:283-291 | A resolved source is either the source itself or one of the API's citations. |
| `Citations.ResolveSourceList` | fact_check_function/__init__.py:281-291 | The inner loop builds, by appending, the list of resolved sources in the original order. |
| `Citations.ResolveClaim` | fact_check_function/__init__.py:280-292 | A claim with a present, non-empty `sources` list gets the rebuilt list; any other claim is kept. |
| `Citations.ResolveCitationsInClaims` | fact_check_function/__init__.py:279-292 | The array of claims is rewritten in place: each slot holds the resolution of the claim that was there before. |
| `Citations.ResolvedClaimShape` | fact_check_function/__init__.py:279-292 | Resolution keeps a claim's other fields and its sources' length and order. Each slot holds the original source or a citation. A claim without sources, or with an empty list, is untouched. |
| `Citations.ResolvesMarker` | fact_check_function/__init__.py:283-287 | A source of the form blanks, `[n]`, any text, with 1 <= n <= len(citations), becomes `citations[n-1]`. The trailing text is dropped. |
| `Citations.KeepsOutOfRange` | fact_check_function/__init__.py:283-289 | `[0]`, or a marker past the end of the citations, leaves the source verbatim and unstripped. |
| `Citations.LeadingMarkerExact` | fact_check_function/__init__.py:283-285 | `re.match(r"\[(\d+)\]")` succeeds exactly when the text starts with `[`, one or more ASCII digits and `]`. The number read is the value of those digits. |
| `Citations.KeepsUnmarked` | fact_check_function/__init__.py:283-291 | A source that, once stripped, does not start with such a marker is kept verbatim, whatever the citations. |
| `Citations.KeepsUnbracketed` | fact_check_function/__init__.py:283-291 | A special case of the above: a source containing no `[` is kept verbatim. |
| `Citations.KeepsMarker` | fact_check_function/__init__.py:283 | Stripping the source keeps a marker that follows leading whitespace, so `re.match` still finds it. |
| `Citations.ResolutionIdempotent` | fact_check_function/__init__.py:279-292 | Resolving a sources list twice equals resolving it once, provided no citation itself starts with a marker. |
| `Citations.ClaimResolutionIdempotent` | fact_check_function/__init__.py:279-292 | The same holds for a whole claim. |
| `Citations.MarkedCitationIsFollowedAgain` | fact_check_function/__init__.py:283-287 | Without that condition, a second pass follows a citation `[2]` again. |
| `Citations.ResolutionWithoutCitations` | fact_check_function/__init__.py:283-291 | With no citations, every source is kept. |
| `Citations.ResolutionExamples` | fact_check_function/__init__.py:283-287 | `[2]` with citations a, b, c gives b. `[1] extra` with citation x gives x. |
| `Citations.UnresolvedExamples` | fact_check_function/__init__.py:285-289 | `[5]` and `[0]` with three citations stay as written. |
| `Citations.ClaimRoundTrip` | fact_check_function/__init__.py:280-292 | Reading a claim dictionary as a claim and writing it back changes nothing. The exception is a non-empty string given as `sources`, which Python iterates into its characters. |
| `Citations.ClaimsOf` | fact_check_function/__init__.py:279-282 | A `claims` list is readable exactly when each item is. In that case the claims match the items one for one. |
| `JsonData.StringsRoundTrip` | fact_check_function/__init__.py:292 | A list of source strings written as JSON reads back as the same strings. |
| `JsonData.AsStrings` | fact_check_function/__init__.py:282 | A JSON list yields strings exactly when every item is a string, and writing them back gives the list. |
| `ResponseParser.ParseResponse` | fact_check_function/__init__.py:305-319 | `_parse_response`. No clause of its own; `ResponseParser.ParsedOrFallback` states that it is the decoded payload when that decodes and the fallback record otherwise. |
| `ResponseParser.Payload` | fact_check_function/__init__.py:306-313 | The text handed to `json.loads`. No clause of its own; the five payload lemmas below state it for each kind of fence. |
| `ResponseParser.FallbackRecord` | fact_check_function/__init__.py:315-319 | The record of the `except` branch. No clause of its own; `ResponseParser.ParsedOrFallback` states its two keys and their values, `ResponseParser.SingleSourceFallback` a case with one capture. |
| `ResponseParser.LastNonNewline` | fact_check_function/__init__.py:315 | The last position of a range that holds no newline, with only newlines after it; None exactly when the range is all newlines. This is where `\s*` gives a character back to `.`. |
| `ResponseParser.JsonFencePayload` | fact_check_function/__init__.py:306-308 | With a ```` ```json ```` fence, the stripped text up to the next ```` ``` ```` is parsed, even when plain fences come earlier. The text after the closing fence is arbitrary, except that it must not start with a fourth backtick. |
| `ResponseParser.FourthBacktickKept` | fact_check_function/__init__.py:306-308 | When "`json" follows the closing fence of a ```` ```json ```` block, the payload is the body with one backtick appended, stripped. |
| `ResponseParser.PlainFencePayload` | fact_check_function/__init__.py:309-311 | Without a ```` ```json ```` fence, the stripped text between the first two ```` ``` ```` fences is parsed, whatever follows. |
| `ResponseParser.UnclosedFencePayload` | fact_check_function/__init__.py:306-311 | A fence that is never closed makes the rest of the answer, stripped, the payload. |
| `ResponseParser.UnfencedPayload` | fact_check_function/__init__.py:312-313 | Without a ```` ``` ```` in the answer, the whole answer, unstripped, is parsed. |
| `ResponseParser.ClosedAfterFence` | fact_check_function/__init__.py:307-310 | `split(fence)[1].split("```")[0]` is the body up to the closing fence, for any body whose first ```` ``` ```` is the closing one. After a ```` ```json ```` fence, a fourth backtick after the closing fence would shift the cut, so that case is excluded. |
| `ResponseParser.FenceFreeHasNoFence` | fact_check_function/__init__.py:307-310 | A body whose first ```` ``` ```` is the appended closing fence contains no fence itself. |
| `ResponseParser.FenceAfterPrefix` | fact_check_function/__init__.py:307-310 | `split(fence)[1]` is read from just after the first occurrence of the fence. |
| `ResponseParser.NoTicksNoFence` | fact_check_function/__init__.py:306-309 | Text without backticks contains neither kind of fence. |
| `ResponseParser.TagLength` | fact_check_function/__init__.py:315 | The label length is 8 exactly when the text starts with `Sources:`, and 7 exactly when it starts with `Source:`; otherwise there is no label. |
| `ResponseParser.LineEnd` | fact_check_function/__init__.py:315 | `.+` stops at the first newline or the end of the text, and covers no newline. |
| `ResponseParser.GroupStart` | fact_check_function/__init__.py:315 | A match needs a label and then a non-newline character for the group to start on. |
| `ResponseParser.SourceCaptures` | fact_check_function/__init__.py:315 | Every capture is non-empty and holds no newline. |
| `ResponseParser.ParsedOrFallback` | fact_check_function/__init__.py:305-319 | The result is the decoded payload when it decodes. Otherwise it is a record with exactly the keys `raw_response` (the whole answer) and `extracted_citations`. That value is "No citations found" exactly when nothing was captured. Otherwise it is the list of the `findall` captures, in order, each a non-empty one-line string. |
| `ResponseParser.NoLabelNoCaptures` | fact_check_function/__init__.py:315-318 | An answer without the letter S captures nothing, because the label is case-sensitive. |
| `ResponseParser.SourceLine` | fact_check_function/__init__.py:315 | A label, blanks, then a line: the line is captured without the blanks, and the scan resumes at the newline. |
| `ResponseParser.SingleSourceCaptures` | fact_check_function/__init__.py:315 | Text with exactly one labelled line captures exactly that line. |
| `ResponseParser.SingleSourceFallback` | fact_check_function/__init__.py:312-319 | An unfenced answer that does not decode and has one `Source:` line gives the record with the raw answer and that one capture. |
| `ResponseParser.FallbackExample` | fact_check_function/__init__.py:312-319 | The same, on a concrete answer. |
| `Language.DetectLanguage` | fact_check_function/__init__.py:172-191 | `_detect_language`. No clause of its own; `Language.DetectionCriterion`, `Language.BlankIsEnglish` and `Language.DetectionIgnoresCase` state it. |
| `Language.Lower` | fact_check_function/__init__.py:172 | `lower()` keeps the length and lowers each character by itself. |
| `Language.HasVietnameseLetter` | fact_check_function/__init__.py:175-179 | Whether some character is one of the 67 letters of line 175. No clause of its own; `Language.LetterSurvivesStrip` and `Language.LetterAfterLower` state how it meets `strip()` and `lower()`. |
| `Language.DetectionCriterion` | fact_check_function/__init__.py:172-191 | Vietnamese exactly when the text holds a Vietnamese letter in either case. Also Vietnamese when more than a fifth of its lower-cased words are trong, cho or khi, the only listed words without such a letter. |
| `Language.BlankIsEnglish` | fact_check_function/__init__.py:172-191 | Empty or whitespace-only text is English. |
| `Language.DetectionIgnoresCase` | fact_check_function/__init__.py:172 | Lower-casing the text first does not change the answer. |
| `Language.LetterSurvivesStrip` | fact_check_function/__init__.py:172-179 | `strip()` never removes a Vietnamese letter. |
| `Language.LetterAfterLower` | fact_check_function/__init__.py:172-179 | After `lower()`, the text holds a Vietnamese letter exactly when it held one or its capital. |
| `Language.LowerChar` | fact_check_function/__init__.py:172 | `lower()` yields a Vietnamese letter exactly from a letter or a capital, leaves each letter unchanged, and keeps whitespace as whitespace. |
| `Language.LowerCharLetters` | fact_check_function/__init__.py:172-175 | A lowered character is a Vietnamese letter exactly when it was one or its capital; the letters are left unchanged. |
| `Language.LowerCapitals` | fact_check_function/__init__.py:172-175 | `lower()` takes each of the 67 capitals to its own letter: Á to á, Ạ to ạ, Đ to đ, and so on. |
| `Language.LowerCharIdempotent` | fact_check_function/__init__.py:172 | Lowering twice is lowering once. |
| `Language.LetterBlocks` | fact_check_function/__init__.py:175 | The 67 letters of the set are exactly the code-point blocks InLetterBlocks lists. |
| `Language.CapitalBlocks` | fact_check_function/__init__.py:175 | The same for their capitals. |
| `Language.ListedWordsHaveLetters` | fact_check_function/__init__.py:175-176 | Every listed word except trong, cho and khi holds a Vietnamese letter. |
| `Language.CountWithoutLetters` | fact_check_function/__init__.py:176-183 | Among words without Vietnamese letters, only trong, cho and khi are counted. |
| `Language.CountIn` | fact_check_function/__init__.py:183 | The count of listed words never exceeds the number of words. |
| `Language.CapitalExample` | fact_check_function/__init__.py:172-188 | "Trái Đất phẳng" is Vietnamese. |
| `Strings.Strip` | fact_check_function/__init__.py:172 | `strip()` never lengthens the text, and its result is empty or starts and ends with a visible character. `Strings.StripWindow` and `Strings.StripEmptyIffBlank` state the rest. |
| `Strings.StripEmptyIffBlank` | fact_check_function/__init__.py:205 | `not text.strip()` holds exactly when the text is empty or all whitespace. |
| `Strings.WordsOfStrip` | fact_check_function/__init__.py:172-182 | `s.strip().split()` equals `s.split()`. |
| `Strings.Words` | fact_check_function/__init__.py:182 | `split()` yields non-empty words without whitespace. |
| `Strings.TrimStart` | fact_check_function/__init__.py:172 | `lstrip()` removes a whitespace prefix and leaves a result that starts with a visible character, or is empty. |
| `Strings.TrimEnd` | fact_check_function/__init__.py:172 | `rstrip()` removes a whitespace suffix and leaves a result that ends with a visible character, or is empty. |
| `Strings.StripWindow` | fact_check_function/__init__.py:172 | `strip()` is a window of the text that holds every visible character of it. |
| `Strings.StripKeepsVisibleProperty` | fact_check_function/__init__.py:172-179 | A property only visible characters can have occurs after `strip()` exactly when it occurs before. |
| `Strings.IndexOf` | fact_check_function/__init__.py:306-310 | The first occurrence of the pattern is found exactly when `pat in s`. |
| `Strings.UpTo` | fact_check_function/__init__.py:307-310 | `s.split(pat)[0]` is s up to the first occurrence, or all of s. |
| `Strings.UpperIdempotent` | fact_check_function/__init__.py:336 | Upper-casing the method twice is upper-casing it once. |
| `FactChecking.FactChecker.constructor` | fact_check_function/__init__.py:45-51 | A checker holds a non-empty key and the system prompt. |
| `FactChecking.FactChecker.Create` | fact_check_function/__init__.py:45-60 | Construction fails, as the `ValueError` does, exactly when neither the argument nor the environment gives a key. Otherwise the checker holds the key found. |
| `FactChecking.FactChecker.CheckClaim` | fact_check_function/__init__.py:193-269 | The step-by-step `check_claim` returns what CheckClaimResult specifies for its key, prompt, inputs and collaborators. |
| `FactChecking.CheckClaimResult` | fact_check_function/__init__.py:193-269 | `check_claim` as a function of its inputs and collaborators. No clause of its own; `FactCheckingProperties.EmptyTextRejected` states the empty-input refusal, and the method `FactChecking.FactChecker.CheckClaim` is proved to return it. |
| `FactChecking.OutcomeResult` | fact_check_function/__init__.py:235-269 | No clause of its own; `FactCheckingProperties.OutcomeKinds` states it, and `FactChecking.SendRequest` is proved against it. |
| `FactChecking.Dispatch` | fact_check_function/__init__.py:241-262 | No clause of its own; `FactCheckingProperties.DispatchKinds`, `FactCheckingProperties.UnexpectedFormat` and `FactCheckingProperties.StructuredParseFailure` state it, and `FactChecking.DispatchReply` is proved against it. |
| `FactChecking.AfterResolution` | fact_check_function/__init__.py:246-260 | No clause of its own. `FactCheckingProperties.NoCitationsNoChange` and `FactCheckingProperties.ClaimlessUnchanged` state both halves of the gate. `FactCheckingProperties.UnresolvableClaimsFail`, `FactCheckingProperties.ResolutionKinds`, `FactCheckingProperties.ResolutionKeepsKeys` and `FactCheckingProperties.ResolvedClaimsList` state what resolution yields. `FactChecking.ResolveParsed` is proved against it. |
| `FactChecking.ResolvedClaimsValue` | fact_check_function/__init__.py:279-292 | The resolver run on the value of `parsed["claims"]`, None where Python raises. No clause of its own; `FactCheckingProperties.ResolvedClaimsList` states the list case. |
| `FactChecking.BuildRequest` | fact_check_function/__init__.py:208-233 | The request body and headers. No clause of its own; `FactCheckingProperties.RequestCarriesText` states its messages and schema flag. |
| `FactChecking.ApiKeyFrom` | fact_check_function/__init__.py:45-60 | `api_key or os.environ.get("PPLX_API_KEY", "")`. No clause of its own; `FactCheckingProperties.MissingKey` states it, and `FactChecking.FactChecker.Create` is proved against it. |
| `FactChecking.SupportsStructuredOutput` | fact_check_function/__init__.py:228 | `model in STRUCTURED_OUTPUT_MODELS`. No clause of its own; `FactCheckingProperties.StructuredGate` and `FactCheckingProperties.DefaultModelIsStructured` state it. |
| `FactChecking.SendRequest` | fact_check_function/__init__.py:235-269 | The call's failure, a reply that is not JSON, or the dispatch on the reply, as OutcomeResult specifies. |
| `FactChecking.DispatchReply` | fact_check_function/__init__.py:241-262 | Step-by-step dispatch on the reply's first choice agrees with Dispatch. |
| `FactChecking.ResolveParsed` | fact_check_function/__init__.py:250-259 | Copying the claims into an array and resolving them in place gives the result AfterResolution specifies. |
| `FactCheckingProperties.MissingKey` | fact_check_function/__init__.py:45-60 | The key is missing exactly when neither source gives a non-empty one. A non-empty argument wins over the environment. |
| `FactCheckingProperties.PromptCarriesText` | fact_check_function/__init__.py:210-212 | The user prompt contains the text and names the language detected in it. |
| `FactCheckingProperties.RequestCarriesText` | fact_check_function/__init__.py:212-233 | The request has two messages: the system prompt, then a user message that contains the text and names the detected language. The schema is asked for exactly when the model passes the gate and the flag is truthy. |
| `FactCheckingProperties.DefaultModelIsStructured` | fact_check_function/__init__.py:33-36 | `sonar-pro`, the default, is on the structured-output allow-list. |
| `FactCheckingProperties.StructuredGate` | fact_check_function/__init__.py:228 | A model passes the gate exactly when it is one of the strings sonar, sonar-pro, sonar-reasoning, sonar-reasoning-pro. |
| `FactCheckingProperties.EmptyTextRejected` | fact_check_function/__init__.py:205-206 | `check_claim` returns the empty-input error exactly for empty or whitespace-only text. |
| `FactCheckingProperties.OutcomeKinds` | fact_check_function/__init__.py:235-269 | Once a request is sent, the empty-input error cannot occur. |
| `FactCheckingProperties.ResolutionKinds` | fact_check_function/__init__.py:250-260 | Resolution either yields an answer or fails with the generic unexpected error. |
| `FactCheckingProperties.DispatchKinds` | fact_check_function/__init__.py:241-269 | Dispatch fails only in three ways: an unexpected format carrying the whole reply; the generic error; or, on the structured path, an unparsable output carrying the content. |
| `FactCheckingProperties.UnexpectedFormat` | fact_check_function/__init__.py:243-262 | The unexpected-format error occurs exactly when `choices` is missing or empty, or its first entry has no `message`. The error carries the reply. |
| `FactCheckingProperties.StructuredParseFailure` | fact_check_function/__init__.py:246-256 | On the structured path, content that does not decode is an error carrying the content. On the other path that error never occurs. |
| `FactCheckingProperties.NoCitationsNoChange` | fact_check_function/__init__.py:246-260 | Without citations, the parsed value is returned untouched on either path. |
| `FactCheckingProperties.ClaimlessUnchanged` | fact_check_function/__init__.py:250-260 | With or without citations, an object without a `claims` key, a list without the string `claims`, or a string without that substring is returned unchanged. |
| `FactCheckingProperties.FallbackHasNoClaims` | fact_check_function/__init__.py:315-319 | The fallback record has no `claims` key. |
| `FactCheckingProperties.FallbackPassesThrough` | fact_check_function/__init__.py:255-260 | On the unstructured path, an answer that does not decode reaches the caller as the fallback record, unchanged, whatever the citations. |
| `FactCheckingProperties.UnresolvableClaimsFail` | fact_check_function/__init__.py:250-269 | With citations and a `claims` key, the result is the generic error exactly when the loop raises on the `claims` value; it is a failure only then. |
| `FactCheckingProperties.ScalarClaimsFail` | fact_check_function/__init__.py:250-269 | A `claims` that is null, a boolean or a number is not iterable, so the result is the generic error. |
| `FactCheckingProperties.NonStringSourceFails` | fact_check_function/__init__.py:279-292 | A claim whose non-empty `sources` list holds a value other than a string makes `source.strip()` raise, so the result is the generic error. |
| `FactCheckingProperties.ResolutionKeepsKeys` | fact_check_function/__init__.py:250-260 | Resolution adds or removes no top-level key, in particular no `citations` key. Every key but `claims` keeps its value. |
| `FactCheckingProperties.ResolvedClaimsList` | fact_check_function/__init__.py:250-259 | With citations and a readable `claims` list, the answer's `claims` are the resolved claims, one for one, in order. |
| `Handler.HandleRequest` | fact_check_function/__init__.py:336-475 | `main`. No clause of its own; `HandlerProperties.Statuses`, `HandlerProperties.Routes` and `HandlerProperties.MethodCaseInsensitive` state it. |
| `Handler.HandlePost` | fact_check_function/__init__.py:365-468 | The POST branch. No clause of its own; `HandlerProperties.PostStatuses` and `HandlerProperties.BodyRefusals` state it. |
| `Handler.PostFields` | fact_check_function/__init__.py:376-448 | The fields of an object body. No clause of its own; `HandlerProperties.TextOrUrlRequired`, `HandlerProperties.NoKeyNoCheck`, `HandlerProperties.UrlOverridesText` and `HandlerProperties.TextChecked` state it. |
| `Handler.FetchAndCheck` | fact_check_function/__init__.py:392-426 | The URL branch. No clause of its own; `HandlerProperties.FetchFailures` and `HandlerProperties.BlankArticleRefused` state it. |
| `Handler.CheckText` | fact_check_function/__init__.py:428-448 | The text check and the call. No clause of its own; `HandlerProperties.TextAccepted`, `HandlerProperties.BlankTextRefused` and `HandlerProperties.CheckedText` state it. |
| `Handler.Lookup` | fact_check_function/__init__.py:376-379 | `req_body.get(key, default)`. No clause of its own; `HandlerProperties.ObjectBody` and `HandlerProperties.TextChecked` state the fields and defaults it yields. |
| `HandlerProperties.MethodCaseInsensitive` | fact_check_function/__init__.py:336 | The route does not depend on the case of the method. |
| `HandlerProperties.PostStatuses` | fact_check_function/__init__.py:364-468 | A POST is answered with 200, 400 or 500, and with 200 exactly when `check_claim` ran. |
| `HandlerProperties.Statuses` | fact_check_function/__init__.py:336-475 | The status is 200, 400, 405 or 500. 405 answers exactly the methods other than OPTIONS, GET and POST. 200 answers exactly a preflight, a GET, or a checked text, whatever `check_claim` returned. |
| `HandlerProperties.TextOrUrlRequired` | fact_check_function/__init__.py:376-386 | A body with neither a truthy `text` nor a truthy `url` gets 400. |
| `HandlerProperties.NoKeyNoCheck` | fact_check_function/__init__.py:376-461 | Without an API key, `check_claim` is never reached. An object body with a truthy `text` or `url` gets 400 with the missing-key error. |
| `HandlerProperties.Routes` | fact_check_function/__init__.py:336-365 | OPTIONS gets 200 with an empty body, GET gets 200 with the usage description, and POST goes to the body handler. |
| `HandlerProperties.BodyRefusals` | fact_check_function/__init__.py:365-468 | A body that is not JSON gets 400, and so does a falsy one. A truthy body that is not an object gets 500. |
| `HandlerProperties.FetchFailures` | fact_check_function/__init__.py:392-426 | With a key and a truthy `url`: a failed download gets 400, a failed article parse 400, any other fetch failure 500, and an empty article 400. |
| `HandlerProperties.BlankArticleRefused` | fact_check_function/__init__.py:392-433 | An article that is blank once fetched gets 400, with or without a key. |
| `HandlerProperties.TextAccepted` | fact_check_function/__init__.py:428-448 | Text with a visible character is checked, and the result is sent with 200. |
| `HandlerProperties.ObjectBody` | fact_check_function/__init__.py:367-379 | A non-empty JSON object body is read field by field. |
| `HandlerProperties.UrlOverridesText` | fact_check_function/__init__.py:392-448 | With a truthy `url` whose page yields a non-blank article, the article is what is checked, whatever `text` says. |
| `HandlerProperties.TextChecked` | fact_check_function/__init__.py:376-448 | Without a URL, the body's text is checked with the model and flag from the body, or `sonar-pro` and false by default. |
| `HandlerProperties.BlankTextRefused` | fact_check_function/__init__.py:428-433 | Blank text sent without a URL is refused with 400. |
| `HandlerProperties.CheckedText` | fact_check_function/__init__.py:392-441 | Any `check_claim` result the handler sends was computed on text with a visible character. |
| `HandlerProperties.NoEmptyInputThroughHandler` | fact_check_function/__init__.py:428-441 | Through the handler, `check_claim` never reports empty input. |

## Left out

- Network and library I/O are parameters, not modelled:
  - `requests.post`, `requests.get`, newspaper's `Article`;
  - reading `PPLX_API_KEY` and `system_prompt.md`;
  - `json.loads`, `json.dumps`;
  - pydantic's schema generation.
- Logging and the CORS headers are not modelled.
- Message texts are not modelled: the error messages, the embedded default system prompt, and the GET usage text. Errors are modelled as kinds with the raw value they carry. Of the request, the model keeps its URL, authorization, model, messages, and whether `response_format` was added.
- `FactChecking.BuildRequest` builds the request body in one expression. The source instead builds a dictionary and then adds `response_format` when the gate is open (line 230). The effect is the same; the mutation step itself is not modelled.
- The API reply is typed: `citations` is a list of strings and `choices` a list of entries with or without a `message`. Replies outside that shape are not modelled, and the source treats them in several ways:
  - a reply that is not a JSON object makes `result.get` raise, which ends in the generic unexpected error;
  - citations that are not strings are copied into the sources as they are, without any error;
  - a string as `citations` is indexed by character, so a marker resolves to one character of it;
  - a truthy `citations` value that is neither a list nor a string raises only when a marker is met, which ends in the generic unexpected error;
  - a `choices[0]` that is a string or a list goes through the `"message" in` test as a substring or membership test. Without `"message"` it gives the unexpected-format error; with it, the indexing raises and the generic error follows.
- A claim whose `sources` is a dictionary is not modelled. Python would iterate its keys, and the model treats it as raising.
- `Language.LowerChar` lowers only the characters that can change the answer: ASCII, the Vietnamese capitals, and the Kelvin sign. Unicode's full `lower()` is not modelled, and neither are characters that lower to several characters.
- `Citations.MarkerRoundTrip` does not model CPython's limit of 4300 digits on `int()` of a string. A longer numeral makes `int()` raise `ValueError`, which `check_claim` reports as the generic unexpected error.
- `Citations.ResolvesMarker` holds only for markers of at most 4300 digits in CPython, for the same reason.
- `Citations.ResolveSource` and `Citations.DigitsValue` read numerals of any length; the 4300-digit limit is not modelled.
- Regex `\d` matches only ASCII digits in the model, though Python also accepts other Unicode decimal digits.
- `Strings.Upper`, used on the HTTP method, upper-cases ASCII letters only.
- Numbers in JSON are kept only as far as their truthiness: zero or not.
- Dictionary key order is not modelled.
- The model does not decide which outcome a reply that is not JSON produces. From requests 2.27, `response.json()` raises an error that is also a `RequestException`, so the first `except` clause reports the request as failed. Older versions reach the `json.JSONDecodeError` clause instead. The `api` parameter may return either outcome, `RequestFailed` or `ReplyNotJson`.
