/**
 * The HTTP entry point `main`: routes a request by its method, reads the JSON body,
 * fetches the article behind a URL when one is given, and answers with the status
 * code and body the handler chooses. Fetching the page and extracting its article
 * is the parameter `fetch`; the model API and `json.loads` are those of
 * `check_claim`.
 */
module Handler {
  import opened Wrappers
  import opened Strings
  import opened JsonData
  import opened FactChecking

  /** What `req.get_json()` yields: the decoded body, or the `ValueError` it raises
      for a body that is not JSON. */
  datatype RequestBody = NotJson | JsonBody(value: Json)

  datatype HttpRequest = HttpRequest(verb: string, body: RequestBody)

  /** `requests.get` with `raise_for_status`, then `Article.download` and `parse`:
      a `RequestException`, an `ArticleException`, any other exception, or the
      extracted article text. */
  datatype FetchOutcome = FetchFailed | ArticleFailed | FetchCrashed | Extracted(text: string)

  /** Which `{"error": ...}` body the handler itself answers with. */
  datatype HandlerError =
    | InvalidBody
    | EmptyBody
    | MissingTextAndUrl
    | MissingApiKey
    | UrlFetchFailed
    | ArticleParseFailed
    | UrlProcessingFailed
    | NothingExtracted
    | NoTextToCheck
    | InternalError
    | MethodNotAllowed(verb: string)

  /** The body of a response: empty for a preflight request, the usage description
      for GET, an error, or the result of `check_claim`. */
  datatype ResponseBody = NoContent | Usage | Error(error: HandlerError) | Results(result: CheckResult)

  datatype HttpResponse = HttpResponse(status: int, body: ResponseBody)

  /** `FactChecker(api_key).check_claim(text, model, use_structured_output)`, as a
      function of the key, the text, the model and the flag. */
  type Checker = (string, string, Json, Json) -> CheckResult

  /** The checker `main` builds: the class's `check_claim` with its system prompt,
      the model API and `json.loads`. */
  function CheckClaimWith(systemPrompt: string, api: ChatRequest -> ApiOutcome, parse: string -> Option<Json>): Checker {
    (apiKey: string, text: string, model: Json, structured: Json) =>
      CheckClaimResult(apiKey, systemPrompt, text, model, structured, api, parse)
  }

  /** What the handler takes from its surroundings: `PPLX_API_KEY` from the
      environment, the page fetcher, and the checker. */
  datatype Environment = Environment(
    environmentKey: Option<string>,
    fetch: Json -> FetchOutcome,
    check: Checker)

  /** Python's `d.get(key, default)`. */
  function Lookup(m: map<string, Json>, key: string, default: Json): Json {
    if key in m then m[key] else default
  }

  /** Lines 428-448: a text that is missing, empty or blank is refused; a value that
      is not a string makes `text.strip()` raise, which becomes an internal error;
      otherwise `check_claim` runs and its result, error or not, is sent with 200. */
  function CheckText(text: Json, apiKey: string, model: Json, structured: Json, env: Environment): HttpResponse {
    if !Truthy(text) then HttpResponse(400, Error(NoTextToCheck))
    else if !text.JString? then HttpResponse(500, Error(InternalError))
    else if Strip(text.str) == [] then HttpResponse(400, Error(NoTextToCheck))
    else HttpResponse(200, Results(env.check(apiKey, text.str, model, structured)))
  }

  /** Lines 392-426: the article behind a truthy `url` replaces any `text`. */
  function FetchAndCheck(url: Json, apiKey: string, model: Json, structured: Json, env: Environment): HttpResponse {
    match env.fetch(url)
    case FetchFailed => HttpResponse(400, Error(UrlFetchFailed))
    case ArticleFailed => HttpResponse(400, Error(ArticleParseFailed))
    case FetchCrashed => HttpResponse(500, Error(UrlProcessingFailed))
    case Extracted(t) =>
      if t == [] then HttpResponse(400, Error(NothingExtracted))
      else CheckText(JString(t), apiKey, model, structured, env)
  }

  /** Lines 376-448: the fields of a non-empty JSON object body. A missing API key
      is the `ValueError` of the constructor, answered with 400. */
  function PostFields(m: map<string, Json>, env: Environment): HttpResponse {
    var text := Lookup(m, "text", JNull);
    var url := Lookup(m, "url", JNull);
    var model := Lookup(m, "model", JString(DefaultModel));
    var structured := Lookup(m, "structured_output", JBool(false));
    if !Truthy(text) && !Truthy(url) then HttpResponse(400, Error(MissingTextAndUrl))
    else
      var apiKey := ApiKeyFrom(None, env.environmentKey);
      if apiKey == [] then HttpResponse(400, Error(MissingApiKey))
      else if Truthy(url) then FetchAndCheck(url, apiKey, model, structured, env)
      else CheckText(text, apiKey, model, structured, env)
  }

  /** Lines 365-468: a POST request. A body that is not a JSON object with `get`
      makes the handler raise, which becomes an internal error. */
  function HandlePost(body: RequestBody, env: Environment): HttpResponse {
    match body
    case NotJson => HttpResponse(400, Error(InvalidBody))
    case JsonBody(v) =>
      if !Truthy(v) then HttpResponse(400, Error(EmptyBody))
      else if !v.JObject? then HttpResponse(500, Error(InternalError))
      else PostFields(v.fields, env)
  }

  /** `main` (lines 336-475): the method, upper-cased, selects the route. */
  function HandleRequest(req: HttpRequest, env: Environment): HttpResponse {
    var verb := Upper(req.verb);
    if verb == "OPTIONS" then HttpResponse(200, NoContent)
    else if verb == "GET" then HttpResponse(200, Usage)
    else if verb == "POST" then HandlePost(req.body, env)
    else HttpResponse(405, Error(MethodNotAllowed(verb)))
  }
}

/** Properties of the routing in `main`. */
module HandlerProperties {
  import opened Wrappers
  import opened Strings
  import opened JsonData
  import opened FactChecking
  import opened FactCheckingProperties
  import opened Handler

  /** The method name is compared after upper-casing, so its case does not matter. */
  lemma MethodCaseInsensitive(req: HttpRequest, env: Environment)
    ensures HandleRequest(HttpRequest(Upper(req.verb), req.body), env) == HandleRequest(req, env)
  {
    UpperIdempotent(req.verb);
  }

  /** A POST request is answered with 200, 400 or 500. */
  lemma PostStatuses(body: RequestBody, env: Environment)
    ensures var r := HandlePost(body, env);
      r.status == 200 || r.status == 400 || r.status == 500
    ensures var r := HandlePost(body, env);
      r.status == 200 <==> r.body.Results?
  {
  }

  /** The status is one of 200, 400, 405 and 500; 405 answers exactly the methods
      other than OPTIONS, GET and POST; and 200 answers exactly a preflight, a GET,
      or a POST whose text reached `check_claim`, whatever that returned. */
  lemma Statuses(req: HttpRequest, env: Environment)
    ensures var r := HandleRequest(req, env);
      r.status == 200 || r.status == 400 || r.status == 405 || r.status == 500
    ensures HandleRequest(req, env).status == 405 <==>
      Upper(req.verb) != "OPTIONS" && Upper(req.verb) != "GET" && Upper(req.verb) != "POST"
    ensures var r := HandleRequest(req, env);
      r.status == 200 <==> r.body == NoContent || r.body == Usage || r.body.Results?
  {
    PostStatuses(req.body, env);
  }

  /** A body with neither a truthy `text` nor a truthy `url` is refused before the
      API key is looked up. */
  lemma TextOrUrlRequired(m: map<string, Json>, env: Environment)
    requires m != map[]
    requires !Truthy(Lookup(m, "text", JNull)) && !Truthy(Lookup(m, "url", JNull))
    ensures HandlePost(JsonBody(JObject(m)), env) == HttpResponse(400, Error(MissingTextAndUrl))
  {
  }

  /** Without an API key in the environment, no request reaches `check_claim`: an
      object asking for a text or a URL to be checked is refused with 400. */
  lemma NoKeyNoCheck(body: RequestBody, env: Environment)
    requires env.environmentKey.None? || env.environmentKey.value == []
    ensures !HandlePost(body, env).body.Results?
    ensures (body.JsonBody? && body.value.JObject? &&
             (Truthy(Lookup(body.value.fields, "text", JNull)) || Truthy(Lookup(body.value.fields, "url", JNull))))
      ==> HandlePost(body, env) == HttpResponse(400, Error(MissingApiKey))
  {
    if body.JsonBody? && body.value.JObject? {
      var m := body.value.fields;
      if "text" in m && Truthy(m["text"]) {
        ObjectBody(m, "text", env);
      } else if "url" in m && Truthy(m["url"]) {
        ObjectBody(m, "url", env);
      }
    }
  }

  /** A preflight request is answered with 200 and no body, GET with the usage
      description, and POST by the body handler. */
  lemma Routes(req: HttpRequest, env: Environment)
    ensures Upper(req.verb) == "OPTIONS" ==> HandleRequest(req, env) == HttpResponse(200, NoContent)
    ensures Upper(req.verb) == "GET" ==> HandleRequest(req, env) == HttpResponse(200, Usage)
    ensures Upper(req.verb) == "POST" ==> HandleRequest(req, env) == HandlePost(req.body, env)
  {
  }

  /** A body that is not JSON, or decodes to a falsy value, is refused with 400; a
      truthy body that is not an object makes the handler fail with 500. */
  lemma BodyRefusals(v: Json, env: Environment)
    ensures HandlePost(NotJson, env) == HttpResponse(400, Error(InvalidBody))
    ensures !Truthy(v) ==> HandlePost(JsonBody(v), env) == HttpResponse(400, Error(EmptyBody))
    ensures Truthy(v) && !v.JObject? ==> HandlePost(JsonBody(v), env) == HttpResponse(500, Error(InternalError))
  {
  }

  /** With a key and a truthy `url`, a failed download or parse is refused with 400,
      any other failure while fetching gives 500, and an empty article gives 400. */
  lemma FetchFailures(m: map<string, Json>, env: Environment)
    requires "url" in m && Truthy(m["url"])
    requires env.environmentKey.Some? && env.environmentKey.value != []
    ensures env.fetch(m["url"]) == FetchFailed ==>
      HandlePost(JsonBody(JObject(m)), env) == HttpResponse(400, Error(UrlFetchFailed))
    ensures env.fetch(m["url"]) == ArticleFailed ==>
      HandlePost(JsonBody(JObject(m)), env) == HttpResponse(400, Error(ArticleParseFailed))
    ensures env.fetch(m["url"]) == FetchCrashed ==>
      HandlePost(JsonBody(JObject(m)), env) == HttpResponse(500, Error(UrlProcessingFailed))
    ensures env.fetch(m["url"]) == Extracted([]) ==>
      HandlePost(JsonBody(JObject(m)), env) == HttpResponse(400, Error(NothingExtracted))
  {
    ObjectBody(m, "url", env);
  }

  /** An article that is blank once fetched is refused with 400, whether or not a
      key is configured. */
  lemma BlankArticleRefused(m: map<string, Json>, env: Environment, article: string)
    requires "url" in m && Truthy(m["url"])
    requires env.fetch(m["url"]) == Extracted(article) && IsBlank(article)
    ensures HandlePost(JsonBody(JObject(m)), env).status == 400
  {
    StripEmptyIffBlank(article);
    ObjectBody(m, "url", env);
    var key := ApiKeyFrom(None, env.environmentKey);
    if key != [] {
      var model := Lookup(m, "model", JString(DefaultModel));
      var structured := Lookup(m, "structured_output", JBool(false));
      assert PostFields(m, env) == FetchAndCheck(m["url"], key, model, structured, env);
    }
  }

  /** Non-blank text is handed to `check_claim`, and its result is sent with 200. */
  lemma TextAccepted(text: string, apiKey: string, model: Json, structured: Json, env: Environment)
    requires Strip(text) != []
    ensures CheckText(JString(text), apiKey, model, structured, env)
      == HttpResponse(200, Results(env.check(apiKey, text, model, structured)))
  {
  }

  /** An object with a field is a truthy body, whose fields are then read. */
  lemma ObjectBody(m: map<string, Json>, key: string, env: Environment)
    requires key in m
    ensures HandlePost(JsonBody(JObject(m)), env) == PostFields(m, env)
  {
    assert key in m.Keys;
  }

  /** A fetched article is what gets checked: when `url` is truthy and the page
      yields an article with visible text, the result is that of checking the
      article, whatever the body's `text` says. */
  lemma UrlOverridesText(m: map<string, Json>, env: Environment, article: string)
    requires "url" in m && Truthy(m["url"])
    requires env.environmentKey.Some? && env.environmentKey.value != []
    requires env.fetch(m["url"]) == Extracted(article) && Strip(article) != []
    ensures HandlePost(JsonBody(JObject(m)), env) == HttpResponse(200, Results(env.check(
      env.environmentKey.value, article,
      Lookup(m, "model", JString(DefaultModel)), Lookup(m, "structured_output", JBool(false)))))
  {
    var key := env.environmentKey.value;
    var model := Lookup(m, "model", JString(DefaultModel));
    var structured := Lookup(m, "structured_output", JBool(false));
    ObjectBody(m, "url", env);
    assert PostFields(m, env) == FetchAndCheck(m["url"], key, model, structured, env);
    TextAccepted(article, key, model, structured, env);
  }

  /** Text sent directly, without a URL, is checked as it is, with `sonar-pro` and
      no structured output unless the body says otherwise. */
  lemma TextChecked(m: map<string, Json>, env: Environment, text: string)
    requires "text" in m && m["text"] == JString(text) && Strip(text) != []
    requires !Truthy(Lookup(m, "url", JNull))
    requires env.environmentKey.Some? && env.environmentKey.value != []
    ensures HandlePost(JsonBody(JObject(m)), env) == HttpResponse(200, Results(env.check(
      env.environmentKey.value, text,
      Lookup(m, "model", JString(DefaultModel)), Lookup(m, "structured_output", JBool(false)))))
  {
    var key := env.environmentKey.value;
    var model := Lookup(m, "model", JString(DefaultModel));
    var structured := Lookup(m, "structured_output", JBool(false));
    ObjectBody(m, "text", env);
    assert PostFields(m, env) == CheckText(JString(text), key, model, structured, env);
    TextAccepted(text, key, model, structured, env);
  }

  /** Text sent without a URL that is blank is refused with 400 and never checked. */
  lemma BlankTextRefused(m: map<string, Json>, env: Environment, text: string)
    requires "text" in m && m["text"] == JString(text) && IsBlank(text)
    requires !Truthy(Lookup(m, "url", JNull))
    ensures HandlePost(JsonBody(JObject(m)), env).status == 400
  {
    StripEmptyIffBlank(text);
    ObjectBody(m, "text", env);
  }

  /** Whatever `check_claim` result the handler sends was computed on text that
      has visible characters: the text of the body or the article behind its URL. */
  lemma CheckedText(req: HttpRequest, env: Environment) returns (apiKey: string, text: string, model: Json, structured: Json)
    ensures HandleRequest(req, env).body.Results? ==>
      Strip(text) != [] && HandleRequest(req, env).body.result == env.check(apiKey, text, model, structured)
  {
    apiKey, text, model, structured := [], [], JNull, JNull;
    if Upper(req.verb) == "POST" && req.body.JsonBody? && Truthy(req.body.value) && req.body.value.JObject? {
      var m := req.body.value.fields;
      apiKey := ApiKeyFrom(None, env.environmentKey);
      model := Lookup(m, "model", JString(DefaultModel));
      structured := Lookup(m, "structured_output", JBool(false));
      var url := Lookup(m, "url", JNull);
      if Truthy(url) {
        if env.fetch(url).Extracted? {
          text := env.fetch(url).text;
        }
      } else if Lookup(m, "text", JNull).JString? {
        text := Lookup(m, "text", JNull).str;
      }
    }
  }

  /** The handler's own blank-text guard runs first, so `check_claim` never reports
      empty input through the handler. */
  lemma NoEmptyInputThroughHandler(
    req: HttpRequest, environmentKey: Option<string>, fetch: Json -> FetchOutcome,
    systemPrompt: string, api: ChatRequest -> ApiOutcome, parse: string -> Option<Json>)
    ensures HandleRequest(req, Environment(environmentKey, fetch, CheckClaimWith(systemPrompt, api, parse))).body
      != Results(Failure(EmptyInput, NoRaw))
  {
    var env := Environment(environmentKey, fetch, CheckClaimWith(systemPrompt, api, parse));
    var apiKey, text, model, structured := CheckedText(req, env);
    if HandleRequest(req, env).body.Results? {
      StripEmptyIffBlank(text);
      EmptyTextRejected(apiKey, systemPrompt, text, model, structured, api, parse);
    }
  }
}
