/** The client-side search actions: the redirect that re-runs a search from a form,
    and the POST to the search API with its response unwrapping. `fetch` and the
    environment are parameters. */
module SearchActions {
  import opened Wrappers
  import opened JsValues
  import Text
  import UriEncoding

  // ---------------------------------------------------------------- refreshSearch

  datatype Redirect = Redirect(destination: string, permanent: bool)

  const SearchPath := "/search?q="

  /** `refreshSearch`: a temporary redirect to the search page for the form's `q`
      (empty when missing or empty). */
  function RefreshSearch(q: Option<string>): (r: Redirect)
    ensures !r.permanent
    ensures |r.destination| >= |SearchPath| && r.destination[..|SearchPath|] == SearchPath
  {
    Redirect(SearchPath + UriEncoding.EncodeURIComponent(if q.Some? then q.value else ""), false)
  }

  /** The query survives the redirect: decoding the text after `?q=` gives it back,
      and that text holds no character that could end the parameter. */
  lemma {:induction false} RefreshSearchCarriesQuery(q: Option<string>)
    ensures var d := RefreshSearch(q).destination;
      UriEncoding.DecodeURIComponent(d[|SearchPath|..]) == Some(q.GetOr("")) &&
      forall i :: |SearchPath| <= i < |d| ==> d[i] !in {'&', '#', ' '}
  {
    var e := UriEncoding.EncodeURIComponent(q.GetOr(""));
    assert RefreshSearch(q).destination[|SearchPath|..] == e;
    UriEncoding.DecodeEncodeURIComponent(q.GetOr(""));
    UriEncoding.EncodedHasNoDelimiters(q.GetOr(""));
  }

  /** The redirect the source's tests fix for a query with a space. */
  lemma {:induction false} RefreshSearchWithSpace()
    ensures RefreshSearch(Some("test query")).destination == SearchPath + "test%20query"
  {
    UriEncoding.EncodeExamples();
  }

  /** A missing query redirects to the bare search page. */
  lemma {:induction false} RefreshSearchWithoutQuery()
    ensures RefreshSearch(None) == Redirect("/search?q=", false)
  {
    assert UriEncoding.EncodeURIComponent("") == "";
  }

  // ---------------------------------------------------------------- performSearch

  /** Where the action runs: on the server (no `window`) or in the browser, and the
      `VERCEL_URL` and `NEXTAUTH_URL` environment variables. */
  datatype Env = Env(isServer: bool, vercelUrl: Option<string>, nextauthUrl: Option<string>)

  datatype SearchBody = SearchBody(query: string, language: string)
  datatype FetchRequest = FetchRequest(url: string, httpMethod: string, contentType: string, body: SearchBody, noStore: bool)
  /** A fetch response; `json` is the outcome of parsing its body. */
  datatype HttpResponse = HttpResponse(ok: bool, status: int, statusText: string, json: Result<Json>)

  /** `value || fallback` for an optional string. */
  function OrElse(value: Option<string>, fallback: string): string {
    if value.Some? && value.value != "" then value.value else fallback
  }

  /** The origin requests go to: none in the browser (a relative URL); on the server
      the Vercel deployment over HTTPS, else `NEXTAUTH_URL`, else the local server. */
  function BaseUrl(env: Env): (r: string)
    ensures !env.isServer ==> r == ""
    ensures env.isServer && env.vercelUrl.Some? && env.vercelUrl.value != "" ==> r == "https://" + env.vercelUrl.value
    ensures env.isServer && OrElse(env.vercelUrl, "") == "" ==> r == OrElse(env.nextauthUrl, "http://localhost:3000")
  {
    if !env.isServer then ""
    else if env.vercelUrl.Some? && env.vercelUrl.value != "" then "https://" + env.vercelUrl.value
    else OrElse(env.nextauthUrl, "http://localhost:3000")
  }

  /** Unwraps the API's reply: the `data` of a successful envelope, else the `error`
      as a thrown message, else the reply itself. Reading a field of `null` throws. */
  function Unwrap(data: Json): (r: Result<Json>)
    ensures data.JNull? ==> r.Failure?
    ensures Carries(data, "success") && Carries(data, "data") ==> r == Success(data.fields["data"])
    ensures !data.JNull? && !(Carries(data, "success") && Carries(data, "data")) && Carries(data, "error") ==>
      r == Failure(ToJsString(data.fields["error"]))
    ensures !data.JNull? && !(Carries(data, "success") && Carries(data, "data")) && !Carries(data, "error") ==>
      r == Success(data)
  {
    match Read(data, "success")
    case Failure(e) => Failure(e)
    case Success(success) =>
      var payload := Read(data, "data").value;
      var error := Read(data, "error").value;
      if Present(success) && Present(payload) then Success(payload.value)
      else if Present(error) then Failure(ToJsString(error.value))
      else Success(data)
  }

  /** The envelope the search route builds for a result, `{success: true, data}`. */
  function Envelope(d: Json): Json {
    JObj(map["success" := JBool(true), "data" := d])
  }

  /** The envelope the search route builds for an error, `{error: message}`. */
  function ErrorEnvelope(message: string): Json {
    JObj(map["error" := JStr(message)])
  }

  /** Unwrapping undoes the route's success envelope for any truthy payload. */
  lemma {:induction false} UnwrapEnvelope(d: Json)
    requires Truthy(d)
    ensures Unwrap(Envelope(d)) == Success(d)
  {
    assert "success" in Envelope(d).fields && "data" in Envelope(d).fields;
  }

  /** An error envelope becomes a thrown error with the route's message. */
  lemma {:induction false} UnwrapErrorEnvelope(message: string)
    requires message != ""
    ensures Unwrap(ErrorEnvelope(message)) == Failure(message)
  {
    var e := ErrorEnvelope(message);
    assert "error" in e.fields && "success" !in e.fields;
  }

  /** A success envelope whose payload is falsy is not unwrapped: the whole envelope
      is returned. */
  lemma {:induction false} EmptyEnvelopeReturnedWhole()
    ensures Unwrap(Envelope(JNull)) == Success(Envelope(JNull))
  {
    var e := Envelope(JNull);
    assert "error" !in e.fields && "data" in e.fields;
  }

  /** A reply that is neither an envelope nor an error is returned unchanged, and a
      `null` reply throws. */
  lemma {:induction false} UnwrapPassesPlainReplies(data: Json)
    ensures data.JNull? ==> Unwrap(data).Failure?
    ensures data.JArr? ==> Unwrap(data) == Success(data)
    ensures data.JObj? && "success" !in data.fields && "error" !in data.fields ==> Unwrap(data) == Success(data)
  {
  }

  /** What `performSearch` makes of the fetch outcome. */
  function HandleResponse(outcome: Result<HttpResponse>): (r: Result<Json>)
    ensures outcome.Failure? ==> r == Failure(outcome.error)
    ensures outcome.Success? && !outcome.value.ok ==>
      r == Failure("Search failed: " + outcome.value.statusText + " (" + Text.IntToString(outcome.value.status) + ")")
    ensures r.Success? ==> outcome.Success? && outcome.value.ok && outcome.value.json.Success?
    ensures outcome.Success? && outcome.value.ok && outcome.value.json.Failure? ==> r == Failure(outcome.value.json.error)
    ensures outcome.Success? && outcome.value.ok && outcome.value.json.Success? ==> r == Unwrap(outcome.value.json.value)
  {
    match outcome
    case Failure(e) => Failure(e)
    case Success(resp) =>
      if !resp.ok then Failure("Search failed: " + resp.statusText + " (" + Text.IntToString(resp.status) + ")")
      else
        match resp.json
        case Failure(e) => Failure(e)
        case Success(data) => Unwrap(data)
  }

  /** A rejected response carries its status text and code; the value the source's
      tests fix. */
  lemma {:induction false} NotFoundMessage(json: Result<Json>)
    ensures HandleResponse(Success(HttpResponse(false, 404, "Not Found", json))) == Failure("Search failed: Not Found (404)")
  {
    assert Text.IntToString(404) == "404";
  }

  /** Network errors are rethrown unchanged. */
  lemma {:induction false} NetworkErrorsPropagate(e: string)
    ensures HandleResponse(Failure(e)) == Failure(e)
  {
  }

  /** `performSearch`: builds the URL step by step, POSTs `{query, language}` with
      JavaScript as the default language, and hands the outcome to `HandleResponse`. */
  method PerformSearch(query: string, language: Option<string>, env: Env,
                       fetch: FetchRequest -> Result<HttpResponse>)
    returns (request: FetchRequest, r: Result<Json>)
    ensures request.url == BaseUrl(env) + "/api/search"
    ensures request.httpMethod == "POST" && request.contentType == "application/json" && request.noStore
    ensures request.body == SearchBody(query, OrElse(language, "JavaScript"))
    ensures r == HandleResponse(fetch(request))
  {
    var baseUrl := "";
    if env.isServer {
      if env.vercelUrl.Some? && env.vercelUrl.value != "" {
        baseUrl := "https://" + env.vercelUrl.value;
      } else {
        baseUrl := OrElse(env.nextauthUrl, "http://localhost:3000");
      }
    }
    var searchUrl := baseUrl + "/api/search";
    request := FetchRequest(searchUrl, "POST", "application/json", SearchBody(query, OrElse(language, "JavaScript")), true);
    var outcome := fetch(request);
    if outcome.Failure? {
      return request, Failure(outcome.error);
    }
    var response := outcome.value;
    if !response.ok {
      return request, Failure("Search failed: " + response.statusText + " (" + Text.IntToString(response.status) + ")");
    }
    if response.json.Failure? {
      return request, Failure(response.json.error);
    }
    var data := response.json.value;
    r := Unwrap(data);
  }
}
