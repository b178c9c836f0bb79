/** `fetchApi` of services/api.ts, through which every service call of the
    user interface goes, and the reading of a response body as JSON. */
module Api {
  import opened Wrappers
  import opened Text
  import opened JsValues

  /** A response as `fetch` resolves it: status, status text, the body as
      text, and the body parsed as JSON (None when it is not JSON). */
  datatype HttpResponse = HttpResponse(status: int, statusText: string, text: string, body: Option<Js>)

  /** The outcome of `fetch`: a response, or no response at all, which
      `fetch` rejects with a TypeError. */
  datatype Fetched = Responded(response: HttpResponse) | Unreachable

  /** `response.ok`. */
  predicate IsOk(r: HttpResponse) { 200 <= r.status <= 299 }

  function ApiErrorMessage(r: HttpResponse): string
  {
    "API error: " + IntToString(r.status) + " " + r.statusText
  }

  /** `fetchApi`, and `postApi`, `deleteApi` and `updateApi` built on it
      (lines 4-39): the response when it is ok; otherwise it throws "API
      error: <status> <statusText>". */
  function FetchApi(f: Fetched): (r: Result<HttpResponse, Thrown>)
    ensures r.Success? <==> f.Responded? && IsOk(f.response)
    ensures r.Success? ==> r.value == f.response
    ensures f.Unreachable? ==> r == Failure(TypeError)
    ensures f.Responded? && !IsOk(f.response) ==> r == Failure(Error(ApiErrorMessage(f.response)))
  {
    match f
    case Unreachable => Failure(TypeError)
    case Responded(resp) =>
      if !IsOk(resp) then Failure(Error(ApiErrorMessage(resp))) else Success(resp)
  }

  /** `response.json()`: a body that is not JSON throws a SyntaxError. */
  function BodyJson(r: HttpResponse): Result<Js, Thrown>
  {
    if r.body.Some? then Success(r.body.value) else Failure(SyntaxError)
  }

  /** `await (await fetchApi(...)).json()`: the JSON body of an ok response.
      `getThreatByIndicator` (threat-intell-service.ts) and
      `createIncidentReport` (incident-report-service.ts, through `postApi`)
      are exactly this call: their own `!response.ok` branches come after
      `fetchApi` has thrown, so they never run and the error names the API
      status, never the method's wording or the body text. */
  function FetchJson(f: Fetched): (r: Result<Js, Thrown>)
    ensures r.Success? <==> f.Responded? && IsOk(f.response) && f.response.body.Some?
    ensures r.Success? ==> r.value == f.response.body.value
    ensures f.Responded? && IsOk(f.response) && f.response.body.None? ==> r == Failure(SyntaxError)
    ensures f.Responded? && !IsOk(f.response) ==> r == Failure(Error(ApiErrorMessage(f.response)))
  {
    var resp := FetchApi(f);
    if resp.Failure? then Failure(resp.error) else BodyJson(resp.value)
  }

  /** The error a failed call leaves: an API error names the status and its
      text, so a status is never reported by the caller's own wording. */
  lemma ApiErrorNamesStatus(f: Fetched)
    requires f.Responded? && !IsOk(f.response)
    ensures FetchJson(f).Failure? && FetchJson(f).error.Error?
    ensures StartsWith(FetchJson(f).error.message, "API error: " + IntToString(f.response.status))
  {
    var m := FetchJson(f).error.message;
    var p := "API error: " + IntToString(f.response.status);
    assert m == p + " " + f.response.statusText;
    assert m[..|p|] == p;
  }
}
