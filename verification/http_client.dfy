/**
 * The HTTP client set up in src/lib/api/axios.ts: its base URL, the request
 * interceptor that attaches the session token, and the response interceptor
 * that shows an error toast and passes the failure on.
 */
module HttpClient {
  import opened Wrappers

  const DefaultBaseUrl := "http://localhost:8787/api"

  /** `VITE_API_URL || 'http://localhost:8787/api'`: an unset or empty variable falls back. */
  function BaseUrl(env: Option<string>): (url: string)
    ensures url != ""
    ensures env.Some? && env.value != "" ==> url == env.value
    ensures env.None? || env.value == "" ==> url == DefaultBaseUrl
  {
    if env.Some? && env.value != "" then env.value else DefaultBaseUrl
  }

  /** An outgoing request's configuration; only its headers matter here. */
  datatype Config = Config(headers: map<string, string>, url: string)

  /**
   * The request interceptor: with a non-empty session token the
   * `Authorization` header becomes `Bearer <token>`; otherwise the
   * configuration goes out unchanged. Obtaining the token is not modelled.
   */
  function AttachToken(config: Config, token: Option<string>): (r: Config)
    ensures r.url == config.url
    ensures token.Some? && token.value != "" ==>
      && "Authorization" in r.headers
      && r.headers["Authorization"] == "Bearer " + token.value
      && forall k :: k in config.headers && k != "Authorization" ==>
           k in r.headers && r.headers[k] == config.headers[k]
    ensures token.Some? && token.value != "" ==> r.headers.Keys == config.headers.Keys + {"Authorization"}
    ensures token.None? || token.value == "" ==> r == config
  {
    if token.Some? && token.value != "" then
      config.(headers := config.headers["Authorization" := "Bearer " + token.value])
    else config
  }

  /** The failure a request rejects with; each level of the body may be missing. */
  datatype ErrorBody = ErrorBody(error: Option<string>)
  datatype ErrorResponse = ErrorResponse(data: Option<ErrorBody>)
  datatype HttpError = HttpError(response: Option<ErrorResponse>)

  /** `error.response?.data?.error`, when present and non-empty. */
  predicate HasServerMessage(e: HttpError) {
    && e.response.Some? && e.response.value.data.Some?
    && e.response.value.data.value.error.Some? && e.response.value.data.value.error.value != ""
  }

  /** The settled result of a request: a response, or a failure. */
  datatype Settlement<R> = Resolved(response: R) | Rejected(error: HttpError)

  /** The result the caller sees, and the error toast shown on the way. */
  datatype Intercepted<R> = Intercepted(result: Settlement<R>, toast: Option<string>)

  /**
   * The response interceptor. A response passes through untouched and
   * silently; a failure is passed on as the same rejection after a toast
   * showing the server's message, or `An error occurred` without one.
   */
  function InterceptResponse<R>(s: Settlement<R>): (r: Intercepted<R>)
    ensures r.result == s
    ensures r.toast.Some? <==> s.Rejected?
    ensures s.Rejected? && HasServerMessage(s.error) ==>
      r.toast == Some(s.error.response.value.data.value.error.value)
    ensures s.Rejected? && !HasServerMessage(s.error) ==> r.toast == Some("An error occurred")
    ensures r.toast.Some? ==> r.toast.value != ""
  {
    match s
    case Resolved(_) => Intercepted(s, None)
    case Rejected(e) =>
      var message :=
        if HasServerMessage(e) then e.response.value.data.value.error.value else "An error occurred";
      Intercepted(s, Some(message))
  }
}
