/** The shared axios instance (src/lib/api.ts): module-load check of the API
    base URL, the request interceptor that attaches the stored bearer token
    and the response interceptor that reacts to HTTP 401. */
module Api {
  import opened Common
  import opened ClientState

  /** The body of an error response: JSON `null`, or an object (or any other
      value) whose `message` property may be missing. */
  datatype ErrorBody = NullBody | ObjectBody(message: Option<string>)

  datatype HttpResponse = HttpResponse(status: int, body: ErrorBody)

  /** An axios rejection; `response` is absent when no HTTP response arrived. */
  datatype AxiosError = AxiosError(response: Option<HttpResponse>)

  /** What the network did with one axios request. */
  datatype Reply<+T> = Ok(data: T) | Err(error: AxiosError)

  /** `error.response?.status === status`. */
  predicate HasStatus(e: AxiosError, status: int) {
    e.response.Some? && e.response.value.status == status
  }

  const MissingApiUrl := "NEXT_PUBLIC_API_URL environment variable is not set"
  const DefaultWsUrl := "ws://localhost:8080"
  const AuthorizationHeader := "Authorization"

  datatype ApiClient = ApiClient(baseUrl: string, wsBaseUrl: string, defaultHeaders: map<string, string>)

  /** Module load: throws unless the API URL is set to a non-empty string;
      the WebSocket URL falls back to the local default when unset or empty. */
  function CreateApi(apiUrl: Option<string>, wsUrl: Option<string>): (r: Result<ApiClient>)
    ensures r.Failure? <==> !Truthy(apiUrl)
    ensures r.Failure? ==> r.error == MissingApiUrl
    ensures r.Success? ==> r.value.baseUrl == apiUrl.value
    ensures r.Success? ==> r.value.defaultHeaders == map["Content-Type" := "application/json"]
    ensures r.Success? && Truthy(wsUrl) ==> r.value.wsBaseUrl == wsUrl.value
    ensures r.Success? && !Truthy(wsUrl) ==> r.value.wsBaseUrl == DefaultWsUrl
  {
    if !Truthy(apiUrl) then Failure(MissingApiUrl)
    else
      var ws := if Truthy(wsUrl) then wsUrl.value else DefaultWsUrl;
      Success(ApiClient(apiUrl.value, ws, map["Content-Type" := "application/json"]))
  }

  datatype RequestConfig = RequestConfig(url: string, headers: map<string, string>)

  /** The request interceptor. It only reads the token slot (it returns no
      storage), sets `Authorization` exactly when the stored token is a
      non-empty string, and leaves every other part of the request alone. */
  function AttachToken(token: Option<string>, config: RequestConfig): (r: RequestConfig)
    ensures r.url == config.url
    ensures forall h :: h in config.headers && h != AuthorizationHeader ==>
              h in r.headers && r.headers[h] == config.headers[h]
    ensures Truthy(token) ==> r.headers.Keys == config.headers.Keys + {AuthorizationHeader}
    ensures Truthy(token) ==> r.headers[AuthorizationHeader] == "Bearer " + token.value
    ensures !Truthy(token) ==> r == config
  {
    if Truthy(token) then config.(headers := config.headers[AuthorizationHeader := "Bearer " + token.value])
    else config
  }

  /** On a request that did not carry a header yet, the header is present
      after the interceptor exactly when a non-empty token is stored. */
  lemma AttachIffTokenTruthy(token: Option<string>, config: RequestConfig)
    requires AuthorizationHeader !in config.headers
    ensures AuthorizationHeader in AttachToken(token, config).headers <==> Truthy(token)
  {
  }

  /** The rejection half of the response interceptor: a 401 removes the
      stored token and assigns `/login` to the location; any other error,
      including one without a response, changes nothing. The error is
      rejected again unchanged in every case. These are the effects inside
      the open page; the page load the assignment starts is `Session.Step`'s. */
  function OnResponseError(c: Client, e: AxiosError): (r: (Client, AxiosError))
    ensures r.1 == e
    ensures HasStatus(e, 401) ==> r.0.token.None? && r.0.location == "/login"
    ensures r.0.(token := c.token, location := c.location) == c
    ensures !HasStatus(e, 401) ==> r.0 == c
  {
    if HasStatus(e, 401) then (c.(token := None, location := "/login"), e) else (c, e)
  }

  /** One axios round trip as its caller sees it: a success passes through
      with the state unchanged, a rejection goes through `OnResponseError`
      and reaches the caller as the same rejection. */
  function Deliver<T>(c: Client, reply: Reply<T>): (r: (Client, Reply<T>))
    ensures r.1 == reply
    ensures reply.Ok? ==> r.0 == c
    ensures reply.Err? ==> r.0 == OnResponseError(c, reply.error).0
  {
    match reply
    case Ok(_) => (c, reply)
    case Err(e) => (OnResponseError(c, e).0, reply)
  }

  /** Handling the same reply twice leaves the state as handling it once. */
  lemma DeliverIdempotent<T>(c: Client, reply: Reply<T>)
    ensures Deliver(Deliver(c, reply).0, reply) == Deliver(c, reply)
  {
  }
}
