/** The authentication hooks of src/hooks/useAuth.ts: the "who am I" status
    query and the login, register and logout mutations, each as one atomic
    transition of the client state driven by the network's reply. Every
    request goes through the shared axios instance, so its response
    interceptor runs before the hook's own error handling. */
module AuthHooks {
  import opened Common
  import opened ClientState
  import opened Api

  /** The `/auth/login` response body (src/types/auth.ts). */
  datatype LoginResponse = LoginResponse(user: User, accessToken: string, tokenType: string)

  /** The `/auth/register` response body as the hook reads it: `token` is the
      property it stores and is absent when the server only sends
      `access_token`. */
  datatype RegisterResponse = RegisterResponse(user: User, accessToken: Option<string>, token: Option<string>)

  /** What an awaiting caller receives when a mutation rejects: the axios
      error itself, or an `Error` the hook threw with a message. */
  datatype AuthFailure = AxiosFailure(error: AxiosError) | ErrorMessage(message: string)

  /** How a `mutateAsync` promise settles. */
  datatype Settled<+T> = Resolved(value: T) | Rejected(reason: AuthFailure)

  /** One run of a query: not started because it is disabled, or settled. */
  datatype QueryRun<+T> = Skipped | Succeeded(data: T) | Failed(error: AxiosError)

  const BadCredentials := "Incorrect email or password"

  /** The `enabled` option of both status queries: in a browser, with a
      non-empty stored token. */
  predicate StatusQueryEnabled(isBrowser: bool, token: Option<string>) {
    isBrowser && Truthy(token)
  }

  /** `useAuthStatus` as written in useAuth.ts. Returns the new state, the
      query's outcome and how many `/auth/me` requests were sent. Disabled, it
      sends nothing and changes nothing; enabled, it sends exactly one request
      (`retry: false`); success caches the body under `['auth-status']`;
      failure removes the token and rethrows. */
  function RunStatusQuery(c: Client, isBrowser: bool, reply: Reply<User>): (r: (Client, QueryRun<User>, nat))
    ensures !StatusQueryEnabled(isBrowser, c.token) ==> r == (c, Skipped, 0)
    ensures StatusQueryEnabled(isBrowser, c.token) ==> r.2 == 1
    ensures StatusQueryEnabled(isBrowser, c.token) && reply.Ok? ==>
              r.1 == Succeeded(reply.data) && r.0 == c.(authStatus := Cached(Bare(reply.data)))
    ensures StatusQueryEnabled(isBrowser, c.token) && reply.Err? ==>
              && r.1 == Failed(reply.error)
              && r.0.token.None?
              && r.0.location == (if HasStatus(reply.error, 401) then "/login" else c.location)
              && r.0.(token := c.token, location := c.location) == c
  {
    if !StatusQueryEnabled(isBrowser, c.token) then (c, Skipped, 0)
    else
      var (c1, answer) := Deliver(c, reply);
      match answer
      case Ok(u) => (c1.(authStatus := Cached(Bare(u))), Succeeded(u), 1)
      case Err(e) => (c1.(token := None), Failed(e), 1)
  }

  /** The login `mutationFn`'s catch: a 401 becomes the credentials message,
      any other error is rethrown as it is. */
  function LoginFailure(e: AxiosError): (f: AuthFailure)
    ensures f == ErrorMessage(BadCredentials) <==> HasStatus(e, 401)
    ensures !HasStatus(e, 401) ==> f == AxiosFailure(e)
  {
    if HasStatus(e, 401) then ErrorMessage(BadCredentials) else AxiosFailure(e)
  }

  /** `useLogin().mutateAsync`. Success stores `access_token` as the token,
      caches the user under `['user']` and pushes `/dashboard`. Failure
      removes the token (`onError`) and rejects; nothing else but the
      interceptor's 401 redirect changes. */
  function Login(c: Client, reply: Reply<LoginResponse>): (r: (Client, Settled<LoginResponse>))
    ensures reply.Ok? ==> r.1 == Resolved(reply.data)
    ensures reply.Ok? ==> r.0.token == Some(reply.data.accessToken)
    ensures reply.Ok? ==> r.0.userCache == Cached(Some(reply.data.user))
    ensures reply.Ok? ==> r.0.routerLog == c.routerLog + ["/dashboard"]
    ensures reply.Ok? ==> r.0.(token := c.token, userCache := c.userCache, routerLog := c.routerLog) == c
    ensures reply.Err? ==> r.1 == Rejected(LoginFailure(reply.error))
    ensures reply.Err? ==> r.0.token.None?
    ensures reply.Err? ==> r.0.location == (if HasStatus(reply.error, 401) then "/login" else c.location)
    ensures reply.Err? ==> r.0.(token := c.token, location := c.location) == c
  {
    var (c1, answer) := Deliver(c, reply);
    match answer
    case Ok(data) =>
      (c1.(token := Some(data.accessToken), userCache := Cached(Some(data.user)),
           routerLog := c1.routerLog + ["/dashboard"]),
       Resolved(data))
    case Err(e) => (c1.(token := None), Rejected(LoginFailure(e)))
  }

  /** `useRegister().mutateAsync` as written. Success stores the response's
      `token` property, which is `"undefined"` when the server sent only
      `access_token`, and caches the user; it does not navigate. Failure has
      no handler of its own: only the interceptor acts. */
  function Register(c: Client, reply: Reply<RegisterResponse>): (r: (Client, Settled<RegisterResponse>))
    ensures reply.Ok? ==> r.1 == Resolved(reply.data)
    ensures reply.Ok? ==> r.0.token == Some(JsString(reply.data.token))
    ensures reply.Ok? ==> r.0.userCache == Cached(Some(reply.data.user))
    ensures reply.Ok? ==> r.0.(token := c.token, userCache := c.userCache) == c
    ensures reply.Err? ==> r.1 == Rejected(AxiosFailure(reply.error))
    ensures reply.Err? ==> r.0 == OnResponseError(c, reply.error).0
  {
    var (c1, answer) := Deliver(c, reply);
    match answer
    case Ok(data) =>
      (c1.(token := Some(JsString(data.token)), userCache := Cached(Some(data.user))), Resolved(data))
    case Err(e) => (c1, Rejected(AxiosFailure(e)))
  }

  /** Register as evidently intended: store the `access_token` the API
      returns, as login does. */
  function RegisterStoringAccessToken(c: Client, reply: Reply<RegisterResponse>): (r: (Client, Settled<RegisterResponse>))
    ensures reply.Ok? ==> r.0.token == Some(JsString(reply.data.accessToken))
    ensures reply.Ok? ==> r.0.userCache == Cached(Some(reply.data.user))
    ensures reply.Err? ==> r == Register(c, reply)
  {
    var (c1, answer) := Deliver(c, reply);
    match answer
    case Ok(data) =>
      (c1.(token := Some(JsString(data.accessToken)), userCache := Cached(Some(data.user))), Resolved(data))
    case Err(e) => (c1, Rejected(AxiosFailure(e)))
  }

  /** As written, a registration answered with `access_token` only makes
      every later axios request carry `Bearer undefined`. */
  lemma RegisterSendsBearerUndefined(c: Client, user: User, accessToken: string, config: RequestConfig)
    ensures var c1 := Register(c, Ok(RegisterResponse(user, Some(accessToken), None))).0;
            AttachToken(c1.token, config).headers[AuthorizationHeader] == "Bearer undefined"
  {
  }

  /** With the intended definition, the next request carries the access
      token the server issued. */
  lemma CorrectedRegisterSendsAccessToken(c: Client, user: User, accessToken: string, config: RequestConfig)
    requires accessToken != ""
    ensures var c1 := RegisterStoringAccessToken(c, Ok(RegisterResponse(user, Some(accessToken), None))).0;
            AttachToken(c1.token, config).headers[AuthorizationHeader] == "Bearer " + accessToken
  {
  }

  /** `useLogout().mutateAsync`. Only after the POST succeeds is the token
      removed and `['user']` set to null; a failed POST rejects with the
      token and the cache untouched (only the interceptor acts). */
  function Logout(c: Client, reply: Reply<()>): (r: (Client, Settled<()>))
    ensures reply.Ok? ==> r.1.Resolved?
    ensures reply.Ok? ==> r.0.token.None? && r.0.userCache == Cached(None)
    ensures reply.Ok? ==> r.0.(token := c.token, userCache := c.userCache) == c
    ensures reply.Err? ==> r.1 == Rejected(AxiosFailure(reply.error))
    ensures reply.Err? ==> r.0.userCache == c.userCache
    ensures reply.Err? && !HasStatus(reply.error, 401) ==> r.0 == c
  {
    var (c1, answer) := Deliver(c, reply);
    match answer
    case Ok(_) => (c1.(token := None, userCache := Cached(None)), Resolved(()))
    case Err(e) => (c1, Rejected(AxiosFailure(e)))
  }
}
