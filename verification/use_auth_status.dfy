/** The second "who am I" query, src/hooks/useAuthStatus.ts. It shares the
    `['auth-status']` key with the copy in useAuth.ts but wraps the body as
    `{ user }` and pins its refetch options. */
module AuthStatusQuery {
  import opened Common
  import opened ClientState
  import opened Api
  import AuthHooks

  /** The react-query options the hook passes; `None` leaves the library default. */
  datatype QueryOptions = QueryOptions(
    retry: bool,
    enabled: bool,
    staleTimeMs: Option<nat>,
    refetchOnWindowFocus: Option<bool>,
    refetchOnMount: Option<bool>)

  const FiveMinutesMs: nat := 5 * 60 * 1000

  /** The options of this copy: enabled only in a browser with a non-empty
      stored token, never retried, never refetched on window focus, fresh for
      five minutes. */
  function Options(isBrowser: bool, token: Option<string>): (o: QueryOptions)
    ensures o.enabled <==> isBrowser && token.Some? && token.value != ""
    ensures !o.retry
    ensures o.refetchOnWindowFocus == Some(false)
    ensures o.refetchOnMount == Some(true)
    ensures o.staleTimeMs == Some(300000)
  {
    QueryOptions(false, AuthHooks.StatusQueryEnabled(isBrowser, token), Some(FiveMinutesMs), Some(false), Some(true))
  }

  /** One run of this copy: disabled, no request and no change; enabled, one
      request whose success is cached as `{ user }` and whose failure removes
      the token and rethrows. */
  function Run(c: Client, isBrowser: bool, reply: Reply<User>): (r: (Client, AuthHooks.QueryRun<AuthStatusData>, nat))
    ensures !Options(isBrowser, c.token).enabled ==> r == (c, AuthHooks.Skipped, 0)
    ensures Options(isBrowser, c.token).enabled ==> r.2 == 1
    ensures Options(isBrowser, c.token).enabled && reply.Ok? ==>
              && r.1 == AuthHooks.Succeeded(Wrapped(reply.data))
              && r.0 == c.(authStatus := Cached(Wrapped(reply.data)))
    ensures Options(isBrowser, c.token).enabled && reply.Err? ==>
              r.1 == AuthHooks.Failed(reply.error) && r.0.token.None?
  {
    if !Options(isBrowser, c.token).enabled then (c, AuthHooks.Skipped, 0)
    else
      var (c1, answer) := Deliver(c, reply);
      match answer
      case Ok(u) => (c1.(authStatus := Cached(Wrapped(u))), AuthHooks.Succeeded(Wrapped(u)), 1)
      case Err(e) => (c1.(token := None), AuthHooks.Failed(e), 1)
  }

  /** The two copies agree on when they run and on what a failure does, but a
      success leaves differently shaped data under the same cache key. */
  lemma CopiesDifferOnlyInShape(c: Client, isBrowser: bool, reply: Reply<User>)
    ensures Run(c, isBrowser, reply).2 == AuthHooks.RunStatusQuery(c, isBrowser, reply).2
    ensures reply.Err? ==> Run(c, isBrowser, reply).0 == AuthHooks.RunStatusQuery(c, isBrowser, reply).0
    ensures reply.Ok? && Options(isBrowser, c.token).enabled ==>
              && Run(c, isBrowser, reply).0.authStatus == Cached(Wrapped(reply.data))
              && AuthHooks.RunStatusQuery(c, isBrowser, reply).0.authStatus == Cached(Bare(reply.data))
  {
  }
}
