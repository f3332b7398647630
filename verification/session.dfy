/** The authentication slice as one state machine: the browser state and
    the provider state, driven by a sequence of settled operations. Each
    operation is atomic with a given network reply; the client keeps no
    generation counter, so none is modelled. A run spans page loads: a 401
    makes the response interceptor assign `/login` to the location, and the
    page that loads starts its provider and query cache afresh. */
module Session {
  import opened Common
  import opened ClientState
  import opened Api
  import AuthHooks
  import AuthStatusQuery
  import AuthContext
  import Middleware
  import RequireAuth

  datatype System = System(client: Client, provider: AuthContext.Provider)

  /** The operations that can touch the slice. `Request` is any other axios
      call (documents, search, upload, ...); the status queries run with
      the tab's `isBrowser` flag. */
  datatype Event =
    | Login(loginReply: Reply<AuthHooks.LoginResponse>)
    | Register(registerReply: Reply<AuthHooks.RegisterResponse>)
    | Logout(logoutReply: Reply<()>)
    | StatusQuery(isBrowser: bool, meReply: Reply<User>)
    | WrappedStatusQuery(isBrowser: bool, wrappedReply: Reply<User>)
    | Request(reply: Reply<()>)

  /** The event in the tab that is open: the operation settles with its
      reply, interceptors and handlers included. */
  function Settle(s: System, e: Event): (r: System)
    ensures r.client.cookieToken == s.client.cookieToken
    ensures e.StatusQuery? || e.WrappedStatusQuery? || e.Request? ==> r.provider == s.provider
    ensures r.provider.user != s.provider.user ==>
              || (e.Login? && e.loginReply.Ok?) || (e.Register? && e.registerReply.Ok?)
              || (e.Logout? && e.logoutReply.Ok?)
    ensures !AuthContext.IsLoading(s.provider) ==> !AuthContext.IsLoading(r.provider)
  {
    match e
    case Login(reply) =>
      var r := AuthContext.Login(s.client, s.provider, reply); System(r.0, r.1)
    case Register(reply) =>
      var r := AuthContext.Register(s.client, s.provider, reply); System(r.0, r.1)
    case Logout(reply) =>
      var r := AuthContext.Logout(s.client, s.provider, reply); System(r.0, r.1)
    case StatusQuery(isBrowser, reply) =>
      System(AuthHooks.RunStatusQuery(s.client, isBrowser, reply).0, s.provider)
    case WrappedStatusQuery(isBrowser, reply) =>
      System(AuthStatusQuery.Run(s.client, isBrowser, reply).0, s.provider)
    case Request(reply) =>
      System(Deliver(s.client, reply).0, s.provider)
  }

  /** The event sends a request and the server answers it with 401, so the
      response interceptor assigns `/login` to the location. A disabled
      status query sends nothing. */
  predicate Unauthorized(c: Client, e: Event) {
    match e
    case Login(reply) => reply.Err? && HasStatus(reply.error, 401)
    case Register(reply) => reply.Err? && HasStatus(reply.error, 401)
    case Logout(reply) => reply.Err? && HasStatus(reply.error, 401)
    case StatusQuery(isBrowser, reply) =>
      AuthHooks.StatusQueryEnabled(isBrowser, c.token) && reply.Err? && HasStatus(reply.error, 401)
    case WrappedStatusQuery(isBrowser, reply) =>
      AuthHooks.StatusQueryEnabled(isBrowser, c.token) && reply.Err? && HasStatus(reply.error, 401)
    case Request(reply) => reply.Err? && HasStatus(reply.error, 401)
  }

  /** The page load an assignment to the location starts. The document
      request passes the edge middleware first, which may redirect it (and
      delete the cookie); one redirect suffices, since its target is let
      through. `localStorage` survives, while the provider, the query cache
      and the router's history start over on the page that loads. */
  function Reload(c: Client): (r: System)
    ensures r.client.token == c.token
    ensures Middleware.Decide(r.client.location, r.client.cookieToken) == Middleware.Next
    ensures Middleware.Decide(c.location, c.cookieToken) == Middleware.Next ==>
              r.client.location == c.location && r.client.cookieToken == c.cookieToken
    ensures var d := Middleware.Decide(c.location, c.cookieToken);
            d.Redirect? ==> && r.client.location == d.target
                            && r.client.cookieToken == if d.deletesTokenCookie then None else c.cookieToken
    ensures r.client.userCache.Unset? && r.client.authStatus.Unset?
    ensures r.client.routerLog == [] && r.client.invalidated == []
    ensures r.provider.user.None? && !AuthContext.IsLoading(r.provider)
  {
    var d := Middleware.Decide(c.location, c.cookieToken);
    Middleware.NoRedirectLoop(c.location, c.cookieToken);
    match d
    case Next => System(Boot(c.token, c.cookieToken, c.location), AuthContext.Initial)
    case Redirect(target, deletes) =>
      System(Boot(c.token, if deletes then None else c.cookieToken, target), AuthContext.Initial)
  }

  /** One event: it settles in the open tab, and a 401 then replaces the
      tab's page with a fresh load of `/login`, which the middleware lets
      through or redirects. */
  function Step(s: System, e: Event): (r: System)
    ensures r.client.cookieToken == s.client.cookieToken
    ensures !AuthContext.IsLoading(s.provider) ==> !AuthContext.IsLoading(r.provider)
    ensures Unauthorized(s.client, e) ==>
              && r.client.token.None? && r.provider == AuthContext.Initial
              && Middleware.Decide(r.client.location, r.client.cookieToken) == Middleware.Next
    ensures !Unauthorized(s.client, e) ==> r == Settle(s, e)
  {
    var t := Settle(s, e);
    if Unauthorized(s.client, e) then Reload(t.client) else t
  }

  /** The events settle one after another. A session that starts settled
      stays settled between events: every operation clears its own pending
      flag. */
  function Run(s: System, events: seq<Event>): (r: System)
    ensures !AuthContext.IsLoading(s.provider) ==> !AuthContext.IsLoading(r.provider)
    decreases |events|
  {
    if events == [] then s else Run(Step(s, events[0]), events[1..])
  }

  /** Reference definition of the provider's user: none when the last event
      was answered with 401 (the page reloads and the provider starts over);
      otherwise the user of the last successful login or register, or none
      after a later successful logout; with no such event, the user the run
      started from. Whether a status query was sent depends on the token
      stored when it ran. */
  function LastUser(s: System, events: seq<Event>): Option<User>
    decreases |events|
  {
    if events == [] then s.provider.user
    else
      var e := events[|events| - 1];
      var rest := events[..|events| - 1];
      if Unauthorized(Run(s, rest).client, e) then None
      else match e
        case Login(reply) => if reply.Ok? then Some(reply.data.user) else LastUser(s, rest)
        case Register(reply) => if reply.Ok? then Some(reply.data.user) else LastUser(s, rest)
        case Logout(reply) => if reply.Ok? then None else LastUser(s, rest)
        case _ => LastUser(s, rest)
  }

  lemma {:induction false} RunSnoc(s: System, events: seq<Event>, e: Event)
    ensures Run(s, events + [e]) == Step(Run(s, events), e)
    decreases |events|
  {
    if events != [] {
      assert (events + [e])[1..] == events[1..] + [e];
      RunSnoc(Step(s, events[0]), events[1..], e);
    }
  }

  /** `user` is written only by successful login, register and logout, and
      reset by the page load a 401 causes: after any run it is the reference
      `LastUser`. Status queries that succeed, other requests and failures
      other than 401 leave it alone, so nothing bootstraps it from
      `/auth/me`. */
  lemma {:induction false} UserIsLastCredentialResult(s: System, events: seq<Event>)
    ensures Run(s, events).provider.user == LastUser(s, events)
    decreases |events|
  {
    if events != [] {
      var rest := events[..|events| - 1];
      var e := events[|events| - 1];
      assert events == rest + [e];
      RunSnoc(s, rest, e);
      UserIsLastCredentialResult(s, rest);
    }
  }

  /** A 401 on any request, whatever it was for, leaves a freshly loaded
      page with no token: no user, nothing cached, no history. Without a
      `token` cookie that page is `/login`; with one, the middleware sends
      the load of `/login` on to `/dashboard`. */
  lemma AnyUnauthorizedClearsToken(s: System, e: Event)
    requires Unauthorized(s.client, e)
    ensures Step(s, e) == System(Boot(None, s.client.cookieToken,
                                      if s.client.cookieToken.None? then "/login" else "/dashboard"),
                                 AuthContext.Initial)
  {
    assert Middleware.IsAuthRoute("/login");
    assert !Middleware.IsProtected("/login") by {
      assert "/login"[1] == 'l';
      assert !("/dashboard" <= "/login") && !("/documents" <= "/login") && !("/profile" <= "/login");
    }
  }

  /** A tab holding the `token` cookie that meets a 401 lands on the
      dashboard, signed out; the guard there then replaces it with `/login`. */
  lemma UnauthorizedWithCookieLandsOnDashboard(s: System, err: AxiosError)
    requires HasStatus(err, 401) && s.client.cookieToken == Some("t")
    ensures var t := Step(s, Request(Err(err)));
            && t.client.location == "/dashboard" && t.client.token.None?
            && RequireAuth.Navigate(t.provider.user, AuthContext.IsLoading(t.provider)) == RequireAuth.ReplaceWith("/login")
  {
    AnyUnauthorizedClearsToken(s, Request(Err(err)));
  }

  /** A signed-in user whose next request is answered with 401 is signed out
      and sent to `/login` by the guard of the reloaded page. */
  lemma UnauthorizedAfterLoginSignsOut(s: System, answer: AuthHooks.LoginResponse, err: AxiosError)
    requires HasStatus(err, 401)
    ensures var t := Run(s, [Login(Ok(answer)), Request(Err(err))]);
            && t.provider.user.None?
            && RequireAuth.Navigate(t.provider.user, AuthContext.IsLoading(t.provider)) == RequireAuth.ReplaceWith("/login")
  {
    var es := [Login(Ok(answer)), Request(Err(err))];
    var s1 := Step(s, es[0]);
    assert es[1..] == [es[1]];
    assert Run(s, es) == Run(s1, es[1..]) == Step(s1, es[1]);
  }

  /** The login, logout, login scenario ends with the identity and the
      token of the last login. */
  lemma LoginLogoutLogin(s: System, first: AuthHooks.LoginResponse, second: AuthHooks.LoginResponse)
    ensures var t := Run(s, [Login(Ok(first)), Logout(Ok(())), Login(Ok(second))]);
            t.provider.user == Some(second.user) && t.client.token == Some(second.accessToken)
  {
    var es := [Login(Ok(first)), Logout(Ok(())), Login(Ok(second))];
    var s1 := Step(s, es[0]);
    var s2 := Step(s1, es[1]);
    assert es[1..][1..] == [es[2]];
    assert Run(s, es) == Run(s1, es[1..]) == Run(s2, [es[2]]) == Step(s2, es[2]);
  }

  /** No event writes the `token` cookie: it stays whatever the tab was
      loaded with. */
  lemma {:induction false} CookieNeverWritten(s: System, events: seq<Event>)
    ensures Run(s, events).client.cookieToken == s.client.cookieToken
    decreases |events|
  {
    if events != [] {
      CookieNeverWritten(Step(s, events[0]), events[1..]);
    }
  }

  /** Hence, without a cookie at load, the middleware redirects every
      protected path to `/login` however the session goes, a successful
      login included. The API's replies are taken not to set the cookie. */
  lemma ProtectedPathsStayLocked(s: System, events: seq<Event>, path: string)
    requires s.client.cookieToken.None?
    requires Middleware.IsProtected(path)
    ensures Middleware.Decide(path, Run(s, events).client.cookieToken) == Middleware.Redirect("/login", true)
  {
    CookieNeverWritten(s, events);
  }

  /** With no stored token the status query sends no request and changes nothing. */
  lemma NoTokenNoStatusRequest(s: System, isBrowser: bool, reply: Reply<User>)
    requires !Truthy(s.client.token)
    ensures AuthHooks.RunStatusQuery(s.client, isBrowser, reply).2 == 0
    ensures Step(s, StatusQuery(isBrowser, reply)) == s
  {
  }

  /** Right after a page load the guard sends the visitor to `/login`, even
      when a valid token is stored, because the provider starts with no user
      and the status queries never give it one. */
  lemma ReloadSendsToLogin(c: Client, events: seq<Event>)
    requires forall k :: 0 <= k < |events| ==> events[k].StatusQuery? || events[k].WrappedStatusQuery?
    ensures var t := Run(System(c, AuthContext.Initial), events);
            RequireAuth.Navigate(t.provider.user, AuthContext.IsLoading(t.provider)) == RequireAuth.ReplaceWith("/login")
  {
    QueriesKeepOrResetProvider(System(c, AuthContext.Initial), events);
  }

  /** Status queries never write the provider: it stays as it was, or starts
      over when a query's 401 reloads the page. */
  lemma {:induction false} QueriesKeepOrResetProvider(s: System, events: seq<Event>)
    requires forall k :: 0 <= k < |events| ==> events[k].StatusQuery? || events[k].WrappedStatusQuery?
    ensures Run(s, events).provider == s.provider || Run(s, events).provider == AuthContext.Initial
    decreases |events|
  {
    if events != [] {
      QueriesKeepOrResetProvider(Step(s, events[0]), events[1..]);
    }
  }

  /** While any credential operation is in flight the guard shows only its
      spinner and does not navigate. */
  lemma PendingOperationShowsSpinner(p: AuthContext.Provider, op: AuthContext.Operation)
    ensures var q := AuthContext.Start(p, op);
            && RequireAuth.Render(q.user, AuthContext.IsLoading(q)) == RequireAuth.Spinner
            && RequireAuth.Navigate(q.user, AuthContext.IsLoading(q)) == RequireAuth.Stay
  {
  }
}
