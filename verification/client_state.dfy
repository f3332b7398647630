/** The process-wide state one browser tab of the client owns, as plain data:
    the `token` slot of `localStorage`, the `token` cookie (read only by the
    edge middleware), the page location, the router's navigation log and the
    query-cache entries the authentication hooks write. */
module ClientState {
  import opened Common

  /** A user record as the API returns it (src/types/auth.ts). */
  datatype User = User(id: string, email: string, name: string)

  /** A query-cache entry: never written, or holding a value. */
  datatype CacheEntry<+T> = Unset | Cached(value: T)

  /** What the `['auth-status']` query stores: one copy of the status hook
      stores the `/auth/me` body as is, the other wraps it as `{ user }`. */
  datatype AuthStatusData = Bare(user: User) | Wrapped(user: User)

  /** The cache keys the client invalidates. */
  datatype QueryKey = DocumentsKey | DocumentInsightsKey

  datatype Client = Client(
    token: Option<string>,                // localStorage['token']
    cookieToken: Option<string>,          // the `token` cookie
    location: string,                     // window.location.href
    routerLog: seq<string>,               // router.push targets, oldest first
    userCache: CacheEntry<Option<User>>,  // query cache ['user']; Some(None) is null
    authStatus: CacheEntry<AuthStatusData>, // query cache ['auth-status']
    invalidated: seq<QueryKey>)           // invalidateQueries calls, oldest first

  /** A freshly loaded tab at `path` with whatever the browser kept. */
  function Boot(token: Option<string>, cookieToken: Option<string>, path: string): (c: Client)
    ensures c.token == token && c.cookieToken == cookieToken && c.location == path
    ensures c.routerLog == [] && c.invalidated == []
    ensures c.userCache.Unset? && c.authStatus.Unset?
  {
    Client(token, cookieToken, path, [], Unset, Unset, [])
  }

  /** How a direct `fetch` call settles: a response with `ok` set and its
      parsed body, a response without `ok`, or a thrown network or parse
      error. These calls bypass the axios interceptors. */
  datatype FetchOutcome<+T> = Fetched(data: T) | NotOk | Thrown

  /** The `Authorization` header the components that call `fetch` directly
      build: the stored token is interpolated whatever it is, so a missing
      token is sent as the text `null`. */
  function FetchAuthorization(token: Option<string>): (h: string)
    ensures |h| >= 7 && h[..7] == "Bearer "
    ensures token.None? ==> h == "Bearer null"
    ensures token.Some? ==> h[7..] == token.value
  {
    "Bearer " + (match token case Some(t) => t case None => "null")
  }
}
