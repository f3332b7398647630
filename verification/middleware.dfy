/** The edge route decision, src/middleware.ts. It sees only the request
    path and the `token` cookie, never the browser's `localStorage`. */
module Middleware {
  import opened Common

  const ProtectedRoutes: seq<string> := ["/dashboard", "/documents", "/profile"]
  const AuthRoutes: seq<string> := ["/login", "/register"]

  /** Let the request through, or redirect it; a redirect may also delete
      the `token` cookie. */
  datatype Decision = Next | Redirect(target: string, deletesTokenCookie: bool)

  /** `protectedRoutes.some(route => pathname.startsWith(route))`. */
  predicate IsProtected(path: string) {
    exists k :: 0 <= k < |ProtectedRoutes| && ProtectedRoutes[k] <= path
  }

  /** `authRoutes.includes(pathname)`: exact membership. */
  predicate IsAuthRoute(path: string) {
    path in AuthRoutes
  }

  /** `middleware(request)`. The cookie is `request.cookies.get('token')`,
      a cookie object that is truthy whenever the cookie exists, even with
      an empty value. */
  function Decide(path: string, cookie: Option<string>): (d: Decision)
    ensures IsProtected(path) && cookie.None? ==> d == Redirect("/login", true)
    ensures IsAuthRoute(path) && cookie.Some? ==> d == Redirect("/dashboard", false)
    ensures d == Next <==> !(IsProtected(path) && cookie.None?) && !(IsAuthRoute(path) && cookie.Some?)
  {
    if IsProtected(path) && cookie.None? then Redirect("/login", true)
    else if IsAuthRoute(path) && cookie.Some? then Redirect("/dashboard", false)
    else Next
  }

  /** Protection is by prefix: sub-paths and mere textual extensions of a
      protected route are protected too. */
  lemma ProtectionIsByPrefix()
    ensures Decide("/dashboard/x", None) == Redirect("/login", true)
    ensures Decide("/documentsfoo", None) == Redirect("/login", true)
    ensures Decide("/profile", Some("")) == Next
  {
    assert ProtectedRoutes[0] <= "/dashboard/x";
    assert ProtectedRoutes[1] <= "/documentsfoo";
  }

  /** Auth-route matching is exact: `/login/x` is neither an auth route nor
      protected, so a signed-in visitor is let through to it. */
  lemma AuthRoutesAreExact()
    ensures !IsAuthRoute("/login/x") && !IsProtected("/login/x")
    ensures Decide("/login/x", Some("t")) == Next
    ensures Decide("/register", Some("")) == Redirect("/dashboard", false)
  {
    assert "/login/x"[1] == 'l';
    assert !("/dashboard" <= "/login/x") && !("/documents" <= "/login/x") && !("/profile" <= "/login/x");
  }

  /** No redirect loop: the redirect target, requested with the same cookie
      or with the cookie the redirect leaves behind, is let through. */
  lemma {:induction false} NoRedirectLoop(path: string, cookie: Option<string>)
    ensures var d := Decide(path, cookie);
            d.Redirect? ==> Decide(d.target, cookie) == Next
    ensures var d := Decide(path, cookie);
            d.Redirect? ==> Decide(d.target, if d.deletesTokenCookie then None else cookie) == Next
  {
    assert !IsProtected("/login") by {
      assert "/login"[1] == 'l';
      assert !("/dashboard" <= "/login") && !("/documents" <= "/login") && !("/profile" <= "/login");
    }
    assert IsProtected("/dashboard") by {
      assert ProtectedRoutes[0] <= "/dashboard";
    }
    assert !IsAuthRoute("/dashboard");
  }
}
