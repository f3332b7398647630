/** The client route guard, src/components/auth/RequireAuth.tsx: what it
    renders and where its effect navigates, from the context's `user` and
    `isLoading` alone (the current page is not an input). */
module RequireAuth {
  import opened Common
  import opened ClientState

  /** The effect's navigation: none, or `router.replace(target)`. */
  datatype Navigation = Stay | ReplaceWith(target: string)

  /** What the guard renders. */
  datatype View = Spinner | Children | Blank

  /** The effect as written: while loading nothing happens; once settled,
      an anonymous visitor is sent to `/login` and a signed-in user to
      `/dashboard`, whatever page the guard wraps. */
  function Navigate(user: Option<User>, isLoading: bool): (n: Navigation)
    ensures n == Stay <==> isLoading
    ensures !isLoading && user.None? ==> n == ReplaceWith("/login")
    ensures !isLoading && user.Some? ==> n == ReplaceWith("/dashboard")
  {
    if !isLoading && user.None? then ReplaceWith("/login")
    else if !isLoading && user.Some? then ReplaceWith("/dashboard")
    else Stay
  }

  /** The render: the spinner while loading, the children exactly when
      settled with a user, nothing otherwise. */
  function Render(user: Option<User>, isLoading: bool): (v: View)
    ensures v == Spinner <==> isLoading
    ensures v == Children <==> !isLoading && user.Some?
    ensures v == Blank <==> !isLoading && user.None?
  {
    if isLoading then Spinner else if user.Some? then Children else Blank
  }

  /** As written, no page the guard wraps other than `/dashboard` can be
      stayed on: whenever the children render, the effect replaces the page
      with `/dashboard`, so the guarded `/chat` page never stays open. */
  lemma GuardedPageOtherThanDashboardNeverStays(user: Option<User>, isLoading: bool, page: string)
    requires page != "/dashboard"
    ensures Render(user, isLoading) == Children ==> Navigate(user, isLoading) != ReplaceWith(page)
    ensures Render(user, isLoading) == Children ==> Navigate(user, isLoading) != Stay
  {
  }

  /** The effect as evidently intended: send only anonymous visitors away. */
  function NavigateIntended(user: Option<User>, isLoading: bool): (n: Navigation)
    ensures n == ReplaceWith("/login") <==> !isLoading && user.None?
    ensures n == Stay <==> isLoading || user.Some?
  {
    if !isLoading && user.None? then ReplaceWith("/login") else Stay
  }

  /** With the intended effect a signed-in user sees the guarded page and
      is not navigated away, and the anonymous case is unchanged. */
  lemma IntendedGuardKeepsSignedInUser(user: Option<User>, isLoading: bool)
    ensures Render(user, isLoading) == Children <==> (!isLoading && NavigateIntended(user, isLoading) == Stay && user.Some?)
    ensures user.None? ==> NavigateIntended(user, isLoading) == Navigate(user, isLoading)
  {
  }
}
