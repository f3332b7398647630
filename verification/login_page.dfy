/** The login page, src/app/login/page.tsx: the browser's check of the
    `type="email"` field, required-field validation, the submit button
    disabled while a mutation is pending, and the submit flow that awaits the
    context's `login` and then pushes `/dashboard`. */
module LoginPage {
  import opened Common
  import opened ClientState
  import opened Api
  import AuthHooks
  import AuthContext
  import NativeEmail
  import Session

  datatype LoginForm = LoginForm(email: string, password: string)

  /** The form's field errors; `None` means the field passed. */
  datatype LoginErrors = LoginErrors(email: Option<string>, password: Option<string>)

  const EmailRequired := "Email is required"
  const PasswordRequired := "Password is required"

  /** `required` rules: an empty field fails with its message. */
  function Validate(f: LoginForm): (e: LoginErrors)
    ensures e.email.Some? <==> f.email == ""
    ensures e.password.Some? <==> f.password == ""
    ensures e.email.Some? ==> e.email.value == EmailRequired
    ensures e.password.Some? ==> e.password.value == PasswordRequired
  {
    LoginErrors(if f.email == "" then Some(EmailRequired) else None,
                if f.password == "" then Some(PasswordRequired) else None)
  }

  predicate Passes(e: LoginErrors) {
    e.email.None? && e.password.None?
  }

  /** What pressing "Sign in" does: nothing while the button is disabled,
      the browser's own message when the e-mail field is not a valid address
      (the form has no `novalidate`, so no handler runs), field errors when
      validation fails, otherwise the login runs. */
  datatype Submission =
    | Disabled
    | Refused
    | Invalid(errors: LoginErrors)
    | Sent(client: Client, provider: AuthContext.Provider)

  /** The browser's check, then `handleSubmit(onSubmit)`. A successful login
      pushes `/dashboard` twice, once from the hook and once from the page;
      a failed one is only logged and navigates nowhere from the page. */
  function Submit(c: Client, p: AuthContext.Provider, f: LoginForm, reply: Reply<AuthHooks.LoginResponse>): (r: Submission)
    ensures r == Disabled <==> AuthContext.IsLoading(p)
    ensures r == Refused <==> !AuthContext.IsLoading(p) && NativeEmail.TypeMismatch(f.email)
    ensures r.Invalid? <==> && !AuthContext.IsLoading(p) && !NativeEmail.TypeMismatch(f.email)
                            && (f.email == "" || f.password == "")
    ensures r.Sent? ==> NativeEmail.IsValidAddress(f.email) && f.password != ""
    ensures r.Sent? ==> r.provider.user == (if reply.Ok? then Some(reply.data.user) else p.user)
    ensures r.Sent? && reply.Ok? ==> r.client.routerLog == c.routerLog + ["/dashboard", "/dashboard"]
    ensures r.Sent? && reply.Err? ==> r.client.routerLog == c.routerLog
  {
    if AuthContext.IsLoading(p) then Disabled
    else if NativeEmail.TypeMismatch(f.email) then Refused
    else
      var errors := Validate(f);
      if !Passes(errors) then Invalid(errors)
      else
        var (c1, p1, settled) := AuthContext.Login(c, p, reply);
        match settled
        case Resolved(_) => Sent(c1.(routerLog := c1.routerLog + ["/dashboard"]), p1)
        case Rejected(_) => Sent(c1, p1)
  }

  /** A non-empty e-mail without `@` never reaches the login request: the
      browser refuses the submit first. */
  lemma MalformedEmailNeverSent(c: Client, p: AuthContext.Provider, reply: Reply<AuthHooks.LoginResponse>)
    requires !AuthContext.IsLoading(p)
    ensures Submit(c, p, LoginForm("abc", "x"), reply) == Refused
  {
    NativeEmail.NoAtRefused("abc");
  }

  /** A sent form settles exactly like the session's `Login` event in the
      open page; the page adds its own push of `/dashboard` on success. */
  lemma SentIsSessionLogin(c: Client, p: AuthContext.Provider, f: LoginForm, reply: Reply<AuthHooks.LoginResponse>)
    requires Submit(c, p, f, reply).Sent?
    ensures var t := Session.Settle(Session.System(c, p), Session.Login(reply));
            var r := Submit(c, p, f, reply);
            && r.provider == t.provider
            && r.client == if reply.Ok? then t.client.(routerLog := t.client.routerLog + ["/dashboard"]) else t.client
  {
  }

  /** After a sent form, the session's user is the reference `LastUser` of
      the one-event run: the form's user, or none when the login was answered
      with 401 and the page reloaded. */
  lemma SentUserIsLastUser(c: Client, p: AuthContext.Provider, f: LoginForm, reply: Reply<AuthHooks.LoginResponse>)
    requires Submit(c, p, f, reply).Sent?
    ensures var s := Session.System(c, p);
            var expected := if reply.Err? && HasStatus(reply.error, 401) then None else Submit(c, p, f, reply).provider.user;
            && Session.LastUser(s, [Session.Login(reply)]) == expected
            && Session.Run(s, [Session.Login(reply)]).provider.user == expected
  {
    var s := Session.System(c, p);
    Session.UserIsLastCredentialResult(s, [Session.Login(reply)]);
    assert [Session.Login(reply)][..0] == [];
  }
}
