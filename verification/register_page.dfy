/** The registration page, src/app/register/page.tsx: the browser's check of
    the `type="email"` field, the four field validators (required, e-mail
    pattern, minimum length, confirmation) and the submit flow that awaits the context's `register` and then pushes
    `/dashboard`. */
module RegisterPage {
  import opened Common
  import opened ClientState
  import opened Api
  import AuthHooks
  import AuthContext
  import EmailPattern
  import NativeEmail

  datatype RegisterForm = RegisterForm(name: string, email: string, password: string, confirmPassword: string)

  /** The form's field errors; `None` means the field passed. */
  datatype RegisterErrors = RegisterErrors(
    name: Option<string>, email: Option<string>, password: Option<string>, confirmPassword: Option<string>)

  const NameRequired := "Name is required"
  const EmailRequired := "Email is required"
  const EmailInvalid := "Invalid email address"
  const PasswordRequired := "Password is required"
  const PasswordTooShort := "Password must be at least 8 characters"
  const ConfirmRequired := "Please confirm your password"
  const PasswordsDiffer := "Passwords do not match"
  const MinPasswordLength := 8

  /** One field's rules in the form library's order: `required` first, and
      the other rules only for a non-empty value. */
  function FieldError(value: string, required: string, rest: Option<string>): Option<string> {
    if value == "" then Some(required) else rest
  }

  /** The validators. Each field fails exactly when its rule is broken, with
      that rule's message. */
  function Validate(f: RegisterForm): (e: RegisterErrors)
    ensures f.name == "" <==> e.name == Some(NameRequired)
    ensures f.email == "" <==> e.email == Some(EmailRequired)
    ensures f.password == "" <==> e.password == Some(PasswordRequired)
    ensures f.confirmPassword == "" <==> e.confirmPassword == Some(ConfirmRequired)
    ensures e.name.None? <==> f.name != ""
    ensures e.email.None? <==> f.email != "" && EmailPattern.IsValidEmail(f.email)
    ensures e.email == Some(EmailInvalid) <==> f.email != "" && !EmailPattern.IsValidEmail(f.email)
    ensures e.password.None? <==> |f.password| >= MinPasswordLength
    ensures e.password == Some(PasswordTooShort) <==> 0 < |f.password| < MinPasswordLength
    ensures e.confirmPassword.None? <==> f.confirmPassword != "" && f.confirmPassword == f.password
    ensures e.confirmPassword == Some(PasswordsDiffer) <==> f.confirmPassword != "" && f.confirmPassword != f.password
  {
    RegisterErrors(
      FieldError(f.name, NameRequired, None),
      FieldError(f.email, EmailRequired, if EmailPattern.IsValidEmail(f.email) then None else Some(EmailInvalid)),
      FieldError(f.password, PasswordRequired,
                 if |f.password| < MinPasswordLength then Some(PasswordTooShort) else None),
      FieldError(f.confirmPassword, ConfirmRequired,
                 if f.confirmPassword == f.password then None else Some(PasswordsDiffer)))
  }

  predicate Passes(e: RegisterErrors) {
    e.name.None? && e.email.None? && e.password.None? && e.confirmPassword.None?
  }

  /** A form that passes has a name, a well-formed e-mail address with one
      `@`, a password of at least eight characters, and a matching
      confirmation. */
  lemma PassingFormShape(f: RegisterForm)
    requires Passes(Validate(f))
    ensures f.name != "" && |f.password| >= 8 && f.confirmPassword == f.password
    ensures multiset(f.email)['@'] == 1
  {
    EmailPattern.AcceptedShape(f.email);
  }

  /** What pressing "Create account" does; `Refused` is the browser's own
      refusal of an e-mail value that is not a valid address. */
  datatype Submission =
    | Disabled
    | Refused
    | Invalid(errors: RegisterErrors)
    | Sent(client: Client, provider: AuthContext.Provider)

  /** The browser's check, then `handleSubmit(onSubmit)`. A successful registration pushes
      `/dashboard` exactly once (the hook does not navigate); a failed one is
      only logged. */
  function Submit(c: Client, p: AuthContext.Provider, f: RegisterForm, reply: Reply<AuthHooks.RegisterResponse>): (r: Submission)
    ensures r == Disabled <==> AuthContext.IsLoading(p)
    ensures r == Refused <==> !AuthContext.IsLoading(p) && NativeEmail.TypeMismatch(f.email)
    ensures r.Invalid? <==> && !AuthContext.IsLoading(p) && !NativeEmail.TypeMismatch(f.email)
                            && !Passes(Validate(f))
    ensures r.Sent? ==> NativeEmail.IsValidAddress(f.email) && EmailPattern.IsValidEmail(f.email)
    ensures r.Sent? ==> r.provider.user == (if reply.Ok? then Some(reply.data.user) else p.user)
    ensures r.Sent? && reply.Ok? ==> r.client.routerLog == c.routerLog + ["/dashboard"]
    ensures r.Sent? && reply.Err? ==> r.client.routerLog == c.routerLog
  {
    if AuthContext.IsLoading(p) then Disabled
    else if NativeEmail.TypeMismatch(f.email) then Refused
    else
      var errors := Validate(f);
      if !Passes(errors) then Invalid(errors)
      else
        var (c1, p1, settled) := AuthContext.Register(c, p, reply);
        match settled
        case Resolved(_) => Sent(c1.(routerLog := c1.routerLog + ["/dashboard"]), p1)
        case Rejected(_) => Sent(c1, p1)
  }

  /** An address the pattern admits but the browser does not, such as a host
      of dots only, is never sent: the browser refuses the submit. */
  lemma DotsOnlyHostNeverSent(c: Client, p: AuthContext.Provider, f: RegisterForm,
                              reply: Reply<AuthHooks.RegisterResponse>)
    requires !AuthContext.IsLoading(p) && f.email == "a@..co"
    ensures EmailPattern.IsValidEmail(f.email)
    ensures Submit(c, p, f, reply) == Refused
  {
    EmailPattern.DotsOnlyHostAccepted();
    NativeEmail.DotsOnlyHostRefused();
  }

  /** "Invalid email address" only ever shows for a value the browser
      accepts, such as one with a one-letter top-level label. */
  lemma PatternMessageOnlyForNativelyValid(c: Client, p: AuthContext.Provider, f: RegisterForm,
                                           reply: Reply<AuthHooks.RegisterResponse>)
    ensures var r := Submit(c, p, f, reply);
            r.Invalid? && r.errors.email == Some(EmailInvalid) ==> NativeEmail.IsValidAddress(f.email)
    ensures !AuthContext.IsLoading(p) && f.email == "a@b.c" ==>
              Submit(c, p, f, reply).Invalid? && Submit(c, p, f, reply).errors.email == Some(EmailInvalid)
  {
    NativeEmail.ShortLabelAccepted();
  }
}
