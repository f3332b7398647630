/** The authentication context, src/contexts/AuthContext.tsx: the `user`
    state the provider holds, the three wrapped operations that are its only
    writers, the `isLoading` flag and the `useAuth` accessor. */
module AuthContext {
  import opened Common
  import opened ClientState
  import opened Api
  import AuthHooks

  /** The provider's state: the current user and the pending flags of its
      three mutations. */
  datatype Provider = Provider(user: Option<User>, loginPending: bool, registerPending: bool, logoutPending: bool)

  /** A mounted provider: no user (nothing loads one from `/auth/me`), nothing pending. */
  const Initial := Provider(None, false, false, false)

  datatype Operation = LoginOp | RegisterOp | LogoutOp

  /** `isLoading`: some mutation is pending. */
  predicate IsLoading(p: Provider) {
    p.loginPending || p.registerPending || p.logoutPending
  }

  /** A mutation has been fired and not yet settled. Only its own pending
      flag rises; `user` is not touched. */
  function Start(p: Provider, op: Operation): (q: Provider)
    ensures IsLoading(q)
    ensures q.user == p.user
    ensures q.loginPending == (p.loginPending || op == LoginOp)
    ensures q.registerPending == (p.registerPending || op == RegisterOp)
    ensures q.logoutPending == (p.logoutPending || op == LogoutOp)
  {
    match op
    case LoginOp => p.(loginPending := true)
    case RegisterOp => p.(registerPending := true)
    case LogoutOp => p.(logoutPending := true)
  }

  /** `login`: awaits the login mutation, then sets `user` to the response's
      user. On rejection `user` is unchanged and the rejection propagates. */
  function Login(c: Client, p: Provider, reply: Reply<AuthHooks.LoginResponse>): (r: (Client, Provider, AuthHooks.Settled<()>))
    ensures r.0 == AuthHooks.Login(c, reply).0
    ensures r.1.user == (if reply.Ok? then Some(reply.data.user) else p.user)
    ensures r.1 == p.(user := r.1.user, loginPending := false)
    ensures r.2.Rejected? <==> reply.Err?
    ensures reply.Err? ==> r.2 == AuthHooks.Rejected(AuthHooks.LoginFailure(reply.error))
  {
    var (c1, settled) := AuthHooks.Login(c, reply);
    match settled
    case Resolved(result) => (c1, p.(user := Some(result.user), loginPending := false), AuthHooks.Resolved(()))
    case Rejected(f) => (c1, p.(loginPending := false), AuthHooks.Rejected(f))
  }

  /** `register`: awaits the register mutation, then sets `user` to the
      response's user. On rejection `user` is unchanged. */
  function Register(c: Client, p: Provider, reply: Reply<AuthHooks.RegisterResponse>): (r: (Client, Provider, AuthHooks.Settled<()>))
    ensures r.0 == AuthHooks.Register(c, reply).0
    ensures r.1.user == (if reply.Ok? then Some(reply.data.user) else p.user)
    ensures r.1 == p.(user := r.1.user, registerPending := false)
    ensures r.2.Rejected? <==> reply.Err?
  {
    var (c1, settled) := AuthHooks.Register(c, reply);
    match settled
    case Resolved(result) => (c1, p.(user := Some(result.user), registerPending := false), AuthHooks.Resolved(()))
    case Rejected(f) => (c1, p.(registerPending := false), AuthHooks.Rejected(f))
  }

  /** `logout`: awaits the logout mutation, then clears `user`. On rejection
      `user` stays. */
  function Logout(c: Client, p: Provider, reply: Reply<()>): (r: (Client, Provider, AuthHooks.Settled<()>))
    ensures r.0 == AuthHooks.Logout(c, reply).0
    ensures r.1.user == (if reply.Ok? then None else p.user)
    ensures r.1 == p.(user := r.1.user, logoutPending := false)
    ensures r.2.Rejected? <==> reply.Err?
  {
    var (c1, settled) := AuthHooks.Logout(c, reply);
    match settled
    case Resolved(_) => (c1, p.(user := None, logoutPending := false), AuthHooks.Resolved(()))
    case Rejected(f) => (c1, p.(logoutPending := false), AuthHooks.Rejected(f))
  }

  const OutsideProvider := "useAuth must be used within an AuthProvider"

  /** `useAuth`: the context value, or an error when no provider is mounted above. */
  function UseAuth(context: Option<Provider>): (r: Result<Provider>)
    ensures r.Success? <==> context.Some?
    ensures r.Success? ==> r.value == context.value
    ensures r.Failure? ==> r.error == OutsideProvider
  {
    match context
    case Some(p) => Success(p)
    case None => Failure(OutsideProvider)
  }
}
