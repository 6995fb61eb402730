/** The client session (src/contexts/AuthContext.tsx): the stored token,
    the signed-in user and the loading flag, with the handlers that change
    them. Storage and the network are modelled by the state's `token` field
    and by outcome parameters. */
module AuthContext {
  import opened Wrappers
  import Bearer

  datatype AuthUser = AuthUser(id: string, email: string, name: Option<string>, createdAt: int)

  /** `token` is what `localStorage` holds under `auth-token`. */
  datatype Session = Session(token: Option<string>, user: Option<AuthUser>, loading: bool)

  function Initial(stored: Option<string>): Session
  {
    Session(stored, None, true)
  }

  /** `getAuthHeaders`. */
  function AuthHeaders(token: Option<string>): (h: map<string, string>)
    ensures "Authorization" in h <==> Bearer.HasToken(token)
    ensures Bearer.HasToken(token) ==> h["Authorization"] == Bearer.Credentials(token.value)
    ensures h.Keys <= {"Authorization"}
  {
    if Bearer.HasToken(token) then map["Authorization" := Bearer.Credentials(token.value)] else map[]
  }

  /** What the `/api/auth/me` call does. */
  datatype MeOutcome = MeOk(user: AuthUser) | MeNotOk | MeThrew

  /** The session afterwards, and the headers of the request made, if any. */
  datatype Checked = Checked(session: Session, request: Option<map<string, string>>)

  /** `checkAuth`. */
  function CheckAuth(s: Session, me: MeOutcome): (r: Checked)
    ensures !r.session.loading
    ensures !Bearer.HasToken(s.token) ==> r == Checked(s.(loading := false), None)
    ensures Bearer.HasToken(s.token) ==>
              && r.request == Some(AuthHeaders(s.token))
              && (me.MeOk? ==> r.session == Session(s.token, Some(me.user), false))
              && (!me.MeOk? ==> r.session == Session(None, s.user, false))
  {
    if !Bearer.HasToken(s.token) then Checked(s.(loading := false), None)
    else
      var request := Some(AuthHeaders(s.token));
      match me
      case MeOk(u) => Checked(s.(user := Some(u), loading := false), request)
      case _ => Checked(s.(token := None, loading := false), request)
  }

  /** What the login or signup call does: accepted with a user and token,
      rejected with the body's `error` field, or a thrown error. */
  datatype Reply = Accepted(user: AuthUser, token: string) | Rejected(error: Option<string>) | Failed(message: string)

  /** How a handler ends: normally, or by throwing an `Error` with a message. */
  datatype Completion = Completed | Threw(message: string)

  datatype Attempt = Attempt(session: Session, completion: Completion)

  /** The common tail of `login` and `signup`; `fallback` is the message used
      when a rejection carries no error text. */
  function Authenticate(s: Session, reply: Reply, fallback: string): (r: Attempt)
    ensures reply.Accepted? ==>
              r == Attempt(s.(token := Some(reply.token), user := Some(reply.user)), Completed)
    ensures !reply.Accepted? ==> r.session == s && r.completion.Threw?
    ensures reply.Rejected? ==>
              r.completion.message == (if reply.error.Some? && reply.error.value != "" then reply.error.value else fallback)
    ensures reply.Failed? ==> r.completion.message == reply.message
  {
    match reply
    case Accepted(u, t) => Attempt(s.(token := Some(t), user := Some(u)), Completed)
    case Rejected(e) => Attempt(s, Threw(if e.Some? && e.value != "" then e.value else fallback))
    case Failed(m) => Attempt(s, Threw(m))
  }

  const LoginFailed: string := "Login failed"
  const SignupFailed: string := "Signup failed"

  datatype LoginRequest = LoginRequest(email: string, password: string)
  datatype SignupRequest = SignupRequest(email: string, password: string, name: Option<string>)

  /** `login`: the request sent, and its effect. */
  function Login(s: Session, email: string, password: string, reply: Reply): (r: (LoginRequest, Attempt))
    ensures r.0 == LoginRequest(email, password)
    ensures r.1 == Authenticate(s, reply, LoginFailed)
    ensures reply.Accepted? ==> r.1.session.token == Some(reply.token) && r.1.session.user == Some(reply.user)
    ensures reply.Rejected? && (reply.error.None? || reply.error.value == "") ==> r.1.completion == Threw(LoginFailed)
  {
    (LoginRequest(email, password), Authenticate(s, reply, LoginFailed))
  }

  /** `signup`: the request sent, and its effect. */
  function Signup(s: Session, email: string, password: string, name: Option<string>, reply: Reply): (r: (SignupRequest, Attempt))
    ensures r.0 == SignupRequest(email, password, name)
    ensures r.1 == Authenticate(s, reply, SignupFailed)
    ensures reply.Accepted? ==> r.1.session.token == Some(reply.token) && r.1.session.user == Some(reply.user)
    ensures reply.Rejected? && (reply.error.None? || reply.error.value == "") ==> r.1.completion == Threw(SignupFailed)
  {
    (SignupRequest(email, password, name), Authenticate(s, reply, SignupFailed))
  }

  /** A rejection without error text falls back to the handler's own message. */
  lemma RejectionMessages(s: Session, email: string, password: string, name: Option<string>)
    ensures Login(s, email, password, Rejected(None)).1.completion == Threw(LoginFailed)
    ensures Signup(s, email, password, name, Rejected(Some(""))).1.completion == Threw(SignupFailed)
  {
  }

  /** `logout`. */
  function Logout(s: Session): (s': Session)
    ensures s'.token.None? && s'.user.None? && s'.loading == s.loading
  {
    s.(token := None, user := None)
  }

  /** After a login, the next check sends the new token, and logging out
      afterwards leaves nothing to check. */
  lemma {:induction false} LoginThenCheckUsesToken(s: Session, email: string, password: string,
                                                   u: AuthUser, t: string, me: MeOutcome)
    requires t != ""
    ensures var after := Login(s, email, password, Accepted(u, t)).1.session;
            && CheckAuth(after, me).request == Some(map["Authorization" := Bearer.Credentials(t)])
            && CheckAuth(Logout(after), me).request.None?
  {
  }

  const OutsideProvider: string := "useAuth must be used within an AuthProvider"

  /** `useAuth`: the context value, or an error outside a provider. */
  function UseAuth(context: Option<Session>): (r: Completion)
    ensures r.Threw? <==> context.None?
    ensures r.Threw? ==> r.message == OutsideProvider
  {
    if context.None? then Threw(OutsideProvider) else Completed
  }
}
