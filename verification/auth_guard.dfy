/** The page guard (src/components/AuthGuard.tsx): a spinner while the
    session loads, the auth form without a user, the page otherwise. */
module AuthGuard {
  import opened Wrappers
  import AuthContext
  import AuthForm

  const InitialMode := AuthForm.LoginMode

  datatype GuardView = LoadingView | FormView(mode: AuthForm.Mode) | ChildrenView

  function View(session: AuthContext.Session, mode: AuthForm.Mode): (v: GuardView)
    ensures session.loading <==> v.LoadingView?
    ensures !session.loading && session.user.None? <==> v.FormView?
    ensures v.FormView? ==> v.mode == mode
    ensures !session.loading && session.user.Some? <==> v.ChildrenView?
  {
    if session.loading then LoadingView
    else if session.user.None? then FormView(mode)
    else ChildrenView
  }

  /** The form's mode switch. */
  function SwitchMode(mode: AuthForm.Mode): (m: AuthForm.Mode)
    ensures m != mode
  {
    if mode == AuthForm.LoginMode then AuthForm.SignupMode else AuthForm.LoginMode
  }

  lemma SwitchTwiceRestores(mode: AuthForm.Mode)
    ensures SwitchMode(SwitchMode(mode)) == mode
  {
  }

  /** Logging out of a loaded session shows the form in the current mode. */
  lemma {:induction false} LogoutShowsForm(s: AuthContext.Session, mode: AuthForm.Mode)
    requires !s.loading
    ensures View(AuthContext.Logout(s), mode) == FormView(mode)
  {
  }
}
