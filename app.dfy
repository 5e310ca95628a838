/**
 * App: the choice between the login form, the registration form and the
 * signed-in application, and the mode switches the two forms trigger.
 */
module App {
  import opened Wrappers
  import opened JsValues
  import opened AuthService
  import opened UseAuth

  datatype View = LoginView | RegisterView | AuthenticatedView

  function Render(isAuthenticated: bool, isLoginMode: bool): (v: View)
    ensures v == AuthenticatedView <==> isAuthenticated
    ensures v == LoginView <==> !isAuthenticated && isLoginMode
    ensures v == RegisterView <==> !isAuthenticated && !isLoginMode
  {
    if !isAuthenticated then (if isLoginMode then LoginView else RegisterView) else AuthenticatedView
  }

  /** LoginForm's onToggleMode: setAuthMode(false), which shows the registration form. */
  method ToggleFromLogin(auth: Auth)
    modifies auth
    ensures !auth.isLoginMode
    ensures !auth.isAuthenticated ==> Render(auth.isAuthenticated, auth.isLoginMode) == RegisterView
    ensures auth.isAuthenticated == old(auth.isAuthenticated) && auth.currentUser == old(auth.currentUser)
  {
    auth.SetAuthMode(false);
  }

  /** RegisterForm's onRegister and onToggleMode alike: setAuthMode(true), back to the login form. */
  method BackToLogin(auth: Auth)
    modifies auth
    ensures auth.isLoginMode
    ensures !auth.isAuthenticated ==> Render(auth.isAuthenticated, auth.isLoginMode) == LoginView
    ensures auth.isAuthenticated == old(auth.isAuthenticated) && auth.currentUser == old(auth.currentUser)
  {
    auth.SetAuthMode(true);
  }

  /** LoginForm's error text: the server's message, or "Login failed". */
  function LoginError(h: HttpOutcome<Json>): (r: string)
    ensures TruthyOpt(ServerMessage(h)) ==> r == ToJsString(ServerMessage(h).value)
    ensures !TruthyOpt(ServerMessage(h)) ==> r == "Login failed"
    ensures !h.Rejected? ==> r == "Login failed"
  {
    MessageOr(h, "Login failed")
  }

  /**
   * The interceptor registered here and the one registered in AuthService
   * set the same header from the same stored user, so a request passing
   * through both carries what it would carry after one.
   */
  lemma BothInterceptorsAgree(headers: map<string, string>, user: Option<Json>)
    ensures Intercept(Intercept(headers, user), user) == Intercept(headers, user)
    ensures HasToken(user) ==> Intercept(Intercept(headers, user), user)["Authorization"] == AuthHeader(user)["Authorization"]
  {
  }
}
