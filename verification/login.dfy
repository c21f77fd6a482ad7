/** `LoginComponent`: the login form. It reads `returnUrl` from the query
    parameters and, on submit, either shows an error or signs in and
    navigates. Navigation is the emitted command (`router.navigate([url])`),
    and the call into the authentication service is recorded so that both a
    stubbed service and the real `AuthService` can be plugged in. */
module LoginPage {
  import opened Common
  import Auth
  import AuthGuard

  const DefaultReturnUrl: String := "/dashboard"
  const MissingCredentials: String := "Please enter username and password"
  const InvalidCredentials: String := "Invalid credentials"

  datatype LoginComponent = LoginComponent(
    username: String,
    password: String,
    isAdmin: bool,
    errorMessage: String,
    returnUrl: String)

  /** The arguments of one `authService.login(...)` call. */
  datatype Credentials = Credentials(username: String, password: String, isAdmin: bool)

  /** What one submit did: the resulting component, the call made to the
      authentication service (if any) and the navigation requested (if any). */
  datatype LoginOutcome = LoginOutcome(
    component: LoginComponent,
    authCall: Option<Credentials>,
    navigation: Option<seq<String>>)

  /** Field initialisers, before any query parameter arrives. */
  const Initial := LoginComponent("", "", false, "", DefaultReturnUrl)

  /** `params['returnUrl'] || '/dashboard'`: a missing or empty parameter
      falls back to the dashboard. */
  function ReturnUrlOf(param: Option<String>): (r: String)
    ensures r != ""
    ensures param.Some? && param.value != "" ==> r == param.value
    ensures param.None? || param.value == "" ==> r == DefaultReturnUrl
  {
    if param.Some? && param.value != "" then param.value else DefaultReturnUrl
  }

  /** The query-parameter subscription of the constructor. */
  function OnQueryParams(c: LoginComponent, returnUrlParam: Option<String>): LoginComponent {
    c.(returnUrl := ReturnUrlOf(returnUrlParam))
  }

  /** `login()` against an authentication service that answers `authAnswer`
      when called. */
  function SubmitWith(c: LoginComponent, authAnswer: bool): (r: LoginOutcome)
    ensures r.authCall.Some? <==> c.username != "" && c.password != ""
    ensures r.authCall.Some? ==> r.authCall.value == Credentials(c.username, c.password, c.isAdmin)
    ensures r.navigation.Some? <==> r.authCall.Some? && authAnswer
    ensures r.navigation.Some? ==> r.navigation.value == [c.returnUrl] && r.component == c
    ensures r.authCall.None? ==> r.component == c.(errorMessage := MissingCredentials)
    ensures r.authCall.Some? && !authAnswer ==> r.component == c.(errorMessage := InvalidCredentials)
  {
    if c.username != "" && c.password != "" then
      var call := Credentials(c.username, c.password, c.isAdmin);
      if authAnswer then LoginOutcome(c, Some(call), Some([c.returnUrl]))
      else LoginOutcome(c.(errorMessage := InvalidCredentials), Some(call), None)
    else
      LoginOutcome(c.(errorMessage := MissingCredentials), None, None)
  }

  /** `login()` against the real `AuthService`; returns the outcome and the
      service after the call. */
  function Submit(c: LoginComponent, auth: Auth.AuthService, now: Auth.Time): (Auth.AuthService, LoginOutcome) {
    if c.username != "" && c.password != "" then
      var res := Auth.Login(auth, c.username, c.password, c.isAdmin, now);
      (res.service, SubmitWith(c, res.success))
    else
      (auth, SubmitWith(c, false))
  }

  /** With the real service every call made is accepted, so the
      "Invalid credentials" branch is never taken: a submit either navigates
      to the return URL or reports missing credentials. */
  lemma InvalidCredentialsUnreachable(c: LoginComponent, auth: Auth.AuthService, now: Auth.Time)
    ensures var (_, r) := Submit(c, auth, now);
      && (r.navigation.Some? <==> c.username != "" && c.password != "")
      && (r.component.errorMessage == InvalidCredentials ==> c.errorMessage == InvalidCredentials)
  {
  }

  /** End to end: a signed-out visit to `url` is redirected to the login
      page; the login page, opened with that redirect's `returnUrl`, signs the
      user in and navigates back to `url` (or to the dashboard when `url` is
      empty); the guard then lets the visit through. */
  lemma {:induction false} RedirectLoginAndReturn(
    auth: Auth.AuthService, url: String, username: String, password: String, isAdmin: bool, now: Auth.Time)
    requires !Auth.IsLoggedIn(auth)
    requires username != "" && password != ""
    ensures AuthGuard.CanActivate(auth, url) == AuthGuard.Redirect(AuthGuard.LoginPath, url)
    ensures
      var page := OnQueryParams(Initial, Some(AuthGuard.CanActivate(auth, url).returnUrl));
      var filled := page.(username := username, password := password, isAdmin := isAdmin);
      var (auth', r) := Submit(filled, auth, now);
      && r.navigation == Some([if url == "" then DefaultReturnUrl else url])
      && AuthGuard.CanActivate(auth', url).Allow?
      && Auth.IsAdmin(auth') == isAdmin
  {
    var page := OnQueryParams(Initial, Some(url));
    assert page.returnUrl == (if url == "" then DefaultReturnUrl else url);
    var filled := page.(username := username, password := password, isAdmin := isAdmin);
    var res := Auth.Login(auth, username, password, isAdmin, now);
    assert Submit(filled, auth, now) == (res.service, SubmitWith(filled, true));
  }
}
