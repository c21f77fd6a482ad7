/** `AuthGuard.canActivate`: lets a signed-in user through and sends everyone
    else to the login page, remembering where they were going. The
    `UrlTree` the router builds is represented by the redirect it encodes. */
module AuthGuard {
  import opened Common
  import Auth

  const LoginPath: String := "/login"

  datatype GuardResult = Allow | Redirect(path: String, returnUrl: String)

  /** `canActivate(route, state)` where `url` is `state.url`. */
  function CanActivate(auth: Auth.AuthService, url: String): (r: GuardResult)
    ensures r.Allow? <==> Auth.IsLoggedIn(auth)
    ensures r.Redirect? ==> r.path == LoginPath && r.returnUrl == url
  {
    if Auth.IsLoggedIn(auth) then Allow else Redirect(LoginPath, url)
  }

  /** The decision depends on the session only through `isLoggedIn`. */
  lemma DependsOnlyOnLoggedIn(a1: Auth.AuthService, a2: Auth.AuthService, url: String)
    requires Auth.IsLoggedIn(a1) == Auth.IsLoggedIn(a2)
    ensures CanActivate(a1, url) == CanActivate(a2, url)
  {
  }
}
