/** The request middleware: public routes pass straight through; any other
    route needs a signed-in user and otherwise redirects to the login page
    with caching disabled. */
module Middleware {
  import opened Wrappers
  import Text

  const LoginPath := "/login"
  const NoStore := "no-store, must-revalidate"

  /** Routes reachable without signing in. */
  predicate IsPublicRoute(pathname: string)
  {
    pathname == "/login" || pathname == "/signup" ||
    Text.StartsWith(pathname, "/auth/") || Text.StartsWith(pathname, "/api/")
  }

  /** What the middleware does with a request. `lookedUpUser` records
      whether the session's user was fetched. */
  datatype Decision =
    | Continue(lookedUpUser: bool)
    | Redirect(location: string, cacheControl: string)

  /** The decision for a path, given the session's user (if any). */
  function UpdateSession(pathname: string, user: Option<string>): Decision
  {
    if IsPublicRoute(pathname) then Continue(false)
    else if user.None? then Redirect(LoginPath, NoStore)
    else Continue(true)
  }

  /** A request is redirected exactly when its route is private and nobody
      is signed in, always to the login page without caching; public routes
      never consult the session. */
  lemma UpdateSessionSpec(pathname: string, user: Option<string>)
    ensures UpdateSession(pathname, user).Redirect? <==> !IsPublicRoute(pathname) && user.None?
    ensures UpdateSession(pathname, user).Redirect? ==> UpdateSession(pathname, user) == Redirect(LoginPath, NoStore)
    ensures UpdateSession(pathname, user).Continue? ==>
              (UpdateSession(pathname, user).lookedUpUser <==> !IsPublicRoute(pathname))
  {
  }

  /** The redirect target is itself public, so a redirect is never redirected again. */
  lemma RedirectTargetIsPublic(user: Option<string>)
    ensures UpdateSession(LoginPath, user) == Continue(false)
  {
  }

  /** Prefix routes need their slash: "/auth/..." and "/api/..." are public
      but "/auth" and "/api" themselves, and the app's pages, are not; exact
      routes match exactly, so "/login/" is not public. */
  lemma PublicRouteExamples()
    ensures IsPublicRoute("/auth/reset-password") && IsPublicRoute("/api/test-ai")
    ensures !IsPublicRoute("/auth") && !IsPublicRoute("/api")
    ensures !IsPublicRoute("/login/")
    ensures !IsPublicRoute("/") && !IsPublicRoute("/library") && !IsPublicRoute("/profile")
  {
    assert "/auth/" <= "/auth/reset-password";
    assert "/api/" <= "/api/test-ai";
    assert "/auth"[1] != "/login"[1] && "/auth"[1] != "/signup"[1] && "/auth"[2] != "/api/"[2];
    assert "/api"[1] != "/login"[1] && "/api"[1] != "/signup"[1] && "/api"[2] != "/auth/"[2];
    assert "/auth/"[1] != "/library"[1];
    assert "/api/"[1] != "/library"[1];
    assert "/auth/"[1] != "/profile"[1];
    assert "/api/"[1] != "/profile"[1];
  }
}
