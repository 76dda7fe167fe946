/** The route guard in front of the app: which paths it runs on, which requests it lets
    through, and the redirect of signed-in users away from the sign-in and register pages. */
module Middleware {
  import opened Strings

  /** The pages reachable without an account. */
  predicate IsAuthPage(path: string) {
    path == "/login" || path == "/register"
  }

  /** The page areas that need an account (a prefix test, so `/dashboardx` is included). */
  predicate IsProtected(path: string) {
    StartsWith(path, "/dashboard") || StartsWith(path, "/profile") || StartsWith(path, "/responses")
  }

  /** The path pattern `/<area>/:path*`: the area itself or anything below it. */
  predicate UnderArea(path: string, area: string) {
    path == area || StartsWith(path, area + "/")
  }

  /** The `matcher` list: the paths the guard runs on at all. */
  predicate InMatcher(path: string) {
    || UnderArea(path, "/dashboard") || UnderArea(path, "/profile") || UnderArea(path, "/responses")
    || IsAuthPage(path)
  }

  /** The `authorized` callback: the auth pages are open, the protected areas need a token,
      everything else is open. */
  function Authorized(path: string, hasToken: bool): (r: bool)
    ensures IsAuthPage(path) ==> r
    ensures !IsAuthPage(path) && IsProtected(path) ==> (r <==> hasToken)
    ensures !IsAuthPage(path) && !IsProtected(path) ==> r
  {
    if IsAuthPage(path) then true
    else if IsProtected(path) then hasToken
    else true
  }

  /** What happens to a request. */
  datatype Outcome =
    | Pass                       // `NextResponse.next()`, or a path the matcher skips
    | SignInRequired             // `authorized` said no: the sign-in redirect of the auth library
    | Redirect(location: string) // `NextResponse.redirect`

  /** The middleware function, run once `authorized` has said yes: a signed-in request for an
      auth page goes to the dashboard, every other request passes. */
  function AfterAuthorized(path: string, hasToken: bool): (r: Outcome)
    ensures r.Redirect? <==> hasToken && IsAuthPage(path)
    ensures r.Redirect? ==> r.location == "/dashboard"
    ensures !r.Redirect? ==> r.Pass?
  {
    if hasToken && (path == "/login" || path == "/register") then Redirect("/dashboard") else Pass
  }

  /** A whole request: paths outside the matcher pass untouched; otherwise `authorized` decides
      first, and only an authorized request reaches the middleware function. */
  function Guard(path: string, hasToken: bool): (r: Outcome)
    ensures !InMatcher(path) ==> r.Pass?
    ensures InMatcher(path) && !Authorized(path, hasToken) ==> r.SignInRequired?
    ensures InMatcher(path) && Authorized(path, hasToken) ==> r == AfterAuthorized(path, hasToken)
  {
    if !InMatcher(path) then Pass
    else if !Authorized(path, hasToken) then SignInRequired
    else AfterAuthorized(path, hasToken)
  }

  lemma UnderAreaIsProtected(path: string, area: string)
    requires area == "/dashboard" || area == "/profile" || area == "/responses"
    requires UnderArea(path, area)
    ensures IsProtected(path) && !IsAuthPage(path)
  {
    assert path[..|area|] == area by {
      if path != area {
        assert path[..|area|] == (area + "/")[..|area|];
      }
    }
    assert path[1] == area[1] && path[2] == area[2];
  }

  /** Without a token no request reaches a protected area, and with one every matched request
      for a protected area passes. */
  lemma ProtectedNeedsToken(path: string, hasToken: bool)
    requires UnderArea(path, "/dashboard") || UnderArea(path, "/profile") || UnderArea(path, "/responses")
    ensures !hasToken ==> Guard(path, hasToken) == SignInRequired
    ensures hasToken ==> Guard(path, hasToken) == Pass
  {
    if UnderArea(path, "/dashboard") {
      UnderAreaIsProtected(path, "/dashboard");
    } else if UnderArea(path, "/profile") {
      UnderAreaIsProtected(path, "/profile");
    } else {
      UnderAreaIsProtected(path, "/responses");
    }
  }

  /** The auth pages: without a token they pass, with one they redirect to the dashboard. */
  lemma AuthPagesGuard(path: string, hasToken: bool)
    requires IsAuthPage(path)
    ensures Guard(path, hasToken) == if hasToken then Redirect("/dashboard") else Pass
  {
  }

  /** The redirect never loops: its target passes for the same signed-in request. */
  lemma RedirectTargetPasses(path: string, hasToken: bool)
    requires Guard(path, hasToken).Redirect?
    ensures Guard(Guard(path, hasToken).location, hasToken) == Pass
  {
    assert StartsWith("/dashboard", "/dashboard");
    assert UnderArea("/dashboard", "/dashboard");
  }
}
