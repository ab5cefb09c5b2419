/** The request gate that runs before every page: it sends visitors who are not
    logged in to the login page and logged-in users away from the public pages. */
module Middleware {

  /** The pages anyone may see without logging in. */
  const PublicRoutes: seq<string> := ["/", "/login", "/features", "/pricing", "/about", "/contact"]

  const LoginPath: string := "/login"
  const DashboardPath: string := "/dashboard"

  /** What the gate does with a request: redirect it, or let it through. */
  datatype Decision = Redirect(target: string) | Next

  /** `publicRoutes.includes(pathname)`. */
  predicate IsPublic(pathname: string)
    ensures IsPublic(pathname) ==> |pathname| > 0 && pathname[0] == '/'
  {
    pathname in PublicRoutes
  }

  /** The gate's decision for a request, given whether its session token is present. */
  function Decide(isLoggedIn: bool, pathname: string): (d: Decision)
    ensures d == Redirect(LoginPath) <==> !isLoggedIn && !IsPublic(pathname)
    ensures d == Redirect(DashboardPath) <==> isLoggedIn && IsPublic(pathname)
    ensures d == Next <==> isLoggedIn != IsPublic(pathname)
  {
    if !isLoggedIn && !IsPublic(pathname) then
      Redirect(LoginPath)
    else if isLoggedIn && IsPublic(pathname) then
      Redirect(DashboardPath)
    else
      Next
  }

  /** Membership is exact string equality with one of the six listed paths:
      no prefix match, no trailing-slash or case folding. */
  lemma IsPublicExact(pathname: string)
    ensures IsPublic(pathname) <==>
      pathname == "/" || pathname == "/login" || pathname == "/features"
      || pathname == "/pricing" || pathname == "/about" || pathname == "/contact"
  {
  }

  /** The login page is public and the dashboard is not. */
  lemma RedirectTargets()
    ensures IsPublic(LoginPath) && !IsPublic(DashboardPath)
  {
    assert PublicRoutes[1] == LoginPath;
    IsPublicExact(DashboardPath);
  }

  /** No redirect loop: a redirected request, sent again to its target with the
      same login state, passes through. */
  lemma {:induction false} NoRedirectLoop(isLoggedIn: bool, pathname: string)
    ensures Decide(isLoggedIn, pathname).Redirect? ==>
      Decide(isLoggedIn, Decide(isLoggedIn, pathname).target) == Next
  {
    RedirectTargets();
  }
}
