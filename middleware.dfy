/**
 * The routing middleware (src/middleware.ts): which requests are redirected, where to,
 * and which pass through. The decision reads only the pathname and whether the request
 * carries a session.
 */
module Middleware {
  import opened Strings

  datatype Decision = Redirect(target: string) | Next

  function Decide(pathname: string, loggedIn: bool): (d: Decision)
    ensures pathname == "/" ==> d == Redirect(if loggedIn then "/dashboard" else "/login")
    ensures pathname != "/" && StartsWith(pathname, "/dashboard") && !loggedIn ==> d == Redirect("/login")
    ensures (pathname == "/login" || pathname == "/register") && loggedIn ==> d == Redirect("/dashboard")
    ensures d == Next <==>
      && pathname != "/"
      && !(StartsWith(pathname, "/dashboard") && !loggedIn)
      && !((pathname == "/login" || pathname == "/register") && loggedIn)
  {
    if pathname == "/" then
      if loggedIn then Redirect("/dashboard") else Redirect("/login")
    else if StartsWith(pathname, "/dashboard") && !loggedIn then Redirect("/login")
    else if (pathname == "/login" || pathname == "/register") && loggedIn then Redirect("/dashboard")
    else Next
  }

  /** config.matcher: "/dashboard/:path*" (the dashboard and everything under it), "/login", "/register". */
  predicate Matches(pathname: string) {
    pathname == "/dashboard" || StartsWith(pathname, "/dashboard/") || pathname == "/login" || pathname == "/register"
  }

  /**
   * Under the matcher the "/" branch never runs: a matched request is redirected exactly
   * when it is a dashboard page without a session, or the login or register page with one.
   */
  lemma MatchedDecisions(pathname: string, loggedIn: bool)
    requires Matches(pathname)
    ensures pathname != "/"
    ensures Decide(pathname, loggedIn) == Redirect("/login") <==> StartsWith(pathname, "/dashboard") && !loggedIn
    ensures Decide(pathname, loggedIn) == Redirect("/dashboard") <==> !StartsWith(pathname, "/dashboard") && loggedIn
  {
    assert pathname == "/login" || pathname == "/register" ==> !StartsWith(pathname, "/dashboard");
    assert StartsWith(pathname, "/dashboard/") ==> StartsWith(pathname, "/dashboard") by {
      if StartsWith(pathname, "/dashboard/") {
        assert pathname[..10] == pathname[..11][..10];
      }
    }
  }

  /** A redirect never leads to another one: the target page lets the same visitor through. */
  lemma RedirectsSettle(pathname: string, loggedIn: bool)
    requires Decide(pathname, loggedIn).Redirect?
    ensures Decide(Decide(pathname, loggedIn).target, loggedIn) == Next
  {
    assert StartsWith("/dashboard", "/dashboard");
    assert !StartsWith("/login", "/dashboard");
  }
}
