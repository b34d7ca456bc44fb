/** The route gate of middleware.ts: with a token the sign-in page sends to the dashboard,
    without one the dashboard sends back to sign-in. */
module Middleware {
  import opened Text

  datatype Decision = Next | Redirect(location: string)

  /** Line 24: the matcher `["/", "/dashboard/:path*"]`. */
  predicate Gated(path: string) {
    path == "/" || path == "/dashboard" || IsPrefix("/dashboard/", path)
  }

  /** Lines 5-21 on a gated path; every other path is not seen by the middleware and passes. */
  function Route(path: string, hasToken: bool): (d: Decision)
    ensures path == "/" && hasToken ==> d == Redirect("/dashboard")
    ensures path == "/" && !hasToken ==> d == Next
    ensures path != "/" && Gated(path) && !hasToken ==> d == Redirect("/")
    ensures path != "/" && hasToken ==> d == Next
    ensures !Gated(path) ==> d == Next
  {
    if !Gated(path) then Next
    else if path == "/" then (if hasToken then Redirect("/dashboard") else Next)
    else if !hasToken && IsPrefix("/dashboard", path) then Redirect("/")
    else Next
  }

  /** A redirect always lands on a path where the same token does not redirect again. */
  lemma NoRedirectLoop(path: string, hasToken: bool)
    requires Route(path, hasToken).Redirect?
    ensures Route(Route(path, hasToken).location, hasToken) == Next
  {
  }

  /** Paths that merely begin like the dashboard are not gated. */
  lemma LookalikeNotGated()
    ensures Route("/dashboards", false) == Next
    ensures Route("/dashboard/orders", false) == Redirect("/")
  {
    assert "/dashboards"[10] != "/dashboard/"[10];
    assert IsPrefix("/dashboard/", "/dashboard/orders");
  }
}
