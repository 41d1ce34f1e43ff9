/**
 * The request proxy in front of the app: signed-out visitors of the
 * dashboard are sent to the sign-in page (remembering where they came from),
 * signed-in visitors of the sign-in and sign-up pages are sent to the
 * dashboard, and every other request passes through. The proxy only runs on
 * the paths of its matcher.
 */
module Proxy {
  import opened Wrappers

  /**
   * The outcome: pass the request on, or redirect to `path`, optionally
   * setting `redirectedFrom`. The redirect URL is a clone of the request URL,
   * so its query string (not modelled here) is carried over unchanged.
   */
  datatype Decision = Next | Redirect(path: string, redirectedFrom: Option<string>)

  const SignIn := "/sign-in"
  const SignUp := "/sign-up"
  const Dashboard := "/dashboard"

  /** The matcher list of the proxy's config. */
  const Matcher: set<string> := {"/dashboard", "/sign-in", "/sign-up"}

  predicate StartsWith(s: string, prefix: string) {
    prefix <= s
  }

  predicate IsAuthRoute(pathname: string) {
    StartsWith(pathname, SignIn) || StartsWith(pathname, SignUp)
  }

  predicate IsAppRoute(pathname: string) {
    StartsWith(pathname, Dashboard)
  }

  /** `proxy(request)` after the session lookup: `signedIn` is whether a user came back. */
  function Route(signedIn: bool, pathname: string): (d: Decision)
    ensures !signedIn && IsAppRoute(pathname) <==> d == Redirect(SignIn, Some(pathname))
    ensures signedIn && IsAuthRoute(pathname) <==> d == Redirect(Dashboard, None)
    ensures d == Next <==> (signedIn ==> !IsAuthRoute(pathname)) && (!signedIn ==> !IsAppRoute(pathname))
  {
    if !signedIn && IsAppRoute(pathname) then Redirect(SignIn, Some(pathname))
    else if signedIn && IsAuthRoute(pathname) then Redirect(Dashboard, None)
    else Next
  }

  /** The app as a whole: the proxy runs on matched paths only. */
  function Handle(signedIn: bool, pathname: string): Decision {
    if pathname in Matcher then Route(signedIn, pathname) else Next
  }

  /** No path is both an auth route and an app route, so at most one redirect rule applies to a path. */
  lemma RoutesDisjoint(pathname: string)
    ensures !(IsAuthRoute(pathname) && IsAppRoute(pathname))
  {
    if IsAppRoute(pathname) {
      assert pathname[1] == 'd';
      assert SignIn[1] == 's' && SignUp[1] == 's';
    }
  }

  /**
   * On the three matched paths: a signed-out dashboard visit goes to sign-in
   * from the dashboard, a signed-in sign-in or sign-up visit goes to the
   * dashboard, and the other four cases pass through.
   */
  lemma MatchedPaths(signedIn: bool)
    ensures Handle(signedIn, Dashboard) == (if signedIn then Next else Redirect(SignIn, Some(Dashboard)))
    ensures Handle(signedIn, SignIn) == (if signedIn then Redirect(Dashboard, None) else Next)
    ensures Handle(signedIn, SignUp) == (if signedIn then Redirect(Dashboard, None) else Next)
  {
    RoutesDisjoint(Dashboard);
    RoutesDisjoint(SignIn);
    RoutesDisjoint(SignUp);
  }

  /** A redirect never points at a path that would redirect the same visitor again. */
  lemma NoRedirectLoop(signedIn: bool, pathname: string)
    ensures Handle(signedIn, pathname).Redirect? ==> Handle(signedIn, Handle(signedIn, pathname).path) == Next
  {
    RoutesDisjoint(SignIn);
    RoutesDisjoint(Dashboard);
  }
}
