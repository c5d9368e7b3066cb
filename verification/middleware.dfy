/**
 * The request middleware: a signed-out visitor of a protected page is sent
 * to the landing page with the page remembered in `redirectTo`, and a
 * signed-in user who opens the landing, login or signup page is sent to
 * the dashboard of their department. Every other request passes through.
 * Whether a user is signed in and the department row looked up for them
 * are parameters; the session cookies are not modelled.
 */
module Middleware {
  import opened Js
  import opened Optional
  import opened Department

  const ProtectedPrefixes: seq<string> := ["/dashboard", "/sourcing", "/tasks", "/manual", "/admin"]
  const AuthPaths: seq<string> := ["/", "/login", "/signup"]

  /** `protectedPaths.some(path => pathname.startsWith(path))` */
  predicate IsProtected(pathname: string) {
    Any(ProtectedPrefixes, (prefix: string) => StartsWith(pathname, prefix))
  }

  /** `authPaths.some(path => pathname === path || (path !== '/' && pathname.startsWith(path)))` */
  predicate IsAuthPath(pathname: string) {
    Any(AuthPaths, (path: string) => pathname == path || (path != "/" && StartsWith(pathname, path)))
  }

  /** A path is protected exactly when it starts with one of the five
      prefixes; the landing page "/" never is. */
  lemma {:induction false} ProtectedIff(pathname: string)
    ensures IsProtected(pathname) <==>
      || StartsWith(pathname, "/dashboard") || StartsWith(pathname, "/sourcing")
      || StartsWith(pathname, "/tasks") || StartsWith(pathname, "/manual") || StartsWith(pathname, "/admin")
    ensures !IsProtected("/")
  {
    AnyIff(ProtectedPrefixes, (prefix: string) => StartsWith(pathname, prefix));
    AnyIff(ProtectedPrefixes, (prefix: string) => StartsWith("/", prefix));
  }

  /** "/" is an auth path only by exact match, "/login" and "/signup" also
      by prefix. */
  lemma {:induction false} AuthPathIff(pathname: string)
    ensures IsAuthPath(pathname) <==> pathname == "/" || StartsWith(pathname, "/login") || StartsWith(pathname, "/signup")
  {
    AnyIff(AuthPaths, (path: string) => pathname == path || (path != "/" && StartsWith(pathname, path)));
  }

  /** No path is both protected and an auth path. */
  lemma {:induction false} ProtectedNeverAuth(pathname: string)
    ensures !(IsProtected(pathname) && IsAuthPath(pathname))
  {
    ProtectedIff(pathname);
    AuthPathIff(pathname);
    if IsProtected(pathname) && |pathname| > 1 {
      assert pathname[1] == 'd' || pathname[1] == 's' || pathname[1] == 't' || pathname[1] == 'm' || pathname[1] == 'a';
      assert pathname[1] == 's' ==> pathname[2] == 'o';
    }
  }

  /** What the middleware answers. */
  datatype Decision = PassThrough | RedirectToLogin(redirectTo: string) | RedirectToDashboard(path: string)

  /** `middleware(request)`. The department row is only consulted for a
      signed-in user on an auth path; `None` is a missing row. */
  function Decide(pathname: string, signedIn: bool, userRow: Option<string>): (d: Decision)
    ensures d.RedirectToLogin? <==> IsProtected(pathname) && !signedIn
    ensures d.RedirectToLogin? ==> d.redirectTo == pathname
    ensures d.RedirectToDashboard? <==> IsAuthPath(pathname) && signedIn && userRow.Some?
    ensures d.RedirectToDashboard? ==> d.path == DashboardPath(userRow.value)
  {
    ProtectedIff(pathname);
    if IsProtected(pathname) && !signedIn then
      if pathname == "/" then PassThrough
      else RedirectToLogin(pathname)
    else if IsAuthPath(pathname) && signedIn && userRow.Some? then
      RedirectToDashboard(DashboardPath(userRow.value))
    else PassThrough
  }

  /** Neither redirect leads into another: the dashboard a signed-in user
      is sent to passes through for them, and the landing page a
      signed-out visitor is sent to passes through for them. */
  lemma {:induction false} NoRedirectLoop(department: string, userRow: Option<string>)
    ensures Decide(DashboardPath(department), true, userRow) == PassThrough
    ensures Decide("/", false, userRow) == PassThrough
  {
    var path := DashboardPath(department);
    ProtectedNeverAuth(path);
    ProtectedIff(path);
  }
}
