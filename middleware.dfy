/**
 * The per-request authorization callback of middleware.ts: from the request
 * path and the (possibly missing) session it decides to let the request
 * through or to redirect it. It never rejects.
 *
 * The route `matcher` keeps API routes, `_next` assets and the favicon away
 * from this decision; paths are taken as they reach it.
 */
module Middleware {
  import opened Schema
  import opened Auth

  datatype Decision = Allow | Redirect(target: string)

  const LoginPage := "/login"
  const UserHome := "/dashboard"
  const AdminHome := "/admin/dashboard"

  /** JavaScript `s.startsWith(prefix)`: raw character comparison. */
  predicate StartsWith(s: string, prefix: string)
  {
    |prefix| <= |s| && s[..|prefix|] == prefix
  }

  /** `publicRoutes.some(route => pathname.startsWith(route))`. */
  predicate IsPublicRoute(pathname: string)
  {
    StartsWith(pathname, "/login") || StartsWith(pathname, "/register") || StartsWith(pathname, "/reset-password")
  }

  predicate IsAdminRoute(pathname: string)
  {
    StartsWith(pathname, "/admin")
  }

  predicate IsUserRoute(pathname: string)
  {
    StartsWith(pathname, "/dashboard") || StartsWith(pathname, "/profile")
  }

  /** Where an authenticated session lands: a missing role counts as non-admin. */
  function RoleHome(session: Option<Session>): string
  {
    if IsAdmin(session) then AdminHome else UserHome
  }

  /** The callback: its rules are tried in order and the first that fires decides. */
  function Decide(pathname: string, session: Option<Session>): (d: Decision)
    ensures d.Redirect? ==> d.target in {LoginPage, UserHome, AdminHome}
    ensures d.Redirect? && d.target == LoginPage ==> session.None?
    ensures d.Redirect? && d.target == AdminHome ==> IsAdmin(session)
  {
    if session.None? && !IsPublicRoute(pathname) && pathname != "/" then
      Redirect(LoginPage)
    else if session.Some? && IsPublicRoute(pathname) then
      if IsAdmin(session) then Redirect(AdminHome) else Redirect(UserHome)
    else if IsAdminRoute(pathname) && session.None? then
      Redirect(LoginPage)
    else if IsAdminRoute(pathname) && !IsAdmin(session) then
      Redirect(UserHome)
    else if IsUserRoute(pathname) && session.None? then
      Redirect(LoginPage)
    else if IsUserRoute(pathname) && IsAdmin(session) && !IsAdminRoute(pathname) then
      Redirect(AdminHome)
    else if pathname == "/" then
      if session.None? then Allow
      else if IsAdmin(session) then Redirect(AdminHome)
      else Redirect(UserHome)
    else
      Allow
  }

  // ---------------------------------------------------------------------
  // An independent statement of the same policy: classify the path first,
  // then decide by class alone.
  // ---------------------------------------------------------------------

  datatype RouteClass = Public | AdminArea | UserArea | Root | Other

  function Classify(pathname: string): RouteClass
  {
    if IsPublicRoute(pathname) then Public
    else if IsAdminRoute(pathname) then AdminArea
    else if IsUserRoute(pathname) then UserArea
    else if pathname == "/" then Root
    else Other
  }

  /** The access policy as a table over route class and session. */
  function Policy(c: RouteClass, session: Option<Session>): Decision
  {
    match c
    case Public => if session.None? then Allow else Redirect(RoleHome(session))
    case AdminArea =>
      if session.None? then Redirect(LoginPage)
      else if !IsAdmin(session) then Redirect(UserHome)
      else Allow
    case UserArea =>
      if session.None? then Redirect(LoginPage)
      else if IsAdmin(session) then Redirect(AdminHome)
      else Allow
    case Root => if session.None? then Allow else Redirect(RoleHome(session))
    case Other => if session.None? then Redirect(LoginPage) else Allow
  }

  /** Two prefixes of the same path agree on the character after the slash. */
  lemma SecondChar(p: string, a: string, b: string)
    requires |a| >= 2 && |b| >= 2 && StartsWith(p, a) && StartsWith(p, b)
    ensures a[1] == b[1]
  {
    assert a[1] == p[..|a|][1] == p[1];
    assert b[1] == p[..|b|][1] == p[1];
  }

  /** The public, admin and user prefixes are pairwise exclusive, and none is "/". */
  lemma {:induction false} ClassesDisjoint(p: string)
    ensures IsPublicRoute(p) ==> !IsAdminRoute(p) && !IsUserRoute(p)
    ensures IsAdminRoute(p) ==> !IsUserRoute(p)
    ensures p == "/" ==> !IsPublicRoute(p) && !IsAdminRoute(p) && !IsUserRoute(p)
  {
    var prefixes := ["/login", "/register", "/reset-password", "/admin", "/dashboard", "/profile"];
    forall i, j | 0 <= i < j < |prefixes| && StartsWith(p, prefixes[i]) && StartsWith(p, prefixes[j])
      ensures prefixes[i][1] == 'r' && prefixes[j][1] == 'r'
    {
      SecondChar(p, prefixes[i], prefixes[j]);
    }
    assert prefixes[0] == "/login" && prefixes[1] == "/register" && prefixes[2] == "/reset-password";
    assert prefixes[3] == "/admin" && prefixes[4] == "/dashboard" && prefixes[5] == "/profile";
  }

  /** The ordered rule chain and the class table agree on every path and session. */
  lemma DecideFollowsPolicy(pathname: string, session: Option<Session>)
    ensures Decide(pathname, session) == Policy(Classify(pathname), session)
  {
    ClassesDisjoint(pathname);
  }

  /**
   * The admin-route test of the user-route rule is always true there:
   * a "/dashboard" or "/profile" path never starts with "/admin".
   */
  lemma UserRouteNeverAdminRoute(pathname: string)
    ensures IsUserRoute(pathname) ==> !IsAdminRoute(pathname)
  {
    ClassesDisjoint(pathname);
  }

  /** Anonymous requests outside the public prefixes and "/" go to the login page. */
  lemma AnonymousProtectedGoesToLogin(pathname: string)
    requires !IsPublicRoute(pathname) && pathname != "/"
    ensures Decide(pathname, None) == Redirect(LoginPage)
  {
  }

  /** Signed-in users never see the sign-in, sign-up or reset forms: they go home. */
  lemma SignedInPublicGoesHome(pathname: string, session: Option<Session>)
    requires session.Some? && IsPublicRoute(pathname)
    ensures Decide(pathname, session) == Redirect(if IsAdmin(session) then AdminHome else UserHome)
  {
  }

  /** On an admin path, a signed-in non-admin is steered to its own dashboard and an admin passes. */
  lemma AdminRouteGuard(pathname: string, session: Option<Session>)
    requires session.Some? && IsAdminRoute(pathname)
    ensures !IsAdmin(session) ==> Decide(pathname, session) == Redirect(UserHome)
    ensures IsAdmin(session) ==> Decide(pathname, session) == Allow
  {
    DecideFollowsPolicy(pathname, session);
    ClassesDisjoint(pathname);
  }

  /** On a user path, an admin is steered to the admin dashboard and a non-admin passes. */
  lemma UserRouteGuard(pathname: string, session: Option<Session>)
    requires session.Some? && IsUserRoute(pathname)
    ensures IsAdmin(session) ==> Decide(pathname, session) == Redirect(AdminHome)
    ensures !IsAdmin(session) ==> Decide(pathname, session) == Allow
  {
    DecideFollowsPolicy(pathname, session);
    ClassesDisjoint(pathname);
  }

  /** "/" is the landing page for anonymous visitors and the role home otherwise. */
  lemma RootRoute(session: Option<Session>)
    ensures session.None? ==> Decide("/", session) == Allow
    ensures session.Some? ==> Decide("/", session) == Redirect(RoleHome(session))
  {
    ClassesDisjoint("/");
  }

  /** Deciding again on a redirect target, with the same session, lets the request through. */
  lemma NoRedirectLoop(pathname: string, session: Option<Session>)
    requires Decide(pathname, session).Redirect?
    ensures Decide(Decide(pathname, session).target, session) == Allow
  {
    var t := Decide(pathname, session).target;
    DecideFollowsPolicy(t, session);
    ClassesDisjoint(t);
    if t == LoginPage {
      assert StartsWith(t, "/login");
    } else if t == AdminHome {
      assert StartsWith(t, "/admin");
    } else {
      assert StartsWith(t, "/dashboard");
    }
  }

  /** Prefix matching is raw: "/administrator" is an admin route and "/login-help" a public one. */
  lemma RawPrefixClassification()
    ensures Classify("/administrator") == AdminArea
    ensures Classify("/login-help") == Public
    ensures Classify("/profiles") == UserArea
  {
    assert StartsWith("/administrator", "/admin");
    assert StartsWith("/login-help", "/login");
    assert StartsWith("/profiles", "/profile");
    ClassesDisjoint("/administrator");
    ClassesDisjoint("/profiles");
  }
}
