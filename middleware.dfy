/**
 * The request-authorisation decision of the portal's edge middleware: an
 * ordered, first-match-wins chain over constant route tables that maps a
 * request path and an optional verified session to "continue" or a redirect.
 */
module Middleware {
  import opened Wrappers
  import opened Strings

  /** The claims read from a verified session token; `role` may be missing. */
  datatype Payload = Payload(userId: int, email: string, firstName: string, lastName: string, role: Option<string>)

  /** What the middleware answers. `RedirectLogin(p)` is a redirect to `/login?redirect=p`. */
  datatype Response = Next | Redirect(location: string) | RedirectLogin(redirect: string)

  const ROOT := "/"
  const UNAUTHORIZED := "/unauthorized"
  const DEFAULT_ROLE := "user"

  const AUTH_ONLY_ROUTES: seq<string> := ["/login", "/register"]
  const PUBLIC_ROUTES: set<string> := {"/login", "/register"}
  const SUPERADMIN_ONLY_PREFIXES: seq<string> := ["/admin"]
  const ADMIN_PREFIXES: seq<string> := ["/dashboard", "/users", "/settings"]
  /** Raw prefixes that skip every check (framework internals and the auth endpoints). */
  const BYPASS_PREFIXES: seq<string> := ["/_next", "/api/auth/signin", "/api/auth/signup", "/api/auth/logout", "/api/auth/me"]

  /**
   * Reads the `session` cookie and verifies it. `verify` stands for the JWT
   * signature and expiry check, which yields the payload or fails; an absent
   * or empty cookie and a failed verification are both "no session".
   */
  function GetSessionPayload(cookie: Option<string>, verify: string -> Option<Payload>): (r: Option<Payload>)
    ensures r.Some? <==> cookie.Some? && cookie.value != "" && verify(cookie.value).Some?
    ensures r.Some? ==> r == verify(cookie.value)
  {
    match cookie
    case None => None
    case Some(token) => if token == "" then None else verify(token)
  }

  /** The separator-aware prefix rule: the path is `p` itself or lies below `p/`. */
  predicate UnderPrefix(pathname: string, p: string) {
    pathname == p || StartsWith(pathname, p + "/")
  }

  predicate MatchesSome(pathname: string, table: seq<string>) {
    exists p | p in table :: UnderPrefix(pathname, p)
  }

  predicate IsPublicRoute(pathname: string) {
    pathname in PUBLIC_ROUTES
  }

  predicate IsAuthOnlyRoute(pathname: string) {
    MatchesSome(pathname, AUTH_ONLY_ROUTES)
  }

  predicate IsSuperAdminRoute(pathname: string) {
    MatchesSome(pathname, SUPERADMIN_ONLY_PREFIXES)
  }

  predicate IsAdminRoute(pathname: string) {
    MatchesSome(pathname, ADMIN_PREFIXES)
  }

  /** Framework internals, the auth endpoints (raw prefixes) and anything with a dot. */
  predicate IsBypass(pathname: string) {
    (exists p | p in BYPASS_PREFIXES :: StartsWith(pathname, p)) || '.' in pathname
  }

  /** `session.role ?? 'user'` */
  function RoleOf(session: Payload): string {
    session.role.GetOr(DEFAULT_ROLE)
  }

  /** The decision chain, given the session that verification produced. */
  function Route(pathname: string, session: Option<Payload>): Response {
    if IsBypass(pathname) then Next
    else if IsAuthOnlyRoute(pathname) then
      if session.Some? then Redirect(ROOT) else Next
    else if IsPublicRoute(pathname) then Next
    else if session.None? then RedirectLogin(pathname)
    else if IsSuperAdminRoute(pathname) then
      if RoleOf(session.value) != "superadmin" then Redirect(UNAUTHORIZED) else Next
    else if IsAdminRoute(pathname) then
      if RoleOf(session.value) != "superadmin" && RoleOf(session.value) != "admin" then Redirect(UNAUTHORIZED) else Next
    else Next
  }

  /** The middleware: verify the cookie, then run the decision chain. */
  function Middleware(pathname: string, cookie: Option<string>, verify: string -> Option<Payload>): (r: Response)
    ensures IsBypass(pathname) ==> r == Next
    ensures !IsBypass(pathname) && !IsAuthOnlyRoute(pathname) && GetSessionPayload(cookie, verify).None? ==> r == RedirectLogin(pathname)
  {
    PublicBranchUnreachable(pathname);
    Route(pathname, GetSessionPayload(cookie, verify))
  }

  // ---------------------------------------------------------------------
  // Route categories and the access decision table, as an independent
  // reference for the chain above.

  datatype Category = Bypass | AuthOnly | Public | SuperAdminOnly | AdminTier | Authenticated

  /** The first category, in precedence order, that the path falls in. */
  function Classify(pathname: string): Category {
    if IsBypass(pathname) then Bypass
    else if IsAuthOnlyRoute(pathname) then AuthOnly
    else if IsPublicRoute(pathname) then Public
    else if IsSuperAdminRoute(pathname) then SuperAdminOnly
    else if IsAdminRoute(pathname) then AdminTier
    else Authenticated
  }

  /** Roles as a closed enumeration ordered by privilege; every unknown string is `User`. */
  datatype Privilege = User | Admin | SuperAdmin

  function PrivilegeOf(role: string): (r: Privilege)
    ensures r == SuperAdmin <==> role == "superadmin"
    ensures r == Admin <==> role == "admin"
  {
    if role == "superadmin" then SuperAdmin else if role == "admin" then Admin else User
  }

  function Rank(p: Privilege): nat {
    match p
    case User => 0
    case Admin => 1
    case SuperAdmin => 2
  }

  /** One row of the decision table per category, session state and privilege. */
  function DecisionTable(category: Category, pathname: string, session: Option<Payload>): Response {
    match category
    case Bypass => Next
    case AuthOnly => if session.Some? then Redirect(ROOT) else Next
    case Public => Next
    case SuperAdminOnly =>
      if session.None? then RedirectLogin(pathname)
      else if PrivilegeOf(RoleOf(session.value)) == SuperAdmin then Next
      else Redirect(UNAUTHORIZED)
    case AdminTier =>
      if session.None? then RedirectLogin(pathname)
      else if Rank(PrivilegeOf(RoleOf(session.value))) >= 1 then Next
      else Redirect(UNAUTHORIZED)
    case Authenticated =>
      if session.None? then RedirectLogin(pathname) else Next
  }

  /** The chain agrees with the decision table on every path and session. */
  lemma RouteFollowsDecisionTable(pathname: string, session: Option<Payload>)
    ensures Route(pathname, session) == DecisionTable(Classify(pathname), pathname, session)
  {
  }

  // ---------------------------------------------------------------------
  // Prefix matching

  /** `UnderPrefix` in plain index terms: equal, or longer with `/` right after `p`. */
  lemma UnderPrefixAt(pathname: string, p: string)
    ensures UnderPrefix(pathname, p) <==>
      pathname == p || (|pathname| > |p| && pathname[..|p|] == p && pathname[|p|] == '/')
  {
    if |pathname| > |p| && pathname[..|p|] == p && pathname[|p|] == '/' {
      assert pathname[..|p| + 1] == pathname[..|p|] + [pathname[|p|]];
    }
    if StartsWith(pathname, p + "/") {
      assert pathname[..|p| + 1][..|p|] == pathname[..|p|];
      assert pathname[..|p| + 1][|p|] == (p + "/")[|p|];
    }
  }

  /** A sibling that shares `p` as a raw prefix but continues with anything other than `/` is not under `p`. */
  lemma SiblingNotUnderPrefix(p: string, c: char, rest: string)
    requires c != '/'
    ensures !UnderPrefix(p + [c] + rest, p)
  {
    var s := p + [c] + rest;
    assert s[|p|] == c;
    UnderPrefixAt(s, p);
  }

  /** The examples of the sibling rule: `/administration`, `/adminfoo` and `/usersX`. */
  lemma SiblingExamples()
    ensures !IsSuperAdminRoute("/administration") && !IsSuperAdminRoute("/adminfoo")
    ensures !IsAdminRoute("/usersX")
    ensures IsSuperAdminRoute("/admin") && IsSuperAdminRoute("/admin/reports") && IsAdminRoute("/users/7")
  {
    assert "/admin" in SUPERADMIN_ONLY_PREFIXES && UnderPrefix("/admin", "/admin");
    SiblingNotUnderPrefix("/admin", 'i', "stration");
    assert "/administration" == "/admin" + ['i'] + "stration";
    SiblingNotUnderPrefix("/admin", 'f', "oo");
    assert "/adminfoo" == "/admin" + ['f'] + "oo";
    SiblingNotUnderPrefix("/users", 'X', "");
    assert "/usersX" == "/users" + ['X'] + "";
    NotUnderTheOtherAdminPrefixes("/usersX");
    StartsWithConcat("/admin/", "reports");
    assert "/admin/reports" == "/admin/" + "reports";
    assert UnderPrefix("/admin/reports", "/admin");
    assert "/users" in ADMIN_PREFIXES;
    StartsWithConcat("/users/", "7");
    assert "/users/7" == "/users/" + "7";
    assert UnderPrefix("/users/7", "/users");
  }

  /** A path whose second character is `u` (such as `/usersX`) is under neither `/dashboard` nor `/settings`. */
  lemma NotUnderTheOtherAdminPrefixes(pathname: string)
    requires |pathname| >= 2 && pathname[1] == 'u'
    ensures !UnderPrefix(pathname, "/dashboard") && !UnderPrefix(pathname, "/settings")
  {
    NotStartsWithAt(pathname, "/dashboard/", 1);
    NotStartsWithAt(pathname, "/settings/", 1);
  }

  // ---------------------------------------------------------------------
  // The security behaviour of the chain

  /** A bypass path continues whatever the cookie and whatever verification says. */
  lemma BypassAlwaysNext(pathname: string, cookie: Option<string>, verify: string -> Option<Payload>)
    requires IsBypass(pathname)
    ensures Middleware(pathname, cookie, verify) == Next
  {
  }

  /** The bypass prefixes are raw: a dotted admin path and `/api/auth/meX` skip every check. */
  lemma BypassIsRawPrefix(session: Option<Payload>)
    ensures Route("/admin/x.json", session) == Next
    ensures Route("/api/auth/meX", session) == Next
    ensures Route("/favicon.ico", session) == Next
  {
    assert "/admin/x.json"[8] == '.';
    assert "/favicon.ico"[8] == '.';
    StartsWithConcat("/api/auth/me", "X");
    assert "/api/auth/meX" == "/api/auth/me" + "X";
  }

  /** Auth-only paths send a logged-in visitor to the root and let anyone else through. */
  lemma AuthOnlyRedirectsLoggedIn(pathname: string, session: Option<Payload>)
    requires !IsBypass(pathname) && IsAuthOnlyRoute(pathname)
    ensures session.Some? ==> Route(pathname, session) == Redirect(ROOT)
    ensures session.None? ==> Route(pathname, session) == Next
  {
  }

  /** Every public route is also auth-only, so the public branch never decides. */
  lemma PublicBranchUnreachable(pathname: string)
    ensures IsPublicRoute(pathname) ==> IsAuthOnlyRoute(pathname)
    ensures Classify(pathname) != Public
  {
    if IsPublicRoute(pathname) {
      assert pathname in AUTH_ONLY_ROUTES && UnderPrefix(pathname, pathname);
    }
  }

  /** Superadmin-only paths are never auth-only, so the session gate is reached for them. */
  lemma SuperAdminRouteNotAuthOnly(pathname: string)
    requires IsSuperAdminRoute(pathname)
    ensures !IsAuthOnlyRoute(pathname) && !IsPublicRoute(pathname)
  {
    assert UnderPrefix(pathname, "/admin");
    NotUnderAuthOnly(pathname);
  }

  /** Admin-tier paths are never auth-only nor superadmin-only. */
  lemma AdminRouteNotAuthOnly(pathname: string)
    requires IsAdminRoute(pathname)
    ensures !IsAuthOnlyRoute(pathname) && !IsPublicRoute(pathname) && !IsSuperAdminRoute(pathname)
  {
    var p :| p in ADMIN_PREFIXES && UnderPrefix(pathname, p);
    UnderPrefixAt(pathname, p);
    assert |pathname| >= 2 && pathname[1] != 'l' && pathname[1] != 'r' && pathname[1] != 'a' by {
      assert pathname[..|p|] == p;
      assert pathname[1] == p[1];
    }
    NotUnderAuthOnly(pathname);
    NotStartsWithAt(pathname, "/admin/", 1);
  }

  /** A path whose second character is not that of `/login` or `/register` is not auth-only. */
  lemma NotUnderAuthOnly(pathname: string)
    requires |pathname| >= 2 && pathname[1] != 'l' && pathname[1] != 'r'
    ensures !IsAuthOnlyRoute(pathname) && !IsPublicRoute(pathname)
  {
    NotStartsWithAt(pathname, "/login/", 1);
    NotStartsWithAt(pathname, "/register/", 1);
  }

  /** Without a session, a path that neither bypasses nor is auth-only redirects to login, carrying the path. */
  lemma NoSessionRedirectsToLogin(pathname: string)
    requires !IsBypass(pathname) && !IsAuthOnlyRoute(pathname)
    ensures Route(pathname, None) == RedirectLogin(pathname)
  {
    PublicBranchUnreachable(pathname);
  }

  /** On a superadmin-only path with a session: continue exactly for role `superadmin`, otherwise `/unauthorized`. */
  lemma SuperAdminGate(pathname: string, session: Payload)
    requires !IsBypass(pathname) && IsSuperAdminRoute(pathname)
    ensures Route(pathname, Some(session)) == Next <==> RoleOf(session) == "superadmin"
    ensures Route(pathname, Some(session)) != Next ==> Route(pathname, Some(session)) == Redirect(UNAUTHORIZED)
  {
    SuperAdminRouteNotAuthOnly(pathname);
  }

  /** On an admin-tier path with a session: continue exactly for `admin` and `superadmin`, otherwise `/unauthorized`. */
  lemma AdminGate(pathname: string, session: Payload)
    requires !IsBypass(pathname) && IsAdminRoute(pathname)
    ensures Route(pathname, Some(session)) == Next <==> RoleOf(session) in {"admin", "superadmin"}
    ensures Route(pathname, Some(session)) != Next ==> Route(pathname, Some(session)) == Redirect(UNAUTHORIZED)
  {
    AdminRouteNotAuthOnly(pathname);
  }

  /** Every other path continues for any session. */
  lemma OtherPathsNeedOnlyASession(pathname: string, session: Payload)
    requires !IsBypass(pathname) && !IsAuthOnlyRoute(pathname) && !IsSuperAdminRoute(pathname) && !IsAdminRoute(pathname)
    ensures Route(pathname, Some(session)) == Next
  {
  }

  /** A missing role claim is the role `user`. */
  lemma MissingRoleIsUser(session: Payload)
    requires session.role.None?
    ensures RoleOf(session) == DEFAULT_ROLE
  {
  }

  /** The outcome depends on the role only through its privilege: an unknown role acts exactly as a missing one. */
  lemma RoleMattersOnlyByPrivilege(pathname: string, a: Payload, b: Payload)
    requires PrivilegeOf(RoleOf(a)) == PrivilegeOf(RoleOf(b))
    ensures Route(pathname, Some(a)) == Route(pathname, Some(b))
  {
  }

  /** Unknown role strings are never elevated. */
  lemma UnknownRoleNeverElevated(pathname: string, session: Payload)
    requires RoleOf(session) != "admin" && RoleOf(session) != "superadmin"
    ensures Route(pathname, Some(session)) == Route(pathname, Some(session.(role := None)))
  {
    RoleMattersOnlyByPrivilege(pathname, session, session.(role := None));
  }

  /** Access is monotone in privilege: what a role may visit, a more privileged role may visit too. */
  lemma MorePrivilegeNeverLessAccess(pathname: string, a: Payload, b: Payload)
    requires Rank(PrivilegeOf(RoleOf(a))) <= Rank(PrivilegeOf(RoleOf(b)))
    requires Route(pathname, Some(a)) == Next
    ensures Route(pathname, Some(b)) == Next
  {
  }

  /** A logged-in superadmin is redirected only from auth-only paths, and then to the root. */
  lemma SuperAdminRedirectedOnlyFromAuthOnly(pathname: string, session: Payload)
    requires RoleOf(session) == "superadmin"
    requires Route(pathname, Some(session)) != Next
    ensures !IsBypass(pathname) && IsAuthOnlyRoute(pathname)
    ensures Route(pathname, Some(session)) == Redirect(ROOT)
  {
  }

  /** Sample requests and their outcomes. */
  lemma Scenarios(admin: Payload, superadmin: Payload, anyone: Payload)
    requires admin.role == Some("admin") && superadmin.role == Some("superadmin")
    ensures Route("/users", None) == RedirectLogin("/users")
    ensures Route("/admin/reports", Some(admin)) == Redirect(UNAUTHORIZED)
    ensures Route("/admin/reports", Some(superadmin)) == Next
    ensures Route("/login", Some(anyone)) == Redirect(ROOT)
    ensures Route("/favicon.ico", None) == Next
  {
    SiblingExamples();
    BypassIsRawPrefix(None);
    assert !IsBypass("/users") by { NotBypass("/users"); }
    assert !IsBypass("/admin/reports") by { NotBypass("/admin/reports"); }
    assert !IsBypass("/login") by { NotBypass("/login"); }
    assert UnderPrefix("/users", "/users");
    NotUnderAuthOnly("/users");
    assert UnderPrefix("/login", "/login");
    SuperAdminGate("/admin/reports", admin);
    SuperAdminGate("/admin/reports", superadmin);
  }

  /**
   * A dotless path of at least five characters does not bypass when its
   * second character is neither `_` nor `a`, or when it starts with `/a` but
   * its fifth character is not `/` (so it cannot start with `/api/`).
   */
  lemma NotBypass(pathname: string)
    requires '.' !in pathname && |pathname| >= 5
    requires pathname[1] != '_' && (pathname[1] == 'a' ==> pathname[4] != '/')
    ensures !IsBypass(pathname)
  {
    NotStartsWithAt(pathname, "/_next", 1);
    if pathname[1] == 'a' {
      NotStartsWithAt(pathname, "/api/auth/signin", 4);
      NotStartsWithAt(pathname, "/api/auth/signup", 4);
      NotStartsWithAt(pathname, "/api/auth/logout", 4);
      NotStartsWithAt(pathname, "/api/auth/me", 4);
    } else {
      NotStartsWithAt(pathname, "/api/auth/signin", 1);
      NotStartsWithAt(pathname, "/api/auth/signup", 1);
      NotStartsWithAt(pathname, "/api/auth/logout", 1);
      NotStartsWithAt(pathname, "/api/auth/me", 1);
    }
  }

  /** The cookie check: logged in exactly when a non-empty cookie verified. */
  lemma SessionPresence(pathname: string, cookie: Option<string>, verify: string -> Option<Payload>)
    requires !IsBypass(pathname) && IsAuthOnlyRoute(pathname)
    ensures Middleware(pathname, cookie, verify) == Redirect(ROOT) <==>
      cookie.Some? && cookie.value != "" && verify(cookie.value).Some?
  {
  }
}
