/**
 * The global route middleware: a first-match lookup of the requested path
 * in an ordered table of protected routes, then a token check and a
 * permission check with an `admin` override. The evaluator is generic over
 * the table; `ProtectedRoutes` is the table the application ships.
 */
module RouteGate {
  import opened Wrappers
  import Auth

  /** A rule's `permission`: `null`, one string, or an array checked with `some`. */
  datatype Permission = NoPermission | Single(name: string) | AnyOf(names: seq<string>)

  datatype Rule = Rule(path: string, permission: Permission)

  /** What the middleware returns: nothing, or `navigateTo(target)`. */
  datatype Decision = Continue | RedirectTo(target: string)

  const LoginPath := Auth.LoginPath
  const RegisterPath := "/register"
  const DashboardPath := Auth.DashboardPath
  const AdminRole := Auth.AdminRole

  /** The rule table as written, in its order. */
  const ProtectedRoutes: seq<Rule> := [
    Rule("/dashboard", NoPermission),
    Rule("/dashboard/users", Single("user.read")),
    Rule("/dashboard/spareparts", AnyOf(["sparepart.read", "sparepart.read_list"])),
    Rule("/dashboard/transactions", AnyOf(["transaction.read_all", "transaction.read_own"])),
    Rule("/dashboard/reports", Single("report.read"))
  ]

  /** `to.path === route.path || to.path.startsWith(route.path + "/")` */
  predicate Matches(rulePath: string, path: string)
    ensures Matches(rulePath, path) ==> rulePath <= path
    ensures Matches(rulePath, path) && |path| > |rulePath| ==> path[|rulePath|] == '/'
  {
    path == rulePath || rulePath + "/" <= path
  }

  /** `protectedRoutes.find(...)`, as the index of the rule it returns. */
  function FindRule(table: seq<Rule>, path: string): (found: Option<nat>)
    ensures found.Some? ==> found.value < |table| && Matches(table[found.value].path, path)
    ensures found.Some? ==> forall j :: 0 <= j < found.value ==> !Matches(table[j].path, path)
    ensures found.None? ==> forall j :: 0 <= j < |table| ==> !Matches(table[j].path, path)
  {
    if table == [] then None
    else if Matches(table[0].path, path) then Some(0)
    else match FindRule(table[1..], path)
      case None => None
      case Some(i) => Some(i + 1)
  }

  /** `permission.some((perm) => hasPermission(perm))` */
  function AnyHeld(names: seq<string>, hasPermission: string -> bool): (some: bool)
    ensures some <==> exists i :: 0 <= i < |names| && hasPermission(names[i])
  {
    if names == [] then false
    else hasPermission(names[0]) || AnyHeld(names[1..], hasPermission)
  }

  /** Whether `if (protectedRoute.permission)` is taken: `null` and `""` are falsy, any array is truthy. */
  predicate Demands(permission: Permission)
    ensures Demands(permission) <==> permission != NoPermission && permission != Single("")
  {
    match permission
    case NoPermission => false
    case Single(name) => name != ""
    case AnyOf(_) => true
  }

  /** `hasAccess`: the array form asks for any listed permission, the string form for that one. */
  predicate Granted(permission: Permission, hasPermission: string -> bool)
    ensures permission.Single? ==> (Granted(permission, hasPermission) <==> hasPermission(permission.name))
    ensures permission.AnyOf? ==> (Granted(permission, hasPermission) <==>
              exists i :: 0 <= i < |permission.names| && hasPermission(permission.names[i]))
  {
    match permission
    case NoPermission => true
    case Single(name) => hasPermission(name)
    case AnyOf(names) => AnyHeld(names, hasPermission)
  }

  predicate IsAuthPage(path: string) {
    path == LoginPath || path == RegisterPath
  }

  /**
   * The middleware body. `authenticated` is the truthiness of the token
   * cookie; `hasPermission` and `hasRole` are the session's predicates.
   */
  function Evaluate(table: seq<Rule>, path: string, authenticated: bool,
                    hasPermission: string -> bool, hasRole: string -> bool): (d: Decision)
    ensures d == Continue || d == RedirectTo(LoginPath) || d == RedirectTo(DashboardPath)
    ensures d == RedirectTo(LoginPath) ==> !authenticated && FindRule(table, path).Some?
    ensures d == RedirectTo(DashboardPath) ==> authenticated
  {
    if authenticated && IsAuthPage(path) then RedirectTo(DashboardPath)
    else match FindRule(table, path)
      case None => Continue
      case Some(i) =>
        if !authenticated then RedirectTo(LoginPath)
        else if Demands(table[i].permission) && !Granted(table[i].permission, hasPermission)
                && !hasRole(AdminRole) then RedirectTo(DashboardPath)
        else Continue
  }

  // ---------------------------------------------------------------------
  // The evaluator, for any table

  /** A rule path matches exactly itself and the paths one `/`-segment or more below it. */
  lemma MatchesIff(rulePath: string, path: string)
    ensures Matches(rulePath, path) <==>
            path == rulePath ||
            (|path| > |rulePath| && path[..|rulePath|] == rulePath && path[|rulePath|] == '/')
  {
    if |path| > |rulePath| && path[..|rulePath|] == rulePath && path[|rulePath|] == '/' {
      assert path[..|rulePath| + 1] == rulePath + "/";
    }
  }

  /** Matching is transitive: what lies under a rule path lies under every path that path lies under. */
  lemma MatchesTransitive(a: string, b: string, path: string)
    requires Matches(a, b) && Matches(b, path)
    ensures Matches(a, path)
  {
    if b != a && path != b {
      assert (a + "/") <= b;
      assert b <= path by { assert b + "/" <= path; }
    }
  }

  /** Authenticated visitors of the login and registration pages are sent to the dashboard. */
  lemma AuthPageRedirect(table: seq<Rule>, path: string, hasPermission: string -> bool, hasRole: string -> bool)
    requires IsAuthPage(path)
    ensures Evaluate(table, path, true, hasPermission, hasRole) == RedirectTo(DashboardPath)
  {
  }

  /** A path no rule matches is never redirected, except an auth page visited with a token. */
  lemma UnprotectedContinues(table: seq<Rule>, path: string, authenticated: bool,
                             hasPermission: string -> bool, hasRole: string -> bool)
    requires forall j :: 0 <= j < |table| ==> !Matches(table[j].path, path)
    requires !(authenticated && IsAuthPage(path))
    ensures Evaluate(table, path, authenticated, hasPermission, hasRole) == Continue
  {
  }

  /** Without a token, a path some rule matches is redirected to the login page. */
  lemma UnauthenticatedToLogin(table: seq<Rule>, path: string, j: nat,
                               hasPermission: string -> bool, hasRole: string -> bool)
    requires j < |table| && Matches(table[j].path, path)
    ensures Evaluate(table, path, false, hasPermission, hasRole) == RedirectTo(LoginPath)
  {
  }

  /**
   * With a token, on a path the i-th rule is selected for: a `null` (or empty)
   * permission lets it through; a string lets it through iff held; an array
   * iff some listed permission is held; the `admin` role lets it through always.
   */
  lemma PermissionCheck(table: seq<Rule>, path: string, i: nat,
                        hasPermission: string -> bool, hasRole: string -> bool)
    requires !IsAuthPage(path) && FindRule(table, path) == Some(i)
    ensures var d := Evaluate(table, path, true, hasPermission, hasRole);
            match table[i].permission
            case NoPermission => d == Continue
            case Single(name) =>
              d == Continue <==> name == "" || hasPermission(name) || hasRole(AdminRole)
            case AnyOf(names) =>
              d == Continue <==>
                (exists k :: 0 <= k < |names| && hasPermission(names[k])) || hasRole(AdminRole)
  {
  }

  /** A holder of a token and the `admin` role is let through everywhere but the auth pages. */
  lemma AdminNeverRedirected(table: seq<Rule>, path: string, hasPermission: string -> bool, hasRole: string -> bool)
    requires hasRole(AdminRole) && !IsAuthPage(path)
    ensures Evaluate(table, path, true, hasPermission, hasRole) == Continue
  {
  }

  /**
   * A rule is ever selected exactly when no earlier rule matches its own path;
   * otherwise the earlier rule shadows it for every path.
   */
  lemma {:induction false} RuleReachable(table: seq<Rule>, k: nat)
    requires k < |table|
    ensures (exists path :: FindRule(table, path) == Some(k)) <==>
            forall j :: 0 <= j < k ==> !Matches(table[j].path, table[k].path)
  {
    if forall j :: 0 <= j < k ==> !Matches(table[j].path, table[k].path) {
      var path := table[k].path;
      var f := FindRule(table, path);
      assert Matches(table[k].path, path);
      assert f.Some? && f.value <= k;
      assert FindRule(table, path) == Some(k);
    } else {
      var j :| 0 <= j < k && Matches(table[j].path, table[k].path);
      forall path | FindRule(table, path) == Some(k)
        ensures false
      {
        MatchesTransitive(table[j].path, table[k].path, path);
      }
    }
  }

  // ---------------------------------------------------------------------
  // The table as shipped

  /** Every rule of the shipped table lies under `/dashboard`. */
  lemma ShippedRulesUnderDashboard(k: nat)
    requires k < |ProtectedRoutes|
    ensures Matches(ProtectedRoutes[0].path, ProtectedRoutes[k].path)
  {
    var p := ProtectedRoutes[k].path;
    if k > 0 {
      assert p[..|"/dashboard/"|] == "/dashboard/";
    }
  }

  /** Whenever the shipped table matches a path, the selected rule is the `/dashboard` rule. */
  lemma ShippedTableSelectsDashboard(path: string)
    ensures FindRule(ProtectedRoutes, path).Some? <==> Matches(DashboardPath, path)
    ensures FindRule(ProtectedRoutes, path).Some? ==> FindRule(ProtectedRoutes, path) == Some(0)
  {
    var f := FindRule(ProtectedRoutes, path);
    if f.Some? && f.value != 0 {
      ShippedRulesUnderDashboard(f.value);
      MatchesTransitive(ProtectedRoutes[0].path, ProtectedRoutes[f.value].path, path);
      assert false;
    }
  }

  /** The permission rules of the shipped table (all but the first) are never selected. */
  lemma PermissionRulesUnreachable(k: nat)
    requires 1 <= k < |ProtectedRoutes|
    ensures forall path :: FindRule(ProtectedRoutes, path) != Some(k)
  {
    ShippedRulesUnderDashboard(k);
    RuleReachable(ProtectedRoutes, k);
  }

  /**
   * The shipped middleware in full: permissions and roles never matter.
   * With a token only the auth pages redirect (to the dashboard); without
   * one only `/dashboard` and the paths below it redirect (to the login page).
   */
  lemma ShippedGate(path: string, authenticated: bool, hasPermission: string -> bool, hasRole: string -> bool)
    ensures Evaluate(ProtectedRoutes, path, authenticated, hasPermission, hasRole) ==
            if authenticated && IsAuthPage(path) then RedirectTo(DashboardPath)
            else if !authenticated && Matches(DashboardPath, path) then RedirectTo(LoginPath)
            else Continue
  {
    ShippedTableSelectsDashboard(path);
  }

  /** The shipped middleware never redirects to a page it would redirect again: no loop. */
  lemma ShippedGateNoLoop(path: string, authenticated: bool, hasPermission: string -> bool, hasRole: string -> bool)
    ensures var d := Evaluate(ProtectedRoutes, path, authenticated, hasPermission, hasRole);
            d.RedirectTo? ==> Evaluate(ProtectedRoutes, d.target, authenticated, hasPermission, hasRole) == Continue
  {
    ShippedGate(path, authenticated, hasPermission, hasRole);
    ShippedGate(LoginPath, authenticated, hasPermission, hasRole);
    ShippedGate(DashboardPath, authenticated, hasPermission, hasRole);
    assert !Matches(DashboardPath, LoginPath) by { MatchesIff(DashboardPath, LoginPath); }
  }

  /** `/dashboardx` is not under `/dashboard`: no rule of the shipped table matches it. */
  lemma DashboardxUnprotected()
    ensures FindRule(ProtectedRoutes, "/dashboardx") == None
  {
    ShippedTableSelectsDashboard("/dashboardx");
    MatchesIff(DashboardPath, "/dashboardx");
  }

  /** A token holder without `user.read` still reaches `/dashboard/users`: the `/dashboard` rule is selected. */
  lemma UsersPageWithoutPermission(hasPermission: string -> bool, hasRole: string -> bool)
    requires !hasPermission("user.read") && !hasRole(AdminRole)
    ensures Evaluate(ProtectedRoutes, "/dashboard/users", true, hasPermission, hasRole) == Continue
  {
    ShippedGate("/dashboard/users", true, hasPermission, hasRole);
  }

  /** Without a token, `/dashboard/spareparts/123` sends the visitor to the login page. */
  lemma SparepartDetailSignedOut(hasPermission: string -> bool, hasRole: string -> bool)
    ensures Evaluate(ProtectedRoutes, "/dashboard/spareparts/123", false, hasPermission, hasRole) == RedirectTo(LoginPath)
  {
    ShippedGate("/dashboard/spareparts/123", false, hasPermission, hasRole);
    assert DashboardPath + "/" <= "/dashboard/spareparts/123";
  }

  // ---------------------------------------------------------------------
  // The middleware as it runs against the session cookies

  /** The middleware for a session: its token, `hasPermission` and `hasRole`. */
  function Middleware(session: Auth.Session, path: string): (d: Decision)
    reads session
    ensures d == if session.Authenticated() && IsAuthPage(path) then RedirectTo(DashboardPath)
                 else if !session.Authenticated() && Matches(DashboardPath, path) then RedirectTo(LoginPath)
                 else Continue
  {
    var permissions, roles := session.permissions, session.roles;
    ShippedGate(path, session.Authenticated(), p => Auth.Holds(permissions, p), r => Auth.Holds(roles, r));
    Evaluate(ProtectedRoutes, path, session.Authenticated(),
             p => Auth.Holds(permissions, p), r => Auth.Holds(roles, r))
  }

  /** After logout (no token), the dashboard and everything under it send the visitor to the login page. */
  lemma SignedOutSession(session: Auth.Session, path: string)
    requires !session.Authenticated()
    ensures Middleware(session, path) ==
            if Matches(DashboardPath, path) then RedirectTo(LoginPath) else Continue
  {
  }

  /** A signed-in session reaches every dashboard sub-route, whatever permissions it holds. */
  lemma SignedInSession(session: Auth.Session, path: string)
    requires session.Authenticated() && !IsAuthPage(path)
    ensures Middleware(session, path) == Continue
  {
  }
}
