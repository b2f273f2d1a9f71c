/**
 * The client session kept in four cookies (`access_token`, `user_data`,
 * `user_permissions`, `user_roles`), the login/logout updates of them, and
 * the membership predicates the route gate is built on.
 */
module Auth {
  import opened Wrappers
  import FetchError
  import Truthiness

  /** One entry of `user.roles` in the login response; only its name is read. */
  datatype RoleRef = RoleRef(name: string)

  /** The `user` object of the login response, as far as the client reads it. */
  datatype User = User(allPermissions: seq<string>, roles: seq<RoleRef>)

  /** The JSON body of a successful login. */
  datatype LoginBody = LoginBody(accessToken: string, user: User)

  /**
   * A response to `POST <apiUrl>/login`: `message` is the error body's
   * `message` (read only when not ok), `body` the parsed result (read only when ok).
   */
  datatype LoginResponse = LoginResponse(ok: bool, status: nat, message: Option<string>, body: LoginBody)

  const DashboardPath := "/dashboard"
  const LoginPath := "/login"
  const AdminRole := "admin"

  /** `Array.prototype.includes` on strings. */
  function Includes(xs: seq<string>, x: string): (found: bool)
    ensures found <==> x in xs
  {
    if xs == [] then false else xs[0] == x || Includes(xs[1..], x)
  }

  /** A cookie list read with `if (!list) return false; return list.includes(x)`. */
  function Holds(list: Option<seq<string>>, x: string): (held: bool)
    ensures list.None? ==> !held
    ensures list.Some? ==> (held <==> x in list.value)
  {
    list.Some? && Includes(list.value, x)
  }

  /** `user.roles.map((role) => role.name)` */
  function RoleNames(roles: seq<RoleRef>): (names: seq<string>)
    ensures |names| == |roles|
    ensures forall i :: 0 <= i < |roles| ==> names[i] == roles[i].name
  {
    if roles == [] then [] else [roles[0].name] + RoleNames(roles[1..])
  }

  /** A role name is stored after login exactly when some role of the user carries it. */
  lemma RoleNamesMembership(roles: seq<RoleRef>, r: string)
    ensures r in RoleNames(roles) <==> exists i :: 0 <= i < |roles| && roles[i].name == r
  {
    var names := RoleNames(roles);
    if r in names {
      var i :| 0 <= i < |names| && names[i] == r;
      assert roles[i].name == r;
    }
  }

  /** The four cookies of one browser session. */
  class Session {
    var token: Option<string>
    var user: Option<User>
    var permissions: Option<seq<string>>
    var roles: Option<seq<string>>

    /** A session resumed from whatever the cookies hold. */
    constructor (token: Option<string>, user: Option<User>, permissions: Option<seq<string>>, roles: Option<seq<string>>)
      ensures this.token == token && this.user == user
      ensures this.permissions == permissions && this.roles == roles
    {
      this.token := token;
      this.user := user;
      this.permissions := permissions;
      this.roles := roles;
    }

    /** The truthiness of the `access_token` cookie: present and non-empty. */
    predicate Authenticated()
      reads this
    {
      Truthiness.Truthy(token)
    }

    /** `hasPermission(permission)` */
    function HasPermission(permission: string): (held: bool)
      reads this
      ensures held <==> permissions.Some? && permission in permissions.value
    {
      Holds(permissions, permission)
    }

    /** `hasRole(role)` */
    function HasRole(role: string): (held: bool)
      reads this
      ensures held <==> roles.Some? && role in roles.value
    {
      Holds(roles, role)
    }

    /** `isAdmin()`: the `admin` role is among the stored role names. */
    function IsAdmin(): (admin: bool)
      reads this
      ensures admin <==> roles.Some? && AdminRole in roles.value
    {
      HasRole(AdminRole)
    }

    /** `getUser()` */
    function GetUser(): Option<User>
      reads this
    {
      user
    }

    /**
     * `login` once the response has arrived. A response that is not ok throws
     * before any cookie is written; otherwise the four cookies take the token,
     * the user, its permissions and its role names, and the client navigates
     * to the dashboard.
     */
    method Login(response: LoginResponse) returns (outcome: Result<LoginBody, string>, navigation: Option<string>)
      modifies this
      ensures !response.ok ==> outcome == Failure(FetchError.ErrorMessage(response.message, response.status))
      ensures !response.ok ==> navigation == None && unchanged(this)
      ensures response.ok ==> outcome == Success(response.body) && navigation == Some(DashboardPath)
      ensures response.ok ==> token == Some(response.body.accessToken) && GetUser() == Some(response.body.user)
      ensures response.ok ==> permissions == Some(response.body.user.allPermissions)
      ensures response.ok ==> roles == Some(RoleNames(response.body.user.roles))
      ensures response.ok ==> forall p :: HasPermission(p) <==> p in response.body.user.allPermissions
      ensures response.ok ==> forall r :: HasRole(r) <==>
                exists i :: 0 <= i < |response.body.user.roles| && response.body.user.roles[i].name == r
    {
      if !response.ok {
        outcome := Failure(FetchError.ErrorMessage(response.message, response.status));
        navigation := None;
        return;
      }
      var result := response.body;
      token := Some(result.accessToken);
      user := Some(result.user);
      permissions := Some(result.user.allPermissions);
      roles := Some(RoleNames(result.user.roles));
      forall r | true
        ensures HasRole(r) <==> exists i :: 0 <= i < |result.user.roles| && result.user.roles[i].name == r
      {
        RoleNamesMembership(result.user.roles, r);
      }
      navigation := Some(DashboardPath);
      outcome := Success(result);
    }

    /** `logout`: every cookie is cleared and the client navigates to the login page. */
    method Logout() returns (navigation: string)
      modifies this
      ensures token == None && user == None && permissions == None && roles == None
      ensures !Authenticated() && GetUser() == None
      ensures forall p :: !HasPermission(p)
      ensures forall r :: !HasRole(r)
      ensures !IsAdmin()
      ensures navigation == LoginPath
    {
      token := None;
      user := None;
      permissions := None;
      roles := None;
      navigation := LoginPath;
    }
  }
}
