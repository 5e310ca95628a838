/**
 * useAuth: the isAuthenticated, currentUser and isLoginMode state cells
 * over the stored principal, the role test, and the merge-update of the
 * current user.
 */
module UseAuth {
  import opened Wrappers
  import opened Text
  import opened JsValues
  import opened AuthService

  /** The authority name the role test looks for. */
  function RoleName(role: string): (r: string)
    ensures StartsWith(r, "ROLE_") && r[5..] == Upper(role)
  {
    "ROLE_" + Upper(role)
  }

  /** What a JavaScript test expression gives: undefined, a boolean, or a thrown TypeError. */
  datatype JsTest = Undefined | Answer(holds: bool) | TypeError

  /** A value that has no includes method: a boolean, a number or a plain object. */
  predicate LacksIncludes(v: Json) {
    v.JBool? || v.JNum? || v.JObj?
  }

  /**
   * roles?.includes(target): undefined when roles is undefined or null; an
   * array is searched for the string, a string for the substring, and any
   * other value throws.
   */
  function Includes(roles: Option<Json>, target: string): (r: JsTest)
    ensures r.Undefined? <==> roles.None? || roles.value.JNull?
    ensures r.TypeError? <==> roles.Some? && LacksIncludes(roles.value)
    ensures r == Answer(true) <==>
      roles.Some? && ((roles.value.JArr? && JStr(target) in roles.value.items) || (roles.value.JStr? && Contains(roles.value.s, target)))
  {
    if roles.None? || roles.value.JNull? then Undefined
    else match roles.value
      case JArr(items) => Answer(JStr(target) in items)
      case JStr(s) => Answer(Contains(s, target))
      case _ => TypeError
  }

  /** hasRole(r): currentUser?.roles?.includes("ROLE_" + r.toUpperCase()). */
  function HasRole(user: Option<Json>, role: string): (r: JsTest)
    ensures user.None? ==> r.Undefined?
    ensures r.TypeError? <==> Field(user, "roles").Some? && LacksIncludes(Field(user, "roles").value)
    ensures r == Answer(true) <==> Includes(Field(user, "roles"), RoleName(role)) == Answer(true)
  {
    Includes(Field(user, "roles"), RoleName(role))
  }

  /** The truthiness of hasRole(r), where it does not throw. */
  predicate Holds(user: Option<Json>, role: string) {
    HasRole(user, role) == Answer(true)
  }

  /** hasRole('USER') && !hasRole('MODERATOR') && !hasRole('ADMIN'): a caller who only manages their own profile. */
  predicate ProfileOnly(user: Option<Json>) {
    Holds(user, "USER") && !Holds(user, "MODERATOR") && !Holds(user, "ADMIN")
  }

  /** For a user whose roles are a list of strings, hasRole is membership of the upper-cased name. */
  lemma HasRoleInList(fields: map<string, Json>, names: seq<string>, role: string)
    requires "roles" in fields && fields["roles"] == JArr(seq(|names|, k requires 0 <= k < |names| => JStr(names[k])))
    ensures Holds(Some(JObj(fields)), role) <==> RoleName(role) in names
  {
    var items := seq(|names|, k requires 0 <= k < |names| => JStr(names[k]));
    if RoleName(role) in names {
      var k :| 0 <= k < |names| && names[k] == RoleName(role);
      assert items[k] == JStr(RoleName(role));
    }
  }

  /** The role test is case-insensitive in its argument: "admin" and "ADMIN" agree. */
  lemma HasRoleIgnoresCase(user: Option<Json>, role: string)
    ensures HasRole(user, Lower(role)) == HasRole(user, role)
  {
    assert Upper(Lower(role)) == Upper(role);
  }

  /** { ...currentUser, ...userData }: userData wins on its keys, the current user supplies the rest. */
  function Spread(current: Option<Json>, userData: map<string, Json>): (r: map<string, Json>)
    ensures r.Keys == userData.Keys + (if current.Some? && current.value.JObj? then current.value.fields.Keys else {})
    ensures forall k :: k in userData ==> r[k] == userData[k]
    ensures forall k :: k in r && k !in userData ==> current.Some? && current.value.JObj? && r[k] == current.value.fields[k]
  {
    var base := if current.Some? && current.value.JObj? then current.value.fields else map[];
    base + userData
  }

  /** Spreading the same data twice is spreading it once. */
  lemma SpreadTwice(current: Option<Json>, userData: map<string, Json>)
    ensures Spread(Some(JObj(Spread(current, userData))), userData) == Spread(current, userData)
  {
  }

  /** Spreading data without a roles key keeps the roles, so the role tests give what they gave before. */
  lemma SpreadKeepsRoles(current: Option<Json>, userData: map<string, Json>)
    requires "roles" !in userData
    ensures ProfileOnly(Some(JObj(Spread(current, userData)))) <==> ProfileOnly(current)
  {
    var spread := Some(JObj(Spread(current, userData)));
    if current.Some? && current.value.JObj? {
      assert Field(spread, "roles") == Field(current, "roles");
    } else {
      assert Field(spread, "roles").None?;
    }
  }

  class Auth {
    var isAuthenticated: bool
    var currentUser: Option<Json>
    var isLoginMode: bool
    const storage: Storage

    /** The first render followed by the mount effect. */
    constructor (storage: Storage)
      ensures this.storage == storage
      ensures isAuthenticated <==> TruthyOpt(storage.CurrentUser())
      ensures currentUser == (if TruthyOpt(storage.CurrentUser()) then storage.CurrentUser() else None)
      ensures isLoginMode
    {
      this.storage := storage;
      isLoginMode := true;
      var user := storage.CurrentUser();
      if TruthyOpt(user) {
        isAuthenticated := true;
        currentUser := user;
      } else {
        isAuthenticated := false;
        currentUser := None;
      }
    }

    /** handleLogin, called after AuthService.login: authenticated even if nothing was stored. */
    method HandleLogin() returns (user: Option<Json>)
      ensures user == storage.CurrentUser()
      ensures isAuthenticated && currentUser == user
      ensures isLoginMode == old(isLoginMode)
      modifies this
    {
      user := storage.CurrentUser();
      isAuthenticated := true;
      currentUser := user;
    }

    method HandleLogout()
      modifies this, storage
      ensures !isAuthenticated && currentUser.None?
      ensures storage.items == old(storage.items) - {UserKey} && storage.CurrentUser().None?
      ensures isLoginMode == old(isLoginMode)
    {
      storage.Logout();
      isAuthenticated := false;
      currentUser := None;
    }

    method ToggleAuthMode()
      modifies this
      ensures isLoginMode == !old(isLoginMode)
      ensures isAuthenticated == old(isAuthenticated) && currentUser == old(currentUser)
    {
      isLoginMode := !isLoginMode;
    }

    method SetAuthMode(mode: bool)
      modifies this
      ensures isLoginMode == mode
      ensures isAuthenticated == old(isAuthenticated) && currentUser == old(currentUser)
    {
      isLoginMode := mode;
    }

    /** updateCurrentUser: the merged user is stored and becomes the current user. */
    method UpdateCurrentUser(userData: map<string, Json>)
      modifies this, storage
      ensures currentUser == Some(JObj(Spread(old(currentUser), userData)))
      ensures storage.items == old(storage.items)[UserKey := JObj(Spread(old(currentUser), userData))]
      ensures storage.CurrentUser() == currentUser
      ensures isAuthenticated == old(isAuthenticated) && isLoginMode == old(isLoginMode)
    {
      var updated := JObj(Spread(currentUser, userData));
      storage.SetUser(updated);
      currentUser := Some(updated);
    }
  }

  /** Toggling the mode twice restores it. */
  method ToggleTwice(auth: Auth)
    modifies auth
    ensures auth.isLoginMode == old(auth.isLoginMode)
  {
    auth.ToggleAuthMode();
    auth.ToggleAuthMode();
  }
}
