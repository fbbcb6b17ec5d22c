/** The authentication context: a small state machine over browser local
    storage. Storage is an immutable map, each operation returns the new
    storage and in-memory state, and navigation is an emitted path instead of
    a router call. */
module Session {
  import opened Outcomes

  /** Browser local storage: string keys to string values. */
  type Storage = map<string, string>

  const TokenKey := "token"
  const UserKey := "user"
  const LoginPath := "/login"
  const UnauthorizedPath := "/unauthorized"

  /** `localStorage.getItem`: `None` (null) when the key is absent. */
  function GetItem(s: Storage, key: string): Option<string>
  {
    if key in s then Some(s[key]) else None
  }

  /** JavaScript truthiness of a stored string: present and not empty. */
  predicate Truthy(v: Option<string>)
  {
    v.Some? && v.value != ""
  }

  /** The two fields of the stored user object that the context reads;
      either may be missing from the object. */
  datatype SessionUser = SessionUser(username: Option<string>, role: Option<string>)

  /** `JSON.stringify` and `JSON.parse` for user objects. `parse` answers
      `None` where `JSON.parse` throws or yields `null` (reading a field of
      `null` throws too); any other value parses, with absent fields read
      as missing. */
  datatype Codec = Codec(serialise: SessionUser -> string, parse: string -> Option<SessionUser>)

  /** What the pair is relied on for: parsing a serialised user gives that
      user back, and the empty string is not JSON. */
  ghost predicate Lawful(c: Codec)
  {
    && c.parse("") == None
    && forall u :: c.parse(c.serialise(u)) == Some(u)
  }

  /** The in-memory state the provider exposes. */
  datatype Auth = Auth(isLoggedIn: bool, username: Option<string>, userRole: Option<string>)

  /** The initial `useState` values, and the state after `logout`. */
  const SignedOut := Auth(false, None, None)

  /** Stored user text that `JSON.parse` rejects: the effect throws. */
  datatype RestoreError = MalformedUser(raw: string)

  /** Storage and state after an operation, with the path it navigates to. */
  datatype Step = Step(storage: Storage, auth: Auth, nav: Option<string>)

  /** The mount-time effect, starting from `SignedOut`. Logged-in-ness comes
      from the token alone; the name and role come from the stored user when
      that string is non-empty, and stay null otherwise. A stored user that
      does not parse makes the effect throw: `AuthContext.tsx` has no handler, so
      this is not a silent fall back to logged out. */
  function Restore(s: Storage, c: Codec): (r: Result<Auth, RestoreError>)
    ensures r.Failure? <==> Truthy(GetItem(s, UserKey)) && c.parse(s[UserKey]).None?
    ensures r.Success? ==> r.value.isLoggedIn == Truthy(GetItem(s, TokenKey))
    ensures r.Success? && !Truthy(GetItem(s, UserKey)) ==>
              r.value.username.None? && r.value.userRole.None?
    ensures r.Success? && Truthy(GetItem(s, UserKey)) ==>
              Some(SessionUser(r.value.username, r.value.userRole)) == c.parse(s[UserKey])
  {
    var loggedIn := Truthy(GetItem(s, TokenKey));
    var stored := GetItem(s, UserKey);
    if Truthy(stored) then
      match c.parse(stored.value)
      case None => Failure(MalformedUser(stored.value))
      case Some(u) => Success(Auth(loggedIn, u.username, u.role))
    else
      Success(SignedOut.(isLoggedIn := loggedIn))
  }

  /** `login(token, user)`: stores both keys, touches no other key, and marks
      the user as logged in with the user's name and role. */
  function Login(s: Storage, c: Codec, token: string, user: SessionUser): (r: Step)
    ensures r.storage.Keys == s.Keys + {TokenKey, UserKey}
    ensures r.storage[TokenKey] == token && r.storage[UserKey] == c.serialise(user)
    ensures forall k :: k in s && k != TokenKey && k != UserKey ==> r.storage[k] == s[k]
    ensures r.auth.isLoggedIn
    ensures r.auth.username == user.username && r.auth.userRole == user.role
    ensures r.nav.None?
  {
    Step(s[TokenKey := token][UserKey := c.serialise(user)],
         Auth(true, user.username, user.role),
         None)
  }

  /** `logout()`: removes exactly the token and user keys, resets the state
      and navigates to the login page. */
  function Logout(s: Storage): (r: Step)
    ensures TokenKey !in r.storage && UserKey !in r.storage
    ensures forall k :: k != TokenKey && k != UserKey ==>
              (k in r.storage <==> k in s) && (k in s ==> r.storage[k] == s[k])
    ensures r.auth == SignedOut
    ensures r.nav == Some(LoginPath)
  {
    Step(s - {TokenKey, UserKey}, SignedOut, Some(LoginPath))
  }

  /** The outcome of `protectRoute`: its boolean and the path it pushes. */
  datatype Guard = Guard(allowed: bool, nav: Option<string>)

  /** `userRole && allowedRoles.includes(userRole)`: an empty role is falsy. */
  predicate RoleAdmitted(role: Option<string>, roles: seq<string>)
  {
    role.Some? && role.value != "" && role.value in roles
  }

  /** `protectRoute(allowedRoles?)`. A visitor who is not logged in goes to
      the login page whatever the roles; a logged-in one passes when no roles
      are named, and otherwise exactly when the role is admitted; a refused
      role goes to the unauthorised page. The route is allowed exactly when
      nothing is pushed. */
  function ProtectRoute(a: Auth, allowedRoles: Option<seq<string>>): (g: Guard)
    ensures !a.isLoggedIn ==> g == Guard(false, Some(LoginPath))
    ensures a.isLoggedIn && (allowedRoles.None? || allowedRoles.value == []) ==>
              g == Guard(true, None)
    ensures a.isLoggedIn && allowedRoles.Some? && allowedRoles.value != [] ==>
              (g.allowed <==> RoleAdmitted(a.userRole, allowedRoles.value))
    ensures !g.allowed <==> g.nav.Some?
    ensures a.isLoggedIn && !g.allowed ==> g.nav == Some(UnauthorizedPath)
  {
    if !a.isLoggedIn then
      Guard(false, Some(LoginPath))
    else if allowedRoles.Some? && |allowedRoles.value| > 0
         && !RoleAdmitted(a.userRole, allowedRoles.value) then
      Guard(false, Some(UnauthorizedPath))
    else
      Guard(true, None)
  }

  /** Reloading after `login` with a non-empty token restores exactly the
      state `login` set. */
  lemma LoginRestoreRoundTrip(s: Storage, c: Codec, token: string, user: SessionUser)
    requires Lawful(c)
    requires token != ""
    ensures Restore(Login(s, c, token, user).storage, c) == Success(Login(s, c, token, user).auth)
  {
    LoginRestoreRoundTripUser(s, c, token, user);
  }

  /** An empty token logs the user in for the current page, but `!!token` is
      false on reload, so the restored state is logged out. */
  lemma EmptyTokenLostOnReload(s: Storage, c: Codec, user: SessionUser)
    requires Lawful(c)
    ensures Login(s, c, "", user).auth.isLoggedIn
    ensures Restore(Login(s, c, "", user).storage, c).Success?
    ensures !Restore(Login(s, c, "", user).storage, c).value.isLoggedIn
  {
    LoginRestoreRoundTripUser(s, c, "", user);
  }

  /** The stored user of a `login` always parses back. */
  lemma LoginRestoreRoundTripUser(s: Storage, c: Codec, token: string, user: SessionUser)
    requires Lawful(c)
    ensures Restore(Login(s, c, token, user).storage, c) ==
            Success(Auth(token != "", user.username, user.role))
  {
    var st := Login(s, c, token, user).storage;
    assert c.parse(c.serialise(user)) == Some(user);
    assert c.serialise(user) != "";
    assert GetItem(st, UserKey) == Some(c.serialise(user));
  }

  /** Logged-in-ness never depends on the stored user: a token alone, with no
      user stored, restores a logged-in state with no name and no role, which
      every role check then refuses. */
  lemma TokenAloneLogsIn(s: Storage, c: Codec, roles: seq<string>)
    requires Truthy(GetItem(s, TokenKey)) && UserKey !in s
    ensures Restore(s, c) == Success(Auth(true, None, None))
    ensures ProtectRoute(Auth(true, None, None), None) == Guard(true, None)
    ensures roles != [] ==>
              ProtectRoute(Auth(true, None, None), Some(roles)) == Guard(false, Some(UnauthorizedPath))
  {
  }

  /** Logging out twice leaves what logging out once leaves. */
  lemma LogoutIdempotent(s: Storage)
    ensures Logout(Logout(s).storage) == Logout(s)
  {
    assert Logout(s).storage - {TokenKey, UserKey} == Logout(s).storage;
  }

  /** Reloading after `logout` restores the signed-out state. */
  lemma RestoreAfterLogout(s: Storage, c: Codec)
    ensures Restore(Logout(s).storage, c) == Success(SignedOut)
  {
  }
}
