/** `AuthService`: a mock session. The signed-in user is held in memory and
    mirrored under the key "currentUser" of the browser's session storage.
    Storage is a map from key to the stored user (the JSON text the source
    writes is not modelled), and `new Date()` is the `now` parameter. */
module Auth {
  import opened Common

  /** An opaque point in time (`new Date()`). */
  type Time = int

  datatype User = User(username: String, isAdmin: bool, loginTime: Time)

  /** Session storage, holding users rather than their JSON text. */
  type Storage = map<String, User>

  const StorageKey: String := "currentUser"

  datatype AuthService = AuthService(currentUser: Option<User>, storage: Storage)

  datatype LoginResult = LoginResult(service: AuthService, success: bool)

  /** The session in memory is the one in storage. */
  predicate Consistent(s: AuthService) {
    if StorageKey in s.storage then s.currentUser == Some(s.storage[StorageKey])
    else s.currentUser == None
  }

  /** The constructor: a stored "currentUser" entry is restored. */
  function Create(storage: Storage): (s: AuthService)
    ensures s.storage == storage
    ensures Consistent(s)
  {
    if StorageKey in storage then AuthService(Some(storage[StorageKey]), storage)
    else AuthService(None, storage)
  }

  function IsLoggedIn(s: AuthService): bool {
    s.currentUser.Some?
  }

  /** `currentUser?.isAdmin ?? false`. */
  function IsAdmin(s: AuthService): (r: bool)
    ensures r ==> IsLoggedIn(s)
    ensures r <==> s.currentUser.Some? && s.currentUser.value.isAdmin
  {
    match s.currentUser
    case Some(u) => u.isAdmin
    case None => false
  }

  function GetUser(s: AuthService): Option<User> {
    s.currentUser
  }

  /** `login(username, password, isAdmin)`: any non-empty username and
      password are accepted; the new user replaces any previous one, in
      memory and in storage. Empty credentials change nothing. */
  function Login(s: AuthService, username: String, password: String, isAdmin: bool, now: Time): (r: LoginResult)
    ensures r.success <==> username != "" && password != ""
    ensures r.success ==> r.service.currentUser == Some(User(username, isAdmin, now))
    ensures r.success ==> r.service.storage == s.storage[StorageKey := User(username, isAdmin, now)]
    ensures !r.success ==> r.service == s
  {
    if username != "" && password != "" then
      var user := User(username, isAdmin, now);
      LoginResult(AuthService(Some(user), s.storage[StorageKey := user]), true)
    else
      LoginResult(s, false)
  }

  /** `logout()`: forgets the user and removes the storage entry; every other
      storage entry is left alone. */
  function Logout(s: AuthService): (r: AuthService)
    ensures !IsLoggedIn(r) && !IsAdmin(r) && GetUser(r) == None
    ensures StorageKey !in r.storage
    ensures forall k :: k in s.storage && k != StorageKey ==> k in r.storage && r.storage[k] == s.storage[k]
    ensures forall k :: k in r.storage ==> k in s.storage
  {
    AuthService(None, s.storage - {StorageKey})
  }

  /** With nothing stored, a new service is signed out. */
  lemma FreshServiceLoggedOut(storage: Storage)
    requires StorageKey !in storage
    ensures !IsLoggedIn(Create(storage)) && !IsAdmin(Create(storage)) && GetUser(Create(storage)) == None
  {
  }

  /** Login and logout keep memory and storage in step. */
  lemma OperationsKeepConsistent(s: AuthService, username: String, password: String, isAdmin: bool, now: Time)
    requires Consistent(s)
    ensures Consistent(Login(s, username, password, isAdmin, now).service)
    ensures Consistent(Logout(s))
  {
  }

  /** Reloading after a successful login (a new service built from the same
      storage) restores that user, admin flag included. */
  lemma LoginSurvivesReload(s: AuthService, username: String, password: String, isAdmin: bool, now: Time)
    requires username != "" && password != ""
    ensures var r := Login(s, username, password, isAdmin, now);
      && Create(r.service.storage) == r.service
      && IsLoggedIn(Create(r.service.storage))
      && IsAdmin(Create(r.service.storage)) == isAdmin
      && GetUser(Create(r.service.storage)).value.username == username
  {
  }

  /** Reloading after logout gives a signed-out service. */
  lemma LogoutSurvivesReload(s: AuthService)
    ensures !IsLoggedIn(Create(Logout(s).storage))
  {
  }

  /** A second successful login replaces the first, in memory and in storage. */
  lemma SecondLoginReplaces(s: AuthService, u1: String, p1: String, a1: bool, t1: Time,
                            u2: String, p2: String, a2: bool, t2: Time)
    requires u1 != "" && p1 != "" && u2 != "" && p2 != ""
    ensures var r := Login(Login(s, u1, p1, a1, t1).service, u2, p2, a2, t2).service;
      && r.currentUser == Some(User(u2, a2, t2))
      && r.storage[StorageKey] == User(u2, a2, t2)
  {
  }
}
