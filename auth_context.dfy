/**
 * The authentication provider: the signed-in user, the `isAuthenticated`
 * flag, and the two-key session record in the browser's persistent store.
 *
 * The store is a map from key to string, as `localStorage` is. The clock is
 * the parameter `now` (milliseconds since the epoch). `JSON.stringify` and
 * `JSON.parse` are the functions of a `Codec`, and the proofs rely
 * on nothing about them beyond what `Faithful` states.
 */
module AuthContext {
  import opened Wrappers

  datatype Role = AdminRole | UserRole | ViewerRole

  /** The spelling of a role in the directory and in stored user records. */
  function RoleName(r: Role): string {
    match r
    case AdminRole => "admin"
    case UserRole => "user"
    case ViewerRole => "viewer"
  }

  /** A signed-in user: a directory entry without its password. */
  datatype User = User(id: string, username: string, email: string, role: Role)

  /** One entry of the fixed credential directory. */
  datatype Credential = Credential(id: string, username: string, password: string, email: string, role: Role)

  /** The four accounts `login` accepts. */
  const Directory: seq<Credential> := [
    Credential("1", "admin", "admin123", "admin@scorecard.com", AdminRole),
    Credential("2", "user", "user123", "user@scorecard.com", UserRole),
    Credential("3", "viewer", "viewer123", "viewer@scorecard.com", ViewerRole),
    Credential("4", "demo", "demo", "demo@scorecard.com", UserRole)
  ]

  const UserKey: string := "scorecard_user"
  const SessionKey: string := "scorecard_session"

  /** The session lifetime: 24 hours in milliseconds. */
  const SessionTtl: int := 24 * 60 * 60 * 1000

  /** The user record without the password field. */
  function Strip(c: Credential): User {
    User(c.id, c.username, c.email, c.role)
  }

  /** Exact, case-sensitive comparison of both username and password. */
  predicate Matches(c: Credential, username: string, password: string) {
    c.username == username && c.password == password
  }

  /** Some directory entry has exactly this username and password. */
  predicate Listed(username: string, password: string) {
    exists i :: 0 <= i < |Directory| && Matches(Directory[i], username, password)
  }

  /** `dir.find(...)`: the first entry that matches, if any. */
  function Lookup(dir: seq<Credential>, username: string, password: string): (r: Option<Credential>)
    ensures r.Some? ==> r.value in dir && Matches(r.value, username, password)
    ensures r.None? <==> forall i :: 0 <= i < |dir| ==> !Matches(dir[i], username, password)
  {
    if dir == [] then None
    else if Matches(dir[0], username, password) then Some(dir[0])
    else Lookup(dir[1..], username, password)
  }

  /** No two directory entries share a username. */
  lemma DirectoryUsernamesDistinct()
    ensures forall i, j :: 0 <= i < j < |Directory| ==> Directory[i].username != Directory[j].username
  {
  }

  /** When an entry matches, `find` returns exactly that entry. */
  lemma LookupFindsTheMatch(username: string, password: string, i: int)
    requires 0 <= i < |Directory| && Matches(Directory[i], username, password)
    ensures Lookup(Directory, username, password) == Some(Directory[i])
  {
    DirectoryUsernamesDistinct();
    var r := Lookup(Directory, username, password);
    var j :| 0 <= j < |Directory| && Directory[j] == r.value;
    assert Directory[j].username == username;
    assert i == j;
  }

  /**
   * The directory search inside `login`: walks the entries in order and
   * returns the first whose username and password both match.
   */
  method FindCredential(username: string, password: string) returns (found: Option<Credential>)
    ensures found.Some? <==> Listed(username, password)
    ensures found.Some? ==> found.value in Directory && Matches(found.value, username, password)
    ensures found == Lookup(Directory, username, password)
  {
    var i := 0;
    while i < |Directory|
      invariant 0 <= i <= |Directory|
      invariant forall j :: 0 <= j < i ==> !Matches(Directory[j], username, password)
      invariant Lookup(Directory, username, password) == Lookup(Directory[i..], username, password)
    {
      if Matches(Directory[i], username, password) {
        return Some(Directory[i]);
      }
      assert Directory[i..][1..] == Directory[i + 1..];
      i := i + 1;
    }
    return None;
  }

  /**
   * `JSON.stringify` and `JSON.parse` for the two stored records.
   * `readUser` gives None when parsing throws, Some(None) for the JSON value
   * `null`, and Some(Some(u)) for a user record. `readSession` gives None when
   * parsing throws or yields `null` (reading `.expires` of it throws too),
   * Some(None) for a value whose `expires` is not a number (every `<` with it
   * is false), and Some(Some(e)) for `{expires: e}`.
   */
  datatype Codec = Codec(
    writeUser: User -> string,
    readUser: string -> Option<Option<User>>,
    writeSession: int -> string,
    readSession: string -> Option<Option<int>>)

  /** What JSON guarantees: each record reads back as written; "" does not parse. */
  ghost predicate Faithful(c: Codec) {
    && c.readUser("") == None
    && c.readSession("") == None
    && (forall u :: c.readUser(c.writeUser(u)) == Some(Some(u)))
    && (forall e :: c.readSession(c.writeSession(e)) == Some(Some(e)))
  }

  /** The provider's state: the two React state fields and the persistent store. */
  datatype AuthState = AuthState(user: Option<User>, isAuthenticated: bool, store: map<string, string>)

  /** `localStorage.getItem(key)` is truthy: present and not the empty string. */
  predicate Present(store: map<string, string>, key: string) {
    key in store && store[key] != ""
  }

  /** The invariant the consumers rely on: authenticated exactly when a user is set. */
  predicate Paired(s: AuthState) {
    s.isAuthenticated <==> s.user.Some?
  }

  /** The stored user record, if there is one, does not parse to `null`. */
  predicate UserRecordNotNull(c: Codec, store: map<string, string>) {
    UserKey in store ==> c.readUser(store[UserKey]) != Some(None)
  }

  /** The state a provider starts in, over whatever the store holds. */
  function Initial(store: map<string, string>): (s: AuthState)
    ensures s.user == None && !s.isAuthenticated && s.store == store
    ensures Paired(s)
  {
    AuthState(None, false, store)
  }

  /** `login(username, password)` at time `now`: the new state and the result. */
  function LoginStep(c: Codec, s: AuthState, username: string, password: string, now: int): (AuthState, bool) {
    match Lookup(Directory, username, password)
    case None => (s, false)
    case Some(cred) =>
      var u := Strip(cred);
      (AuthState(Some(u), true,
        s.store[UserKey := c.writeUser(u)][SessionKey := c.writeSession(now + SessionTtl)]), true)
  }

  /** `logout()`. */
  function LogoutStep(s: AuthState): AuthState {
    AuthState(None, false, s.store - {UserKey, SessionKey})
  }

  /** How the mount-time restore ended. */
  datatype MountOutcome =
    | NoSavedSession  // one of the two keys is missing or empty: nothing happens
    | Resumed         // the stored user is back, authenticated
    | Expired         // `now >= expires`: both keys removed
    | ParseFailure    // `JSON.parse` threw: the effect aborts, nothing changed

  /** The mount effect at time `now`. */
  function MountStep(c: Codec, s: AuthState, now: int): (MountOutcome, AuthState) {
    if !(Present(s.store, UserKey) && Present(s.store, SessionKey)) then (NoSavedSession, s)
    else match c.readSession(s.store[SessionKey])
      case None => (ParseFailure, s)
      case Some(expires) =>
        if expires.Some? && now < expires.value then
          match c.readUser(s.store[UserKey])
          case None => (ParseFailure, s)
          case Some(u) => (Resumed, s.(user := u, isAuthenticated := true))
        else (Expired, s.(store := s.store - {UserKey} - {SessionKey}))
  }

  /** `login` succeeds exactly for a listed username and password pair. */
  lemma LoginSucceedsIffListed(c: Codec, s: AuthState, username: string, password: string, now: int)
    ensures LoginStep(c, s, username, password, now).1 <==> Listed(username, password)
  {
    var r := Lookup(Directory, username, password);
    if r.Some? {
      var i :| 0 <= i < |Directory| && Directory[i] == r.value;
      assert Matches(Directory[i], username, password);
    }
  }

  /**
   * A successful `login` at `now` signs in the matching entry without its
   * password and stores it with a session that reads back as expiring at
   * `now + 86400000`; no other key of the store changes.
   */
  lemma LoginSuccess(c: Codec, s: AuthState, username: string, password: string, now: int, i: int)
    requires Faithful(c)
    requires 0 <= i < |Directory| && Matches(Directory[i], username, password)
    ensures var (s', ok) := LoginStep(c, s, username, password, now);
      && ok
      && s'.user == Some(Strip(Directory[i])) && s'.isAuthenticated
      && UserKey in s'.store && SessionKey in s'.store
      && c.readUser(s'.store[UserKey]) == Some(Some(Strip(Directory[i])))
      && c.readSession(s'.store[SessionKey]) == Some(Some(now + 86400000))
      && (forall k :: k in s'.store && k != UserKey && k != SessionKey ==> k in s.store && s'.store[k] == s.store[k])
      && (forall k :: k in s.store ==> k in s'.store)
  {
    LookupFindsTheMatch(username, password, i);
  }

  /** A failed `login` returns false and changes nothing at all. */
  lemma LoginFailureChangesNothing(c: Codec, s: AuthState, username: string, password: string, now: int)
    requires !Listed(username, password)
    ensures LoginStep(c, s, username, password, now) == (s, false)
  {
  }

  /** `logout` signs out and removes both keys, keeps every other key, and is idempotent. */
  lemma LogoutClears(s: AuthState)
    ensures var s' := LogoutStep(s);
      && s'.user == None && !s'.isAuthenticated
      && UserKey !in s'.store && SessionKey !in s'.store
      && (forall k :: k in s.store && k != UserKey && k != SessionKey ==> k in s'.store && s'.store[k] == s.store[k])
      && LogoutStep(s') == s'
  {
  }

  /** Restore with both records present and `now < expires` brings back the stored user. */
  lemma MountResumes(c: Codec, s: AuthState, now: int, expires: int, u: Option<User>)
    requires Present(s.store, UserKey) && Present(s.store, SessionKey)
    requires c.readSession(s.store[SessionKey]) == Some(Some(expires)) && now < expires
    requires c.readUser(s.store[UserKey]) == Some(u)
    ensures MountStep(c, s, now) == (Resumed, AuthState(u, true, s.store))
  {
  }

  /** Restore at or after the expiry removes both keys and leaves the user signed out. */
  lemma MountExpires(c: Codec, s: AuthState, now: int, expires: int)
    requires Present(s.store, UserKey) && Present(s.store, SessionKey)
    requires c.readSession(s.store[SessionKey]) == Some(Some(expires)) && now >= expires
    ensures var (outcome, s') := MountStep(c, s, now);
      && outcome == Expired
      && s'.user == s.user && s'.isAuthenticated == s.isAuthenticated
      && UserKey !in s'.store && SessionKey !in s'.store
      && MountStep(c, s', now) == (NoSavedSession, s')
  {
  }

  /** Restore with either record missing or empty changes nothing. */
  lemma MountNeedsBothRecords(c: Codec, s: AuthState, now: int)
    requires !Present(s.store, UserKey) || !Present(s.store, SessionKey)
    ensures MountStep(c, s, now) == (NoSavedSession, s)
  {
  }

  /**
   * A record that does not parse is not recovered from: with both keys set,
   * a session record that throws, or a live session whose user record
   * throws, aborts the restore with nothing changed, so the malformed record
   * stays in the store.
   */
  lemma MountParseFailureChangesNothing(c: Codec, s: AuthState, now: int)
    requires Present(s.store, UserKey) && Present(s.store, SessionKey)
    requires
      || c.readSession(s.store[SessionKey]) == None
      || (&& c.readSession(s.store[SessionKey]).value.Some?
          && now < c.readSession(s.store[SessionKey]).value.value
          && c.readUser(s.store[UserKey]) == None)
    ensures MountStep(c, s, now) == (ParseFailure, s)
    ensures MountStep(c, s, now).1.store[UserKey] == s.store[UserKey]
    ensures MountStep(c, s, now).1.store[SessionKey] == s.store[SessionKey]
  {
  }

  /** The store stays free of a `null` user record, and the pairing holds, across every step. */
  lemma StepsKeepPaired(c: Codec, s: AuthState, username: string, password: string, now: int)
    requires Faithful(c)
    requires Paired(s) && UserRecordNotNull(c, s.store)
    ensures var s' := LoginStep(c, s, username, password, now).0;
      Paired(s') && UserRecordNotNull(c, s'.store)
    ensures Paired(LogoutStep(s)) && UserRecordNotNull(c, LogoutStep(s).store)
    ensures var s' := MountStep(c, s, now).1;
      Paired(s') && UserRecordNotNull(c, s'.store)
  {
    var r := Lookup(Directory, username, password);
    if r.Some? {
      var s' := LoginStep(c, s, username, password, now).0;
      assert s'.store[UserKey] == c.writeUser(Strip(r.value));
    }
  }

  /**
   * The pairing is not kept for a store whose user record is the JSON value
   * `null`: restore then sets `isAuthenticated` with no user. `login` never
   * writes such a record; the consumers test `!user` as well.
   */
  lemma MountOfNullUserBreaksPairing(c: Codec, s: AuthState, now: int, expires: int)
    requires Present(s.store, UserKey) && Present(s.store, SessionKey)
    requires c.readSession(s.store[SessionKey]) == Some(Some(expires)) && now < expires
    requires c.readUser(s.store[UserKey]) == Some(None)
    ensures var s' := MountStep(c, s, now).1; s'.isAuthenticated && s'.user == None && !Paired(s')
  {
  }

  /**
   * Save and load: after a successful `login` at `t`, a freshly mounted
   * provider over the same store resumes the same user at any `t2` before
   * `t + 24h`, and at or after it finds the session expired, clears it, and a
   * further mount finds nothing.
   */
  lemma LoginThenRemount(c: Codec, s: AuthState, username: string, password: string, t: int, t2: int)
    requires Faithful(c)
    requires Listed(username, password)
    ensures var (s1, _) := LoginStep(c, s, username, password, t);
      var (outcome, s2) := MountStep(c, Initial(s1.store), t2);
      && (t2 < t + SessionTtl ==> outcome == Resumed && s2.user == s1.user && s2.isAuthenticated)
      && (t2 >= t + SessionTtl ==>
            outcome == Expired && s2.user == None && MountStep(c, s2, t2) == (NoSavedSession, s2))
  {
    var i :| 0 <= i < |Directory| && Matches(Directory[i], username, password);
    LoginSuccess(c, s, username, password, t, i);
    var s1 := LoginStep(c, s, username, password, t).0;
    assert c.writeUser(Strip(Directory[i])) != "" by {
      assert c.readUser(c.writeUser(Strip(Directory[i]))) != c.readUser("");
    }
    assert c.writeSession(t + SessionTtl) != "" by {
      assert c.readSession(c.writeSession(t + SessionTtl)) != c.readSession("");
    }
  }

  /** The provider component: its two state fields and the store it writes. */
  class AuthProvider {
    const codec: Codec
    var user: Option<User>
    var isAuthenticated: bool
    var store: map<string, string>

    function State(): AuthState
      reads this
    {
      AuthState(user, isAuthenticated, store)
    }

    /** The provider before its mount effect has run. */
    constructor (codec: Codec, store: map<string, string>)
      ensures this.codec == codec
      ensures State() == Initial(store)
    {
      this.codec := codec;
      user := None;
      isAuthenticated := false;
      this.store := store;
    }

    /** The mount effect: restore a saved session that has not expired. */
    method Mount(now: int) returns (outcome: MountOutcome)
      modifies this
      ensures (outcome, State()) == MountStep(codec, old(State()), now)
    {
      if !(Present(store, UserKey) && Present(store, SessionKey)) {
        return NoSavedSession;
      }
      var session := codec.readSession(store[SessionKey]);
      if session.None? {
        return ParseFailure;
      }
      if session.value.Some? && now < session.value.value {
        var saved := codec.readUser(store[UserKey]);
        if saved.None? {
          return ParseFailure;
        }
        user := saved.value;
        isAuthenticated := true;
        return Resumed;
      }
      store := store - {UserKey};
      store := store - {SessionKey};
      return Expired;
    }

    /** `login`: sign in a listed user and save the session for 24 hours. */
    method Login(username: string, password: string, now: int) returns (ok: bool)
      modifies this
      ensures (State(), ok) == LoginStep(codec, old(State()), username, password, now)
      ensures ok <==> Listed(username, password)
      ensures !ok ==> unchanged(this)
    {
      var found := FindCredential(username, password);
      if found.None? {
        return false;
      }
      var u := Strip(found.value);
      user := Some(u);
      isAuthenticated := true;
      var expires := now + SessionTtl;
      store := store[UserKey := codec.writeUser(u)];
      store := store[SessionKey := codec.writeSession(expires)];
      return true;
    }

    /** `logout`: sign out and remove both keys. */
    method Logout()
      modifies this
      ensures State() == LogoutStep(old(State()))
      ensures user == None && !isAuthenticated
      ensures UserKey !in store && SessionKey !in store
    {
      user := None;
      isAuthenticated := false;
      store := store - {UserKey};
      store := store - {SessionKey};
    }

    /** `requireAuth()`: the flag itself; under the pairing, "a user is signed in". */
    function RequireAuth(): (r: bool)
      reads this
      ensures r == isAuthenticated
      ensures Paired(State()) ==> (r <==> user.Some?)
    {
      isAuthenticated
    }
  }

  const UseAuthError: string := "useAuth must be used within an AuthProvider"

  /** `useAuth()`: the enclosing provider, or the error it throws outside one. */
  function UseAuth(context: Option<AuthProvider>): Result<AuthProvider, string> {
    match context
    case Some(p) => Ok(p)
    case None => Err(UseAuthError)
  }

  /** Signing in as admin gives an authenticated admin. */
  lemma AdminLogin(c: Codec, s: AuthState, now: int)
    ensures var (s', ok) := LoginStep(c, s, "admin", "admin123", now);
      ok && s'.isAuthenticated && s'.user.Some? && s'.user.value.role == AdminRole
  {
    LookupFindsTheMatch("admin", "admin123", 0);
  }

  /** A wrong password, or a username in the wrong case, is refused. */
  lemma WrongCredentialsRefused(c: Codec, s: AuthState, now: int)
    ensures LoginStep(c, s, "demo", "wrong", now) == (s, false)
    ensures LoginStep(c, s, "Admin", "admin123", now) == (s, false)
  {
    assert !Listed("demo", "wrong") by {
      forall i | 0 <= i < |Directory| ensures !Matches(Directory[i], "demo", "wrong") {
        assert Directory[i].password != "wrong";
      }
    }
    assert !Listed("Admin", "admin123") by {
      forall i | 0 <= i < |Directory| ensures !Matches(Directory[i], "Admin", "admin123") {
        assert Directory[i].username != "Admin";
      }
    }
  }
}
