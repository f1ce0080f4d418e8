/**
 * The authentication service: the `users` table, the two session keys, the
 * user cached for the request and the `security_logs` rows it writes.
 *
 * The table holds each user as `fromArray` reads it back, so a role is kept
 * upper-cased. Password hashing and checking are given to the service as a
 * pair of functions (the salt of `password_hash` is inside `hash`). The clock
 * is a parameter; the request's IP address and user agent, which every log
 * row records, are not part of this model.
 */
module AuthService {
  import opened Php
  import opened UserEntity

  /** `password_hash` and `password_verify`. */
  datatype Hasher = Hasher(hash: string -> string, verify: (string, string) -> bool)

  /**
   * The session keys the back office uses: `auth_user_id`, `auth_user_role`
   * and `redirect_after_login`, `None` when unset.
   */
  datatype Session = Session(userId: Option<int>, role: Option<string>, redirectAfterLogin: Option<string>)
  {
    /** The session with the two authentication keys unset, as `logout` leaves it. */
    function SignedOut(): (s: Session)
      ensures s.userId.None? && s.role.None? && s.redirectAfterLogin == redirectAfterLogin
    {
      this.(userId := None, role := None)
    }
  }

  /** A `security_logs` row: the event type and the details recorded with it. */
  datatype SecurityEvent = SecurityEvent(event: string, email: Option<string>, reason: Option<string>, userId: Option<int>)

  const UserNotFound := "user_not_found"
  const UserInactive := "user_inactive"
  const InvalidPassword := "invalid_password"

  /** The `users` table: each user under its id. */
  type Table = map<int, User>

  /** The ids of the users with that e-mail address. */
  function EmailIds(users: Table, email: string): set<int>
  {
    set id | id in users && users[id].email == email
  }

  /** `findUserByEmail`: the user with that address, the lowest id when several share it. */
  function ByEmail(users: Table, email: string): (r: Option<User>)
    ensures r.None? <==> EmailIds(users, email) == {}
    ensures r.Some? ==> r.value.email == email && exists id :: id in users && users[id] == r.value
  {
    var ids := EmailIds(users, email);
    if ids == {} then None else Some(users[Lowest(ids)])
  }

  /** `findUserById`. */
  function ById(users: Table, id: int): Option<User>
  {
    if id in users then Some(users[id]) else None
  }

  /**
   * Why `login` refuses: an unknown address, then an inactive account, then
   * a wrong password, in that order; `None` when it accepts.
   */
  function LoginFailure(users: Table, hasher: Hasher, email: string, password: string): (reason: Option<string>)
    ensures reason.None? <==> ByEmail(users, email).Some? && ByEmail(users, email).value.isActive
                              && hasher.verify(password, ByEmail(users, email).value.password)
  {
    match ByEmail(users, email)
    case None => Some(UserNotFound)
    case Some(u) =>
      if !u.isActive then Some(UserInactive)
      else if !hasher.verify(password, u.password) then Some(InvalidPassword)
      else None
  }

  /** The checks come in order: an unknown address is reported whatever the password, an inactive account whatever the password. */
  lemma LoginFailureOrder(users: Table, hasher: Hasher, email: string, password: string)
    ensures EmailIds(users, email) == {} ==> LoginFailure(users, hasher, email, password) == Some(UserNotFound)
    ensures EmailIds(users, email) != {} && !ByEmail(users, email).value.isActive ==>
              LoginFailure(users, hasher, email, password) == Some(UserInactive)
    ensures LoginFailure(users, hasher, email, password) == Some(InvalidPassword) ==>
              ByEmail(users, email).Some? && ByEmail(users, email).value.isActive
  {
  }

  /** The table after `updateLastLogin`. */
  function Touched(users: Table, id: Option<int>, now: int): (r: Table)
    ensures r.Keys == users.Keys
  {
    if id.Some? && id.value in users then users[id.value := users[id.value].(lastLoginAt := Some(now))] else users
  }

  /**
   * The user `getCurrentUser` answers with: the cached one, else the session
   * user when the table still has them and they are active.
   */
  function Resolved(current: Option<User>, session: Session, users: Table): (r: Option<User>)
    ensures current.None? && r.Some? ==> session.userId.Some? && ById(users, session.userId.value) == r && r.value.isActive
    ensures current.None? && session.userId.None? ==> r.None?
  {
    if current.Some? then current
    else if session.userId.None? then None
    else
      var found := ById(users, session.userId.value);
      if found.Some? && found.value.isActive then found else None
  }

  /** The user `createUser` stores, as it reads back. */
  function Stored(id: int, username: string, email: string, hash: string, role: string): User
  {
    User(Some(id), username, email, hash, UpperString(role), true, None)
  }

  /**
   * A user just created can log in with their password, provided the address
   * was free and the hasher accepts the password against its own hash.
   */
  lemma CreatedUserCanLogIn(users: Table, hasher: Hasher, id: int, username: string, email: string, password: string, role: string)
    requires id !in users && EmailIds(users, email) == {}
    requires hasher.verify(password, hasher.hash(password))
    ensures LoginFailure(users[id := Stored(id, username, email, hasher.hash(password), role)], hasher, email, password).None?
    ensures ByEmail(users[id := Stored(id, username, email, hasher.hash(password), role)], email).value.id == Some(id)
  {
    var after := users[id := Stored(id, username, email, hasher.hash(password), role)];
    assert EmailIds(after, email) == EmailIds(users, email) + {id};
  }

  /**
   * What `getCurrentUser` leaves in the cache, the session and the log
   * (`current`, `session`, `logs`) when it answers `r`, starting from the
   * cache `current0`, the session `session0`, the table `users0` and the log
   * `logs0`: a user found is cached; a session user no longer present or
   * active is logged out.
   */
  ghost predicate SessionResolved(current0: Option<User>, session0: Session, users0: Table, logs0: seq<SecurityEvent>,
                                  r: Option<User>, current: Option<User>, session: Session, logs: seq<SecurityEvent>)
  {
    && (current0.Some? || session0.userId.None? || r.Some? ==>
          current == (if r.Some? then r else current0) && session == session0 && logs == logs0)
    && (current0.None? && session0.userId.Some? && r.None? ==>
          && current.None? && session == session0.SignedOut()
          && var found := ById(users0, session0.userId.value);
          && logs == logs0 + (if found.Some? then [SecurityEvent("logout", None, None, found.value.id)] else []))
  }

  class Service {
    const hasher: Hasher
    /** The `users` table. */
    var users: Table
    /** The next id the table hands out. */
    var nextId: int
    /** `$currentUser`. */
    var current: Option<User>
    var session: Session
    /** The rows written to `security_logs`, oldest first. */
    var logs: seq<SecurityEvent>

    /** Every user sits under its own id below the counter, and the cached user is active. */
    ghost predicate Valid()
      reads this`users, this`nextId, this`current
    {
      && nextId >= 1
      && (forall id :: id in users ==> users[id].id == Some(id) && 1 <= id < nextId)
      && (current.Some? ==> current.value.isActive)
    }

    /** A service over a table whose ids are all below `counter`, the id the table hands out next. */
    constructor(h: Hasher, table: Table, counter: int, start: Session)
      requires counter >= 1
      requires forall id :: id in table ==> table[id].id == Some(id) && 1 <= id < counter
      ensures hasher == h && users == table && nextId == counter && session == start
      ensures current.None? && logs == [] && Valid()
    {
      hasher := h;
      users := table;
      nextId := counter;
      current := None;
      session := start;
      logs := [];
    }

    /** `getCurrentUser`'s effect besides its answer `r`. */
    twostate predicate ResolvedTo(new r: Option<User>)
      reads this
    {
      && r == Resolved(old(current), old(session), old(users))
      && users == old(users) && nextId == old(nextId)
      && SessionResolved(old(current), old(session), old(users), old(logs), r, current, session, logs)
    }

    /**
     * `login`: refuses with a `login_failed` row giving the reason; accepts
     * by putting the user in the session, stamping the last login and
     * writing a `login_success` row.
     */
    method Login(email: string, password: string, now: int) returns (u: Option<User>)
      requires Valid()
      modifies this`users, this`current, this`session, this`logs
      ensures Valid()
      ensures var failure := LoginFailure(old(users), hasher, email, password);
        && (u.None? <==> failure.Some?)
        && (failure.Some? ==>
              users == old(users) && current == old(current) && session == old(session)
              && logs == old(logs) + [SecurityEvent("login_failed", Some(email), failure, None)])
        && (failure.None? ==>
              u == ByEmail(old(users), email) && current == u
              && session == old(session).(userId := u.value.id, role := Some(u.value.role))
              && users == Touched(old(users), u.value.id, now)
              && logs == old(logs) + [SecurityEvent("login_success", Some(email), None, u.value.id)])
    {
      var found := ByEmail(users, email);
      if found.None? {
        logs := logs + [SecurityEvent("login_failed", Some(email), Some(UserNotFound), None)];
        return None;
      }
      var user := found.value;
      if !user.isActive {
        logs := logs + [SecurityEvent("login_failed", Some(email), Some(UserInactive), None)];
        return None;
      }
      if !hasher.verify(password, user.password) {
        logs := logs + [SecurityEvent("login_failed", Some(email), Some(InvalidPassword), None)];
        return None;
      }
      current := Some(user);
      session := session.(userId := user.id, role := Some(user.role));
      users := Touched(users, user.id, now);
      logs := logs + [SecurityEvent("login_success", Some(email), None, user.id)];
      u := Some(user);
    }

    /** `logout`: a `logout` row when a user was cached, then no cached user and no session keys. */
    method Logout()
      modifies this`current, this`session, this`logs
      ensures current.None? && session == old(session).SignedOut()
      ensures logs == old(logs) + (if old(current).Some? then [SecurityEvent("logout", None, None, old(current).value.id)] else [])
    {
      if current.Some? {
        logs := logs + [SecurityEvent("logout", None, None, current.value.id)];
      }
      current := None;
      session := session.SignedOut();
    }

    /**
     * `getCurrentUser`: the cached user, else the session's user when still
     * present and active; otherwise a session user is logged out.
     */
    method GetCurrentUser() returns (r: Option<User>)
      requires Valid()
      modifies this`current, this`session, this`logs
      ensures Valid() && ResolvedTo(r)
      ensures r.Some? ==> r.value.isActive
    {
      if current.Some? {
        return current;
      }
      if session.userId.None? {
        return None;
      }
      current := ById(users, session.userId.value);
      if current.None? || !current.value.isActive {
        Logout();
        return None;
      }
      r := current;
    }

    /** `isAuthenticated`. */
    method IsAuthenticated() returns (b: bool)
      requires Valid()
      modifies this`current, this`session, this`logs
      ensures Valid() && exists r :: ResolvedTo(r) && (b <==> r.Some?)
    {
      var r := GetCurrentUser();
      b := r.Some?;
    }

    /** `hasPermission`: false without a user, else the user's role decides. */
    method HasPermission(permission: string) returns (b: bool)
      requires Valid()
      modifies this`current, this`session, this`logs
      ensures Valid()
      ensures var r := Resolved(old(current), old(session), old(users));
        b <==> r.Some? && UserEntity.HasPermission(r.value, permission)
      ensures ResolvedTo(Resolved(old(current), old(session), old(users)))
    {
      var r := GetCurrentUser();
      b := r.Some? && UserEntity.HasPermission(r.value, permission);
    }

    /** `canAccessAdmin`: false without a user. */
    method CanAccessAdmin() returns (b: bool)
      requires Valid()
      modifies this`current, this`session, this`logs
      ensures Valid()
      ensures var r := Resolved(old(current), old(session), old(users));
        b <==> r.Some? && UserEntity.CanAccessAdmin(r.value)
      ensures ResolvedTo(Resolved(old(current), old(session), old(users)))
    {
      var r := GetCurrentUser();
      b := r.Some? && UserEntity.CanAccessAdmin(r.value);
    }

    /** `isAdmin`: false without a user. */
    method IsAdmin() returns (b: bool)
      requires Valid()
      modifies this`current, this`session, this`logs
      ensures Valid()
      ensures var r := Resolved(old(current), old(session), old(users));
        b <==> r.Some? && UserEntity.IsAdmin(r.value)
      ensures ResolvedTo(Resolved(old(current), old(session), old(users)))
    {
      var r := GetCurrentUser();
      b := r.Some? && UserEntity.IsAdmin(r.value);
    }

    /** `createUser`: stores an active user with the hashed password under a new id. */
    method CreateUser(username: string, email: string, password: string, role: string) returns (u: User)
      requires Valid()
      modifies this`users, this`nextId
      ensures Valid()
      ensures u.id == Some(old(nextId)) && u.username == username && u.email == email
      ensures u.password == hasher.hash(password) && u.role == role && u.isActive && u.lastLoginAt.None?
      ensures users == old(users)[old(nextId) := Stored(old(nextId), username, email, hasher.hash(password), role)]
      ensures users[u.id.value].isActive
      ensures old(nextId) !in old(users) && nextId == old(nextId) + 1
    {
      var id := nextId;
      users := users[id := Stored(id, username, email, hasher.hash(password), role)];
      nextId := nextId + 1;
      u := User(Some(id), username, email, hasher.hash(password), role, true, None);
    }

    /** `updateUser`: the name, address, role and active flag of the row with the user's id. */
    method UpdateUser(u: User)
      requires Valid()
      modifies this`users
      ensures Valid()
      ensures users == if u.id.Some? && u.id.value in old(users)
                       then old(users)[u.id.value := old(users)[u.id.value].(username := u.username, email := u.email,
                                                                            role := UpperString(u.role), isActive := u.isActive)]
                       else old(users)
    {
      if u.id.Some? && u.id.value in users {
        var id := u.id.value;
        users := users[id := users[id].(username := u.username, email := u.email, role := UpperString(u.role), isActive := u.isActive)];
      }
    }

    /** `changePassword`: the user and its row get the hash of the new password. */
    method ChangePassword(u: User, newPassword: string) returns (updated: User)
      requires Valid()
      modifies this`users
      ensures Valid()
      ensures updated == u.(password := hasher.hash(newPassword))
      ensures users == if u.id.Some? && u.id.value in old(users)
                       then old(users)[u.id.value := old(users)[u.id.value].(password := hasher.hash(newPassword))]
                       else old(users)
    {
      updated := u.(password := hasher.hash(newPassword));
      if u.id.Some? && u.id.value in users {
        users := users[u.id.value := users[u.id.value].(password := updated.password)];
      }
    }

    /** `deleteUser`: refuses the current user's own id and deletes nothing then; otherwise removes the row. */
    method DeleteUser(id: int) returns (ok: bool)
      requires Valid()
      modifies this`users, this`current, this`session, this`logs
      ensures Valid()
      ensures var r := Resolved(old(current), old(session), old(users));
        && SessionResolved(old(current), old(session), old(users), old(logs), r, current, session, logs)
        && (ok <==> !(r.Some? && r.value.id == Some(id)))
        && users == (if ok then old(users) - {id} else old(users))
    {
      var r := GetCurrentUser();
      if r.Some? && r.value.id == Some(id) {
        return false;
      }
      users := users - {id};
      ok := true;
    }
  }
}
