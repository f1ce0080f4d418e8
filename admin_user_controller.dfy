/**
 * The back office's user actions, open to administrators only: the user
 * list, the creation and edit forms, their validation, and deletion.
 *
 * `filter_var($email, FILTER_VALIDATE_EMAIL)` is given to the actions as
 * the function `isEmail`.
 */
module AdminUserController {
  import opened Php
  import opened Forms
  import opened UserEntity
  import AuthService

  const AdminUrl := "/admin"
  const UsersUrl := "/admin/users"

  const UsernameRequired := "Le nom d'utilisateur est requis."
  const UsernameTooShort := "Le nom d'utilisateur doit faire au moins 3 caractères."
  const EmailRequired := "L'email est requis."
  const EmailInvalid := "L'email n'est pas valide."
  const EmailTaken := "Cet email est déjà utilisé."
  const PasswordRequired := "Le mot de passe est requis."
  const PasswordTooShort := "Le mot de passe doit faire au moins 8 caractères."
  const RoleInvalid := "Le rôle sélectionné n'est pas valide."

  /** The user an action acts for may manage users. */
  predicate AdminUser(me: Option<User>)
  {
    me.Some? && IsAdmin(me.value)
  }

  /** What a refused action leaves: a redirect to the dashboard and the table as it was. */
  twostate predicate Refused(auth: AuthService.Service, new outcome: Outcome)
    reads auth
  {
    outcome == Redirected(AdminUrl, None) && auth.users == old(auth.users) && auth.nextId == old(auth.nextId)
  }

  /** A row of the list page. */
  datatype Line = Line(user: User, initial: string, roleClass: string, canDelete: bool)

  /** `strtoupper(substr($username, 0, 1))`. */
  function Initial(name: string): (r: string)
    ensures name == [] ==> r == []
    ensures name != [] ==> |r| == 1 && r[0] == ToUpper(name[0])
  {
    if name == [] then [] else [ToUpper(name[0])]
  }

  /** The badge colour of a role. */
  function RoleClass(role: string): (c: string)
    ensures role == RoleAdmin ==> c == "primary"
    ensures role == RoleRedactor ==> c == "info"
    ensures role != RoleAdmin && role != RoleRedactor ==> c == "secondary"
  {
    if role == RoleAdmin then "primary" else if role == RoleRedactor then "info" else "secondary"
  }

  /** The list page's rows: every listed user in order, deletable unless it is the current user. */
  function Lines(listed: seq<User>, me: User): (lines: seq<Line>)
    ensures |lines| == |listed|
    ensures forall i :: 0 <= i < |listed| ==>
      && lines[i].user == listed[i]
      && (lines[i].canDelete <==> listed[i].id != me.id)
      && lines[i].initial == Initial(listed[i].username)
      && lines[i].roleClass == RoleClass(listed[i].role)
  {
    seq(|listed|, i requires 0 <= i < |listed| =>
      Line(listed[i], Initial(listed[i].username), RoleClass(listed[i].role), listed[i].id != me.id))
  }

  /** `getRolesArray`: each role with its label, in the order of `ROLES`. */
  function RolesArray(): (r: seq<(string, string)>)
    ensures |r| == |Roles|
    ensures forall i :: 0 <= i < |r| ==> r[i].0 in Roles && Roles[r[i].0] == r[i].1
    ensures forall role :: role in Roles ==> exists i :: 0 <= i < |r| && r[i].0 == role
  {
    var r := [(RoleAdmin, Roles[RoleAdmin]), (RoleRedactor, Roles[RoleRedactor]), (RoleUser, Roles[RoleUser])];
    assert r[0].0 == RoleAdmin && r[1].0 == RoleRedactor && r[2].0 == RoleUser;
    assert Roles.Keys == {RoleAdmin, RoleRedactor, RoleUser};
    r
  }

  /** The form's fields as `store` and `update` read them. */
  datatype UserData = UserData(username: string, email: string, password: string, role: string, isActive: bool)

  /**
   * The posted form: the name and address trimmed, the password as typed,
   * the role or `defaultRole` when none is posted, and the active flag set
   * when the box is sent at all.
   */
  function ReadUser(form: Form, defaultRole: string): (d: UserData)
    ensures d.username == Trimmed(form, "username") && d.email == Trimmed(form, "email")
    ensures d.password == TextOr(form, "password", "") && d.role == TextOr(form, "role", defaultRole)
    ensures d.isActive <==> "is_active" in form
  {
    UserData(Trimmed(form, "username"), Trimmed(form, "email"), TextOr(form, "password", ""),
             TextOr(form, "role", defaultRole), "is_active" in form)
  }

  /**
   * What `update` saves for `edited`: the form, except that editing one's
   * own account keeps one's own role and leaves it active.
   */
  function Submitted(form: Form, edited: User, me: User): (d: UserData)
    ensures edited.id == me.id ==> d.role == me.role && d.isActive
    ensures d.username == Trimmed(form, "username") && d.email == Trimmed(form, "email")
    ensures d.password == TextOr(form, "password", "")
    ensures edited.id != me.id ==> d == ReadUser(form, edited.role)
  {
    var d := ReadUser(form, edited.role);
    if edited.id == me.id then d.(role := me.role, isActive := true) else d
  }

  /**
   * The address rule: required, accepted by `filter_var`, and used by no
   * user (`existing` is what `findUserByEmail` returned) other than `userId`.
   */
  function EmailError(email: string, valid: bool, existing: Option<User>, userId: Option<int>): (e: Option<string>)
    ensures e.None? <==> !IsFalsy(email) && valid && (existing.None? || existing.value.id == userId)
    ensures IsFalsy(email) ==> e == Some(EmailRequired)
    ensures !IsFalsy(email) && !valid ==> e == Some(EmailInvalid)
    ensures e == Some(EmailTaken) <==> !IsFalsy(email) && valid && existing.Some? && existing.value.id != userId
  {
    if IsFalsy(email) then Some(EmailRequired)
    else if !valid then Some(EmailInvalid)
    else if existing.Some? && existing.value.id != userId then Some(EmailTaken)
    else None
  }

  /** The password rule: required for a new user only; when given, at least 8 bytes. */
  function PasswordError(password: string, userId: Option<int>): (e: Option<string>)
    ensures e.None? <==> (userId.Some? || !IsFalsy(password)) && (IsFalsy(password) || ByteLength(password) >= 8)
    ensures e == Some(PasswordRequired) <==> userId.None? && IsFalsy(password)
    ensures e == Some(PasswordTooShort) <==> !IsFalsy(password) && ByteLength(password) < 8
  {
    if userId.None? && IsFalsy(password) then Some(PasswordRequired)
    else if !IsFalsy(password) && ByteLength(password) < 8 then Some(PasswordTooShort)
    else None
  }

  /**
   * `validateUser`: the name is required and at least 3 bytes, the address
   * as `EmailError` says, the password as `PasswordError` says, and the
   * role must be one of the three.
   */
  function ValidateUser(username: string, email: string, password: string, role: string,
                        validEmail: bool, existing: Option<User>, userId: Option<int>): (errors: Errors)
    ensures errors.Keys <= {"username", "email", "password", "role"}
    ensures errors == map[] <==>
      && !IsFalsy(username) && ByteLength(username) >= 3
      && !IsFalsy(email) && validEmail && (existing.None? || existing.value.id == userId)
      && (userId.Some? || !IsFalsy(password)) && (IsFalsy(password) || ByteLength(password) >= 8)
      && role in Roles
    ensures "username" in errors ==> errors["username"] == (if IsFalsy(username) then UsernameRequired else UsernameTooShort)
    ensures "email" in errors ==> EmailError(email, validEmail, existing, userId) == Some(errors["email"])
    ensures "password" in errors ==> PasswordError(password, userId) == Some(errors["password"])
    ensures "role" in errors <==> role !in Roles
    ensures "role" in errors ==> errors["role"] == RoleInvalid
  {
    var errors := With(map[], "username", LengthError(username, 3, UsernameRequired, UsernameTooShort));
    var errors := With(errors, "email", EmailError(email, validEmail, existing, userId));
    var errors := With(errors, "password", PasswordError(password, userId));
    With(errors, "role", if role in Roles then None else Some(RoleInvalid))
  }

  /** A new user is accepted only with a password of at least 8 bytes; an edited one may leave it empty. */
  lemma PasswordRequiredForNewUsersOnly(username: string, email: string, password: string, role: string,
                                        validEmail: bool, existing: Option<User>, id: int)
    ensures ValidateUser(username, email, password, role, validEmail, existing, None) == map[] ==>
              !IsFalsy(password) && ByteLength(password) >= 8
    ensures "password" !in ValidateUser(username, email, "", role, validEmail, existing, Some(id))
  {
  }

  /** No two users share an address: the `users.email` column is unique. */
  ghost predicate DistinctEmails(users: AuthService.Table)
  {
    forall i, j :: i in users && j in users && i != j ==> users[i].email != users[j].email
  }

  /**
   * An address the validator accepts for a new user is no user's; for an
   * edited user, no other user's, as long as addresses were distinct.
   */
  lemma AcceptedEmailIsFree(users: AuthService.Table, email: string, userId: Option<int>)
    requires forall id :: id in users ==> users[id].id == Some(id)
    requires userId.None? || DistinctEmails(users)
    requires EmailError(email, true, AuthService.ByEmail(users, email), userId).None?
    ensures forall id :: id in users && users[id].email == email ==> userId == Some(id)
  {
    var existing := AuthService.ByEmail(users, email);
    if existing.Some? {
      var k :| k in users && users[k] == existing.value;
      forall j | j in users && users[j].email == email
        ensures userId == Some(j)
      {
        assert users[k].email == email;
      }
    } else {
      forall j | j in users
        ensures users[j].email != email
      {
        assert j in AuthService.EmailIds(users, email) <==> users[j].email == email;
      }
    }
  }

  /**
   * The table `update` leaves: the form's name, address, role and active
   * flag through `updateUser`, then the new password's hash through
   * `changePassword` when one is given.
   */
  function Saved(users: AuthService.Table, id: int, d: UserData, hash: string -> string): (r: AuthService.Table)
    requires id in users
    ensures r.Keys == users.Keys
    ensures forall k :: k in users && k != id ==> r[k] == users[k]
    ensures r[id].id == users[id].id && r[id].lastLoginAt == users[id].lastLoginAt
    ensures r[id].username == d.username && r[id].email == d.email
    ensures r[id].role == UpperString(d.role) && r[id].isActive == d.isActive
    ensures IsFalsy(d.password) ==> r[id].password == users[id].password
    ensures !IsFalsy(d.password) ==> r[id].password == hash(d.password)
  {
    var updated := users[id := users[id].(username := d.username, email := d.email, role := UpperString(d.role), isActive := d.isActive)];
    if IsFalsy(d.password) then updated else updated[id := updated[id].(password := hash(d.password))]
  }

  /**
   * An administrator editing their own account stays an active
   * administrator, whatever the form says.
   */
  lemma SelfEditKeepsAdminAccess(users: AuthService.Table, id: int, form: Form, me: User, hash: string -> string)
    requires id in users && users[id].id == Some(id) && me.id == Some(id) && IsAdmin(me)
    ensures IsAdmin(Saved(users, id, Submitted(form, users[id], me), hash)[id])
    ensures Saved(users, id, Submitted(form, users[id], me), hash)[id].isActive
  {
    KnownRolesAreUpper(RoleAdmin);
  }

  /** The table and the id counter as they were. */
  twostate predicate Untouched(auth: AuthService.Service)
    reads auth
  {
    auth.users == old(auth.users) && auth.nextId == old(auth.nextId)
  }

  /** `d` was stored under the next id, active or not as the form said. */
  twostate predicate Inserted(auth: AuthService.Service, new d: UserData)
    reads auth
  {
    var id := old(auth.nextId);
    && id !in old(auth.users) && auth.nextId == id + 1
    && auth.users == old(auth.users)[id := AuthService.Stored(id, d.username, d.email, auth.hasher.hash(d.password), d.role)
                                            .(isActive := d.isActive)]
  }

  /** `createUser`, then `updateUser` to clear the active flag when the box was not sent. */
  method Insert(auth: AuthService.Service, d: UserData)
    requires auth.Valid()
    requires forall id :: id in auth.users ==> auth.users[id].email != d.email
    modifies auth`users, auth`nextId
    ensures auth.Valid() && Inserted(auth, d)
    ensures DistinctEmails(old(auth.users)) ==> DistinctEmails(auth.users)
  {
    var created := auth.CreateUser(d.username, d.email, d.password, d.role);
    if !d.isActive {
      auth.UpdateUser(created.(isActive := false));
    }
  }

  /** `updateUser` with the form's fields, then `changePassword` when a password is given. */
  method Overwrite(auth: AuthService.Service, found: User, d: UserData)
    requires auth.Valid() && found.id.Some? && found.id.value in auth.users && auth.users[found.id.value] == found
    requires DistinctEmails(auth.users) ==>
      forall id :: id in auth.users && auth.users[id].email == d.email ==> found.id == Some(id)
    modifies auth`users
    ensures auth.Valid()
    ensures auth.users == Saved(old(auth.users), found.id.value, d, auth.hasher.hash)
    ensures DistinctEmails(old(auth.users)) ==> DistinctEmails(auth.users)
  {
    var edited := found.(username := d.username, email := d.email, role := d.role, isActive := d.isActive);
    auth.UpdateUser(edited);
    if !IsFalsy(d.password) {
      var _ := auth.ChangePassword(edited, d.password);
    }
  }

  /** `index`: administrators get the list of `listed` (`listUsers`); anyone else is refused. */
  method Index(auth: AuthService.Service, listed: seq<User>) returns (outcome: Outcome, lines: seq<Line>)
    requires auth.Valid()
    modifies auth`current, auth`session, auth`logs
    ensures auth.Valid()
    ensures var me := AuthService.Resolved(old(auth.current), old(auth.session), old(auth.users));
      && AuthService.SessionResolved(old(auth.current), old(auth.session), old(auth.users), old(auth.logs), me,
                                      auth.current, auth.session, auth.logs)
      && (!AdminUser(me) ==> Refused(auth, outcome) && lines == [])
      && (AdminUser(me) ==> outcome == FormShown(map[]) && lines == Lines(listed, me.value))
  {
    var me := auth.GetCurrentUser();
    if !AdminUser(me) {
      return Redirected(AdminUrl, None), [];
    }
    outcome, lines := FormShown(map[]), Lines(listed, me.value);
  }

  /** `create`: administrators get the empty form; anyone else is refused. */
  method Create(auth: AuthService.Service) returns (outcome: Outcome)
    requires auth.Valid()
    modifies auth`current, auth`session, auth`logs
    ensures auth.Valid()
    ensures var me := AuthService.Resolved(old(auth.current), old(auth.session), old(auth.users));
      && AuthService.SessionResolved(old(auth.current), old(auth.session), old(auth.users), old(auth.logs), me,
                                      auth.current, auth.session, auth.logs)
      && (!AdminUser(me) ==> Refused(auth, outcome))
      && (AdminUser(me) ==> outcome == FormShown(map[]))
  {
    var me := auth.GetCurrentUser();
    if !AdminUser(me) {
      return Redirected(AdminUrl, None);
    }
    outcome := FormShown(map[]);
  }

  /** The errors `store` finds in `d`, the form read with the default role. */
  function StoreErrors(users: AuthService.Table, d: UserData, isEmail: string -> bool): (errors: Errors)
  {
    ValidateUser(d.username, d.email, d.password, d.role, isEmail(d.email), AuthService.ByEmail(users, d.email), None)
  }

  /** What `store` does for an administrator. */
  method StoreValidated(auth: AuthService.Service, d: UserData, isEmail: string -> bool) returns (outcome: Outcome)
    requires auth.Valid()
    modifies auth`users, auth`nextId
    ensures auth.Valid()
    ensures var errors := StoreErrors(old(auth.users), d, isEmail);
      && (errors != map[] ==> outcome == FormShown(errors) && Untouched(auth))
      && (errors == map[] ==>
            outcome == Redirected(UsersUrl, Some(Success("Utilisateur créé avec succès."))) && Inserted(auth, d))
    ensures DistinctEmails(old(auth.users)) ==> DistinctEmails(auth.users)
  {
    var errors := StoreErrors(auth.users, d, isEmail);
    if errors != map[] {
      return FormShown(errors);
    }
    AcceptedEmailIsFree(auth.users, d.email, None);
    Insert(auth, d);
    outcome := Redirected(UsersUrl, Some(Success("Utilisateur créé avec succès.")));
  }

  /**
   * `store`: refused to a non-administrator; a rejected form is shown again
   * and nothing is written; an accepted one is created, inactive when the
   * box was not sent, and addresses stay distinct.
   */
  method Store(auth: AuthService.Service, form: Form, isEmail: string -> bool) returns (outcome: Outcome)
    requires auth.Valid()
    modifies auth`users, auth`nextId, auth`current, auth`session, auth`logs
    ensures auth.Valid()
    ensures var me := AuthService.Resolved(old(auth.current), old(auth.session), old(auth.users));
      && AuthService.SessionResolved(old(auth.current), old(auth.session), old(auth.users), old(auth.logs), me,
                                      auth.current, auth.session, auth.logs)
      && (!AdminUser(me) ==> Refused(auth, outcome))
      && (AdminUser(me) ==>
            var d := ReadUser(form, RoleUser);
            var errors := StoreErrors(old(auth.users), d, isEmail);
            && (errors != map[] ==> outcome == FormShown(errors) && Untouched(auth))
            && (errors == map[] ==>
                  outcome == Redirected(UsersUrl, Some(Success("Utilisateur créé avec succès."))) && Inserted(auth, d)))
    ensures DistinctEmails(old(auth.users)) ==> DistinctEmails(auth.users)
  {
    var me := auth.GetCurrentUser();
    if !AdminUser(me) {
      return Redirected(AdminUrl, None);
    }
    outcome := StoreValidated(auth, ReadUser(form, RoleUser), isEmail);
  }

  /** `edit`: refused to a non-administrator; an unknown id goes back to the list with an error. */
  method Edit(auth: AuthService.Service, id: int) returns (outcome: Outcome, edited: Option<User>)
    requires auth.Valid()
    modifies auth`current, auth`session, auth`logs
    ensures auth.Valid()
    ensures var me := AuthService.Resolved(old(auth.current), old(auth.session), old(auth.users));
      && AuthService.SessionResolved(old(auth.current), old(auth.session), old(auth.users), old(auth.logs), me,
                                      auth.current, auth.session, auth.logs)
      && (!AdminUser(me) ==> Refused(auth, outcome) && edited.None?)
      && (AdminUser(me) && id !in auth.users ==>
            outcome == Redirected(UsersUrl, Some(Failure("Utilisateur introuvable."))) && edited.None?)
      && (AdminUser(me) && id in auth.users ==> outcome == FormShown(map[]) && edited == Some(auth.users[id]))
  {
    var me := auth.GetCurrentUser();
    if !AdminUser(me) {
      return Redirected(AdminUrl, None), None;
    }
    edited := AuthService.ById(auth.users, id);
    if edited.None? {
      return Redirected(UsersUrl, Some(Failure("Utilisateur introuvable."))), None;
    }
    outcome := FormShown(map[]);
  }

  /** The errors `update` finds in `d` for the user `id`. */
  function UpdateErrors(users: AuthService.Table, id: int, d: UserData, isEmail: string -> bool): (errors: Errors)
  {
    ValidateUser(d.username, d.email, d.password, d.role, isEmail(d.email), AuthService.ByEmail(users, d.email), Some(id))
  }

  /** What `update` does for an administrator once the user is found. */
  method UpdateFound(auth: AuthService.Service, found: User, d: UserData, isEmail: string -> bool) returns (outcome: Outcome)
    requires auth.Valid() && found.id.Some? && found.id.value in auth.users && auth.users[found.id.value] == found
    modifies auth`users
    ensures auth.Valid()
    ensures var errors := UpdateErrors(old(auth.users), found.id.value, d, isEmail);
      && (errors != map[] ==> outcome == FormShown(errors) && auth.users == old(auth.users))
      && (errors == map[] ==>
            && outcome == Redirected(UsersUrl, Some(Success("Utilisateur mis à jour avec succès.")))
            && auth.users == Saved(old(auth.users), found.id.value, d, auth.hasher.hash))
    ensures DistinctEmails(old(auth.users)) ==> DistinctEmails(auth.users)
  {
    var errors := UpdateErrors(auth.users, found.id.value, d, isEmail);
    if errors != map[] {
      return FormShown(errors);
    }
    if DistinctEmails(auth.users) {
      AcceptedEmailIsFree(auth.users, d.email, found.id);
    }
    Overwrite(auth, found, d);
    outcome := Redirected(UsersUrl, Some(Success("Utilisateur mis à jour avec succès.")));
  }

  /**
   * `update`: refused to a non-administrator; an unknown id goes back to
   * the list; a rejected form is shown again and nothing is written; an
   * accepted one is saved as `Saved` says, editing one's own account keeps
   * one's role and leaves it active, and addresses stay distinct.
   */
  method Update(auth: AuthService.Service, id: int, form: Form, isEmail: string -> bool) returns (outcome: Outcome)
    requires auth.Valid()
    modifies auth`users, auth`current, auth`session, auth`logs
    ensures auth.Valid()
    ensures var me := AuthService.Resolved(old(auth.current), old(auth.session), old(auth.users));
      && AuthService.SessionResolved(old(auth.current), old(auth.session), old(auth.users), old(auth.logs), me,
                                      auth.current, auth.session, auth.logs)
      && (!AdminUser(me) ==> Refused(auth, outcome))
      && (AdminUser(me) && id !in old(auth.users) ==>
            outcome == Redirected(UsersUrl, Some(Failure("Utilisateur introuvable."))) && auth.users == old(auth.users))
      && (AdminUser(me) && id in old(auth.users) ==>
            var d := Submitted(form, old(auth.users)[id], me.value);
            var errors := UpdateErrors(old(auth.users), id, d, isEmail);
            && (errors != map[] ==> outcome == FormShown(errors) && auth.users == old(auth.users))
            && (errors == map[] ==>
                  && outcome == Redirected(UsersUrl, Some(Success("Utilisateur mis à jour avec succès.")))
                  && auth.users == Saved(old(auth.users), id, d, auth.hasher.hash)))
    ensures DistinctEmails(old(auth.users)) ==> DistinctEmails(auth.users)
  {
    var me := auth.GetCurrentUser();
    if !AdminUser(me) {
      return Redirected(AdminUrl, None);
    }
    ghost var users := auth.users;
    assert users == old(auth.users);
    var found := AuthService.ById(auth.users, id);
    if found.None? {
      return Redirected(UsersUrl, Some(Failure("Utilisateur introuvable.")));
    }
    assert found.value == users[id];
    outcome := UpdateFound(auth, found.value, Submitted(form, found.value, me.value), isEmail);
  }

  /**
   * `delete`: refused to a non-administrator; one's own account is never
   * deleted; any other id is removed from the table.
   */
  method Delete(auth: AuthService.Service, id: int) returns (outcome: Outcome)
    requires auth.Valid()
    modifies auth`users, auth`current, auth`session, auth`logs
    ensures auth.Valid()
    ensures var me := AuthService.Resolved(old(auth.current), old(auth.session), old(auth.users));
      && AuthService.SessionResolved(old(auth.current), old(auth.session), old(auth.users), old(auth.logs), me,
                                      auth.current, auth.session, auth.logs)
      && (!AdminUser(me) ==> Refused(auth, outcome))
      && (AdminUser(me) && me.value.id == Some(id) ==>
            outcome == Redirected(UsersUrl, Some(Failure("Vous ne pouvez pas supprimer votre propre compte.")))
            && auth.users == old(auth.users))
      && (AdminUser(me) && me.value.id != Some(id) ==>
            outcome == Redirected(UsersUrl, Some(Success("Utilisateur supprimé avec succès.")))
            && auth.users == old(auth.users) - {id})
  {
    var me := auth.GetCurrentUser();
    if !AdminUser(me) {
      return Redirected(AdminUrl, None);
    }
    if me.value.id == Some(id) {
      return Redirected(UsersUrl, Some(Failure("Vous ne pouvez pas supprimer votre propre compte.")));
    }
    var ok := auth.DeleteUser(id);
    outcome := if ok then Redirected(UsersUrl, Some(Success("Utilisateur supprimé avec succès.")))
               else Redirected(UsersUrl, Some(Failure("Erreur lors de la suppression.")));
  }
}
