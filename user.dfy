/**
 * The User entity: roles, the per-role permission lists, the row codec and
 * the role checks. Timestamps are integer seconds; `createdAt` and
 * `updatedAt` are not carried.
 */
module UserEntity {
  import opened Php

  const RoleAdmin := "ADMIN"
  const RoleRedactor := "REDACTOR"
  const RoleUser := "USER"

  /** `ROLES`: each role and its label. */
  const Roles: map<string, string> :=
    map[RoleAdmin := "Administrateur", RoleRedactor := "Rédacteur", RoleUser := "Utilisateur"]

  const RedactorPermissions: seq<string> :=
    ["post.create", "post.edit", "post.view", "tag.view", "category.view", "media.upload", "media.view"]

  const AdminPermissions: seq<string> :=
    ["post.create", "post.edit", "post.delete", "post.publish", "post.view",
     "category.create", "category.edit", "category.delete", "category.view",
     "tag.create", "tag.edit", "tag.delete", "tag.view",
     "user.create", "user.edit", "user.delete", "user.view",
     "option.edit", "option.view",
     "media.upload", "media.delete", "media.view",
     "generate.run", "admin.access"]

  /** `PERMISSIONS`: the permission list of each role. */
  const Permissions: map<string, seq<string>> :=
    map[RoleUser := [], RoleRedactor := RedactorPermissions, RoleAdmin := AdminPermissions]

  datatype User = User(
    id: Option<int>,
    username: string,
    email: string,
    password: string,
    role: string,
    isActive: bool,
    lastLoginAt: Option<int>)

  /** The keys of a user row: the `users` columns (the hash under either name) plus `role_label`. */
  datatype Column = Id | Username | Email | PasswordHash | Password | Role | RoleCaption | IsActive | LastLoginAt

  /** A user row, keyed by column. */
  type UserRow = Row<Column>

  /**
   * `fromArray`: the id is always set (0 when missing), the hash is read from
   * `password_hash` or else `password`, the role is upper-cased and a missing
   * `is_active` means active.
   */
  function FromArray(row: UserRow): (u: User)
    ensures u.id == Some(ToInt(Coalesce(row, Id, VInt(0))))
    ensures !IsSet(row, Role) ==> u.role == RoleUser
    ensures !IsSet(row, IsActive) ==> u.isActive
    ensures IsSet(row, PasswordHash) ==> u.password == ToStr(row[PasswordHash])
  {
    User(
      Some(ToInt(Coalesce(row, Id, VInt(0)))),
      ToStr(Coalesce(row, Username, VStr(""))),
      ToStr(Coalesce(row, Email, VStr(""))),
      ToStr(Coalesce(row, PasswordHash, Coalesce(row, Password, VStr("")))),
      UpperString(ToStr(Coalesce(row, Role, VStr(RoleUser)))),
      ToBool(Coalesce(row, IsActive, VBool(true))),
      OptInt(row, LastLoginAt))
  }

  /** `toArray`: the hash goes under `password`, the role label is added. */
  function ToArray(u: User): (row: UserRow)
    ensures RoleCaption in row && row[RoleCaption] == VStr(RoleLabel(u))
  {
    map[
      Id := IntOrNull(u.id),
      Username := VStr(u.username),
      Email := VStr(u.email),
      Password := VStr(u.password),
      Role := VStr(u.role),
      RoleCaption := VStr(RoleLabel(u)),
      IsActive := BoolToInt(u.isActive),
      LastLoginAt := IntOrNull(u.lastLoginAt)
    ]
  }

  /** `row` holds, under each column `fromArray` reads, the value `toArray` writes for `u`. */
  ghost predicate Stores(row: UserRow, u: User)
  {
    && Id in row && row[Id] == IntOrNull(u.id)
    && Username in row && row[Username] == VStr(u.username)
    && Email in row && row[Email] == VStr(u.email)
    && PasswordHash !in row
    && Password in row && row[Password] == VStr(u.password)
    && Role in row && row[Role] == VStr(u.role)
    && IsActive in row && row[IsActive] == BoolToInt(u.isActive)
    && LastLoginAt in row && row[LastLoginAt] == IntOrNull(u.lastLoginAt)
  }

  lemma ToArrayStores(u: User)
    ensures Stores(ToArray(u), u)
  {
  }

  /**
   * `fromArray` reads back any row holding those cells, except that a null
   * id comes back as 0 and the role comes back upper-cased.
   */
  lemma FromArrayOfStored(row: UserRow, u: User)
    requires Stores(row, u)
    ensures FromArray(row) == u.(id := Some(u.id.GetOr(0)), role := UpperString(u.role))
  {
    OptIntRoundTrip(u.lastLoginAt, row, LastLoginAt);
  }

  /** Reading back a written row gives the user again, with a null id as 0 and the role upper-cased. */
  lemma ArrayRoundTrip(u: User)
    ensures FromArray(ToArray(u)) == u.(id := Some(u.id.GetOr(0)), role := UpperString(u.role))
  {
    ToArrayStores(u);
    FromArrayOfStored(ToArray(u), u);
  }

  /** The three roles are already upper-case. */
  lemma KnownRolesAreUpper(role: string)
    requires role in Roles
    ensures UpperString(role) == role
  {
  }

  /** The three roles survive the round trip unchanged. */
  lemma KnownRoleRoundTrip(u: User)
    requires u.role in Roles && u.id.Some?
    ensures FromArray(ToArray(u)) == u
  {
    ArrayRoundTrip(u);
    KnownRolesAreUpper(u.role);
  }

  predicate IsAdmin(u: User) { u.role == RoleAdmin }

  predicate IsRedactor(u: User) { u.role == RoleRedactor }

  /** `canAccessAdmin`: administrators and redactors only. */
  predicate CanAccessAdmin(u: User)
  {
    u.role == RoleAdmin || u.role == RoleRedactor
  }

  /** `getPermissions`: the role's list, empty for an unknown role. */
  function PermissionsOf(u: User): (perms: seq<string>)
    ensures u.role !in Permissions ==> perms == []
    ensures u.role == RoleUser ==> perms == []
  {
    if u.role in Permissions then Permissions[u.role] else []
  }

  /** `hasPermission`: the permission is in the role's list. */
  predicate HasPermission(u: User, permission: string)
  {
    permission in PermissionsOf(u)
  }

  /** `getRoleLabel`: the label of a known role, "Inconnu" otherwise. */
  function RoleLabel(u: User): (caption: string)
    ensures u.role in Roles ==> caption == Roles[u.role]
    ensures caption == "Inconnu" <==> u.role !in Roles
  {
    if u.role in Roles then Roles[u.role] else "Inconnu"
  }

  /** Every permission of a redactor is also an administrator's. */
  lemma AdminHasRedactorPermissions(admin: User, redactor: User, permission: string)
    requires IsAdmin(admin) && IsRedactor(redactor)
    requires HasPermission(redactor, permission)
    ensures HasPermission(admin, permission)
  {
  }

  /** Only administrators hold the management permissions; a plain user or an unknown role holds none. */
  lemma PermissionSeparation(u: User)
    ensures HasPermission(u, "admin.access") ==> IsAdmin(u)
    ensures HasPermission(u, "user.delete") ==> IsAdmin(u)
    ensures HasPermission(u, "generate.run") ==> IsAdmin(u)
    ensures u.role == RoleUser || u.role !in Roles ==> PermissionsOf(u) == []
  {
  }

  /** A redactor may enter the back office although its list lacks "admin.access". */
  lemma RedactorEntersWithoutAdminAccess(u: User)
    requires IsRedactor(u)
    ensures CanAccessAdmin(u) && !HasPermission(u, "admin.access")
  {
    assert "admin.access" !in RedactorPermissions;
  }
}
