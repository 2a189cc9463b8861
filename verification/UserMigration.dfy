/** Splitting the `users` table (migration 011) and joining it back (the view of migration 012).

    Tables are sequences of rows in insertion order.  A column that may be NULL is an
    `Option`.  The migration runs in one transaction, so that a statement that violates a
    constraint leaves every table as it was.
 */
module UserMigration {
  import opened Results

  type Uuid = nat
  type Timestamp = int

  /** A row of the monolithic `users` table.  The migration treats the name, role and activity
      columns as nullable, so they are nullable here. */
  datatype LegacyUser = LegacyUser(
    id: Uuid,
    email: string,
    passwordHash: Option<string>,
    firstName: Option<string>,
    lastName: Option<string>,
    role: Option<string>,
    isActive: Option<bool>,
    lastLoginAt: Option<Timestamp>,
    createdAt: Timestamp,
    updatedAt: Timestamp)

  datatype User = User(
    id: Uuid,
    email: string,
    passwordHash: Option<string>,
    authProvider: string,
    authProviderId: Option<string>,
    emailVerified: bool,
    isActive: bool,
    isLocked: bool,
    failedLoginAttempts: int,
    lastLoginAt: Option<Timestamp>,
    createdAt: Timestamp,
    updatedAt: Timestamp)

  datatype Profile = Profile(
    userId: Uuid,
    firstName: Option<string>,
    lastName: Option<string>,
    createdAt: Timestamp,
    updatedAt: Timestamp)

  datatype UserRole = UserRole(userId: Uuid, role: string, grantedAt: Timestamp, isActive: bool)

  /** A row of the view `users_compat`. */
  datatype CompatRow = CompatRow(
    id: Uuid,
    email: string,
    passwordHash: Option<string>,
    firstName: Option<string>,
    lastName: Option<string>,
    role: Option<string>,
    isActive: bool,
    lastLoginAt: Option<Timestamp>,
    failedLoginAttempts: int,
    createdAt: Timestamp,
    updatedAt: Timestamp)

  // ---------- constraints ----------

  const LEGACY_ROLES := ["agent", "underwriter", "admin", "system"]
  const ROLES := ["customer", "agent", "underwriter", "admin", "super_admin", "system"]
  const AUTH_PROVIDERS := ["local", "google", "github", "microsoft", "okta", "auth0", "facebook"]

  predicate Letter(c: char) { 'A' <= c <= 'Z' || 'a' <= c <= 'z' }

  predicate Digit(c: char) { '0' <= c <= '9' }

  predicate LocalPartChar(c: char) { Letter(c) || Digit(c) || c in "._%+-" }

  predicate DomainChar(c: char) { Letter(c) || Digit(c) || c in ".-" }

  /** The pattern of `ck_users_email_format`, with the `@` at `at` and the last dot at `dot`. */
  predicate EmailSplitsAt(email: string, at: nat, dot: nat) {
    && 0 < at && at + 1 < dot && dot + 2 < |email|
    && email[at] == '@' && email[dot] == '.'
    && (forall i | 0 <= i < at :: LocalPartChar(email[i]))
    && (forall i | at < i < dot :: DomainChar(email[i]))
    && (forall i | dot < i < |email| :: Letter(email[i]))
  }

  predicate EmailFormat(email: string) {
    exists at: nat, dot: nat | at < |email| && dot < |email| :: EmailSplitsAt(email, at, dot)
  }

  /** The same pattern, as a text put together from its three parts. */
  predicate EmailParts(email: string, local: string, domain: string, topLevel: string) {
    && email == local + ['@'] + domain + ['.'] + topLevel
    && |local| >= 1 && |domain| >= 1 && |topLevel| >= 2
    && (forall c <- local :: LocalPartChar(c)) && (forall c <- domain :: DomainChar(c))
    && (forall c <- topLevel :: Letter(c))
  }

  lemma {:induction false} PartsSplit(email: string, local: string, domain: string, topLevel: string)
    requires EmailParts(email, local, domain, topLevel)
    ensures EmailSplitsAt(email, |local|, |local| + 1 + |domain|)
  {
    var at, dot := |local|, |local| + 1 + |domain|;
    assert email[..at] == local && email[at + 1..dot] == domain && email[dot + 1..] == topLevel;
    assert forall i | 0 <= i < at :: email[i] == local[i];
    assert forall i | at < i < dot :: email[i] == domain[i - at - 1];
    assert forall i | dot < i < |email| :: email[i] == topLevel[i - dot - 1];
  }

  /** An email is well formed exactly when it is a local part, an `@`, a domain, a dot and a top-level domain
      of two letters or more. */
  lemma {:induction false} EmailFormatIff(email: string)
    ensures EmailFormat(email) <==> exists l, d, t :: EmailParts(email, l, d, t)
  {
    if EmailFormat(email) {
      var at: nat, dot: nat :| at < |email| && dot < |email| && EmailSplitsAt(email, at, dot);
      assert EmailParts(email, email[..at], email[at + 1..dot], email[dot + 1..]);
    }
    if l, d, t :| EmailParts(email, l, d, t) {
      PartsSplit(email, l, d, t);
    }
  }

  predicate UsersValid(users: seq<User>) {
    && (forall i, j | 0 <= i < j < |users| :: users[i].id != users[j].id)
    && (forall i, j | 0 <= i < j < |users| :: users[i].email != users[j].email)
    && (forall i, j | 0 <= i < j < |users| :: users[i].authProviderId.None?
          || (users[i].authProvider, users[i].authProviderId) != (users[j].authProvider, users[j].authProviderId))
    && (forall i | 0 <= i < |users| :: EmailFormat(users[i].email) && users[i].authProvider in AUTH_PROVIDERS)
  }

  predicate HasUser(users: seq<User>, id: Uuid) {
    exists i | 0 <= i < |users| :: users[i].id == id
  }

  predicate ProfilesValid(users: seq<User>, profiles: seq<Profile>) {
    && (forall i, j | 0 <= i < j < |profiles| :: profiles[i].userId != profiles[j].userId)
    && (forall i | 0 <= i < |profiles| :: HasUser(users, profiles[i].userId))
  }

  predicate RolesValid(users: seq<User>, roles: seq<UserRole>) {
    && (forall i, j | 0 <= i < j < |roles| ::
          roles[i].userId != roles[j].userId || roles[i].role != roles[j].role)
    && (forall i | 0 <= i < |roles| :: HasUser(users, roles[i].userId) && roles[i].role in ROLES)
  }

  /** One row for each of some users (`user_preferences`, `user_security`). */
  predicate OneRowPerUser(users: seq<User>, ids: seq<Uuid>) {
    && (forall i, j | 0 <= i < j < |ids| :: ids[i] != ids[j])
    && (forall i | 0 <= i < |ids| :: HasUser(users, ids[i]))
  }

  // ---------- the data migration, statement by statement ----------

  /** `COALESCE(is_active, true)` also fills `email_verified`; the other columns are defaults. */
  function ToUser(u: LegacyUser): User
    requires u.isActive.Some?
  {
    User(u.id, u.email, u.passwordHash, "local", None, u.isActive.value, u.isActive.value, false, 0,
         u.lastLoginAt, u.createdAt, u.updatedAt)
  }

  predicate ActivityKnown(legacy: seq<LegacyUser>) {
    forall i | 0 <= i < |legacy| :: legacy[i].isActive.Some?
  }

  function ToUsers(legacy: seq<LegacyUser>): seq<User>
    requires ActivityKnown(legacy)
  {
    seq(|legacy|, i requires 0 <= i < |legacy| => ToUser(legacy[i]))
  }

  predicate HasName(u: LegacyUser) { u.firstName.Some? || u.lastName.Some? }

  function ToProfile(u: LegacyUser): Profile {
    Profile(u.id, u.firstName, u.lastName, u.createdAt, u.updatedAt)
  }

  /** The profile row that a legacy row gives rise to, if any. */
  function ProfileRows(u: LegacyUser): seq<Profile> {
    if HasName(u) then [ToProfile(u)] else []
  }

  function ToProfiles(legacy: seq<LegacyUser>): seq<Profile> {
    if legacy == [] then [] else ToProfiles(legacy[..|legacy| - 1]) + ProfileRows(legacy[|legacy| - 1])
  }

  function ToRole(u: LegacyUser): UserRole
    requires u.role.Some?
  {
    UserRole(u.id, u.role.value, u.createdAt, true)
  }

  /** The role row that a legacy row gives rise to, if any. */
  function RoleRows(u: LegacyUser): seq<UserRole> {
    if u.role.Some? then [ToRole(u)] else []
  }

  function ToRoles(legacy: seq<LegacyUser>): seq<UserRole> {
    if legacy == [] then [] else ToRoles(legacy[..|legacy| - 1]) + RoleRows(legacy[|legacy| - 1])
  }

  function IdsOf(legacy: seq<LegacyUser>): seq<Uuid> {
    seq(|legacy|, i requires 0 <= i < |legacy| => legacy[i].id)
  }

  /** The legacy tables that the migration accepts: keys and email format as the new `users`
      table wants them, a known activity flag, and only roles that still exist. */
  predicate Migratable(legacy: seq<LegacyUser>) {
    && ActivityKnown(legacy)
    && (forall i, j | 0 <= i < j < |legacy| :: legacy[i].id != legacy[j].id)
    && (forall i, j | 0 <= i < j < |legacy| :: legacy[i].email != legacy[j].email)
    && (forall i | 0 <= i < |legacy| :: EmailFormat(legacy[i].email))
    && (forall i | 0 <= i < |legacy| :: RoleKnown(legacy[i]))
  }

  predicate RoleKnown(u: LegacyUser) { u.role.Some? ==> u.role.value in ROLES }

  lemma {:induction false} UsersFollowLegacy(legacy: seq<LegacyUser>)
    requires ActivityKnown(legacy)
    ensures UsersValid(ToUsers(legacy)) && (forall i | 0 <= i < |legacy| :: RoleKnown(legacy[i]))
       <==> Migratable(legacy)
  {
    var users := ToUsers(legacy);
    assert forall i | 0 <= i < |legacy| :: users[i].id == legacy[i].id && users[i].email == legacy[i].email;
    assert "local" in AUTH_PROVIDERS;
  }

  predicate IdsDistinct(legacy: seq<LegacyUser>) {
    forall i, j | 0 <= i < j < |legacy| :: legacy[i].id != legacy[j].id
  }

  ghost predicate ProfileOfSome(legacy: seq<LegacyUser>, p: Profile) {
    exists i | 0 <= i < |legacy| :: HasName(legacy[i]) && p == ToProfile(legacy[i])
  }

  ghost predicate RoleOfSome(legacy: seq<LegacyUser>, r: UserRole) {
    exists i | 0 <= i < |legacy| :: legacy[i].role.Some? && r == ToRole(legacy[i])
  }

  /** The profile rows are those of the legacy rows with a name, one each. */
  lemma {:induction false} ProfilesFollowLegacy(legacy: seq<LegacyUser>)
    requires IdsDistinct(legacy)
    ensures forall p <- ToProfiles(legacy) :: ProfileOfSome(legacy, p)
    ensures forall k, l | 0 <= k < l < |ToProfiles(legacy)| ::
      ToProfiles(legacy)[k].userId != ToProfiles(legacy)[l].userId
  {
    if legacy != [] {
      var front, u := legacy[..|legacy| - 1], legacy[|legacy| - 1];
      ProfilesFollowLegacy(front);
      forall p <- ToProfiles(legacy)
        ensures ProfileOfSome(legacy, p)
      {
        if p in ToProfiles(front) {
          var i :| 0 <= i < |front| && HasName(front[i]) && p == ToProfile(front[i]);
          assert HasName(legacy[i]) && p == ToProfile(legacy[i]);
        } else {
          assert HasName(u) && p == ToProfile(u);
        }
      }
      forall k | 0 <= k < |ToProfiles(front)|
        ensures ToProfiles(front)[k].userId != u.id
      {
        assert ProfileOfSome(front, ToProfiles(front)[k]);
      }
    }
  }

  /** The role rows are those of the legacy rows with a role, one each. */
  lemma {:induction false} RolesFollowLegacy(legacy: seq<LegacyUser>)
    requires IdsDistinct(legacy)
    ensures forall r <- ToRoles(legacy) :: RoleOfSome(legacy, r)
    ensures forall k, l | 0 <= k < l < |ToRoles(legacy)| :: ToRoles(legacy)[k].userId != ToRoles(legacy)[l].userId
  {
    if legacy != [] {
      var front, u := legacy[..|legacy| - 1], legacy[|legacy| - 1];
      RolesFollowLegacy(front);
      forall r <- ToRoles(legacy)
        ensures RoleOfSome(legacy, r)
      {
        if r in ToRoles(front) {
          var i :| 0 <= i < |front| && front[i].role.Some? && r == ToRole(front[i]);
          assert legacy[i].role.Some? && r == ToRole(legacy[i]);
        } else {
          assert u.role.Some? && r == ToRole(u);
        }
      }
      forall k | 0 <= k < |ToRoles(front)|
        ensures ToRoles(front)[k].userId != u.id
      {
        assert RoleOfSome(front, ToRoles(front)[k]);
      }
    }
  }

  lemma {:induction false} ProfileIsKept(legacy: seq<LegacyUser>, i: nat)
    requires i < |legacy| && HasName(legacy[i])
    ensures ToProfile(legacy[i]) in ToProfiles(legacy)
  {
    if i < |legacy| - 1 {
      ProfileIsKept(legacy[..|legacy| - 1], i);
    }
  }

  lemma {:induction false} RoleIsKept(legacy: seq<LegacyUser>, i: nat)
    requires i < |legacy| && legacy[i].role.Some?
    ensures ToRole(legacy[i]) in ToRoles(legacy)
  {
    if i < |legacy| - 1 {
      RoleIsKept(legacy[..|legacy| - 1], i);
    }
  }

  lemma {:induction false} UserIsKept(legacy: seq<LegacyUser>, i: nat)
    requires ActivityKnown(legacy) && i < |legacy|
    ensures HasUser(ToUsers(legacy), legacy[i].id)
  {
    assert ToUsers(legacy)[i].id == legacy[i].id;
  }

  lemma {:induction false} ProfilesFollowUsers(legacy: seq<LegacyUser>)
    requires ActivityKnown(legacy) && IdsDistinct(legacy)
    ensures ProfilesValid(ToUsers(legacy), ToProfiles(legacy))
  {
    ProfilesFollowLegacy(legacy);
    forall k | 0 <= k < |ToProfiles(legacy)|
      ensures HasUser(ToUsers(legacy), ToProfiles(legacy)[k].userId)
    {
      assert ProfileOfSome(legacy, ToProfiles(legacy)[k]);
      var i: nat :| i < |legacy| && HasName(legacy[i]) && ToProfiles(legacy)[k] == ToProfile(legacy[i]);
      UserIsKept(legacy, i);
    }
  }

  lemma {:induction false} RolesFollowUsers(legacy: seq<LegacyUser>)
    requires ActivityKnown(legacy) && IdsDistinct(legacy)
    requires forall i | 0 <= i < |legacy| :: RoleKnown(legacy[i])
    ensures RolesValid(ToUsers(legacy), ToRoles(legacy))
  {
    RolesFollowLegacy(legacy);
    forall k | 0 <= k < |ToRoles(legacy)|
      ensures HasUser(ToUsers(legacy), ToRoles(legacy)[k].userId) && ToRoles(legacy)[k].role in ROLES
    {
      assert RoleOfSome(legacy, ToRoles(legacy)[k]);
      var i: nat :| i < |legacy| && legacy[i].role.Some? && ToRoles(legacy)[k] == ToRole(legacy[i]);
      UserIsKept(legacy, i);
      assert RoleKnown(legacy[i]);
    }
  }

  lemma {:induction false} ValidRolesAreKnown(legacy: seq<LegacyUser>, i: nat)
    requires ActivityKnown(legacy) && RolesValid(ToUsers(legacy), ToRoles(legacy)) && i < |legacy|
    ensures RoleKnown(legacy[i])
  {
    if legacy[i].role.Some? {
      RoleIsKept(legacy, i);
      var k :| 0 <= k < |ToRoles(legacy)| && ToRoles(legacy)[k] == ToRole(legacy[i]);
    }
  }

  /** Once the users are in, only the role column can still stop the migration. */
  lemma {:induction false} RowsFollowUsers(legacy: seq<LegacyUser>)
    requires ActivityKnown(legacy) && UsersValid(ToUsers(legacy))
    ensures ProfilesValid(ToUsers(legacy), ToProfiles(legacy)) && OneRowPerUser(ToUsers(legacy), IdsOf(legacy))
    ensures RolesValid(ToUsers(legacy), ToRoles(legacy)) <==> Migratable(legacy)
  {
    UsersFollowLegacy(legacy);
    forall i, j | 0 <= i < j < |legacy|
      ensures legacy[i].id != legacy[j].id
    {
      assert ToUsers(legacy)[i].id != ToUsers(legacy)[j].id;
    }
    ProfilesFollowUsers(legacy);
    forall i | 0 <= i < |legacy|
      ensures HasUser(ToUsers(legacy), IdsOf(legacy)[i])
    {
      UserIsKept(legacy, i);
    }
    if RolesValid(ToUsers(legacy), ToRoles(legacy)) {
      forall i | 0 <= i < |legacy|
        ensures RoleKnown(legacy[i])
      {
        ValidRolesAreKnown(legacy, i);
      }
    } else if forall i | 0 <= i < |legacy| :: RoleKnown(legacy[i]) {
      RolesFollowUsers(legacy);
    }
  }

  // ---------- the new tables, column by column ----------

  /** A local account that starts without failed logins or a lock, verified and active as the legacy flag
      says, and otherwise with the columns of the legacy row. */
  predicate AccountOf(u: User, l: LegacyUser) {
    && u.id == l.id && u.email == l.email && u.passwordHash == l.passwordHash
    && l.isActive == Some(u.isActive) == Some(u.emailVerified)
    && u.authProvider == "local" && u.authProviderId.None? && !u.isLocked && u.failedLoginAttempts == 0
    && u.lastLoginAt == l.lastLoginAt && u.createdAt == l.createdAt && u.updatedAt == l.updatedAt
  }

  predicate NamesOf(p: Profile, l: LegacyUser) {
    && (l.firstName.Some? || l.lastName.Some?)
    && p.userId == l.id && p.firstName == l.firstName && p.lastName == l.lastName
    && p.createdAt == l.createdAt && p.updatedAt == l.updatedAt
  }

  /** An active role, granted when the legacy row was created. */
  predicate GrantOf(r: UserRole, l: LegacyUser) {
    l.role == Some(r.role) && r.userId == l.id && r.grantedAt == l.createdAt && r.isActive
  }

  /** After the upgrade each legacy user has its account, in order. */
  lemma {:induction false} MigratedAccounts(legacy: seq<LegacyUser>, i: nat)
    requires ActivityKnown(legacy) && i < |legacy|
    ensures |ToUsers(legacy)| == |legacy| && AccountOf(ToUsers(legacy)[i], legacy[i])
  {
  }

  /** The profiles are those of the legacy users with a name. */
  lemma {:induction false} MigratedProfiles(legacy: seq<LegacyUser>, p: Profile)
    requires IdsDistinct(legacy)
    ensures p in ToProfiles(legacy) <==> exists i | 0 <= i < |legacy| :: NamesOf(p, legacy[i])
  {
    ProfilesFollowLegacy(legacy);
    if p in ToProfiles(legacy) {
      assert ProfileOfSome(legacy, p);
      var i :| 0 <= i < |legacy| && HasName(legacy[i]) && p == ToProfile(legacy[i]);
      assert NamesOf(p, legacy[i]);
    } else if i :| 0 <= i < |legacy| && NamesOf(p, legacy[i]) {
      ProfileIsKept(legacy, i);
    }
  }

  /** The roles are those of the legacy users with a role. */
  lemma {:induction false} MigratedRoles(legacy: seq<LegacyUser>, r: UserRole)
    requires IdsDistinct(legacy)
    ensures r in ToRoles(legacy) <==> exists i | 0 <= i < |legacy| :: GrantOf(r, legacy[i])
  {
    RolesFollowLegacy(legacy);
    if r in ToRoles(legacy) {
      assert RoleOfSome(legacy, r);
      var i :| 0 <= i < |legacy| && legacy[i].role.Some? && r == ToRole(legacy[i]);
      assert GrantOf(r, legacy[i]);
    } else if i :| 0 <= i < |legacy| && GrantOf(r, legacy[i]) {
      RoleIsKept(legacy, i);
    }
  }

  predicate HasLegacy(legacy: seq<LegacyUser>, id: Uuid) {
    exists i | 0 <= i < |legacy| :: legacy[i].id == id
  }

  /** The foreign key of `admin_users`, before the upgrade and after a downgrade. */
  predicate AdminsInLegacy(admins: seq<Uuid>, legacy: seq<LegacyUser>) {
    forall a | 0 <= a < |admins| :: HasLegacy(legacy, admins[a])
  }

  /** The same foreign key after an upgrade. */
  predicate AdminsInUsers(admins: seq<Uuid>, users: seq<User>) {
    forall a | 0 <= a < |admins| :: HasUser(users, admins[a])
  }

  lemma {:induction false} AdminsFollowUsers(admins: seq<Uuid>, legacy: seq<LegacyUser>)
    requires ActivityKnown(legacy) && AdminsInLegacy(admins, legacy)
    ensures AdminsInUsers(admins, ToUsers(legacy))
  {
    forall a | 0 <= a < |admins|
      ensures HasUser(ToUsers(legacy), admins[a])
    {
      var i: nat :| i < |legacy| && legacy[i].id == admins[a];
      UserIsKept(legacy, i);
    }
  }

  /** The keys and references of the new tables. */
  predicate TablesValid(users: seq<User>, profiles: seq<Profile>, roles: seq<UserRole>,
                        preferences: seq<Uuid>, security: seq<Uuid>)
  {
    && UsersValid(users) && ProfilesValid(users, profiles) && RolesValid(users, roles)
    && OneRowPerUser(users, preferences) && OneRowPerUser(users, security)
  }

  lemma {:induction false} MigratedTablesValid(legacy: seq<LegacyUser>)
    requires Migratable(legacy)
    ensures TablesValid(ToUsers(legacy), ToProfiles(legacy), ToRoles(legacy), IdsOf(legacy), IdsOf(legacy))
  {
    UsersFollowLegacy(legacy);
    RowsFollowUsers(legacy);
  }

  /** The INSERT statements, each under the constraints of its table. */
  method InsertRows(legacy: seq<LegacyUser>) returns (r: Result<(seq<User>, seq<Profile>, seq<UserRole>, seq<Uuid>)>)
    ensures r.Ok? <==> Migratable(legacy)
    ensures r.Ok? ==> r.value == (ToUsers(legacy), ToProfiles(legacy), ToRoles(legacy), IdsOf(legacy))
  {
    if !ActivityKnown(legacy) {
      return Err("null value in column is_active");
    }
    var users := ToUsers(legacy);
    UsersFollowLegacy(legacy);
    if !UsersValid(users) {
      return Err("users constraint violated");
    }
    var profiles, roles, ids := ToProfiles(legacy), ToRoles(legacy), IdsOf(legacy);
    RowsFollowUsers(legacy);
    if !ProfilesValid(users, profiles) || !RolesValid(users, roles) || !OneRowPerUser(users, ids) {
      return Err("profile, role, preference or security constraint violated");
    }
    return Ok((users, profiles, roles, ids));
  }

  /** The database that the two migrations change.  Before the upgrade (`!modular`) the table named
      `users` is `legacy`; `renamed` tells whether its constraints carry their `_legacy` names.
      `admins` are the users that `admin_users` refers to. */
  class Database {
    var modular: bool
    var renamed: bool
    var legacy: seq<LegacyUser>
    var users: seq<User>
    var profiles: seq<Profile>
    var roles: seq<UserRole>
    var preferences: seq<Uuid>
    var security: seq<Uuid>
    var admins: seq<Uuid>

    /** What holds in every reachable database, whatever rows come and go in between. */
    predicate Valid()
      reads this
    {
      && (modular ==> renamed)
      && if modular then AdminsInUsers(admins, users) else AdminsInLegacy(admins, legacy)
    }

    constructor (table: seq<LegacyUser>, adminIds: seq<Uuid>)
      requires AdminsInLegacy(adminIds, table)
      ensures Valid() && !modular && !renamed && legacy == table && admins == adminIds
    {
      modular, renamed, legacy, admins := false, false, table, adminIds;
      users, profiles, roles, preferences, security := [], [], [], [], [];
    }

    /** `upgrade()` of migration 011. */
    method Upgrade() returns (r: Result<()>)
      requires Valid() && !modular
      modifies `modular, `renamed, `users, `profiles, `roles, `preferences, `security
      ensures Valid()
      ensures r.Ok? <==> !old(renamed) && Migratable(legacy)
      ensures r.Err? ==> unchanged(this)
      ensures r.Ok? ==> modular && renamed && TablesValid(users, profiles, roles, preferences, security)
      ensures r.Ok? ==> users == ToUsers(legacy) && profiles == ToProfiles(legacy) && roles == ToRoles(legacy)
      ensures r.Ok? ==> preferences == security == IdsOf(legacy)
    {
      if renamed {
        return Err("constraint pk_users of relation users_legacy does not exist");
      }
      var inserted := InsertRows(legacy);
      if inserted.Err? {
        return Err(inserted.error);
      }
      MigratedTablesValid(legacy);
      AdminsFollowUsers(admins, legacy);
      modular, renamed := true, true;
      users, profiles, roles := inserted.value.0, inserted.value.1, inserted.value.2;
      preferences, security := inserted.value.3, inserted.value.3;
      return Ok(());
    }

    /** `downgrade()` of migration 011: the new tables go, the legacy table gets its name back, and its
        constraints keep their new names.  The foreign key of `admin_users` must fit the legacy table. */
    method Downgrade() returns (r: Result<()>)
      requires Valid() && modular
      modifies `modular, `renamed, `users, `profiles, `roles, `preferences, `security
      ensures Valid() && renamed
      ensures r.Ok? <==> AdminsInLegacy(admins, legacy)
      ensures r.Err? ==> unchanged(this)
      ensures r.Ok? ==> !modular
    {
      if !AdminsInLegacy(admins, legacy) {
        return Err("insert or update on table admin_users violates foreign key constraint");
      }
      security, preferences, profiles, roles, users := [], [], [], [], [];
      modular := false;
      return Ok(());
    }
  }

  /** Upgrading, downgrading and upgrading again: the last step fails, for every table. */
  method UpgradeTwice(table: seq<LegacyUser>, admins: seq<Uuid>)
      returns (first: Result<()>, back: Result<()>, again: Result<()>, left: seq<LegacyUser>)
    requires Migratable(table) && AdminsInLegacy(admins, table)
    ensures first.Ok? && back.Ok? && again.Err? && left == table
  {
    var db := new Database(table, admins);
    first := db.Upgrade();
    back := db.Downgrade();
    again := db.Upgrade();
    left := db.legacy;
  }

  /** A user created after the upgrade becomes an admin: the downgrade fails. */
  method DowngradeWithNewAdmin(table: seq<LegacyUser>, newUser: User) returns (back: Result<()>)
    requires Migratable(table) && !HasLegacy(table, newUser.id)
    ensures back.Err?
  {
    var db := new Database(table, []);
    var first := db.Upgrade();
    db.users := db.users + [newUser];
    db.admins := [newUser.id];
    assert db.users[|db.users| - 1] == newUser;
    assert db.admins[0] == newUser.id;
    back := db.Downgrade();
  }

  /** The constraints that migration 002 put on the legacy table. */
  predicate LegacyConstraints(legacy: seq<LegacyUser>) {
    && IdsDistinct(legacy)
    && (forall i, j | 0 <= i < j < |legacy| :: legacy[i].email != legacy[j].email)
    && (forall i | 0 <= i < |legacy| :: legacy[i].isActive.Some? && legacy[i].role.Some?
          && legacy[i].role.value in LEGACY_ROLES && legacy[i].firstName.Some? && legacy[i].lastName.Some?)
  }

  /** A table that migration 002 admits can be migrated exactly when its emails are well formed. */
  lemma {:induction false} OnlyEmailsCanFail(legacy: seq<LegacyUser>)
    requires LegacyConstraints(legacy)
    ensures Migratable(legacy) <==> forall i | 0 <= i < |legacy| :: EmailFormat(legacy[i].email)
  {
    assert LEGACY_ROLES[0] == ROLES[1] && LEGACY_ROLES[1] == ROLES[2];
    assert LEGACY_ROLES[2] == ROLES[3] && LEGACY_ROLES[3] == ROLES[5];
  }

  // ---------- the compatibility view ----------

  /** The rows of `profiles` that a user joins with. */
  function MatchingProfiles(profiles: seq<Profile>, id: Uuid): seq<Profile> {
    if profiles == [] then []
    else
      var p := profiles[|profiles| - 1];
      MatchingProfiles(profiles[..|profiles| - 1], id) + if p.userId == id then [p] else []
  }

  /** The rows of `roles` that a user joins with: `u.id = ur.user_id AND ur.is_active = true`. */
  function MatchingRoles(roles: seq<UserRole>, id: Uuid): seq<UserRole> {
    if roles == [] then []
    else
      var r := roles[|roles| - 1];
      MatchingRoles(roles[..|roles| - 1], id) + if r.userId == id && r.isActive then [r] else []
  }

  /** A left join keeps a row without a partner, next to NULLs. */
  function OrNull<T>(matches: seq<T>): (r: seq<Option<T>>)
    ensures |r| == if matches == [] then 1 else |matches|
  {
    if matches == [] then [None]
    else seq(|matches|, i requires 0 <= i < |matches| => Some(matches[i]))
  }

  function CompatOf(u: User, p: Option<Profile>, r: Option<UserRole>): CompatRow {
    CompatRow(u.id, u.email, u.passwordHash,
              if p.Some? then p.value.firstName else None,
              if p.Some? then p.value.lastName else None,
              if r.Some? then Some(r.value.role) else None,
              u.isActive, u.lastLoginAt, u.failedLoginAttempts, u.createdAt, u.updatedAt)
  }

  function JoinRoles(u: User, p: Option<Profile>, rs: seq<Option<UserRole>>): seq<CompatRow> {
    seq(|rs|, i requires 0 <= i < |rs| => CompatOf(u, p, rs[i]))
  }

  function JoinBoth(u: User, ps: seq<Option<Profile>>, rs: seq<Option<UserRole>>): seq<CompatRow> {
    if ps == [] then [] else JoinBoth(u, ps[..|ps| - 1], rs) + JoinRoles(u, ps[|ps| - 1], rs)
  }

  /** The rows of `users_compat` that come from one user. */
  function RowsOf(u: User, profiles: seq<Profile>, roles: seq<UserRole>): seq<CompatRow> {
    JoinBoth(u, OrNull(MatchingProfiles(profiles, u.id)), OrNull(MatchingRoles(roles, u.id)))
  }

  function UsersCompat(users: seq<User>, profiles: seq<Profile>, roles: seq<UserRole>): seq<CompatRow> {
    if users == [] then []
    else UsersCompat(users[..|users| - 1], profiles, roles) + RowsOf(users[|users| - 1], profiles, roles)
  }

  /** A row of the view, as a row of the table the view stands for. */
  function AsLegacy(row: CompatRow): LegacyUser {
    LegacyUser(row.id, row.email, row.passwordHash, row.firstName, row.lastName, row.role,
               Some(row.isActive), row.lastLoginAt, row.createdAt, row.updatedAt)
  }

  // ---------- the view is a left join ----------

  predicate OwnColumns(row: CompatRow, u: User) {
    && row.id == u.id && row.email == u.email && row.passwordHash == u.passwordHash && row.isActive == u.isActive
    && row.lastLoginAt == u.lastLoginAt && row.failedLoginAttempts == u.failedLoginAttempts
    && row.createdAt == u.createdAt && row.updatedAt == u.updatedAt
  }

  /** The names are those of a profile of the user, or NULL when there is none. */
  ghost predicate NamesFrom(row: CompatRow, profiles: seq<Profile>, id: Uuid) {
    || (exists p <- profiles :: p.userId == id && row.firstName == p.firstName && row.lastName == p.lastName)
    || ((forall p <- profiles :: p.userId != id) && row.firstName.None? && row.lastName.None?)
  }

  /** The role is that of an active role of the user, or NULL when there is none. */
  ghost predicate RoleFrom(row: CompatRow, roles: seq<UserRole>, id: Uuid) {
    || (exists r <- roles :: r.userId == id && r.isActive && row.role == Some(r.role))
    || ((forall r <- roles :: r.userId == id ==> !r.isActive) && row.role.None?)
  }

  ghost predicate JoinedRow(row: CompatRow, u: User, profiles: seq<Profile>, roles: seq<UserRole>) {
    OwnColumns(row, u) && NamesFrom(row, profiles, u.id) && RoleFrom(row, roles, u.id)
  }

  lemma {:induction false} MatchingProfilesAre(profiles: seq<Profile>, id: Uuid)
    ensures forall p :: p in MatchingProfiles(profiles, id) <==> p in profiles && p.userId == id
  {
    if profiles != [] {
      MatchingProfilesAre(profiles[..|profiles| - 1], id);
    }
  }

  lemma {:induction false} MatchingRolesAre(roles: seq<UserRole>, id: Uuid)
    ensures forall r :: r in MatchingRoles(roles, id) <==> r in roles && r.userId == id && r.isActive
  {
    if roles != [] {
      MatchingRolesAre(roles[..|roles| - 1], id);
    }
  }

  lemma {:induction false} OrNullAre<T>(matches: seq<T>, x: Option<T>)
    ensures x in OrNull(matches) <==> if matches == [] then x.None? else x.Some? && x.value in matches
  {
    if matches != [] && x.Some? && x.value in matches {
      var i :| 0 <= i < |matches| && matches[i] == x.value;
      assert OrNull(matches)[i] == x;
    }
  }

  ghost predicate JoinsWith(row: CompatRow, u: User, ps: seq<Option<Profile>>, rs: seq<Option<UserRole>>) {
    exists p, r :: p in ps && r in rs && row == CompatOf(u, p, r)
  }

  lemma {:induction false} JoinRolesAre(row: CompatRow, u: User, p: Option<Profile>, rs: seq<Option<UserRole>>)
    ensures row in JoinRoles(u, p, rs) <==> exists r :: r in rs && row == CompatOf(u, p, r)
  {
    if r :| r in rs && row == CompatOf(u, p, r) {
      var i :| 0 <= i < |rs| && rs[i] == r;
      assert JoinRoles(u, p, rs)[i] == row;
    }
  }

  lemma {:induction false} JoinBothAre(row: CompatRow, u: User, ps: seq<Option<Profile>>, rs: seq<Option<UserRole>>)
    ensures row in JoinBoth(u, ps, rs) <==> JoinsWith(row, u, ps, rs)
  {
    if ps != [] {
      var front, p := ps[..|ps| - 1], ps[|ps| - 1];
      JoinBothAre(row, u, front, rs);
      JoinRolesAre(row, u, p, rs);
      assert ps == front + [p];
    }
  }

  /** The names in a row, given the profiles that match. */
  ghost predicate NamesIn(row: CompatRow, mp: seq<Profile>) {
    if mp == [] then row.firstName.None? && row.lastName.None?
    else exists p <- mp :: row.firstName == p.firstName && row.lastName == p.lastName
  }

  /** The role in a row, given the roles that match. */
  ghost predicate RoleIn(row: CompatRow, mr: seq<UserRole>) {
    if mr == [] then row.role.None? else exists r <- mr :: row.role == Some(r.role)
  }

  lemma {:induction false} NamesAre(row: CompatRow, profiles: seq<Profile>, id: Uuid, mp: seq<Profile>)
    requires forall p :: p in mp <==> p in profiles && p.userId == id
    ensures NamesIn(row, mp) <==> NamesFrom(row, profiles, id)
  {
    if mp != [] {
      assert mp[0] in mp;
    }
  }

  lemma {:induction false} RoleIs(row: CompatRow, roles: seq<UserRole>, id: Uuid, mr: seq<UserRole>)
    requires forall r :: r in mr <==> r in roles && r.userId == id && r.isActive
    ensures RoleIn(row, mr) <==> RoleFrom(row, roles, id)
  {
    if mr != [] {
      assert mr[0] in mr;
    }
  }

  lemma {:induction false} JoinPartsAre(row: CompatRow, u: User, mp: seq<Profile>, mr: seq<UserRole>)
    ensures JoinsWith(row, u, OrNull(mp), OrNull(mr)) <==> OwnColumns(row, u) && NamesIn(row, mp) && RoleIn(row, mr)
  {
    if JoinsWith(row, u, OrNull(mp), OrNull(mr)) {
      var p, r :| p in OrNull(mp) && r in OrNull(mr) && row == CompatOf(u, p, r);
      OrNullAre(mp, p);
      OrNullAre(mr, r);
    }
    if OwnColumns(row, u) && NamesIn(row, mp) && RoleIn(row, mr) {
      var p := if mp == [] then None
               else var q :| q in mp && row.firstName == q.firstName && row.lastName == q.lastName; Some(q);
      var r := if mr == [] then None else var q :| q in mr && row.role == Some(q.role); Some(q);
      OrNullAre(mp, p);
      OrNullAre(mr, r);
      assert row == CompatOf(u, p, r);
    }
  }

  lemma {:induction false} RowsOfAre(row: CompatRow, u: User, profiles: seq<Profile>, roles: seq<UserRole>)
    ensures row in RowsOf(u, profiles, roles) <==> JoinedRow(row, u, profiles, roles)
  {
    var mp, mr := MatchingProfiles(profiles, u.id), MatchingRoles(roles, u.id);
    MatchingProfilesAre(profiles, u.id);
    MatchingRolesAre(roles, u.id);
    JoinBothAre(row, u, OrNull(mp), OrNull(mr));
    JoinPartsAre(row, u, mp, mr);
    NamesAre(row, profiles, u.id, mp);
    RoleIs(row, roles, u.id, mr);
  }

  ghost predicate JoinedFrom(row: CompatRow, users: seq<User>, profiles: seq<Profile>, roles: seq<UserRole>) {
    exists u <- users :: JoinedRow(row, u, profiles, roles)
  }

  lemma {:induction false} JoinedFromLast(row: CompatRow, front: seq<User>, u: User, profiles: seq<Profile>,
                                          roles: seq<UserRole>)
    ensures JoinedFrom(row, front + [u], profiles, roles)
       <==> JoinedFrom(row, front, profiles, roles) || JoinedRow(row, u, profiles, roles)
  {
    assert forall v :: v in front + [u] <==> v in front || v == u;
  }

  lemma {:induction false} CompatOfLast(row: CompatRow, users: seq<User>, front: seq<User>, u: User,
                                        profiles: seq<Profile>, roles: seq<UserRole>)
    requires users == front + [u]
    ensures row in UsersCompat(users, profiles, roles)
       <==> row in UsersCompat(front, profiles, roles) || row in RowsOf(u, profiles, roles)
  {
    assert users[..|users| - 1] == front;
  }

  /** The view's rows, duplicates aside: each user next to the names of each of its profiles and each of
      its active roles, with NULL where there is no such row. */
  lemma {:induction false} ViewIsLeftJoin(users: seq<User>, profiles: seq<Profile>, roles: seq<UserRole>,
                                          row: CompatRow)
    ensures row in UsersCompat(users, profiles, roles) <==> JoinedFrom(row, users, profiles, roles)
  {
    if users != [] {
      var front, u := users[..|users| - 1], users[|users| - 1];
      assert users == front + [u];
      CompatOfLast(row, users, front, u, profiles, roles);
      ViewIsLeftJoin(front, profiles, roles, row);
      RowsOfAre(row, u, profiles, roles);
      JoinedFromLast(row, front, u, profiles, roles);
    }
  }

  lemma {:induction false} MatchingProfilesAppend(rows: seq<Profile>, row: Profile, id: Uuid)
    ensures MatchingProfiles(rows + [row], id)
         == MatchingProfiles(rows, id) + if row.userId == id then [row] else []
  {
    assert (rows + [row])[..|rows|] == rows;
  }

  lemma {:induction false} MatchingProfileRows(rows: seq<Profile>, u: LegacyUser, id: Uuid)
    ensures MatchingProfiles(rows + ProfileRows(u), id)
         == MatchingProfiles(rows, id) + if u.id == id then ProfileRows(u) else []
  {
    if ProfileRows(u) == [] {
      assert rows + [] == rows;
    } else {
      MatchingProfilesAppend(rows, ToProfile(u), id);
    }
  }

  lemma {:induction false} OneMoreProfile(front: seq<LegacyUser>, u: LegacyUser, id: Uuid)
    ensures MatchingProfiles(ToProfiles(front + [u]), id)
         == MatchingProfiles(ToProfiles(front), id) + if u.id == id then ProfileRows(u) else []
  {
    assert (front + [u])[..|front|] == front;
    MatchingProfileRows(ToProfiles(front), u, id);
  }

  lemma {:induction false} NoProfile(legacy: seq<LegacyUser>, id: Uuid)
    requires forall i | 0 <= i < |legacy| :: legacy[i].id != id
    ensures MatchingProfiles(ToProfiles(legacy), id) == []
  {
    if |legacy| > 0 {
      var front, u := legacy[..|legacy| - 1], legacy[|legacy| - 1];
      assert legacy == front + [u];
      NoProfile(front, id);
      OneMoreProfile(front, u, id);
    }
  }

  lemma {:induction false} LastProfile(front: seq<LegacyUser>, u: LegacyUser)
    requires forall i | 0 <= i < |front| :: front[i].id != u.id
    ensures MatchingProfiles(ToProfiles(front + [u]), u.id) == ProfileRows(u)
  {
    OneMoreProfile(front, u, u.id);
    NoProfile(front, u.id);
  }

  lemma {:induction false} EarlierProfile(front: seq<LegacyUser>, last: LegacyUser, u: LegacyUser)
    requires MatchingProfiles(ToProfiles(front), u.id) == ProfileRows(u) && last.id != u.id
    ensures MatchingProfiles(ToProfiles(front + [last]), u.id) == ProfileRows(u)
  {
    OneMoreProfile(front, last, u.id);
  }

  lemma {:induction false} OwnProfile(legacy: seq<LegacyUser>, i: nat, u: LegacyUser)
    requires IdsDistinct(legacy) && i < |legacy| && u == legacy[i]
    ensures MatchingProfiles(ToProfiles(legacy), u.id) == ProfileRows(u)
  {
    var front, last := legacy[..|legacy| - 1], legacy[|legacy| - 1];
    assert legacy == front + [last];
    if i < |front| {
      OwnProfile(front, i, u);
      EarlierProfile(front, last, u);
    } else {
      LastProfile(front, u);
    }
  }

  lemma {:induction false} MatchingRolesAppend(rows: seq<UserRole>, row: UserRole, id: Uuid)
    ensures MatchingRoles(rows + [row], id)
         == MatchingRoles(rows, id) + if row.userId == id && row.isActive then [row] else []
  {
    assert (rows + [row])[..|rows|] == rows;
  }

  lemma {:induction false} MatchingRoleRows(rows: seq<UserRole>, u: LegacyUser, id: Uuid)
    ensures MatchingRoles(rows + RoleRows(u), id)
         == MatchingRoles(rows, id) + if u.id == id then RoleRows(u) else []
  {
    if RoleRows(u) == [] {
      assert rows + [] == rows;
    } else {
      MatchingRolesAppend(rows, ToRole(u), id);
    }
  }

  lemma {:induction false} OneMoreRole(front: seq<LegacyUser>, u: LegacyUser, id: Uuid)
    ensures MatchingRoles(ToRoles(front + [u]), id)
         == MatchingRoles(ToRoles(front), id) + if u.id == id then RoleRows(u) else []
  {
    assert (front + [u])[..|front|] == front;
    MatchingRoleRows(ToRoles(front), u, id);
  }

  lemma {:induction false} NoRole(legacy: seq<LegacyUser>, id: Uuid)
    requires forall i | 0 <= i < |legacy| :: legacy[i].id != id
    ensures MatchingRoles(ToRoles(legacy), id) == []
  {
    if |legacy| > 0 {
      var front, u := legacy[..|legacy| - 1], legacy[|legacy| - 1];
      assert legacy == front + [u];
      NoRole(front, id);
      OneMoreRole(front, u, id);
    }
  }

  lemma {:induction false} LastRole(front: seq<LegacyUser>, u: LegacyUser)
    requires forall i | 0 <= i < |front| :: front[i].id != u.id
    ensures MatchingRoles(ToRoles(front + [u]), u.id) == RoleRows(u)
  {
    OneMoreRole(front, u, u.id);
    NoRole(front, u.id);
  }

  lemma {:induction false} EarlierRole(front: seq<LegacyUser>, last: LegacyUser, u: LegacyUser)
    requires MatchingRoles(ToRoles(front), u.id) == RoleRows(u) && last.id != u.id
    ensures MatchingRoles(ToRoles(front + [last]), u.id) == RoleRows(u)
  {
    OneMoreRole(front, last, u.id);
  }

  lemma {:induction false} OwnRole(legacy: seq<LegacyUser>, i: nat, u: LegacyUser)
    requires IdsDistinct(legacy) && i < |legacy| && u == legacy[i]
    ensures MatchingRoles(ToRoles(legacy), u.id) == RoleRows(u)
  {
    var front, last := legacy[..|legacy| - 1], legacy[|legacy| - 1];
    assert legacy == front + [last];
    if i < |front| {
      OwnRole(front, i, u);
      EarlierRole(front, last, u);
    } else {
      LastRole(front, u);
    }
  }

  /** The first `n` rows of the view are the first `n` legacy rows, without failed logins. */
  ghost predicate Faithful(view: seq<CompatRow>, legacy: seq<LegacyUser>, n: nat)
    requires n <= |legacy|
  {
    |view| == n && forall i | 0 <= i < n :: AsLegacy(view[i]) == legacy[i] && view[i].failedLoginAttempts == 0
  }

  lemma {:induction false} RowOfUser(u: LegacyUser, profiles: seq<Profile>, roles: seq<UserRole>)
    requires u.isActive.Some?
    requires MatchingProfiles(profiles, u.id) == ProfileRows(u) && MatchingRoles(roles, u.id) == RoleRows(u)
    ensures Faithful(RowsOf(ToUser(u), profiles, roles), [u], 1)
  {
    var ps, rs := OrNull(ProfileRows(u)), OrNull(RoleRows(u));
    assert ps[..0] == [] && JoinBoth(ToUser(u), ps, rs) == JoinRoles(ToUser(u), ps[0], rs);
  }

  lemma {:induction false} RowOfLegacy(legacy: seq<LegacyUser>, i: nat)
    requires ActivityKnown(legacy) && IdsDistinct(legacy) && i < |legacy|
    ensures Faithful(RowsOf(ToUser(legacy[i]), ToProfiles(legacy), ToRoles(legacy)), [legacy[i]], 1)
  {
    OwnProfile(legacy, i, legacy[i]);
    OwnRole(legacy, i, legacy[i]);
    RowOfUser(legacy[i], ToProfiles(legacy), ToRoles(legacy));
  }

  ghost predicate RowFaithful(u: User, profiles: seq<Profile>, roles: seq<UserRole>, legacy: LegacyUser) {
    Faithful(RowsOf(u, profiles, roles), [legacy], 1)
  }

  lemma {:induction false} ViewOfFaithfulRows(users: seq<User>, profiles: seq<Profile>, roles: seq<UserRole>,
                                              legacy: seq<LegacyUser>)
    requires |users| == |legacy|
    requires forall i | 0 <= i < |users| :: RowFaithful(users[i], profiles, roles, legacy[i])
    ensures Faithful(UsersCompat(users, profiles, roles), legacy, |legacy|)
  {
    if users != [] {
      var n := |users| - 1;
      ViewOfFaithfulRows(users[..n], profiles, roles, legacy[..n]);
      FaithfulAppend(UsersCompat(users[..n], profiles, roles), RowsOf(users[n], profiles, roles), legacy, n);
    }
  }

  lemma {:induction false} FaithfulAppend(view: seq<CompatRow>, rows: seq<CompatRow>, legacy: seq<LegacyUser>, n: nat)
    requires n + 1 == |legacy| && Faithful(view, legacy[..n], n) && Faithful(rows, [legacy[n]], 1)
    ensures Faithful(view + rows, legacy, n + 1)
  {
    forall i | 0 <= i < n
      ensures AsLegacy(view[i]) == legacy[i]
    {
      assert legacy[..n][i] == legacy[i];
    }
  }

  /** Round trip: after the upgrade the view has exactly one row per legacy user, in order, with the
      ten original columns, and no failed logins. */
  lemma {:induction false} MigrationRoundTrip(legacy: seq<LegacyUser>)
    requires Migratable(legacy)
    ensures Faithful(UsersCompat(ToUsers(legacy), ToProfiles(legacy), ToRoles(legacy)), legacy, |legacy|)
  {
    forall i | 0 <= i < |legacy|
      ensures RowFaithful(ToUsers(legacy)[i], ToProfiles(legacy), ToRoles(legacy), legacy[i])
    {
      RowOfLegacy(legacy, i);
    }
    ViewOfFaithfulRows(ToUsers(legacy), ToProfiles(legacy), ToRoles(legacy), legacy);
  }

  // ---------- the view in any later state ----------

  function RowsWithId(view: seq<CompatRow>, id: Uuid): nat {
    if view == [] then 0
    else RowsWithId(view[..|view| - 1], id) + if view[|view| - 1].id == id then 1 else 0
  }

  lemma {:induction false} RowsWithIdOfConcat(a: seq<CompatRow>, b: seq<CompatRow>, id: Uuid)
    ensures RowsWithId(a + b, id) == RowsWithId(a, id) + RowsWithId(b, id)
  {
    if b == [] {
      assert a + b == a;
    } else {
      RowsWithIdOfConcat(a, b[..|b| - 1], id);
      assert (a + b)[..|a + b| - 1] == a + b[..|b| - 1];
    }
  }

  lemma {:induction false} RowsOfOneId(rows: seq<CompatRow>, owner: Uuid, id: Uuid)
    requires forall i | 0 <= i < |rows| :: rows[i].id == owner
    ensures RowsWithId(rows, id) == if owner == id then |rows| else 0
  {
    if rows != [] {
      RowsOfOneId(rows[..|rows| - 1], owner, id);
    }
  }

  lemma {:induction false} AtMostOneProfile(profiles: seq<Profile>, id: Uuid)
    requires forall i, j | 0 <= i < j < |profiles| :: profiles[i].userId != profiles[j].userId
    ensures |MatchingProfiles(profiles, id)| <= 1
    ensures |MatchingProfiles(profiles, id)| == 1 <==> exists i | 0 <= i < |profiles| :: profiles[i].userId == id
  {
    if profiles != [] {
      AtMostOneProfile(profiles[..|profiles| - 1], id);
    }
  }

  lemma {:induction false} RowsOfUser(u: User, profiles: seq<Profile>, roles: seq<UserRole>)
    requires forall i, j | 0 <= i < j < |profiles| :: profiles[i].userId != profiles[j].userId
    ensures var rows, k := RowsOf(u, profiles, roles), |MatchingRoles(roles, u.id)|;
      |rows| == (if k == 0 then 1 else k) && forall i | 0 <= i < |rows| :: rows[i].id == u.id
  {
    AtMostOneProfile(profiles, u.id);
    var ps := OrNull(MatchingProfiles(profiles, u.id));
    var rs := OrNull(MatchingRoles(roles, u.id));
    assert ps[..0] == [] && JoinBoth(u, ps, rs) == JoinRoles(u, ps[0], rs);
  }

  /** In any state that satisfies the keys, a user with `k` active roles has `max(1, k)` rows
      in the view, and an unknown id has none. */
  lemma {:induction false} RowsPerUser(users: seq<User>, profiles: seq<Profile>, roles: seq<UserRole>, id: Uuid)
    requires forall i, j | 0 <= i < j < |users| :: users[i].id != users[j].id
    requires forall i, j | 0 <= i < j < |profiles| :: profiles[i].userId != profiles[j].userId
    ensures var k := |MatchingRoles(roles, id)|;
      RowsWithId(UsersCompat(users, profiles, roles), id)
      == if !HasUser(users, id) then 0 else if k == 0 then 1 else k
  {
    if users != [] {
      var front, u := users[..|users| - 1], users[|users| - 1];
      RowsPerUser(front, profiles, roles, id);
      RowsOfUser(u, profiles, roles);
      RowsOfOneId(RowsOf(u, profiles, roles), u.id, id);
      RowsWithIdOfConcat(UsersCompat(front, profiles, roles), RowsOf(u, profiles, roles), id);
      HasUserOfFront(users, id);
    }
  }

  lemma {:induction false} HasUserOfFront(users: seq<User>, id: Uuid)
    requires users != [] && forall i, j | 0 <= i < j < |users| :: users[i].id != users[j].id
    ensures HasUser(users, id) <==> HasUser(users[..|users| - 1], id) || users[|users| - 1].id == id
    ensures HasUser(users[..|users| - 1], id) ==> users[|users| - 1].id != id
  {
    var front := users[..|users| - 1];
    assert forall i | 0 <= i < |front| :: front[i] == users[i];
  }

  /** The view stands for a table with one row per user exactly as long as nobody holds two active roles. */
  lemma {:induction false} OneRowPerUserIff(users: seq<User>, profiles: seq<Profile>, roles: seq<UserRole>)
    requires forall i, j | 0 <= i < j < |users| :: users[i].id != users[j].id
    requires forall i, j | 0 <= i < j < |profiles| :: profiles[i].userId != profiles[j].userId
    ensures (forall i | 0 <= i < |users| :: RowsWithId(UsersCompat(users, profiles, roles), users[i].id) == 1)
       <==> (forall i | 0 <= i < |users| :: |MatchingRoles(roles, users[i].id)| <= 1)
  {
    forall i | 0 <= i < |users|
      ensures RowsWithId(UsersCompat(users, profiles, roles), users[i].id) == 1
         <==> |MatchingRoles(roles, users[i].id)| <= 1
    {
      RowsPerUser(users, profiles, roles, users[i].id);
      assert HasUser(users, users[i].id);
    }
  }

  lemma {:induction false} SomeEmail(email: string)
    requires email == "a@b.co"
    ensures EmailFormat(email)
  {
    assert email[0] == 'a' && email[1] == '@' && email[2] == 'b' && email[3] == '.';
    assert email[4] == 'c' && email[5] == 'o';
    assert Letter('a') && Letter('b') && Letter('c') && Letter('o');
    assert EmailSplitsAt(email, 1, 3);
  }

  lemma {:induction false} OneUserIsValid(u: User)
    requires u.email == "a@b.co" && u.authProvider == "local"
    ensures UsersValid([u]) && HasUser([u], u.id)
  {
    SomeEmail(u.email);
    assert [u][0] == u && AUTH_PROVIDERS[0] == "local";
  }

  lemma {:induction false} TwoRolesMatch(agent: UserRole, underwriter: UserRole, u: User)
    requires agent == UserRole(u.id, "agent", 0, true) && underwriter == UserRole(u.id, "underwriter", 0, true)
    requires HasUser([u], u.id)
    ensures RolesValid([u], [agent, underwriter])
    ensures |MatchingRoles([agent, underwriter], u.id)| == 2
  {
    assert ROLES[1] == "agent" && ROLES[2] == "underwriter";
    assert "agent"[0] != "underwriter"[0];
    MatchingRolesAppend([], agent, u.id);
    MatchingRolesAppend([agent], underwriter, u.id);
    assert [] + [agent] == [agent] && [agent] + [underwriter] == [agent, underwriter];
  }

  /** A state that satisfies all keys, in which one user holds two active roles and has two rows. */
  lemma {:induction false} TwoActiveRoles() returns (users: seq<User>, profiles: seq<Profile>, roles: seq<UserRole>)
    ensures UsersValid(users) && ProfilesValid(users, profiles) && RolesValid(users, roles)
    ensures |users| == 1 && RowsWithId(UsersCompat(users, profiles, roles), users[0].id) == 2
  {
    var u := User(1, "a@b.co", None, "local", None, true, true, false, 0, None, 0, 0);
    users, profiles := [u], [];
    roles := [UserRole(1, "agent", 0, true), UserRole(1, "underwriter", 0, true)];
    OneUserIsValid(u);
    TwoRolesMatch(roles[0], roles[1], u);
    RowsPerUser(users, profiles, roles, 1);
  }
}
