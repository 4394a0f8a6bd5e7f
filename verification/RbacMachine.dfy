/** The RBAC services as one state machine over the tables and the cache, one
    service call a step. */
module RbacMachine {
  import opened Prelude
  import opened RbacTables

  /** Cache entries are keyed by (tenantId, userId).  `issued` are the ids the
      database has ever handed out. */
  datatype State = State(
    db: Db,
    perms: map<(Id, Id), Entry<seq<Requirement>>>,
    names: map<(Id, Id), Entry<seq<string>>>,
    issued: set<Id>,
    now: int,
    ttl: nat)

  datatype Outcome = Done | NotFound | SystemRole | ConstraintViolation

  // ----- Table updates -----

  function Without(ids: seq<Id>, id: Id): (r: seq<Id>)
    ensures id !in r
    ensures forall x :: x != id ==> (x in r <==> x in ids)
    ensures NoDuplicates(ids) ==> NoDuplicates(r)
  {
    if ids == [] then []
    else
      assert forall x :: x in ids <==> x == ids[0] || x in ids[1..];
      assert NoDuplicates(ids) ==> ids[0] !in ids[1..] && NoDuplicates(ids[1..]);
      (if ids[0] == id then [] else [ids[0]]) + Without(ids[1..], id)
  }

  function SetRoles(db: Db, userId: Id, roleIds: seq<Id>): Db
    requires userId in db.users
  {
    db.(users := db.users[userId := db.users[userId].(roleIds := roleIds)])
  }

  /** Deleting a role cascades to the join rows. */
  function DropRole(db: Db, roleId: Id): Db {
    db.(roles := db.roles - {roleId},
        users := map u | u in db.users :: db.users[u].(roleIds := Without(db.users[u].roleIds, roleId)))
  }

  function DropUser(db: Db, userId: Id): Db {
    db.(users := db.users - {userId})
  }

  /** Deleting a tenant cascades to its users and roles. */
  function DropTenant(db: Db, tenantId: Id): Db {
    db.(tenants := db.tenants - {tenantId},
        users := map u | u in db.users && db.users[u].tenantId != tenantId :: db.users[u],
        roles := map r | r in db.roles && db.roles[r].tenantId != tenantId :: db.roles[r])
  }

  // ----- RbacService -----

  function GetUserPermissions(s: State, userId: Id, tenantId: Id): (State, seq<Requirement>) {
    match Lookup(s.perms, (tenantId, userId), s.now)
    case Some(cached) => (s, cached)
    case None =>
      match QueryPermissions(s.db, userId, tenantId)
      case None => (s, [])
      case Some(list) => (s.(perms := s.perms[(tenantId, userId) := Entry(list, s.now + s.ttl)]), list)
  }

  function GetUserRoleNames(s: State, userId: Id, tenantId: Id): (State, seq<string>) {
    match Lookup(s.names, (tenantId, userId), s.now)
    case Some(cached) => (s, cached)
    case None =>
      match QueryNames(s.db, userId, tenantId)
      case None => (s, [])
      case Some(list) => (s.(names := s.names[(tenantId, userId) := Entry(list, s.now + s.ttl)]), list)
  }

  function Invalidate(s: State, userId: Id, tenantId: Id): State {
    s.(perms := s.perms - {(tenantId, userId)}, names := s.names - {(tenantId, userId)})
  }

  predicate HasRoleRow(db: Db, roleId: Id, tenantId: Id) {
    roleId in db.roles && db.roles[roleId].tenantId == tenantId
  }

  function AssignRole(s: State, userId: Id, roleId: Id, tenantId: Id): (State, Outcome) {
    if !HasUser(s.db, userId, tenantId) || !HasRoleRow(s.db, roleId, tenantId) then (s, NotFound)
    else
      var held := s.db.users[userId].roleIds;
      if roleId in held then (s, Done)
      else (Invalidate(s.(db := SetRoles(s.db, userId, held + [roleId])), userId, tenantId), Done)
  }

  function RemoveRole(s: State, userId: Id, roleId: Id, tenantId: Id): (State, Outcome) {
    if !HasUser(s.db, userId, tenantId) then (s, NotFound)
    else
      var kept := Without(s.db.users[userId].roleIds, roleId);
      (Invalidate(s.(db := SetRoles(s.db, userId, kept)), userId, tenantId), Done)
  }

  /** `found` is what `findByIds` returned: the requested rows that exist, in some order. */
  ghost predicate FindsByIds(permissions: map<Id, Permission>, requested: seq<Id>, found: seq<Id>) {
    NoDuplicates(found) && forall id :: id in found <==> id in requested && id in permissions
  }

  function InsertRole(s: State, id: Id, role: Role): (State, Outcome) {
    if role.tenantId !in s.db.tenants then (s, ConstraintViolation)
    else (s.(db := s.db.(roles := s.db.roles[id := role]), issued := s.issued + {id}), Done)
  }

  function CreateRole(s: State, tenantId: Id, name: string, found: seq<Id>, newId: Id): (State, Outcome) {
    InsertRole(s, newId, Role(tenantId, name, false, found))
  }

  /** Deliberately without any invalidation. */
  function DeleteRole(s: State, roleId: Id, tenantId: Id): (State, Outcome) {
    if !HasRoleRow(s.db, roleId, tenantId) then (s, NotFound)
    else if s.db.roles[roleId].isSystem then (s, SystemRole)
    else (s.(db := DropRole(s.db, roleId)), Done)
  }

  // ----- OnboardingService -----

  datatype DefaultRole = DefaultRole(name: string, patterns: seq<string>)

  const DEFAULT_ROLES: seq<DefaultRole> := [
    DefaultRole("admin", ["*:*"]),
    DefaultRole("member", ["users:read", "api-keys:read", "api-keys:create"]),
    DefaultRole("viewer", ["users:read"])]

  /** `listed` is the result of reading the active permissions: each once, in some order. */
  ghost predicate ListsActive(permissions: map<Id, Permission>, listed: seq<Id>) {
    NoDuplicates(listed) && forall id :: id in listed <==> id in permissions && permissions[id].isActive
  }

  predicate Matches(p: Permission, patterns: seq<string>) {
    p.resource + ":" + p.action in patterns || "*:*" in patterns
  }

  function Matching(permissions: map<Id, Permission>, listed: seq<Id>, patterns: seq<string>): (r: seq<Id>)
    requires forall id :: id in listed ==> id in permissions
    ensures forall id :: id in r <==> id in listed && Matches(permissions[id], patterns)
  {
    if listed == [] then []
    else
      assert forall x :: x in listed <==> x == listed[0] || x in listed[1..];
      (if Matches(permissions[listed[0]], patterns) then [listed[0]] else []) +
      Matching(permissions, listed[1..], patterns)
  }

  function DefaultRow(permissions: map<Id, Permission>, tenantId: Id, listed: seq<Id>, d: DefaultRole): Role
    requires forall id :: id in listed ==> id in permissions
  {
    Role(tenantId, d.name, true, Matching(permissions, listed, d.patterns))
  }

  predicate TenantHasRoles(db: Db, tenantId: Id) {
    exists r :: r in db.roles && db.roles[r].tenantId == tenantId
  }

  /** The default roles from the first `n` on already saved. */
  function SaveDefaults(s: State, tenantId: Id, listed: seq<Id>, newIds: seq<Id>, n: nat): State
    requires n <= |DEFAULT_ROLES| <= |newIds|
    requires forall id :: id in listed ==> id in s.db.permissions
  {
    if n == 0 then s
    else
      var before := SaveDefaults(s, tenantId, listed, newIds, n - 1);
      InsertRole(before, newIds[n - 1], DefaultRow(s.db.permissions, tenantId, listed, DEFAULT_ROLES[n - 1])).0
  }

  function InitializeTenant(s: State, tenantId: Id, listed: seq<Id>, newIds: seq<Id>): State
    requires |DEFAULT_ROLES| <= |newIds|
    requires forall id :: id in listed ==> id in s.db.permissions
  {
    if TenantHasRoles(s.db, tenantId) then s else SaveDefaults(s, tenantId, listed, newIds, |DEFAULT_ROLES|)
  }

  // ----- Runs -----

  datatype Op =
    | ReadPermissions(userId: Id, tenantId: Id)
    | ReadNames(userId: Id, tenantId: Id)
    | Assign(userId: Id, roleId: Id, tenantId: Id)
    | Remove(userId: Id, roleId: Id, tenantId: Id)
    | NewRole(tenantId: Id, name: string, requested: seq<Id>, found: seq<Id>, newId: Id)
    | RemoveRoleRow(roleId: Id, tenantId: Id)
    | Onboard(tenantId: Id, listed: seq<Id>, newIds: seq<Id>)
    | NewTenant(newId: Id)
    | RemoveTenant(tenantId: Id)
    | NewUser(tenantId: Id, newId: Id)
    | RemoveUser(userId: Id, tenantId: Id)
    | EvictPermissions(userId: Id, tenantId: Id)
    | EvictNames(userId: Id, tenantId: Id)
    | Tick(elapsed: nat)
  {
    predicate Deletes() {
      RemoveRoleRow? || RemoveTenant? || RemoveUser?
    }
  }

  ghost predicate Enabled(s: State, op: Op) {
    match op
    case NewRole(_, _, requested, found, newId) =>
      newId !in s.issued && FindsByIds(s.db.permissions, requested, found)
    case Onboard(_, listed, newIds) =>
      |newIds| == |DEFAULT_ROLES| && NoDuplicates(newIds) && (forall id :: id in newIds ==> id !in s.issued) &&
      ListsActive(s.db.permissions, listed)
    case NewTenant(newId) => newId !in s.issued
    case NewUser(_, newId) => newId !in s.issued
    case _ => true
  }

  ghost function Step(s: State, op: Op): State
    requires Enabled(s, op)
  {
    match op
    case ReadPermissions(u, t) => GetUserPermissions(s, u, t).0
    case ReadNames(u, t) => GetUserRoleNames(s, u, t).0
    case Assign(u, r, t) => AssignRole(s, u, r, t).0
    case Remove(u, r, t) => RemoveRole(s, u, r, t).0
    case NewRole(t, name, _, found, newId) => CreateRole(s, t, name, found, newId).0
    case RemoveRoleRow(r, t) => DeleteRole(s, r, t).0
    case Onboard(t, listed, newIds) => InitializeTenant(s, t, listed, newIds)
    case NewTenant(newId) => s.(db := s.db.(tenants := s.db.tenants + {newId}), issued := s.issued + {newId})
    case RemoveTenant(t) => s.(db := DropTenant(s.db, t))
    case NewUser(t, newId) =>
      if t !in s.db.tenants then s
      else s.(db := s.db.(users := s.db.users[newId := User(t, [])]), issued := s.issued + {newId})
    case RemoveUser(u, t) => if HasUser(s.db, u, t) then s.(db := DropUser(s.db, u)) else s
    case EvictPermissions(u, t) => s.(perms := s.perms - {(t, u)})
    case EvictNames(u, t) => s.(names := s.names - {(t, u)})
    case Tick(elapsed) => s.(now := s.now + elapsed)
  }

  ghost predicate ValidRun(s: State, ops: seq<Op>)
    decreases |ops|
  {
    ops == [] || (Enabled(s, ops[0]) && ValidRun(Step(s, ops[0]), ops[1..]))
  }

  ghost function Run(s: State, ops: seq<Op>): State
    requires ValidRun(s, ops)
    decreases |ops|
  {
    if ops == [] then s else Run(Step(s, ops[0]), ops[1..])
  }

  /** An empty gateway over some permission table. */
  ghost predicate Initial(s: State) {
    s.db.users == map[] && s.db.roles == map[] && s.db.tenants == {} && s.perms == map[] && s.names == map[] &&
    s.issued == {} && CollisionFreeTable(s.db.permissions)
  }

  // ----- Invariants -----

  /** Each user's roles exist, belong to the user's tenant and are held once. */
  ghost predicate TablesSound(s: State) {
    && s.db.tenants <= s.issued && s.db.users.Keys <= s.issued && s.db.roles.Keys <= s.issued
    && (forall r :: r in s.db.roles ==> s.db.roles[r].tenantId in s.db.tenants)
    && (forall u :: u in s.db.users ==>
          s.db.users[u].tenantId in s.db.tenants && NoDuplicates(s.db.users[u].roleIds))
    && (forall u, r :: u in s.db.users && r in s.db.users[u].roleIds ==>
          r in s.db.roles && s.db.roles[r].tenantId == s.db.users[u].tenantId)
  }

  ghost predicate WellFormed(s: State) {
    TablesSound(s) && CollisionFreeTable(s.db.permissions)
  }

  /** The tables of `db'` grant no more than those of `db` to user `u`. */
  ghost predicate GrantsNoMore(db: Db, db': Db, t: Id, u: Id) {
    && (forall r :: Grants(db', u, t, r) ==> Grants(db, u, t, r))
    && (forall n :: HoldsRole(db', u, t, n) ==> HoldsRole(db, u, t, n))
  }

  ghost predicate Filed(s: State, k: (Id, Id)) {
    k.1 in s.issued && (k.1 in s.db.users ==> s.db.users[k.1].tenantId == k.0)
  }

  /** What is cached for a user is at least what the tables grant. */
  ghost predicate Covers(s: State) {
    && (forall k :: k in s.perms ==> Filed(s, k) && forall r :: Grants(s.db, k.1, k.0, r) ==> r in s.perms[k].value)
    && (forall k :: k in s.names ==> Filed(s, k) && forall n :: HoldsRole(s.db, k.1, k.0, n) ==> n in s.names[k].value)
  }

  /** What is cached for a user is what the tables answer. */
  ghost predicate Coherent(s: State) {
    && (forall k :: k in s.perms ==> QueryPermissions(s.db, k.1, k.0) == Some(s.perms[k].value))
    && (forall k :: k in s.names ==> QueryNames(s.db, k.1, k.0) == Some(s.names[k].value))
  }
}
