/** What each RBAC call answers and writes, told from the rows before it alone, and what a role
    made and given to a user lets that user do. */
module RbacCalls {
  import opened Prelude
  import opened RbacTables
  import opened RbacMachine
  import opened RbacRuns
  import opened RbacGuard
  import Onboarding

  // ----- Rows -----

  /** Some active permission row has this pair. */
  ghost predicate PairActive(permissions: map<Id, Permission>, r: Requirement) {
    exists id :: id in permissions && permissions[id] == Permission(r.resource, r.action, true)
  }

  /** One of the ids asked for names an active permission row with this pair. */
  ghost predicate PairRequested(permissions: map<Id, Permission>, requested: seq<Id>, r: Requirement) {
    exists id :: id in requested && id in permissions && permissions[id] == Permission(r.resource, r.action, true)
  }

  ghost predicate OnlyRole(db: Db, db': Db, id: Id) {
    db' == db.(roles := db'.roles) && db'.roles.Keys == db.roles.Keys + {id} &&
    forall r :: r in db.roles && r != id ==> db'.roles[r] == db.roles[r]
  }

  /** Taking an id out of a list is taking it out of its parts, so the others keep their order. */
  lemma {:induction false} WithoutIsFilter(a: seq<Id>, b: seq<Id>, id: Id)
    ensures Without(a + b, id) == Without(a, id) + Without(b, id)
  {
    if a == [] {
      assert a + b == b;
    } else {
      assert (a + b)[1..] == a[1..] + b;
      WithoutIsFilter(a[1..], b, id);
    }
  }

  lemma WithoutOne(x: Id, id: Id)
    ensures Without([], id) == [] && Without([x], id) == if x == id then [] else [x]
  {
    assert [x][1..] == [];
  }

  // ----- createRole -----

  /** A new role needs its tenant and nothing else.  It has the name and tenant given, is no
      system role, grants a pair exactly if one of the ids asked for names an active permission
      with it, and changes no other role, no user and no cache entry. */
  lemma NewRoleMeans(s: State, t: Id, name: string, requested: seq<Id>, found: seq<Id>, newId: Id, r: Requirement)
    requires newId !in s.db.roles && FindsByIds(s.db.permissions, requested, found)
    ensures var (s', outcome) := CreateRole(s, t, name, found, newId);
            if t !in s.db.tenants then s' == s && outcome.ConstraintViolation?
            else
              && outcome.Done? && newId in s'.db.roles && OnlyRole(s.db, s'.db, newId)
              && s' == s.(db := s'.db, issued := s.issued + {newId})
              && var role := s'.db.roles[newId];
                 && role.tenantId == t && role.name == name && !role.isSystem
                 && (RoleGrants(s'.db, newId, r) <==> PairRequested(s.db.permissions, requested, r))
  {
    var s' := CreateRole(s, t, name, found, newId).0;
    if t in s.db.tenants {
      assert s'.db.roles[newId].permissionIds == found;
    }
  }

  /** A read for a user whose entries are gone is answered from the tables. */
  lemma MissExact(s: State, u: Id, t: Id)
    requires CollisionFreeTable(s.db.permissions) && HasUser(s.db, u, t)
    requires (t, u) !in s.perms && (t, u) !in s.names
    ensures forall r :: r in GetUserPermissions(s, u, t).1 <==> Grants(s.db, u, t, r)
    ensures forall name :: name in GetUserRoleNames(s, u, t).1 <==> HoldsRole(s.db, u, t, name)
  {
    QueryPermissionsExact(s.db, u, t);
    QueryNamesExact(s.db, u, t);
  }

  /** The tables after a role was made and given to a user. */
  lemma MadeThenGiven(s: State, t: Id, name: string, requested: seq<Id>, found: seq<Id>, newId: Id, u: Id,
                      r: Requirement)
    requires Enabled(s, NewRole(t, name, requested, found, newId)) && WellFormed(s) && HasUser(s.db, u, t)
    ensures var s1 := CreateRole(s, t, name, found, newId).0;
            var (s2, outcome) := AssignRole(s1, u, newId, t);
            && outcome.Done? && WellFormed(s2)
            && HasUser(s2.db, u, t) && (t, u) !in s2.perms && (t, u) !in s2.names
            && HoldsRole(s2.db, u, t, name)
            && (Grants(s2.db, u, t, r) <==>
                  PairRequested(s.db.permissions, requested, r) || Grants(s.db, u, t, r))
  {
    var create, assign := NewRole(t, name, requested, found, newId), Assign(u, newId, t);
    var s1 := CreateRole(s, t, name, found, newId).0;
    assert Step(s, create) == s1;
    StepWellFormed(s, create);
    StepWellFormed(s1, assign);
    NewRoleMeans(s, t, name, requested, found, newId, r);
    AssignGrantsUnion(s1, u, newId, t, r);
    GrantsUntouched(s, s1, newId, u, t, r);
    var s2 := AssignRole(s1, u, newId, t).0;
    assert newId !in s.db.users[u].roleIds;
    assert newId in s2.db.users[u].roleIds;
  }

  /** A role that nobody holds yet grants nobody anything. */
  lemma GrantsUntouched(s: State, s': State, newId: Id, u: Id, t: Id, r: Requirement)
    requires OnlyRole(s.db, s'.db, newId) && TablesSound(s) && newId !in s.db.roles
    ensures Grants(s'.db, u, t, r) <==> Grants(s.db, u, t, r)
  {
    forall x | x != newId
      ensures RoleGrants(s'.db, x, r) <==> RoleGrants(s.db, x, r)
    {
    }
  }

  /** A user then given the new role passes the guard exactly for the pairs asked for at its
      creation and those granted before, whatever was cached, and may be asked for the role. */
  lemma NewRolePasses(s: State, t: Id, name: string, requested: seq<Id>, found: seq<Id>, newId: Id, u: Id,
                      required: seq<Requirement>, byName: bool)
    requires Enabled(s, NewRole(t, name, requested, found, newId)) && WellFormed(s) && HasUser(s.db, u, t)
    ensures var s2 := AssignRole(CreateRole(s, t, name, found, newId).0, u, newId, t).0;
            var roles := if byName then Some([name]) else None;
            var decision := CanActivate(s2, Some(required), roles, Some(Caller(u, t))).1;
            decision.Allowed? <==>
            forall r :: r in required ==> PairRequested(s.db.permissions, requested, r) || Grants(s.db, u, t, r)
  {
    var s2 := AssignRole(CreateRole(s, t, name, found, newId).0, u, newId, t).0;
    var roles := if byName then Some([name]) else None;
    forall r
      ensures WellFormed(s2) && HasUser(s2.db, u, t) && (t, u) !in s2.perms && (t, u) !in s2.names
      ensures HoldsRole(s2.db, u, t, name)
      ensures Grants(s2.db, u, t, r) <==> PairRequested(s.db.permissions, requested, r) || Grants(s.db, u, t, r)
    {
      MadeThenGiven(s, t, name, requested, found, newId, u, r);
    }
    MadeThenGiven(s, t, name, requested, found, newId, u, Requirement("", ""));
    MissExact(s2, u, t);
    DecisionParts(s2, Some(required), roles, u, t);
    HasPermissionMeaning(GetUserPermissions(s2, u, t).1, required);
    assert name in [name];
  }

  // ----- The other calls -----

  /** A role goes if it is there under this tenant and is no system role; with it go the
      assignments of it, and nothing else, cached answers included. */
  lemma DeleteRoleMeans(s: State, roleId: Id, t: Id, u: Id)
    ensures var (s', outcome) := DeleteRole(s, roleId, t);
            if !(roleId in s.db.roles && s.db.roles[roleId].tenantId == t) then s' == s && outcome.NotFound?
            else if s.db.roles[roleId].isSystem then s' == s && outcome.SystemRole?
            else
              && outcome.Done?
              && s' == s.(db := s.db.(roles := s.db.roles - {roleId}, users := s'.db.users))
              && s'.db.users.Keys == s.db.users.Keys
              && (u in s.db.users ==>
                    && s'.db.users[u].tenantId == s.db.users[u].tenantId
                    && (forall x :: x in s'.db.users[u].roleIds <==> x in s.db.users[u].roleIds && x != roleId)
                    && (NoDuplicates(s.db.users[u].roleIds) ==> NoDuplicates(s'.db.users[u].roleIds)))
  {
  }

  ghost predicate OnlyUser(db: Db, db': Db, u: Id) {
    db' == db.(users := db'.users) && db'.users.Keys == db.users.Keys &&
    (forall v :: v in db.users && v != u ==> db'.users[v] == db.users[v]) &&
    (u in db.users ==> db'.users[u].tenantId == db.users[u].tenantId)
  }

  /** Both entries of the user are out of the cache, and no others. */
  ghost predicate Forgets(s: State, s': State, u: Id, t: Id) {
    (t, u) !in s'.perms && (t, u) !in s'.names &&
    (forall k :: k != (t, u) ==> (k in s'.perms <==> k in s.perms) && (k in s.perms ==> s'.perms[k] == s.perms[k])) &&
    (forall k :: k != (t, u) ==> (k in s'.names <==> k in s.names) && (k in s.names ==> s'.names[k] == s.names[k]))
  }

  /** A role is assigned if user and role are there under this tenant; one not held yet is held
      last, after those held before, and the user's entries go. */
  lemma AssignMeans(s: State, u: Id, roleId: Id, t: Id)
    ensures var (s', outcome) := AssignRole(s, u, roleId, t);
            if !(u in s.db.users && s.db.users[u].tenantId == t &&
                 roleId in s.db.roles && s.db.roles[roleId].tenantId == t) then s' == s && outcome.NotFound?
            else if roleId in s.db.users[u].roleIds then s' == s && outcome.Done?
            else
              && outcome.Done? && OnlyUser(s.db, s'.db, u) && Forgets(s, s', u, t)
              && s' == s.(db := s'.db, perms := s'.perms, names := s'.names)
              && s'.db.users[u].roleIds == s.db.users[u].roleIds + [roleId]
  {
  }

  /** A removal needs the user only; the role is not held afterwards, the others are, and the
      user's entries go even if the role was not held. */
  lemma RemoveMeans(s: State, u: Id, roleId: Id, t: Id)
    ensures var (s', outcome) := RemoveRole(s, u, roleId, t);
            if !(u in s.db.users && s.db.users[u].tenantId == t) then s' == s && outcome.NotFound?
            else
              && outcome.Done? && OnlyUser(s.db, s'.db, u) && Forgets(s, s', u, t)
              && s' == s.(db := s'.db, perms := s'.perms, names := s'.names)
              && (forall x :: x in s'.db.users[u].roleIds <==> x in s.db.users[u].roleIds && x != roleId)
              && (NoDuplicates(s.db.users[u].roleIds) ==> NoDuplicates(s'.db.users[u].roleIds))
  {
  }

  /** A permission read serves a live entry as it is; otherwise, for a user who is there, each
      pair some role grants, once, and keeps the list for one lifetime; otherwise nothing. */
  lemma ReadMeans(s: State, u: Id, t: Id)
    requires CollisionFreeTable(s.db.permissions)
    ensures var (s', list) := GetUserPermissions(s, u, t);
            var k := (t, u);
            if k in s.perms && s.now < s.perms[k].expiresAt then s' == s && list == s.perms[k].value
            else if !(u in s.db.users && s.db.users[u].tenantId == t) then s' == s && list == []
            else
              && (forall r :: r in list <==> Grants(s.db, u, t, r)) && NoDuplicates(list)
              && s' == s.(perms := s.perms[k := Entry(list, s.now + s.ttl)])
  {
    if HasUser(s.db, u, t) {
      QueryPermissionsExact(s.db, u, t);
    }
  }

  lemma NamesMean(s: State, u: Id, t: Id)
    ensures var (s', list) := GetUserRoleNames(s, u, t);
            var k := (t, u);
            if k in s.names && s.now < s.names[k].expiresAt then s' == s && list == s.names[k].value
            else if !(u in s.db.users && s.db.users[u].tenantId == t) then s' == s && list == []
            else
              && (forall name :: name in list <==> HoldsRole(s.db, u, t, name))
              && s' == s.(names := s.names[k := Entry(list, s.now + s.ttl)])
  {
    if HasUser(s.db, u, t) {
      QueryNamesExact(s.db, u, t);
    }
  }

  // ----- The guard -----

  /** Among the user's roles there in the table, one has the name. */
  ghost predicate NameAmongRoles(db: Db, u: Id, name: string) {
    u in db.users &&
    exists roleId :: roleId in db.users[u].roleIds && roleId in db.roles && db.roles[roleId].name == name
  }

  /** Among them, one lists an active permission with the pair. */
  ghost predicate PairAmongRoles(db: Db, u: Id, r: Requirement) {
    u in db.users &&
    exists roleId, id ::
      roleId in db.users[u].roleIds && roleId in db.roles && id in db.roles[roleId].permissionIds &&
      id in db.permissions && db.permissions[id] == Permission(r.resource, r.action, true)
  }

  lemma AmongIff(db: Db, u: Id, t: Id, name: string, r: Requirement)
    ensures HoldsRole(db, u, t, name) <==> NameAmongRoles(db, u, name) && db.users[u].tenantId == t
    ensures Grants(db, u, t, r) <==> PairAmongRoles(db, u, r) && db.users[u].tenantId == t
  {
    if PairAmongRoles(db, u, r) {
      var roleId, id :| roleId in db.users[u].roleIds && roleId in db.roles && id in db.roles[roleId].permissionIds &&
                        id in db.permissions && db.permissions[id] == Permission(r.resource, r.action, true);
      assert RoleGrants(db, roleId, r);
    }
  }

  /** With nothing out of date in the cache: where no role and no permission is asked for, anyone
      passes; elsewhere a caller nobody knows is unauthorized, and a known one passes exactly with
      one of the roles and all of the permissions asked for, and is forbidden otherwise. */
  lemma GuardMeans(s: State, permissions: seq<Requirement>, roles: seq<string>, caller: Option<Caller>)
    requires CollisionFreeTable(s.db.permissions) && Coherent(s)
    ensures CanActivate(s, None, None, caller) == (s, Allowed)
    ensures var decision := CanActivate(s, Some(permissions), Some(roles), caller).1;
            if permissions == [] && roles == [] then decision.Allowed?
            else if caller.None? then decision.Unauthorized?
            else
              var Caller(u, t) := caller.value;
              var known := u in s.db.users && s.db.users[u].tenantId == t;
              var passes := && (roles != [] ==> known && exists name :: name in roles && NameAmongRoles(s.db, u, name))
                            && (forall r :: r in permissions ==> known && PairAmongRoles(s.db, u, r));
              decision == if passes then Allowed else Forbidden
  {
    GuardExact(s, Some(permissions), Some(roles), caller);
    if caller.Some? {
      var Caller(u, t) := caller.value;
      forall name, r
        ensures HoldsRole(s.db, u, t, name) <==> NameAmongRoles(s.db, u, name) && s.db.users[u].tenantId == t
        ensures Grants(s.db, u, t, r) <==> PairAmongRoles(s.db, u, r) && s.db.users[u].tenantId == t
      {
        AmongIff(s.db, u, t, name, r);
      }
    }
  }

  // ----- Setting up a tenant -----

  /** The three names are admin, member and viewer, in this order of creation; admin grants every
      active pair, member three of them and viewer one. */
  lemma SetupMeans(s: State, t: Id, listed: seq<Id>, newIds: seq<Id>, r: Requirement)
    requires Enabled(s, Onboard(t, listed, newIds)) && TablesSound(s)
    ensures var s' := InitializeTenant(s, t, listed, newIds);
            var users, keys := "users", "api-keys";
            if t !in s.db.tenants || exists id :: id in s.db.roles && s.db.roles[id].tenantId == t then s' == s
            else
              && newIds[0] in s'.db.roles && newIds[1] in s'.db.roles && newIds[2] in s'.db.roles
              && s'.db.roles[newIds[0]].name == "admin" && s'.db.roles[newIds[1]].name == "member"
              && s'.db.roles[newIds[2]].name == "viewer"
              && (forall id :: id in newIds ==>
                    id in s'.db.roles && s'.db.roles[id].isSystem && s'.db.roles[id].tenantId == t)
              && (RoleGrants(s'.db, newIds[0], r) <==> PairActive(s.db.permissions, r))
              && (RoleGrants(s'.db, newIds[1], r) <==>
                    PairActive(s.db.permissions, r) &&
                    (r == Requirement(users, "read") || r == Requirement(keys, "read") ||
                     r == Requirement(keys, "create")))
              && (RoleGrants(s'.db, newIds[2], r) <==>
                    PairActive(s.db.permissions, r) && r == Requirement(users, "read"))
  {
    if t !in s.db.tenants {
      Onboarding.NothingWithoutTenant(s, t, listed, newIds, 3);
    } else if !TenantHasRoles(s.db, t) {
      Onboarding.CreatesThreeSystemRoles(s, t, listed, newIds);
      var s' := InitializeTenant(s, t, listed, newIds);
      assert newIds[0] in newIds && newIds[1] in newIds && newIds[2] in newIds;
      forall id
        ensures id in s'.db.roles[newIds[0]].permissionIds <==> id in listed
        ensures id in s'.db.roles[newIds[1]].permissionIds <==>
                (id in listed && Requirement(s.db.permissions[id].resource, s.db.permissions[id].action) in
                  {Requirement("users", "read"), Requirement("api-keys", "read"), Requirement("api-keys", "create")})
        ensures id in s'.db.roles[newIds[2]].permissionIds <==>
                (id in listed && Requirement(s.db.permissions[id].resource, s.db.permissions[id].action) ==
                                 Requirement("users", "read"))
      {
        Onboarding.DefaultGrants(s.db.permissions, t, listed, id);
      }
    }
  }
}
