/** What setting up a new tenant amounts to. */
module Onboarding {
  import opened Prelude
  import opened RbacTables
  import opened RbacMachine
  import opened RbacRuns
  import opened RbacGuard

  lemma NoDuplicatesThree(ids: seq<Id>)
    requires |ids| == 3 && NoDuplicates(ids)
    ensures ids[0] != ids[1] && ids[0] != ids[2] && ids[1] != ids[2]
  {
  }

  lemma ThreeSaved(s: State, t: Id, listed: seq<Id>, newIds: seq<Id>)
    requires |newIds| == |DEFAULT_ROLES| && t in s.db.tenants
    requires forall id :: id in listed ==> id in s.db.permissions
    ensures var admin := DefaultRow(s.db.permissions, t, listed, DEFAULT_ROLES[0]);
            var member := DefaultRow(s.db.permissions, t, listed, DEFAULT_ROLES[1]);
            var viewer := DefaultRow(s.db.permissions, t, listed, DEFAULT_ROLES[2]);
            SaveDefaults(s, t, listed, newIds, 3) ==
            s.(db := s.db.(roles := s.db.roles[newIds[0] := admin][newIds[1] := member][newIds[2] := viewer]),
               issued := s.issued + {newIds[0], newIds[1], newIds[2]})
  {
    var s1 := SaveDefaults(s, t, listed, newIds, 1);
    assert SaveDefaults(s, t, listed, newIds, 0) == s;
    assert s1.db.roles == s.db.roles[newIds[0] := DefaultRow(s.db.permissions, t, listed, DEFAULT_ROLES[0])];
    var s2 := SaveDefaults(s, t, listed, newIds, 2);
    assert s2.db.roles == s1.db.roles[newIds[1] := DefaultRow(s.db.permissions, t, listed, DEFAULT_ROLES[1])];
    var s3 := SaveDefaults(s, t, listed, newIds, 3);
    assert s3.db.roles == s2.db.roles[newIds[2] := DefaultRow(s.db.permissions, t, listed, DEFAULT_ROLES[2])];
    assert s3.issued == s.issued + {newIds[0], newIds[1], newIds[2]};
  }

  /** A tenant without roles gets exactly the three default system roles and nothing else changes. */
  lemma CreatesThreeSystemRoles(s: State, t: Id, listed: seq<Id>, newIds: seq<Id>)
    requires Enabled(s, Onboard(t, listed, newIds)) && TablesSound(s)
    requires t in s.db.tenants && !TenantHasRoles(s.db, t)
    ensures var s' := InitializeTenant(s, t, listed, newIds);
            && s' == s.(db := s.db.(roles := s'.db.roles), issued := s.issued + {newIds[0], newIds[1], newIds[2]})
            && (forall r :: r in s'.db.roles <==> r in s.db.roles || r in newIds)
            && (forall r :: r in s.db.roles ==> s'.db.roles[r] == s.db.roles[r])
            && (forall r :: r in s'.db.roles && s'.db.roles[r].tenantId == t <==> r in newIds)
            && (forall i :: 0 <= i < 3 ==>
                  s'.db.roles[newIds[i]] == DefaultRow(s.db.permissions, t, listed, DEFAULT_ROLES[i]))
  {
    NoDuplicatesThree(newIds);
    ThreeSaved(s, t, listed, newIds);
    assert newIds == [newIds[0], newIds[1], newIds[2]];
  }

  /** Setting up twice is setting up once, whatever the second call reads or would name its roles. */
  lemma Idempotent(s: State, t: Id, listed: seq<Id>, newIds: seq<Id>, listed': seq<Id>, newIds': seq<Id>)
    requires Enabled(s, Onboard(t, listed, newIds)) && TablesSound(s)
    requires Enabled(InitializeTenant(s, t, listed, newIds), Onboard(t, listed', newIds'))
    ensures InitializeTenant(InitializeTenant(s, t, listed, newIds), t, listed', newIds') ==
            InitializeTenant(s, t, listed, newIds)
  {
    var s' := InitializeTenant(s, t, listed, newIds);
    if t !in s.db.tenants {
      NothingWithoutTenant(s, t, listed, newIds, 3);
      NothingWithoutTenant(s', t, listed', newIds', 3);
    } else if !TenantHasRoles(s.db, t) {
      CreatesThreeSystemRoles(s, t, listed, newIds);
      assert newIds[0] in newIds;
      assert TenantHasRoles(s'.db, t);
    }
  }

  lemma {:induction false} NothingWithoutTenant(s: State, t: Id, listed: seq<Id>, newIds: seq<Id>, n: nat)
    requires t !in s.db.tenants && n <= |DEFAULT_ROLES| <= |newIds|
    requires forall id :: id in listed ==> id in s.db.permissions
    ensures SaveDefaults(s, t, listed, newIds, n) == s
  {
    if n > 0 {
      NothingWithoutTenant(s, t, listed, newIds, n - 1);
    }
  }

  /** A pattern without further ':' matches one pair only. */
  lemma PatternMeaning(p: Permission, resource: string, action: string)
    requires ':' !in resource && ':' !in action
    ensures p.resource + ":" + p.action == resource + ":" + action <==> p.resource == resource && p.action == action
  {
    var s, pattern := p.resource + ":" + p.action, resource + ":" + action;
    if s == pattern {
      assert s[|p.resource|] == ':';
      assert pattern[..|resource|] == resource && pattern[|resource| + 1..] == action;
      if |p.resource| < |resource| {
        assert false;
      }
      if |p.resource| > |resource| {
        assert false;
      }
      assert s[..|p.resource|] == p.resource && s[|p.resource| + 1..] == p.action;
    }
  }

  /** Of the active permissions, admin gets every one, member and viewer the listed pairs. */
  lemma DefaultGrants(permissions: map<Id, Permission>, t: Id, listed: seq<Id>, id: Id)
    requires forall x :: x in listed ==> x in permissions
    ensures id in DefaultRow(permissions, t, listed, DEFAULT_ROLES[0]).permissionIds <==> id in listed
    ensures id in DefaultRow(permissions, t, listed, DEFAULT_ROLES[1]).permissionIds <==>
            (id in listed && Requirement(permissions[id].resource, permissions[id].action) in
              {Requirement("users", "read"), Requirement("api-keys", "read"), Requirement("api-keys", "create")})
    ensures id in DefaultRow(permissions, t, listed, DEFAULT_ROLES[2]).permissionIds <==>
            (id in listed &&
             Requirement(permissions[id].resource, permissions[id].action) == Requirement("users", "read"))
  {
    if id in listed {
      var p := permissions[id];
      PatternMeaning(p, "users", "read");
      PatternMeaning(p, "api-keys", "read");
      PatternMeaning(p, "api-keys", "create");
      assert "users:read" == "users" + ":" + "read" && "api-keys:read" == "api-keys" + ":" + "read";
      assert "api-keys:create" == "api-keys" + ":" + "create";
      PatternsMatched(p);
    }
  }

  /** Matching against the three pattern lists, spelled out. */
  lemma PatternsMatched(p: Permission)
    ensures Matches(p, DEFAULT_ROLES[0].patterns)
    ensures var key := p.resource + ":" + p.action;
            (Matches(p, DEFAULT_ROLES[1].patterns) <==>
               key == "users:read" || key == "api-keys:read" || key == "api-keys:create") &&
            (Matches(p, DEFAULT_ROLES[2].patterns) <==> key == "users:read")
  {
  }

  /** viewer <= member <= admin. */
  lemma DefaultsAreNested(s: State, t: Id, listed: seq<Id>, newIds: seq<Id>, req: Requirement)
    requires Enabled(s, Onboard(t, listed, newIds)) && TablesSound(s)
    requires t in s.db.tenants && !TenantHasRoles(s.db, t)
    ensures var db' := InitializeTenant(s, t, listed, newIds).db;
            (RoleGrants(db', newIds[2], req) ==> RoleGrants(db', newIds[1], req)) &&
            (RoleGrants(db', newIds[1], req) ==> RoleGrants(db', newIds[0], req))
  {
    CreatesThreeSystemRoles(s, t, listed, newIds);
    forall id | id in s.db.permissions
      ensures id in DefaultRow(s.db.permissions, t, listed, DEFAULT_ROLES[2]).permissionIds ==>
                id in DefaultRow(s.db.permissions, t, listed, DEFAULT_ROLES[1]).permissionIds
      ensures id in DefaultRow(s.db.permissions, t, listed, DEFAULT_ROLES[1]).permissionIds ==>
                id in DefaultRow(s.db.permissions, t, listed, DEFAULT_ROLES[0]).permissionIds
    {
      DefaultGrants(s.db.permissions, t, listed, id);
    }
  }

  /** The admin role grants every active permission. */
  lemma AdminGrantsAll(s: State, t: Id, listed: seq<Id>, newIds: seq<Id>, r: Requirement, id: Id)
    requires Enabled(s, Onboard(t, listed, newIds)) && TablesSound(s)
    requires t in s.db.tenants && !TenantHasRoles(s.db, t)
    requires id in s.db.permissions && s.db.permissions[id] == Permission(r.resource, r.action, true)
    ensures RoleGrants(InitializeTenant(s, t, listed, newIds).db, newIds[0], r)
  {
    CreatesThreeSystemRoles(s, t, listed, newIds);
    DefaultGrants(s.db.permissions, t, listed, id);
  }

  /** Whoever holds a role is entitled to what the role grants. */
  lemma HolderEntitled(s: State, u: Id, t: Id, roleId: Id, required: seq<Requirement>)
    requires HasUser(s.db, u, t) && HasRoleRow(s.db, roleId, t)
    requires forall r :: r in required ==> RoleGrants(s.db, roleId, r)
    ensures Entitled(AssignRole(s, u, roleId, t).0.db, Some(required), Some([s.db.roles[roleId].name]),
                     Some(Caller(u, t)))
  {
    var db' := AssignRole(s, u, roleId, t).0.db;
    var name := s.db.roles[roleId].name;
    assert roleId in db'.users[u].roleIds;
    assert name in [name] && HoldsRole(db', u, t, name);
    forall r | r in required
      ensures Grants(db', u, t, r)
    {
      assert RoleGrants(db', roleId, r);
    }
  }

  /** A user then given the admin role passes the guard for any list of active permissions. */
  lemma AdminPassesGuard(s: State, t: Id, listed: seq<Id>, newIds: seq<Id>, u: Id, required: seq<Requirement>)
    requires Enabled(s, Onboard(t, listed, newIds)) && WellFormed(s) && Covers(s)
    requires t in s.db.tenants && !TenantHasRoles(s.db, t) && HasUser(s.db, u, t)
    requires forall r :: r in required ==>
               exists id :: id in s.db.permissions && s.db.permissions[id] == Permission(r.resource, r.action, true)
    ensures var s1 := InitializeTenant(s, t, listed, newIds);
            var s2 := AssignRole(s1, u, newIds[0], t).0;
            CanActivate(s2, Some(required), Some(["admin"]), Some(Caller(u, t))).1.Allowed?
  {
    var onboard, assign := Onboard(t, listed, newIds), Assign(u, newIds[0], t);
    var s1 := Step(s, onboard);
    StepWellFormed(s, onboard);
    StepCovers(s, onboard);
    StepWellFormed(s1, assign);
    StepCovers(s1, assign);
    assert HasRoleRow(s1.db, newIds[0], t) && s1.db.roles[newIds[0]].name == "admin" && HasUser(s1.db, u, t) by {
      CreatesThreeSystemRoles(s, t, listed, newIds);
      assert newIds[0] in newIds;
    }
    forall r | r in required
      ensures RoleGrants(s1.db, newIds[0], r)
    {
      var id :| id in s.db.permissions && s.db.permissions[id] == Permission(r.resource, r.action, true);
      AdminGrantsAll(s, t, listed, newIds, r, id);
    }
    HolderEntitled(s1, u, t, newIds[0], required);
    GuardAdmitsEntitled(Step(s1, assign), Some(required), Some(["admin"]), Some(Caller(u, t)));
  }
}
