/** What every RBAC call keeps, and what follows for whole runs. */
module RbacRuns {
  import opened Prelude
  import opened RbacTables
  import opened RbacMachine

  // ----- One role inserted -----

  lemma NewRoleGrantsNothing(s: State, id: Id, role: Role, u: Id, t: Id)
    requires WellFormed(s) && id !in s.issued && u in s.db.users
    ensures GrantsNoMore(s.db, InsertRole(s, id, role).0.db, t, u)
  {
    var db' := InsertRole(s, id, role).0.db;
    assert forall r, req :: r in s.db.users[u].roleIds ==> (RoleGrants(db', r, req) <==> RoleGrants(s.db, r, req));
  }

  lemma InsertRoleWellFormed(s: State, id: Id, role: Role)
    requires WellFormed(s) && id !in s.issued
    ensures WellFormed(InsertRole(s, id, role).0)
  {
  }

  lemma InsertRoleAnswers(s: State, id: Id, role: Role, u: Id, t: Id)
    requires WellFormed(s) && id !in s.issued
    ensures var db' := InsertRole(s, id, role).0.db;
            && QueryPermissions(db', u, t) == QueryPermissions(s.db, u, t)
            && QueryNames(db', u, t) == QueryNames(s.db, u, t)
  {
    if HasUser(s.db, u, t) {
      JoinFrame(s.db.users[u].roleIds, s.db.roles, InsertRole(s, id, role).0.db.roles);
    }
  }

  lemma InsertRoleKeeps(s: State, id: Id, role: Role)
    requires WellFormed(s) && id !in s.issued
    ensures WellFormed(InsertRole(s, id, role).0)
    ensures Covers(s) ==> Covers(InsertRole(s, id, role).0)
    ensures Coherent(s) ==> Coherent(InsertRole(s, id, role).0)
  {
    var s' := InsertRole(s, id, role).0;
    InsertRoleWellFormed(s, id, role);
    forall u, t
      ensures QueryPermissions(s'.db, u, t) == QueryPermissions(s.db, u, t)
      ensures QueryNames(s'.db, u, t) == QueryNames(s.db, u, t)
    {
      InsertRoleAnswers(s, id, role, u, t);
    }
    forall u, t | u in s.db.users
      ensures GrantsNoMore(s.db, s'.db, t, u)
    {
      NewRoleGrantsNothing(s, id, role, u, t);
    }
    CoversFrame(s, s');
  }

  /** Covering survives any step that leaves the cache alone, or shrinks it, and grants
      nobody with an entry more. */
  lemma CoversFrame(s: State, s': State)
    requires s'.perms.Keys <= s.perms.Keys && s'.names.Keys <= s.names.Keys
    requires forall k :: k in s'.perms ==> s'.perms[k] == s.perms[k]
    requires forall k :: k in s'.names ==> s'.names[k] == s.names[k]
    requires forall k :: k in s'.perms || k in s'.names ==>
               (Filed(s, k) ==> Filed(s', k)) && (k.1 in s'.db.users ==> GrantsNoMore(s.db, s'.db, k.0, k.1))
    ensures Covers(s) ==> Covers(s')
  {
  }

  lemma {:induction false} SaveDefaultsFrame(s: State, t: Id, listed: seq<Id>, newIds: seq<Id>, n: nat)
    requires s.db.roles.Keys <= s.issued && n <= |DEFAULT_ROLES| == |newIds|
    requires NoDuplicates(newIds) && forall id :: id in newIds ==> id !in s.issued
    requires forall id :: id in listed ==> id in s.db.permissions
    ensures var s' := SaveDefaults(s, t, listed, newIds, n);
            && s'.db.permissions == s.db.permissions && s'.db.tenants == s.db.tenants && s'.db.users == s.db.users
            && (forall i :: n <= i < |newIds| ==> newIds[i] !in s'.issued)
            && (forall r :: r in s.db.roles ==> r in s'.db.roles && s'.db.roles[r] == s.db.roles[r])
  {
    if n > 0 {
      SaveDefaultsFrame(s, t, listed, newIds, n - 1);
      assert newIds[n - 1] in newIds;
    }
  }

  lemma {:induction false} DefaultsKeepCaches(s: State, t: Id, listed: seq<Id>, newIds: seq<Id>, n: nat)
    requires n <= |DEFAULT_ROLES| <= |newIds| && forall id :: id in listed ==> id in s.db.permissions
    ensures var s' := SaveDefaults(s, t, listed, newIds, n); s'.perms == s.perms && s'.names == s.names
  {
    if n > 0 {
      DefaultsKeepCaches(s, t, listed, newIds, n - 1);
    }
  }

  /** The next default role keeps what the ones before it kept. */
  lemma SaveNextKeeps(s: State, t: Id, listed: seq<Id>, newIds: seq<Id>, n: nat)
    requires 0 < n <= |DEFAULT_ROLES| == |newIds| && forall id :: id in listed ==> id in s.db.permissions
    requires var before := SaveDefaults(s, t, listed, newIds, n - 1);
             WellFormed(before) && newIds[n - 1] !in before.issued && before.db.permissions == s.db.permissions
    ensures var before, after := SaveDefaults(s, t, listed, newIds, n - 1), SaveDefaults(s, t, listed, newIds, n);
            WellFormed(after) && (Covers(before) ==> Covers(after)) && (Coherent(before) ==> Coherent(after))
  {
    var before := SaveDefaults(s, t, listed, newIds, n - 1);
    InsertRoleKeeps(before, newIds[n - 1], DefaultRow(s.db.permissions, t, listed, DEFAULT_ROLES[n - 1]));
  }

  lemma {:induction false} SaveDefaultsKeeps(s: State, t: Id, listed: seq<Id>, newIds: seq<Id>, n: nat)
    requires WellFormed(s) && n <= |DEFAULT_ROLES| == |newIds|
    requires NoDuplicates(newIds) && forall id :: id in newIds ==> id !in s.issued
    requires forall id :: id in listed ==> id in s.db.permissions
    ensures var s' := SaveDefaults(s, t, listed, newIds, n);
            WellFormed(s') && (Covers(s) ==> Covers(s')) && (Coherent(s) ==> Coherent(s'))
  {
    if n > 0 {
      SaveDefaultsKeeps(s, t, listed, newIds, n - 1);
      SaveDefaultsFrame(s, t, listed, newIds, n - 1);
      assert newIds[n - 1] !in SaveDefaults(s, t, listed, newIds, n - 1).issued;
      SaveNextKeeps(s, t, listed, newIds, n);
    }
  }

  // ----- Changing one user's roles -----

  lemma SetRolesWellFormed(s: State, u: Id, t: Id, roleIds: seq<Id>)
    requires WellFormed(s) && HasUser(s.db, u, t) && NoDuplicates(roleIds)
    requires forall r :: r in roleIds ==> HasRoleRow(s.db, r, t)
    ensures WellFormed(Invalidate(s.(db := SetRoles(s.db, u, roleIds)), u, t))
  {
  }

  lemma SetRolesCovers(s: State, u: Id, t: Id, roleIds: seq<Id>)
    requires HasUser(s.db, u, t) && Covers(s)
    ensures Covers(Invalidate(s.(db := SetRoles(s.db, u, roleIds)), u, t))
  {
  }

  lemma OthersAnswersKept(db: Db, u: Id, roleIds: seq<Id>, v: Id, t: Id)
    requires u in db.users && v != u
    ensures QueryPermissions(SetRoles(db, u, roleIds), v, t) == QueryPermissions(db, v, t)
    ensures QueryNames(SetRoles(db, u, roleIds), v, t) == QueryNames(db, v, t)
  {
  }

  lemma SetRolesCoherent(s: State, u: Id, t: Id, roleIds: seq<Id>)
    requires HasUser(s.db, u, t) && Coherent(s)
    ensures Coherent(Invalidate(s.(db := SetRoles(s.db, u, roleIds)), u, t))
  {
    forall k | k in s.perms && k != (t, u)
      ensures QueryPermissions(SetRoles(s.db, u, roleIds), k.1, k.0) == Some(s.perms[k].value)
    {
      OthersAnswersKept(s.db, u, roleIds, k.1, k.0);
    }
    forall k | k in s.names && k != (t, u)
      ensures QueryNames(SetRoles(s.db, u, roleIds), k.1, k.0) == Some(s.names[k].value)
    {
      OthersAnswersKept(s.db, u, roleIds, k.1, k.0);
    }
  }

  // ----- Deletions -----

  lemma DropRoleGrants(db: Db, roleId: Id, t: Id, u: Id)
    ensures GrantsNoMore(db, DropRole(db, roleId), t, u)
  {
  }

  lemma DropRoleWellFormed(s: State, roleId: Id)
    requires WellFormed(s)
    ensures WellFormed(s.(db := DropRole(s.db, roleId)))
  {
  }

  lemma DropRoleKeeps(s: State, roleId: Id)
    requires WellFormed(s)
    ensures WellFormed(s.(db := DropRole(s.db, roleId)))
    ensures Covers(s) ==> Covers(s.(db := DropRole(s.db, roleId)))
  {
    DropRoleWellFormed(s, roleId);
    var s' := s.(db := DropRole(s.db, roleId));
    forall k: (Id, Id)
      ensures GrantsNoMore(s.db, s'.db, k.0, k.1)
    {
      DropRoleGrants(s.db, roleId, k.0, k.1);
    }
    CoversFrame(s, s');
  }

  lemma DropTenantKeeps(s: State, t: Id)
    requires WellFormed(s)
    ensures WellFormed(s.(db := DropTenant(s.db, t)))
    ensures Covers(s) ==> Covers(s.(db := DropTenant(s.db, t)))
  {
  }

  lemma DropUserKeeps(s: State, u: Id)
    requires WellFormed(s)
    ensures WellFormed(s.(db := DropUser(s.db, u)))
    ensures Covers(s) ==> Covers(s.(db := DropUser(s.db, u)))
  {
  }

  // ----- Tenants and users added -----

  function WithUser(s: State, t: Id, id: Id): State {
    s.(db := s.db.(users := s.db.users[id := User(t, [])]), issued := s.issued + {id})
  }

  lemma NewUserWellFormed(s: State, t: Id, id: Id)
    requires WellFormed(s) && id !in s.issued && t in s.db.tenants
    ensures WellFormed(WithUser(s, t, id))
  {
  }

  lemma NewUserCovers(s: State, t: Id, id: Id)
    requires WellFormed(s) && id !in s.issued && Covers(s)
    ensures Covers(WithUser(s, t, id))
  {
  }

  lemma NewUserCoherent(s: State, t: Id, id: Id)
    requires WellFormed(s) && id !in s.issued && Coherent(s)
    ensures Coherent(WithUser(s, t, id))
  {
  }

  lemma NewUserKeeps(s: State, t: Id, id: Id)
    requires WellFormed(s) && id !in s.issued && t in s.db.tenants
    ensures var s' := WithUser(s, t, id);
            WellFormed(s') && (Covers(s) ==> Covers(s')) && (Coherent(s) ==> Coherent(s'))
  {
    NewUserWellFormed(s, t, id);
    if Covers(s) {
      NewUserCovers(s, t, id);
    }
    if Coherent(s) {
      NewUserCoherent(s, t, id);
    }
  }

  // ----- Reads -----

  lemma ReadCovers(s: State, u: Id, t: Id)
    requires WellFormed(s) && Covers(s)
    ensures Covers(GetUserPermissions(s, u, t).0)
    ensures Covers(GetUserRoleNames(s, u, t).0)
  {
    if HasUser(s.db, u, t) {
      QueryPermissionsExact(s.db, u, t);
      QueryNamesExact(s.db, u, t);
      assert Filed(s, (t, u));
    }
  }

  lemma ReadCoherent(s: State, u: Id, t: Id)
    requires Coherent(s)
    ensures Coherent(GetUserPermissions(s, u, t).0)
    ensures Coherent(GetUserRoleNames(s, u, t).0)
  {
  }

  // ----- Every step -----

  lemma StepWellFormed(s: State, op: Op)
    requires Enabled(s, op) && WellFormed(s)
    ensures WellFormed(Step(s, op))
  {
    match op
    case Assign(u, r, t) =>
      if HasUser(s.db, u, t) && HasRoleRow(s.db, r, t) && r !in s.db.users[u].roleIds {
        SetRolesWellFormed(s, u, t, s.db.users[u].roleIds + [r]);
      }
    case Remove(u, r, t) =>
      if HasUser(s.db, u, t) {
        SetRolesWellFormed(s, u, t, Without(s.db.users[u].roleIds, r));
      }
    case NewRole(t, name, _, found, newId) => InsertRoleKeeps(s, newId, Role(t, name, false, found));
    case RemoveRoleRow(r, t) => DropRoleKeeps(s, r);
    case Onboard(t, listed, newIds) => SaveDefaultsKeeps(s, t, listed, newIds, |DEFAULT_ROLES|);
    case RemoveTenant(t) => DropTenantKeeps(s, t);
    case NewUser(t, newId) =>
      if t in s.db.tenants {
        NewUserKeeps(s, t, newId);
      }
    case RemoveUser(u, t) => DropUserKeeps(s, u);
    case _ =>
  }

  lemma StepCovers(s: State, op: Op)
    requires Enabled(s, op) && WellFormed(s) && Covers(s)
    ensures Covers(Step(s, op))
  {
    match op
    case ReadPermissions(u, t) => ReadCovers(s, u, t);
    case ReadNames(u, t) => ReadCovers(s, u, t);
    case Assign(u, r, t) =>
      if HasUser(s.db, u, t) && HasRoleRow(s.db, r, t) && r !in s.db.users[u].roleIds {
        SetRolesCovers(s, u, t, s.db.users[u].roleIds + [r]);
      }
    case Remove(u, r, t) =>
      if HasUser(s.db, u, t) {
        SetRolesCovers(s, u, t, Without(s.db.users[u].roleIds, r));
      }
    case NewRole(t, name, _, found, newId) => InsertRoleKeeps(s, newId, Role(t, name, false, found));
    case RemoveRoleRow(r, t) => DropRoleKeeps(s, r);
    case Onboard(t, listed, newIds) => SaveDefaultsKeeps(s, t, listed, newIds, |DEFAULT_ROLES|);
    case NewTenant(newId) =>
      assert forall r, req :: RoleGrants(Step(s, op).db, r, req) <==> RoleGrants(s.db, r, req);
      CoversFrame(s, Step(s, op));
    case RemoveTenant(t) => DropTenantKeeps(s, t);
    case NewUser(t, newId) =>
      if t in s.db.tenants {
        NewUserKeeps(s, t, newId);
      }
    case RemoveUser(u, t) => DropUserKeeps(s, u);
    case EvictPermissions(u, t) => CoversFrame(s, Step(s, op));
    case EvictNames(u, t) => CoversFrame(s, Step(s, op));
    case Tick(elapsed) => CoversFrame(s, Step(s, op));
  }

  lemma StepCoherent(s: State, op: Op)
    requires Enabled(s, op) && WellFormed(s) && Coherent(s) && !op.Deletes()
    ensures Coherent(Step(s, op))
  {
    match op
    case ReadPermissions(u, t) => ReadCoherent(s, u, t);
    case ReadNames(u, t) => ReadCoherent(s, u, t);
    case Assign(u, r, t) =>
      if HasUser(s.db, u, t) && HasRoleRow(s.db, r, t) && r !in s.db.users[u].roleIds {
        SetRolesCoherent(s, u, t, s.db.users[u].roleIds + [r]);
      }
    case Remove(u, r, t) =>
      if HasUser(s.db, u, t) {
        SetRolesCoherent(s, u, t, Without(s.db.users[u].roleIds, r));
      }
    case NewRole(t, name, _, found, newId) => InsertRoleKeeps(s, newId, Role(t, name, false, found));
    case Onboard(t, listed, newIds) => SaveDefaultsKeeps(s, t, listed, newIds, |DEFAULT_ROLES|);
    case NewUser(t, newId) =>
      if t in s.db.tenants {
        NewUserKeeps(s, t, newId);
      }
    case _ =>
  }

  lemma {:induction false} RunKeeps(s: State, ops: seq<Op>)
    requires ValidRun(s, ops) && WellFormed(s)
    ensures WellFormed(Run(s, ops))
    ensures Covers(s) ==> Covers(Run(s, ops))
    ensures Coherent(s) && (forall op :: op in ops ==> !op.Deletes()) ==> Coherent(Run(s, ops))
    decreases |ops|
  {
    if ops != [] {
      StepWellFormed(s, ops[0]);
      if Covers(s) {
        StepCovers(s, ops[0]);
      }
      assert ops[0] in ops;
      if Coherent(s) && !ops[0].Deletes() {
        StepCoherent(s, ops[0]);
      }
      RunKeeps(Step(s, ops[0]), ops[1..]);
    }
  }

  lemma InitialKept(s: State)
    requires Initial(s)
    ensures WellFormed(s) && Covers(s) && Coherent(s)
  {
  }

  /** After any run whatever is cached for a user contains what the tables grant, and as
      long as nothing was deleted it is the very list the tables would give. */
  lemma CachedContainsFresh(s: State, ops: seq<Op>)
    requires Initial(s) && ValidRun(s, ops)
    ensures WellFormed(Run(s, ops)) && Covers(Run(s, ops))
    ensures (forall op :: op in ops ==> !op.Deletes()) ==> Coherent(Run(s, ops))
  {
    InitialKept(s);
    RunKeeps(s, ops);
  }

  /** After any run a user holds each role once, and only roles of the user's own tenant. */
  lemma RolesKeepTenantsApart(s: State, ops: seq<Op>, u: Id)
    requires Initial(s) && ValidRun(s, ops) && u in Run(s, ops).db.users
    ensures var db := Run(s, ops).db;
            && NoDuplicates(db.users[u].roleIds)
            && forall r :: r in db.users[u].roleIds ==> HasRoleRow(db, r, db.users[u].tenantId)
  {
    CachedContainsFresh(s, ops);
  }

  /** The permission read after any run, against the relational specification. */
  lemma ReadAfterRun(s: State, ops: seq<Op>, u: Id, t: Id)
    requires Initial(s) && ValidRun(s, ops)
    ensures var s' := Run(s, ops);
            var served := GetUserPermissions(s', u, t).1;
            && (forall r :: Grants(s'.db, u, t, r) ==> r in served)
            && ((forall op :: op in ops ==> !op.Deletes()) ==> forall r :: r in served <==> Grants(s'.db, u, t, r))
  {
    CachedContainsFresh(s, ops);
    var s' := Run(s, ops);
    if HasUser(s'.db, u, t) {
      QueryPermissionsExact(s'.db, u, t);
    }
  }

  // ----- The algebra of assignments -----

  /** Assigning twice is assigning once. */
  lemma AssignIdempotent(s: State, u: Id, r: Id, t: Id)
    ensures AssignRole(AssignRole(s, u, r, t).0, u, r, t) == AssignRole(s, u, r, t)
  {
  }

  /** Assigning adds exactly what the role grants. */
  lemma AssignGrantsUnion(s: State, u: Id, r: Id, t: Id, req: Requirement)
    requires AssignRole(s, u, r, t).1.Done?
    ensures Grants(AssignRole(s, u, r, t).0.db, u, t, req) <==> Grants(s.db, u, t, req) || RoleGrants(s.db, r, req)
  {
    var db' := AssignRole(s, u, r, t).0.db;
    forall x
      ensures RoleGrants(db', x, req) <==> RoleGrants(s.db, x, req)
    {
    }
    assert r in db'.users[u].roleIds;
  }

  /** Assigning reaches nobody else. */
  lemma AssignLeavesOthers(s: State, u: Id, r: Id, t: Id, v: Id, t': Id, req: Requirement)
    requires v != u
    ensures Grants(AssignRole(s, u, r, t).0.db, v, t', req) <==> Grants(s.db, v, t', req)
    ensures Grants(RemoveRole(s, u, r, t).0.db, v, t', req) <==> Grants(s.db, v, t', req)
  {
  }

  lemma {:induction false} WithoutAppended(ids: seq<Id>, id: Id)
    requires id !in ids
    ensures Without(ids + [id], id) == ids
  {
    if ids == [] {
      assert ([] + [id])[1..] == [];
    } else {
      assert (ids + [id])[1..] == ids[1..] + [id];
      WithoutAppended(ids[1..], id);
    }
  }

  /** Removing a role just assigned to a user who did not hold it restores the tables. */
  lemma AssignThenRemove(s: State, u: Id, r: Id, t: Id)
    requires AssignRole(s, u, r, t).1.Done? && r !in s.db.users[u].roleIds
    ensures RemoveRole(AssignRole(s, u, r, t).0, u, r, t).0.db == s.db
  {
    WithoutAppended(s.db.users[u].roleIds, r);
    var db' := RemoveRole(AssignRole(s, u, r, t).0, u, r, t).0.db;
    assert db'.users == s.db.users;
  }

  /** What is left after a removal is what the other roles grant. */
  lemma RemoveGrantsRest(s: State, u: Id, r: Id, t: Id, req: Requirement)
    requires RemoveRole(s, u, r, t).1.Done?
    ensures Grants(RemoveRole(s, u, r, t).0.db, u, t, req) <==>
            exists x :: x in s.db.users[u].roleIds && x != r && RoleGrants(s.db, x, req)
  {
  }

  // ----- System roles -----

  lemma SystemRoleStep(s: State, op: Op, r: Id)
    requires Enabled(s, op) && WellFormed(s)
    requires r in s.db.roles && s.db.roles[r].isSystem
    requires op != RemoveTenant(s.db.roles[r].tenantId)
    ensures r in Step(s, op).db.roles && Step(s, op).db.roles[r] == s.db.roles[r]
  {
    if op.Onboard? {
      SaveDefaultsFrame(s, op.tenantId, op.listed, op.newIds, |DEFAULT_ROLES|);
    }
  }

  /** A system role stays, unchanged, over any run that does not delete its tenant. */
  lemma {:induction false} SystemRoleSurvives(s: State, ops: seq<Op>, r: Id)
    requires ValidRun(s, ops) && WellFormed(s)
    requires r in s.db.roles && s.db.roles[r].isSystem
    requires RemoveTenant(s.db.roles[r].tenantId) !in ops
    ensures r in Run(s, ops).db.roles && Run(s, ops).db.roles[r] == s.db.roles[r]
    decreases |ops|
  {
    if ops != [] {
      assert ops[0] in ops;
      StepWellFormed(s, ops[0]);
      SystemRoleStep(s, ops[0], r);
      SystemRoleSurvives(Step(s, ops[0]), ops[1..], r);
    }
  }
}
