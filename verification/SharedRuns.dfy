/** Every run on the shared database and store is a run of each service's own model, so what
    is proved about those holds here, down to what is found in the store. */
module SharedRuns {
  import opened Prelude
  import opened CacheKeys
  import opened RbacTables
  import opened SharedStore
  import M = RbacMachine
  import R = RbacRuns
  import G = RbacGuard
  import T = Tenants
  import I = Identity
  import U = UserCache
  import S = CacheStore

  // ----- One database -----

  /** The tables the three models keep of tenants and users agree. */
  ghost predicate OneDatabase(s: System) {
    && s.rbac.db.tenants == s.tenants.tenants.Keys == s.users.tenants
    && s.rbac.db.users.Keys == s.users.users.Keys
    && forall u :: u in s.users.users ==> s.rbac.db.users[u].tenantId == s.users.users[u].tenantId
  }

  lemma RbacKeepsUsers(s: M.State, o: M.Op)
    requires M.Enabled(s, o)
    requires !o.NewTenant? && !o.RemoveTenant? && !o.NewUser? && !o.RemoveUser?
    ensures var db' := M.Step(s, o).db;
            && db'.tenants == s.db.tenants && db'.users.Keys == s.db.users.Keys
            && forall u :: u in s.db.users ==> db'.users[u].tenantId == s.db.users[u].tenantId
  {
    if o.Onboard? {
      DefaultsKeepUsers(s, o.tenantId, o.listed, o.newIds, |M.DEFAULT_ROLES|);
    }
  }

  lemma {:induction false} DefaultsKeepUsers(s: M.State, t: Id, listed: seq<Id>, newIds: seq<Id>, n: nat)
    requires n <= |M.DEFAULT_ROLES| <= |newIds| && forall id :: id in listed ==> id in s.db.permissions
    ensures var db' := M.SaveDefaults(s, t, listed, newIds, n).db;
            db'.tenants == s.db.tenants && db'.users == s.db.users
  {
    if n > 0 {
      DefaultsKeepUsers(s, t, listed, newIds, n - 1);
    }
  }

  // What a user call does to tenants and to who is a user of what.

  lemma UserCreated(s: I.State, o: I.Op)
    requires I.Enabled(s, o) && I.UsersSound(s) && (o.CreateUser? || o.Register?) && I.Step(s, o).1.Created?
    ensures var s' := I.Step(s, o).0;
            && s'.tenants == s.tenants && o.tenantId in s.tenants && s'.users.Keys == s.users.Keys + {o.newId}
            && s'.users[o.newId].tenantId == o.tenantId
            && forall u :: u in s.users ==> s'.users[u].tenantId == s.users[u].tenantId
  {
  }

  lemma UserDeleted(s: I.State, o: I.Op)
    requires o.DeleteUser? && I.Step(s, o).1.Done?
    ensures var s' := I.Step(s, o).0;
            && s'.tenants == s.tenants && I.Has(s.users, o.tenantId, o.userId)
            && s'.users == s.users - {o.userId}
  {
  }

  lemma UsersKept(s: I.State, o: I.Op)
    requires !o.NewTenant? && !o.DropTenant?
    requires !((o.CreateUser? || o.Register?) && I.Step(s, o).1.Created?) && !(o.DeleteUser? && I.Step(s, o).1.Done?)
    ensures var s' := I.Step(s, o).0;
            && s'.tenants == s.tenants && s'.users.Keys == s.users.Keys
            && forall u :: u in s.users ==> s'.users[u].tenantId == s.users[u].tenantId
  {
  }

  lemma TenantsAfter(s: T.State, o: T.Op)
    ensures var (s', outcome) := T.Step(s, o);
            s'.tenants.Keys ==
            if o.Create? && outcome.Served? then s.tenants.Keys + {o.newId}
            else if o.Delete? && outcome.Done? then s.tenants.Keys - {o.id}
            else s.tenants.Keys
  {
  }

  lemma RbacStepLinked(s: System, op: Op)
    requires Enabled(s, op) && op.OnRbac? && OneDatabase(s)
    ensures OneDatabase(Step(s, op))
  {
    RbacKeepsUsers(s.rbac, op.rbacOp);
  }

  lemma TenantStepLinked(s: System, op: Op)
    requires Enabled(s, op) && op.OnTenants? && OneDatabase(s)
    ensures OneDatabase(Step(s, op))
  {
    TenantsAfter(s.tenants, op.tenantOp);
  }

  lemma RbacUserRows(s: M.State, u: Id, t: Id)
    ensures HasUser(s.db, u, t) ==> M.Step(s, M.RemoveUser(u, t)).db == M.DropUser(s.db, u)
    ensures t in s.db.tenants && M.Enabled(s, M.NewUser(t, u)) ==>
              M.Step(s, M.NewUser(t, u)).db == s.db.(users := s.db.users[u := RbacTables.User(t, [])])
  {
  }

  lemma UserCreateLinked(s: System, op: Op)
    requires Enabled(s, op) && OneDatabase(s) && I.UsersSound(s.users) && CreatesUser(s, op)
    ensures OneDatabase(Step(s, op))
  {
    UserCreated(s.users, op.userOp);
    RbacUserRows(s.rbac, op.userOp.newId, op.userOp.tenantId);
    assert Step(s, op).rbac == M.Step(s.rbac, M.NewUser(op.userOp.tenantId, op.userOp.newId));
  }

  lemma UserDeleteLinked(s: System, op: Op)
    requires Enabled(s, op) && OneDatabase(s) && DeletesUser(s, op)
    ensures OneDatabase(Step(s, op))
  {
    UserDeleted(s.users, op.userOp);
    RbacUserRows(s.rbac, op.userOp.userId, op.userOp.tenantId);
    assert Step(s, op).rbac == M.Step(s.rbac, M.RemoveUser(op.userOp.userId, op.userOp.tenantId));
  }

  lemma UserStepLinked(s: System, op: Op)
    requires Enabled(s, op) && op.OnUsers? && OneDatabase(s) && I.UsersSound(s.users)
    ensures OneDatabase(Step(s, op))
  {
    if CreatesUser(s, op) {
      UserCreateLinked(s, op);
    } else if DeletesUser(s, op) {
      UserDeleteLinked(s, op);
    } else {
      UsersKept(s.users, op.userOp);
    }
  }

  lemma TickLinked(s: System, op: Op)
    requires op.Tick? || op.Process?
    requires Enabled(s, op) && OneDatabase(s)
    ensures OneDatabase(Step(s, op))
  {
  }

  lemma LossLinked(s: System, op: Op)
    requires Enabled(s, op) && op.Lose? && OneDatabase(s)
    ensures OneDatabase(Step(s, op))
  {
    match op.key
    case PermissionsK(t, u) => RbacLoss(s.rbac, u, t);
    case RolesK(t, u) => RbacLoss(s.rbac, u, t);
    case _ =>
  }

  lemma UsersStaySound(s: System, op: Op)
    requires Enabled(s, op) && I.UsersSound(s.users)
    ensures I.UsersSound(Step(s, op).users)
  {
    if UserPart(s, op).Some? {
      I.StepUsersSound(s.users, UserPart(s, op).value);
    }
  }

  lemma StepLinked(s: System, op: Op)
    requires Enabled(s, op) && OneDatabase(s) && I.UsersSound(s.users)
    ensures OneDatabase(Step(s, op)) && I.UsersSound(Step(s, op).users)
  {
    UsersStaySound(s, op);
    if op.OnRbac? {
      RbacStepLinked(s, op);
    } else if op.OnTenants? {
      TenantStepLinked(s, op);
    } else if op.OnUsers? {
      UserStepLinked(s, op);
    } else if op.Lose? {
      LossLinked(s, op);
    } else {
      TickLinked(s, op);
    }
  }

  /** A gateway just started. */
  ghost predicate Fresh(s: System) {
    SharedStore.Initial(s) && M.Initial(s.rbac) && T.Empty(s.tenants) && I.Empty(s.users)
  }

  lemma {:induction false} RunLinked(s: System, ops: seq<Op>)
    requires ValidRun(s, ops) && OneDatabase(s) && I.UsersSound(s.users)
    ensures OneDatabase(Run(s, ops))
    decreases |ops|
  {
    if ops != [] {
      StepLinked(s, ops[0]);
      RunLinked(Step(s, ops[0]), ops[1..]);
    }
  }

  // ----- The run of each service inside the run of the system -----

  ghost function RbacOps(s: System, ops: seq<Op>): seq<M.Op>
    requires ValidRun(s, ops)
    decreases |ops|
  {
    if ops == [] then []
    else
      var rest := RbacOps(Step(s, ops[0]), ops[1..]);
      if RbacPart(s, ops[0]).Some? then [RbacPart(s, ops[0]).value] + rest else rest
  }

  ghost function TenantOps(s: System, ops: seq<Op>): seq<T.Op>
    requires ValidRun(s, ops)
    decreases |ops|
  {
    if ops == [] then []
    else
      var rest := TenantOps(Step(s, ops[0]), ops[1..]);
      if TenantPart(s, ops[0]).Some? then [TenantPart(s, ops[0]).value] + rest else rest
  }

  lemma RbacRunPrepend(s: M.State, o: M.Op, rest: seq<M.Op>)
    requires M.Enabled(s, o) && M.ValidRun(M.Step(s, o), rest)
    ensures M.ValidRun(s, [o] + rest) && M.Run(s, [o] + rest) == M.Run(M.Step(s, o), rest)
  {
    assert ([o] + rest)[1..] == rest;
  }

  /** The RBAC tables and caches of the system come from a run of the RBAC model. */
  lemma {:induction false} RbacProjects(s: System, ops: seq<Op>)
    requires ValidRun(s, ops)
    ensures M.ValidRun(s.rbac, RbacOps(s, ops)) && M.Run(s.rbac, RbacOps(s, ops)) == Run(s, ops).rbac
    decreases |ops|
  {
    if ops != [] {
      RbacProjects(Step(s, ops[0]), ops[1..]);
      if RbacPart(s, ops[0]).Some? {
        RbacRunPrepend(s.rbac, RbacPart(s, ops[0]).value, RbacOps(Step(s, ops[0]), ops[1..]));
      }
    }
  }

  lemma TenantRunPrepend(s: T.State, o: T.Op, rest: seq<T.Op>)
    requires T.Enabled(s, o) && T.ValidRun(T.Step(s, o).0, rest)
    ensures T.ValidRun(s, [o] + rest) && T.Run(s, [o] + rest) == T.Run(T.Step(s, o).0, rest)
  {
    assert ([o] + rest)[1..] == rest;
  }

  /** So do the tenant table, cache and log. */
  lemma {:induction false} TenantsProject(s: System, ops: seq<Op>)
    requires ValidRun(s, ops)
    ensures T.ValidRun(s.tenants, TenantOps(s, ops)) && T.Run(s.tenants, TenantOps(s, ops)) == Run(s, ops).tenants
    decreases |ops|
  {
    if ops != [] {
      TenantsProject(Step(s, ops[0]), ops[1..]);
      if TenantPart(s, ops[0]).Some? {
        TenantRunPrepend(s.tenants, TenantPart(s, ops[0]).value, TenantOps(Step(s, ops[0]), ops[1..]));
      }
    }
  }

  lemma UserTracePrepend(s: I.State, o: I.Op, tr: I.Trace) returns (tr': I.Trace)
    requires I.Enabled(s, o) && |tr.states| == |tr.events| + 1 && tr.states[0] == I.Step(s, o).0
    requires forall i :: I.StepAt(tr, i)
    ensures |tr'.states| == |tr'.events| + 1 && tr'.states[0] == s && (forall i :: I.StepAt(tr', i))
    ensures tr'.states[|tr'.events|] == tr.states[|tr.events|]
  {
    tr' := I.Trace([s] + tr.states, [I.Event(o, I.Step(s, o).1, s.now)] + tr.events);
    forall i
      ensures I.StepAt(tr', i)
    {
      assert I.StepAt(tr, i - 1);
    }
  }

  lemma {:induction false} UserStepsProject(s: System, ops: seq<Op>) returns (tr: I.Trace)
    requires ValidRun(s, ops)
    ensures |tr.states| == |tr.events| + 1 && tr.states[0] == s.users && (forall i :: I.StepAt(tr, i))
    ensures tr.states[|tr.events|] == Run(s, ops).users
    decreases |ops|
  {
    if ops == [] {
      tr := I.Trace([s.users], []);
    } else {
      tr := UserStepsProject(Step(s, ops[0]), ops[1..]);
      if UserPart(s, ops[0]).Some? {
        tr := UserTracePrepend(s.users, UserPart(s, ops[0]).value, tr);
      }
    }
  }

  /** And the user tables, tokens and profiles. */
  lemma UsersProject(s: System, ops: seq<Op>) returns (tr: I.Trace)
    requires Fresh(s) && ValidRun(s, ops)
    ensures I.Valid(tr) && tr.states[|tr.events|] == Run(s, ops).users
  {
    tr := UserStepsProject(s, ops);
  }

  // ----- What is found in the store -----

  /** After any run of the system its three models agree on tenants and users, and whatever
      is found in the store is right:
      - a tenant is the row as it is;
      - a profile is that user's, and agrees with the row on what no service changes behind
        the cache's back, or the user went with the tenant;
      - the lists of a user contain whatever the tables grant. */
  lemma StoreIsRight(s: System, ops: seq<Op>, t: Id, u: Id, now: int)
    requires Fresh(s) && ValidRun(s, ops) && ':' !in t
    ensures var s', found := Run(s, ops), Visible(Run(s, ops).server);
            && OneDatabase(s')
            && (Lookup(found, TenantKey(t), now).Some? ==>
                  t in s'.tenants.tenants &&
                  Lookup(found, TenantKey(t), now).value == TenantDto(T.FormatResponse(t, s'.tenants.tenants[t])))
            && (Lookup(found, UserKey(u), now).Some? ==>
                  Lookup(found, UserKey(u), now).value.UserDto? &&
                  U.EntrySound(s'.users, u, Lookup(found, UserKey(u), now).value.user))
            && (Lookup(found, PermissionsKey(t, u), now).Some? ==>
                  Lookup(found, PermissionsKey(t, u), now).value.PermissionList? &&
                  forall r :: Grants(s'.rbac.db, u, t, r) ==>
                                r in Lookup(found, PermissionsKey(t, u), now).value.permissions)
            && (Lookup(found, RolesKey(t, u), now).Some? ==>
                  Lookup(found, RolesKey(t, u), now).value.NameList? &&
                  forall name :: HoldsRole(s'.rbac.db, u, t, name) ==>
                                   name in Lookup(found, RolesKey(t, u), now).value.names)
  {
    RunLinked(s, ops);
    TenantFoundRight(s, ops, t, now);
    ProfileFoundRight(s, ops, u, now);
    ListsFoundRight(s, ops, t, u, now);
  }

  lemma TenantFoundRight(s: System, ops: seq<Op>, t: Id, now: int)
    requires Fresh(s) && ValidRun(s, ops)
    ensures var s', found := Run(s, ops), Visible(Run(s, ops).server);
            Lookup(found, TenantKey(t), now).Some? ==>
              t in s'.tenants.tenants &&
              Lookup(found, TenantKey(t), now).value == TenantDto(T.FormatResponse(t, s'.tenants.tenants[t]))
  {
    ServicesSeeOwnCaches(s, ops, TenantK(t), now);
    TenantsProject(s, ops);
    T.RunKeeps(s.tenants, TenantOps(s, ops));
  }

  lemma ProfileFoundRight(s: System, ops: seq<Op>, u: Id, now: int)
    requires Fresh(s) && ValidRun(s, ops)
    ensures var s', found := Run(s, ops), Visible(Run(s, ops).server);
            Lookup(found, UserKey(u), now).Some? ==>
              Lookup(found, UserKey(u), now).value.UserDto? &&
              U.EntrySound(s'.users, u, Lookup(found, UserKey(u), now).value.user)
  {
    ServicesSeeOwnCaches(s, ops, UserK(u), now);
    var tr := UsersProject(s, ops);
    U.UserCacheCoherent(tr, |tr.events|);
  }

  lemma ListsFoundRight(s: System, ops: seq<Op>, t: Id, u: Id, now: int)
    requires Fresh(s) && ValidRun(s, ops) && ':' !in t
    ensures var s', found := Run(s, ops), Visible(Run(s, ops).server);
            && (Lookup(found, PermissionsKey(t, u), now).Some? ==>
                  Lookup(found, PermissionsKey(t, u), now).value.PermissionList? &&
                  forall r :: Grants(s'.rbac.db, u, t, r) ==>
                                r in Lookup(found, PermissionsKey(t, u), now).value.permissions)
            && (Lookup(found, RolesKey(t, u), now).Some? ==>
                  Lookup(found, RolesKey(t, u), now).value.NameList? &&
                  forall name :: HoldsRole(s'.rbac.db, u, t, name) ==>
                                   name in Lookup(found, RolesKey(t, u), now).value.names)
  {
    ServicesSeeOwnCaches(s, ops, PermissionsK(t, u), now);
    ServicesSeeOwnCaches(s, ops, RolesK(t, u), now);
    RbacProjects(s, ops);
    R.CachedContainsFresh(s.rbac, RbacOps(s, ops));
  }

  /** The guard never refuses a caller of the shared system whom the tables entitle. */
  lemma SharedDenialNeverStale(s: System, ops: seq<Op>, permissions: Option<seq<Requirement>>,
                               roles: Option<seq<string>>, caller: Option<G.Caller>)
    requires Fresh(s) && ValidRun(s, ops)
    ensures var rbac := Run(s, ops).rbac;
            G.CanActivate(rbac, permissions, roles, caller).1.Forbidden? ==>
              G.CanActivate(G.Uncached(rbac), permissions, roles, caller).1.Forbidden?
  {
    RbacProjects(s, ops);
    G.DenialNeverStale(s.rbac, RbacOps(s, ops), permissions, roles, caller);
  }
}
