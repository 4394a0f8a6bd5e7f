/** Three services on one database and one string-keyed store: what each of them sees in the
    store is what its own model says it caches. */
module SharedStore {
  import opened Prelude
  import opened CacheKeys
  import opened RbacTables
  import S = CacheStore
  import M = RbacMachine
  import R = RbacRuns
  import T = Tenants
  import I = Identity

  /** What the services put behind a key. */
  datatype Value =
    | PermissionList(permissions: seq<Requirement>)
    | NameList(names: seq<string>)
    | TenantDto(tenant: T.TenantDto)
    | UserDto(user: I.UserDto)

  type Server = S.State<Entry<Value>>

  type Command = S.Event<Entry<Value>>

  /** The cache tables of the service models. */
  datatype Caches = Caches(
    perms: map<(Id, Id), Entry<seq<Requirement>>>,
    names: map<(Id, Id), Entry<seq<string>>>,
    tenants: map<Id, Entry<T.TenantDto>>,
    users: map<Id, Entry<I.UserDto>>)

  predicate Holds(c: Caches, k: Key) {
    match k
    case PermissionsK(t, u) => (t, u) in c.perms
    case RolesK(t, u) => (t, u) in c.names
    case TenantK(t) => t in c.tenants
    case UserK(u) => u in c.users
    case TenantListK => false
    case UserListK(_) => false
  }

  function Content(c: Caches, k: Key): Entry<Value>
    requires Holds(c, k)
  {
    match k
    case PermissionsK(t, u) => Entry(PermissionList(c.perms[(t, u)].value), c.perms[(t, u)].expiresAt)
    case RolesK(t, u) => Entry(NameList(c.names[(t, u)].value), c.names[(t, u)].expiresAt)
    case TenantK(t) => Entry(TenantDto(c.tenants[t].value), c.tenants[t].expiresAt)
    case UserK(u) => Entry(UserDto(c.users[u].value), c.users[u].expiresAt)
  }

  function Keys(c: Caches): set<Key> {
    (set p | p in c.perms :: PermissionsK(p.0, p.1)) + (set p | p in c.names :: RolesK(p.0, p.1)) +
    (set t | t in c.tenants :: TenantK(t)) + (set u | u in c.users :: UserK(u))
  }

  lemma KeysHeld(c: Caches, k: Key)
    ensures k in Keys(c) <==> Holds(c, k)
  {
    match k
    case PermissionsK(t, u) => assert (t, u).0 == t && (t, u).1 == u;
    case RolesK(t, u) => assert (t, u).0 == t && (t, u).1 == u;
    case _ =>
  }

  /** The four tables as one. */
  ghost function Typed(c: Caches): (m: map<Key, Entry<Value>>)
    ensures forall k :: k in m <==> Holds(c, k)
    ensures forall k :: k in m ==> m[k] == Content(c, k)
  {
    assert forall k :: k in Keys(c) <==> Holds(c, k) by {
      forall k
        ensures k in Keys(c) <==> Holds(c, k)
      {
        KeysHeld(c, k);
      }
    }
    map k | k in Keys(c) :: Content(c, k)
  }

  /** What the server holds once it has executed everything sent. */
  function Visible(server: Server): map<string, Entry<Value>> {
    S.Drain(server.store, server.pending)
  }

  ghost predicate Shows(server: Server, c: Caches) {
    Agrees(Visible(server), Typed(c))
  }

  // ----- One command -----

  /** `c'` is `c` with `v` stored under `k`. */
  ghost predicate Puts(c: Caches, c': Caches, k: Key, v: Entry<Value>) {
    && Holds(c', k) && Content(c', k) == v
    && forall l :: l != k ==> (Holds(c', l) <==> Holds(c, l)) && (Holds(c, l) ==> Content(c', l) == Content(c, l))
  }

  /** `c'` is `c` without the entries of `gone`. */
  ghost predicate Drops(c: Caches, c': Caches, gone: set<Key>) {
    && (forall k :: Holds(c', k) <==> Holds(c, k) && k !in gone)
    && (forall k :: Holds(c', k) ==> Content(c', k) == Content(c, k))
  }

  // ----- One table changed -----

  lemma PutsPermissions(c: Caches, t: Id, u: Id, e: Entry<seq<Requirement>>)
    ensures Puts(c, c.(perms := c.perms[(t, u) := e]), PermissionsK(t, u), Entry(PermissionList(e.value), e.expiresAt))
  {
  }

  lemma PutsNames(c: Caches, t: Id, u: Id, e: Entry<seq<string>>)
    ensures Puts(c, c.(names := c.names[(t, u) := e]), RolesK(t, u), Entry(NameList(e.value), e.expiresAt))
  {
  }

  lemma PutsTenant(c: Caches, t: Id, e: Entry<T.TenantDto>)
    ensures Puts(c, c.(tenants := c.tenants[t := e]), TenantK(t), Entry(TenantDto(e.value), e.expiresAt))
  {
  }

  lemma PutsUser(c: Caches, u: Id, e: Entry<I.UserDto>)
    ensures Puts(c, c.(users := c.users[u := e]), UserK(u), Entry(UserDto(e.value), e.expiresAt))
  {
  }

  /** The caches without the entry of `k`, if there is one. */
  function Forget(c: Caches, k: Key): Caches {
    match k
    case PermissionsK(t, u) => c.(perms := c.perms - {(t, u)})
    case RolesK(t, u) => c.(names := c.names - {(t, u)})
    case TenantK(t) => c.(tenants := c.tenants - {t})
    case UserK(u) => c.(users := c.users - {u})
    case _ => c
  }

  lemma ForgetDrops(c: Caches, k: Key)
    ensures Drops(c, Forget(c, k), {k})
  {
  }

  lemma PutsTyped(c: Caches, c': Caches, k: Key, v: Entry<Value>)
    requires Puts(c, c', k, v)
    ensures Typed(c') == Typed(c)[k := v]
  {
  }

  lemma DropsTyped(c: Caches, c': Caches, gone: set<Key>)
    requires Drops(c, c', gone)
    ensures Typed(c') == Typed(c) - gone
  {
  }

  lemma SetShows(server: Server, c: Caches, c': Caches, k: Key, v: Entry<Value>)
    requires Shows(server, c) && Separable(k) && Puts(c, c', k, v)
    ensures Shows(S.Step(server, S.Set(Render(k), v)), c')
  {
    S.DrainAppend(server.store, server.pending, [S.SetCommand(Render(k), v)]);
    SetAgrees(Visible(server), Typed(c), k, v);
    PutsTyped(c, c', k, v);
  }

  lemma DelShows(server: Server, c: Caches, k: Key)
    requires Shows(server, c) && Separable(k)
    ensures Shows(S.Step(server, S.Del(Render(k))), Forget(c, k))
  {
    S.DrainAppend(server.store, server.pending, [S.DelCommand(Render(k))]);
    ForgetShows(Visible(server), c, k);
  }

  lemma ForgetShows(found: map<string, Entry<Value>>, c: Caches, k: Key)
    requires Agrees(found, Typed(c)) && Separable(k)
    ensures Agrees(found - {Render(k)}, Typed(Forget(c, k)))
  {
    DelAgrees(found, Typed(c), {k});
    assert RenderAll({k}) == {Render(k)};
    ForgetDrops(c, k);
    DropsTyped(c, Forget(c, k), {k});
  }

  /** A key of one of the lists besides an entry's own changes nothing. */
  lemma DelPairShows(server: Server, c: Caches, k: Key, list: Key)
    requires Shows(server, c) && Separable(k) && (list.TenantListK? || list.UserListK?)
    ensures Shows(S.Step(server, S.DelMultiple([Render(k), Render(list)])), Forget(c, k))
  {
    assert RenderAll({k, list}) == {Render(k), Render(list)};
    S.InvalidationExact(server, [Render(k), Render(list)], {k, list}, Typed(c));
    ForgetDrops(c, k);
    DropsTyped(c, Forget(c, k), {k, list});
  }

  lemma DelTwoShows(server: Server, c: Caches, k: Key, l: Key)
    requires Shows(server, c) && Separable(k) && Separable(l)
    ensures Shows(S.Step(S.Step(server, S.Del(Render(k))), S.Del(Render(l))), Forget(Forget(c, k), l))
  {
    DelShows(server, c, k);
    DelShows(S.Step(server, S.Del(Render(k))), Forget(c, k), l);
  }

  /** The keys `invalidateTenant` sends: of everything the services store, exactly the
      tenant's own entry goes. */
  lemma InvalidateTenantShows(server: Server, c: Caches, t: Id)
    requires Shows(server, c)
    ensures Shows(S.Step(server, S.DelMultiple([TenantKey(t), TenantListKey()])), c.(tenants := c.tenants - {t}))
  {
    DelPairShows(server, c, TenantK(t), TenantListK);
  }

  /** The keys `invalidateUser` sends: exactly the user's own entry goes. */
  lemma InvalidateUserShows(server: Server, c: Caches, u: Id, t: Id)
    requires Shows(server, c)
    ensures Shows(S.Step(server, S.DelMultiple([UserKey(u), UserListKey(t)])), c.(users := c.users - {u}))
  {
    DelPairShows(server, c, UserK(u), UserListK(t));
  }

  /** The two deletions of `invalidateUserRbacCache`: exactly the user's two lists go. */
  lemma InvalidateRbacShows(server: Server, c: Caches, u: Id, t: Id)
    requires Shows(server, c) && ':' !in t
    ensures var server' := S.Step(S.Step(server, S.Del(PermissionsKey(t, u))), S.Del(RolesKey(t, u)));
            Shows(server', c.(perms := c.perms - {(t, u)}, names := c.names - {(t, u)}))
  {
    DelTwoShows(server, c, PermissionsK(t, u), RolesK(t, u));
  }

  // ----- What each service call sends -----

  function Send(server: Server, commands: seq<Command>): Server
    requires forall i :: 0 <= i < |commands| ==> commands[i].Set? || commands[i].Del? || commands[i].DelMultiple?
  {
    if commands == [] then server
    else S.Step(Send(server, commands[..|commands| - 1]), commands[|commands| - 1])
  }

  lemma SendTwo(server: Server, a: Command, b: Command)
    requires a.Set? || a.Del? || a.DelMultiple?
    requires b.Set? || b.Del? || b.DelMultiple?
    ensures Send(server, [a]) == S.Step(server, a)
    ensures Send(server, [a, b]) == S.Step(S.Step(server, a), b)
  {
    assert [a][..0] == [] && [a, b][..1] == [a];
  }

  /** The RBAC calls. */
  function RbacSent(s: M.State, op: M.Op): (r: seq<Command>)
    ensures forall i :: 0 <= i < |r| ==> r[i].Set? || r[i].Del? || r[i].DelMultiple?
  {
    match op
    case ReadPermissions(u, t) =>
      if Lookup(s.perms, (t, u), s.now).None? && QueryPermissions(s.db, u, t).Some? then
        [S.Set(Render(PermissionsK(t, u)), Entry(PermissionList(QueryPermissions(s.db, u, t).value), s.now + s.ttl))]
      else []
    case ReadNames(u, t) =>
      if Lookup(s.names, (t, u), s.now).None? && QueryNames(s.db, u, t).Some? then
        [S.Set(Render(RolesK(t, u)), Entry(NameList(QueryNames(s.db, u, t).value), s.now + s.ttl))]
      else []
    case Assign(u, r, t) =>
      if HasUser(s.db, u, t) && M.HasRoleRow(s.db, r, t) && r !in s.db.users[u].roleIds then
        [S.Del(Render(PermissionsK(t, u))), S.Del(Render(RolesK(t, u)))]
      else []
    case Remove(u, r, t) =>
      if HasUser(s.db, u, t) then [S.Del(Render(PermissionsK(t, u))), S.Del(Render(RolesK(t, u)))] else []
    case _ => []
  }

  function TenantSent(s: T.State, op: T.Op): (r: seq<Command>)
    ensures forall i :: 0 <= i < |r| ==> r[i].Set? || r[i].Del? || r[i].DelMultiple?
  {
    match op
    case Create(p, newId) =>
      if T.SlugInUse(s.tenants, p.slug) then []
      else
        [S.Set(Render(TenantK(newId)), Entry(TenantDto(T.FormatResponse(newId, T.NewRow(p, s.now))), s.now + s.ttl)),
         S.Del(Render(TenantListK))]
    case FindById(id) =>
      if Lookup(s.cache, id, s.now).None? && id in s.tenants then
        [S.Set(Render(TenantK(id)), Entry(TenantDto(T.FormatResponse(id, s.tenants[id])), s.now + s.ttl))]
      else []
    case Update(id, p) =>
      if T.DoUpdate(s, id, p).1.Served? then [S.DelMultiple([Render(TenantK(id)), Render(TenantListK)])] else []
    case Delete(id) => if id in s.tenants then [S.DelMultiple([Render(TenantK(id)), Render(TenantListK)])] else []
    case _ => []
  }

  function UserSent(s: I.State, op: I.Op): (r: seq<Command>)
    ensures forall i :: 0 <= i < |r| ==> r[i].Set? || r[i].Del? || r[i].DelMultiple?
  {
    match op
    case CreateUser(t, _, _, _, newId) =>
      if I.DoCreateUser(s, op).1.Created? then
        [S.Set(Render(UserK(newId)),
               Entry(UserDto(I.FormatResponse(newId, I.NewUser(op, I.Active, s.now))), s.now + s.ttl)),
         S.Del(Render(UserListK(t)))]
      else []
    case FindUser(t, u) =>
      var cached := Lookup(s.cache, u, s.now);
      if !(cached.Some? && cached.value.tenantId == t) && I.Has(s.users, t, u) then
        [S.Set(Render(UserK(u)), Entry(UserDto(I.FormatResponse(u, s.users[u])), s.now + s.ttl))]
      else []
    case UpdateUser(t, u, _, _) =>
      if I.Has(s.users, t, u) then [S.DelMultiple([Render(UserK(u)), Render(UserListK(t))])] else []
    case DeleteUser(t, u) =>
      if I.Has(s.users, t, u) then [S.DelMultiple([Render(UserK(u)), Render(UserListK(t))])] else []
    case _ => []
  }

  // ----- The whole -----

  datatype System = System(server: Server, rbac: M.State, tenants: T.State, users: I.State)

  function CachesOf(s: System): Caches {
    Caches(s.rbac.perms, s.rbac.names, s.tenants.cache, s.users.cache)
  }

  /** One service call; the server executing its next command; time passing; or the server
      losing an entry. */
  datatype Op =
    | OnRbac(rbacOp: M.Op)
    | OnTenants(tenantOp: T.Op)
    | OnUsers(userOp: I.Op)
    | Process
    | Tick(elapsed: nat)
    | Lose(key: Key)

  /** Time and losses are the system's, not one service's; tenants come and go by the tenant
      service, users by the user service and by registering.  Ids are the database's. */
  ghost predicate Enabled(s: System, op: Op) {
    match op
    case OnRbac(o) =>
      M.Enabled(s.rbac, o) && !o.Tick? && !o.EvictPermissions? && !o.EvictNames? &&
      !o.NewTenant? && !o.RemoveTenant? && !o.NewUser? && !o.RemoveUser? &&
      ((o.ReadPermissions? || o.ReadNames? || o.Assign? || o.Remove?) ==> ':' !in o.tenantId)
    case OnTenants(o) =>
      T.Enabled(s.tenants, o) && !o.Tick? && !o.Evict? &&
      (o.Create? ==> o.newId !in s.rbac.issued && o.newId !in s.users.issued)
    case OnUsers(o) =>
      I.Enabled(s.users, o) && !o.Tick? && !o.Evict? && !o.NewTenant? && !o.DropTenant? &&
      ((o.CreateUser? || o.Register?) ==> o.newId !in s.rbac.issued)
    case Process => s.server.pending != []
    case Lose(k) => Separable(k)
    case _ => true
  }

  predicate Mentions(pending: seq<S.Command<Entry<Value>>>, key: string) {
    exists i :: 0 <= i < |pending| && pending[i].key == key
  }

  /** A lost entry does not matter if a command about its key is still to be executed. */
  predicate Loses(s: System, op: Op) {
    op.Lose? && !Mentions(s.server.pending, Render(op.key))
  }

  ghost predicate CreatesTenant(s: System, op: Op) {
    op.OnTenants? && op.tenantOp.Create? && T.Step(s.tenants, op.tenantOp).1.Served?
  }

  ghost predicate DeletesTenant(s: System, op: Op) {
    op.OnTenants? && op.tenantOp.Delete? && T.Step(s.tenants, op.tenantOp).1.Done?
  }

  ghost predicate CreatesUser(s: System, op: Op) {
    op.OnUsers? && (op.userOp.CreateUser? || op.userOp.Register?) && I.Step(s.users, op.userOp).1.Created?
  }

  ghost predicate DeletesUser(s: System, op: Op) {
    op.OnUsers? && op.userOp.DeleteUser? && I.Step(s.users, op.userOp).1.Done?
  }

  /** What the step is to the RBAC model: its own call, or a row another service added or
      removed in the tables they share. */
  ghost function RbacPart(s: System, op: Op): Option<M.Op> {
    if op.OnRbac? then Some(op.rbacOp)
    else if op.Tick? then Some(M.Tick(op.elapsed))
    else if CreatesTenant(s, op) then Some(M.NewTenant(op.tenantOp.newId))
    else if DeletesTenant(s, op) then Some(M.RemoveTenant(op.tenantOp.id))
    else if CreatesUser(s, op) then Some(M.NewUser(op.userOp.tenantId, op.userOp.newId))
    else if DeletesUser(s, op) then Some(M.RemoveUser(op.userOp.userId, op.userOp.tenantId))
    else if Loses(s, op) && op.key.PermissionsK? then Some(M.EvictPermissions(op.key.userId, op.key.tenantId))
    else if Loses(s, op) && op.key.RolesK? then Some(M.EvictNames(op.key.userId, op.key.tenantId))
    else None
  }

  ghost function TenantPart(s: System, op: Op): Option<T.Op> {
    if op.OnTenants? then Some(op.tenantOp)
    else if op.Tick? then Some(T.Tick(op.elapsed))
    else if Loses(s, op) && op.key.TenantK? then Some(T.Evict(op.key.tenantId))
    else None
  }

  ghost function UserPart(s: System, op: Op): Option<I.Op> {
    if op.OnUsers? then Some(op.userOp)
    else if op.Tick? then Some(I.Tick(op.elapsed))
    else if CreatesTenant(s, op) then Some(I.NewTenant(op.tenantOp.newId))
    else if DeletesTenant(s, op) then Some(I.DropTenant(op.tenantOp.id))
    else if Loses(s, op) && op.key.UserK? then Some(I.Evict(op.key.userId))
    else None
  }

  ghost function StepRbac(s: M.State, part: Option<M.Op>): M.State
    requires part.Some? ==> M.Enabled(s, part.value)
  {
    if part.Some? then M.Step(s, part.value) else s
  }

  ghost function StepTenants(s: T.State, part: Option<T.Op>): T.State {
    if part.Some? then T.Step(s, part.value).0 else s
  }

  ghost function StepUsers(s: I.State, part: Option<I.Op>): I.State {
    if part.Some? then I.Step(s, part.value).0 else s
  }

  ghost function StepServer(s: System, op: Op): Server
    requires Enabled(s, op)
  {
    match op
    case OnRbac(o) => Send(s.server, RbacSent(s.rbac, o))
    case OnTenants(o) => Send(s.server, TenantSent(s.tenants, o))
    case OnUsers(o) => Send(s.server, UserSent(s.users, o))
    case Process => S.Step(s.server, S.Process)
    case Tick(_) => s.server
    case Lose(k) => S.Step(s.server, S.Expire({Render(k)}))
  }

  ghost function Step(s: System, op: Op): System
    requires Enabled(s, op)
  {
    System(StepServer(s, op), StepRbac(s.rbac, RbacPart(s, op)), StepTenants(s.tenants, TenantPart(s, op)),
           StepUsers(s.users, UserPart(s, op)))
  }

  ghost predicate ValidRun(s: System, ops: seq<Op>)
    decreases |ops|
  {
    ops == [] || (Enabled(s, ops[0]) && ValidRun(Step(s, ops[0]), ops[1..]))
  }

  ghost function Run(s: System, ops: seq<Op>): System
    requires ValidRun(s, ops)
    decreases |ops|
  {
    if ops == [] then s else Run(Step(s, ops[0]), ops[1..])
  }

  /** A call that sends nothing leaves its tables alone. */
  lemma RbacQuiet(s: M.State, o: M.Op)
    requires M.Enabled(s, o) && RbacSent(s, o) == [] && !o.EvictPermissions? && !o.EvictNames?
    ensures M.Step(s, o).perms == s.perms && M.Step(s, o).names == s.names
  {
    if o.Onboard? {
      R.DefaultsKeepCaches(s, o.tenantId, o.listed, o.newIds, |M.DEFAULT_ROLES|);
    }
  }

  lemma SetOneShows(server: Server, c: Caches, c': Caches, k: Key, command: Command)
    requires Shows(server, c) && Separable(k)
    requires command.Set? && command.key == Render(k) && Puts(c, c', k, command.value)
    ensures Shows(Send(server, [command]), c')
  {
    SendTwo(server, command, command);
    SetShows(server, c, c', k, command.value);
  }

  /** A fill and the deletion of a list key behind it. */
  lemma SetDelShows(server: Server, c: Caches, c': Caches, k: Key, command: Command, list: Key)
    requires Shows(server, c) && Separable(k)
    requires command.Set? && command.key == Render(k) && Puts(c, c', k, command.value)
    requires list.TenantListK? || list.UserListK?
    ensures Shows(Send(server, [command, S.Del(Render(list))]), c')
  {
    SendTwo(server, command, S.Del(Render(list)));
    SetShows(server, c, c', k, command.value);
    DelShows(S.Step(server, command), c', list);
  }

  lemma DelPairSent(server: Server, c: Caches, k: Key, list: Key)
    requires Shows(server, c) && Separable(k) && (list.TenantListK? || list.UserListK?)
    ensures Shows(Send(server, [S.DelMultiple([Render(k), Render(list)])]), Forget(c, k))
  {
    SendTwo(server, S.DelMultiple([Render(k), Render(list)]), S.Del(Render(list)));
    DelPairShows(server, c, k, list);
  }

  lemma DelTwoSent(server: Server, c: Caches, k: Key, l: Key)
    requires Shows(server, c) && Separable(k) && Separable(l)
    ensures Shows(Send(server, [S.Del(Render(k)), S.Del(Render(l))]), Forget(Forget(c, k), l))
  {
    SendTwo(server, S.Del(Render(k)), S.Del(Render(l)));
    DelTwoShows(server, c, k, l);
  }

  lemma PermissionsSetShows(server: Server, c: Caches, t: Id, u: Id, e: Entry<seq<Requirement>>)
    requires Shows(server, c) && ':' !in t
    ensures Shows(Send(server, [S.Set(Render(PermissionsK(t, u)), Entry(PermissionList(e.value), e.expiresAt))]),
                  c.(perms := c.perms[(t, u) := e]))
  {
    var command := S.Set(Render(PermissionsK(t, u)), Entry(PermissionList(e.value), e.expiresAt));
    PutsPermissions(c, t, u, e);
    SetOneShows(server, c, c.(perms := c.perms[(t, u) := e]), PermissionsK(t, u), command);
  }

  lemma NamesSetShows(server: Server, c: Caches, t: Id, u: Id, e: Entry<seq<string>>)
    requires Shows(server, c) && ':' !in t
    ensures Shows(Send(server, [S.Set(Render(RolesK(t, u)), Entry(NameList(e.value), e.expiresAt))]),
                  c.(names := c.names[(t, u) := e]))
  {
    var command := S.Set(Render(RolesK(t, u)), Entry(NameList(e.value), e.expiresAt));
    PutsNames(c, t, u, e);
    SetOneShows(server, c, c.(names := c.names[(t, u) := e]), RolesK(t, u), command);
  }

  /** What an RBAC call does to its two tables. */
  lemma RbacTablesAfter(s: M.State, o: M.Op)
    requires M.Enabled(s, o) && RbacSent(s, o) != []
    ensures o.ReadPermissions? ==>
              QueryPermissions(s.db, o.userId, o.tenantId).Some? &&
              var e := Entry(QueryPermissions(s.db, o.userId, o.tenantId).value, s.now + s.ttl);
              var k := PermissionsK(o.tenantId, o.userId);
              && M.Step(s, o).perms == s.perms[(o.tenantId, o.userId) := e] && M.Step(s, o).names == s.names
              && RbacSent(s, o) == [S.Set(Render(k), Entry(PermissionList(e.value), e.expiresAt))]
    ensures o.ReadNames? ==>
              QueryNames(s.db, o.userId, o.tenantId).Some? &&
              var e := Entry(QueryNames(s.db, o.userId, o.tenantId).value, s.now + s.ttl);
              var k := RolesK(o.tenantId, o.userId);
              && M.Step(s, o).names == s.names[(o.tenantId, o.userId) := e] && M.Step(s, o).perms == s.perms
              && RbacSent(s, o) == [S.Set(Render(k), Entry(NameList(e.value), e.expiresAt))]
    ensures !o.ReadPermissions? && !o.ReadNames? ==>
              (o.Assign? || o.Remove?) &&
              var k, l := PermissionsK(o.tenantId, o.userId), RolesK(o.tenantId, o.userId);
              && M.Step(s, o).perms == s.perms - {(o.tenantId, o.userId)}
              && M.Step(s, o).names == s.names - {(o.tenantId, o.userId)}
              && RbacSent(s, o) == [S.Del(Render(k)), S.Del(Render(l))]
  {
  }

  lemma ReadPermissionsShows(server: Server, c: Caches, s: M.State, o: M.Op)
    requires Shows(server, c) && c.perms == s.perms && o.ReadPermissions? && ':' !in o.tenantId && RbacSent(s, o) != []
    ensures Shows(Send(server, RbacSent(s, o)), c.(perms := M.Step(s, o).perms))
  {
    RbacTablesAfter(s, o);
    var e := Entry(QueryPermissions(s.db, o.userId, o.tenantId).value, s.now + s.ttl);
    PermissionsSetShows(server, c, o.tenantId, o.userId, e);
  }

  lemma ReadNamesShows(server: Server, c: Caches, s: M.State, o: M.Op)
    requires Shows(server, c) && c.names == s.names && o.ReadNames? && ':' !in o.tenantId && RbacSent(s, o) != []
    ensures Shows(Send(server, RbacSent(s, o)), c.(names := M.Step(s, o).names))
  {
    RbacTablesAfter(s, o);
    var e := Entry(QueryNames(s.db, o.userId, o.tenantId).value, s.now + s.ttl);
    NamesSetShows(server, c, o.tenantId, o.userId, e);
  }

  lemma RewriteShows(server: Server, c: Caches, s: M.State, o: M.Op)
    requires Shows(server, c) && c.perms == s.perms && c.names == s.names && M.Enabled(s, o)
    requires RbacSent(s, o) != [] && !o.ReadPermissions? && !o.ReadNames?
    requires o.Assign? || o.Remove? ==> ':' !in o.tenantId
    ensures Shows(Send(server, RbacSent(s, o)), c.(perms := M.Step(s, o).perms, names := M.Step(s, o).names))
  {
    RbacTablesAfter(s, o);
    DelTwoSent(server, c, PermissionsK(o.tenantId, o.userId), RolesK(o.tenantId, o.userId));
  }

  lemma RbacShows(server: Server, c: Caches, s: M.State, o: M.Op)
    requires Shows(server, c) && c.perms == s.perms && c.names == s.names
    requires M.Enabled(s, o) && !o.EvictPermissions? && !o.EvictNames?
    requires (o.ReadPermissions? || o.ReadNames? || o.Assign? || o.Remove?) ==> ':' !in o.tenantId
    ensures Shows(Send(server, RbacSent(s, o)), c.(perms := M.Step(s, o).perms, names := M.Step(s, o).names))
  {
    if RbacSent(s, o) == [] {
      RbacQuiet(s, o);
    } else if o.ReadPermissions? {
      RbacTablesAfter(s, o);
      ReadPermissionsShows(server, c, s, o);
    } else if o.ReadNames? {
      RbacTablesAfter(s, o);
      ReadNamesShows(server, c, s, o);
    } else {
      RewriteShows(server, c, s, o);
    }
  }

  lemma TenantSetShows(server: Server, c: Caches, t: Id, e: Entry<T.TenantDto>)
    requires Shows(server, c)
    ensures var command := S.Set(Render(TenantK(t)), Entry(TenantDto(e.value), e.expiresAt));
            && Shows(Send(server, [command]), c.(tenants := c.tenants[t := e]))
            && Shows(Send(server, [command, S.Del(Render(TenantListK))]), c.(tenants := c.tenants[t := e]))
  {
    var command := S.Set(Render(TenantK(t)), Entry(TenantDto(e.value), e.expiresAt));
    PutsTenant(c, t, e);
    SetOneShows(server, c, c.(tenants := c.tenants[t := e]), TenantK(t), command);
    SetDelShows(server, c, c.(tenants := c.tenants[t := e]), TenantK(t), command, TenantListK);
  }

  /** What a tenant call does to the cache table. */
  lemma TenantTableAfter(s: T.State, o: T.Op)
    requires !o.Evict?
    ensures TenantSent(s, o) == [] ==> T.Step(s, o).0.cache == s.cache
    ensures TenantSent(s, o) != [] && o.Create? ==>
              var e := Entry(T.FormatResponse(o.newId, T.NewRow(o.payload, s.now)), s.now + s.ttl);
              && T.Step(s, o).0.cache == s.cache[o.newId := e]
              && TenantSent(s, o) ==
                 [S.Set(Render(TenantK(o.newId)), Entry(TenantDto(e.value), e.expiresAt)), S.Del(Render(TenantListK))]
    ensures TenantSent(s, o) != [] && o.FindById? ==>
              o.id in s.tenants &&
              var e := Entry(T.FormatResponse(o.id, s.tenants[o.id]), s.now + s.ttl);
              && T.Step(s, o).0.cache == s.cache[o.id := e]
              && TenantSent(s, o) == [S.Set(Render(TenantK(o.id)), Entry(TenantDto(e.value), e.expiresAt))]
    ensures TenantSent(s, o) != [] && !o.Create? && !o.FindById? ==>
              && (o.Update? || o.Delete?) && T.Step(s, o).0.cache == s.cache - {o.id}
              && TenantSent(s, o) == [S.DelMultiple([Render(TenantK(o.id)), Render(TenantListK)])]
  {
  }

  lemma TenantShows(server: Server, c: Caches, s: T.State, o: T.Op)
    requires Shows(server, c) && c.tenants == s.cache && !o.Evict?
    ensures Shows(Send(server, TenantSent(s, o)), c.(tenants := T.Step(s, o).0.cache))
  {
    TenantTableAfter(s, o);
    if TenantSent(s, o) == [] {
    } else if o.Create? {
      TenantSetShows(server, c, o.newId, Entry(T.FormatResponse(o.newId, T.NewRow(o.payload, s.now)), s.now + s.ttl));
    } else if o.FindById? {
      TenantSetShows(server, c, o.id, Entry(T.FormatResponse(o.id, s.tenants[o.id]), s.now + s.ttl));
    } else {
      DelPairSent(server, c, TenantK(o.id), TenantListK);
    }
  }

  lemma UserSetShows(server: Server, c: Caches, u: Id, t: Id, e: Entry<I.UserDto>)
    requires Shows(server, c)
    ensures var command := S.Set(Render(UserK(u)), Entry(UserDto(e.value), e.expiresAt));
            && Shows(Send(server, [command]), c.(users := c.users[u := e]))
            && Shows(Send(server, [command, S.Del(Render(UserListK(t)))]), c.(users := c.users[u := e]))
  {
    var command := S.Set(Render(UserK(u)), Entry(UserDto(e.value), e.expiresAt));
    PutsUser(c, u, e);
    SetOneShows(server, c, c.(users := c.users[u := e]), UserK(u), command);
    SetDelShows(server, c, c.(users := c.users[u := e]), UserK(u), command, UserListK(t));
  }

  /** What a user call does to the cache table. */
  lemma UserTableAfter(s: I.State, o: I.Op)
    requires !o.Evict?
    ensures UserSent(s, o) == [] ==> I.Step(s, o).0.cache == s.cache
    ensures UserSent(s, o) != [] && o.CreateUser? ==>
              var e := Entry(I.FormatResponse(o.newId, I.NewUser(o, I.Active, s.now)), s.now + s.ttl);
              && I.Step(s, o).0.cache == s.cache[o.newId := e]
              && UserSent(s, o) == [S.Set(Render(UserK(o.newId)), Entry(UserDto(e.value), e.expiresAt)),
                                    S.Del(Render(UserListK(o.tenantId)))]
    ensures UserSent(s, o) != [] && o.FindUser? ==>
              o.userId in s.users &&
              var e := Entry(I.FormatResponse(o.userId, s.users[o.userId]), s.now + s.ttl);
              && I.Step(s, o).0.cache == s.cache[o.userId := e]
              && UserSent(s, o) == [S.Set(Render(UserK(o.userId)), Entry(UserDto(e.value), e.expiresAt))]
    ensures UserSent(s, o) != [] && !o.CreateUser? && !o.FindUser? ==>
              && (o.UpdateUser? || o.DeleteUser?) && I.Step(s, o).0.cache == s.cache - {o.userId}
              && UserSent(s, o) == [S.DelMultiple([Render(UserK(o.userId)), Render(UserListK(o.tenantId))])]
  {
  }

  lemma UserShows(server: Server, c: Caches, s: I.State, o: I.Op)
    requires Shows(server, c) && c.users == s.cache && !o.Evict?
    ensures Shows(Send(server, UserSent(s, o)), c.(users := I.Step(s, o).0.cache))
  {
    UserTableAfter(s, o);
    if UserSent(s, o) == [] {
    } else if o.CreateUser? {
      var e := Entry(I.FormatResponse(o.newId, I.NewUser(o, I.Active, s.now)), s.now + s.ttl);
      UserSetShows(server, c, o.newId, o.tenantId, e);
    } else if o.FindUser? {
      var e := Entry(I.FormatResponse(o.userId, s.users[o.userId]), s.now + s.ttl);
      UserSetShows(server, c, o.userId, o.tenantId, e);
    } else {
      DelPairSent(server, c, UserK(o.userId), UserListK(o.tenantId));
    }
  }

  // ----- Losses -----

  lemma {:induction false} DrainLost(store: map<string, Entry<Value>>, pending: seq<S.Command<Entry<Value>>>,
                                     key: string)
    ensures S.Drain(store - {key}, pending) ==
            if Mentions(pending, key) then S.Drain(store, pending) else S.Drain(store, pending) - {key}
    decreases |pending|
  {
    if pending != [] {
      var init, last := pending[..|pending| - 1], pending[|pending| - 1];
      DrainLost(store, init, key);
      if Mentions(init, key) {
        var i :| 0 <= i < |init| && init[i].key == key;
        assert pending[i].key == key;
      } else if last.key != key {
        assert !Mentions(pending, key) by {
          forall i | 0 <= i < |pending|
            ensures pending[i].key != key
          {
            assert i < |init| ==> pending[i] == init[i];
          }
        }
      } else {
        assert Mentions(pending, key);
      }
    }
  }

  lemma LoseShows(server: Server, c: Caches, k: Key)
    requires Separable(k) && Shows(server, c)
    ensures Shows(S.Step(server, S.Expire({Render(k)})),
                  if Mentions(server.pending, Render(k)) then c else Forget(c, k))
  {
    DrainLost(server.store, server.pending, Render(k));
    ForgetShows(Visible(server), c, k);
  }

  // What a step does to the caches.  Rows that another service adds or removes leave them
  // alone.

  lemma RbacCaches(s: System, op: Op)
    requires Enabled(s, op) && op.OnRbac?
    ensures CachesOf(Step(s, op)) ==
            CachesOf(s).(perms := M.Step(s.rbac, op.rbacOp).perms, names := M.Step(s.rbac, op.rbacOp).names)
  {
  }

  lemma TenantCaches(s: System, op: Op)
    requires Enabled(s, op) && op.OnTenants?
    ensures CachesOf(Step(s, op)) == CachesOf(s).(tenants := T.Step(s.tenants, op.tenantOp).0.cache)
  {
  }

  lemma UserCaches(s: System, op: Op)
    requires Enabled(s, op) && op.OnUsers?
    ensures CachesOf(Step(s, op)) == CachesOf(s).(users := I.Step(s.users, op.userOp).0.cache)
  {
  }

  lemma TickCaches(s: System, op: Op)
    requires op.Tick? || op.Process?
    requires Enabled(s, op)
    ensures CachesOf(Step(s, op)) == CachesOf(s)
  {
  }

  lemma RbacLoss(s: M.State, u: Id, t: Id)
    ensures M.Step(s, M.EvictPermissions(u, t)) == s.(perms := s.perms - {(t, u)})
    ensures M.Step(s, M.EvictNames(u, t)) == s.(names := s.names - {(t, u)})
  {
  }

  lemma LossCaches(s: System, op: Op)
    requires Enabled(s, op) && op.Lose?
    ensures CachesOf(Step(s, op)) == if Loses(s, op) then Forget(CachesOf(s), op.key) else CachesOf(s)
  {
    match op.key
    case PermissionsK(t, u) => RbacLoss(s.rbac, u, t);
    case RolesK(t, u) => RbacLoss(s.rbac, u, t);
    case _ =>
  }

  lemma StepShows(s: System, op: Op)
    requires Enabled(s, op) && Shows(s.server, CachesOf(s))
    ensures Shows(Step(s, op).server, CachesOf(Step(s, op)))
  {
    match op
    case OnRbac(o) =>
      RbacCaches(s, op);
      RbacShows(s.server, CachesOf(s), s.rbac, o);
    case OnTenants(o) =>
      TenantCaches(s, op);
      TenantShows(s.server, CachesOf(s), s.tenants, o);
    case OnUsers(o) =>
      UserCaches(s, op);
      UserShows(s.server, CachesOf(s), s.users, o);
    case Process =>
      TickCaches(s, op);
      S.ProcessKeepsDrain(s.server);
    case Tick(_) => TickCaches(s, op);
    case Lose(k) =>
      LossCaches(s, op);
      LoseShows(s.server, CachesOf(s), k);
  }

  lemma {:induction false} RunShows(s: System, ops: seq<Op>)
    requires ValidRun(s, ops) && Shows(s.server, CachesOf(s))
    ensures Shows(Run(s, ops).server, CachesOf(Run(s, ops)))
    decreases |ops|
  {
    if ops != [] {
      StepShows(s, ops[0]);
      RunShows(Step(s, ops[0]), ops[1..]);
    }
  }

  ghost predicate Initial(s: System) {
    s.server == S.State({}, map[], []) && CachesOf(s) == Caches(map[], map[], map[], map[])
  }

  lemma InitialShows(s: System)
    requires Initial(s)
    ensures Shows(s.server, CachesOf(s))
  {
    assert Typed(CachesOf(s)) == map[];
  }

  lemma FoundIsTyped(found: map<string, Entry<Value>>, c: Caches, k: Key)
    requires Agrees(found, Typed(c)) && Separable(k)
    ensures Render(k) in found <==> Holds(c, k)
    ensures Holds(c, k) ==> found[Render(k)] == Content(c, k)
  {
  }

  /** What a service gets for a key, as its own model would put it. */
  function Seen(c: Caches, k: Key, now: int): Option<Value> {
    match k
    case PermissionsK(t, u) =>
      (match Lookup(c.perms, (t, u), now) case Some(list) => Some(PermissionList(list)) case None => None)
    case RolesK(t, u) =>
      (match Lookup(c.names, (t, u), now) case Some(list) => Some(NameList(list)) case None => None)
    case TenantK(t) => (match Lookup(c.tenants, t, now) case Some(dto) => Some(TenantDto(dto)) case None => None)
    case UserK(u) => (match Lookup(c.users, u, now) case Some(dto) => Some(UserDto(dto)) case None => None)
    case _ => None
  }

  /** One store is as good as four: over any run of the three services on one string-keyed
      store, which executes what it is sent later and may lose entries, each service finds
      under each of its keys exactly what its own model has cached there, and nobody finds
      anything under the list keys. */
  lemma ServicesSeeOwnCaches(s: System, ops: seq<Op>, k: Key, now: int)
    requires Initial(s) && ValidRun(s, ops) && Separable(k)
    ensures Lookup(Visible(Run(s, ops).server), Render(k), now) == Seen(CachesOf(Run(s, ops)), k, now)
  {
    InitialShows(s);
    RunShows(s, ops);
    FoundIsTyped(Visible(Run(s, ops).server), CachesOf(Run(s, ops)), k);
  }
}
