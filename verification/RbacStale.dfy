/** Deletions of roles, users and tenants leave the cached lists alone.  Exactly when does
    that show, at whatever point of whatever run? */
module RbacStale {
  import opened Prelude
  import opened RbacTables
  import opened RbacMachine
  import opened RbacRuns
  import opened RbacGuard

  /** The ids outside `gone`, in order. */
  function Keep(ids: seq<Id>, gone: set<Id>): seq<Id> {
    if ids == [] then [] else (if ids[0] in gone then [] else [ids[0]]) + Keep(ids[1..], gone)
  }

  lemma {:induction false} KeepMembers(ids: seq<Id>, gone: set<Id>)
    ensures forall x :: x in Keep(ids, gone) <==> x in ids && x !in gone
    ensures |Keep(ids, gone)| <= |ids|
  {
    if ids != [] {
      KeepMembers(ids[1..], gone);
      assert forall x :: x in ids <==> x == ids[0] || x in ids[1..];
    }
  }

  /** Keeping changes the list exactly when something in it is gone. */
  lemma {:induction false} KeepUnchangedIff(ids: seq<Id>, gone: set<Id>)
    ensures |Keep(ids, gone)| == |ids| <==> forall x :: x in ids ==> x !in gone
    ensures |Keep(ids, gone)| == |ids| ==> Keep(ids, gone) == ids
  {
    if ids != [] {
      KeepUnchangedIff(ids[1..], gone);
      KeepMembers(ids[1..], gone);
      assert ids == [ids[0]] + ids[1..];
      assert forall x :: x in ids <==> x == ids[0] || x in ids[1..];
    }
  }

  lemma {:induction false} KeepTwice(ids: seq<Id>, a: set<Id>, b: set<Id>)
    ensures Keep(Keep(ids, a), b) == Keep(ids, a + b)
  {
    if ids != [] {
      KeepTwice(ids[1..], a, b);
      if ids[0] in a {
        assert Keep(ids, a) == Keep(ids[1..], a);
      } else {
        assert Keep(ids, a)[1..] == Keep(ids[1..], a);
      }
    }
  }

  lemma {:induction false} WithoutIsKeep(ids: seq<Id>, id: Id)
    ensures Without(ids, id) == Keep(ids, {id})
  {
    if ids != [] {
      WithoutIsKeep(ids[1..], id);
    }
  }

  lemma {:induction false} KeepAll(ids: seq<Id>)
    ensures Keep(ids, {}) == ids
  {
    if ids != [] {
      KeepAll(ids[1..]);
    }
  }

  lemma {:induction false} KeepSame(ids: seq<Id>, a: set<Id>, b: set<Id>)
    requires forall x :: x in ids ==> (x in a <==> x in b)
    ensures Keep(ids, a) == Keep(ids, b)
  {
    if ids != [] {
      KeepSame(ids[1..], a, b);
    }
  }

  // ----- What can happen to one user's roles while the cached lists of that user stay -----

  /** The roles `a` had and `b` has not. */
  function Lost(a: State, b: State): set<Id> {
    a.db.roles.Keys - b.db.roles.Keys
  }

  /** From `a` to `b` the user's row is there as it was, less the roles lost, or it is gone;
      a role that is lost does not come back, the others do not change. */
  ghost predicate Later(a: State, b: State, u: Id) {
    && a.issued <= b.issued && b.db.permissions == a.db.permissions
    && (forall x :: x in b.db.roles && x in a.issued ==> x in a.db.roles && b.db.roles[x] == a.db.roles[x])
    && (u in b.db.users ==>
          u in a.db.users &&
          b.db.users[u] == a.db.users[u].(roleIds := Keep(a.db.users[u].roleIds, Lost(a, b))))
  }

  lemma LaterTwice(a: State, b: State, c: State, u: Id)
    requires TablesSound(a) && Later(a, b, u) && Later(b, c, u)
    ensures Later(a, c, u)
  {
    if u in c.db.users {
      var ids := a.db.users[u].roleIds;
      KeepTwice(ids, Lost(a, b), Lost(b, c));
      KeepSame(ids, Lost(a, b) + Lost(b, c), Lost(a, c));
    }
  }

  /** An assignment or a removal for the user goes through. */
  predicate Rewrites(s: State, op: Op, u: Id) {
    match op
    case Assign(v, r, t) => v == u && HasUser(s.db, u, t) && HasRoleRow(s.db, r, t) && r !in s.db.users[u].roleIds
    case Remove(v, _, t) => v == u && HasUser(s.db, u, t)
    case _ => false
  }

  lemma NothingLost(a: State, b: State, u: Id)
    requires TablesSound(a) && a.issued <= b.issued && b.db.permissions == a.db.permissions
    requires forall x :: x in a.db.roles ==> x in b.db.roles && b.db.roles[x] == a.db.roles[x]
    requires forall x :: x in b.db.roles && x in a.issued ==> x in a.db.roles
    requires u in b.db.users ==> u in a.db.users && b.db.users[u] == a.db.users[u]
    ensures Later(a, b, u)
  {
    if u in b.db.users {
      assert Lost(a, b) == {};
      KeepAll(a.db.users[u].roleIds);
    }
  }

  lemma DropRoleLater(s: State, r: Id, u: Id)
    requires TablesSound(s) && r in s.db.roles
    ensures Later(s, s.(db := DropRole(s.db, r)), u)
  {
    if u in s.db.users {
      assert Lost(s, s.(db := DropRole(s.db, r))) == {r};
      WithoutIsKeep(s.db.users[u].roleIds, r);
    }
  }

  /** The roles a tenant takes along are held by nobody else. */
  lemma DropTenantLater(s: State, t: Id, u: Id)
    requires TablesSound(s)
    ensures Later(s, s.(db := DropTenant(s.db, t)), u)
  {
    var s' := s.(db := DropTenant(s.db, t));
    if u in s'.db.users {
      KeepSame(s.db.users[u].roleIds, Lost(s, s'), {});
      KeepAll(s.db.users[u].roleIds);
    }
  }

  lemma OnboardLater(s: State, t: Id, listed: seq<Id>, newIds: seq<Id>, u: Id)
    requires TablesSound(s) && Enabled(s, Onboard(t, listed, newIds))
    ensures Later(s, InitializeTenant(s, t, listed, newIds), u)
  {
    SaveDefaultsFrame(s, t, listed, newIds, |DEFAULT_ROLES|);
    SaveDefaultsNew(s, t, listed, newIds, |DEFAULT_ROLES|);
    NothingLost(s, InitializeTenant(s, t, listed, newIds), u);
  }

  lemma {:induction false} SaveDefaultsNew(s: State, t: Id, listed: seq<Id>, newIds: seq<Id>, n: nat)
    requires n <= |DEFAULT_ROLES| == |newIds| && forall id :: id in newIds ==> id !in s.issued
    requires forall id :: id in listed ==> id in s.db.permissions
    ensures var s' := SaveDefaults(s, t, listed, newIds, n);
            s.issued <= s'.issued && forall x :: x in s'.db.roles && x in s.issued ==> x in s.db.roles
  {
    if n > 0 {
      SaveDefaultsNew(s, t, listed, newIds, n - 1);
      assert newIds[n - 1] in newIds;
    }
  }

  lemma OthersRolesLater(s: State, op: Op, u: Id)
    requires TablesSound(s) && Enabled(s, op) && (op.Assign? || op.Remove?) && !Rewrites(s, op, u)
    ensures Later(s, Step(s, op), u)
  {
    NothingLost(s, Step(s, op), u);
  }

  lemma OtherLater(s: State, op: Op, u: Id)
    requires TablesSound(s) && Enabled(s, op) && u in s.issued
    requires !op.Assign? && !op.Remove? && !op.RemoveRoleRow? && !op.RemoveTenant? && !op.Onboard?
    ensures Later(s, Step(s, op), u)
  {
    NothingLost(s, Step(s, op), u);
  }

  /** Any call but an assignment or removal for the user. */
  lemma StepLater(s: State, op: Op, u: Id)
    requires TablesSound(s) && Enabled(s, op) && u in s.issued && !Rewrites(s, op, u)
    ensures Later(s, Step(s, op), u)
  {
    match op
    case RemoveRoleRow(r, t) =>
      if DeleteRole(s, r, t).1.Done? {
        DropRoleLater(s, r, u);
      } else {
        NothingLost(s, s, u);
      }
    case RemoveTenant(t) => DropTenantLater(s, t, u);
    case Onboard(t, listed, newIds) => OnboardLater(s, t, listed, newIds, u);
    case Assign(_, _, _) => OthersRolesLater(s, op, u);
    case Remove(_, _, _) => OthersRolesLater(s, op, u);
    case _ => OtherLater(s, op, u);
  }

  predicate NoneAimedAt(ops: seq<Op>, u: Id) {
    forall op :: op in ops ==> !((op.Assign? || op.Remove?) && op.userId == u)
  }

  lemma {:induction false} RunLater(s: State, ops: seq<Op>, u: Id)
    requires WellFormed(s) && ValidRun(s, ops) && u in s.issued && NoneAimedAt(ops, u)
    ensures Later(s, Run(s, ops), u)
    decreases |ops|
  {
    if ops == [] {
      NothingLost(s, s, u);
    } else {
      assert ops[0] in ops;
      var s1 := Step(s, ops[0]);
      StepWellFormed(s, ops[0]);
      StepLater(s, ops[0], u);
      RunLater(s1, ops[1..], u);
      LaterTwice(s, s1, Run(s, ops), u);
    }
  }

  // ----- What is left, in terms of the tables before -----

  ghost predicate HoldsLeft(a: Db, b: Db, u: Id, t: Id, name: string) {
    HasUser(a, u, t) && u in b.users &&
    exists x :: x in a.users[u].roleIds && x in a.roles && x in b.roles && a.roles[x].name == name
  }

  ghost predicate GrantsLeft(a: Db, b: Db, u: Id, t: Id, r: Requirement) {
    HasUser(a, u, t) && u in b.users &&
    exists x :: x in a.users[u].roleIds && x in b.roles && RoleGrants(a, x, r)
  }

  /** Of what a user held and was granted, exactly what came through roles that are still
      there is left, and nothing if the user is gone. */
  lemma LeftAfter(a: State, b: State, u: Id, t: Id)
    requires TablesSound(a) && Later(a, b, u)
    ensures forall name :: HoldsRole(b.db, u, t, name) <==> HoldsLeft(a.db, b.db, u, t, name)
    ensures forall r :: Grants(b.db, u, t, r) <==> GrantsLeft(a.db, b.db, u, t, r)
  {
    if u in b.db.users {
      var ids := a.db.users[u].roleIds;
      KeepMembers(ids, Lost(a, b));
      forall x, r | x in ids && x in b.db.roles
        ensures RoleGrants(b.db, x, r) <==> RoleGrants(a.db, x, r)
      {
      }
    }
  }

  lemma {:induction false} JoinLength<R>(ids: seq<Id>, table: map<Id, R>)
    requires forall x :: x in ids ==> x in table
    ensures |Join(ids, table)| == |ids|
  {
    if ids != [] {
      JoinLength(ids[..|ids| - 1], table);
    }
  }

  lemma KeptNames(ids: seq<Id>, before: map<Id, Role>, after: map<Id, Role>)
    requires forall x :: x in ids ==> x in before && (x in after ==> after[x] == before[x])
    ensures var kept := Keep(ids, before.Keys - after.Keys);
            && |Names(Join(ids, before))| == |ids| && |Names(Join(kept, after))| == |kept|
            && (|kept| == |ids| <==> forall x :: x in ids ==> x in after)
            && (|kept| == |ids| ==> Join(kept, after) == Join(ids, before))
  {
    var kept := Keep(ids, before.Keys - after.Keys);
    KeepUnchangedIff(ids, before.Keys - after.Keys);
    KeepMembers(ids, before.Keys - after.Keys);
    JoinLength(ids, before);
    JoinLength(kept, after);
    if kept == ids {
      JoinFrame(ids, before, after);
    }
  }

  lemma NamesKeptIff(a: State, b: State, u: Id, t: Id)
    requires TablesSound(a) && Later(a, b, u) && HasUser(a.db, u, t)
    ensures QueryNames(b.db, u, t) == QueryNames(a.db, u, t) <==>
            u in b.db.users && forall x :: x in a.db.users[u].roleIds ==> x in b.db.roles
  {
    KeptNames(a.db.users[u].roleIds, a.db.roles, b.db.roles);
  }

  /** Over any run without an assignment or removal aimed at a user, whatever else is in it:
      the answers for the user stay the same exactly if the user and all of the user's roles
      are still there, and otherwise shrink to what the roles still there give. */
  lemma AnswersKeptIff(s: State, ops: seq<Op>, u: Id, t: Id)
    requires WellFormed(s) && ValidRun(s, ops) && HasUser(s.db, u, t) && NoneAimedAt(ops, u)
    ensures var s' := Run(s, ops);
            && (QueryNames(s'.db, u, t) == QueryNames(s.db, u, t) <==>
                  u in s'.db.users && forall x :: x in s.db.users[u].roleIds ==> x in s'.db.roles)
            && (forall name :: HoldsRole(s'.db, u, t, name) <==> HoldsLeft(s.db, s'.db, u, t, name))
            && (forall r :: Grants(s'.db, u, t, r) <==> GrantsLeft(s.db, s'.db, u, t, r))
  {
    RunLater(s, ops, u);
    NamesKeptIff(s, Run(s, ops), u, t);
    LeftAfter(s, Run(s, ops), u, t);
  }

  // ----- Where a cached list comes from -----

  /** A run, call by call: call `i` leads from state `i` to state `i + 1`. */
  datatype Trace = Trace(states: seq<State>, ops: seq<Op>)

  ghost predicate StepAt(tr: Trace, i: int) {
    0 <= i < |tr.ops| < |tr.states| ==>
      Enabled(tr.states[i], tr.ops[i]) && tr.states[i + 1] == Step(tr.states[i], tr.ops[i])
  }

  /** It starts with sound tables and nothing stale, an empty gateway for one. */
  ghost predicate Valid(tr: Trace) {
    && |tr.states| == |tr.ops| + 1
    && WellFormed(tr.states[0]) && Coherent(tr.states[0])
    && forall i :: StepAt(tr, i)
  }

  /** Every run is one. */
  lemma {:induction false} TraceOf(s: State, ops: seq<Op>) returns (tr: Trace)
    requires WellFormed(s) && Coherent(s) && ValidRun(s, ops)
    ensures Valid(tr) && tr.ops == ops && tr.states[0] == s && tr.states[|ops|] == Run(s, ops)
  {
    var states := StatesOf(s, ops);
    tr := Trace(states, ops);
    forall i
      ensures StepAt(tr, i)
    {
      if 0 <= i < |ops| {
        StatesStep(s, ops, i);
      }
    }
  }

  ghost function StatesOf(s: State, ops: seq<Op>): (r: seq<State>)
    requires ValidRun(s, ops)
    ensures |r| == |ops| + 1 && r[0] == s && r[|ops|] == Run(s, ops)
    decreases |ops|
  {
    if ops == [] then [s] else [s] + StatesOf(Step(s, ops[0]), ops[1..])
  }

  lemma {:induction false} StatesStep(s: State, ops: seq<Op>, i: nat)
    requires ValidRun(s, ops) && i < |ops|
    ensures Enabled(StatesOf(s, ops)[i], ops[i])
    ensures StatesOf(s, ops)[i + 1] == Step(StatesOf(s, ops)[i], ops[i])
    decreases |ops|
  {
    var s1, rest := Step(s, ops[0]), ops[1..];
    if i > 0 {
      StatesStep(s1, rest, i - 1);
      assert rest[i - 1] == ops[i];
    }
  }

  lemma {:induction false} AlwaysWellFormed(tr: Trace, n: nat)
    requires Valid(tr) && n < |tr.states|
    ensures WellFormed(tr.states[n])
  {
    if n > 0 {
      AlwaysWellFormed(tr, n - 1);
      assert StepAt(tr, n - 1);
      StepWellFormed(tr.states[n - 1], tr.ops[n - 1]);
    }
  }

  /** `list` is what the tables answered in state `i`, and nothing has been assigned to or
      removed from the user since. */
  ghost predicate NamesReadIn(tr: Trace, i: int, n: int, u: Id, t: Id, list: seq<string>) {
    0 <= i <= n < |tr.states| && QueryNames(tr.states[i].db, u, t) == Some(list) && Later(tr.states[i], tr.states[n], u)
  }

  ghost predicate PermissionsReadIn(tr: Trace, i: int, n: int, u: Id, t: Id, list: seq<Requirement>) {
    0 <= i <= n < |tr.states| && QueryPermissions(tr.states[i].db, u, t) == Some(list) &&
    Later(tr.states[i], tr.states[n], u)
  }

  ghost predicate NamesRead(tr: Trace, n: int, k: (Id, Id), list: seq<string>) {
    exists i :: NamesReadIn(tr, i, n, k.1, k.0, list)
  }

  ghost predicate PermissionsRead(tr: Trace, n: int, k: (Id, Id), list: seq<Requirement>) {
    exists i :: PermissionsReadIn(tr, i, n, k.1, k.0, list)
  }

  ghost predicate EntriesRead(tr: Trace, n: int) {
    0 <= n < |tr.states| ==>
      && (forall k :: k in tr.states[n].names ==> NamesRead(tr, n, k, tr.states[n].names[k].value))
      && (forall k :: k in tr.states[n].perms ==> PermissionsRead(tr, n, k, tr.states[n].perms[k].value))
  }

  /** An entry after a call was there before it or is the answer just read. */
  lemma NewEntry(s: State, op: Op, k: (Id, Id))
    requires Enabled(s, op)
    ensures k in Step(s, op).names && !(k in s.names && Step(s, op).names[k] == s.names[k]) ==>
              op.ReadNames? && QueryNames(s.db, k.1, k.0) == Some(Step(s, op).names[k].value)
    ensures k in Step(s, op).perms && !(k in s.perms && Step(s, op).perms[k] == s.perms[k]) ==>
              op.ReadPermissions? && QueryPermissions(s.db, k.1, k.0) == Some(Step(s, op).perms[k].value)
  {
    if op.Onboard? {
      DefaultsKeepCaches(s, op.tenantId, op.listed, op.newIds, |DEFAULT_ROLES|);
    }
  }

  /** A call that writes a user's roles drops the user's entries. */
  lemma RewriteDrops(s: State, op: Op, k: (Id, Id))
    requires Enabled(s, op) && Rewrites(s, op, k.1) && s.db.users[k.1].tenantId == k.0
    ensures k !in Step(s, op).names && k !in Step(s, op).perms
  {
  }

  lemma StillRead(tr: Trace, i: nat, n: nat, k: (Id, Id))
    requires Valid(tr) && i <= n < |tr.ops| && HasUser(tr.states[i].db, k.1, k.0)
    requires Later(tr.states[i], tr.states[n], k.1)
    requires k in tr.states[n + 1].names || k in tr.states[n + 1].perms
    ensures Later(tr.states[i], tr.states[n + 1], k.1)
  {
    assert StepAt(tr, n);
    var a, s, op := tr.states[i], tr.states[n], tr.ops[n];
    AlwaysWellFormed(tr, i);
    AlwaysWellFormed(tr, n);
    if Rewrites(s, op, k.1) {
      RewriteDrops(s, op, k);
    } else {
      StepLater(s, op, k.1);
      LaterTwice(a, s, tr.states[n + 1], k.1);
    }
  }

  lemma NamesStep(tr: Trace, n: nat, k: (Id, Id))
    requires Valid(tr) && n < |tr.ops| && EntriesRead(tr, n) && k in tr.states[n + 1].names
    ensures NamesRead(tr, n + 1, k, tr.states[n + 1].names[k].value)
  {
    assert StepAt(tr, n);
    AlwaysWellFormed(tr, n);
    var s, s', list := tr.states[n], tr.states[n + 1], tr.states[n + 1].names[k].value;
    NewEntry(s, tr.ops[n], k);
    NothingLost(s, s, k.1);
    assert NamesRead(tr, n, k, list) by {
      if !(k in s.names && s'.names[k] == s.names[k]) {
        assert NamesReadIn(tr, n, n, k.1, k.0, list);
      }
    }
    var i :| NamesReadIn(tr, i, n, k.1, k.0, list);
    StillRead(tr, i, n, k);
    assert NamesReadIn(tr, i, n + 1, k.1, k.0, list);
  }

  lemma PermissionsStep(tr: Trace, n: nat, k: (Id, Id))
    requires Valid(tr) && n < |tr.ops| && EntriesRead(tr, n) && k in tr.states[n + 1].perms
    ensures PermissionsRead(tr, n + 1, k, tr.states[n + 1].perms[k].value)
  {
    assert StepAt(tr, n);
    AlwaysWellFormed(tr, n);
    var s, s', list := tr.states[n], tr.states[n + 1], tr.states[n + 1].perms[k].value;
    NewEntry(s, tr.ops[n], k);
    NothingLost(s, s, k.1);
    assert PermissionsRead(tr, n, k, list) by {
      if !(k in s.perms && s'.perms[k] == s.perms[k]) {
        assert PermissionsReadIn(tr, n, n, k.1, k.0, list);
      }
    }
    var i :| PermissionsReadIn(tr, i, n, k.1, k.0, list);
    StillRead(tr, i, n, k);
    assert PermissionsReadIn(tr, i, n + 1, k.1, k.0, list);
  }

  lemma StartRead(tr: Trace)
    requires Valid(tr)
    ensures EntriesRead(tr, 0)
  {
    var s := tr.states[0];
    forall k | k in s.names
      ensures NamesRead(tr, 0, k, s.names[k].value)
    {
      NothingLost(s, s, k.1);
      assert NamesReadIn(tr, 0, 0, k.1, k.0, s.names[k].value);
    }
    forall k | k in s.perms
      ensures PermissionsRead(tr, 0, k, s.perms[k].value)
    {
      NothingLost(s, s, k.1);
      assert PermissionsReadIn(tr, 0, 0, k.1, k.0, s.perms[k].value);
    }
  }

  /** At every point of every run, each cached list is what the tables answered in some state
      before, and nothing has been assigned to or removed from its user since. */
  lemma {:induction false} EntriesAlwaysRead(tr: Trace, n: nat)
    requires Valid(tr) && n < |tr.states|
    ensures EntriesRead(tr, n)
  {
    if n == 0 {
      StartRead(tr);
    } else {
      EntriesAlwaysRead(tr, n - 1);
      forall k | k in tr.states[n].names
        ensures NamesRead(tr, n, k, tr.states[n].names[k].value)
      {
        NamesStep(tr, n - 1, k);
      }
      forall k | k in tr.states[n].perms
        ensures PermissionsRead(tr, n, k, tr.states[n].perms[k].value)
      {
        PermissionsStep(tr, n - 1, k);
      }
    }
  }

  // ----- The cached lists -----

  /** At any point of any run a cached name list is still the tables' own exactly if the user
      is still there and so is every role the user held when the list was read. */
  lemma CachedNamesFreshIff(tr: Trace, n: nat, k: (Id, Id)) returns (i: nat)
    requires Valid(tr) && n < |tr.states| && k in tr.states[n].names
    ensures NamesReadIn(tr, i, n, k.1, k.0, tr.states[n].names[k].value)
    ensures QueryNames(tr.states[n].db, k.1, k.0) == Some(tr.states[n].names[k].value) <==>
            k.1 in tr.states[n].db.users &&
            forall x :: x in tr.states[i].db.users[k.1].roleIds ==> x in tr.states[n].db.roles
  {
    EntriesAlwaysRead(tr, n);
    assert NamesRead(tr, n, k, tr.states[n].names[k].value);
    i :| NamesReadIn(tr, i, n, k.1, k.0, tr.states[n].names[k].value);
    AlwaysWellFormed(tr, i);
    NamesKeptIff(tr.states[i], tr.states[n], k.1, k.0);
  }

  /** A cached permission list still says what the tables grant exactly if every pair granted
      when it was read comes also from a role that is left, and the user is. */
  lemma CachedPermissionsFreshIff(tr: Trace, n: nat, k: (Id, Id)) returns (i: nat)
    requires Valid(tr) && n < |tr.states| && k in tr.states[n].perms
    ensures PermissionsReadIn(tr, i, n, k.1, k.0, tr.states[n].perms[k].value)
    ensures (forall r :: r in tr.states[n].perms[k].value <==> Grants(tr.states[n].db, k.1, k.0, r)) <==>
            forall r :: Grants(tr.states[i].db, k.1, k.0, r) ==>
                          GrantsLeft(tr.states[i].db, tr.states[n].db, k.1, k.0, r)
  {
    EntriesAlwaysRead(tr, n);
    assert PermissionsRead(tr, n, k, tr.states[n].perms[k].value);
    i :| PermissionsReadIn(tr, i, n, k.1, k.0, tr.states[n].perms[k].value);
    AlwaysWellFormed(tr, i);
    LeftAfter(tr.states[i], tr.states[n], k.1, k.0);
    QueryPermissionsExact(tr.states[i].db, k.1, k.0);
    assert forall r :: GrantsLeft(tr.states[i].db, tr.states[n].db, k.1, k.0, r) ==>
                         Grants(tr.states[i].db, k.1, k.0, r);
  }

  // ----- The guard -----

  /** What a read in `s` serves about the user's roles is the answer of `a`: with a live entry
      a state before, without one `s` itself. */
  ghost predicate NamesFrom(a: State, s: State, u: Id, t: Id) {
    WellFormed(a) && Later(a, s, u) &&
    match Lookup(s.names, (t, u), s.now)
    case Some(list) => QueryNames(a.db, u, t) == Some(list)
    case None => a == s
  }

  ghost predicate PermissionsFrom(b: State, s: State, u: Id, t: Id) {
    WellFormed(b) && Later(b, s, u) &&
    match Lookup(s.perms, (t, u), s.now)
    case Some(list) => QueryPermissions(b.db, u, t) == Some(list)
    case None => b == s
  }

  ghost predicate RolesMet(db: Db, roles: Option<seq<string>>, u: Id, t: Id) {
    Requires(roles) ==> exists name :: name in roles.value && HoldsRole(db, u, t, name)
  }

  ghost predicate PermissionsMet(db: Db, permissions: Option<seq<Requirement>>, u: Id, t: Id) {
    Requires(permissions) ==> forall r :: r in permissions.value ==> Grants(db, u, t, r)
  }

  /** The same by what is left in `s` of what was there in `a`. */
  ghost predicate RolesLeft(a: Db, s: Db, roles: Option<seq<string>>, u: Id, t: Id) {
    Requires(roles) ==> exists name :: name in roles.value && HoldsLeft(a, s, u, t, name)
  }

  ghost predicate PermissionsLeft(b: Db, s: Db, permissions: Option<seq<Requirement>>, u: Id, t: Id) {
    Requires(permissions) ==> forall r :: r in permissions.value ==> GrantsLeft(b, s, u, t, r)
  }

  lemma NamesServedFrom(a: State, s: State, u: Id, t: Id)
    requires NamesFrom(a, s, u, t)
    ensures forall name :: name in GetUserRoleNames(s, u, t).1 <==> HoldsRole(a.db, u, t, name)
  {
    if HasUser(a.db, u, t) {
      QueryNamesExact(a.db, u, t);
    }
  }

  lemma PermissionsServedFrom(b: State, s: State, u: Id, t: Id)
    requires PermissionsFrom(b, s, u, t)
    ensures forall r :: r in GetUserPermissions(s, u, t).1 <==> Grants(b.db, u, t, r)
  {
    if HasUser(b.db, u, t) {
      QueryPermissionsExact(b.db, u, t);
    }
  }

  lemma AllowedFrom(a: State, b: State, s: State, permissions: Option<seq<Requirement>>, roles: Option<seq<string>>,
                    u: Id, t: Id)
    requires NamesFrom(a, s, u, t) && PermissionsFrom(b, s, u, t)
    ensures var decision := CanActivate(s, permissions, roles, Some(Caller(u, t))).1;
            && !decision.Unauthorized?
            && (decision.Allowed? <==> RolesMet(a.db, roles, u, t) && PermissionsMet(b.db, permissions, u, t))
  {
    DecisionParts(s, permissions, roles, u, t);
    NamesServedFrom(a, s, u, t);
    PermissionsServedFrom(b, s, u, t);
    if Requires(permissions) {
      HasPermissionMeaning(GetUserPermissions(s, u, t).1, permissions.value);
    }
  }

  lemma UncachedFrom(s: State, u: Id, t: Id)
    requires WellFormed(s)
    ensures NamesFrom(Uncached(s), Uncached(s), u, t) && PermissionsFrom(Uncached(s), Uncached(s), u, t)
  {
    NothingLost(Uncached(s), Uncached(s), u);
  }

  lemma MetIffLeft(a: State, b: State, s: State, permissions: Option<seq<Requirement>>, roles: Option<seq<string>>,
                   u: Id, t: Id)
    requires TablesSound(a) && Later(a, s, u) && TablesSound(b) && Later(b, s, u)
    ensures RolesMet(s.db, roles, u, t) <==> RolesLeft(a.db, s.db, roles, u, t)
    ensures PermissionsMet(s.db, permissions, u, t) <==> PermissionsLeft(b.db, s.db, permissions, u, t)
    ensures RolesLeft(a.db, s.db, roles, u, t) ==> RolesMet(a.db, roles, u, t)
    ensures PermissionsLeft(b.db, s.db, permissions, u, t) ==> PermissionsMet(b.db, permissions, u, t)
  {
    LeftAfter(a, s, u, t);
    LeftAfter(b, s, u, t);
  }

  /** The cached guard against the uncached one, by the states its two lists come from. */
  lemma AdmissionIff(a: State, b: State, s: State, permissions: Option<seq<Requirement>>, roles: Option<seq<string>>,
                     u: Id, t: Id)
    requires WellFormed(s) && NamesFrom(a, s, u, t) && PermissionsFrom(b, s, u, t)
    ensures var cached := CanActivate(s, permissions, roles, Some(Caller(u, t))).1;
            var bare := CanActivate(Uncached(s), permissions, roles, Some(Caller(u, t))).1;
            && (cached != bare <==>
                  && RolesMet(a.db, roles, u, t) && PermissionsMet(b.db, permissions, u, t)
                  && !(RolesLeft(a.db, s.db, roles, u, t) && PermissionsLeft(b.db, s.db, permissions, u, t)))
            && (cached != bare ==> cached.Allowed? && bare.Forbidden?)
  {
    AllowedFrom(a, b, s, permissions, roles, u, t);
    UncachedFrom(s, u, t);
    AllowedFrom(Uncached(s), Uncached(s), Uncached(s), permissions, roles, u, t);
    MetIffLeft(a, b, s, permissions, roles, u, t);
  }

  lemma NamesFromSome(tr: Trace, n: nat, u: Id, t: Id) returns (i: nat)
    requires Valid(tr) && n < |tr.states|
    ensures i <= n && NamesFrom(tr.states[i], tr.states[n], u, t)
  {
    EntriesAlwaysRead(tr, n);
    var s := tr.states[n];
    if Lookup(s.names, (t, u), s.now).Some? {
      assert NamesRead(tr, n, (t, u), s.names[(t, u)].value);
      i :| NamesReadIn(tr, i, n, u, t, s.names[(t, u)].value);
      AlwaysWellFormed(tr, i);
    } else {
      i := n;
      AlwaysWellFormed(tr, n);
      NothingLost(s, s, u);
    }
  }

  lemma PermissionsFromSome(tr: Trace, n: nat, u: Id, t: Id) returns (j: nat)
    requires Valid(tr) && n < |tr.states|
    ensures j <= n && PermissionsFrom(tr.states[j], tr.states[n], u, t)
  {
    EntriesAlwaysRead(tr, n);
    var s := tr.states[n];
    if Lookup(s.perms, (t, u), s.now).Some? {
      assert PermissionsRead(tr, n, (t, u), s.perms[(t, u)].value);
      j :| PermissionsReadIn(tr, j, n, u, t, s.perms[(t, u)].value);
      AlwaysWellFormed(tr, j);
    } else {
      j := n;
      AlwaysWellFormed(tr, n);
      NothingLost(s, s, u);
    }
  }

  /** At any point of any run, deletions of roles, users and tenants included, and for any
      caller: the name list the guard sees is the answer of some state `i`, the permission
      list that of some `j`, and the guard decides differently than the tables exactly if
      - the requirements were met in `i` and `j`, and
      - no required role, or not every required pair, comes from a role that is left to a
        user who is;
      and then it admits where the tables refuse. */
  lemma StaleAdmissionIff(tr: Trace, n: nat, permissions: Option<seq<Requirement>>, roles: Option<seq<string>>,
                          u: Id, t: Id) returns (i: nat, j: nat)
    requires Valid(tr) && n < |tr.states|
    ensures i <= n && NamesFrom(tr.states[i], tr.states[n], u, t)
    ensures j <= n && PermissionsFrom(tr.states[j], tr.states[n], u, t)
    ensures var db := tr.states[n].db;
            var cached := CanActivate(tr.states[n], permissions, roles, Some(Caller(u, t))).1;
            var bare := CanActivate(Uncached(tr.states[n]), permissions, roles, Some(Caller(u, t))).1;
            && (cached != bare <==>
                  && RolesMet(tr.states[i].db, roles, u, t) && PermissionsMet(tr.states[j].db, permissions, u, t)
                  && !(RolesLeft(tr.states[i].db, db, roles, u, t) &&
                       PermissionsLeft(tr.states[j].db, db, permissions, u, t)))
            && (cached != bare ==> cached.Allowed? && bare.Forbidden?)
  {
    i := NamesFromSome(tr, n, u, t);
    j := PermissionsFromSome(tr, n, u, t);
    AlwaysWellFormed(tr, n);
    AdmissionIff(tr.states[i], tr.states[j], tr.states[n], permissions, roles, u, t);
  }

  // ----- Single deletions -----

  /** A deletion leaves the caches as they were. */
  lemma DeletionLeavesCaches(s: State, op: Op)
    requires Enabled(s, op) && op.Deletes()
    ensures Step(s, op).names == s.names && Step(s, op).perms == s.perms && Step(s, op).now == s.now
  {
  }

  lemma AfterOne(s: State, op: Op, u: Id, t: Id)
    requires WellFormed(s) && Coherent(s) && Enabled(s, op) && op.Deletes()
    requires Lookup(s.names, (t, u), s.now).Some?
    ensures var s' := Step(s, op);
            WellFormed(s') && NamesFrom(s, s', u, t) &&
            PermissionsFrom(if Lookup(s.perms, (t, u), s.now).Some? then s else s', s', u, t)
  {
    assert QueryNames(s.db, u, t) == Some(s.names[(t, u)].value);
    DeletionLeavesCaches(s, op);
    StepWellFormed(s, op);
    StepLater(s, op, u);
    NothingLost(Step(s, op), Step(s, op), u);
  }

  lemma OneRole(a: Db, s: Db, u: Id, t: Id, name: string)
    ensures RolesMet(a, Some([name]), u, t) <==> HoldsRole(a, u, t, name)
    ensures RolesLeft(a, s, Some([name]), u, t) <==> HoldsLeft(a, s, u, t, name)
  {
    assert name in [name];
  }

  /** One role required, one deletion, the name list still live. */
  lemma OneNameIff(s: State, op: Op, u: Id, t: Id, name: string)
    requires WellFormed(s) && Coherent(s) && Enabled(s, op) && op.Deletes()
    requires Lookup(s.names, (t, u), s.now).Some?
    ensures var s', roles, caller := Step(s, op), Some([name]), Some(Caller(u, t));
            var cached := CanActivate(s', None, roles, caller).1;
            var bare := CanActivate(Uncached(s'), None, roles, caller).1;
            && (cached != bare <==> HoldsRole(s.db, u, t, name) && !HoldsLeft(s.db, s'.db, u, t, name))
            && (cached != bare ==> cached.Allowed? && bare.Forbidden?)
  {
    AfterOne(s, op, u, t);
    var b := if Lookup(s.perms, (t, u), s.now).Some? then s else Step(s, op);
    AdmissionIff(s, b, Step(s, op), None, Some([name]), u, t);
    OneRole(s.db, Step(s, op).db, u, t, name);
  }

  /** With a role deleted the guard is wrong exactly if the user held the role and it alone
      had the name. */
  lemma StaleNameIff(s: State, r: Id, u: Id, t: Id, name: string)
    requires WellFormed(s) && Coherent(s) && HasRoleRow(s.db, r, t) && !s.db.roles[r].isSystem
    requires Lookup(s.names, (t, u), s.now).Some?
    ensures var s', roles, caller := DeleteRole(s, r, t).0, Some([name]), Some(Caller(u, t));
            var cached := CanActivate(s', None, roles, caller).1;
            var bare := CanActivate(Uncached(s'), None, roles, caller).1;
            && (cached != bare <==>
                  u in s.db.users && r in s.db.users[u].roleIds && s.db.roles[r].name == name &&
                  forall x :: x in s.db.users[u].roleIds && x != r ==> s.db.roles[x].name != name)
            && (cached != bare ==> cached.Allowed? && bare.Forbidden?)
  {
    OneNameIff(s, RemoveRoleRow(r, t), u, t, name);
    assert QueryNames(s.db, u, t) == Some(s.names[(t, u)].value);
  }

  /** With the user or the whole tenant deleted it is wrong exactly for the roles held: every
      one of them goes on admitting. */
  lemma GoneUserIff(s: State, op: Op, u: Id, t: Id, name: string)
    requires WellFormed(s) && Coherent(s) && (op == RemoveUser(u, t) || op == RemoveTenant(t))
    requires Lookup(s.names, (t, u), s.now).Some?
    ensures var s', roles, caller := Step(s, op), Some([name]), Some(Caller(u, t));
            var cached := CanActivate(s', None, roles, caller).1;
            var bare := CanActivate(Uncached(s'), None, roles, caller).1;
            && (cached != bare <==> HoldsRole(s.db, u, t, name))
            && (cached != bare ==> cached.Allowed? && bare.Forbidden?)
  {
    OneNameIff(s, op, u, t, name);
  }

  lemma ReadKeepsTables(s: State, u: Id, t: Id)
    requires WellFormed(s) && HasUser(s.db, u, t) && s.ttl > 0
    ensures var s1 := GetUserRoleNames(s, u, t).0;
            WellFormed(s1) && s1.db == s.db && Lookup(s1.names, (t, u), s1.now).Some?
  {
  }

  /** In particular: whenever a user's only role is deleted within the lifetime of a cached
      read, the guard goes on admitting a caller the tables no longer entitle. */
  lemma AllowCanBeStale(s: State, u: Id, r: Id, t: Id)
    requires WellFormed(s) && Coherent(s)
    requires HasUser(s.db, u, t) && s.db.users[u].roleIds == [r]
    requires HasRoleRow(s.db, r, t) && !s.db.roles[r].isSystem
    requires s.ttl > 0 && Lookup(s.names, (t, u), s.now) == None
    ensures var s' := DeleteRole(GetUserRoleNames(s, u, t).0, r, t).0;
            var roles, caller := Some([s.db.roles[r].name]), Some(Caller(u, t));
            && CanActivate(s', None, roles, caller).1.Allowed?
            && CanActivate(Uncached(s'), None, roles, caller).1.Forbidden?
  {
    ReadCoherent(s, u, t);
    ReadKeepsTables(s, u, t);
    StaleNameIff(GetUserRoleNames(s, u, t).0, r, u, t, s.db.roles[r].name);
  }
}
