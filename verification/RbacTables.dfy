/** Users, roles and permissions as tables, and what they grant. */
module RbacTables {
  import opened Prelude

  datatype Requirement = Requirement(resource: string, action: string)

  datatype Permission = Permission(resource: string, action: string, isActive: bool)

  datatype Role = Role(tenantId: Id, name: string, isSystem: bool, permissionIds: seq<Id>)

  /** The part of a user row the RBAC services read: its tenant and its join rows. */
  datatype User = User(tenantId: Id, roleIds: seq<Id>)

  datatype Db = Db(tenants: set<Id>, users: map<Id, User>, roles: map<Id, Role>, permissions: map<Id, Permission>)

  /** The rows of `table` that a join along `ids` finds. */
  function Join<R>(ids: seq<Id>, table: map<Id, R>): seq<R> {
    if ids == [] then []
    else
      Join(ids[..|ids| - 1], table) +
      (if ids[|ids| - 1] in table then [table[ids[|ids| - 1]]] else [])
  }

  lemma {:induction false} JoinMember<R>(ids: seq<Id>, table: map<Id, R>, row: R)
    ensures row in Join(ids, table) <==> exists id :: id in ids && id in table && table[id] == row
  {
    if ids != [] {
      var last := ids[|ids| - 1];
      assert ids == ids[..|ids| - 1] + [last];
      JoinMember(ids[..|ids| - 1], table, row);
    }
  }

  /** A join reads only the rows it names. */
  lemma {:induction false} JoinFrame<R>(ids: seq<Id>, table: map<Id, R>, table': map<Id, R>)
    requires forall id :: id in ids ==> (id in table <==> id in table') && (id in table ==> table[id] == table'[id])
    ensures Join(ids, table) == Join(ids, table')
  {
    if ids != [] {
      JoinFrame(ids[..|ids| - 1], table, table');
    }
  }

  /** The pairs of the active permissions among the first `n`, in order. */
  function ActivePairs(perms: seq<Permission>, n: nat): seq<Requirement>
    requires n <= |perms|
  {
    if n == 0 then []
    else
      var p := perms[n - 1];
      ActivePairs(perms, n - 1) + (if p.isActive then [Requirement(p.resource, p.action)] else [])
  }

  /** The active pairs of the first `n` roles, role by role. */
  function RolePairs(roles: seq<seq<Permission>>, n: nat): seq<Requirement>
    requires n <= |roles|
  {
    if n == 0 then [] else RolePairs(roles, n - 1) + ActivePairs(roles[n - 1], |roles[n - 1]|)
  }

  function AllPairs(roles: seq<seq<Permission>>): seq<Requirement> {
    RolePairs(roles, |roles|)
  }

  lemma {:induction false} ActivePairsMember(perms: seq<Permission>, n: nat, r: Requirement)
    requires n <= |perms|
    ensures r in ActivePairs(perms, n) <==> exists i :: 0 <= i < n && perms[i] == Permission(r.resource, r.action, true)
  {
    if n > 0 {
      ActivePairsMember(perms, n - 1, r);
    }
  }

  lemma {:induction false} RolePairsMember(roles: seq<seq<Permission>>, n: nat, r: Requirement)
    requires n <= |roles|
    ensures r in RolePairs(roles, n) <==> exists i :: 0 <= i < n && Permission(r.resource, r.action, true) in roles[i]
  {
    if n > 0 {
      RolePairsMember(roles, n - 1, r);
      ActivePairsMember(roles[n - 1], |roles[n - 1]|, r);
    }
  }

  /** The key under which the collection loop remembers a pair. */
  function SeenKey(r: Requirement): string {
    r.resource + ":" + r.action
  }

  function SeenKeys(pairs: seq<Requirement>, n: nat): set<string>
    requires n <= |pairs|
  {
    set k | 0 <= k < n :: SeenKey(pairs[k])
  }

  /** Of the first `n` pairs, keep one exactly when no earlier pair has the same key. */
  function FirstByKey(pairs: seq<Requirement>, n: nat): seq<Requirement>
    requires n <= |pairs|
  {
    if n == 0 then []
    else FirstByKey(pairs, n - 1) + (if SeenKey(pairs[n - 1]) in SeenKeys(pairs, n - 1) then [] else [pairs[n - 1]])
  }

  /** The list the permission lookup returns for these pairs. */
  function Collected(pairs: seq<Requirement>): seq<Requirement> {
    FirstByKey(pairs, |pairs|)
  }

  predicate CollisionFree(pairs: seq<Requirement>) {
    forall r, r' :: r in pairs && r' in pairs && SeenKey(r) == SeenKey(r') ==> r == r'
  }

  /** Position `i` holds `x`, and `y` has not occurred up to it. */
  predicate PrecedesAt(pairs: seq<Requirement>, x: Requirement, y: Requirement, i: int) {
    0 <= i < |pairs| && pairs[i] == x && forall k :: 0 <= k <= i ==> pairs[k] != y
  }

  predicate Precedes(pairs: seq<Requirement>, x: Requirement, y: Requirement) {
    exists i :: 0 <= i < |pairs| && PrecedesAt(pairs, x, y, i)
  }

  /** `out` lists what `pairs` contains, each pair once, in first-occurrence order. */
  ghost predicate IsFirstOccurrenceList(pairs: seq<Requirement>, out: seq<Requirement>) {
    && NoDuplicates(out)
    && (forall r :: r in out <==> r in pairs)
    && InOrder(pairs, out)
  }

  lemma {:induction false} FirstByKeyMembers(pairs: seq<Requirement>, n: nat, r: Requirement)
    requires n <= |pairs| && CollisionFree(pairs)
    ensures r in FirstByKey(pairs, n) <==> exists k :: 0 <= k < n && pairs[k] == r
  {
    if n > 0 {
      FirstByKeyMembers(pairs, n - 1, r);
      LastIsNew(pairs, n);
    }
  }

  lemma LastIsNew(pairs: seq<Requirement>, n: nat)
    requires 0 < n <= |pairs| && CollisionFree(pairs)
    ensures SeenKey(pairs[n - 1]) in SeenKeys(pairs, n - 1) <==> exists k :: 0 <= k < n - 1 && pairs[k] == pairs[n - 1]
  {
  }

  ghost predicate InOrder(pairs: seq<Requirement>, out: seq<Requirement>) {
    forall i, j :: 0 <= i < j < |out| ==> Precedes(pairs, out[i], out[j])
  }

  lemma {:induction false} FirstByKeyOrder(pairs: seq<Requirement>, n: nat)
    requires n <= |pairs| && CollisionFree(pairs)
    ensures InOrder(pairs, FirstByKey(pairs, n))
  {
    if n > 0 {
      FirstByKeyOrder(pairs, n - 1);
      var out, last := FirstByKey(pairs, n - 1), pairs[n - 1];
      LastIsNew(pairs, n);
      if SeenKey(last) !in SeenKeys(pairs, n - 1) {
        forall i | 0 <= i < |out|
          ensures Precedes(pairs, out[i], last)
        {
          FirstByKeyMembers(pairs, n - 1, out[i]);
          var k :| 0 <= k < n - 1 && pairs[k] == out[i];
          assert PrecedesAt(pairs, out[i], last, k);
        }
      }
    }
  }

  /** Without colliding keys the loop's result is the first-occurrence list. */
  lemma CollectionExact(pairs: seq<Requirement>)
    requires CollisionFree(pairs)
    ensures IsFirstOccurrenceList(pairs, Collected(pairs))
  {
    FirstByKeyOrder(pairs, |pairs|);
    var out := Collected(pairs);
    forall r
      ensures r in out <==> r in pairs
    {
      FirstByKeyMembers(pairs, |pairs|, r);
    }
    forall i, j | 0 <= i < j < |out|
      ensures out[i] != out[j]
    {
      PrecedesAsymmetric(pairs, out[i], out[j]);
    }
  }

  lemma PrecedesAsymmetric(pairs: seq<Requirement>, x: Requirement, y: Requirement)
    requires Precedes(pairs, x, y)
    ensures !Precedes(pairs, y, x)
  {
  }

  /** The next element of `a` is in `b`, and not among those already matched. */
  lemma FoundLater(pairs: seq<Requirement>, a: seq<Requirement>, b: seq<Requirement>, n: nat)
    requires IsFirstOccurrenceList(pairs, a) && IsFirstOccurrenceList(pairs, b)
    requires n < |a| && n <= |b| && forall i :: 0 <= i < n ==> a[i] == b[i]
    ensures n < |b| && (b[n] == a[n] || Precedes(pairs, b[n], a[n]))
  {
    assert a[n] in a;
    var j :| 0 <= j < |b| && b[j] == a[n];
    if j < n {
      assert false;
    }
  }

  lemma {:induction false} AgreeUpTo(pairs: seq<Requirement>, a: seq<Requirement>, b: seq<Requirement>, n: nat)
    requires IsFirstOccurrenceList(pairs, a) && IsFirstOccurrenceList(pairs, b)
    requires n <= |a|
    ensures n <= |b| && forall i :: 0 <= i < n ==> a[i] == b[i]
  {
    if n > 0 {
      AgreeUpTo(pairs, a, b, n - 1);
      FoundLater(pairs, a, b, n - 1);
      FoundLater(pairs, b, a, n - 1);
      if a[n - 1] != b[n - 1] {
        PrecedesAsymmetric(pairs, a[n - 1], b[n - 1]);
        assert false;
      }
    }
  }

  /** There is only one such list, so nothing about the result is left open. */
  lemma FirstOccurrenceListUnique(pairs: seq<Requirement>, a: seq<Requirement>, b: seq<Requirement>)
    requires IsFirstOccurrenceList(pairs, a) && IsFirstOccurrenceList(pairs, b)
    ensures a == b
  {
    AgreeUpTo(pairs, a, b, |a|);
    AgreeUpTo(pairs, b, a, |b|);
  }

  /** The result omits no pair exactly when no two different pairs share a key. */
  lemma CollectionCompleteIff(pairs: seq<Requirement>)
    ensures (forall r :: r in pairs ==> r in Collected(pairs)) <==> CollisionFree(pairs)
  {
    if CollisionFree(pairs) {
      CollectionExact(pairs);
    }
    FirstByKeyInjective(pairs, |pairs|);
  }

  lemma {:induction false} FirstByKeyInjective(pairs: seq<Requirement>, n: nat)
    requires n <= |pairs|
    ensures CollisionFree(FirstByKey(pairs, n))
    ensures forall r :: r in FirstByKey(pairs, n) ==> SeenKey(r) in SeenKeys(pairs, n)
  {
    if n > 0 {
      FirstByKeyInjective(pairs, n - 1);
      assert SeenKeys(pairs, n) == SeenKeys(pairs, n - 1) + {SeenKey(pairs[n - 1])};
    }
  }

  /** Two pairs with one key: the second is dropped. */
  lemma CollisionDropsPair()
    ensures var a, b := Requirement("a:b", "c"), Requirement("a", "b:c");
            a != b && Collected([a, b]) == [a]
  {
    var a, b := Requirement("a:b", "c"), Requirement("a", "b:c");
    assert SeenKey(a) == SeenKey(b);
    assert SeenKey([a, b][0]) in SeenKeys([a, b], 1);
    assert FirstByKey([a, b], 1) == [a];
  }

  /** Resource names without ':' cannot collide, whatever the actions are. */
  lemma ColonFreeResources(r: Requirement, r': Requirement)
    requires ':' !in r.resource && ':' !in r'.resource
    requires SeenKey(r) == SeenKey(r')
    ensures r == r'
  {
    var s := SeenKey(r);
    assert s[|r.resource|] == ':' && s[|r'.resource|] == ':';
    if |r.resource| < |r'.resource| {
      assert false;
    }
    if |r'.resource| < |r.resource| {
      assert false;
    }
    assert s[..|r.resource|] == r.resource && s[..|r.resource|] == r'.resource;
    assert s[|r.resource| + 1..] == r.action && s[|r.resource| + 1..] == r'.action;
  }

  lemma {:induction false} ActivePairsPrefix(perms: seq<Permission>, j: nat, n: nat)
    requires j <= n <= |perms|
    ensures ActivePairs(perms, j) <= ActivePairs(perms, n)
  {
    if j < n {
      ActivePairsPrefix(perms, j, n - 1);
    }
  }

  lemma {:induction false} RolePairsPrefix(roles: seq<seq<Permission>>, i: nat, n: nat)
    requires i <= n <= |roles|
    ensures RolePairs(roles, i) <= RolePairs(roles, n)
  {
    if i < n {
      RolePairsPrefix(roles, i, n - 1);
    }
  }

  /** How many pairs the loop has looked at before role `i`, permission `j`. */
  function Looked(roles: seq<seq<Permission>>, i: nat, j: nat): nat
    requires i < |roles| && j <= |roles[i]|
  {
    |RolePairs(roles, i)| + |ActivePairs(roles[i], j)|
  }

  /** The pair the loop looks at next. */
  lemma NextPair(roles: seq<seq<Permission>>, i: nat, j: nat)
    requires i < |roles| && j < |roles[i]| && roles[i][j].isActive
    ensures Looked(roles, i, j) < |AllPairs(roles)|
    ensures AllPairs(roles)[Looked(roles, i, j)] == Requirement(roles[i][j].resource, roles[i][j].action)
  {
    ActivePairsPrefix(roles[i], j + 1, |roles[i]|);
    RolePairsPrefix(roles, i + 1, |roles|);
    assert RolePairs(roles, i + 1)[Looked(roles, i, j)] == ActivePairs(roles[i], j + 1)[|ActivePairs(roles[i], j)|];
  }

  /** The nested loop of the permission lookup; `looked` counts the pairs it has looked at. */
  method CollectPermissions(roles: seq<seq<Permission>>) returns (permissions: seq<Requirement>)
    ensures permissions == Collected(AllPairs(roles))
  {
    permissions := [];
    var seen: set<string> := {};
    ghost var pairs, looked := AllPairs(roles), 0;
    for i := 0 to |roles|
      invariant looked == |RolePairs(roles, i)| <= |pairs|
      invariant permissions == FirstByKey(pairs, looked) && seen == SeenKeys(pairs, looked)
    {
      var role := roles[i];
      for j := 0 to |role|
        invariant looked == Looked(roles, i, j) <= |pairs|
        invariant permissions == FirstByKey(pairs, looked) && seen == SeenKeys(pairs, looked)
      {
        var perm := role[j];
        if !perm.isActive {
          continue;
        }
        NextPair(roles, i, j);
        var key := SeenKey(Requirement(perm.resource, perm.action));
        looked := looked + 1;
        if key !in seen {
          seen := seen + {key};
          permissions := permissions + [Requirement(perm.resource, perm.action)];
        }
      }
    }
  }

  /** Every required pair is among the user's. */
  predicate HasPermission(userPermissions: seq<Requirement>, required: seq<Requirement>) {
    forall r :: r in required ==> exists p :: p in userPermissions && p.resource == r.resource && p.action == r.action
  }

  /** Some required role is among the user's. */
  predicate HasRole(userRoles: seq<string>, required: seq<string>) {
    exists r :: r in required && r in userRoles
  }

  // ----- What the tables answer without any cache -----

  /** The permission rows of each role. */
  function LoadPermissions(roles: seq<Role>, permissions: map<Id, Permission>): seq<seq<Permission>> {
    seq(|roles|, i requires 0 <= i < |roles| => Join(roles[i].permissionIds, permissions))
  }

  function Names(roles: seq<Role>): seq<string> {
    seq(|roles|, i requires 0 <= i < |roles| => roles[i].name)
  }

  predicate HasUser(db: Db, userId: Id, tenantId: Id) {
    userId in db.users && db.users[userId].tenantId == tenantId
  }

  /** The permission list read from the tables; None when there is no such user. */
  function QueryPermissions(db: Db, userId: Id, tenantId: Id): Option<seq<Requirement>> {
    if HasUser(db, userId, tenantId) then
      Some(Collected(AllPairs(LoadPermissions(Join(db.users[userId].roleIds, db.roles), db.permissions))))
    else None
  }

  function QueryNames(db: Db, userId: Id, tenantId: Id): Option<seq<string>> {
    if HasUser(db, userId, tenantId) then Some(Names(Join(db.users[userId].roleIds, db.roles))) else None
  }

  // ----- The relational specification -----

  /** The role carries an active permission row for the pair. */
  ghost predicate RoleGrants(db: Db, roleId: Id, r: Requirement) {
    roleId in db.roles &&
    exists pid :: pid in db.roles[roleId].permissionIds && pid in db.permissions &&
                  db.permissions[pid] == Permission(r.resource, r.action, true)
  }

  ghost predicate Grants(db: Db, userId: Id, tenantId: Id, r: Requirement) {
    HasUser(db, userId, tenantId) &&
    exists roleId :: roleId in db.users[userId].roleIds && RoleGrants(db, roleId, r)
  }

  ghost predicate HoldsRole(db: Db, userId: Id, tenantId: Id, name: string) {
    HasUser(db, userId, tenantId) &&
    exists roleId :: roleId in db.users[userId].roleIds && roleId in db.roles && db.roles[roleId].name == name
  }

  /** No two permission rows have different pairs and the same key. */
  predicate CollisionFreeTable(permissions: map<Id, Permission>) {
    forall p, p' :: p in permissions && p' in permissions &&
                    SeenKey(Requirement(permissions[p].resource, permissions[p].action)) ==
                    SeenKey(Requirement(permissions[p'].resource, permissions[p'].action)) ==>
                    permissions[p].resource == permissions[p'].resource &&
                    permissions[p].action == permissions[p'].action
  }

  lemma ColonFreeTable(permissions: map<Id, Permission>)
    requires forall p :: p in permissions ==> ':' !in permissions[p].resource
    ensures CollisionFreeTable(permissions)
  {
    forall p, p' | p in permissions && p' in permissions &&
                   SeenKey(Requirement(permissions[p].resource, permissions[p].action)) ==
                   SeenKey(Requirement(permissions[p'].resource, permissions[p'].action))
      ensures permissions[p].resource == permissions[p'].resource && permissions[p].action == permissions[p'].action
    {
      ColonFreeResources(Requirement(permissions[p].resource, permissions[p].action),
                         Requirement(permissions[p'].resource, permissions[p'].action));
    }
  }

  lemma LoadedPair(db: Db, userId: Id, r: Requirement)
    requires userId in db.users
    ensures r in AllPairs(LoadPermissions(Join(db.users[userId].roleIds, db.roles), db.permissions)) <==>
            exists roleId :: roleId in db.users[userId].roleIds && RoleGrants(db, roleId, r)
  {
    var roles := Join(db.users[userId].roleIds, db.roles);
    var loaded := LoadPermissions(roles, db.permissions);
    var row := Permission(r.resource, r.action, true);
    RolePairsMember(loaded, |loaded|, r);
    if r in AllPairs(loaded) {
      var i :| 0 <= i < |loaded| && row in loaded[i];
      JoinMember(roles[i].permissionIds, db.permissions, row);
      JoinMember(db.users[userId].roleIds, db.roles, roles[i]);
      var roleId :| roleId in db.users[userId].roleIds && roleId in db.roles && db.roles[roleId] == roles[i];
      assert RoleGrants(db, roleId, r);
    }
    if roleId :| roleId in db.users[userId].roleIds && RoleGrants(db, roleId, r) {
      JoinMember(db.users[userId].roleIds, db.roles, db.roles[roleId]);
      var i :| 0 <= i < |roles| && roles[i] == db.roles[roleId];
      JoinMember(roles[i].permissionIds, db.permissions, row);
      assert row in loaded[i];
    }
  }

  /** The collected list holds exactly the pairs the tables grant. */
  lemma QueryPermissionsExact(db: Db, userId: Id, tenantId: Id)
    requires CollisionFreeTable(db.permissions) && HasUser(db, userId, tenantId)
    ensures forall r :: r in QueryPermissions(db, userId, tenantId).value <==> Grants(db, userId, tenantId, r)
    ensures NoDuplicates(QueryPermissions(db, userId, tenantId).value)
  {
    var pairs := AllPairs(LoadPermissions(Join(db.users[userId].roleIds, db.roles), db.permissions));
    forall r
      ensures r in pairs <==> Grants(db, userId, tenantId, r)
    {
      LoadedPair(db, userId, r);
    }
    assert CollisionFree(pairs);
    CollectionExact(pairs);
  }

  lemma QueryNamesExact(db: Db, userId: Id, tenantId: Id)
    requires HasUser(db, userId, tenantId)
    ensures forall name :: name in QueryNames(db, userId, tenantId).value <==> HoldsRole(db, userId, tenantId, name)
  {
    var ids := db.users[userId].roleIds;
    var roles := Join(ids, db.roles);
    forall name
      ensures name in Names(roles) <==> HoldsRole(db, userId, tenantId, name)
    {
      if name in Names(roles) {
        var i :| 0 <= i < |roles| && roles[i].name == name;
        JoinMember(ids, db.roles, roles[i]);
      }
      if HoldsRole(db, userId, tenantId, name) {
        var roleId :| roleId in ids && roleId in db.roles && db.roles[roleId].name == name;
        JoinMember(ids, db.roles, db.roles[roleId]);
        var i :| 0 <= i < |roles| && roles[i] == db.roles[roleId];
        assert Names(roles)[i] == name;
      }
    }
  }
}
