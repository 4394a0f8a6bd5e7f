/** The route guard when calls interleave: what its two reads let it decide. */
module RbacGuardConcurrent {
  import opened Prelude
  import opened RbacTables
  import opened RbacConcurrent
  import opened RbacGuard
  import RbacStale

  /** Permission rows with one seen-key have one pair, in every state. */
  ghost predicate CollisionFreeThroughout(tr: Trace) {
    forall i :: 0 <= i < |tr.states| ==> CollisionFreeTable(tr.states[i].db.permissions)
  }

  /** What call `c` is served at step `i` was the answer of state `m`; if it comes from the
      cache, it was stored after that and less than one lifetime ago. */
  ghost predicate AnswerOf(tr: Trace, i: int, c: CallId, q: Question, a: Answer, m: int) {
    && 0 <= m <= i < |tr.states|
    && (Query(tr.states[m].db, q) == Some(a) || (Query(tr.states[m].db, q) == None && a == NoAnswer(q)))
    && (IsHit(tr, i, c) ==> exists k :: StoredWithin(tr, m, k, i, q, a))
  }

  ghost predicate StoredWithin(tr: Trace, m: int, k: int, i: int, q: Question, a: Answer) {
    && 0 <= m < k < i < |tr.states| && StoredAt(tr, k, q, a, tr.states[m].now)
    && tr.states[i].now - tr.states[k].now < tr.states[0].ttl
  }

  lemma ServedWasAnswer(tr: Trace, i: nat, c: CallId, q: Question, a: Answer) returns (m: nat)
    requires Valid(tr) && Serves(tr, i, c, q, a)
    ensures AnswerOf(tr, i, c, q, a, m)
  {
    BoundedStaleness(tr, i, c, q, a);
    if IsHit(tr, i, c) {
      var j, k :| 0 <= j < k < i &&
                  ReadAt(tr, j, q, a, tr.states[j].now) && StoredAt(tr, k, q, a, tr.states[j].now) &&
                  tr.states[i].now - tr.states[k].now < tr.states[0].ttl;
      m := j;
      assert StoredWithin(tr, m, k, i, q, a);
    } else {
      m :| TrueAt(tr, i, m, q, a);
    }
  }

  lemma NamesAnswered(db: Db, u: Id, t: Id, names: seq<string>, roles: seq<string>)
    requires var q := NamesOf(u, t);
             Query(db, q) == Some(NameList(names)) || (Query(db, q) == None && NameList(names) == NoAnswer(q))
    ensures HasRole(names, roles) <==> exists name :: name in roles && HoldsRole(db, u, t, name)
  {
    if HasUser(db, u, t) {
      QueryNamesExact(db, u, t);
    }
  }

  lemma PermissionsAnswered(db: Db, u: Id, t: Id, list: seq<Requirement>, permissions: seq<Requirement>)
    requires CollisionFreeTable(db.permissions)
    requires var q := PermissionsOf(u, t);
             Query(db, q) == Some(PermissionList(list)) || (Query(db, q) == None && PermissionList(list) == NoAnswer(q))
    ensures HasPermission(list, permissions) <==> forall r :: r in permissions ==> Grants(db, u, t, r)
  {
    if HasUser(db, u, t) {
      QueryPermissionsExact(db, u, t);
    }
    HasPermissionMeaning(list, permissions);
  }

  /** Under any interleaving: the guard reads the role names with call `c`, answered at step
      `i`, and the permissions with call `d`, answered at step `j`.  It lets the caller pass
      exactly if the tables of one state up to `i` met the role requirement and those of one
      state up to `j` granted every required pair; the two need not be the same state, and
      each answer taken from the cache is less than one lifetime old there. */
  lemma GuardDecidesByPast(tr: Trace, i: nat, c: CallId, names: seq<string>, j: nat, d: CallId, list: seq<Requirement>,
                           permissions: Option<seq<Requirement>>, roles: Option<seq<string>>, u: Id, t: Id)
    returns (m: nat, n: nat)
    requires Valid(tr) && CollisionFreeThroughout(tr) && i <= j < |tr.states|
    requires Requires(roles) ==> Serves(tr, i, c, NamesOf(u, t), NameList(names))
    requires Requires(permissions) ==> Serves(tr, j, d, PermissionsOf(u, t), PermissionList(list))
    ensures m <= i && n <= j
    ensures Requires(roles) ==> AnswerOf(tr, i, c, NamesOf(u, t), NameList(names), m)
    ensures Requires(permissions) ==> AnswerOf(tr, j, d, PermissionsOf(u, t), PermissionList(list), n)
    ensures (Requires(roles) ==> HasRole(names, roles.value)) <==> RbacStale.RolesMet(tr.states[m].db, roles, u, t)
    ensures (Requires(permissions) ==> HasPermission(list, permissions.value)) <==>
            RbacStale.PermissionsMet(tr.states[n].db, permissions, u, t)
  {
    m, n := 0, 0;
    if Requires(roles) {
      m := ServedWasAnswer(tr, i, c, NamesOf(u, t), NameList(names));
      NamesAnswered(tr.states[m].db, u, t, names, roles.value);
    }
    if Requires(permissions) {
      n := ServedWasAnswer(tr, j, d, PermissionsOf(u, t), PermissionList(list));
      PermissionsAnswered(tr.states[n].db, u, t, list, permissions.value);
    }
  }
}
