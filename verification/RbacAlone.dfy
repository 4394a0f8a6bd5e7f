/** Cutting the RBAC calls at their awaits adds interleavings and nothing else: a call that
    runs without interruption does what the atomic call does. */
module RbacAlone {
  import opened Prelude
  import opened RbacTables
  import opened RbacConcurrent
  import M = RbacMachine

  predicate Finished(call: Call) {
    call.Served? || call.Returned? || call.Thrown?
  }

  /** Call `c` takes its next steps, at most `n`, with nothing in between. */
  function Alone(s: State, c: CallId, first: bool, n: nat): State
    requires c in s.calls
    decreases n
  {
    if n == 0 || Finished(s.calls[c]) then s else Alone(Apply(s, Advance(c, first)), c, first, n - 1)
  }

  /** The two entry tables of the atomic model as one. */
  ghost predicate SameCache(cache: map<Question, Entry<Answer>>, s: M.State) {
    && (forall u, t :: PermissionsOf(u, t) in cache <==> (t, u) in s.perms)
    && (forall u, t :: NamesOf(u, t) in cache <==> (t, u) in s.names)
    && (forall u, t :: PermissionsOf(u, t) in cache ==>
          cache[PermissionsOf(u, t)] == Entry(PermissionList(s.perms[(t, u)].value), s.perms[(t, u)].expiresAt))
    && (forall u, t :: NamesOf(u, t) in cache ==>
          cache[NamesOf(u, t)] == Entry(NameList(s.names[(t, u)].value), s.names[(t, u)].expiresAt))
  }

  ghost predicate Same(s: State, m: M.State) {
    s.db == m.db && s.now == m.now && s.ttl == m.ttl && SameCache(s.cache, m)
  }

  /** Only the call itself and what it writes have moved. */
  ghost predicate EndsAs(s: State, c: CallId, s': State, call: Call) {
    s' == State(s'.db, s'.cache, s.calls[c := call], s.now, s.ttl)
  }

  /** A read on its own: the live entry, or the query with its store. */
  lemma ReadAlone(s: State, c: CallId, first: bool, q: Question)
    requires c in s.calls && s.calls[c] == Reading(q)
    ensures var s' := Alone(s, c, first, 3);
            s' == match Lookup(s.cache, q, s.now)
                  case Some(a) => s.(calls := s.calls[c := Served(q, a)])
                  case None =>
                    match Query(s.db, q)
                    case None => s.(calls := s.calls[c := Served(q, NoAnswer(q))])
                    case Some(a) =>
                      s.(cache := s.cache[q := Entry(a, s.now + s.ttl)], calls := s.calls[c := Served(q, a)])
  {
    var s1 := Apply(s, Advance(c, first));
    assert Alone(s, c, first, 3) == Alone(s1, c, first, 2);
    if !Finished(s1.calls[c]) {
      var s2 := Apply(s1, Advance(c, first));
      assert Alone(s1, c, first, 2) == Alone(s2, c, first, 1);
      if !Finished(s2.calls[c]) {
        var s3 := Apply(s2, Advance(c, first));
        assert Alone(s2, c, first, 1) == Alone(s3, c, first, 0) == s3;
        assert s3.calls == s.calls[c := Served(q, s2.calls[c].answer)];
      } else {
        assert s2.calls == s.calls[c := s2.calls[c]];
      }
    }
  }

  lemma ReadPermissionsAlone(s: State, m: M.State, c: CallId, first: bool, u: Id, t: Id)
    requires Same(s, m) && c in s.calls && s.calls[c] == Reading(PermissionsOf(u, t))
    ensures var s', (m', list) := Alone(s, c, first, 3), M.GetUserPermissions(m, u, t);
            Same(s', m') && EndsAs(s, c, s', Served(PermissionsOf(u, t), PermissionList(list)))
  {
    ReadAlone(s, c, first, PermissionsOf(u, t));
    assert PermissionsOf(u, t) in s.cache <==> (t, u) in m.perms;
  }

  lemma ReadNamesAlone(s: State, m: M.State, c: CallId, first: bool, u: Id, t: Id)
    requires Same(s, m) && c in s.calls && s.calls[c] == Reading(NamesOf(u, t))
    ensures var s', (m', list) := Alone(s, c, first, 3), M.GetUserRoleNames(m, u, t);
            Same(s', m') && EndsAs(s, c, s', Served(NamesOf(u, t), NameList(list)))
  {
    ReadAlone(s, c, first, NamesOf(u, t));
    assert NamesOf(u, t) in s.cache <==> (t, u) in m.names;
  }

  /** A save that is accepted, then both deletions, in either order. */
  lemma SaveAlone(s: State, m: M.State, c: CallId, first: bool, u: Id, row: User, n: nat)
    requires Same(s, m) && c in s.calls && s.calls[c] == Saving(u, row) && u in s.db.users && n >= 3
    requires SaveAccepted(s.db, row) && row == s.db.users[u].(roleIds := row.roleIds)
    ensures var s' := Alone(s, c, first, n);
            var m' := M.Invalidate(m.(db := M.SetRoles(m.db, u, row.roleIds)), u, row.tenantId);
            Same(s', m') && EndsAs(s, c, s', Returned)
  {
    var s1 := Apply(s, Advance(c, first));
    var s2 := Apply(s1, Advance(c, first));
    var s3 := Apply(s2, Advance(c, first));
    assert Alone(s, c, first, n) == Alone(s1, c, first, n - 1) == Alone(s2, c, first, n - 2);
    assert Alone(s2, c, first, n - 2) == Alone(s3, c, first, n - 3);
    assert s3.calls == s.calls[c := Returned];
    assert s3.cache == s.cache - {PermissionsOf(u, row.tenantId), NamesOf(u, row.tenantId)};
  }

  lemma RemoveAlone(s: State, m: M.State, c: CallId, first: bool, u: Id, r: Id, t: Id)
    requires Same(s, m) && M.TablesSound(m) && c in s.calls && s.calls[c] == Removing(u, r, t)
    ensures var s', (m', outcome) := Alone(s, c, first, 4), M.RemoveRole(m, u, r, t);
            Same(s', m') && EndsAs(s, c, s', if outcome.Done? then Returned else Thrown)
  {
    var s1 := Apply(s, Advance(c, first));
    assert Alone(s, c, first, 4) == Alone(s1, c, first, 3);
    assert s1 == s.(calls := s.calls[c := s1.calls[c]]);
    if HasUser(s.db, u, t) {
      RowSaves(m, u, M.Without(s.db.users[u].roleIds, r));
      SaveAlone(s1, m, c, first, u, s1.calls[c].row, 3);
    }
  }

  /** A row whose roles exist meets its foreign keys. */
  lemma RowSaves(m: M.State, u: Id, roleIds: seq<Id>)
    requires M.TablesSound(m) && u in m.db.users
    requires forall r :: r in roleIds ==> r in m.db.users[u].roleIds || r in m.db.roles
    ensures SaveAccepted(m.db, m.db.users[u].(roleIds := roleIds))
  {
  }

  /** The two finds of an assignment, in either order, and the decision. */
  lemma DecideAlone(s: State, c: CallId, first: bool, u: Id, r: Id, t: Id, n: nat)
    requires c in s.calls && s.calls[c] == Assigning(u, r, t, None, None) && n >= 3
    ensures var held := Assigning(u, r, t, Some(FindUser(s.db, u, t)), Some(M.HasRoleRow(s.db, r, t)));
            Alone(s, c, first, n) == Alone(s.(calls := s.calls[c := Decide(held)]), c, first, n - 3)
  {
    var held := Assigning(u, r, t, Some(FindUser(s.db, u, t)), Some(M.HasRoleRow(s.db, r, t)));
    var s1 := Apply(s, Advance(c, first));
    var s2 := Apply(s1, Advance(c, first));
    var s3 := Apply(s2, Advance(c, first));
    assert Alone(s, c, first, n) == Alone(s1, c, first, n - 1) == Alone(s2, c, first, n - 2);
    assert Alone(s2, c, first, n - 2) == Alone(s3, c, first, n - 3);
    assert s2.calls[c] == held;
    assert s3.calls == s.calls[c := Decide(held)];
    assert s3 == s.(calls := s.calls[c := Decide(held)]);
  }

  /** The decision against the atomic assignment. */
  lemma DecisionIs(m: M.State, u: Id, r: Id, t: Id)
    requires M.TablesSound(m)
    ensures var call := Decide(Assigning(u, r, t, Some(FindUser(m.db, u, t)), Some(M.HasRoleRow(m.db, r, t))));
            if call.Saving? then
              && u in m.db.users && SaveAccepted(m.db, call.row)
              && call == Saving(u, m.db.users[u].(roleIds := call.row.roleIds)) && call.row.tenantId == t
              && M.AssignRole(m, u, r, t) ==
                 (M.Invalidate(m.(db := M.SetRoles(m.db, u, call.row.roleIds)), u, t), M.Done)
            else M.AssignRole(m, u, r, t) == (m, if call.Returned? then M.Done else M.NotFound) && Finished(call)
  {
    if HasUser(m.db, u, t) && M.HasRoleRow(m.db, r, t) {
      RowSaves(m, u, m.db.users[u].roleIds + [r]);
    }
  }

  /** What is left once the finds are done. */
  lemma DecidedAlone(s: State, m: M.State, c: CallId, first: bool, u: Id, r: Id, t: Id, decided: Call,
                     n: nat)
    requires Same(s, m) && M.TablesSound(m) && c in s.calls && n >= 3
    requires decided == Decide(Assigning(u, r, t, Some(FindUser(m.db, u, t)), Some(M.HasRoleRow(m.db, r, t))))
    ensures var s', (m', outcome) := Alone(s.(calls := s.calls[c := decided]), c, first, n), M.AssignRole(m, u, r, t);
            Same(s', m') && EndsAs(s, c, s', if outcome.Done? then Returned else Thrown)
  {
    DecisionIs(m, u, r, t);
    var s3 := s.(calls := s.calls[c := decided]);
    if decided.Saving? {
      SaveAlone(s3, m, c, first, u, decided.row, n);
    } else {
      assert Alone(s3, c, first, n) == s3;
    }
  }

  lemma AssignAlone(s: State, m: M.State, c: CallId, first: bool, u: Id, r: Id, t: Id, n: nat)
    requires n >= 6 && Same(s, m) && M.TablesSound(m) && c in s.calls && s.calls[c] == Assigning(u, r, t, None, None)
    ensures var s', (m', outcome) := Alone(s, c, first, n), M.AssignRole(m, u, r, t);
            Same(s', m') && EndsAs(s, c, s', if outcome.Done? then Returned else Thrown)
  {
    var found := Assigning(u, r, t, Some(FindUser(s.db, u, t)), Some(M.HasRoleRow(s.db, r, t)));
    DecideAlone(s, c, first, u, r, t, n);
    DecidedAlone(s, m, c, first, u, r, t, Decide(found), n - 3);
  }

  lemma DeleteRoleAlone(s: State, m: M.State, c: CallId, first: bool, r: Id, t: Id)
    requires Same(s, m) && c in s.calls && s.calls[c] == FindingRole(r, t)
    ensures var s', (m', outcome) := Alone(s, c, first, 2), M.DeleteRole(m, r, t);
            Same(s', m') && EndsAs(s, c, s', if outcome.Done? then Returned else Thrown)
  {
    var s1 := Apply(s, Advance(c, first));
    assert Alone(s, c, first, 2) == Alone(s1, c, first, 1);
    if !Finished(s1.calls[c]) {
      var s2 := Apply(s1, Advance(c, first));
      assert Alone(s1, c, first, 1) == Alone(s2, c, first, 0) == s2;
      assert s2.calls == s.calls[c := Returned];
    }
  }
}
