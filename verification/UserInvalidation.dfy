/** What dropping a cached profile achieves when calls interleave, and two ways in which it
    does not. */
module UserInvalidation {
  import opened Prelude
  import opened Identity
  import opened UserConcurrent
  import C = CacheAside

  /** At move `k` call `c` saved its changes of user `u`. */
  ghost predicate SavedAt(r: Run, k: int, c: CallId, u: Id) {
    && 0 <= k < |r.moves| < |r.machines| && r.moves[k] == Advance(c) && c in r.machines[k].calls
    && r.machines[k].calls[c].Saving? && r.machines[k].calls[c].userId == u
    && SaveAccepted(r.machines[k].base, u, r.machines[k].calls[c].row)
    && u in r.machines[k + 1].base.users
    && r.machines[k + 1].base.users[u].(updatedAt := 0) == r.machines[k].calls[c].row.(updatedAt := 0)
  }

  ghost predicate WriterExplained(r: Run, i: int, c: CallId) {
    0 <= i < |r.machines| && c in r.machines[i].calls && r.machines[i].calls[c].Invalidating? &&
    !r.machines[i].calls[c].deletes ==>
      exists k :: 0 <= k < i && SavedAt(r, k, c, r.machines[i].calls[c].userId)
  }

  /** Only an update's own save makes it drop the entry without deleting the row. */
  lemma NewlyInvalidating(m: Machine, move: Move, c: CallId)
    requires CanMove(m, move) && c in After(m, move).calls && After(m, move).calls[c].Invalidating?
    requires !After(m, move).calls[c].deletes
    ensures c in m.calls
    ensures m.calls[c] == After(m, move).calls[c] ||
            (move == Advance(c) && m.calls[c].Saving? && m.calls[c].userId == After(m, move).calls[c].userId &&
             SaveAccepted(m.base, m.calls[c].userId, m.calls[c].row))
  {
  }

  lemma {:induction false} AllWritersExplained(r: Run, i: nat, c: CallId)
    requires ValidRun(r) && i < |r.machines|
    ensures WriterExplained(r, i, c)
  {
    var m' := r.machines[i];
    if c in m'.calls && m'.calls[c].Invalidating? && !m'.calls[c].deletes {
      assert i > 0;
      var m := r.machines[i - 1];
      assert MoveAt(r, i - 1);
      NewlyInvalidating(m, r.moves[i - 1], c);
      if m.calls[c] == m'.calls[c] {
        AllWritersExplained(r, i - 1, c);
        var k :| 0 <= k < i - 1 && SavedAt(r, k, c, m.calls[c].userId);
        assert 0 <= k < i && SavedAt(r, k, c, m'.calls[c].userId);
      } else {
        assert SavedAt(r, i - 1, c, m'.calls[c].userId);
      }
    }
  }

  ghost predicate NoOldHitAfter(r: Run, n0: int, d: int, u: Id) {
    forall i :: d < i < |r.moves| ==> !OldHit(r, n0, i, u)
  }

  lemma NothingOldAfterDrop(r: Run, n0: nat, d: nat, u: Id)
    requires ValidRun(r) && n0 <= d < |r.moves|
    requires u !in r.machines[d + 1].base.cache && C.NoOldHand(Views(r), n0, d + 1, u)
    ensures NoOldHitAfter(r, n0, d, u)
  {
    var done := d + 1;
    assert !C.OldInReach(Views(r), n0, done, u, r.machines[0].base.ttl);
    forall i | d < i < |r.moves|
      ensures !OldHit(r, n0, i, u)
    {
      NothingOldServed(r, n0, done, i, u);
    }
  }

  /** An update that ends saved first and then dropped the entry; and unless at that moment a
      call had in hand a profile from before the save, no hit shows one afterwards. */
  lemma UpdateTakesEffect(r: Run, d: nat, c: CallId, u: Id) returns (k: nat)
    requires ValidRun(r) && d < |r.moves| && r.moves[d] == Advance(c)
    requires c in r.machines[d].calls && r.machines[d].calls[c] == Invalidating(u, false)
    ensures k < d && SavedAt(r, k, c, u)
    ensures u !in r.machines[d + 1].base.cache
    ensures c in r.machines[d + 1].calls && r.machines[d + 1].calls[c] == Ended(Done)
    ensures C.NoOldHand(Views(r), k + 1, d + 1, u) ==> NoOldHitAfter(r, k + 1, d, u)
  {
    AllWritersExplained(r, d, c);
    k :| 0 <= k < d && SavedAt(r, k, c, u);
    assert MoveAt(r, d);
    if C.NoOldHand(Views(r), k + 1, d + 1, u) {
      NothingOldAfterDrop(r, k + 1, d, u);
    }
  }

  // ----- A deleted user still served -----

  lemma Start(b: Identity.State) returns (r: Run)
    requires b.cache == map[]
    ensures ValidRun(r) && |r.moves| == 0 && r.machines == [Machine(b, map[])]
  {
    r := Run([Machine(b, map[])], []);
  }

  /** The delete has dropped the entry and is about to remove the row. */
  lemma DeleteHalfway(b: Identity.State, t: Id, u: Id) returns (r: Run)
    requires b.cache == map[] && Has(b.users, t, u)
    ensures ValidRun(r) && |r.moves| == 3 && r.moves[2] == Advance(0)
    ensures r.machines[0] == Machine(b, map[])
    ensures r.machines[2] == Machine(b, map[0 := Invalidating(u, true)])
    ensures r.machines[3] == Machine(b, map[0 := Deleting(u)])
  {
    r := Start(b);
    r := RunOn(r, Begin(0, LoadingToDelete(t, u)));
    var r2 := RunOn(r, Advance(0));
    assert r2.machines[2] == Machine(b, map[0 := Invalidating(u, true)]);
    r := RunOn(r2, Advance(0));
    assert r.machines[2] == r2.machines[2];
    assert r.machines[3].calls == map[0 := Deleting(u)];
    assert b.cache - {u} == b.cache;
  }

  /** A reader comes by in between. */
  lemma RefilledHalfway(b: Identity.State, t: Id, u: Id) returns (r: Run)
    requires b.cache == map[] && Has(b.users, t, u)
    ensures ValidRun(r) && |r.moves| == 7 && r.moves[2] == Advance(0)
    ensures r.machines[0] == Machine(b, map[])
    ensures r.machines[2] == Machine(b, map[0 := Invalidating(u, true)])
    ensures r.machines[3] == Machine(b, map[0 := Deleting(u)])
    ensures var dto := FormatResponse(u, b.users[u]);
            r.machines[7] == Machine(b.(cache := map[u := Entry(dto, b.now + b.ttl)]),
                                     map[0 := Deleting(u), 1 := Ended(Read(dto))])
  {
    var dto := FormatResponse(u, b.users[u]);
    var r3 := DeleteHalfway(b, t, u);
    var r4 := RunOn(r3, Begin(1, Reading(t, u)));
    var r5 := RunOn(r4, Advance(1));
    assert r5.machines[5].calls == map[0 := Deleting(u), 1 := Missed(t, u)];
    var r6 := RunOn(r5, Advance(1));
    assert r6.machines[6].calls == map[0 := Deleting(u), 1 := Found(t, u, dto, b.now, false)];
    r := RunOn(r6, Advance(1));
    assert r.machines[7].calls == map[0 := Deleting(u), 1 := Ended(Read(dto))];
    assert r.machines[2] == r3.machines[2] && r.machines[3] == r3.machines[3];
  }

  ghost predicate NoneInHand(m: Machine) {
    forall c :: c in m.calls ==> !m.calls[c].Found?
  }

  lemma GoneIsOld(r: Run, n: nat, u: Id)
    requires ValidRun(r) && n < |r.machines| && u !in r.machines[n].base.users
    requires Lookup(r.machines[n].base.cache, u, r.machines[n].base.now).Some?
    ensures C.OldEntry(Views(r), n, n, u)
  {
  }

  /** The delete drops the entry before it removes the row, so no reader needs to be under way:
      when the entry is dropped, at move `d`, no call has a profile in hand; the delete ends at
      move `w`; and later the deleted user is served from the cache. */
  lemma DeletedStillServed(b: Identity.State, t: Id, u: Id) returns (r: Run, d: nat, w: nat, i: nat)
    requires b.cache == map[] && Has(b.users, t, u) && b.ttl > 0
    ensures ValidRun(r) && r.machines[0].base == b && d < w < i < |r.moves|
    ensures r.moves[d] == Advance(0) && 0 in r.machines[d].calls && r.machines[d].calls[0] == Invalidating(u, true)
    ensures NoneInHand(r.machines[d]) && NoneInHand(r.machines[d + 1])
    ensures 0 in r.machines[w + 1].calls && r.machines[w + 1].calls[0] == Ended(Done)
    ensures u !in r.machines[w + 1].base.users && OldHit(r, w + 1, i, u)
  {
    var r7 := RefilledHalfway(b, t, u);
    var r8 := RunOn(r7, Advance(0));
    assert r8.machines[2] == r7.machines[2] && r8.machines[3] == r7.machines[3];
    GoneIsOld(r8, 8, u);
    r := EntryServed(r8, 8, u);
    d, w, i := 2, 7, 9;
    assert r.machines[2] == r8.machines[2] && r.machines[3] == r8.machines[3] && r.machines[8] == r8.machines[8];
    assert r.moves[2] == r8.moves[2] && r.machines[0] == r8.machines[0];
  }

  // ----- A writer files the row it wrote before -----

  lemma InsertedNotFiled(b: Identity.State, op: Op) returns (r: Run)
    requires b.cache == map[] && op.CreateUser? && op.tenantId in b.tenants && op.newId !in b.issued
    requires !Known(b.users, op.tenantId, op.email)
    ensures ValidRun(r) && r.machines[0].base == b && |r.moves| == 4
    ensures var row := NewUser(op, Active, b.now);
            r.machines[4] ==
            Machine(b.(users := b.users[op.newId := row], issued := b.issued + {op.newId}),
                    map[0 := Found(op.tenantId, op.newId, FormatResponse(op.newId, row), b.now, true)])
  {
    r := Start(b);
    r := RunOn(r, Begin(0, CheckingTenant(op)));
    r := RunOn(r, Advance(0));
    assert r.machines[2].calls == map[0 := CheckingEmail(op)];
    r := RunOn(r, Advance(0));
    assert r.machines[3].calls == map[0 := Inserting(op)];
    var row := NewUser(op, Active, b.now);
    r := RunOn(r, Advance(0));
    assert r.machines[4].calls == map[0 := Found(op.tenantId, op.newId, FormatResponse(op.newId, row), b.now, true)];
  }

  /** An update from start to end while call 0 holds what it inserted. */
  lemma UpdatedMeanwhile(r4: Run, b4: Identity.State, held: Call, t: Id, u: Id, name: string) returns (r: Run)
    requires ValidRun(r4) && |r4.moves| == 4 && r4.machines[4] == Machine(b4, map[0 := held])
    requires Has(b4.users, t, u) && SaveAccepted(b4, u, b4.users[u].(name := name)) && name != b4.users[u].name
    ensures Extends(r, r4) && |r.moves| == 8
    ensures var row := b4.users[u].(name := name, updatedAt := b4.now);
            r.machines[8] == Machine(b4.(users := b4.users[u := row], cache := b4.cache - {u}),
                                     map[0 := held, 1 := Ended(Done)])
  {
    var change := Patching(Some(name), None);
    var row := b4.users[u].(name := name);
    var r5 := RunOn(r4, Begin(1, Loading(t, ById(u), change)));
    var r6 := RunOn(r5, Advance(1));
    assert r6.machines[6] == Machine(b4, map[0 := held, 1 := Saving(u, row, change)]);
    var r7 := RunOn(r6, Advance(1));
    assert r7.machines[7].calls == map[0 := held, 1 := Invalidating(u, false)];
    r := RunOn(r7, Advance(1));
    assert r.machines[8].calls == map[0 := held, 1 := Ended(Done)];
  }

  lemma InsertedSaves(b: Identity.State, op: Op, name: string)
    requires op.CreateUser? && op.tenantId in b.tenants && !Known(b.users, op.tenantId, op.email)
    ensures var b4 := b.(users := b.users[op.newId := NewUser(op, Active, b.now)], issued := b.issued + {op.newId});
            SaveAccepted(b4, op.newId, b4.users[op.newId].(name := name))
  {
  }

  /** Only calls 0 and 1 have been made up to machine `n`. */
  ghost predicate OnlyTwoCalls(r: Run, n: int) {
    forall j, c :: 0 <= j <= n && j < |r.machines| && c in r.machines[j].calls ==> c == 0 || c == 1
  }

  lemma {:induction false} CallsStay(r: Run, j: nat, n: nat, c: CallId)
    requires ValidRun(r) && j <= n < |r.machines| && c in r.machines[j].calls
    ensures c in r.machines[n].calls
  {
    if j < n {
      CallsStay(r, j, n - 1, c);
      assert MoveAt(r, n - 1);
    }
  }

  lemma OnlyTwo(r: Run, n: nat)
    requires ValidRun(r) && n < |r.machines| && forall c :: c in r.machines[n].calls ==> c == 0 || c == 1
    ensures OnlyTwoCalls(r, n)
  {
    forall j, c | 0 <= j <= n && c in r.machines[j].calls
      ensures c == 0 || c == 1
    {
      CallsStay(r, j, n, c);
    }
  }

  /** What call 0 has in hand differs from the row. */
  lemma HeldIsOld(r: Run, n: nat, u: Id)
    requires ValidRun(r) && n < |r.machines| && 0 in r.machines[n].calls && r.machines[n].calls[0].Found?
    requires r.machines[n].calls[0].userId == u && u in r.machines[n].base.users
    requires FormatResponse(u, r.machines[n].base.users[u]) != r.machines[n].calls[0].dto
    ensures C.OldHand(Views(r), n, n, 0, u)
  {
  }

  /** Without any reader: a create inserts the user, an update of that user runs from start to
      end, invalidation included, and then the create stores the row as it was before. */
  lemma CreateFilesOldRow(b: Identity.State, op: Op, name: string) returns (r: Run, w: nat, i: nat)
    requires b.cache == map[] && op.CreateUser? && op.tenantId in b.tenants && op.newId !in b.issued
    requires !Known(b.users, op.tenantId, op.email) && b.ttl > 0 && name != op.name
    ensures ValidRun(r) && r.machines[0].base == b && w < i < |r.moves| && OnlyTwoCalls(r, w + 1)
    ensures 1 in r.machines[w + 1].calls && r.machines[w + 1].calls[1] == Ended(Done)
    ensures op.newId in r.machines[w + 1].base.users && r.machines[w + 1].base.users[op.newId].name == name
    ensures OldHit(r, w + 1, i, op.newId)
  {
    var u, t := op.newId, op.tenantId;
    var r4 := InsertedNotFiled(b, op);
    var b4, held := r4.machines[4].base, r4.machines[4].calls[0];
    InsertedSaves(b, op, name);
    var r8 := UpdatedMeanwhile(r4, b4, held, t, u, name);
    assert r8.machines[0] == r4.machines[0];
    HeldIsOld(r8, 8, u);
    r := HandServed(r8, 8, 0, u);
    assert r.machines[8] == r8.machines[8] && r.machines[0] == r8.machines[0];
    OnlyTwo(r, 8);
    w, i := 7, 10;
  }
}
