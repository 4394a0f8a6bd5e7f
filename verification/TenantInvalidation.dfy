/** What the tenant service's invalidation achieves when calls interleave, and how a create can
    undo it. */
module TenantInvalidation {
  import opened Prelude
  import opened Tenants
  import opened TenantConcurrent
  import C = CacheAside

  /** At move `k` call `c` wrote the row of the tenant or removed it. */
  ghost predicate WrittenAt(r: Trace, k: int, c: CallId, id: Id) {
    && 0 <= k < |r.moves| < |r.machines| && r.moves[k] == Advance(c) && c in r.machines[k].calls
    && Writes(r.machines[k], r.machines[k].calls[c], r.machines[k + 1], id)
  }

  /** The next step of the call removes the row or saves what it has in hand. */
  ghost predicate Writes(m: Machine, call: Call, m': Machine, id: Id) {
    match call
    case Removing(other) => other == id && id !in m'.base.tenants
    case Saving(other, row, e) =>
      other == id && id in m'.base.tenants && RowToSave(m.base, id, row, e) == Some(m'.base.tenants[id])
    case _ => false
  }

  lemma WriterWrites(m: Machine, c: CallId)
    requires CanMove(m, Advance(c)) && After(m, Advance(c)).calls[c].Invalidating?
    ensures Writes(m, m.calls[c], After(m, Advance(c)), After(m, Advance(c)).calls[c].id)
  {
  }

  ghost predicate WriterExplained(r: Trace, i: int, c: CallId) {
    0 <= i < |r.machines| && c in r.machines[i].calls && r.machines[i].calls[c].Invalidating? ==>
      exists k :: 0 <= k < i && WrittenAt(r, k, c, r.machines[i].calls[c].id)
  }

  /** Only a writer's own save or removal makes it invalidate. */
  lemma NewlyInvalidating(m: Machine, move: Move, c: CallId)
    requires CanMove(m, move) && c in After(m, move).calls && After(m, move).calls[c].Invalidating?
    ensures c in m.calls
    ensures m.calls[c] == After(m, move).calls[c] ||
            (move == Advance(c) && Writes(m, m.calls[c], After(m, move), After(m, move).calls[c].id))
  {
    if move == Advance(c) {
      WriterWrites(m, c);
    }
  }

  /** Invalidating drops the entry, and publishing comes next. */
  lemma DropStep(m: Machine, c: CallId)
    requires CanMove(m, Advance(c)) && m.calls[c].Invalidating?
    ensures var m' := After(m, Advance(c));
            m.calls[c].id !in m'.base.cache && m'.calls[c] == Publishing(m.calls[c].note)
  {
  }

  lemma {:induction false} AllWritersExplained(r: Trace, i: nat, c: CallId)
    requires Valid(r) && i < |r.machines|
    ensures WriterExplained(r, i, c)
  {
    var m' := r.machines[i];
    if c in m'.calls && m'.calls[c].Invalidating? {
      assert i > 0;
      var m := r.machines[i - 1];
      assert MoveAt(r, i - 1);
      NewlyInvalidating(m, r.moves[i - 1], c);
      if m.calls[c] == m'.calls[c] {
        AllWritersExplained(r, i - 1, c);
        var k :| 0 <= k < i - 1 && WrittenAt(r, k, c, m.calls[c].id);
        assert 0 <= k < i && WrittenAt(r, k, c, m'.calls[c].id);
      } else {
        assert WrittenAt(r, i - 1, c, m'.calls[c].id);
      }
    }
  }

  ghost predicate NoOldHitAfter(r: Trace, n0: int, d: int, id: Id) {
    forall i :: d < i < |r.moves| ==> !OldHit(r, n0, i, id)
  }

  lemma NothingOldAfterDrop(r: Trace, n0: nat, d: nat, id: Id)
    requires Valid(r) && n0 <= d < |r.moves|
    requires id !in r.machines[d + 1].base.cache && C.NoOldHand(Views(r), n0, d + 1, id)
    ensures NoOldHitAfter(r, n0, d, id)
  {
    var done := d + 1;
    assert !C.OldInReach(Views(r), n0, done, id, r.machines[0].base.ttl);
    forall i | d < i < |r.moves|
      ensures !OldHit(r, n0, i, id)
    {
      NothingOldServed(r, n0, done, i, id);
    }
  }

  /** An update or delete that gets to publish wrote or removed the row first and then dropped
      the entry; and unless at that moment a call had in hand a response from before the write,
      no hit shows one afterwards. */
  lemma WriteTakesEffect(r: Trace, d: nat, c: CallId, id: Id) returns (k: nat)
    requires Valid(r) && d < |r.moves| && r.moves[d] == Advance(c)
    requires c in r.machines[d].calls && r.machines[d].calls[c].Invalidating? && r.machines[d].calls[c].id == id
    ensures k < d && WrittenAt(r, k, c, id)
    ensures id !in r.machines[d + 1].base.cache
    ensures c in r.machines[d + 1].calls && r.machines[d + 1].calls[c].Publishing?
    ensures C.NoOldHand(Views(r), k + 1, d + 1, id) ==> NoOldHitAfter(r, k + 1, d, id)
  {
    AllWritersExplained(r, d, c);
    k :| 0 <= k < d && WrittenAt(r, k, c, id);
    assert MoveAt(r, d);
    DropStep(r.machines[d], c);
    if C.NoOldHand(Views(r), k + 1, d + 1, id) {
      NothingOldAfterDrop(r, k + 1, d, id);
    }
  }

  // ----- A create that files a tenant deleted meanwhile -----

  lemma InsertedNotFiled(b: Tenants.State, p: CreatePayload, id: Id) returns (r: Trace)
    requires b.cache == map[] && id !in b.tenants && !SlugInUse(b.tenants, p.slug)
    ensures Valid(r) && r.machines[0].base == b && |r.moves| == 3
    ensures var row := NewRow(p, b.now);
            r.machines[3] == Machine(b.(tenants := b.tenants[id := row]),
                                     map[0 := Found(id, FormatResponse(id, row), b.now, Some(row))])
  {
    r := Trace([Machine(b, map[])], []);
    r := RunOn(r, Begin(0, CheckingSlug(p, id)));
    r := RunOn(r, Advance(0));
    assert r.machines[2].calls == map[0 := Inserting(p, id)];
    var row := NewRow(p, b.now);
    r := RunOn(r, Advance(0));
    assert r.machines[3].calls == map[0 := Found(id, FormatResponse(id, row), b.now, Some(row))];
  }

  /** Call 1 takes one step, call 0 none. */
  lemma SecondMoves(r: Trace, b: Tenants.State, held: Call, call: Call) returns (r': Trace)
    requires Valid(r) && r.machines[|r.moves|] == Machine(b, map[0 := held, 1 := call])
    requires !call.Ended? && !call.Inserting?
    ensures Extends(r', r) && |r'.moves| == |r.moves| + 1
    ensures r'.machines[|r'.moves|] == Machine(NextBase(b, call), map[0 := held, 1 := NextCall(b, call)])
  {
    r' := RunOn(r, Advance(1));
    assert r'.machines[|r'.moves|].calls == map[0 := held, 1 := NextCall(b, call)];
  }

  /** A delete from start to end while call 0 holds what it inserted. */
  lemma DeletedMeanwhile(r3: Trace, b3: Tenants.State, held: Call, id: Id) returns (r: Trace)
    requires Valid(r3) && |r3.moves| == 3 && r3.machines[3] == Machine(b3, map[0 := held]) && id in b3.tenants
    ensures Extends(r, r3) && |r.moves| == 8
    ensures r.machines[8] ==
            Machine(b3.(tenants := b3.tenants - {id}, cache := b3.cache - {id},
                        log := b3.log + [DeletedEvent(None, b3.now)]),
                    map[0 := held, 1 := Ended(Done)])
  {
    var b4 := b3.(tenants := b3.tenants - {id});
    var b5 := b4.(cache := b3.cache - {id});
    var r4 := RunOn(r3, Begin(1, LoadingToDelete(id)));
    assert r4.machines[4] == Machine(b3, map[0 := held, 1 := LoadingToDelete(id)]);
    var r5 := SecondMoves(r4, b3, held, LoadingToDelete(id));
    var r6 := SecondMoves(r5, b3, held, Removing(id));
    var r7 := SecondMoves(r6, b4, held, Invalidating(id, Removed));
    r := SecondMoves(r7, b5, held, Publishing(Removed));
  }

  /** What call 0 has in hand is of a tenant that is gone. */
  lemma HeldIsOld(r: Trace, n: nat, id: Id)
    requires Valid(r) && n < |r.machines| && 0 in r.machines[n].calls && r.machines[n].calls[0].Found?
    requires r.machines[n].calls[0].id == id && id !in r.machines[n].base.tenants
    ensures C.OldHand(Views(r), n, n, 0, id)
  {
  }

  /** Without any reader: a create inserts the tenant, a delete of it runs from start to end,
      invalidation included, and then the create stores the tenant that is gone. */
  lemma CreateFilesDeleted(b: Tenants.State, p: CreatePayload, id: Id) returns (r: Trace, w: nat, i: nat)
    requires b.cache == map[] && id !in b.tenants && !SlugInUse(b.tenants, p.slug) && b.ttl > 0
    ensures Valid(r) && r.machines[0].base == b && w < i < |r.moves|
    ensures r.machines[w + 1].calls.Keys == {0, 1} && r.machines[w + 1].calls[1] == Ended(Done)
    ensures id !in r.machines[w + 1].base.tenants && OldHit(r, w + 1, i, id)
  {
    var r3 := InsertedNotFiled(b, p, id);
    var r8 := DeletedMeanwhile(r3, r3.machines[3].base, r3.machines[3].calls[0], id);
    assert r8.machines[0] == r3.machines[0];
    HeldIsOld(r8, 8, id);
    r := HandServed(r8, 8, 0, id);
    assert r.machines[8] == r8.machines[8] && r.machines[0] == r8.machines[0];
    w, i := 7, 10;
  }
}
