/** The cut tenant calls, run without interruption, are the atomic ones. */
module TenantAlone {
  import opened Prelude
  import opened Tenants
  import opened TenantConcurrent

  /** Call `c` takes its next moves, at most `n`, with nothing in between. */
  ghost function Alone(m: Machine, c: CallId, n: nat): Machine
    requires c in m.calls
    decreases n
  {
    if n == 0 || !CanMove(m, Advance(c)) then m else Alone(After(m, Advance(c)), c, n - 1)
  }

  /** The machine after the atomic call, with its outcome. */
  ghost function Atomically(m: Machine, c: CallId, op: Op): Machine {
    var (base', outcome) := Step(m.base, op);
    Machine(base', m.calls[c := Ended(outcome)])
  }

  lemma FindAlone(m: Machine, c: CallId, id: Id)
    requires c in m.calls && m.calls[c] == Reading(id)
    ensures Alone(m, c, 3) == Atomically(m, c, FindById(id))
  {
    var m1 := After(m, Advance(c));
    assert Alone(m, c, 3) == Alone(m1, c, 2);
    if m1.calls[c].Missed? {
      var m2 := After(m1, Advance(c));
      assert Alone(m1, c, 2) == Alone(m2, c, 1);
      assert m2.calls == m.calls[c := m2.calls[c]];
      if m2.calls[c].Found? {
        var m3 := After(m2, Advance(c));
        assert Alone(m2, c, 1) == Alone(m3, c, 0) == m3;
        assert m3.calls == m.calls[c := m3.calls[c]];
      }
    }
  }

  lemma CreateAlone(m: Machine, c: CallId, p: CreatePayload, newId: Id)
    requires c in m.calls && newId !in m.base.tenants && m.calls[c] == CheckingSlug(p, newId)
    ensures Alone(m, c, 4) == Atomically(m, c, Create(p, newId))
  {
    var m1 := After(m, Advance(c));
    assert Alone(m, c, 4) == Alone(m1, c, 3);
    if m1.calls[c].Inserting? {
      var m2 := After(m1, Advance(c));
      assert Alone(m1, c, 3) == Alone(m2, c, 2);
      assert m2.calls == m.calls[c := m2.calls[c]] && m2.calls[c].Found?;
      var m3 := After(m2, Advance(c));
      assert Alone(m2, c, 2) == Alone(m3, c, 1);
      assert m3.calls == m.calls[c := m3.calls[c]] && m3.calls[c].Announcing?;
      var m4 := After(m3, Advance(c));
      assert Alone(m3, c, 1) == Alone(m4, c, 0) == m4;
      assert m4.calls == m.calls[c := m4.calls[c]];
    }
  }

  /** From the save on, for an entity made from the row as it is. */
  lemma SaveAlone(m: Machine, c: CallId, id: Id, p: UpdatePayload, n: nat)
    requires id in m.base.tenants && !SlugRefused(m.base.tenants, id, p.slug) && n >= 3
    requires var row := m.base.tenants[id]; c in m.calls && m.calls[c] == Saving(id, row, Assign(row, p))
    ensures Alone(m, c, n) == Atomically(m, c, Update(id, p))
  {
    var m1 := After(m, Advance(c));
    assert Alone(m, c, n) == Alone(m1, c, n - 1);
    if m1.calls[c].Invalidating? {
      var m2 := After(m1, Advance(c));
      var m3 := After(m2, Advance(c));
      assert Alone(m1, c, n - 1) == Alone(m2, c, n - 2) == Alone(m3, c, n - 3) == m3;
      assert m3.calls == m.calls[c := m3.calls[c]];
    }
  }

  lemma UpdateAlone(m: Machine, c: CallId, id: Id, p: UpdatePayload)
    requires c in m.calls && m.calls[c] == Loading(id, p)
    ensures Alone(m, c, 5) == Atomically(m, c, Update(id, p))
  {
    var m1 := After(m, Advance(c));
    var outcome := Ended(Step(m.base, Update(id, p)).1);
    assert Alone(m, c, 5) == Alone(m1, c, 4);
    if m1.calls[c].Saving? {
      SaveAlone(m1, c, id, p, 4);
      assert m1.calls[c := outcome] == m.calls[c := outcome];
    } else if m1.calls[c].CheckingNewSlug? {
      var m2 := After(m1, Advance(c));
      assert Alone(m1, c, 4) == Alone(m2, c, 3);
      assert m2.calls == m.calls[c := m2.calls[c]];
      if m2.calls[c].Saving? {
        SaveAlone(m2, c, id, p, 3);
        assert m2.calls[c := outcome] == m.calls[c := outcome];
      }
    }
  }

  lemma InvalidateAlone(m: Machine, c: CallId, id: Id)
    requires c in m.calls && m.calls[c] == Invalidating(id, Removed)
    ensures Alone(m, c, 2) ==
            Machine(m.base.(cache := m.base.cache - {id}, log := m.base.log + [DeletedEvent(None, m.base.now)]),
                    m.calls[c := Ended(Done)])
  {
    var m1 := After(m, Advance(c));
    var m2 := After(m1, Advance(c));
    assert Alone(m, c, 2) == Alone(m1, c, 1) == Alone(m2, c, 0) == m2;
    assert m2.calls == m.calls[c := Ended(Done)];
  }

  lemma DeleteAlone(m: Machine, c: CallId, id: Id)
    requires c in m.calls && m.calls[c] == LoadingToDelete(id)
    ensures Alone(m, c, 4) == Atomically(m, c, Delete(id))
  {
    var m1 := After(m, Advance(c));
    assert Alone(m, c, 4) == Alone(m1, c, 3);
    if m1.calls[c].Removing? {
      var m2 := After(m1, Advance(c));
      assert Alone(m1, c, 3) == Alone(m2, c, 2);
      assert m2.base == m.base.(tenants := m.base.tenants - {id});
      InvalidateAlone(m2, c, id);
      assert m2.calls[c := Ended(Done)] == m.calls[c := Ended(Done)];
    }
  }
}
