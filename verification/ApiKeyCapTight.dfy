/** The bound on active keys under concurrency is reached, for every cap and every number
    of creates in flight. */
module ApiKeyCapTight {
  import opened Prelude
  import opened ApiKeys
  import opened ApiKeyCap

  function CreateOp(t: Id, n: nat): Op {
    Create(t, Tag(n), None, None, Tag(n), Tag(n), Tag(n))
  }

  ghost predicate IsRow(keys: map<Id, ApiKey>, t: Id, id: Id, n: nat)
    requires id in keys
  {
    id == Tag(n) && keys[id] == NewRow(CreateOp(t, n))
  }

  /** The table holds keys 0 to `saved - 1`. */
  ghost predicate Table(keys: map<Id, ApiKey>, t: Id, saved: nat) {
    && (forall id :: id in keys ==> exists n: nat :: n < saved && IsRow(keys, t, id, n))
    && |ActiveIds(keys, t)| == saved
  }

  /** The next `pending` creates are in flight. */
  ghost predicate Flight(m: Machine, t: Id, saved: nat, pending: nat) {
    && (forall c :: c in m.inFlight <==> saved <= c < saved + pending)
    && (forall c :: c in m.inFlight ==> m.inFlight[c] == CreateOp(t, c))
    && |CallsOf(m, t)| == pending
  }

  ghost predicate Stage(m: Machine, t: Id, saved: nat, pending: nat) {
    t in m.base.tenants && Table(m.base.keys, t, saved) && Flight(m, t, saved, pending)
  }

  lemma CountFlight(m: Machine, m': Machine, t: Id, saved: nat, pending: nat)
    requires Flight(m, t, saved, pending)
    requires m'.inFlight == m.inFlight[saved + pending := CreateOp(t, saved + pending)]
    ensures Flight(m', t, saved, pending + 1)
  {
    assert CallsOf(m', t) == CallsOf(m, t) + {saved + pending};
  }

  lemma CountOne(m: Machine, t: Id, saved: nat, pending: nat) returns (move: Move)
    requires Stage(m, t, saved, pending) && saved < m.base.maxActive
    ensures CanMove(m, move) && Stage(After(m, move), t, saved, pending + 1) && After(m, move).base == m.base
  {
    move := Count(saved + pending, CreateOp(t, saved + pending));
    CountFlight(m, After(m, move), t, saved, pending);
  }

  /** Nothing in the table stands in the way of the next save. */
  lemma SaveAccepted(s: State, t: Id, saved: nat)
    requires t in s.tenants && Table(s.keys, t, saved)
    ensures Tag(saved) !in s.keys
    ensures Insert(s, CreateOp(t, saved)) == (Put(s, Tag(saved), NewRow(CreateOp(t, saved))), Done)
  {
  }

  lemma OldRow(keys: map<Id, ApiKey>, t: Id, saved: nat, id: Id)
    requires Table(keys, t, saved) && Tag(saved) !in keys && id in keys
    ensures var keys' := keys[Tag(saved) := NewRow(CreateOp(t, saved))];
            exists n: nat :: n < saved + 1 && IsRow(keys', t, id, n)
  {
    var n: nat :| n < saved && IsRow(keys, t, id, n);
    assert n < saved + 1 && IsRow(keys[Tag(saved) := NewRow(CreateOp(t, saved))], t, id, n);
  }

  lemma SaveTable(keys: map<Id, ApiKey>, t: Id, saved: nat)
    requires Table(keys, t, saved) && Tag(saved) !in keys
    ensures Table(keys[Tag(saved) := NewRow(CreateOp(t, saved))], t, saved + 1)
  {
    var keys' := keys[Tag(saved) := NewRow(CreateOp(t, saved))];
    assert ActiveIds(keys', t) == ActiveIds(keys, t) + {Tag(saved)};
    forall id | id in keys'
      ensures exists n: nat :: n < saved + 1 && IsRow(keys', t, id, n)
    {
      if id in keys {
        OldRow(keys, t, saved, id);
      } else {
        assert IsRow(keys', t, id, saved);
      }
    }
  }

  lemma SaveFlight(m: Machine, m': Machine, t: Id, saved: nat, pending: nat)
    requires Flight(m, t, saved, pending) && pending > 0 && m'.inFlight == m.inFlight - {saved}
    ensures Flight(m', t, saved + 1, pending - 1)
  {
    assert CallsOf(m', t) == CallsOf(m, t) - {saved};
  }

  lemma SaveOne(m: Machine, t: Id, saved: nat, pending: nat)
    requires Stage(m, t, saved, pending) && pending > 0
    ensures CanMove(m, Save(saved)) && Stage(After(m, Save(saved)), t, saved + 1, pending - 1)
    ensures After(m, Save(saved)).base.maxActive == m.base.maxActive
  {
    SaveAccepted(m.base, t, saved);
    SaveTable(m.base.keys, t, saved);
    SaveFlight(m, After(m, Save(saved)), t, saved, pending);
  }

  /** A run so far, and where it stands. */
  ghost predicate Reached(r: Run, t: Id, p: nat, maxActive: nat, saved: nat, pending: nat) {
    && ValidRun(r) && AtMostInFlight(r, t, p)
    && r.machines[0].base.maxActive == maxActive == r.machines[|r.moves|].base.maxActive
    && Stage(r.machines[|r.moves|], t, saved, pending)
  }

  function Extend(r: Run, move: Move, m: Machine): Run {
    Run(r.machines + [m], r.moves + [move])
  }

  lemma ExtendValid(r: Run, move: Move)
    requires ValidRun(r) && CanMove(r.machines[|r.moves|], move)
    ensures ValidRun(Extend(r, move, After(r.machines[|r.moves|], move)))
  {
    var r' := Extend(r, move, After(r.machines[|r.moves|], move));
    forall i
      ensures MoveAt(r', i)
    {
      assert MoveAt(r, i);
    }
  }

  lemma ExtendReached(r: Run, t: Id, p: nat, maxActive: nat, saved: nat, pending: nat,
                      move: Move, saved': nat, pending': nat)
    requires Reached(r, t, p, maxActive, saved, pending) && CanMove(r.machines[|r.moves|], move)
    requires After(r.machines[|r.moves|], move).base.maxActive == maxActive && pending' <= p
    requires Stage(After(r.machines[|r.moves|], move), t, saved', pending')
    ensures Reached(Extend(r, move, After(r.machines[|r.moves|], move)), t, p, maxActive, saved', pending')
  {
    ExtendValid(r, move);
    assert |CallsOf(After(r.machines[|r.moves|], move), t)| == pending';
  }

  lemma {:induction false} CountMany(r: Run, t: Id, p: nat, maxActive: nat, saved: nat, pending: nat) returns (r': Run)
    requires Reached(r, t, p, maxActive, saved, pending) && saved < maxActive && pending <= p
    ensures Reached(r', t, p, maxActive, saved, p)
    decreases p - pending
  {
    if pending == p {
      r' := r;
    } else {
      var move := CountOne(r.machines[|r.moves|], t, saved, pending);
      ExtendReached(r, t, p, maxActive, saved, pending, move, saved, pending + 1);
      r' := CountMany(Extend(r, move, After(r.machines[|r.moves|], move)), t, p, maxActive, saved, pending + 1);
    }
  }

  lemma {:induction false} SaveMany(r: Run, t: Id, p: nat, maxActive: nat, saved: nat, pending: nat) returns (r': Run)
    requires Reached(r, t, p, maxActive, saved, pending) && pending <= p
    ensures Reached(r', t, p, maxActive, saved + pending, 0)
    decreases pending
  {
    if pending == 0 {
      r' := r;
    } else {
      SaveOne(r.machines[|r.moves|], t, saved, pending);
      ExtendReached(r, t, p, maxActive, saved, pending, Save(saved), saved + 1, pending - 1);
      var r1 := Extend(r, Save(saved), After(r.machines[|r.moves|], Save(saved)));
      r' := SaveMany(r1, t, p, maxActive, saved + 1, pending - 1);
    }
  }

  lemma NothingYet(t: Id, p: nat, maxActive: nat) returns (r: Run)
    ensures Reached(r, t, p, maxActive, 0, 0)
  {
    var start := Machine(State(map[], {t}, 0, maxActive, 0), map[]);
    r := Run([start], []);
    assert ActiveIds(start.base.keys, t) == {} && CallsOf(start, t) == {};
  }

  /** One create after the other up to one short of the cap. */
  lemma {:induction false} Fill(t: Id, p: nat, maxActive: nat, saved: nat) returns (r: Run)
    requires p >= 1 && saved < maxActive
    ensures Reached(r, t, p, maxActive, saved, 0)
  {
    if saved == 0 {
      r := NothingYet(t, p, maxActive);
    } else {
      r := Fill(t, p, maxActive, saved - 1);
      var move := CountOne(r.machines[|r.moves|], t, saved - 1, 0);
      ExtendReached(r, t, p, maxActive, saved - 1, 0, move, saved - 1, 1);
      r := SaveMany(Extend(r, move, After(r.machines[|r.moves|], move)), t, p, maxActive, saved - 1, 1);
    }
  }

  /** For every cap and every `p` some run with at most `p` creates in flight ends with
      exactly as many active keys as the bound allows. */
  lemma BoundReached(t: Id, p: nat, maxActive: nat) returns (r: Run)
    ensures ValidRun(r) && AtMostInFlight(r, t, p) && r.machines[0].base.maxActive == maxActive
    ensures |ActiveIds(r.machines[|r.moves|].base.keys, t)| == MaxKeys(maxActive, p)
  {
    if maxActive == 0 || p == 0 {
      r := NothingYet(t, p, maxActive);
      return;
    }
    r := Fill(t, p, maxActive, maxActive - 1);
    r := CountMany(r, t, p, maxActive, maxActive - 1, 0);
    r := SaveMany(r, t, p, maxActive, maxActive - 1, p);
  }
}
