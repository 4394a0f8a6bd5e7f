/** The cap on active keys when `create` is cut between its count and its save. */
module ApiKeyCap {
  import opened Prelude
  import opened ApiKeys

  type CallId = nat

  /** `inFlight` are the creates that have passed the count and not saved yet. */
  datatype Machine = Machine(base: State, inFlight: map<CallId, Op>)

  datatype Move = Count(c: CallId, op: Op) | Save(c: CallId) | Other(op: Op)

  predicate CanMove(m: Machine, move: Move) {
    match move
    case Count(c, op) => c !in m.inFlight && op.Create?
    case Save(c) => c in m.inFlight && m.inFlight[c].Create? && m.inFlight[c].newId !in m.base.keys
    case Other(op) => !op.Create? && Enabled(m.base, op)
  }

  ghost function After(m: Machine, move: Move): Machine
    requires CanMove(m, move)
  {
    match move
    case Count(c, op) =>
      if |ActiveIds(m.base.keys, op.tenantId)| >= m.base.maxActive then m
      else m.(inFlight := m.inFlight[c := op])
    case Save(c) => Machine(Insert(m.base, m.inFlight[c]).0, m.inFlight - {c})
    case Other(op) => m.(base := Step(m.base, op).0)
  }

  /** The whole create is its two halves in a row. */
  lemma CreateIsCountThenSave(m: Machine, c: CallId, op: Op)
    requires CanMove(m, Count(c, op)) && Enabled(m.base, op)
    ensures var m1 := After(m, Count(c, op));
            if c in m1.inFlight then After(m1, Save(c)) == m.(base := Step(m.base, op).0)
            else m1 == m && Step(m.base, op) == (m.base, LimitReached)
  {
  }

  function CallsOf(m: Machine, tenantId: Id): set<CallId> {
    set c | c in m.inFlight && m.inFlight[c].Create? && m.inFlight[c].tenantId == tenantId
  }

  datatype Run = Run(machines: seq<Machine>, moves: seq<Move>)

  ghost predicate MoveAt(r: Run, i: int) {
    0 <= i < |r.moves| < |r.machines| ==>
      CanMove(r.machines[i], r.moves[i]) && r.machines[i + 1] == After(r.machines[i], r.moves[i])
  }

  ghost predicate ValidRun(r: Run) {
    && |r.machines| == |r.moves| + 1
    && r.machines[0].base.keys == map[] && r.machines[0].inFlight == map[]
    && forall i :: MoveAt(r, i)
  }

  /** At no time more than `p` creates of the tenant are in flight. */
  ghost predicate AtMostInFlight(r: Run, tenantId: Id, p: nat) {
    forall i :: 0 <= i < |r.machines| ==> |CallsOf(r.machines[i], tenantId)| <= p
  }

  /** Nothing but a create adds an active key. */
  lemma OthersAddNoActive(s: State, op: Op, t: Id)
    requires !op.Create?
    ensures ActiveIds(Step(s, op).0.keys, t) <= ActiveIds(s.keys, t)
    ensures Step(s, op).0.maxActive == s.maxActive
  {
  }

  /** Keys already there and creates about to be saved. */
  function Load(m: Machine, t: Id): nat {
    |ActiveIds(m.base.keys, t)| + |CallsOf(m, t)|
  }

  lemma SaveKeepsLoad(m: Machine, c: CallId, t: Id)
    requires CanMove(m, Save(c))
    ensures Load(After(m, Save(c)), t) <= Load(m, t)
  {
    var m', op := After(m, Save(c)), m.inFlight[c];
    if op.tenantId == t {
      assert CallsOf(m', t) == CallsOf(m, t) - {c};
      SubsetCard(ActiveIds(m'.base.keys, t), ActiveIds(m.base.keys, t) + {op.newId});
    } else {
      assert CallsOf(m', t) == CallsOf(m, t);
      SubsetCard(ActiveIds(m'.base.keys, t), ActiveIds(m.base.keys, t));
    }
  }

  /** All a tenant can get with `p` creates in flight; nothing, if the cap lets none start. */
  function MaxKeys(maxActive: nat, p: nat): nat {
    if maxActive == 0 || p == 0 then 0 else maxActive - 1 + p
  }

  lemma CountLoad(m: Machine, c: CallId, op: Op, t: Id, p: nat)
    requires CanMove(m, Count(c, op)) && Load(m, t) <= MaxKeys(m.base.maxActive, p)
    requires |CallsOf(After(m, Count(c, op)), t)| <= p
    ensures Load(After(m, Count(c, op)), t) <= MaxKeys(m.base.maxActive, p)
    ensures After(m, Count(c, op)).base == m.base
  {
    var m' := After(m, Count(c, op));
    if c in m'.inFlight && op.tenantId == t {
      assert c in CallsOf(m', t);
    } else {
      assert CallsOf(m', t) == CallsOf(m, t);
    }
  }

  lemma OtherLoad(m: Machine, op: Op, t: Id)
    requires CanMove(m, Other(op))
    ensures Load(After(m, Other(op)), t) <= Load(m, t)
    ensures After(m, Other(op)).base.maxActive == m.base.maxActive
  {
    var m' := After(m, Other(op));
    OthersAddNoActive(m.base, op, t);
    SubsetCard(ActiveIds(m'.base.keys, t), ActiveIds(m.base.keys, t));
    assert CallsOf(m', t) == CallsOf(m, t);
  }

  lemma LoadStep(m: Machine, move: Move, t: Id, p: nat)
    requires CanMove(m, move)
    requires Load(m, t) <= MaxKeys(m.base.maxActive, p) && |CallsOf(After(m, move), t)| <= p
    ensures Load(After(m, move), t) <= MaxKeys(m.base.maxActive, p)
    ensures After(m, move).base.maxActive == m.base.maxActive
  {
    match move
    case Count(c, op) => CountLoad(m, c, op, t, p);
    case Save(c) => SaveKeepsLoad(m, c, t);
    case Other(op) => OtherLoad(m, op, t);
  }

  lemma {:induction false} LoadBounded(r: Run, t: Id, p: nat, i: nat)
    requires ValidRun(r) && AtMostInFlight(r, t, p) && i < |r.machines|
    ensures Load(r.machines[i], t) <= MaxKeys(r.machines[0].base.maxActive, p)
    ensures r.machines[i].base.maxActive == r.machines[0].base.maxActive
  {
    if i == 0 {
      assert ActiveIds(r.machines[0].base.keys, t) == {} && CallsOf(r.machines[0], t) == {};
    } else {
      LoadBounded(r, t, p, i - 1);
      assert |CallsOf(r.machines[i], t)| <= p;
      assert MoveAt(r, i - 1);
      LoadStep(r.machines[i - 1], r.moves[i - 1], t, p);
    }
  }

  /** With at most `p` creates in flight a tenant never has more than `maxActive - 1 + p`
      active keys, and none when the cap is 0; one at a time, that is the cap itself. */
  lemma CapUnderConcurrency(r: Run, t: Id, p: nat, i: nat)
    requires ValidRun(r) && AtMostInFlight(r, t, p) && i < |r.machines|
    ensures |ActiveIds(r.machines[i].base.keys, t)| <= MaxKeys(r.machines[0].base.maxActive, p)
    ensures p == 1 ==> |ActiveIds(r.machines[i].base.keys, t)| <= r.machines[0].base.maxActive
  {
    LoadBounded(r, t, p, i);
  }
}
