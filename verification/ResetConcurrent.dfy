/** Reset requests cut between marking the old tokens used and saving the new one. */
module ResetConcurrent {
  import opened Prelude
  import opened Identity

  type CallId = nat

  /** `inFlight` are the requests that have marked the old tokens and not saved yet. */
  datatype Machine = Machine(base: State, inFlight: map<CallId, Request>)

  datatype Request = Request(userId: Id, tenantId: Id)

  datatype Move =
    | Mark(c: CallId, tenantId: Id, email: string)
    | Save(c: CallId, newTokenId: Id, raw: string)
    | Other(op: Op)

  predicate CanMove(m: Machine, move: Move) {
    match move
    case Mark(c, _, _) => c !in m.inFlight
    case Save(c, newTokenId, raw) => c in m.inFlight && newTokenId !in m.base.tokens && raw !in m.base.drawn
    case Other(op) => !op.RequestReset? && Enabled(m.base, op)
  }

  /** A save for a user who was deleted meanwhile is refused by the foreign key. */
  ghost function After(m: Machine, move: Move): Machine
    requires CanMove(m, move)
  {
    match move
    case Mark(c, t, email) =>
      if !Known(m.base.users, t, email) then m
      else
        var u := IdOf(m.base.users, t, email);
        Machine(m.base.(tokens := UseAll(m.base.tokens, u)), m.inFlight[c := Request(u, t)])
    case Save(c, newTokenId, raw) =>
      var Request(u, t) := m.inFlight[c];
      var base := m.base.(drawn := m.base.drawn + {raw});
      Machine(
        if u in base.users then
          base.(tokens := base.tokens[newTokenId := Token(u, t, Sha256(raw), base.now + TOKEN_TTL, false)])
        else base,
        m.inFlight - {c})
    case Other(op) => m.(base := Step(m.base, op).0)
  }

  /** The whole request is its two halves in a row. */
  lemma RequestIsMarkThenSave(m: Machine, c: CallId, t: Id, email: string, newTokenId: Id, raw: string)
    requires CanMove(m, Mark(c, t, email)) && Enabled(m.base, RequestReset(t, email, newTokenId, raw))
    ensures var m1 := After(m, Mark(c, t, email));
            if c in m1.inFlight then
              CanMove(m1, Save(c, newTokenId, raw)) &&
              After(m1, Save(c, newTokenId, raw)) == m.(base := Step(m.base, RequestReset(t, email, newTokenId, raw)).0)
            else Step(m.base, RequestReset(t, email, newTokenId, raw)) == (m.base, Ignored)
  {
  }

  function Unused(tokens: map<Id, Token>, u: Id): set<Id> {
    set k | k in tokens && tokens[k].userId == u && !tokens[k].used
  }

  function CallsOf(m: Machine, u: Id): set<CallId> {
    set c | c in m.inFlight && m.inFlight[c].userId == u
  }

  datatype Run = Run(machines: seq<Machine>, moves: seq<Move>)

  ghost predicate MoveAt(r: Run, i: int) {
    0 <= i < |r.moves| < |r.machines| ==>
      CanMove(r.machines[i], r.moves[i]) && r.machines[i + 1] == After(r.machines[i], r.moves[i])
  }

  ghost predicate ValidRun(r: Run) {
    && |r.machines| == |r.moves| + 1
    && r.machines[0].base.tokens == map[] && r.machines[0].inFlight == map[]
    && forall i :: MoveAt(r, i)
  }

  ghost predicate AtMostInFlight(r: Run, u: Id, p: nat) {
    forall i :: 0 <= i < |r.machines| ==> |CallsOf(r.machines[i], u)| <= p
  }

  function Load(m: Machine, u: Id): nat {
    |Unused(m.base.tokens, u)| + |CallsOf(m, u)|
  }

  /** Nothing but a save adds an unused token. */
  lemma OthersAddNoUnused(s: State, op: Op, u: Id)
    requires !op.RequestReset?
    ensures Unused(Step(s, op).0.tokens, u) <= Unused(s.tokens, u)
  {
  }

  lemma SaveKeepsLoad(m: Machine, move: Move, u: Id)
    requires CanMove(m, move) && move.Save?
    ensures Load(After(m, move), u) <= Load(m, u)
  {
    var m' := After(m, move);
    if m.inFlight[move.c].userId == u {
      assert CallsOf(m', u) == CallsOf(m, u) - {move.c};
      SubsetCard(Unused(m'.base.tokens, u), Unused(m.base.tokens, u) + {move.newTokenId});
    } else {
      assert CallsOf(m', u) == CallsOf(m, u);
      SubsetCard(Unused(m'.base.tokens, u), Unused(m.base.tokens, u));
    }
  }

  lemma MarkLoad(m: Machine, move: Move, u: Id)
    requires CanMove(m, move) && move.Mark?
    ensures Load(After(m, move), u) <= Load(m, u) || Load(After(m, move), u) == |CallsOf(After(m, move), u)|
  {
    var m' := After(m, move);
    if m' != m {
      var v := m'.inFlight[move.c].userId;
      if v == u {
        assert Unused(m'.base.tokens, u) == {};
      } else {
        assert CallsOf(m', u) == CallsOf(m, u);
        SubsetCard(Unused(m'.base.tokens, u), Unused(m.base.tokens, u));
      }
    }
  }

  lemma {:induction false} LoadBounded(r: Run, u: Id, p: nat, i: nat)
    requires ValidRun(r) && AtMostInFlight(r, u, p) && i < |r.machines|
    ensures Load(r.machines[i], u) <= p
  {
    if i == 0 {
      assert Unused(r.machines[0].base.tokens, u) == {} && CallsOf(r.machines[0], u) == {};
    } else {
      LoadBounded(r, u, p, i - 1);
      var m, move := r.machines[i - 1], r.moves[i - 1];
      assert MoveAt(r, i - 1);
      assert |CallsOf(r.machines[i], u)| <= p;
      match move
      case Mark(_, _, _) => MarkLoad(m, move, u);
      case Save(_, _, _) => SaveKeepsLoad(m, move, u);
      case Other(op) =>
        OthersAddNoUnused(m.base, op, u);
        SubsetCard(Unused(r.machines[i].base.tokens, u), Unused(m.base.tokens, u));
        assert CallsOf(r.machines[i], u) == CallsOf(m, u);
    }
  }

  /** A user never has more unused tokens than requests of theirs were in flight at once. */
  lemma UnusedUnderConcurrency(r: Run, u: Id, p: nat, i: nat)
    requires ValidRun(r) && AtMostInFlight(r, u, p) && i < |r.machines|
    ensures |Unused(r.machines[i].base.tokens, u)| <= p
  {
    LoadBounded(r, u, p, i);
  }
}
