/** The bound on unused tokens under concurrency is reached, for every number of requests in
    flight. */
module ResetConcurrentTight {
  import opened Prelude
  import opened Identity
  import opened ResetConcurrent

  /** The only user of the tenant. */
  function Row(t: Id, email: string): User {
    User(t, email, "", Bcrypt(""), Active, None, 0, 0)
  }

  /** Tokens 0 to `saved - 1` are in the table, none of them used. */
  ghost predicate Table(s: State, u: Id, saved: nat) {
    && (forall k :: k in s.tokens ==> exists n: nat :: n < saved && k == Tag(n))
    && (forall raw :: raw in s.drawn ==> exists n: nat :: n < saved && raw == Tag(n))
    && |Unused(s.tokens, u)| == saved
  }

  /** The next `pending` requests are in flight. */
  ghost predicate Flight(m: Machine, t: Id, u: Id, saved: nat, pending: nat) {
    && (forall c :: c in m.inFlight <==> saved <= c < saved + pending)
    && (forall c :: c in m.inFlight ==> m.inFlight[c] == Request(u, t))
    && |CallsOf(m, u)| == pending
  }

  ghost predicate Stage(m: Machine, t: Id, u: Id, email: string, saved: nat, pending: nat) {
    && m.base.users == map[u := Row(t, email)]
    && Table(m.base, u, saved) && Flight(m, t, u, saved, pending)
  }

  /** With no token to mark, a request only goes in flight. */
  lemma MarkIs(m: Machine, t: Id, u: Id, email: string, c: CallId)
    requires m.base.users == map[u := Row(t, email)] && m.base.tokens == map[] && c !in m.inFlight
    ensures After(m, Mark(c, t, email)) == m.(inFlight := m.inFlight[c := Request(u, t)])
  {
    assert Known(m.base.users, t, email) by {
      assert m.base.users[u].email == email;
    }
    assert UseAll(m.base.tokens, u) == m.base.tokens;
  }

  lemma MarkOne(m: Machine, t: Id, u: Id, email: string, pending: nat)
    requires Stage(m, t, u, email, 0, pending)
    ensures CanMove(m, Mark(pending, t, email)) && Stage(After(m, Mark(pending, t, email)), t, u, email, 0, pending + 1)
  {
    MarkIs(m, t, u, email, pending);
    assert CallsOf(After(m, Mark(pending, t, email)), u) == CallsOf(m, u) + {pending};
  }

  lemma SaveTable(s: State, s': State, t: Id, u: Id, email: string, saved: nat)
    requires Table(s, u, saved) && s.users == map[u := Row(t, email)]
    requires s' == s.(drawn := s.drawn + {Tag(saved)},
                      tokens := s.tokens[Tag(saved) := Token(u, t, Sha256(Tag(saved)), s.now + TOKEN_TTL, false)])
    ensures Tag(saved) !in s.tokens && Tag(saved) !in s.drawn && Table(s', u, saved + 1)
  {
    assert forall n: nat :: n < saved ==> |Tag(n)| == n;
    assert |Tag(saved)| == saved;
    assert Unused(s'.tokens, u) == Unused(s.tokens, u) + {Tag(saved)};
    forall k | k in s'.tokens
      ensures exists n: nat :: n < saved + 1 && k == Tag(n)
    {
      if k != Tag(saved) {
        var n: nat :| n < saved && k == Tag(n);
        assert n < saved + 1;
      }
    }
    forall raw | raw in s'.drawn
      ensures exists n: nat :: n < saved + 1 && raw == Tag(n)
    {
      if raw != Tag(saved) {
        var n: nat :| n < saved && raw == Tag(n);
        assert n < saved + 1;
      }
    }
  }

  lemma SaveOne(m: Machine, t: Id, u: Id, email: string, saved: nat, pending: nat)
    requires Stage(m, t, u, email, saved, pending) && pending > 0
    ensures var move := Save(saved, Tag(saved), Tag(saved));
            CanMove(m, move) && Stage(After(m, move), t, u, email, saved + 1, pending - 1)
  {
    var s' := m.base.(
      drawn := m.base.drawn + {Tag(saved)},
      tokens := m.base.tokens[Tag(saved) := Token(u, t, Sha256(Tag(saved)), m.base.now + TOKEN_TTL, false)]);
    SaveTable(m.base, s', t, u, email, saved);
    var m' := After(m, Save(saved, Tag(saved), Tag(saved)));
    assert m'.base == s';
    assert CallsOf(m', u) == CallsOf(m, u) - {saved};
  }

  /** A run so far, and where it stands. */
  ghost predicate Reached(r: Run, t: Id, u: Id, email: string, p: nat, saved: nat, pending: nat) {
    ValidRun(r) && AtMostInFlight(r, u, p) && Stage(r.machines[|r.moves|], t, u, email, saved, pending)
  }

  function Extend(r: Run, move: Move, m: Machine): Run {
    Run(r.machines + [m], r.moves + [move])
  }

  lemma ExtendReached(r: Run, t: Id, u: Id, email: string, p: nat, saved: nat, pending: nat,
                      move: Move, saved': nat, pending': nat)
    requires Reached(r, t, u, email, p, saved, pending) && CanMove(r.machines[|r.moves|], move) && pending' <= p
    requires Stage(After(r.machines[|r.moves|], move), t, u, email, saved', pending')
    ensures Reached(Extend(r, move, After(r.machines[|r.moves|], move)), t, u, email, p, saved', pending')
  {
    var r' := Extend(r, move, After(r.machines[|r.moves|], move));
    forall i
      ensures MoveAt(r', i)
    {
      assert MoveAt(r, i);
    }
    assert |CallsOf(After(r.machines[|r.moves|], move), u)| == pending';
  }

  lemma {:induction false} MarkMany(t: Id, u: Id, email: string, p: nat, pending: nat) returns (r: Run)
    requires pending <= p
    ensures Reached(r, t, u, email, p, 0, pending)
  {
    if pending == 0 {
      var start := Machine(State({t}, map[u := Row(t, email)], map[], map[], {t, u}, {}, 0, 0), map[]);
      r := Run([start], []);
      assert Unused(start.base.tokens, u) == {} && CallsOf(start, u) == {};
    } else {
      var r1 := MarkMany(t, u, email, p, pending - 1);
      var move := Mark(pending - 1, t, email);
      MarkOne(r1.machines[|r1.moves|], t, u, email, pending - 1);
      ExtendReached(r1, t, u, email, p, 0, pending - 1, move, 0, pending);
      r := Extend(r1, move, After(r1.machines[|r1.moves|], move));
    }
  }

  lemma {:induction false} SaveMany(t: Id, u: Id, email: string, p: nat, saved: nat) returns (r: Run)
    requires saved <= p
    ensures Reached(r, t, u, email, p, saved, p - saved)
  {
    if saved == 0 {
      r := MarkMany(t, u, email, p, p);
    } else {
      var r1 := SaveMany(t, u, email, p, saved - 1);
      var move := Save(saved - 1, Tag(saved - 1), Tag(saved - 1));
      SaveOne(r1.machines[|r1.moves|], t, u, email, saved - 1, p - saved + 1);
      ExtendReached(r1, t, u, email, p, saved - 1, p - saved + 1, move, saved, p - saved);
      r := Extend(r1, move, After(r1.machines[|r1.moves|], move));
    }
  }

  /** For every `p` some run with at most `p` requests of a user in flight ends with exactly
      `p` unused tokens of that user. */
  lemma BoundReached(t: Id, u: Id, email: string, p: nat) returns (r: Run)
    ensures ValidRun(r) && AtMostInFlight(r, u, p)
    ensures |Unused(r.machines[|r.moves|].base.tokens, u)| == p
  {
    r := SaveMany(t, u, email, p, p);
  }
}
