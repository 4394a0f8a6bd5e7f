/** Who can log in with what, told from the history of calls alone. */
module PasswordHistory {
  import opened Prelude
  import opened Identity
  import opened IdentityEffects

  predicate CreatesFor(e: Event, tenantId: Id, email: string) {
    Creates(e) && e.op.tenantId == tenantId && e.op.email == email
  }

  /** The latest creation of a user with this tenant and email among the first `n` events, or -1. */
  function Birth(h: seq<Event>, n: nat, tenantId: Id, email: string): (b: int)
    requires n <= |h|
    ensures -1 <= b < n && (b >= 0 ==> CreatesFor(h[b], tenantId, email))
    ensures forall m :: b < m < n ==> !CreatesFor(h[m], tenantId, email)
  {
    if n == 0 then -1 else if CreatesFor(h[n - 1], tenantId, email) then n - 1 else Birth(h, n - 1, tenantId, email)
  }

  predicate IsBirth(h: seq<Event>, b: int) {
    0 <= b < |h| && Creates(h[b])
  }

  predicate GoneSince(h: seq<Event>, n: nat, b: int)
    requires n <= |h| && IsBirth(h, b)
  {
    exists m :: b < m < n && RemovesUser(h[m], h[b].outcome.id, h[b].op.tenantId)
  }

  /** The last password accepted for the user. */
  function LastPassword(h: seq<Event>, n: nat, b: int): string
    requires b < n <= |h| && IsBirth(h, b)
  {
    if n == b + 1 then h[b].op.password
    else if SetsPassword(h[n - 1], h[b].outcome.id) then PasswordSet(h[n - 1])
    else LastPassword(h, n - 1, b)
  }

  function LastStatus(h: seq<Event>, n: nat, b: int): Status
    requires b < n <= |h| && IsBirth(h, b)
  {
    if n == b + 1 then InitialStatus(h[b].op)
    else if SetsStatus(h[n - 1], h[b].outcome.id) then h[n - 1].op.newStatus.value
    else LastStatus(h, n - 1, b)
  }

  /** There is such a user and the password is the last one accepted for that user. */
  predicate IsLastPassword(h: seq<Event>, n: nat, tenantId: Id, email: string, password: string)
    requires n <= |h|
  {
    var b := Birth(h, n, tenantId, email);
    b >= 0 && !GoneSince(h, n, b) && LastPassword(h, n, b) == password
  }

  /** Besides, the status in force allows logging in. */
  predicate ShouldLogIn(h: seq<Event>, n: nat, tenantId: Id, email: string, password: string)
    requires n <= |h|
  {
    IsLastPassword(h, n, tenantId, email, password) &&
    LastStatus(h, n, Birth(h, n, tenantId, email)) in {Active, Pending}
  }

  // ----- The user table agrees with the history -----

  ghost predicate RowTold(h: seq<Event>, n: nat, id: Id, row: User)
    requires n <= |h|
  {
    var b := Birth(h, n, row.tenantId, row.email);
    && b >= 0 && h[b].outcome.id == id && !GoneSince(h, n, b)
    && row.passwordHash == Bcrypt(LastPassword(h, n, b))
    && row.status == LastStatus(h, n, b)
  }

  ghost predicate AddressTold(h: seq<Event>, n: nat, t: Id, email: string, s: State)
    requires n <= |h|
  {
    var b := Birth(h, n, t, email);
    b >= 0 && !GoneSince(h, n, b) ==>
      h[b].outcome.id in s.users && s.users[h[b].outcome.id].tenantId == t && s.users[h[b].outcome.id].email == email
  }

  ghost predicate Told(h: seq<Event>, n: nat, s: State)
    requires n <= |h|
  {
    && (forall id :: id in s.users ==> RowTold(h, n, id, s.users[id]))
    && (forall t, email :: AddressTold(h, n, t, email, s))
  }

  lemma GoneOneMore(h: seq<Event>, n: nat, b: int)
    requires b < n < |h| && IsBirth(h, b)
    ensures GoneSince(h, n + 1, b) <==> GoneSince(h, n, b) || RemovesUser(h[n], h[b].outcome.id, h[b].op.tenantId)
  {
  }

  lemma OldRowTold(h: seq<Event>, n: nat, id: Id, row: User, row': User)
    requires n < |h| && RowTold(h, n, id, row) && Effect(h[n], id, row, row')
    requires !CreatesFor(h[n], row.tenantId, row.email) && !RemovesUser(h[n], id, row.tenantId)
    ensures RowTold(h, n + 1, id, row')
  {
  }

  lemma NewRowTold(h: seq<Event>, n: nat, id: Id, row: User)
    requires n < |h| && Creates(h[n]) && h[n].outcome == Created(id)
    requires row == NewUser(h[n].op, InitialStatus(h[n].op), h[n].time)
    ensures RowTold(h, n + 1, id, row)
  {
  }

  lemma AddressStillTold(h: seq<Event>, n: nat, s: State, s': State, t: Id, email: string)
    requires n < |h| && Follows(s, h[n], s') && UsersSound(s) && Told(h, n, s)
    ensures AddressTold(h, n + 1, t, email, s')
  {
    if CreatesFor(h[n], t, email) {
      CreatedRow(s, h[n], s');
    } else {
      var b := Birth(h, n, t, email);
      if b >= 0 && !GoneSince(h, n + 1, b) {
        GoneOneMore(h, n, b);
        assert AddressTold(h, n, t, email, s);
        StepEffect(s, h[n], s', h[b].outcome.id);
      }
    }
  }

  lemma ToldStep(h: seq<Event>, n: nat, s: State, s': State)
    requires n < |h| && Follows(s, h[n], s') && UsersSound(s) && Told(h, n, s)
    ensures Told(h, n + 1, s')
  {
    var next := n + 1;
    forall id | id in s'.users
      ensures RowTold(h, next, id, s'.users[id])
    {
      if id in s.users {
        StepEffect(s, h[n], s', id);
        OldRowTold(h, n, id, s.users[id], s'.users[id]);
      } else {
        NewRow(s, h[n], s', id);
        NewRowTold(h, n, id, s'.users[id]);
      }
    }
    forall t, email
      ensures AddressTold(h, next, t, email, s')
    {
      AddressStillTold(h, n, s, s', t, email);
    }
  }

  lemma {:induction false} AlwaysTold(tr: Trace, n: nat)
    requires Valid(tr) && n <= |tr.events|
    ensures Told(tr.events, n, tr.states[n])
  {
    if n > 0 {
      AlwaysTold(tr, n - 1);
      AlwaysSound(tr, n - 1);
      assert StepAt(tr, n - 1);
      ToldStep(tr.events, n - 1, tr.states[n - 1], tr.states[n]);
    }
  }

  /** Last password wins: at every point of every run, a login passes exactly when the
      history says so, and then as the user the history names. */
  lemma LoginIffLastPassword(tr: Trace, n: nat, t: Id, email: string, password: string)
    requires Valid(tr) && n <= |tr.events|
    ensures var outcome := DoLogin(tr.states[n], t, email, password).1;
            && (outcome.LoggedIn? <==> ShouldLogIn(tr.events, n, t, email, password))
            && (outcome.Refused? <==> !IsLastPassword(tr.events, n, t, email, password))
            && (outcome.LoggedIn? || outcome.Refused? || outcome.UserInactive?)
            && (outcome.LoggedIn? ==> outcome.id == tr.events[Birth(tr.events, n, t, email)].outcome.id)
  {
    AlwaysTold(tr, n);
    AlwaysSound(tr, n);
    var s, h := tr.states[n], tr.events;
    if Known(s.users, t, email) {
      var u := IdOf(s.users, t, email);
      assert RowTold(h, n, u, s.users[u]);
    } else {
      assert AddressTold(h, n, t, email, s);
    }
  }

  /** An event that neither creates, removes, re-passwords nor re-ranks user `v` leaves the
      outcome of every login of `v` as it was. */
  lemma OthersUnaffected(s: State, e: Event, s': State, v: Id, password: string)
    requires Follows(s, e, s') && UsersSound(s) && v in s.users
    requires !RemovesUser(e, v, s.users[v].tenantId) && !SetsPassword(e, v) && !SetsStatus(e, v)
    ensures var t, email := s.users[v].tenantId, s.users[v].email;
            DoLogin(s', t, email, password).1 == DoLogin(s, t, email, password).1
  {
    StepEffect(s, e, s', v);
    StepUsersSound(s, e.op);
    var t, email := s.users[v].tenantId, s.users[v].email;
    assert IdOf(s.users, t, email) == v && IdOf(s'.users, t, email) == v;
  }

  /** (tenantId, email) names at most one user, after every run. */
  lemma EmailsStayUnique(tr: Trace, n: nat)
    requires Valid(tr) && n < |tr.states|
    ensures UniqueEmails(tr.states[n].users)
  {
    AlwaysSound(tr, n);
  }
}
