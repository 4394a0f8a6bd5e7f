/** The cut user calls, run without interruption, are the atomic ones. */
module UserAlone {
  import opened Prelude
  import opened Identity
  import opened UserConcurrent

  /** Call `c` takes its next moves, at most `n`, with nothing in between. */
  ghost function Alone(m: Machine, c: CallId, n: nat): Machine
    requires c in m.calls
    decreases n
  {
    if n == 0 || !CanMove(m, Advance(c)) then m else Alone(After(m, Advance(c)), c, n - 1)
  }

  /** The machine after the atomic call, with its outcome. */
  ghost function Atomically(m: Machine, c: CallId, op: Op): Machine {
    var (base', outcome) := Step(m.base, op);
    Machine(base', m.calls[c := Ended(outcome)])
  }

  lemma FindAlone(m: Machine, c: CallId, t: Id, u: Id)
    requires c in m.calls && m.calls[c] == Reading(t, u)
    ensures Alone(m, c, 3) == Atomically(m, c, FindUser(t, u))
  {
    var m1 := After(m, Advance(c));
    assert Alone(m, c, 3) == Alone(m1, c, 2);
    if m1.calls[c].Missed? {
      var m2 := After(m1, Advance(c));
      assert Alone(m1, c, 2) == Alone(m2, c, 1);
      assert m2.calls == m.calls[c := m2.calls[c]];
      if m2.calls[c].Found? {
        var m3 := After(m2, Advance(c));
        assert Alone(m2, c, 1) == Alone(m3, c, 0) == m3;
        assert m3.calls == m.calls[c := m3.calls[c]];
      }
    }
  }

  lemma CreateAlone(m: Machine, c: CallId, op: Op)
    requires c in m.calls && op.CreateUser? && op.newId !in m.base.issued && m.calls[c] == CheckingTenant(op)
    ensures Alone(m, c, 4) == Atomically(m, c, op)
  {
    var m1 := After(m, Advance(c));
    assert Alone(m, c, 4) == Alone(m1, c, 3);
    if m1.calls[c].CheckingEmail? {
      var m2 := After(m1, Advance(c));
      assert Alone(m1, c, 3) == Alone(m2, c, 2);
      assert m2.calls == m.calls[c := m2.calls[c]];
      if m2.calls[c].Inserting? {
        var m3 := After(m2, Advance(c));
        assert Alone(m2, c, 2) == Alone(m3, c, 1);
        assert m3.calls == m.calls[c := m3.calls[c]] && m3.calls[c].Found?;
        var m4 := After(m3, Advance(c));
        assert Alone(m3, c, 1) == Alone(m4, c, 0) == m4;
        assert m4.calls == m.calls[c := m4.calls[c]];
      }
    }
  }

  /** No change touches what the constraints are about. */
  lemma ChangedSaves(b: Identity.State, u: Id, change: Change, now: int)
    requires UsersSound(b) && u in b.users
    ensures SaveAccepted(b, u, Changed(b.users[u], change, now))
    ensures SaveRow(b, u, Changed(b.users[u], change, now)) ==
            b.(users := Saved(b.users, u, Changed(b.users[u], change, now), b.now))
  {
    if Changed(b.users[u], change, now) == b.users[u] {
      assert b.users[u := b.users[u]] == b.users;
    }
  }

  lemma UpdateAlone(m: Machine, c: CallId, t: Id, u: Id, name: Option<string>, status: Option<Status>)
    requires UsersSound(m.base) && c in m.calls && m.calls[c] == Loading(t, ById(u), Patching(name, status))
    ensures Alone(m, c, 3) == Atomically(m, c, UpdateUser(t, u, name, status))
  {
    var m1 := After(m, Advance(c));
    assert Alone(m, c, 3) == Alone(m1, c, 2);
    if m1.calls[c].Saving? {
      var row := Changed(m.base.users[u], Patching(name, status), m.base.now);
      var b2 := m.base.(users := Saved(m.base.users, u, row, m.base.now));
      ChangedSaves(m.base, u, Patching(name, status), m.base.now);
      assert m1 == Machine(m.base, m.calls[c := Saving(u, row, Patching(name, status))]);
      var m2 := After(m1, Advance(c));
      assert m2 == Machine(b2, m.calls[c := Invalidating(u, false)]);
      var m3 := After(m2, Advance(c));
      assert m3.calls == m.calls[c := Ended(Done)];
      assert Alone(m1, c, 2) == Alone(m2, c, 1) == Alone(m3, c, 0) == m3;
    }
  }

  lemma RenameAlone(m: Machine, c: CallId, t: Id, u: Id, name: Option<string>)
    requires UsersSound(m.base) && c in m.calls && m.calls[c] == Loading(t, ById(u), Renaming(name))
    ensures Alone(m, c, 2) == Atomically(m, c, UpdateProfile(t, u, name))
  {
    var m1 := After(m, Advance(c));
    assert Alone(m, c, 2) == Alone(m1, c, 1);
    if m1.calls[c].Saving? {
      ChangedSaves(m.base, u, Renaming(name), m.base.now);
      var m2 := After(m1, Advance(c));
      assert Alone(m1, c, 1) == Alone(m2, c, 0) == m2;
      assert m2.calls == m.calls[c := Ended(Done)];
    }
  }

  /** A loaded row compared, changed and saved. */
  lemma CompareAlone(m: Machine, c: CallId, u: Id, change: Change)
    requires UsersSound(m.base) && u in m.base.users && (change.LoggingIn? || change.ChangingPassword?)
    requires c in m.calls && m.calls[c] == Comparing(u, m.base.users[u], change)
    ensures var row, changed := m.base.users[u], Changed(m.base.users[u], change, m.base.now);
            Alone(m, c, 2) ==
            if Refusal(row, change).Some? then m.(calls := m.calls[c := Ended(Refusal(row, change).value)])
            else Machine(m.base.(users := Saved(m.base.users, u, changed, m.base.now)),
                         m.calls[c := Ended(if change.LoggingIn? then LoggedIn(u) else Done)])
  {
    var m1 := After(m, Advance(c));
    assert Alone(m, c, 2) == Alone(m1, c, 1);
    if m1.calls[c].Saving? {
      ChangedSaves(m.base, u, change, m.base.now);
      var m2 := After(m1, Advance(c));
      assert Alone(m1, c, 1) == Alone(m2, c, 0) == m2;
      assert m2.calls == m.calls[c := m2.calls[c]];
    }
  }

  lemma SetTwice(calls: map<CallId, Call>, c: CallId, first: Call, second: Call)
    ensures calls[c := first][c := second] == calls[c := second]
  {
  }

  lemma LoginIs(b: Identity.State, t: Id, email: string, password: string)
    requires Known(b.users, t, email)
    ensures var u, change := IdOf(b.users, t, email), LoggingIn(password);
            var row := b.users[u];
            Step(b, Login(t, email, password)) ==
            if Refusal(row, change).Some? then (b, Refusal(row, change).value)
            else (b.(users := Saved(b.users, u, Changed(row, change, b.now), b.now)), LoggedIn(u))
  {
  }

  lemma LoginAlone(m: Machine, c: CallId, t: Id, email: string, password: string)
    requires UsersSound(m.base) && c in m.calls && m.calls[c] == Loading(t, ByEmail(email), LoggingIn(password))
    ensures Alone(m, c, 3) == Atomically(m, c, Login(t, email, password))
  {
    var m1 := After(m, Advance(c));
    assert Alone(m, c, 3) == Alone(m1, c, 2);
    if Known(m.base.users, t, email) {
      var u := IdOf(m.base.users, t, email);
      var loaded := Comparing(u, m.base.users[u], LoggingIn(password));
      assert m1 == m.(calls := m.calls[c := loaded]);
      LoginIs(m.base, t, email, password);
      CompareAlone(m1, c, u, LoggingIn(password));
      SetTwice(m.calls, c, loaded, Ended(Step(m.base, Login(t, email, password)).1));
    }
  }

  lemma ChangePasswordIs(b: Identity.State, t: Id, u: Id, current: string, next: string)
    requires Has(b.users, t, u)
    ensures var change, row := ChangingPassword(current, next), b.users[u];
            Step(b, ChangePassword(t, u, current, next)) ==
            if Refusal(row, change).Some? then (b, Refusal(row, change).value)
            else (b.(users := Saved(b.users, u, Changed(row, change, b.now), b.now)), Done)
  {
  }

  lemma ChangePasswordAlone(m: Machine, c: CallId, t: Id, u: Id, current: string, next: string)
    requires UsersSound(m.base) && c in m.calls && m.calls[c] == Loading(t, ById(u), ChangingPassword(current, next))
    ensures Alone(m, c, 3) == Atomically(m, c, ChangePassword(t, u, current, next))
  {
    var m1 := After(m, Advance(c));
    assert Alone(m, c, 3) == Alone(m1, c, 2);
    if Has(m.base.users, t, u) {
      var loaded := Comparing(u, m.base.users[u], ChangingPassword(current, next));
      assert m1 == m.(calls := m.calls[c := loaded]);
      ChangePasswordIs(m.base, t, u, current, next);
      CompareAlone(m1, c, u, ChangingPassword(current, next));
      SetTwice(m.calls, c, loaded, Ended(Step(m.base, ChangePassword(t, u, current, next)).1));
    }
  }

  lemma DeleteAlone(m: Machine, c: CallId, t: Id, u: Id)
    requires c in m.calls && m.calls[c] == LoadingToDelete(t, u)
    ensures Alone(m, c, 3) == Atomically(m, c, DeleteUser(t, u))
  {
    var m1 := After(m, Advance(c));
    assert Alone(m, c, 3) == Alone(m1, c, 2);
    if m1.calls[c].Invalidating? {
      var m2 := After(m1, Advance(c));
      var m3 := After(m2, Advance(c));
      assert Alone(m1, c, 2) == Alone(m2, c, 1) == Alone(m3, c, 0) == m3;
      assert m3.calls == m.calls[c := Ended(Done)];
    }
  }
}
