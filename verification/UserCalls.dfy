/** How each call on users ends, told from the calls before it alone, and what it writes. */
module UserCalls {
  import opened Prelude
  import opened Identity
  import opened IdentityEffects
  import P = PasswordHistory

  // ----- Which users there are, from the calls -----

  predicate Makes(e: Event, t: Id, u: Id) {
    Creates(e) && e.op.tenantId == t && e.outcome.id == u
  }

  /** The latest creation of user `u` of the tenant among the first `n` events, or -1. */
  function Made(h: seq<Event>, n: nat, t: Id, u: Id): (b: int)
    requires n <= |h|
    ensures -1 <= b < n && (b >= 0 ==> Makes(h[b], t, u))
    ensures forall m :: b < m < n ==> !Makes(h[m], t, u)
  {
    if n == 0 then -1 else if Makes(h[n - 1], t, u) then n - 1 else Made(h, n - 1, t, u)
  }

  /** A delete of the user or of its tenant was asked for after event `b`. */
  predicate DroppedSince(h: seq<Event>, n: nat, b: int, t: Id, u: Id)
    requires -1 <= b && n <= |h|
  {
    exists m :: b < m < n && (h[m].op == DeleteUser(t, u) || h[m].op == DropTenant(t))
  }

  /** The user was created in the tenant and neither has gone since. */
  predicate There(h: seq<Event>, n: nat, t: Id, u: Id)
    requires n <= |h|
  {
    Made(h, n, t, u) >= 0 && !DroppedSince(h, n, Made(h, n, t, u), t, u)
  }

  /** `u` is there under this address. */
  predicate LivesAt(h: seq<Event>, n: nat, t: Id, email: string, u: Id)
    requires n <= |h|
  {
    There(h, n, t, u) && h[Made(h, n, t, u)].op.email == email
  }

  function TenantThere(h: seq<Event>, n: nat, t: Id): bool
    requires n <= |h|
  {
    if n == 0 then false
    else if h[n - 1].op == NewTenant(t) then true
    else if h[n - 1].op == DropTenant(t) then false
    else TenantThere(h, n - 1, t)
  }

  // ----- The table agrees -----

  ghost predicate RowSays(h: seq<Event>, n: nat, u: Id, row: User)
    requires n <= |h|
  {
    var b := Made(h, n, row.tenantId, u);
    && b >= 0 && b == P.Birth(h, n, row.tenantId, row.email)
    && !DroppedSince(h, n, b, row.tenantId, u)
  }

  ghost predicate HasIfThere(h: seq<Event>, n: nat, t: Id, u: Id, s: State)
    requires n <= |h|
  {
    There(h, n, t, u) ==> Has(s.users, t, u)
  }

  ghost predicate TenantTold(h: seq<Event>, n: nat, t: Id, s: State)
    requires n <= |h|
  {
    TenantThere(h, n, t) <==> t in s.tenants
  }

  ghost predicate Says(h: seq<Event>, n: nat, s: State)
    requires n <= |h|
  {
    && (forall u :: u in s.users ==> RowSays(h, n, u, s.users[u]))
    && (forall t, u :: HasIfThere(h, n, t, u, s))
    && (forall t :: TenantTold(h, n, t, s))
  }

  /** A delete that is asked for takes the row; nothing else does. */
  lemma RowGoes(s: State, e: Event, s': State, u: Id)
    requires Follows(s, e, s') && UsersSound(s) && u in s.users
    ensures u in s'.users <==> e.op != DeleteUser(s.users[u].tenantId, u) && e.op != DropTenant(s.users[u].tenantId)
    ensures u in s'.users ==> s'.users[u].tenantId == s.users[u].tenantId && s'.users[u].email == s.users[u].email
    ensures !Makes(e, s.users[u].tenantId, u) && !P.CreatesFor(e, s.users[u].tenantId, s.users[u].email)
  {
    StepEffect(s, e, s', u);
  }

  lemma OldRowSays(h: seq<Event>, n: nat, u: Id, row: User, row': User)
    requires n < |h| && RowSays(h, n, u, row)
    requires row'.tenantId == row.tenantId && row'.email == row.email
    requires !P.CreatesFor(h[n], row.tenantId, row.email) && !Makes(h[n], row.tenantId, u)
    requires h[n].op != DeleteUser(row.tenantId, u) && h[n].op != DropTenant(row.tenantId)
    ensures RowSays(h, n + 1, u, row')
  {
  }

  lemma NewRowSays(h: seq<Event>, n: nat, u: Id, row: User)
    requires n < |h| && Creates(h[n]) && h[n].outcome == Created(u)
    requires row.tenantId == h[n].op.tenantId && row.email == h[n].op.email
    ensures RowSays(h, n + 1, u, row)
  {
  }

  lemma StillHas(h: seq<Event>, n: nat, s: State, s': State, t: Id, u: Id)
    requires n < |h| && Follows(s, h[n], s') && UsersSound(s) && HasIfThere(h, n, t, u, s)
    ensures HasIfThere(h, n + 1, t, u, s')
  {
    if There(h, n + 1, t, u) {
      if Makes(h[n], t, u) {
        CreatedRow(s, h[n], s');
      } else {
        assert Made(h, n, t, u) == Made(h, n + 1, t, u);
        assert There(h, n, t, u);
        RowGoes(s, h[n], s', u);
      }
    }
  }

  lemma StillTold(h: seq<Event>, n: nat, s: State, s': State, t: Id)
    requires n < |h| && Follows(s, h[n], s') && TenantTold(h, n, t, s)
    ensures TenantTold(h, n + 1, t, s')
  {
  }

  lemma SaysStep(h: seq<Event>, n: nat, s: State, s': State)
    requires n < |h| && Follows(s, h[n], s') && UsersSound(s) && Says(h, n, s)
    ensures Says(h, n + 1, s')
  {
    var next := n + 1;
    forall u | u in s'.users
      ensures RowSays(h, next, u, s'.users[u])
    {
      if u in s.users {
        RowGoes(s, h[n], s', u);
        OldRowSays(h, n, u, s.users[u], s'.users[u]);
      } else {
        NewRow(s, h[n], s', u);
        NewRowSays(h, n, u, s'.users[u]);
      }
    }
    forall t, u
      ensures HasIfThere(h, next, t, u, s')
    {
      assert HasIfThere(h, n, t, u, s);
      StillHas(h, n, s, s', t, u);
    }
    forall t
      ensures TenantTold(h, next, t, s')
    {
      assert TenantTold(h, n, t, s);
      StillTold(h, n, s, s', t);
    }
  }

  lemma {:induction false} AlwaysSays(tr: Trace, n: nat)
    requires Valid(tr) && n <= |tr.events|
    ensures Says(tr.events, n, tr.states[n])
  {
    if n > 0 {
      AlwaysSays(tr, n - 1);
      AlwaysSound(tr, n - 1);
      assert StepAt(tr, n - 1);
      SaysStep(tr.events, n - 1, tr.states[n - 1], tr.states[n]);
    }
  }

  lemma ThereIffHas(tr: Trace, n: nat, t: Id, u: Id)
    requires Valid(tr) && n <= |tr.events|
    ensures There(tr.events, n, t, u) <==> Has(tr.states[n].users, t, u)
  {
    AlwaysSays(tr, n);
    assert HasIfThere(tr.events, n, t, u, tr.states[n]);
    if u in tr.states[n].users {
      assert RowSays(tr.events, n, u, tr.states[n].users[u]);
    }
  }

  lemma LivesAtIff(tr: Trace, n: nat, t: Id, email: string, u: Id)
    requires Valid(tr) && n <= |tr.events|
    ensures LivesAt(tr.events, n, t, email, u) <==>
            Has(tr.states[n].users, t, u) && tr.states[n].users[u].email == email
  {
    AlwaysSays(tr, n);
    ThereIffHas(tr, n, t, u);
    if Has(tr.states[n].users, t, u) {
      assert RowSays(tr.events, n, u, tr.states[n].users[u]);
    }
  }

  lemma KnownIff(tr: Trace, n: nat, t: Id, email: string)
    requires Valid(tr) && n <= |tr.events|
    ensures (exists u :: LivesAt(tr.events, n, t, email, u)) <==> Known(tr.states[n].users, t, email)
    ensures Known(tr.states[n].users, t, email) ==> LivesAt(tr.events, n, t, email, IdOf(tr.states[n].users, t, email))
  {
    var users := tr.states[n].users;
    if Known(users, t, email) {
      LivesAtIff(tr, n, t, email, IdOf(users, t, email));
    }
    if u :| LivesAt(tr.events, n, t, email, u) {
      LivesAtIff(tr, n, t, email, u);
      assert u in users;
    }
  }

  /** The hash in a row is of the password accepted last. */
  lemma PasswordTold(tr: Trace, n: nat, t: Id, u: Id)
    requires Valid(tr) && n <= |tr.events| && There(tr.events, n, t, u)
    ensures Has(tr.states[n].users, t, u)
    ensures tr.states[n].users[u].passwordHash == Bcrypt(P.LastPassword(tr.events, n, Made(tr.events, n, t, u)))
  {
    ThereIffHas(tr, n, t, u);
    AlwaysSays(tr, n);
    P.AlwaysTold(tr, n);
    assert RowSays(tr.events, n, u, tr.states[n].users[u]) && P.RowTold(tr.events, n, u, tr.states[n].users[u]);
  }

  // ----- How a call ends, at every point of every run -----

  /** A password change goes through if the user is there and the current password given is the
      one accepted last for it. */
  lemma ChangePasswordEnds(tr: Trace, n: nat, t: Id, u: Id, current: string, next: string)
    requires Valid(tr) && n <= |tr.events|
    ensures var h := tr.events;
            Step(tr.states[n], ChangePassword(t, u, current, next)).1 ==
            if !There(h, n, t, u) then NotFound
            else if P.LastPassword(h, n, Made(h, n, t, u)) != current then Refused
            else Done
  {
    ThereIffHas(tr, n, t, u);
    if There(tr.events, n, t, u) {
      PasswordTold(tr, n, t, u);
    }
  }

  /** After a change exactly the new password is taken at the login; one that is refused
      changes nothing, and the password it gave is refused at the login as well. */
  lemma ChangePasswordTakes(s: State, t: Id, u: Id, current: string, next: string, tried: string)
    requires UsersSound(s) && Has(s.users, t, u)
    ensures var (s', outcome) := Step(s, ChangePassword(t, u, current, next));
            var email := s.users[u].email;
            && (outcome.Done? ==>
                  (Step(s', Login(t, email, tried)).1.Refused? <==> tried != next))
            && (!outcome.Done? ==>
                  s' == s && (Step(s, Login(t, email, current)).1.Refused?))
  {
    var s' := Step(s, ChangePassword(t, u, current, next)).0;
    assert IdOf(s.users, t, s.users[u].email) == u;
    if s' != s {
      assert Known(s'.users, t, s.users[u].email) && IdOf(s'.users, t, s.users[u].email) == u;
    }
  }

  /** A new user, admitted or registered, needs the tenant and an address that no user there has. */
  lemma CreateEnds(tr: Trace, n: nat, op: Op)
    requires Valid(tr) && n <= |tr.events| && (op.CreateUser? || op.Register?)
    ensures var h, t := tr.events, op.tenantId;
            Step(tr.states[n], op).1 ==
            if !TenantThere(h, n, t) then TenantMissing
            else if exists u :: LivesAt(h, n, t, op.email, u) then EmailTaken
            else Created(op.newId)
  {
    AlwaysSays(tr, n);
    assert TenantTold(tr.events, n, op.tenantId, tr.states[n]);
    KnownIff(tr, n, op.tenantId, op.email);
  }

  /** Updates, renames and deletes need the user and nothing else. */
  lemma DoneIffThere(tr: Trace, n: nat, op: Op)
    requires Valid(tr) && n <= |tr.events| && (op.UpdateUser? || op.UpdateProfile? || op.DeleteUser?)
    ensures Step(tr.states[n], op).1 == if There(tr.events, n, op.tenantId, op.userId) then Done else NotFound
  {
    ThereIffHas(tr, n, op.tenantId, op.userId);
  }

  /** A token is sent to the user there under the address, and to no one if there is none. */
  lemma RequestEnds(tr: Trace, n: nat, t: Id, email: string, newTokenId: Id, raw: string)
    requires Valid(tr) && n <= |tr.events|
    ensures var outcome := Step(tr.states[n], RequestReset(t, email, newTokenId, raw)).1;
            if exists u :: LivesAt(tr.events, n, t, email, u)
            then outcome.TokenSent? && LivesAt(tr.events, n, t, email, outcome.id)
            else outcome.Ignored?
  {
    KnownIff(tr, n, t, email);
  }

  /** No two users there have one address. */
  lemma OneAtAddress(tr: Trace, n: nat, t: Id, email: string, u: Id, v: Id)
    requires Valid(tr) && n <= |tr.events|
    requires LivesAt(tr.events, n, t, email, u) && LivesAt(tr.events, n, t, email, v)
    ensures u == v
  {
    LivesAtIff(tr, n, t, email, u);
    LivesAtIff(tr, n, t, email, v);
    AlwaysSound(tr, n);
  }

  // ----- What a call writes -----

  /** The response shows the row field by field. */
  predicate ShowsRow(dto: UserDto, u: Id, row: User) {
    dto.id == u && dto.email == row.email && dto.name == row.name && dto.tenantId == row.tenantId &&
    dto.status == row.status && dto.lastLoginAt == row.lastLoginAt && dto.createdAt == row.createdAt &&
    dto.updatedAt == row.updatedAt
  }

  ghost predicate OnlyUser(s: State, s': State, u: Id) {
    s'.tenants == s.tenants && s'.users.Keys + {u} == s.users.Keys + {u} &&
    forall v :: v in s.users && v != u ==> s'.users[v] == s.users[v]
  }

  ghost predicate TokensKept(s: State, s': State) {
    s'.tokens == s.tokens && s'.drawn == s.drawn && s'.now == s.now && s'.ttl == s.ttl
  }

  /** A user admitted is active and cached, one who registers is pending and not cached. */
  lemma CreateWrites(s: State, op: Op)
    requires op.CreateUser? || op.Register?
    ensures var (s', outcome) := Step(s, op);
            && (!outcome.Created? ==> s' == s)
            && (outcome.Created? ==>
                  && outcome.id == op.newId && op.newId in s'.users && OnlyUser(s, s', op.newId) && TokensKept(s, s')
                  && s'.issued == s.issued + {op.newId}
                  && var row := s'.users[op.newId];
                     && row.tenantId == op.tenantId && row.email == op.email && row.name == op.name
                     && row.passwordHash == Bcrypt(op.password) && row.lastLoginAt == None
                     && row.createdAt == s.now && row.updatedAt == s.now
                     && (op.CreateUser? ==>
                           && row.status.Active? && op.newId in s'.cache
                           && s'.cache[op.newId].expiresAt == s.now + s.ttl
                           && ShowsRow(s'.cache[op.newId].value, op.newId, row)
                           && s'.cache - {op.newId} == s.cache - {op.newId})
                     && (op.Register? ==> row.status.Pending? && s'.cache == s.cache))
  {
  }

  /** Name and status are what was given, or what they were; the row is stamped if that
      changed it; the cached profile goes. */
  lemma UpdateWrites(s: State, op: Op)
    requires op.UpdateUser?
    ensures var (s', outcome) := Step(s, op);
            && (!outcome.Done? ==> s' == s)
            && (outcome.Done? ==>
                  && op.userId in s.users && op.userId in s'.users && OnlyUser(s, s', op.userId) && TokensKept(s, s')
                  && s'.issued == s.issued && s'.cache == s.cache - {op.userId}
                  && var row, row' := s.users[op.userId], s'.users[op.userId];
                     && row'.name == (if op.newName.Some? then op.newName.value else row.name)
                     && row'.status == (if op.newStatus.Some? then op.newStatus.value else row.status)
                     && row'.updatedAt == (if row'.name == row.name && row'.status == row.status then row.updatedAt
                                           else s.now)
                     && row' == row.(name := row'.name, status := row'.status, updatedAt := row'.updatedAt))
  {
  }

  /** A user renaming itself changes the name alone and leaves the cached profile. */
  lemma ProfileWrites(s: State, op: Op)
    requires op.UpdateProfile?
    ensures var (s', outcome) := Step(s, op);
            && (!outcome.Done? ==> s' == s)
            && (outcome.Done? ==>
                  && op.userId in s.users && op.userId in s'.users && OnlyUser(s, s', op.userId) && TokensKept(s, s')
                  && s'.issued == s.issued && s'.cache == s.cache
                  && var row, row' := s.users[op.userId], s'.users[op.userId];
                     && row'.name == (if op.newName.Some? then op.newName.value else row.name)
                     && row'.updatedAt == (if row'.name == row.name then row.updatedAt else s.now)
                     && row' == row.(name := row'.name, updatedAt := row'.updatedAt))
  {
  }

  /** The user, its cached profile and its tokens go, and nothing else. */
  lemma DeleteWrites(s: State, t: Id, u: Id)
    ensures var (s', outcome) := Step(s, DeleteUser(t, u));
            && (!outcome.Done? ==> s' == s)
            && (outcome.Done? ==>
                  && u !in s'.users && OnlyUser(s, s', u) && s'.cache == s.cache - {u}
                  && s'.issued == s.issued && s'.drawn == s.drawn && s'.now == s.now
                  && (forall k :: k in s'.tokens <==> k in s.tokens && s.tokens[k].userId != u)
                  && (forall k :: k in s'.tokens ==> s'.tokens[k] == s.tokens[k]))
  {
  }

  /** A login notes its time, a password change the new hash; both leave the cached profile. */
  lemma LoginWrites(s: State, t: Id, email: string, password: string)
    ensures var (s', outcome) := Step(s, Login(t, email, password));
            && (!outcome.LoggedIn? ==> s' == s)
            && (outcome.LoggedIn? ==>
                  var u := outcome.id;
                  && u in s.users && u in s'.users && OnlyUser(s, s', u) && TokensKept(s, s')
                  && s.users[u].tenantId == t && s.users[u].email == email
                  && s'.issued == s.issued && s'.cache == s.cache
                  && var row, row' := s.users[u], s'.users[u];
                     && row'.lastLoginAt == Some(s.now)
                     && row'.updatedAt == (if row.lastLoginAt == Some(s.now) then row.updatedAt else s.now)
                     && row' == row.(lastLoginAt := row'.lastLoginAt, updatedAt := row'.updatedAt))
  {
  }

  lemma ChangePasswordWrites(s: State, t: Id, u: Id, current: string, next: string)
    ensures var (s', outcome) := Step(s, ChangePassword(t, u, current, next));
            && (!outcome.Done? ==> s' == s)
            && (outcome.Done? ==>
                  && u in s.users && u in s'.users && OnlyUser(s, s', u) && TokensKept(s, s')
                  && s'.issued == s.issued && s'.cache == s.cache
                  && var row, row' := s.users[u], s'.users[u];
                     && row'.passwordHash == Bcrypt(next)
                     && row'.updatedAt == (if row.passwordHash == Bcrypt(next) then row.updatedAt else s.now)
                     && row' == row.(passwordHash := row'.passwordHash, updatedAt := row'.updatedAt))
  {
  }

  /** All tokens the user had are used; the new one is for one hour. */
  lemma RequestWrites(s: State, t: Id, email: string, newTokenId: Id, raw: string)
    requires newTokenId !in s.tokens
    ensures var (s', outcome) := Step(s, RequestReset(t, email, newTokenId, raw));
            && (!outcome.TokenSent? ==> s' == s)
            && (outcome.TokenSent? ==>
                  && s' == s.(tokens := s'.tokens, drawn := s.drawn + {raw})
                  && s'.tokens.Keys == s.tokens.Keys + {newTokenId}
                  && var sent := s'.tokens[newTokenId];
                     && sent.userId == outcome.id && sent.tenantId == t && sent.token == Sha256(raw) && !sent.used
                     && sent.expiresAt == s.now + 60 * 60 * 1000
                     && forall k :: k in s.tokens ==>
                          s'.tokens[k] == s.tokens[k].(used := s.tokens[k].used || s.tokens[k].userId == outcome.id))
  {
  }

  /** A token is good if it is of this tenant, not used and not yet expired; using it sets the
      password of its user, marks it used and changes nothing else. */
  lemma ResetWrites(s: State, t: Id, k: Id, raw: string, next: string)
    requires TokensSound(s) && k in s.tokens && s.tokens[k].token == Sha256(raw)
    ensures var (s', outcome) := Step(s, ResetPassword(t, raw, next));
            var token := s.tokens[k];
            if token.tenantId == t && !token.used && token.expiresAt > s.now then
              && token.userId in s.users && token.userId in s'.users && outcome == ResetDone(token.userId)
              && OnlyUser(s, s', token.userId)
              && s' == s.(users := s'.users, tokens := s.tokens[k := token.(used := true)])
              && var row, row' := s.users[token.userId], s'.users[token.userId];
                 && row'.passwordHash == Bcrypt(next)
                 && row'.updatedAt == (if row.passwordHash == Bcrypt(next) then row.updatedAt else s.now)
                 && row' == row.(passwordHash := row'.passwordHash, updatedAt := row'.updatedAt)
            else s' == s && outcome.Refused?
  {
  }

  lemma UnknownTokenRefused(s: State, t: Id, raw: string, next: string)
    requires forall k :: k in s.tokens ==> s.tokens[k].token != Sha256(raw)
    ensures Step(s, ResetPassword(t, raw, next)) == (s, Refused)
  {
  }

  /** A dropped tenant takes its users and their tokens along; their cached profiles stay. */
  lemma TenantUsersGo(s: State, t: Id, u: Id, k: Id)
    ensures var s' := Step(s, DropTenant(t)).0;
            && s' == s.(tenants := s.tenants - {t}, users := s'.users, tokens := s'.tokens)
            && (u in s'.users <==> u in s.users && s.users[u].tenantId != t)
            && (u in s'.users ==> s'.users[u] == s.users[u])
            && (k in s'.tokens <==>
                  k in s.tokens && !(s.tokens[k].userId in s.users && s.users[s.tokens[k].userId].tenantId == t))
            && (k in s'.tokens ==> s'.tokens[k] == s.tokens[k])
  {
  }

  /** A profile read shows either the user's row or what is cached for it; a miss files the row. */
  lemma FindMeans(s: State, t: Id, u: Id)
    ensures var (s', outcome) := Step(s, FindUser(t, u));
            var hit := u in s.cache && s.now < s.cache[u].expiresAt && s.cache[u].value.tenantId == t;
            var there := u in s.users && s.users[u].tenantId == t;
            && (hit ==> s' == s && outcome == Read(s.cache[u].value))
            && (!hit && !there ==> s' == s && outcome == NotFound)
            && (!hit && there ==>
                  && outcome.Read? && ShowsRow(outcome.dto, u, s.users[u])
                  && s' == s.(cache := s.cache[u := Entry(outcome.dto, s.now + s.ttl)]))
  {
  }
}
