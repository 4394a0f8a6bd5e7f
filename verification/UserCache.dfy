/** How far the cached profiles can be trusted when five services write the rows and only
    one of them invalidates. */
module UserCache {
  import opened Prelude
  import opened Identity
  import opened IdentityEffects

  /** The fields no service changes behind the cache's back. */
  predicate Agrees(dto: UserDto, user: User) {
    dto.email == user.email && dto.tenantId == user.tenantId &&
    dto.status == user.status && dto.createdAt == user.createdAt
  }

  /** An entry for a row that is gone can only be one its tenant's deletion took along. */
  ghost predicate EntrySound(s: State, id: Id, dto: UserDto) {
    && dto.id == id && id in s.issued && dto.tenantId in s.issued
    && (if id in s.users then Agrees(dto, s.users[id]) else dto.tenantId !in s.tenants)
  }

  ghost predicate FieldwiseCoherent(s: State) {
    forall id :: id in s.cache ==> EntrySound(s, id, s.cache[id].value)
  }

  ghost predicate FullyCoherent(s: State) {
    forall id :: id in s.cache && id in s.users ==> s.cache[id].value == FormatResponse(id, s.users[id])
  }

  /** The writers that leave the cache alone. */
  predicate WritesPastCache(op: Op) {
    op.UpdateProfile? || op.Login? || op.ChangePassword? || op.ResetPassword?
  }

  /** An entry after a call was there before, or shows the row as it now is; and the one
      call that changes a status drops the entry. */
  lemma CacheEffect(s: State, e: Event, s': State, id: Id)
    requires Follows(s, e, s') && id in s'.cache
    ensures (id in s.cache && s'.cache[id] == s.cache[id]) ||
            (id in s'.users && s'.cache[id].value == FormatResponse(id, s'.users[id]))
    ensures !SetsStatus(e, id)
  {
  }

  // Tables and ids around an entry whose own row did not change hands.

  lemma IssuedGrows(s: State, e: Event, s': State)
    requires Follows(s, e, s')
    ensures s.issued <= s'.issued
  {
  }

  lemma TenantsDoNotReturn(s: State, e: Event, s': State, t: Id)
    requires Follows(s, e, s') && t in s'.tenants && t in s.issued
    ensures t in s.tenants
  {
  }

  lemma DroppedTenantGone(s: State, e: Event, s': State)
    requires Follows(s, e, s') && e.op.DropTenant?
    ensures e.op.tenantId !in s'.tenants
  {
  }

  lemma NewUserNewId(s: State, e: Event, s': State, id: Id)
    requires Follows(s, e, s') && id in s'.users && id !in s.users
    ensures id !in s.issued
  {
  }

  lemma DeletedUserUncached(s: State, e: Event, s': State, id: Id)
    requires Follows(s, e, s') && e.op.DeleteUser? && e.op.userId == id && e.outcome.Done?
    ensures id !in s'.cache
  {
  }

  lemma EntryStep(s: State, e: Event, s': State, id: Id)
    requires Follows(s, e, s') && UsersSound(s) && FieldwiseCoherent(s) && UsersSound(s')
    requires id in s'.cache
    ensures EntrySound(s', id, s'.cache[id].value)
  {
    CacheEffect(s, e, s', id);
    IssuedGrows(s, e, s');
    if id in s.cache && s'.cache[id] == s.cache[id] {
      var dto := s.cache[id].value;
      assert EntrySound(s, id, dto);
      if id in s.users {
        StepEffect(s, e, s', id);
        if e.op.DropTenant? {
          DroppedTenantGone(s, e, s');
        } else if e.op.DeleteUser? && e.op.userId == id && e.outcome.Done? {
          DeletedUserUncached(s, e, s', id);
          assert false;
        }
      } else {
        if id in s'.users {
          NewUserNewId(s, e, s', id);
          assert false;
        }
        if dto.tenantId in s'.tenants {
          TenantsDoNotReturn(s, e, s', dto.tenantId);
          assert false;
        }
      }
    }
  }

  lemma FieldwiseStep(s: State, e: Event, s': State)
    requires Follows(s, e, s') && UsersSound(s) && FieldwiseCoherent(s)
    ensures FieldwiseCoherent(s')
  {
    StepUsersSound(s, e.op);
    forall id | id in s'.cache
      ensures EntrySound(s', id, s'.cache[id].value)
    {
      EntryStep(s, e, s', id);
    }
  }

  lemma ChangeDropsEntry(s: State, e: Event, s': State, id: Id)
    requires Follows(s, e, s') && !WritesPastCache(e.op)
    requires id in s.users && id in s'.users && s'.users[id] != s.users[id]
    ensures id in s'.cache ==> e.op.CreateUser? || e.op.Register?
    ensures (e.op.CreateUser? || e.op.Register?) ==> e.op.newId == id
  {
  }

  lemma FullStep(s: State, e: Event, s': State)
    requires Follows(s, e, s') && UsersSound(s) && FieldwiseCoherent(s) && FullyCoherent(s) && !WritesPastCache(e.op)
    ensures FullyCoherent(s')
  {
    forall id | id in s'.cache && id in s'.users
      ensures s'.cache[id].value == FormatResponse(id, s'.users[id])
    {
      CacheEffect(s, e, s', id);
      if id in s.cache && s'.cache[id] == s.cache[id] {
        assert EntrySound(s, id, s.cache[id].value);
        if id !in s.users {
          NewUserNewId(s, e, s', id);
          assert false;
        } else if s'.users[id] != s.users[id] {
          ChangeDropsEntry(s, e, s', id);
          assert false;
        }
      }
    }
  }

  lemma {:induction false} AlwaysFieldwise(tr: Trace, n: nat)
    requires Valid(tr) && n <= |tr.events|
    ensures FieldwiseCoherent(tr.states[n])
  {
    if n > 0 {
      AlwaysFieldwise(tr, n - 1);
      AlwaysSound(tr, n - 1);
      assert StepAt(tr, n - 1);
      FieldwiseStep(tr.states[n - 1], tr.events[n - 1], tr.states[n]);
    }
  }

  /** None of the first `n` calls wrote a row without telling the cache. */
  ghost predicate OnlyUserService(tr: Trace, n: nat)
    requires n <= |tr.events|
  {
    forall i :: 0 <= i < n ==> !WritesPastCache(tr.events[i].op)
  }

  lemma {:induction false} AlwaysFull(tr: Trace, n: nat)
    requires Valid(tr) && n <= |tr.events| && OnlyUserService(tr, n)
    ensures FullyCoherent(tr.states[n])
  {
    if n > 0 {
      AlwaysFull(tr, n - 1);
      AlwaysFieldwise(tr, n - 1);
      AlwaysSound(tr, n - 1);
      assert StepAt(tr, n - 1);
      FullStep(tr.states[n - 1], tr.events[n - 1], tr.states[n]);
    }
  }

  /** After any mix of calls the cached profile of a user still there has the row's id,
      email, tenant, status and creation time; as long as only UserService changes rows it
      is the row in full. */
  lemma UserCacheCoherent(tr: Trace, n: nat)
    requires Valid(tr) && n <= |tr.events|
    ensures FieldwiseCoherent(tr.states[n])
    ensures OnlyUserService(tr, n) ==> FullyCoherent(tr.states[n])
  {
    AlwaysFieldwise(tr, n);
    if OnlyUserService(tr, n) {
      AlwaysFull(tr, n);
    }
  }

  /** What `findById` answers at any point of any run: never a user of another tenant or
      under another id; an answer exactly if the user is there or a live entry has that
      tenant, and the latter without the user only when the whole tenant is gone; the
      coherent fields as in the row. */
  lemma FindUserFaithful(tr: Trace, n: nat, t: Id, u: Id)
    requires Valid(tr) && n <= |tr.events|
    ensures var s, outcome := tr.states[n], DoFindUser(tr.states[n], t, u).1;
            && (outcome.Read? || outcome.NotFound?)
            && (outcome.Read? <==>
                  Has(s.users, t, u) ||
                  (Lookup(s.cache, u, s.now).Some? && Lookup(s.cache, u, s.now).value.tenantId == t))
            && (Has(s.users, t, u) ==> outcome.Read? && Agrees(outcome.dto, s.users[u]))
            && (outcome.Read? ==> outcome.dto.id == u && outcome.dto.tenantId == t)
            && (outcome.Read? && !Has(s.users, t, u) ==> t !in s.tenants)
            && (outcome.Read? && Has(s.users, t, u) && OnlyUserService(tr, n) ==>
                  outcome.dto == FormatResponse(u, s.users[u]))
  {
    UserCacheCoherent(tr, n);
    var s := tr.states[n];
    if u in s.cache {
      assert EntrySound(s, u, s.cache[u].value);
    }
  }
}
