/** How each API key call ends, told from the calls before it alone, and what it writes. */
module ApiKeyCalls {
  import opened Prelude
  import opened ApiKeys
  import opened ApiKeyHistory

  // ----- Which keys there are, from the calls -----

  predicate Makes(e: Event, t: Id, id: Id) {
    e.op.Create? && e.outcome.Done? && e.op.tenantId == t && e.op.newId == id
  }

  /** The latest creation of key `id` of the tenant among the first `n` events, or -1. */
  function Made(h: seq<Event>, n: nat, t: Id, id: Id): (b: int)
    requires n <= |h|
    ensures -1 <= b < n && (b >= 0 ==> Makes(h[b], t, id))
    ensures forall m :: b < m < n ==> !Makes(h[m], t, id)
  {
    if n == 0 then -1 else if Makes(h[n - 1], t, id) then n - 1 else Made(h, n - 1, t, id)
  }

  /** A delete of the key or of its tenant was asked for after event `b`. */
  predicate DroppedSince(h: seq<Event>, n: nat, b: int, t: Id, id: Id)
    requires -1 <= b && n <= |h|
  {
    exists m :: b < m < n && (h[m].op == Delete(t, id) || h[m].op == DropTenant(t))
  }

  predicate RevokedBy(h: seq<Event>, n: nat, b: int, t: Id, id: Id)
    requires -1 <= b && n <= |h|
  {
    exists m :: b < m < n && h[m].op == Revoke(t, id)
  }

  /** The key was created for the tenant and neither has gone since. */
  predicate There(h: seq<Event>, n: nat, t: Id, id: Id)
    requires n <= |h|
  {
    Made(h, n, t, id) >= 0 && !DroppedSince(h, n, Made(h, n, t, id), t, id)
  }

  predicate Renames(e: Event, t: Id, id: Id) {
    e.op.Update? && e.outcome.Done? && e.op.tenantId == t && e.op.id == id && e.op.newName.GetOr("") != ""
  }

  /** The name given last to the key created at event `b`. */
  function NameInForce(h: seq<Event>, n: nat, b: int): string
    requires b < n <= |h| && IsBirth(h, b)
  {
    if n == b + 1 then h[b].op.name
    else if Renames(h[n - 1], h[b].op.tenantId, h[b].op.newId) then h[n - 1].op.newName.value
    else NameInForce(h, n - 1, b)
  }

  /** A key of the tenant other than `except` goes by the name. */
  ghost predicate NameHeld(h: seq<Event>, n: nat, t: Id, name: string, except: Id)
    requires n <= |h|
  {
    exists id :: id != except && There(h, n, t, id) && NameInForce(h, n, Made(h, n, t, id)) == name
  }

  ghost predicate KeyHeld(h: seq<Event>, n: nat, key: string)
    requires n <= |h|
  {
    exists t, id :: There(h, n, t, id) && h[Made(h, n, t, id)].op.key == key
  }

  /** Event `b` created a key of the tenant that is there, not revoked and not seen expired. */
  predicate CountsAsActive(h: seq<Event>, n: nat, t: Id, b: int)
    requires n <= |h|
  {
    && IsBirth(h, b) && h[b].op.tenantId == t
    && There(h, n, t, h[b].op.newId) && Made(h, n, t, h[b].op.newId) == b
    && !RevokedBy(h, n, b, t, h[b].op.newId) && !SeenExpired(h, n, b)
  }

  function ActiveMade(h: seq<Event>, n: nat, t: Id): set<int>
    requires n <= |h|
  {
    set b | 0 <= b < n && CountsAsActive(h, n, t, b)
  }

  function TenantThere(start: set<Id>, h: seq<Event>, n: nat, t: Id): bool
    requires n <= |h|
  {
    if n == 0 then t in start
    else if h[n - 1].op == AddTenant(t) then true
    else if h[n - 1].op == DropTenant(t) then false
    else TenantThere(start, h, n - 1, t)
  }

  // ----- The table agrees -----

  ghost predicate RowSays(h: seq<Event>, n: nat, id: Id, row: ApiKey)
    requires n <= |h|
  {
    var b := Made(h, n, row.tenantId, id);
    && b >= 0 && b == Birth(h, n, row.key)
    && !DroppedSince(h, n, b, row.tenantId, id)
    && row.name == NameInForce(h, n, b)
    && (row.status.Revoked? <==> RevokedBy(h, n, b, row.tenantId, id))
  }

  ghost predicate OwnsIfThere(h: seq<Event>, n: nat, t: Id, id: Id, s: State)
    requires n <= |h|
  {
    There(h, n, t, id) ==> Owns(s.keys, t, id)
  }

  ghost predicate TenantTold(start: set<Id>, h: seq<Event>, n: nat, t: Id, s: State)
    requires n <= |h|
  {
    TenantThere(start, h, n, t) <==> t in s.tenants
  }

  ghost predicate UniqueNames(keys: map<Id, ApiKey>) {
    forall id, id' ::
      id in keys && id' in keys && keys[id].tenantId == keys[id'].tenantId && keys[id].name == keys[id'].name ==>
        id == id'
  }

  ghost predicate Says(start: set<Id>, h: seq<Event>, n: nat, s: State)
    requires n <= |h|
  {
    && UniqueNames(s.keys)
    && (forall id :: id in s.keys ==> RowSays(h, n, id, s.keys[id]))
    && (forall t, id :: OwnsIfThere(h, n, t, id, s))
    && (forall t :: TenantTold(start, h, n, t, s))
  }

  // ----- What one event does to one row -----

  /** The fields the history above tells, before and after the event. */
  ghost predicate Shift(e: Event, id: Id, row: ApiKey, row': ApiKey) {
    && row'.key == row.key && row'.tenantId == row.tenantId
    && row'.name == (if Renames(e, row.tenantId, id) then e.op.newName.value else row.name)
    && (row'.status.Revoked? <==> row.status.Revoked? || e.op == Revoke(row.tenantId, id))
  }

  lemma ValidateShift(s: State, e: Event, s': State, id: Id)
    requires Follows(s, e, s') && UniqueKeys(s.keys) && id in s.keys && e.op.Validate?
    ensures id in s'.keys && Shift(e, id, s.keys[id], s'.keys[id])
  {
  }

  lemma OtherShift(s: State, e: Event, s': State, id: Id)
    requires Follows(s, e, s') && id in s.keys && !e.op.Validate?
    ensures id in s'.keys <==> e.op != Delete(s.keys[id].tenantId, id) && e.op != DropTenant(s.keys[id].tenantId)
    ensures id in s'.keys ==> Shift(e, id, s.keys[id], s'.keys[id])
  {
  }

  lemma StepShift(s: State, e: Event, s': State, id: Id)
    requires Follows(s, e, s') && UniqueKeys(s.keys) && id in s.keys
    ensures id in s'.keys <==> e.op != Delete(s.keys[id].tenantId, id) && e.op != DropTenant(s.keys[id].tenantId)
    ensures id in s'.keys ==> Shift(e, id, s.keys[id], s'.keys[id])
    ensures !Creates(e, s.keys[id].key) && !Makes(e, s.keys[id].tenantId, id)
  {
    if e.op.Validate? {
      ValidateShift(s, e, s', id);
    } else {
      OtherShift(s, e, s', id);
    }
  }

  lemma OldRowSays(h: seq<Event>, n: nat, id: Id, row: ApiKey, row': ApiKey)
    requires n < |h| && RowSays(h, n, id, row) && Shift(h[n], id, row, row')
    requires !Creates(h[n], row.key) && !Makes(h[n], row.tenantId, id)
    requires h[n].op != Delete(row.tenantId, id) && h[n].op != DropTenant(row.tenantId)
    ensures RowSays(h, n + 1, id, row')
  {
  }

  lemma NewRowSays(h: seq<Event>, n: nat, s: State, s': State, id: Id)
    requires n < |h| && Follows(s, h[n], s')
    requires id !in s.keys && id in s'.keys
    ensures RowSays(h, n + 1, id, s'.keys[id])
  {
  }

  lemma StillOwns(h: seq<Event>, n: nat, s: State, s': State, t: Id, id: Id)
    requires n < |h| && Follows(s, h[n], s') && UniqueKeys(s.keys) && OwnsIfThere(h, n, t, id, s)
    ensures OwnsIfThere(h, n + 1, t, id, s')
  {
    if There(h, n + 1, t, id) && !Makes(h[n], t, id) {
      var b := Made(h, n, t, id);
      assert b == Made(h, n + 1, t, id);
      assert There(h, n, t, id);
      StepShift(s, h[n], s', id);
    }
  }

  lemma StepUniqueNames(s: State, op: Op)
    requires Enabled(s, op) && UniqueNames(s.keys)
    ensures UniqueNames(Step(s, op).0.keys)
  {
  }

  lemma StillTold(start: set<Id>, h: seq<Event>, n: nat, s: State, s': State, t: Id)
    requires n < |h| && Follows(s, h[n], s') && TenantTold(start, h, n, t, s)
    ensures TenantTold(start, h, n + 1, t, s')
  {
  }

  lemma SaysStep(start: set<Id>, h: seq<Event>, n: nat, s: State, s': State)
    requires n < |h| && Follows(s, h[n], s') && UniqueKeys(s.keys) && Says(start, h, n, s)
    ensures Says(start, h, n + 1, s')
  {
    var next := n + 1;
    StepUniqueNames(s, h[n].op);
    forall id | id in s'.keys
      ensures RowSays(h, next, id, s'.keys[id])
    {
      if id in s.keys {
        StepShift(s, h[n], s', id);
        OldRowSays(h, n, id, s.keys[id], s'.keys[id]);
      } else {
        NewRowSays(h, n, s, s', id);
      }
    }
    forall t, id
      ensures OwnsIfThere(h, next, t, id, s')
    {
      assert OwnsIfThere(h, n, t, id, s);
      StillOwns(h, n, s, s', t, id);
    }
    forall t
      ensures TenantTold(start, h, next, t, s')
    {
      assert TenantTold(start, h, n, t, s);
      StillTold(start, h, n, s, s', t);
    }
  }

  lemma {:induction false} AlwaysSays(tr: Trace, n: nat)
    requires Valid(tr) && n <= |tr.events|
    ensures UniqueKeys(tr.states[n].keys) && Says(tr.states[0].tenants, tr.events, n, tr.states[n])
  {
    if n > 0 {
      AlwaysSays(tr, n - 1);
      assert StepAt(tr, n - 1);
      SaysStep(tr.states[0].tenants, tr.events, n - 1, tr.states[n - 1], tr.states[n]);
      StepUniqueKeys(tr.states[n - 1], tr.events[n - 1].op);
    }
  }

  lemma {:induction false} CapStays(tr: Trace, n: nat)
    requires Valid(tr) && n <= |tr.events|
    ensures tr.states[n].maxActive == tr.states[0].maxActive
  {
    if n > 0 {
      CapStays(tr, n - 1);
      assert StepAt(tr, n - 1);
    }
  }

  lemma ThereIffOwned(tr: Trace, n: nat, t: Id, id: Id)
    requires Valid(tr) && n <= |tr.events|
    ensures There(tr.events, n, t, id) <==> Owns(tr.states[n].keys, t, id)
  {
    AlwaysSays(tr, n);
    assert OwnsIfThere(tr.events, n, t, id, tr.states[n]);
    if id in tr.states[n].keys {
      assert RowSays(tr.events, n, id, tr.states[n].keys[id]);
    }
  }

  lemma NameHeldIff(tr: Trace, n: nat, t: Id, name: string, except: Id)
    requires Valid(tr) && n <= |tr.events|
    ensures NameHeld(tr.events, n, t, name, except) <==> !NameFree(tr.states[n].keys, t, name, except)
  {
    AlwaysSays(tr, n);
    var keys, h := tr.states[n].keys, tr.events;
    forall id
      ensures There(h, n, t, id) <==> Owns(keys, t, id)
    {
      ThereIffOwned(tr, n, t, id);
    }
    assert forall id :: Owns(keys, t, id) ==> RowSays(h, n, id, keys[id]);
  }

  lemma KeyHeldIff(tr: Trace, n: nat, key: string)
    requires Valid(tr) && n <= |tr.events|
    ensures KeyHeld(tr.events, n, key) <==> KeyInUse(tr.states[n].keys, key)
  {
    AlwaysSays(tr, n);
    var keys, h := tr.states[n].keys, tr.events;
    if KeyHeld(h, n, key) {
      var t, id :| There(h, n, t, id) && h[Made(h, n, t, id)].op.key == key;
      ThereIffOwned(tr, n, t, id);
      assert RowSays(h, n, id, keys[id]);
    }
    if KeyInUse(keys, key) {
      var id := IdOf(keys, key);
      assert RowSays(h, n, id, keys[id]);
      ThereIffOwned(tr, n, keys[id].tenantId, id);
    }
  }

  // ----- The cap -----

  lemma RowCounts(tr: Trace, n: nat, t: Id, id: Id)
    requires Valid(tr) && n <= |tr.events|
    ensures id in ActiveIds(tr.states[n].keys, t) <==>
            There(tr.events, n, t, id) && CountsAsActive(tr.events, n, t, Made(tr.events, n, t, id))
  {
    AlwaysSays(tr, n);
    AlwaysTold(tr, n);
    ThereIffOwned(tr, n, t, id);
    var keys, h := tr.states[n].keys, tr.events;
    if Owns(keys, t, id) {
      assert RowSays(h, n, id, keys[id]) && RowTold(h, n, id, keys[id]);
    }
  }

  /** As many creations as ids, if each id was created by exactly one of them. */
  lemma {:induction false} AsMany(bs: set<int>, ids: set<Id>, made: map<Id, int>)
    requires made.Keys == ids && made.Values == bs
    requires forall id, id' :: id in ids && id' in ids && made[id] == made[id'] ==> id == id'
    ensures |bs| == |ids|
  {
    if ids != {} {
      var id :| id in ids;
      var rest := made - {id};
      assert rest.Values == bs - {made[id]} by {
        forall b | b in bs - {made[id]}
          ensures b in rest.Values
        {
          var other :| other in made && made[other] == b;
          assert other in rest && rest[other] == b;
        }
      }
      AsMany(bs - {made[id]}, ids - {id}, rest);
    } else {
      assert bs == {};
    }
  }

  lemma ActiveCounted(tr: Trace, n: nat, t: Id)
    requires Valid(tr) && n <= |tr.events|
    ensures |ActiveMade(tr.events, n, t)| == |ActiveIds(tr.states[n].keys, t)|
  {
    var bs, ids, h := ActiveMade(tr.events, n, t), ActiveIds(tr.states[n].keys, t), tr.events;
    forall id
      ensures id in ids <==> There(h, n, t, id) && CountsAsActive(h, n, t, Made(h, n, t, id))
    {
      RowCounts(tr, n, t, id);
    }
    var made := map id | id in ids :: Made(h, n, t, id);
    forall b | b in bs
      ensures b in made.Values
    {
      assert made[h[b].op.newId] == b;
    }
    AsMany(bs, ids, made);
  }

  // ----- How a call ends, at every point of every run -----

  /** Whatever its status, a key that is there can be revoked, deleted and rotated, and one
      that is not there cannot. */
  lemma DoneIffThere(tr: Trace, n: nat, t: Id, id: Id, secret: string)
    requires Valid(tr) && n <= |tr.events|
    ensures var s := tr.states[n];
            var end := if There(tr.events, n, t, id) then Done else NotFound;
            && Step(s, Revoke(t, id)).1 == end && Step(s, Delete(t, id)).1 == end
            && Step(s, Rotate(t, id, secret)).1 == end
  {
    ThereIffOwned(tr, n, t, id);
  }

  /** An update needs the key, and the name it gives to be free among the tenant's other keys. */
  lemma UpdateEnds(tr: Trace, n: nat, op: Op)
    requires Valid(tr) && n <= |tr.events| && op.Update?
    ensures var h, name := tr.events, op.newName.GetOr("");
            Step(tr.states[n], op).1 ==
            if !There(h, n, op.tenantId, op.id) then NotFound
            else if name != "" && NameHeld(h, n, op.tenantId, name, op.id) then NameTaken
            else Done
  {
    ThereIffOwned(tr, n, op.tenantId, op.id);
    NameHeldIff(tr, n, op.tenantId, op.newName.GetOr(""), op.id);
    AlwaysSays(tr, n);
  }

  /** A create goes through if the tenant's keys created and neither gone, revoked nor seen
      expired are fewer than the cap, the key string and the name are not in use, and the
      tenant is there; the first of these that fails is the answer. */
  lemma CreateEnds(tr: Trace, n: nat, op: Op)
    requires Valid(tr) && n <= |tr.events| && op.Create? && Enabled(tr.states[n], op)
    ensures var h, t := tr.events, op.tenantId;
            Step(tr.states[n], op).1 ==
            if |ActiveMade(h, n, t)| >= tr.states[0].maxActive then LimitReached
            else if KeyHeld(h, n, op.key) then KeyExists
            else if NameHeld(h, n, t, op.name, op.newId) then NameTaken
            else if !TenantThere(tr.states[0].tenants, h, n, t) then TenantMissing
            else Done
  {
    CapStays(tr, n);
    ActiveCounted(tr, n, op.tenantId);
    KeyHeldIff(tr, n, op.key);
    NameHeldIff(tr, n, op.tenantId, op.name, op.newId);
    AlwaysSays(tr, n);
    assert TenantTold(tr.states[0].tenants, tr.events, n, op.tenantId, tr.states[n]);
  }

  /** Once a key that is there was revoked, no validation of it is accepted any more, unless
      the same key string was created anew. */
  lemma RevokedForGood(tr: Trace, m: nat, n: nat, t: Id, id: Id, secret: string)
    requires Valid(tr) && m < n <= |tr.events|
    requires There(tr.events, m, t, id) && tr.events[m].op == Revoke(t, id)
    ensures var key := tr.events[Made(tr.events, m, t, id)].op.key;
            Step(tr.states[n], Validate(key, secret)).1.Accepted? ==> Birth(tr.events, n, key) > m
  {
    var h := tr.events;
    var made := Made(h, m, t, id);
    var key := h[made].op.key;
    var b := Birth(h, n, key);
    if b <= m {
      DoneIffThere(tr, m, t, id, secret);
      assert StepAt(tr, m);
      AlwaysSays(tr, m);
      assert RowSays(h, m, id, tr.states[m].keys[id]) by {
        ThereIffOwned(tr, m, t, id);
      }
      assert made == Birth(h, m, tr.states[m].keys[id].key);
      assert b == made;
      assert RevokesKey(h[m], h[b].op);
      AcceptedIffHistorySays(tr, n, key, secret);
    }
  }

  // ----- What a call writes -----

  ghost predicate OnlyKey(s: State, s': State, id: Id) {
    s' == s.(keys := s'.keys) && s'.keys.Keys + {id} == s.keys.Keys + {id} &&
    forall other :: other in s.keys && other != id ==> s'.keys[other] == s.keys[other]
  }

  lemma CreateWrites(s: State, op: Op)
    requires op.Create? && Enabled(s, op)
    ensures var (s', outcome) := Step(s, op);
            && (!outcome.Done? ==> s' == s)
            && (outcome.Done? ==>
                  && OnlyKey(s, s', op.newId) && op.newId in s'.keys
                  && var row := s'.keys[op.newId];
                     && row.tenantId == op.tenantId && row.name == op.name && row.key == op.key
                     && row.secret == Hmac(op.secret) && row.status.Active?
                     && row.scopes == (if op.scopes.Some? then op.scopes.value else [])
                     && row.expiresAt == op.expiresAt && row.lastUsedAt == None)
  {
  }

  /** A name that is given and not empty, scopes given and an expiry given are in the row
      afterwards; everything else in it stays. */
  lemma UpdateWrites(s: State, op: Op)
    requires op.Update?
    ensures var (s', outcome) := Step(s, op);
            && (!outcome.Done? ==> s' == s)
            && (outcome.Done? ==>
                  && OnlyKey(s, s', op.id) && op.id in s.keys && op.id in s'.keys
                  && var row, row' := s.keys[op.id], s'.keys[op.id];
                     && row'.name == (if op.newName.Some? && |op.newName.value| > 0 then op.newName.value else row.name)
                     && row'.scopes == (if op.scopes.Some? then op.scopes.value else row.scopes)
                     && row'.expiresAt == (if op.expiresAt.Some? then op.expiresAt else row.expiresAt)
                     && row'.tenantId == row.tenantId && row'.key == row.key && row'.secret == row.secret
                     && row'.status == row.status && row'.lastUsedAt == row.lastUsedAt)
  {
  }

  /** Revoking changes the status alone, rotating the digest alone, deleting takes the row. */
  lemma ByIdWrites(s: State, t: Id, id: Id, secret: string)
    ensures var s1, s2, s3 := Step(s, Revoke(t, id)).0, Step(s, Rotate(t, id, secret)).0, Step(s, Delete(t, id)).0;
            if id in s.keys && s.keys[id].tenantId == t then
              && OnlyKey(s, s1, id) && id in s1.keys && s1.keys[id] == s.keys[id].(status := Revoked)
              && OnlyKey(s, s2, id) && id in s2.keys && s2.keys[id] == s.keys[id].(secret := Hmac(secret))
              && OnlyKey(s, s3, id) && id !in s3.keys
            else s1 == s && s2 == s && s3 == s
  {
  }

  /** A validation is accepted if the key is active, not past its expiry and the secret is
      right; it notes the time if none is noted or more than the interval has gone by, and
      marks an active key past its expiry as expired. */
  lemma ValidateWrites(s: State, id: Id, secret: string)
    requires UniqueKeys(s.keys) && id in s.keys
    ensures var (s', outcome) := Step(s, Validate(s.keys[id].key, secret));
            var row := s.keys[id];
            var past := row.expiresAt.Some? && row.expiresAt.value < s.now;
            && OnlyKey(s, s', id) && id in s'.keys
            && outcome == (if row.status.Active? && !past && row.secret == Hmac(secret) then Accepted(id) else Rejected)
            && s'.keys[id].status == (if row.status.Active? && past then Expired else row.status)
            && s'.keys[id].lastUsedAt ==
               (if outcome.Accepted? && (row.lastUsedAt.None? || s.now - row.lastUsedAt.value > s.interval)
                then Some(s.now) else row.lastUsedAt)
            && s'.keys[id] == row.(status := s'.keys[id].status, lastUsedAt := s'.keys[id].lastUsedAt)
  {
  }

  lemma UnknownKeyRejected(s: State, key: string, secret: string)
    requires forall id :: id in s.keys ==> s.keys[id].key != key
    ensures Step(s, Validate(key, secret)) == (s, Rejected)
  {
  }

  /** A dropped tenant takes exactly its own keys along. */
  lemma TenantKeysGo(s: State, t: Id, id: Id)
    ensures var s' := Step(s, DropTenant(t)).0;
            && s' == s.(keys := s'.keys, tenants := s'.tenants)
            && (id in s'.tenants <==> id in s.tenants && id != t)
            && (id in s'.keys <==> id in s.keys && s.keys[id].tenantId != t)
            && (id in s'.keys ==> s'.keys[id] == s.keys[id])
  {
  }
}
