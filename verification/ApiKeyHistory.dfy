/** When an API key is accepted, told from the history of calls alone. */
module ApiKeyHistory {
  import opened Prelude
  import opened ApiKeys

  // ----- The history, without the table -----

  predicate Creates(e: Event, key: string) {
    e.op.Create? && e.outcome.Done? && e.op.key == key
  }

  /** The latest creation of `key` among the first `n` events, or -1. */
  function Birth(h: seq<Event>, n: nat, key: string): (b: int)
    requires n <= |h|
    ensures -1 <= b < n && (b >= 0 ==> Creates(h[b], key))
    ensures forall m :: b < m < n ==> !Creates(h[m], key)
  {
    if n == 0 then -1 else if Creates(h[n - 1], key) then n - 1 else Birth(h, n - 1, key)
  }

  /** `b` is the creation of some key. */
  predicate IsBirth(h: seq<Event>, b: int) {
    0 <= b < |h| && h[b].op.Create? && h[b].outcome.Done?
  }

  predicate DeletesKey(e: Event, born: Op)
    requires born.Create?
  {
    e.outcome.Done? && ((e.op.Delete? && e.op.id == born.newId) || e.op == DropTenant(born.tenantId))
  }

  predicate RevokesKey(e: Event, born: Op)
    requires born.Create?
  {
    e.outcome.Done? && e.op.Revoke? && e.op.id == born.newId
  }

  predicate DeletedSince(h: seq<Event>, n: nat, b: int)
    requires n <= |h| && IsBirth(h, b)
  {
    exists m :: b < m < n && DeletesKey(h[m], h[b].op)
  }

  predicate RevokedSince(h: seq<Event>, n: nat, b: int)
    requires n <= |h| && IsBirth(h, b)
  {
    exists m :: b < m < n && RevokesKey(h[m], h[b].op)
  }

  /** The secret returned by the latest create or rotate. */
  function LatestSecret(h: seq<Event>, n: nat, b: int): string
    requires b < n <= |h| && IsBirth(h, b)
  {
    if n == b + 1 then h[b].op.secret
    else
      var e := h[n - 1];
      if e.outcome.Done? && e.op.Rotate? && e.op.id == h[b].op.newId then e.op.secret else LatestSecret(h, n - 1, b)
  }

  /** The expiry given by the latest create or update that gave one. */
  function ExpiryInForce(h: seq<Event>, n: nat, b: int): Option<int>
    requires b < n <= |h| && IsBirth(h, b)
  {
    if n == b + 1 then h[b].op.expiresAt
    else
      var e := h[n - 1];
      if e.outcome.Done? && e.op.Update? && e.op.id == h[b].op.newId && e.op.expiresAt.Some? then e.op.expiresAt
      else ExpiryInForce(h, n - 1, b)
  }

  /** Event `m` is a validation that came after the expiry then in force. */
  predicate SeesExpired(h: seq<Event>, m: nat, b: int)
    requires b < m < |h| && IsBirth(h, b)
  {
    h[m].op.Validate? && h[m].op.key == h[b].op.key && IsPast(ExpiryInForce(h, m, b), h[m].time)
  }

  predicate SeenExpired(h: seq<Event>, n: nat, b: int)
    requires n <= |h| && IsBirth(h, b)
  {
    exists m :: b < m < n && SeesExpired(h, m, b)
  }

  /** The key is created and neither deleted nor revoked, `secret` is the latest one issued,
      no earlier validation saw it expired, and the expiry in force is unset or not past. */
  predicate ShouldAccept(h: seq<Event>, n: nat, key: string, secret: string, now: int)
    requires n <= |h|
  {
    var b := Birth(h, n, key);
    b >= 0 && !DeletedSince(h, n, b) && !RevokedSince(h, n, b) && LatestSecret(h, n, b) == secret &&
    !SeenExpired(h, n, b) && !IsPast(ExpiryInForce(h, n, b), now)
  }

  // ----- The table agrees with the history -----

  ghost predicate RowTold(h: seq<Event>, n: nat, id: Id, row: ApiKey)
    requires n <= |h|
  {
    var b := Birth(h, n, row.key);
    && b >= 0
    && h[b].op.newId == id && h[b].op.tenantId == row.tenantId
    && !DeletedSince(h, n, b)
    && row.secret == Hmac(LatestSecret(h, n, b))
    && row.expiresAt == ExpiryInForce(h, n, b)
    && (row.status.Revoked? <==> RevokedSince(h, n, b))
    && (!row.status.Revoked? ==> (row.status.Expired? <==> SeenExpired(h, n, b)))
  }

  ghost predicate Told(h: seq<Event>, n: nat, s: State)
    requires n <= |h|
  {
    && UniqueKeys(s.keys)
    && (forall id :: id in s.keys ==> RowTold(h, n, id, s.keys[id]))
    && (forall key :: KeyTold(h, n, key, s))
  }

  /** A key created and not deleted since is in the table. */
  ghost predicate KeyTold(h: seq<Event>, n: nat, key: string, s: State)
    requires n <= |h|
  {
    var b := Birth(h, n, key);
    b >= 0 && !DeletedSince(h, n, b) ==> h[b].op.newId in s.keys && s.keys[h[b].op.newId].key == key
  }

  // ----- What one event does to one row -----

  predicate On(e: Event, id: Id) {
    e.outcome.Done? &&
    ((e.op.Update? && e.op.id == id) || (e.op.Revoke? && e.op.id == id) || (e.op.Rotate? && e.op.id == id))
  }

  predicate Removes(e: Event, id: Id, tenantId: Id) {
    e.outcome.Done? && ((e.op.Delete? && e.op.id == id) || e.op == DropTenant(tenantId))
  }

  ghost predicate Effect(e: Event, id: Id, row: ApiKey, row': ApiKey) {
    && row'.key == row.key && row'.tenantId == row.tenantId
    && row'.secret == (if On(e, id) && e.op.Rotate? then Hmac(e.op.secret) else row.secret)
    && row'.expiresAt == (if On(e, id) && e.op.Update? && e.op.expiresAt.Some? then e.op.expiresAt else row.expiresAt)
    && row'.status == (if On(e, id) && e.op.Revoke? then Revoked
                       else if row.status.Active? && e.op.Validate? && e.op.key == row.key &&
                               IsPast(row.expiresAt, e.time) then Expired
                       else row.status)
  }

  lemma ValidateEffect(s: State, e: Event, s': State, id: Id)
    requires Follows(s, e, s') && UniqueKeys(s.keys) && id in s.keys && e.op.Validate?
    ensures id in s'.keys && Effect(e, id, s.keys[id], s'.keys[id])
  {
  }

  lemma OtherEffect(s: State, e: Event, s': State, id: Id)
    requires Follows(s, e, s') && id in s.keys && !e.op.Validate?
    ensures id in s'.keys <==> !Removes(e, id, s.keys[id].tenantId)
    ensures id in s'.keys ==> Effect(e, id, s.keys[id], s'.keys[id])
  {
  }

  lemma StepEffect(s: State, e: Event, s': State, id: Id)
    requires Follows(s, e, s') && UniqueKeys(s.keys) && id in s.keys
    ensures id in s'.keys <==> !Removes(e, id, s.keys[id].tenantId)
    ensures id in s'.keys ==> Effect(e, id, s.keys[id], s'.keys[id])
    ensures !Creates(e, s.keys[id].key)
  {
    if e.op.Validate? {
      ValidateEffect(s, e, s', id);
    } else {
      OtherEffect(s, e, s', id);
    }
  }

  /** How one more event moves the history functions of a key born before it. */
  lemma OneMore(h: seq<Event>, n: nat, b: int)
    requires b < n < |h| && IsBirth(h, b)
    ensures DeletedSince(h, n + 1, b) <==> DeletedSince(h, n, b) || DeletesKey(h[n], h[b].op)
    ensures RevokedSince(h, n + 1, b) <==> RevokedSince(h, n, b) || RevokesKey(h[n], h[b].op)
    ensures SeenExpired(h, n + 1, b) <==> SeenExpired(h, n, b) || SeesExpired(h, n, b)
  {
  }

  /** A row that was there before and is still there. */
  lemma OldRowTold(h: seq<Event>, n: nat, id: Id, row: ApiKey, row': ApiKey)
    requires n < |h| && RowTold(h, n, id, row) && Effect(h[n], id, row, row')
    requires !Creates(h[n], row.key) && !Removes(h[n], id, row.tenantId)
    ensures RowTold(h, n + 1, id, row')
  {
    OneMore(h, n, Birth(h, n, row.key));
  }

  lemma NewRowTold(h: seq<Event>, n: nat, s: State, s': State, id: Id)
    requires n < |h| && Follows(s, h[n], s')
    requires id !in s.keys && id in s'.keys
    ensures RowTold(h, n + 1, id, s'.keys[id])
  {
  }

  lemma NewKeyTold(s: State, e: Event, s': State, key: string)
    requires Follows(s, e, s') && Creates(e, key)
    ensures e.op.newId in s'.keys && s'.keys[e.op.newId].key == key
  {
  }

  lemma KeyStillTold(h: seq<Event>, n: nat, s: State, s': State, key: string)
    requires n < |h| && Follows(s, h[n], s') && Told(h, n, s)
    ensures KeyTold(h, n + 1, key, s')
  {
    if Creates(h[n], key) {
      NewKeyTold(s, h[n], s', key);
    } else {
      var b := Birth(h, n, key);
      if b >= 0 && !DeletedSince(h, n + 1, b) {
        OneMore(h, n, b);
        assert KeyTold(h, n, key, s);
        var id := h[b].op.newId;
        assert RowTold(h, n, id, s.keys[id]);
        StepEffect(s, h[n], s', id);
      }
    }
  }

  lemma ToldStep(h: seq<Event>, n: nat, s: State, s': State)
    requires n < |h| && Follows(s, h[n], s') && Told(h, n, s)
    ensures Told(h, n + 1, s')
  {
    var next := n + 1;
    StepUniqueKeys(s, h[n].op);
    forall id | id in s'.keys
      ensures RowTold(h, n + 1, id, s'.keys[id])
    {
      if id in s.keys {
        StepEffect(s, h[n], s', id);
        OldRowTold(h, n, id, s.keys[id], s'.keys[id]);
      } else {
        NewRowTold(h, n, s, s', id);
      }
    }
    forall key
      ensures KeyTold(h, next, key, s')
    {
      KeyStillTold(h, n, s, s', key);
    }
  }

  lemma {:induction false} AlwaysTold(tr: Trace, n: nat)
    requires Valid(tr) && n <= |tr.events|
    ensures Told(tr.events, n, tr.states[n])
  {
    if n > 0 {
      AlwaysTold(tr, n - 1);
      assert StepAt(tr, n - 1);
      ToldStep(tr.events, n - 1, tr.states[n - 1], tr.states[n]);
    }
  }

  /** At every point of every run, validation accepts exactly what the history says it should. */
  lemma AcceptedIffHistorySays(tr: Trace, n: nat, key: string, secret: string)
    requires Valid(tr) && n <= |tr.events|
    ensures Step(tr.states[n], Validate(key, secret)).1.Accepted? <==>
            ShouldAccept(tr.events, n, key, secret, tr.states[n].now)
    ensures var outcome := Step(tr.states[n], Validate(key, secret)).1;
            outcome.Accepted? ==> outcome.id == tr.events[Birth(tr.events, n, key)].op.newId
  {
    AlwaysTold(tr, n);
    var s, h := tr.states[n], tr.events;
    if KeyInUse(s.keys, key) {
      var id := IdOf(s.keys, key);
      assert RowTold(h, n, id, s.keys[id]);
    } else {
      assert KeyTold(h, n, key, s);
    }
  }

  // ----- Status only moves forward -----

  function Rank(status: Status): nat {
    match status
    case Active => 0
    case Expired => 1
    case Revoked => 2
  }

  lemma StatusForwardStep(s: State, op: Op, id: Id)
    requires Enabled(s, op)
    requires id in s.keys && id in Step(s, op).0.keys
    ensures Rank(s.keys[id].status) <= Rank(Step(s, op).0.keys[id].status)
  {
  }

  /** While a row exists its status never moves back, so nothing revives a key. */
  lemma {:induction false} StatusForward(tr: Trace, i: nat, j: nat, id: Id)
    requires Valid(tr) && i <= j <= |tr.events|
    requires forall m :: i <= m <= j ==> id in tr.states[m].keys
    ensures Rank(tr.states[i].keys[id].status) <= Rank(tr.states[j].keys[id].status)
    decreases j - i
  {
    if i < j {
      StatusForward(tr, i, j - 1, id);
      assert StepAt(tr, j - 1);
      StatusForwardStep(tr.states[j - 1], tr.events[j - 1].op, id);
    }
  }
}
