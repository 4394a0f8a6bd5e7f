/** API keys: the calls that create, change and validate them, one call a step. */
module ApiKeys {
  import opened Prelude

  /** The keyed hash of a secret; distinct secrets have distinct digests. */
  datatype Digest = Hmac(secret: string)

  datatype Status = Active | Expired | Revoked

  datatype ApiKey = ApiKey(
    tenantId: Id,
    name: string,
    key: string,
    secret: Digest,
    status: Status,
    scopes: seq<string>,
    expiresAt: Option<int>,
    lastUsedAt: Option<int>)

  datatype State = State(keys: map<Id, ApiKey>, tenants: set<Id>, now: int, maxActive: nat, interval: nat)

  /** Ids, keys and secrets are drawn by the service or the database and so part of the call. */
  datatype Op =
    | Create(tenantId: Id, name: string, scopes: Option<seq<string>>, expiresAt: Option<int>,
             newId: Id, key: string, secret: string)
    | Update(tenantId: Id, id: Id, newName: Option<string>, scopes: Option<seq<string>>, expiresAt: Option<int>)
    | Revoke(tenantId: Id, id: Id)
    | Delete(tenantId: Id, id: Id)
    | Rotate(tenantId: Id, id: Id, secret: string)
    | Validate(key: string, secret: string)
    | AddTenant(newTenantId: Id)
    | DropTenant(tenantId: Id)
    | Tick(elapsed: nat)

  datatype Outcome =
    | Done
    | NotFound
    | LimitReached
    | KeyExists
    | NameTaken
    | TenantMissing
    | Accepted(id: Id)
    | Rejected

  function ActiveIds(keys: map<Id, ApiKey>, tenantId: Id): set<Id> {
    set id | id in keys && keys[id].tenantId == tenantId && keys[id].status.Active?
  }

  predicate Owns(keys: map<Id, ApiKey>, tenantId: Id, id: Id) {
    id in keys && keys[id].tenantId == tenantId
  }

  /** The unique constraint on (tenantId, name). */
  predicate NameFree(keys: map<Id, ApiKey>, tenantId: Id, name: string, except: Id) {
    forall id :: id in keys && id != except ==> !(keys[id].tenantId == tenantId && keys[id].name == name)
  }

  predicate KeyInUse(keys: map<Id, ApiKey>, key: string) {
    exists id :: id in keys && keys[id].key == key
  }

  ghost function IdOf(keys: map<Id, ApiKey>, key: string): Id
    requires KeyInUse(keys, key)
  {
    var id :| id in keys && keys[id].key == key;
    id
  }

  function NewRow(op: Op): ApiKey
    requires op.Create?
  {
    ApiKey(op.tenantId, op.name, op.key, Hmac(op.secret), Active, op.scopes.GetOr([]), op.expiresAt, None)
  }

  /** An empty name counts as no name; a given expiry or scope list replaces the old one. */
  function UpdatedRow(row: ApiKey, op: Op): ApiKey
    requires op.Update?
  {
    row.(name := if op.newName.Some? && op.newName.value != "" then op.newName.value else row.name,
         scopes := op.scopes.GetOr(row.scopes),
         expiresAt := if op.expiresAt.Some? then op.expiresAt else row.expiresAt)
  }

  predicate IsPast(expiresAt: Option<int>, now: int) {
    expiresAt.Some? && expiresAt.value < now
  }

  predicate ShouldUpdateLastUsed(lastUsedAt: Option<int>, now: int, interval: int) {
    lastUsedAt.None? || now - lastUsedAt.value > interval
  }

  function Put(s: State, id: Id, row: ApiKey): State {
    s.(keys := s.keys[id := row])
  }

  /** What validation makes of the row it found. */
  function ValidateRow(row: ApiKey, secret: string, now: int, interval: int): (ApiKey, bool) {
    if !row.status.Active? then (row, false)
    else if IsPast(row.expiresAt, now) then (row.(status := Expired), false)
    else if Hmac(secret) != row.secret then (row, false)
    else if ShouldUpdateLastUsed(row.lastUsedAt, now, interval) then (row.(lastUsedAt := Some(now)), true)
    else (row, true)
  }

  /** The save, as the unique constraints and the tenant's foreign key let it through. */
  function Insert(s: State, op: Op): (State, Outcome)
    requires op.Create?
  {
    if KeyInUse(s.keys, op.key) then (s, KeyExists)
    else if !NameFree(s.keys, op.tenantId, op.name, op.newId) then (s, NameTaken)
    else if op.tenantId !in s.tenants then (s, TenantMissing)
    else (Put(s, op.newId, NewRow(op)), Done)
  }

  ghost function Step(s: State, op: Op): (State, Outcome) {
    match op
    case Create(t, _, _, _, _, _, _) =>
      if |ActiveIds(s.keys, t)| >= s.maxActive then (s, LimitReached) else Insert(s, op)
    case Update(t, id, _, _, _) =>
      if !Owns(s.keys, t, id) then (s, NotFound)
      else
        var row := UpdatedRow(s.keys[id], op);
        if !NameFree(s.keys, t, row.name, id) then (s, NameTaken) else (Put(s, id, row), Done)
    case Revoke(t, id) =>
      if !Owns(s.keys, t, id) then (s, NotFound) else (Put(s, id, s.keys[id].(status := Revoked)), Done)
    case Delete(t, id) =>
      if !Owns(s.keys, t, id) then (s, NotFound) else (s.(keys := s.keys - {id}), Done)
    case Rotate(t, id, secret) =>
      if !Owns(s.keys, t, id) then (s, NotFound) else (Put(s, id, s.keys[id].(secret := Hmac(secret))), Done)
    case Validate(key, secret) =>
      if !KeyInUse(s.keys, key) then (s, Rejected)
      else
        var id := IdOf(s.keys, key);
        var (row, ok) := ValidateRow(s.keys[id], secret, s.now, s.interval);
        (Put(s, id, row), if ok then Accepted(id) else Rejected)
    case AddTenant(t) => (s.(tenants := s.tenants + {t}), Done)
    case DropTenant(t) =>
      (s.(keys := map id | id in s.keys && s.keys[id].tenantId != t :: s.keys[id], tenants := s.tenants - {t}), Done)
    case Tick(elapsed) => (s.(now := s.now + elapsed), Done)
  }

  /** The database never reissues the id of a row it still has. */
  predicate Enabled(s: State, op: Op) {
    op.Create? ==> op.newId !in s.keys
  }

  ghost predicate UniqueKeys(keys: map<Id, ApiKey>) {
    forall id, id' :: id in keys && id' in keys && keys[id].key == keys[id'].key ==> id == id'
  }

  lemma StepUniqueKeys(s: State, op: Op)
    requires Enabled(s, op) && UniqueKeys(s.keys)
    ensures UniqueKeys(Step(s, op).0.keys)
  {
  }

  /** What happened in a call and when. */
  datatype Event = Event(op: Op, outcome: Outcome, time: int)

  /** A run: event `i` leads from state `i` to state `i + 1`. */
  datatype Trace = Trace(states: seq<State>, events: seq<Event>)

  ghost predicate Follows(s: State, e: Event, s': State) {
    Enabled(s, e.op) && Step(s, e.op) == (s', e.outcome) && e.time == s.now
  }

  /** Event `i` of the run is what happens between states `i` and `i + 1`. */
  ghost predicate StepAt(tr: Trace, i: int) {
    0 <= i < |tr.events| < |tr.states| ==> Follows(tr.states[i], tr.events[i], tr.states[i + 1])
  }

  ghost predicate Valid(tr: Trace) {
    && |tr.states| == |tr.events| + 1
    && tr.states[0].keys == map[]
    && forall i :: StepAt(tr, i)
  }
}
