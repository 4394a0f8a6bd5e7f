/** Tenants: the table, the read-through cache in front of it and the event log behind it. */
module Tenants {
  import opened Prelude

  datatype Status = Active | Inactive | Suspended | Archived

  datatype Tenant = Tenant(
    name: string,
    slug: string,
    description: Option<string>,
    status: Status,
    website: Option<string>,
    logo: Option<string>,
    createdAt: int,
    updatedAt: int)

  /** A response; a field that is null or left out is None. */
  datatype TenantDto = TenantDto(
    id: Id,
    name: Option<string>,
    slug: Option<string>,
    description: Option<string>,
    status: Option<Status>,
    website: Option<string>,
    logo: Option<string>,
    createdAt: int,
    updatedAt: int)

  datatype CreatePayload = CreatePayload(
    name: string, slug: string, description: Option<string>, website: Option<string>, logo: Option<string>)

  datatype UpdatePayload = UpdatePayload(
    name: Field<string>, slug: Field<string>, description: Field<string>, website: Field<string>,
    logo: Field<string>, status: Field<Status>)

  /** The loaded row after the payload was copied over it. */
  datatype Entity = Entity(
    name: Field<string>, slug: Field<string>, description: Field<string>, status: Field<Status>,
    website: Field<string>, logo: Field<string>)

  /** What is published.  A deletion is published after the ORM has cleared the id of the
      removed entity, so it does not say which tenant went. */
  datatype LogEntry =
    | CreatedEvent(id: Id, name: string, slug: string, createdAt: int)
    | UpdatedEvent(id: Id, newName: Option<string>, newSlug: Option<string>, updatedAt: int)
    | DeletedEvent(removed: Option<Id>, deletedAt: int)

  /** `started` are the tenants whose default roles were set going, in order. */
  datatype State = State(
    tenants: map<Id, Tenant>,
    cache: map<Id, Entry<TenantDto>>,
    log: seq<LogEntry>,
    started: seq<Id>,
    now: int,
    ttl: nat)

  datatype Op =
    | Create(payload: CreatePayload, newId: Id)
    | FindById(id: Id)
    | FindBySlug(slug: string)
    | Update(id: Id, patch: UpdatePayload)
    | Delete(id: Id)
    | Evict(id: Id)
    | Tick(elapsed: nat)

  datatype Outcome = Served(dto: TenantDto) | Done | NotFound | SlugTaken | ConstraintViolation

  /** The response repeats the row's fields next to the id. */
  function FormatResponse(id: Id, row: Tenant): TenantDto {
    TenantDto(id, Some(row.name), Some(row.slug), row.description, Some(row.status), row.website, row.logo,
              row.createdAt, row.updatedAt)
  }

  predicate SlugInUse(tenants: map<Id, Tenant>, slug: string) {
    exists id :: id in tenants && tenants[id].slug == slug
  }

  /** The unique constraint on slug, as a save of row `id` meets it. */
  predicate SlugFree(tenants: map<Id, Tenant>, slug: string, id: Id) {
    forall other :: other in tenants && other != id ==> tenants[other].slug != slug
  }

  ghost function IdOf(tenants: map<Id, Tenant>, slug: string): Id
    requires SlugInUse(tenants, slug)
  {
    var id :| id in tenants && tenants[id].slug == slug;
    id
  }

  function NewRow(p: CreatePayload, now: int): Tenant {
    Tenant(p.name, p.slug, p.description, Active, p.website, p.logo, now, now)
  }

  // ----- Object.assign, save, response -----

  function Assign(row: Tenant, p: UpdatePayload): Entity {
    Entity(Assigned(Some(row.name), p.name), Assigned(Some(row.slug), p.slug),
           Assigned(row.description, p.description), Assigned(Some(row.status), p.status),
           Assigned(row.website, p.website), Assigned(row.logo, p.logo))
  }

  predicate BreaksNotNull(e: Entity) {
    e.name.Null? || e.slug.Null? || e.status.Null?
  }

  function SavedRow(row: Tenant, e: Entity, now: int): Tenant
    requires !BreaksNotNull(e)
  {
    var written := row.(
      name := Column(Some(row.name), e.name).value,
      slug := Column(Some(row.slug), e.slug).value,
      description := Column(row.description, e.description),
      status := Column(Some(row.status), e.status).value,
      website := Column(row.website, e.website),
      logo := Column(row.logo, e.logo));
    if written == row then row else written.(updatedAt := now)
  }

  /** The response to an update shows the entity, not the row. */
  function FormatEntity(id: Id, e: Entity, row: Tenant): TenantDto {
    TenantDto(id, Shown(e.name), Shown(e.slug), Shown(e.description), Shown(e.status), Shown(e.website), Shown(e.logo),
              row.createdAt, row.updatedAt)
  }

  /** Only a non-empty slug that differs from the present one is checked beforehand. */
  predicate SlugRefused(tenants: map<Id, Tenant>, id: Id, slug: Field<string>)
    requires id in tenants
  {
    slug.Given? && slug.value != "" && slug.value != tenants[id].slug && SlugInUse(tenants, slug.value)
  }

  function Cached(s: State, id: Id): State
    requires id in s.tenants
  {
    s.(cache := s.cache[id := Entry(FormatResponse(id, s.tenants[id]), s.now + s.ttl)])
  }

  function DoCreate(s: State, p: CreatePayload, newId: Id): (State, Outcome) {
    if SlugInUse(s.tenants, p.slug) then (s, SlugTaken)
    else
      var row := NewRow(p, s.now);
      var s' := Cached(s.(tenants := s.tenants[newId := row]), newId);
      (s'.(started := s.started + [newId], log := s.log + [CreatedEvent(newId, row.name, row.slug, row.createdAt)]),
       Served(FormatResponse(newId, row)))
  }

  function DoFindById(s: State, id: Id): (State, Outcome) {
    match Lookup(s.cache, id, s.now)
    case Some(cached) => (s, Served(cached))
    case None =>
      if id !in s.tenants then (s, NotFound) else (Cached(s, id), Served(FormatResponse(id, s.tenants[id])))
  }

  ghost function DoFindBySlug(s: State, slug: string): Outcome {
    if !SlugInUse(s.tenants, slug) then NotFound
    else Served(FormatResponse(IdOf(s.tenants, slug), s.tenants[IdOf(s.tenants, slug)]))
  }

  function DoUpdate(s: State, id: Id, p: UpdatePayload): (State, Outcome) {
    if id !in s.tenants then (s, NotFound)
    else if SlugRefused(s.tenants, id, p.slug) then (s, SlugTaken)
    else
      var e := Assign(s.tenants[id], p);
      if BreaksNotNull(e) then (s, ConstraintViolation)
      else
        var row := SavedRow(s.tenants[id], e, s.now);
        if !SlugFree(s.tenants, row.slug, id) then (s, ConstraintViolation)
        else
          (s.(tenants := s.tenants[id := row], cache := s.cache - {id},
              log := s.log + [UpdatedEvent(id, Shown(e.name), Shown(e.slug), row.updatedAt)]),
           Served(FormatEntity(id, e, row)))
  }

  function DoDelete(s: State, id: Id): (State, Outcome) {
    if id !in s.tenants then (s, NotFound)
    else
      (s.(tenants := s.tenants - {id}, cache := s.cache - {id}, log := s.log + [DeletedEvent(None, s.now)]), Done)
  }

  ghost function Step(s: State, op: Op): (State, Outcome) {
    match op
    case Create(p, newId) => DoCreate(s, p, newId)
    case FindById(id) => DoFindById(s, id)
    case FindBySlug(slug) => (s, DoFindBySlug(s, slug))
    case Update(id, p) => DoUpdate(s, id, p)
    case Delete(id) => DoDelete(s, id)
    case Evict(id) => (s.(cache := s.cache - {id}), Done)
    case Tick(elapsed) => (s.(now := s.now + elapsed), Done)
  }

  predicate Enabled(s: State, op: Op) {
    op.Create? ==> op.newId !in s.tenants
  }

  ghost predicate ValidRun(s: State, ops: seq<Op>)
    decreases |ops|
  {
    ops == [] || (Enabled(s, ops[0]) && ValidRun(Step(s, ops[0]).0, ops[1..]))
  }

  ghost function Run(s: State, ops: seq<Op>): State
    requires ValidRun(s, ops)
    decreases |ops|
  {
    if ops == [] then s else Run(Step(s, ops[0]).0, ops[1..])
  }

  predicate Empty(s: State) {
    s.tenants == map[] && s.cache == map[] && s.log == [] && s.started == []
  }

  // ----- The log -----

  datatype Summary = Summary(name: string, slug: string)

  /** One log entry read by a subscriber who knows nothing but the log. */
  function ReplayOne(m: map<Id, Summary>, e: LogEntry): map<Id, Summary> {
    match e
    case CreatedEvent(id, name, slug, _) => m[id := Summary(name, slug)]
    case UpdatedEvent(id, name, slug, _) =>
      if id in m then m[id := Summary(name.GetOr(m[id].name), slug.GetOr(m[id].slug))] else m
    case DeletedEvent(removed, _) => if removed.Some? then m - {removed.value} else m
  }

  function Replay(log: seq<LogEntry>): map<Id, Summary> {
    if log == [] then map[] else ReplayOne(Replay(log[..|log| - 1]), log[|log| - 1])
  }

  function Balance(log: seq<LogEntry>): int {
    if log == [] then 0
    else
      var e := log[|log| - 1];
      Balance(log[..|log| - 1]) + (if e.CreatedEvent? then 1 else if e.DeletedEvent? then -1 else 0)
  }

  /** The ids the log has seen created, in order. */
  function CreatedIds(log: seq<LogEntry>): seq<Id> {
    if log == [] then []
    else
      var e := log[|log| - 1];
      CreatedIds(log[..|log| - 1]) + (if e.CreatedEvent? then [e.id] else [])
  }

  lemma ReplayAppend(log: seq<LogEntry>, e: LogEntry)
    ensures Replay(log + [e]) == ReplayOne(Replay(log), e)
    ensures Balance(log + [e]) == Balance(log) + (if e.CreatedEvent? then 1 else if e.DeletedEvent? then -1 else 0)
    ensures CreatedIds(log + [e]) == CreatedIds(log) + (if e.CreatedEvent? then [e.id] else [])
  {
  }

  // ----- Invariants -----

  ghost predicate UniqueSlugs(tenants: map<Id, Tenant>) {
    forall a, b :: a in tenants && b in tenants && tenants[a].slug == tenants[b].slug ==> a == b
  }

  /** Every cached response is that of the present row. */
  ghost predicate Transparent(s: State) {
    forall id :: id in s.cache ==> id in s.tenants && s.cache[id].value == FormatResponse(id, s.tenants[id])
  }

  /** The log tells name and slug of every live tenant, how many there are, and for which
      tenants the default roles were set going. */
  ghost predicate Logged(s: State) {
    && (forall id :: id in s.tenants ==>
          id in Replay(s.log) && Replay(s.log)[id] == Summary(s.tenants[id].name, s.tenants[id].slug))
    && Balance(s.log) == |s.tenants|
    && (forall id :: id in Replay(s.log) <==> id in CreatedIds(s.log))
    && s.started == CreatedIds(s.log)
  }

  lemma StepTransparent(s: State, op: Op)
    requires Enabled(s, op) && Transparent(s)
    ensures Transparent(Step(s, op).0)
  {
  }

  lemma StepUniqueSlugs(s: State, op: Op)
    requires Enabled(s, op) && UniqueSlugs(s.tenants)
    ensures UniqueSlugs(Step(s, op).0.tenants)
  {
  }

  lemma CreateLogged(s: State, p: CreatePayload, newId: Id)
    requires Logged(s) && newId !in s.tenants
    ensures Logged(DoCreate(s, p, newId).0)
  {
    if !SlugInUse(s.tenants, p.slug) {
      ReplayAppend(s.log, CreatedEvent(newId, p.name, p.slug, s.now));
    }
  }

  lemma UpdateLogged(s: State, id: Id, p: UpdatePayload)
    requires Logged(s)
    ensures Logged(DoUpdate(s, id, p).0)
  {
    var s' := DoUpdate(s, id, p).0;
    if s' != s {
      var e := Assign(s.tenants[id], p);
      ReplayAppend(s.log, UpdatedEvent(id, Shown(e.name), Shown(e.slug), s'.tenants[id].updatedAt));
    }
  }

  lemma DeleteLogged(s: State, id: Id)
    requires Logged(s)
    ensures Logged(DoDelete(s, id).0)
  {
    if id in s.tenants {
      ReplayAppend(s.log, DeletedEvent(None, s.now));
    }
  }

  lemma StepLogged(s: State, op: Op)
    requires Enabled(s, op) && Logged(s)
    ensures Logged(Step(s, op).0)
  {
    match op
    case Create(p, newId) => CreateLogged(s, p, newId);
    case Update(id, p) => UpdateLogged(s, id, p);
    case Delete(id) => DeleteLogged(s, id);
    case _ =>
  }

  lemma {:induction false} RunKeeps(s: State, ops: seq<Op>)
    requires ValidRun(s, ops) && Transparent(s) && UniqueSlugs(s.tenants) && Logged(s)
    ensures Transparent(Run(s, ops)) && UniqueSlugs(Run(s, ops).tenants) && Logged(Run(s, ops))
    decreases |ops|
  {
    if ops != [] {
      StepTransparent(s, ops[0]);
      StepUniqueSlugs(s, ops[0]);
      StepLogged(s, ops[0]);
      RunKeeps(Step(s, ops[0]).0, ops[1..]);
    }
  }

  /** The cache is invisible: after any run, reading a tenant answers as the table alone would. */
  lemma CacheTransparent(s: State, ops: seq<Op>, id: Id)
    requires Empty(s) && ValidRun(s, ops)
    ensures var s' := Run(s, ops);
            DoFindById(s', id).1 == (if id in s'.tenants then Served(FormatResponse(id, s'.tenants[id])) else NotFound)
  {
    RunKeeps(s, ops);
  }

  /** The log covers the table: after any run folding it gives name and slug of every live
      tenant, creations minus deletions is their number, and setting up the default roles
      was started once for each creation. */
  lemma LogReplays(s: State, ops: seq<Op>)
    requires Empty(s) && ValidRun(s, ops)
    ensures Logged(Run(s, ops))
  {
    RunKeeps(s, ops);
  }

  // ----- Exactly when the log replays to the table -----

  function Summaries(tenants: map<Id, Tenant>): map<Id, Summary> {
    map id | id in tenants :: Summary(tenants[id].name, tenants[id].slug)
  }

  /** A delete of the run goes through. */
  ghost predicate DeletesSome(s: State, ops: seq<Op>)
    requires ValidRun(s, ops)
    decreases |ops|
  {
    ops != [] && ((ops[0].Delete? && ops[0].id in s.tenants) || DeletesSome(Step(s, ops[0]).0, ops[1..]))
  }

  /** No create is given an id that an earlier one was given. */
  ghost predicate IdsNotReused(s: State, ops: seq<Op>)
    requires ValidRun(s, ops)
    decreases |ops|
  {
    ops != [] ==> (ops[0].Create? ==> ops[0].newId !in CreatedIds(s.log)) && IdsNotReused(Step(s, ops[0]).0, ops[1..])
  }

  /** Every id in the log is of a live tenant. */
  ghost predicate AllLive(s: State) {
    forall id :: id in CreatedIds(s.log) ==> id in s.tenants
  }

  lemma CreateLive(s: State, p: CreatePayload, newId: Id)
    requires newId !in CreatedIds(s.log)
    ensures AllLive(DoCreate(s, p, newId).0) <==> AllLive(s)
  {
    if !SlugInUse(s.tenants, p.slug) {
      var s' := DoCreate(s, p, newId).0;
      ReplayAppend(s.log, CreatedEvent(newId, p.name, p.slug, s.now));
      assert forall id :: id in CreatedIds(s.log) ==> id in CreatedIds(s'.log) && id != newId;
    }
  }

  lemma UpdateLive(s: State, id: Id, p: UpdatePayload)
    ensures AllLive(DoUpdate(s, id, p).0) <==> AllLive(s)
  {
    var s' := DoUpdate(s, id, p).0;
    if s' != s {
      var e := Assign(s.tenants[id], p);
      ReplayAppend(s.log, UpdatedEvent(id, Shown(e.name), Shown(e.slug), s'.tenants[id].updatedAt));
      assert CreatedIds(s'.log) == CreatedIds(s.log);
      assert s'.tenants.Keys == s.tenants.Keys;
    }
  }

  lemma DeleteDead(s: State, id: Id)
    requires Logged(s) && id in s.tenants
    ensures !AllLive(DoDelete(s, id).0)
  {
    ReplayAppend(s.log, DeletedEvent(None, s.now));
    assert id in CreatedIds(DoDelete(s, id).0.log);
  }

  lemma StepLive(s: State, op: Op)
    requires Enabled(s, op) && Logged(s)
    requires op.Create? ==> op.newId !in CreatedIds(s.log)
    ensures AllLive(Step(s, op).0) <==> AllLive(s) && !(op.Delete? && op.id in s.tenants)
  {
    match op
    case Create(p, newId) => CreateLive(s, p, newId);
    case Update(id, p) => UpdateLive(s, id, p);
    case Delete(id) =>
      if id in s.tenants {
        DeleteDead(s, id);
      }
    case _ =>
  }

  lemma {:induction false} RunLive(s: State, ops: seq<Op>)
    requires ValidRun(s, ops) && IdsNotReused(s, ops) && Logged(s)
    ensures Logged(Run(s, ops))
    ensures AllLive(Run(s, ops)) <==> AllLive(s) && !DeletesSome(s, ops)
    decreases |ops|
  {
    if ops != [] {
      StepLogged(s, ops[0]);
      StepLive(s, ops[0]);
      RunLive(Step(s, ops[0]).0, ops[1..]);
    }
  }

  lemma ReplayIsTable(s: State)
    requires Logged(s)
    ensures Replay(s.log) == Summaries(s.tenants) <==> AllLive(s)
  {
    if AllLive(s) {
      assert Replay(s.log).Keys == s.tenants.Keys;
    } else {
      var id :| id in CreatedIds(s.log) && id !in s.tenants;
      assert id in Replay(s.log) && id !in Summaries(s.tenants);
    }
  }

  /** After any run the log replays to the table, names and slugs, exactly if every tenant
      ever created is there at the end; and when ids are not reused, exactly if no delete
      went through. */
  lemma ReplayIsTableIff(s: State, ops: seq<Op>)
    requires Empty(s) && ValidRun(s, ops)
    ensures var s' := Run(s, ops);
            && (Replay(s'.log) == Summaries(s'.tenants) <==> AllLive(s'))
            && (IdsNotReused(s, ops) ==> (Replay(s'.log) == Summaries(s'.tenants) <==> !DeletesSome(s, ops)))
  {
    RunKeeps(s, ops);
    ReplayIsTable(Run(s, ops));
    if IdsNotReused(s, ops) {
      RunLive(s, ops);
    }
  }

  /** Why a delete costs the property: deleting either of two tenants leaves the same log
      and different tables, so nothing computed from the log alone could give the table. */
  lemma DeletionsAnonymous(s: State, a: Id, b: Id)
    requires a in s.tenants && b in s.tenants && a != b
    ensures DoDelete(s, a).0.log == DoDelete(s, b).0.log
    ensures DoDelete(s, a).0.tenants != DoDelete(s, b).0.tenants
  {
  }

  // ----- What an update answers -----

  predicate HidesSome(row: Tenant, p: UpdatePayload) {
    p.name.Undefined? || p.slug.Undefined? || p.status.Undefined? || Hidden(row.description, p.description) ||
    Hidden(row.website, p.website) || Hidden(row.logo, p.logo)
  }

  /** `shown` has nothing that `full` has not. */
  predicate Partial(shown: TenantDto, full: TenantDto) {
    && shown.id == full.id && shown.createdAt == full.createdAt && shown.updatedAt == full.updatedAt
    && (shown.name.Some? ==> shown.name == full.name) && (shown.slug.Some? ==> shown.slug == full.slug)
    && (shown.status.Some? ==> shown.status == full.status)
    && (shown.description.Some? ==> shown.description == full.description)
    && (shown.website.Some? ==> shown.website == full.website) && (shown.logo.Some? ==> shown.logo == full.logo)
  }

  /** The answer to an update never contradicts the row, and is the row in full exactly if
      no property of the payload is undefined where the row has a value. */
  lemma UpdateAnswerIff(s: State, id: Id, p: UpdatePayload)
    requires DoUpdate(s, id, p).1.Served?
    ensures var (s', answer) := DoUpdate(s, id, p);
            && Partial(answer.dto, FormatResponse(id, s'.tenants[id]))
            && (answer.dto == FormatResponse(id, s'.tenants[id]) <==> !HidesSome(s.tenants[id], p))
  {
  }

  /** Slugs stay pairwise distinct, so a slug finds the one tenant that has it. */
  lemma SlugFinds(s: State, ops: seq<Op>, id: Id)
    requires Empty(s) && ValidRun(s, ops) && id in Run(s, ops).tenants
    ensures var s' := Run(s, ops);
            && UniqueSlugs(s'.tenants)
            && DoFindBySlug(s', s'.tenants[id].slug) == Served(FormatResponse(id, s'.tenants[id]))
  {
    RunKeeps(s, ops);
  }

  class TenantService {
    var tenants: map<Id, Tenant>
    var cache: map<Id, Entry<TenantDto>>
    var log: seq<LogEntry>
    var started: seq<Id>
    var now: int
    const ttl: nat

    constructor (ttl: nat)
      ensures Empty(Snapshot()) && this.ttl == ttl && UniqueSlugs(tenants)
    {
      tenants, cache, log, started, now := map[], map[], [], [], 0;
      this.ttl := ttl;
    }

    ghost function Snapshot(): State
      reads this
    {
      State(tenants, cache, log, started, now, ttl)
    }

    method CreateTenant(payload: CreatePayload, newId: Id) returns (outcome: Outcome)
      requires newId !in tenants
      modifies this
      ensures (Snapshot(), outcome) == Step(old(Snapshot()), Create(payload, newId))
    {
      if exists id :: id in tenants && tenants[id].slug == payload.slug {
        return SlugTaken;
      }
      var saved := Tenant(
        payload.name, payload.slug, payload.description, Active, payload.website, payload.logo, now, now);
      tenants := tenants[newId := saved];
      cache := cache[newId := Entry(FormatResponse(newId, saved), now + ttl)];
      // Not awaited: the default roles are set up later, or not at all.
      started := started + [newId];
      log := log + [CreatedEvent(newId, saved.name, saved.slug, saved.createdAt)];
      return Served(FormatResponse(newId, saved));
    }

    method FindTenantById(id: Id) returns (outcome: Outcome)
      modifies this
      ensures (Snapshot(), outcome) == Step(old(Snapshot()), FindById(id))
    {
      var cached := Lookup(cache, id, now);
      if cached.Some? {
        return Served(cached.value);
      }
      if id !in tenants {
        return NotFound;
      }
      var response := FormatResponse(id, tenants[id]);
      cache := cache[id := Entry(response, now + ttl)];
      return Served(response);
    }

    method FindTenantBySlug(slug: string) returns (outcome: Outcome)
      requires UniqueSlugs(tenants)
      ensures outcome == DoFindBySlug(Snapshot(), slug)
    {
      if exists id :: id in tenants && tenants[id].slug == slug {
        var id :| id in tenants && tenants[id].slug == slug;
        return Served(FormatResponse(id, tenants[id]));
      }
      return NotFound;
    }

    method UpdateTenant(id: Id, payload: UpdatePayload) returns (outcome: Outcome)
      modifies this
      ensures (Snapshot(), outcome) == Step(old(Snapshot()), Update(id, payload))
    {
      if id !in tenants {
        return NotFound;
      }
      var tenant := tenants[id];
      if payload.slug.Given? && payload.slug.value != "" && payload.slug.value != tenant.slug {
        if exists other :: other in tenants && tenants[other].slug == payload.slug.value {
          return SlugTaken;
        }
      }
      var entity := Assign(tenant, payload);
      // The constraints of the table decide whether the save goes through.
      if BreaksNotNull(entity) {
        return ConstraintViolation;
      }
      var updated := SavedRow(tenant, entity, now);
      if !SlugFree(tenants, updated.slug, id) {
        return ConstraintViolation;
      }
      tenants := tenants[id := updated];
      cache := cache - {id};
      log := log + [UpdatedEvent(id, Shown(entity.name), Shown(entity.slug), updated.updatedAt)];
      return Served(FormatEntity(id, entity, updated));
    }

    method DeleteTenant(id: Id) returns (outcome: Outcome)
      modifies this
      ensures (Snapshot(), outcome) == Step(old(Snapshot()), Delete(id))
    {
      if id !in tenants {
        return NotFound;
      }
      tenants := tenants - {id};
      cache := cache - {id};
      log := log + [DeletedEvent(None, now)];
      return Done;
    }
  }
}
