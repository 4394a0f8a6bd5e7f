/** What each tenant call answers, writes and publishes, told from the rows before it and the
    payload alone. */
module TenantCalls {
  import opened Prelude
  import opened Tenants

  ghost predicate OnlyTenant(s: State, s': State, id: Id) {
    s'.tenants.Keys + {id} == s.tenants.Keys + {id} &&
    forall other :: other in s.tenants && other != id ==> s'.tenants[other] == s.tenants[other]
  }

  /** The response shows the row field by field. */
  predicate ShowsRow(dto: TenantDto, id: Id, row: Tenant) {
    dto.id == id && dto.name == Some(row.name) && dto.slug == Some(row.slug) && dto.description == row.description &&
    dto.status == Some(row.status) && dto.website == row.website && dto.logo == row.logo &&
    dto.createdAt == row.createdAt && dto.updatedAt == row.updatedAt
  }

  /** The cache is as it was, but for an entry of this tenant that shows its row. */
  ghost predicate Files(s: State, s': State, id: Id) {
    && s'.cache.Keys == s.cache.Keys + {id}
    && (forall other :: other in s.cache && other != id ==> s'.cache[other] == s.cache[other])
    && s'.cache[id].expiresAt == s.now + s.ttl
    && id in s'.tenants && ShowsRow(s'.cache[id].value, id, s'.tenants[id])
  }

  /** Another tenant has the slug. */
  ghost predicate SlugElsewhere(s: State, slug: string, id: Id) {
    exists other :: other in s.tenants && other != id && s.tenants[other].slug == slug
  }

  /** A new tenant is active and has what was asked for; it is cached, its default roles are set
      going and its creation is published; all this unless its slug is taken. */
  lemma CreateMeans(s: State, p: CreatePayload, newId: Id)
    requires newId !in s.tenants
    ensures var (s', outcome) := Step(s, Create(p, newId));
            if exists id :: id in s.tenants && s.tenants[id].slug == p.slug then s' == s && outcome.SlugTaken?
            else
              && newId in s'.tenants && OnlyTenant(s, s', newId) && Files(s, s', newId)
              && s' == s.(tenants := s'.tenants, cache := s'.cache, started := s.started + [newId],
                          log := s.log + [CreatedEvent(newId, p.name, p.slug, s.now)])
              && outcome.Served? && ShowsRow(outcome.dto, newId, s'.tenants[newId])
              && var row := s'.tenants[newId];
                 && row.name == p.name && row.slug == p.slug && row.description == p.description
                 && row.website == p.website && row.logo == p.logo && row.status.Active?
                 && row.createdAt == s.now && row.updatedAt == s.now
  {
  }

  /** A read serves what is cached and live, otherwise the row, which it then files. */
  lemma FindMeans(s: State, id: Id)
    ensures var (s', outcome) := Step(s, FindById(id));
            var hit := id in s.cache && s.now < s.cache[id].expiresAt;
            && (hit ==> s' == s && outcome == Served(s.cache[id].value))
            && (!hit && id !in s.tenants ==> s' == s && outcome.NotFound?)
            && (!hit && id in s.tenants ==>
                  && outcome.Served? && ShowsRow(outcome.dto, id, s.tenants[id])
                  && s' == s.(cache := s'.cache) && Files(s, s', id))
  {
  }

  /** When an update goes through: the tenant is there, no other has the slug it gives, and name,
      slug and status are not null.  An empty slug already in use is caught by the table only. */
  lemma UpdateEnds(s: State, id: Id, p: UpdatePayload)
    requires UniqueSlugs(s.tenants)
    ensures var (s', outcome) := Step(s, Update(id, p));
            var elsewhere := p.slug.Given? && SlugElsewhere(s, p.slug.value, id);
            && (!outcome.Served? ==> s' == s)
            && (outcome.NotFound? <==> id !in s.tenants)
            && (outcome.SlugTaken? <==> id in s.tenants && elsewhere && p.slug.value != "")
            && (outcome.Served? <==>
                  id in s.tenants && !elsewhere && p.name != Null && p.slug != Null && p.status != Null)
            && (outcome.NotFound? || outcome.SlugTaken? || outcome.Served? || outcome.ConstraintViolation?)
  {
    if id in s.tenants && p.slug.Given? {
      assert SlugInUse(s.tenants, p.slug.value) <==>
             SlugElsewhere(s, p.slug.value, id) || s.tenants[id].slug == p.slug.value;
      if !SlugElsewhere(s, p.slug.value, id) {
        assert SlugFree(s.tenants, p.slug.value, id);
      }
    }
  }

  /** The row after an update that goes through, property by property: a value given is in it, a
      null empties a column that may be empty, and what is undefined or left out stays. */
  lemma UpdateWrites(s: State, id: Id, p: UpdatePayload)
    requires Step(s, Update(id, p)).1.Served?
    ensures var s' := Step(s, Update(id, p)).0;
            && id in s.tenants && id in s'.tenants && OnlyTenant(s, s', id)
            && s' == s.(tenants := s'.tenants, cache := s.cache - {id}, log := s'.log)
            && var row, row' := s.tenants[id], s'.tenants[id];
               && row'.name == (if p.name.Given? then p.name.value else row.name)
               && row'.slug == (if p.slug.Given? then p.slug.value else row.slug)
               && row'.status == (if p.status.Given? then p.status.value else row.status)
               && row'.description == (if p.description.Given? then Some(p.description.value)
                                       else if p.description.Null? then None else row.description)
               && row'.website == (if p.website.Given? then Some(p.website.value)
                                   else if p.website.Null? then None else row.website)
               && row'.logo == (if p.logo.Given? then Some(p.logo.value)
                                else if p.logo.Null? then None else row.logo)
               && row'.createdAt == row.createdAt
               && row'.updatedAt == (if row' == row then row.updatedAt else s.now)
               && (row' != row ==> row'.(updatedAt := row.updatedAt) != row)
  {
  }

  /** The answer and the event show a value given and a property left out as the row has it, and
      nothing for one that is undefined or null. */
  lemma UpdateShows(s: State, id: Id, p: UpdatePayload)
    requires Step(s, Update(id, p)).1.Served?
    ensures var (s', outcome) := Step(s, Update(id, p));
            var dto := outcome.dto;
            && id in s'.tenants
            && var row := s'.tenants[id];
               && dto.id == id && dto.createdAt == row.createdAt && dto.updatedAt == row.updatedAt
               && dto.name == (if p.name.Undefined? then None else Some(row.name))
               && dto.slug == (if p.slug.Undefined? then None else Some(row.slug))
               && dto.status == (if p.status.Undefined? then None else Some(row.status))
               && dto.description == (if p.description.Undefined? then None else row.description)
               && dto.website == (if p.website.Undefined? then None else row.website)
               && dto.logo == (if p.logo.Undefined? then None else row.logo)
               && s'.log == s.log + [UpdatedEvent(id, dto.name, dto.slug, row.updatedAt)]
  {
  }

  lemma DeleteMeans(s: State, id: Id)
    ensures var (s', outcome) := Step(s, Delete(id));
            if id !in s.tenants then s' == s && outcome.NotFound?
            else
              && outcome.Done? && id !in s'.tenants && OnlyTenant(s, s', id)
              && s' == s.(tenants := s'.tenants, cache := s.cache - {id}, log := s.log + [DeletedEvent(None, s.now)])
  {
  }
}
