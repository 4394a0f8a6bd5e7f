/** The tenants and their cached responses with the calls of the tenant service cut at every
    await and interleaved freely. */
module TenantConcurrent {
  import opened Prelude
  import opened Tenants
  import C = CacheAside

  /** What a writer publishes once the cache has been told. */
  datatype Note = Updated(event: LogEntry, dto: TenantDto) | Removed

  /** A call in progress: what it will do when it next gets to run, and what it has in hand.
      `since` notes when an answer was read, or its row inserted; `announces` is the row a
      create goes on to announce. */
  datatype Call =
    | Reading(id: Id)
    | Missed(id: Id)
    | Found(id: Id, dto: TenantDto, since: int, announces: Option<Tenant>)
    | CheckingSlug(payload: CreatePayload, newId: Id)
    | Inserting(payload: CreatePayload, newId: Id)
    | Announcing(id: Id, row: Tenant)
    | Loading(id: Id, patch: UpdatePayload)
    | CheckingNewSlug(id: Id, row: Tenant, patch: UpdatePayload)
    | Saving(id: Id, row: Tenant, entity: Entity)
    | LoadingToDelete(id: Id)
    | Removing(id: Id)
    | Invalidating(id: Id, note: Note)
    | Publishing(note: Note)
    | Ended(outcome: Outcome)

  type CallId = nat

  datatype Machine = Machine(base: Tenants.State, calls: map<CallId, Call>)

  /** `Other` is an entry vanishing or time passing. */
  datatype Move = Begin(c: CallId, call: Call) | Advance(c: CallId) | Other(op: Op)

  predicate IsEntryPoint(call: Call) {
    call.Reading? || call.CheckingSlug? || call.Loading? || call.LoadingToDelete?
  }

  predicate CanMove(m: Machine, move: Move) {
    match move
    case Begin(c, call) => c !in m.calls && IsEntryPoint(call)
    case Advance(c) =>
      c in m.calls && !m.calls[c].Ended? && (m.calls[c].Inserting? ==> m.calls[c].newId !in m.base.tenants)
    case Other(op) => op.Evict? || op.Tick?
  }

  // ----- The steps -----

  predicate ChecksSlug(row: Tenant, patch: UpdatePayload) {
    patch.slug.Given? && patch.slug.value != "" && patch.slug.value != row.slug
  }

  /** The row a save writes: the columns of the entity that are not undefined over what is in
      the table, or, if the row was deleted meanwhile, a new row from the entity. */
  function RowToSave(b: Tenants.State, id: Id, row: Tenant, e: Entity): Option<Tenant> {
    if BreaksNotNull(e) then None
    else if id in b.tenants then Some(SavedRow(b.tenants[id], e, b.now))
    else if !e.name.Given? || !e.slug.Given? then None
    else
      Some(Tenant(e.name.value, e.slug.value, Shown(e.description), Shown(e.status).GetOr(Active),
                  Shown(e.website), Shown(e.logo), row.createdAt, b.now))
  }

  predicate SaveAccepted(b: Tenants.State, id: Id, row: Tenant, e: Entity) {
    RowToSave(b, id, row, e).Some? && SlugFree(b.tenants, RowToSave(b, id, row, e).value.slug, id)
  }

  /** What a call has in hand after its next step. */
  function NextCall(b: Tenants.State, call: Call): Call {
    match call
    case Reading(id) =>
      (match Lookup(b.cache, id, b.now) case Some(dto) => Ended(Served(dto)) case None => Missed(id))
    case Missed(id) =>
      if id !in b.tenants then Ended(NotFound) else Found(id, FormatResponse(id, b.tenants[id]), b.now, None)
    case Found(id, dto, _, announces) => if announces.Some? then Announcing(id, announces.value) else Ended(Served(dto))
    case CheckingSlug(p, newId) => if SlugInUse(b.tenants, p.slug) then Ended(SlugTaken) else Inserting(p, newId)
    case Inserting(p, newId) =>
      if SlugInUse(b.tenants, p.slug) then Ended(ConstraintViolation)
      else Found(newId, FormatResponse(newId, NewRow(p, b.now)), b.now, Some(NewRow(p, b.now)))
    case Announcing(id, row) => Ended(Served(FormatResponse(id, row)))
    case Loading(id, p) =>
      if id !in b.tenants then Ended(NotFound)
      else if ChecksSlug(b.tenants[id], p) then CheckingNewSlug(id, b.tenants[id], p)
      else Saving(id, b.tenants[id], Assign(b.tenants[id], p))
    case CheckingNewSlug(id, row, p) =>
      if p.slug.Given? && SlugInUse(b.tenants, p.slug.value) then Ended(SlugTaken) else Saving(id, row, Assign(row, p))
    case Saving(id, row, e) =>
      if !SaveAccepted(b, id, row, e) then Ended(ConstraintViolation)
      else
        var saved := RowToSave(b, id, row, e).value;
        Invalidating(id, Updated(UpdatedEvent(id, Shown(e.name), Shown(e.slug), saved.updatedAt),
                                 FormatEntity(id, e, saved)))
    case LoadingToDelete(id) => if id in b.tenants then Removing(id) else Ended(NotFound)
    case Removing(id) => Invalidating(id, Removed)
    case Invalidating(_, note) => Publishing(note)
    case Publishing(note) => Ended(if note.Updated? then Served(note.dto) else Done)
    case Ended(_) => call
  }

  /** What its next step does to the table, the cache and the log. */
  function NextBase(b: Tenants.State, call: Call): Tenants.State {
    match call
    case Found(id, dto, _, _) => b.(cache := b.cache[id := Entry(dto, b.now + b.ttl)])
    case Inserting(p, newId) =>
      if SlugInUse(b.tenants, p.slug) then b else b.(tenants := b.tenants[newId := NewRow(p, b.now)])
    case Announcing(id, row) =>
      b.(started := b.started + [id], log := b.log + [CreatedEvent(id, row.name, row.slug, row.createdAt)])
    case Saving(id, row, e) =>
      if SaveAccepted(b, id, row, e) then b.(tenants := b.tenants[id := RowToSave(b, id, row, e).value]) else b
    case Removing(id) => b.(tenants := b.tenants - {id})
    case Invalidating(id, _) => b.(cache := b.cache - {id})
    case Publishing(note) => b.(log := b.log + [if note.Updated? then note.event else DeletedEvent(None, b.now)])
    case _ => b
  }

  ghost function After(m: Machine, move: Move): Machine
    requires CanMove(m, move)
  {
    match move
    case Begin(c, call) => m.(calls := m.calls[c := call])
    case Advance(c) => Machine(NextBase(m.base, m.calls[c]), m.calls[c := NextCall(m.base, m.calls[c])])
    case Other(op) => m.(base := Tenants.Step(m.base, op).0)
  }

  /** A run: move `i` leads from machine `i` to machine `i + 1`. */
  datatype Trace = Trace(machines: seq<Machine>, moves: seq<Move>)

  ghost predicate MoveAt(r: Trace, i: int) {
    0 <= i < |r.moves| < |r.machines| ==>
      CanMove(r.machines[i], r.moves[i]) && r.machines[i + 1] == After(r.machines[i], r.moves[i])
  }

  ghost predicate Valid(r: Trace) {
    && |r.machines| == |r.moves| + 1
    && r.machines[0].base.cache == map[] && r.machines[0].calls == map[]
    && forall i :: MoveAt(r, i)
  }

  // ----- The cache seen from outside -----

  ghost function ViewOf(m: Machine): C.View<Id, TenantDto> {
    C.View(map id | id in m.base.tenants :: FormatResponse(id, m.base.tenants[id]),
           m.base.cache,
           map c | c in m.calls && m.calls[c].Found? :: C.Hand(m.calls[c].id, m.calls[c].dto, m.calls[c].since),
           m.base.now)
  }

  ghost function Views(r: Trace): (vs: seq<C.View<Id, TenantDto>>)
    ensures |vs| == |r.machines| && forall i :: 0 <= i < |vs| ==> vs[i] == ViewOf(r.machines[i])
  {
    seq(|r.machines|, i requires 0 <= i < |r.machines| => ViewOf(r.machines[i]))
  }

  lemma StoreMoves(m: Machine, c: CallId)
    requires CanMove(m, Advance(c)) && m.calls[c].Found?
    ensures C.Moves(ViewOf(m), ViewOf(After(m, Advance(c))), m.base.ttl)
  {
    var v, v' := ViewOf(m), ViewOf(After(m, Advance(c)));
    assert c in v.hands && v.hands[c].key == m.calls[c].id;
    forall k | k in v'.cache && !(k in v.cache && v'.cache[k] == v.cache[k])
      ensures C.StoredFrom(v, v', k, m.base.ttl)
    {
      assert v.hands[c].key == k;
    }
  }

  lemma AdvanceMoves(m: Machine, c: CallId)
    requires CanMove(m, Advance(c)) && !m.calls[c].Found?
    ensures C.Moves(ViewOf(m), ViewOf(After(m, Advance(c))), m.base.ttl)
  {
    var m' := After(m, Advance(c));
    var v, v' := ViewOf(m), ViewOf(m');
    if m'.calls[c].Found? {
      assert C.Takes(v, v', v'.hands[c]);
    }
  }

  lemma StepMoves(m: Machine, move: Move)
    requires CanMove(m, move)
    ensures C.Moves(ViewOf(m), ViewOf(After(m, move)), m.base.ttl) && After(m, move).base.ttl == m.base.ttl
  {
    match move
    case Begin(_, _) =>
    case Advance(c) =>
      if m.calls[c].Found? {
        StoreMoves(m, c);
      } else {
        AdvanceMoves(m, c);
      }
    case Other(_) =>
  }

  lemma {:induction false} SameLifetime(r: Trace, i: nat)
    requires Valid(r) && i < |r.machines|
    ensures r.machines[i].base.ttl == r.machines[0].base.ttl
  {
    if i > 0 {
      SameLifetime(r, i - 1);
      assert MoveAt(r, i - 1);
      StepMoves(r.machines[i - 1], r.moves[i - 1]);
    }
  }

  lemma ViewsChain(r: Trace)
    requires Valid(r)
    ensures C.Chain(Views(r), r.machines[0].base.ttl)
  {
    var vs, ttl := Views(r), r.machines[0].base.ttl;
    forall i
      ensures C.MovesAt(vs, i, ttl)
    {
      if 0 <= i < |vs| - 1 {
        assert MoveAt(r, i);
        SameLifetime(r, i);
        StepMoves(r.machines[i], r.moves[i]);
      }
    }
  }

  // ----- How old an answer can be -----

  /** Move `i` lets call `c` return the response. */
  ghost predicate Serves(r: Trace, i: int, c: CallId, dto: TenantDto) {
    && 0 <= i < |r.moves| < |r.machines|
    && r.moves[i] == Advance(c) && c in r.machines[i].calls && c in r.machines[i + 1].calls
    && (r.machines[i].calls[c].Reading? || r.machines[i].calls[c].Found?)
    && r.machines[i + 1].calls[c] == Ended(Served(dto))
  }

  ghost predicate IsHit(r: Trace, i: int, c: CallId) {
    0 <= i < |r.machines| && c in r.machines[i].calls && r.machines[i].calls[c].Reading?
  }

  /** In machine `j` the response was that of the row of tenant `id`. */
  ghost predicate RowAt(r: Trace, j: int, id: Id, dto: TenantDto) {
    0 <= j < |r.machines| && id in r.machines[j].base.tenants &&
    FormatResponse(id, r.machines[j].base.tenants[id]) == dto
  }

  lemma RowAtIsTrueAt(r: Trace, j: int, id: Id, dto: TenantDto)
    ensures RowAt(r, j, id, dto) <==> C.TrueAt(Views(r), j, id, dto)
  {
  }

  /** Whatever the interleaving: what is served is the tenant asked for as its row was in some
      machine before; and a hit was stored less than one lifetime ago. */
  lemma ServedWasRow(r: Trace, i: nat, c: CallId, dto: TenantDto) returns (j: nat)
    requires Valid(r) && Serves(r, i, c, dto)
    ensures r.machines[i].calls[c].id == dto.id && j <= i && RowAt(r, j, dto.id, dto)
    ensures IsHit(r, i, c) ==> exists s :: StoredWithin(r, j, s, i, dto)
  {
    var vs, ttl := Views(r), r.machines[0].base.ttl;
    ViewsChain(r);
    assert MoveAt(r, i);
    var call := r.machines[i].calls[c];
    if call.Reading? {
      var s;
      j, s := C.FoundWasTrue(vs, ttl, i, call.id);
      RowAtIsTrueAt(r, j, call.id, dto);
      assert StoredWithin(r, j, s, i, dto);
    } else {
      C.AllExplained(vs, ttl, i);
      assert c in vs[i].hands;
      j :| C.HandFrom(vs, i, vs[i].hands[c], j);
      RowAtIsTrueAt(r, j, call.id, dto);
    }
  }

  /** In machine `s` a call holds the response as true in `j`, less than one lifetime before `i`. */
  ghost predicate StoredWithin(r: Trace, j: int, s: int, i: int, dto: TenantDto) {
    && 0 <= j <= s < i < |r.machines|
    && r.machines[i].base.now - r.machines[s].base.now < r.machines[0].base.ttl
    && C.HeldAt(Views(r), s, dto.id, dto, r.machines[j].base.now)
  }

  /** No call takes longer than `d` between reading or inserting a row and storing it. */
  ghost predicate Prompt(r: Trace, d: nat) {
    forall s, id, dto, since :: C.HeldAt(Views(r), s, id, dto, since) ==> r.machines[s].base.now - since <= d
  }

  /** A change shows at the latest one lifetime and that delay after it, with or without
      invalidation: a hit shows a row less old than that. */
  lemma ChangesShow(r: Trace, d: nat, i: nat, c: CallId, dto: TenantDto) returns (j: nat)
    requires Valid(r) && Prompt(r, d) && Serves(r, i, c, dto) && IsHit(r, i, c)
    ensures j <= i && RowAt(r, j, dto.id, dto)
    ensures r.machines[i].base.now - r.machines[j].base.now < r.machines[0].base.ttl + d
  {
    j := ServedWasRow(r, i, c, dto);
    var s :| StoredWithin(r, j, s, i, dto);
  }

  // ----- Exactly when an old response can still be served -----

  ghost predicate Extends(r': Trace, r: Trace) {
    Valid(r') && r.machines <= r'.machines && r.moves <= r'.moves
  }

  /** Move `i` serves from the cache a response of `id` that was the row in no machine from `n0` on. */
  ghost predicate OldHit(r: Trace, n0: int, i: int, id: Id) {
    exists c, dto :: Serves(r, i, c, dto) && IsHit(r, i, c) && dto.id == id && !C.TrueWithin(Views(r), n0, i, id, dto)
  }

  lemma HitIsEntry(r: Trace, i: nat, c: CallId, dto: TenantDto)
    requires Valid(r) && Serves(r, i, c, dto) && IsHit(r, i, c)
    ensures var b := r.machines[i].base; Lookup(b.cache, dto.id, b.now) == Some(dto)
  {
    assert MoveAt(r, i);
    var j := ServedWasRow(r, i, c, dto);
  }

  lemma NothingOldServed(r: Trace, n0: nat, n: nat, i: nat, id: Id)
    requires Valid(r) && n0 <= n <= i < |r.moves| && !C.OldInReach(Views(r), n0, n, id, r.machines[0].base.ttl)
    ensures !OldHit(r, n0, i, id)
  {
    if OldHit(r, n0, i, id) {
      var c, dto :| Serves(r, i, c, dto) && IsHit(r, i, c) && dto.id == id && !C.TrueWithin(Views(r), n0, i, id, dto);
      ViewsChain(r);
      HitIsEntry(r, i, c, dto);
      C.NothingOldFound(Views(r), r.machines[0].base.ttl, n0, n, i, id);
      assert false;
    }
  }

  function Extend(r: Trace, move: Move, m: Machine): Trace {
    Trace(r.machines + [m], r.moves + [move])
  }

  lemma RunOn(r: Trace, move: Move) returns (r': Trace)
    requires Valid(r) && CanMove(r.machines[|r.moves|], move)
    ensures Extends(r', r) && |r'.moves| == |r.moves| + 1 && r'.moves[|r.moves|] == move
    ensures r'.machines[|r'.moves|] == After(r.machines[|r.moves|], move)
  {
    r' := Extend(r, move, After(r.machines[|r.moves|], move));
    forall i
      ensures MoveAt(r', i)
    {
      assert MoveAt(r, i);
    }
  }

  lemma ViewsPrefix(r': Trace, r: Trace)
    requires Extends(r', r)
    ensures Views(r) <= Views(r')
  {
    assert forall i :: 0 <= i < |r.machines| ==> r'.machines[i] == r.machines[i];
  }

  /** While the row stays as it is no response becomes true. */
  lemma SameRowSameTruth(r: Trace, n0: int, n: nat, id: Id, dto: TenantDto)
    requires n + 1 < |r.machines| && n0 <= n
    requires r.machines[n + 1].base.tenants == r.machines[n].base.tenants
    ensures C.TrueWithin(Views(r), n0, n + 1, id, dto) <==> C.TrueWithin(Views(r), n0, n, id, dto)
  {
    var vs := Views(r);
    assert C.TrueAt(vs, n + 1, id, dto) <==> C.TrueAt(vs, n, id, dto);
    if C.TrueWithin(vs, n0, n, id, dto) {
      C.TrueLater(vs, n0, n, id, dto);
    }
  }

  /** A live entry is served to the next reader. */
  lemma EntryServed(r: Trace, n0: nat, id: Id) returns (r': Trace)
    requires Valid(r) && n0 <= |r.moves| && C.OldEntry(Views(r), n0, |r.moves|, id)
    ensures Extends(r', r) && |r.moves| + 1 < |r'.moves| && OldHit(r', n0, |r.moves| + 1, id)
  {
    var n, m := |r.moves|, r.machines[|r.moves|];
    var dto := m.base.cache[id].value;
    ViewsChain(r);
    var j, s := C.FoundWasTrue(Views(r), r.machines[0].base.ttl, n, id);
    assert dto.id == id;
    var c := NumberAbove(m.calls.Keys);
    var r1 := RunOn(r, Begin(c, Reading(id)));
    r' := RunOn(r1, Advance(c));
    assert r'.machines[n] == r1.machines[n] == m && r'.machines[n + 1] == r1.machines[n + 1];
    assert Serves(r', n + 1, c, dto) && IsHit(r', n + 1, c);
    ViewsPrefix(r', r);
    C.WithinPrefix(Views(r), Views(r'), n0, n, id, dto);
    SameRowSameTruth(r', n0, n, id, dto);
  }

  /** A call with a response in hand stores it, however old it is. */
  lemma HandStored(r: Trace, n0: nat, c: CallId, id: Id) returns (r': Trace)
    requires Valid(r) && n0 <= |r.moves| && C.OldHand(Views(r), n0, |r.moves|, c, id) && r.machines[0].base.ttl > 0
    ensures Extends(r', r) && |r'.moves| == |r.moves| + 1 && C.OldEntry(Views(r'), n0, |r'.moves|, id)
  {
    var n, m := |r.moves|, r.machines[|r.moves|];
    SameLifetime(r, n);
    r' := RunOn(r, Advance(c));
    assert r'.machines[n] == m;
    ViewsPrefix(r', r);
    var dto := m.calls[c].dto;
    C.WithinPrefix(Views(r), Views(r'), n0, n, id, dto);
    SameRowSameTruth(r', n0, n, id, dto);
  }

  lemma HandServed(r: Trace, n0: nat, c: CallId, id: Id) returns (r': Trace)
    requires Valid(r) && n0 <= |r.moves| && C.OldHand(Views(r), n0, |r.moves|, c, id) && r.machines[0].base.ttl > 0
    ensures Extends(r', r) && |r.moves| + 2 < |r'.moves| && OldHit(r', n0, |r.moves| + 2, id)
  {
    var r1 := HandStored(r, n0, c, id);
    r' := EntryServed(r1, n0, id);
  }

  /** Exactly when can a response that has not been the row since machine `n0` still be served
      from the cache?  If a live entry holds one, or a call has one in hand and entries live
      at all. */
  lemma OldHitIff(r: Trace, n0: nat, id: Id)
    requires Valid(r) && n0 <= |r.moves|
    ensures (exists r', i :: Extends(r', r) && |r.moves| <= i < |r'.moves| && OldHit(r', n0, i, id)) <==>
            C.OldInReach(Views(r), n0, |r.moves|, id, r.machines[0].base.ttl)
  {
    var n, ttl := |r.moves|, r.machines[0].base.ttl;
    if C.OldEntry(Views(r), n0, n, id) {
      var r' := EntryServed(r, n0, id);
      assert OldHit(r', n0, n + 1, id);
    } else if ttl > 0 && exists c :: C.OldHand(Views(r), n0, n, c, id) {
      var c :| C.OldHand(Views(r), n0, n, c, id);
      var r' := HandServed(r, n0, c, id);
      assert OldHit(r', n0, n + 2, id);
    } else {
      forall r', i | Extends(r', r) && n <= i < |r'.moves|
        ensures !OldHit(r', n0, i, id)
      {
        ViewsPrefix(r', r);
        C.OutOfReachPrefix(Views(r), Views(r'), n0, n, id, ttl);
        assert r'.machines[0] == r.machines[0];
        NothingOldServed(r', n0, n, i, id);
      }
    }
  }

  /** The tenant has been gone since machine `n0`. */
  ghost predicate GoneSince(r: Trace, n0: int, n: int, id: Id) {
    forall j :: n0 <= j <= n && 0 <= j < |r.machines| ==> id !in r.machines[j].base.tenants
  }

  /** Exactly when can a deleted tenant still be served?  If an entry is live, whatever is in it,
      or any call has the response in hand and entries live at all. */
  lemma GoneServedIff(r: Trace, n0: nat, id: Id)
    requires Valid(r) && n0 <= |r.moves| && GoneSince(r, n0, |r.moves|, id)
    ensures var m := r.machines[|r.moves|];
            (exists r', i :: Extends(r', r) && |r.moves| <= i < |r'.moves| && OldHit(r', n0, i, id)) <==>
            Lookup(m.base.cache, id, m.base.now).Some? ||
            (m.base.ttl > 0 && exists c :: c in m.calls && m.calls[c].Found? && m.calls[c].id == id)
  {
    OldHitIff(r, n0, id);
    var n, m, vs := |r.moves|, r.machines[|r.moves|], Views(r);
    SameLifetime(r, n);
    forall dto
      ensures !C.TrueWithin(vs, n0, n, id, dto)
    {
      forall j | n0 <= j <= n
        ensures !C.TrueAt(vs, j, id, dto)
      {
        assert id !in r.machines[j].base.tenants;
      }
    }
    forall c
      ensures C.OldHand(vs, n0, n, c, id) <==> c in m.calls && m.calls[c].Found? && m.calls[c].id == id
    {
    }
  }
}
