/** The users and their cached profiles with the calls of the five services that write rows cut
    at every await and interleaved freely. */
module UserConcurrent {
  import opened Prelude
  import opened Identity
  import C = CacheAside

  /** How a call names the user it loads. */
  datatype Who = ById(userId: Id) | ByEmail(email: string)

  /** The calls that load a row, change it in memory and save it. */
  datatype Change =
    | Patching(name: Option<string>, status: Option<Status>)
    | Renaming(name: Option<string>)
    | LoggingIn(password: string)
    | ChangingPassword(current: string, next: string)

  /** A call in progress: what it will do when it next gets to run, and what it has in hand.
      `since` notes when an answer was read, or its row inserted. */
  datatype Call =
    | Reading(tenantId: Id, userId: Id)
    | Missed(tenantId: Id, userId: Id)
    | Found(tenantId: Id, userId: Id, dto: UserDto, since: int, created: bool)
    | CheckingTenant(op: Op)
    | CheckingEmail(op: Op)
    | Inserting(op: Op)
    | Loading(tenantId: Id, who: Who, change: Change)
    | Comparing(userId: Id, row: User, change: Change)
    | Saving(userId: Id, row: User, change: Change)
    | LoadingToDelete(tenantId: Id, userId: Id)
    | Invalidating(userId: Id, deletes: bool)
    | Deleting(userId: Id)
    | Ended(outcome: Outcome)
    | Threw

  type CallId = nat

  datatype Machine = Machine(base: Identity.State, calls: map<CallId, Call>)

  /** `Other` is a whole call of another service, an entry vanishing, or time passing. */
  datatype Move = Begin(c: CallId, call: Call) | Advance(c: CallId) | Other(op: Op)

  predicate IsEntryPoint(call: Call) {
    call.Reading? || (call.CheckingTenant? && call.op.CreateUser?) || call.Loading? || call.LoadingToDelete?
  }

  predicate IsElsewhere(op: Op) {
    op.NewTenant? || op.DropTenant? || op.Register? || op.RequestReset? || op.ResetPassword? || op.Evict? || op.Tick?
  }

  predicate CanMove(m: Machine, move: Move) {
    match move
    case Begin(c, call) => c !in m.calls && IsEntryPoint(call)
    case Advance(c) =>
      c in m.calls && !m.calls[c].Ended? && !m.calls[c].Threw? &&
      (m.calls[c].Inserting? ==> m.calls[c].op.CreateUser? && m.calls[c].op.newId !in m.base.issued)
    case Other(op) => IsElsewhere(op) && Identity.Enabled(m.base, op)
  }

  // ----- The steps -----

  predicate IsThere(b: Identity.State, t: Id, who: Who) {
    match who
    case ById(u) => Has(b.users, t, u)
    case ByEmail(email) => Known(b.users, t, email)
  }

  ghost function IdFor(b: Identity.State, t: Id, who: Who): Id
    requires IsThere(b, t, who)
  {
    match who
    case ById(u) => u
    case ByEmail(email) => IdOf(b.users, t, email)
  }

  function Changed(row: User, change: Change, now: int): User {
    match change
    case Patching(name, status) => row.(name := name.GetOr(row.name), status := status.GetOr(row.status))
    case Renaming(name) => row.(name := name.GetOr(row.name))
    case LoggingIn(_) => row.(lastLoginAt := Some(now))
    case ChangingPassword(_, next) => row.(passwordHash := Bcrypt(next))
  }

  /** What turns a caller with the loaded row away. */
  function Refusal(row: User, change: Change): Option<Outcome> {
    match change
    case LoggingIn(password) =>
      if !row.passwordHash.Accepts(password) then Some(Refused)
      else if !MayLogIn(row.status) then Some(UserInactive) else None
    case ChangingPassword(current, _) => if !row.passwordHash.Accepts(current) then Some(Refused) else None
    case _ => None
  }

  /** The save writes the whole row from memory unless a constraint refuses it; a row deleted
      meanwhile is inserted again. */
  predicate SaveAccepted(b: Identity.State, u: Id, row: User) {
    row.tenantId in b.tenants &&
    forall v :: v in b.users && v != u ==> !(b.users[v].tenantId == row.tenantId && b.users[v].email == row.email)
  }

  function SaveRow(b: Identity.State, u: Id, row: User): Identity.State {
    if u in b.users && b.users[u] == row then b else b.(users := b.users[u := row.(updatedAt := b.now)])
  }

  function RemoveRow(b: Identity.State, u: Id): Identity.State {
    b.(users := b.users - {u}, tokens := map k | k in b.tokens && b.tokens[k].userId != u :: b.tokens[k])
  }

  /** What a call has in hand after its next step. */
  ghost function NextCall(b: Identity.State, call: Call): Call {
    match call
    case Reading(t, u) =>
      var cached := Lookup(b.cache, u, b.now);
      if cached.Some? && cached.value.tenantId == t then Ended(Read(cached.value)) else Missed(t, u)
    case Missed(t, u) =>
      if !Has(b.users, t, u) then Ended(NotFound) else Found(t, u, FormatResponse(u, b.users[u]), b.now, false)
    case Found(_, u, dto, _, created) => Ended(if created then Created(u) else Read(dto))
    case CheckingTenant(op) =>
      if op.CreateUser? && op.tenantId in b.tenants then CheckingEmail(op) else Ended(TenantMissing)
    case CheckingEmail(op) =>
      if op.CreateUser? && !Known(b.users, op.tenantId, op.email) then Inserting(op) else Ended(EmailTaken)
    case Inserting(op) =>
      if op.CreateUser? && Insert(b, op, Active).1.Created? then
        Found(op.tenantId, op.newId, FormatResponse(op.newId, NewUser(op, Active, b.now)), b.now, true)
      else Threw
    case Loading(t, who, change) =>
      if !IsThere(b, t, who) then Ended(if change.LoggingIn? then Refused else NotFound)
      else
        var u := IdFor(b, t, who);
        if change.Patching? || change.Renaming? then Saving(u, Changed(b.users[u], change, b.now), change)
        else Comparing(u, b.users[u], change)
    case Comparing(u, row, change) =>
      if Refusal(row, change).Some? then Ended(Refusal(row, change).value)
      else Saving(u, Changed(row, change, b.now), change)
    case Saving(u, row, change) =>
      if !SaveAccepted(b, u, row) then Threw
      else if change.Patching? then Invalidating(u, false)
      else Ended(if change.LoggingIn? then LoggedIn(u) else Done)
    case LoadingToDelete(t, u) => if Has(b.users, t, u) then Invalidating(u, true) else Ended(NotFound)
    case Invalidating(u, deletes) => if deletes then Deleting(u) else Ended(Done)
    case Deleting(_) => Ended(Done)
    case _ => call
  }

  /** What its next step does to the tables and the cache. */
  ghost function NextBase(b: Identity.State, call: Call): Identity.State {
    match call
    case Found(_, u, dto, _, _) => b.(cache := b.cache[u := Entry(dto, b.now + b.ttl)])
    case Inserting(op) => if op.CreateUser? then Insert(b, op, Active).0 else b
    case Saving(u, row, _) => if SaveAccepted(b, u, row) then SaveRow(b, u, row) else b
    case Invalidating(u, _) => b.(cache := b.cache - {u})
    case Deleting(u) => RemoveRow(b, u)
    case _ => b
  }

  ghost function After(m: Machine, move: Move): Machine
    requires CanMove(m, move)
  {
    match move
    case Begin(c, call) => m.(calls := m.calls[c := call])
    case Advance(c) => Machine(NextBase(m.base, m.calls[c]), m.calls[c := NextCall(m.base, m.calls[c])])
    case Other(op) => m.(base := Identity.Step(m.base, op).0)
  }

  /** A run: move `i` leads from machine `i` to machine `i + 1`. */
  datatype Run = Run(machines: seq<Machine>, moves: seq<Move>)

  ghost predicate MoveAt(r: Run, i: int) {
    0 <= i < |r.moves| < |r.machines| ==>
      CanMove(r.machines[i], r.moves[i]) && r.machines[i + 1] == After(r.machines[i], r.moves[i])
  }

  ghost predicate ValidRun(r: Run) {
    && |r.machines| == |r.moves| + 1
    && r.machines[0].base.cache == map[] && r.machines[0].calls == map[]
    && forall i :: MoveAt(r, i)
  }

  // ----- The cache seen from outside -----

  ghost function ViewOf(m: Machine): C.View<Id, UserDto> {
    C.View(map u | u in m.base.users :: FormatResponse(u, m.base.users[u]),
           m.base.cache,
           map c | c in m.calls && m.calls[c].Found? :: C.Hand(m.calls[c].userId, m.calls[c].dto, m.calls[c].since),
           m.base.now)
  }

  ghost function Views(r: Run): (vs: seq<C.View<Id, UserDto>>)
    ensures |vs| == |r.machines| && forall i :: 0 <= i < |vs| ==> vs[i] == ViewOf(r.machines[i])
  {
    seq(|r.machines|, i requires 0 <= i < |r.machines| => ViewOf(r.machines[i]))
  }

  lemma OtherMoves(m: Machine, op: Op)
    requires CanMove(m, Other(op))
    ensures C.Moves(ViewOf(m), ViewOf(After(m, Other(op))), m.base.ttl) && After(m, Other(op)).base.ttl == m.base.ttl
  {
  }

  lemma StoreMoves(m: Machine, c: CallId)
    requires CanMove(m, Advance(c)) && m.calls[c].Found?
    ensures C.Moves(ViewOf(m), ViewOf(After(m, Advance(c))), m.base.ttl)
  {
    var v, v' := ViewOf(m), ViewOf(After(m, Advance(c)));
    assert c in v.hands && v.hands[c].key == m.calls[c].userId;
    forall k | k in v'.cache && !(k in v.cache && v'.cache[k] == v.cache[k])
      ensures C.StoredFrom(v, v', k, m.base.ttl)
    {
      assert v.hands[c].key == k;
    }
  }

  lemma InsertMoves(m: Machine, c: CallId)
    requires CanMove(m, Advance(c)) && m.calls[c].Inserting?
    ensures C.Moves(ViewOf(m), ViewOf(After(m, Advance(c))), m.base.ttl)
  {
    var m' := After(m, Advance(c));
    var v, v' := ViewOf(m), ViewOf(m');
    if m'.calls[c].Found? {
      assert C.Takes(v, v', v'.hands[c]);
    }
  }

  lemma AdvanceMoves(m: Machine, c: CallId)
    requires CanMove(m, Advance(c)) && !m.calls[c].Found? && !m.calls[c].Inserting?
    ensures C.Moves(ViewOf(m), ViewOf(After(m, Advance(c))), m.base.ttl)
  {
    var m' := After(m, Advance(c));
    var v, v' := ViewOf(m), ViewOf(m');
    if m'.calls[c].Found? {
      assert C.Takes(v, v', v'.hands[c]);
    }
  }

  lemma BeginMoves(m: Machine, c: CallId, call: Call)
    requires CanMove(m, Begin(c, call))
    ensures C.Moves(ViewOf(m), ViewOf(After(m, Begin(c, call))), m.base.ttl)
  {
  }

  lemma StepMoves(m: Machine, move: Move)
    requires CanMove(m, move)
    ensures C.Moves(ViewOf(m), ViewOf(After(m, move)), m.base.ttl) && After(m, move).base.ttl == m.base.ttl
  {
    match move
    case Begin(c, call) => BeginMoves(m, c, call);
    case Advance(c) =>
      if m.calls[c].Found? {
        StoreMoves(m, c);
      } else if m.calls[c].Inserting? {
        InsertMoves(m, c);
      } else {
        AdvanceMoves(m, c);
      }
    case Other(op) => OtherMoves(m, op);
  }

  lemma {:induction false} SameLifetime(r: Run, i: nat)
    requires ValidRun(r) && i < |r.machines|
    ensures r.machines[i].base.ttl == r.machines[0].base.ttl
  {
    if i > 0 {
      SameLifetime(r, i - 1);
      assert MoveAt(r, i - 1);
      StepMoves(r.machines[i - 1], r.moves[i - 1]);
    }
  }

  lemma ViewsChain(r: Run)
    requires ValidRun(r)
    ensures C.Chain(Views(r), r.machines[0].base.ttl)
  {
    var vs, ttl := Views(r), r.machines[0].base.ttl;
    forall i
      ensures C.MovesAt(vs, i, ttl)
    {
      if 0 <= i < |vs| - 1 {
        assert MoveAt(r, i);
        SameLifetime(r, i);
        StepMoves(r.machines[i], r.moves[i]);
      }
    }
  }

  // ----- How old an answer can be -----

  /** Move `i` lets call `c` return the profile. */
  ghost predicate Serves(r: Run, i: int, c: CallId, dto: UserDto) {
    && 0 <= i < |r.moves| < |r.machines|
    && r.moves[i] == Advance(c) && c in r.machines[i].calls && c in r.machines[i + 1].calls
    && !r.machines[i].calls[c].Ended? && r.machines[i + 1].calls[c] == Ended(Read(dto))
  }

  ghost predicate IsHit(r: Run, i: int, c: CallId) {
    0 <= i < |r.machines| && c in r.machines[i].calls && r.machines[i].calls[c].Reading?
  }

  /** In machine `j` the profile was that of the row of user `u`. */
  ghost predicate RowAt(r: Run, j: int, u: Id, dto: UserDto) {
    0 <= j < |r.machines| && u in r.machines[j].base.users && FormatResponse(u, r.machines[j].base.users[u]) == dto
  }

  lemma RowAtIsTrueAt(r: Run, j: int, u: Id, dto: UserDto)
    ensures RowAt(r, j, u, dto) <==> C.TrueAt(Views(r), j, u, dto)
  {
  }

  lemma NewlyFound(m: Machine, move: Move, c: CallId)
    requires CanMove(m, move) && c in After(m, move).calls && After(m, move).calls[c].Found?
    ensures c in m.calls
    ensures var call := After(m, move).calls[c];
            m.calls[c] == call || call.dto.tenantId == call.tenantId
  {
  }

  lemma {:induction false} FoundFits(r: Run, i: nat, c: CallId)
    requires ValidRun(r) && i < |r.machines| && c in r.machines[i].calls && r.machines[i].calls[c].Found?
    ensures r.machines[i].calls[c].dto.tenantId == r.machines[i].calls[c].tenantId
  {
    assert i > 0;
    assert MoveAt(r, i - 1);
    NewlyFound(r.machines[i - 1], r.moves[i - 1], c);
    if r.machines[i - 1].calls[c] == r.machines[i].calls[c] {
      FoundFits(r, i - 1, c);
    }
  }

  /** The user and tenant a reader asked for. */
  ghost predicate AskedFor(call: Call, t: Id, u: Id) {
    (call.Reading? || call.Found?) && call.tenantId == t && call.userId == u
  }

  /** Whatever the interleaving: a profile served is that of the user asked for, in the tenant
      asked for, as its row was in some machine before; and a hit was stored less than one
      lifetime ago. */
  lemma ServedWasRow(r: Run, i: nat, c: CallId, dto: UserDto) returns (j: nat)
    requires ValidRun(r) && Serves(r, i, c, dto)
    ensures AskedFor(r.machines[i].calls[c], dto.tenantId, dto.id) && j <= i && RowAt(r, j, dto.id, dto)
    ensures IsHit(r, i, c) ==> exists s :: StoredWithin(r, j, s, i, dto)
  {
    var vs, ttl := Views(r), r.machines[0].base.ttl;
    ViewsChain(r);
    assert MoveAt(r, i);
    var call := r.machines[i].calls[c];
    if call.Reading? {
      var s;
      j, s := C.FoundWasTrue(vs, ttl, i, call.userId);
      RowAtIsTrueAt(r, j, call.userId, dto);
      assert StoredWithin(r, j, s, i, dto);
    } else {
      C.AllExplained(vs, ttl, i);
      assert c in vs[i].hands;
      j :| C.HandFrom(vs, i, vs[i].hands[c], j);
      RowAtIsTrueAt(r, j, call.userId, dto);
      FoundFits(r, i, c);
    }
  }

  /** In machine `s` a call holds the profile as true in `j`, less than one lifetime before `i`. */
  ghost predicate StoredWithin(r: Run, j: int, s: int, i: int, dto: UserDto) {
    && 0 <= j <= s < i < |r.machines|
    && r.machines[i].base.now - r.machines[s].base.now < r.machines[0].base.ttl
    && C.HeldAt(Views(r), s, dto.id, dto, r.machines[j].base.now)
  }

  /** No call takes longer than `d` between reading or inserting a row and storing it. */
  ghost predicate Prompt(r: Run, d: nat) {
    forall s, u, dto, since :: C.HeldAt(Views(r), s, u, dto, since) ==> r.machines[s].base.now - since <= d
  }

  /** A change shows at the latest one lifetime and that delay after it, with or without
      invalidation: a hit shows a row less old than that. */
  lemma ChangesShow(r: Run, d: nat, i: nat, c: CallId, dto: UserDto) returns (j: nat)
    requires ValidRun(r) && Prompt(r, d) && Serves(r, i, c, dto) && IsHit(r, i, c)
    ensures j <= i && RowAt(r, j, dto.id, dto)
    ensures r.machines[i].base.now - r.machines[j].base.now < r.machines[0].base.ttl + d
  {
    j := ServedWasRow(r, i, c, dto);
    var s :| StoredWithin(r, j, s, i, dto);
  }

  // ----- Exactly when an old profile can still be served -----

  ghost predicate Extends(r': Run, r: Run) {
    ValidRun(r') && r.machines <= r'.machines && r.moves <= r'.moves
  }

  /** Move `i` serves from the cache a profile of `u` that was the row in no machine from `n0` on. */
  ghost predicate OldHit(r: Run, n0: int, i: int, u: Id) {
    exists c, dto :: Serves(r, i, c, dto) && IsHit(r, i, c) && dto.id == u && !C.TrueWithin(Views(r), n0, i, u, dto)
  }

  lemma HitIsEntry(r: Run, i: nat, c: CallId, dto: UserDto)
    requires ValidRun(r) && Serves(r, i, c, dto) && IsHit(r, i, c)
    ensures var b := r.machines[i].base; Lookup(b.cache, dto.id, b.now) == Some(dto)
  {
    assert MoveAt(r, i);
    var j := ServedWasRow(r, i, c, dto);
  }

  lemma NothingOldServed(r: Run, n0: nat, n: nat, i: nat, u: Id)
    requires ValidRun(r) && n0 <= n <= i < |r.moves| && !C.OldInReach(Views(r), n0, n, u, r.machines[0].base.ttl)
    ensures !OldHit(r, n0, i, u)
  {
    if OldHit(r, n0, i, u) {
      var c, dto :| Serves(r, i, c, dto) && IsHit(r, i, c) && dto.id == u && !C.TrueWithin(Views(r), n0, i, u, dto);
      ViewsChain(r);
      HitIsEntry(r, i, c, dto);
      C.NothingOldFound(Views(r), r.machines[0].base.ttl, n0, n, i, u);
      assert false;
    }
  }

  function Extend(r: Run, move: Move, m: Machine): Run {
    Run(r.machines + [m], r.moves + [move])
  }

  lemma RunOn(r: Run, move: Move) returns (r': Run)
    requires ValidRun(r) && CanMove(r.machines[|r.moves|], move)
    ensures Extends(r', r) && |r'.moves| == |r.moves| + 1 && r'.moves[|r.moves|] == move
    ensures r'.machines[|r'.moves|] == After(r.machines[|r.moves|], move)
  {
    r' := Extend(r, move, After(r.machines[|r.moves|], move));
    forall i
      ensures MoveAt(r', i)
    {
      assert MoveAt(r, i);
    }
  }

  lemma ViewsPrefix(r': Run, r: Run)
    requires Extends(r', r)
    ensures Views(r) <= Views(r')
  {
    assert forall i :: 0 <= i < |r.machines| ==> r'.machines[i] == r.machines[i];
  }

  /** While the row stays as it is no profile becomes true. */
  lemma SameRowSameTruth(r: Run, n0: int, n: nat, u: Id, dto: UserDto)
    requires n + 1 < |r.machines| && n0 <= n
    requires r.machines[n + 1].base.users == r.machines[n].base.users
    ensures C.TrueWithin(Views(r), n0, n + 1, u, dto) <==> C.TrueWithin(Views(r), n0, n, u, dto)
  {
    var vs := Views(r);
    assert C.TrueAt(vs, n + 1, u, dto) <==> C.TrueAt(vs, n, u, dto);
    if C.TrueWithin(vs, n0, n, u, dto) {
      C.TrueLater(vs, n0, n, u, dto);
    }
  }

  /** A live entry is served to the next reader. */
  lemma EntryServed(r: Run, n0: nat, u: Id) returns (r': Run)
    requires ValidRun(r) && n0 <= |r.moves| && C.OldEntry(Views(r), n0, |r.moves|, u)
    ensures Extends(r', r) && |r.moves| + 1 < |r'.moves| && OldHit(r', n0, |r.moves| + 1, u)
  {
    var n, m := |r.moves|, r.machines[|r.moves|];
    var dto := m.base.cache[u].value;
    ViewsChain(r);
    var j, s := C.FoundWasTrue(Views(r), r.machines[0].base.ttl, n, u);
    assert dto.id == u;
    var c := NumberAbove(m.calls.Keys);
    var r1 := RunOn(r, Begin(c, Reading(dto.tenantId, u)));
    r' := RunOn(r1, Advance(c));
    assert r'.machines[n] == r1.machines[n] == m && r'.machines[n + 1] == r1.machines[n + 1];
    assert Serves(r', n + 1, c, dto) && IsHit(r', n + 1, c);
    ViewsPrefix(r', r);
    C.WithinPrefix(Views(r), Views(r'), n0, n, u, dto);
    SameRowSameTruth(r', n0, n, u, dto);
  }

  /** A call with a profile in hand stores it, however old it is. */
  lemma HandStored(r: Run, n0: nat, c: CallId, u: Id) returns (r': Run)
    requires ValidRun(r) && n0 <= |r.moves| && C.OldHand(Views(r), n0, |r.moves|, c, u) && r.machines[0].base.ttl > 0
    ensures Extends(r', r) && |r'.moves| == |r.moves| + 1 && C.OldEntry(Views(r'), n0, |r'.moves|, u)
  {
    var n, m := |r.moves|, r.machines[|r.moves|];
    SameLifetime(r, n);
    r' := RunOn(r, Advance(c));
    assert r'.machines[n] == m;
    ViewsPrefix(r', r);
    var dto := m.calls[c].dto;
    C.WithinPrefix(Views(r), Views(r'), n0, n, u, dto);
    SameRowSameTruth(r', n0, n, u, dto);
  }

  lemma HandServed(r: Run, n0: nat, c: CallId, u: Id) returns (r': Run)
    requires ValidRun(r) && n0 <= |r.moves| && C.OldHand(Views(r), n0, |r.moves|, c, u) && r.machines[0].base.ttl > 0
    ensures Extends(r', r) && |r.moves| + 2 < |r'.moves| && OldHit(r', n0, |r.moves| + 2, u)
  {
    var r1 := HandStored(r, n0, c, u);
    r' := EntryServed(r1, n0, u);
  }

  /** Exactly when can a profile that has not been the row since machine `n0` still be served
      from the cache?  If a live entry holds one, or a call has one in hand and entries live
      at all. */
  lemma OldHitIff(r: Run, n0: nat, u: Id)
    requires ValidRun(r) && n0 <= |r.moves|
    ensures (exists r', i :: Extends(r', r) && |r.moves| <= i < |r'.moves| && OldHit(r', n0, i, u)) <==>
            C.OldInReach(Views(r), n0, |r.moves|, u, r.machines[0].base.ttl)
  {
    var n, ttl := |r.moves|, r.machines[0].base.ttl;
    if C.OldEntry(Views(r), n0, n, u) {
      var r' := EntryServed(r, n0, u);
      assert OldHit(r', n0, n + 1, u);
    } else if ttl > 0 && exists c :: C.OldHand(Views(r), n0, n, c, u) {
      var c :| C.OldHand(Views(r), n0, n, c, u);
      var r' := HandServed(r, n0, c, u);
      assert OldHit(r', n0, n + 2, u);
    } else {
      forall r', i | Extends(r', r) && n <= i < |r'.moves|
        ensures !OldHit(r', n0, i, u)
      {
        ViewsPrefix(r', r);
        C.OutOfReachPrefix(Views(r), Views(r'), n0, n, u, ttl);
        assert r'.machines[0] == r.machines[0];
        NothingOldServed(r', n0, n, i, u);
      }
    }
  }

  /** The user has been gone since machine `n0`. */
  ghost predicate GoneSince(r: Run, n0: int, n: int, u: Id) {
    forall j :: n0 <= j <= n && 0 <= j < |r.machines| ==> u !in r.machines[j].base.users
  }

  /** Exactly when can a deleted user still be served?  If an entry is live, whatever is in it,
      or any call has the profile in hand and entries live at all. */
  lemma GoneServedIff(r: Run, n0: nat, u: Id)
    requires ValidRun(r) && n0 <= |r.moves| && GoneSince(r, n0, |r.moves|, u)
    ensures var m := r.machines[|r.moves|];
            (exists r', i :: Extends(r', r) && |r.moves| <= i < |r'.moves| && OldHit(r', n0, i, u)) <==>
            Lookup(m.base.cache, u, m.base.now).Some? ||
            (m.base.ttl > 0 && exists c :: c in m.calls && m.calls[c].Found? && m.calls[c].userId == u)
  {
    OldHitIff(r, n0, u);
    var n, m, vs := |r.moves|, r.machines[|r.moves|], Views(r);
    SameLifetime(r, n);
    forall dto
      ensures !C.TrueWithin(vs, n0, n, u, dto)
    {
      forall j | n0 <= j <= n
        ensures !C.TrueAt(vs, j, u, dto)
      {
        assert u !in r.machines[j].base.users;
      }
    }
    forall c
      ensures C.OldHand(vs, n0, n, c, u) <==> c in m.calls && m.calls[c].Found? && m.calls[c].userId == u
    {
    }
  }
}
