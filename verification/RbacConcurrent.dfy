/** The cached RBAC reads and the writers, cut at every await and interleaved freely. */
module RbacConcurrent {
  import opened Prelude
  import opened RbacTables
  import M = RbacMachine

  /** The two cached reads, and what they answer. */
  datatype Question = PermissionsOf(userId: Id, tenantId: Id) | NamesOf(userId: Id, tenantId: Id)

  datatype Answer = PermissionList(permissions: seq<Requirement>) | NameList(names: seq<string>)

  /** What the tables answer; None when the user is not found. */
  function Query(db: Db, q: Question): Option<Answer> {
    match q
    case PermissionsOf(u, t) =>
      (match QueryPermissions(db, u, t) case Some(list) => Some(PermissionList(list)) case None => None)
    case NamesOf(u, t) =>
      (match QueryNames(db, u, t) case Some(list) => Some(NameList(list)) case None => None)
  }

  function NoAnswer(q: Question): Answer {
    if q.PermissionsOf? then PermissionList([]) else NameList([])
  }

  /** A call in progress: what it will do when it next gets to run, and what it has in hand.
      `readAt` notes when the tables were read. */
  datatype Call =
    | Reading(q: Question)
    | Missed(q: Question)
    | Found(q: Question, answer: Answer, readAt: int)
    | Served(q: Question, answer: Answer)
    | Assigning(userId: Id, roleId: Id, tenantId: Id, user: Option<Option<User>>, role: Option<bool>)
    | Removing(userId: Id, roleId: Id, tenantId: Id)
    | Saving(userId: Id, row: User)
    | Invalidating(userId: Id, tenantId: Id, perms: bool, names: bool)
    | FindingRole(roleId: Id, tenantId: Id)
    | DroppingRole(roleId: Id)
    | FindingUser(userId: Id, tenantId: Id)
    | DroppingUser(userId: Id)
    | Returned
    | Thrown

  type CallId = nat

  datatype State = State(db: Db, cache: map<Question, Entry<Answer>>, calls: map<CallId, Call>, now: int, ttl: nat)

  /** `first` picks which of two queries issued together completes first.  `Elsewhere` is a
      write of any other service. */
  datatype Event =
    | Begin(c: CallId, call: Call)
    | Advance(c: CallId, first: bool)
    | Elsewhere(db: Db)
    | Evict(q: Question)
    | Tick(elapsed: nat)

  predicate IsEntryPoint(call: Call) {
    call.Reading? || call.Removing? || call.FindingRole? || call.FindingUser? ||
    (call.Assigning? && call.user.None? && call.role.None?)
  }

  predicate Enabled(s: State, e: Event) {
    match e
    case Begin(c, call) => c !in s.calls && IsEntryPoint(call)
    case Advance(c, _) => c in s.calls && !s.calls[c].Served? && !s.calls[c].Returned? && !s.calls[c].Thrown?
    case _ => true
  }

  function FindUser(db: Db, u: Id, t: Id): Option<User> {
    if HasUser(db, u, t) then Some(db.users[u]) else None
  }

  /** After both rows are in hand: refuse, do nothing, or save the longer list. */
  function Decide(call: Call): Call
    requires call.Assigning? && call.user.Some? && call.role.Some?
  {
    if call.user.value.None? || !call.role.value then Thrown
    else
      var user := call.user.value.value;
      if call.roleId in user.roleIds then Returned
      else Saving(call.userId, user.(roleIds := user.roleIds + [call.roleId]))
  }

  /** The save writes the whole row from memory unless a foreign key refuses it. */
  predicate SaveAccepted(db: Db, row: User) {
    row.tenantId in db.tenants && forall r :: r in row.roleIds ==> r in db.roles
  }

  /** What a call has in hand after its next step. */
  function NextCall(s: State, call: Call, first: bool): Call {
    match call
    case Reading(q) =>
      (match Lookup(s.cache, q, s.now) case Some(answer) => Served(q, answer) case None => Missed(q))
    case Missed(q) =>
      (match Query(s.db, q) case Some(answer) => Found(q, answer, s.now) case None => Served(q, NoAnswer(q)))
    case Found(q, answer, _) => Served(q, answer)
    case Assigning(u, r, t, user, role) =>
      if user.Some? && role.Some? then Decide(call)
      else if role.Some? || (user.None? && first) then call.(user := Some(FindUser(s.db, u, t)))
      else call.(role := Some(M.HasRoleRow(s.db, r, t)))
    case Removing(u, r, t) =>
      if !HasUser(s.db, u, t) then Thrown
      else Saving(u, s.db.users[u].(roleIds := M.Without(s.db.users[u].roleIds, r)))
    case Saving(u, row) => if SaveAccepted(s.db, row) then Invalidating(u, row.tenantId, true, true) else Thrown
    case Invalidating(u, t, perms, names) =>
      if perms && names then Invalidating(u, t, !first, first) else Returned
    case FindingRole(r, t) => if M.HasRoleRow(s.db, r, t) && !s.db.roles[r].isSystem then DroppingRole(r) else Thrown
    case FindingUser(u, t) => if HasUser(s.db, u, t) then DroppingUser(u) else Thrown
    case _ => Returned
  }

  /** Only the second half of a writer touches the tables. */
  function NextDb(s: State, call: Call): Db {
    match call
    case Saving(u, row) => if SaveAccepted(s.db, row) then s.db.(users := s.db.users[u := row]) else s.db
    case DroppingRole(r) => M.DropRole(s.db, r)
    case DroppingUser(u) => M.DropUser(s.db, u)
    case _ => s.db
  }

  /** Readers fill the cache, assign and remove clear its two entries one by one. */
  function NextCache(s: State, call: Call, first: bool): map<Question, Entry<Answer>> {
    match call
    case Found(q, answer, _) => s.cache[q := Entry(answer, s.now + s.ttl)]
    case Invalidating(u, t, perms, names) =>
      s.cache - {if perms && (first || !names) then PermissionsOf(u, t) else NamesOf(u, t)}
    case _ => s.cache
  }

  function Apply(s: State, e: Event): State
    requires Enabled(s, e)
  {
    match e
    case Begin(c, call) => s.(calls := s.calls[c := call])
    case Advance(c, first) =>
      var call := s.calls[c];
      State(NextDb(s, call), NextCache(s, call, first), s.calls[c := NextCall(s, call, first)], s.now, s.ttl)
    case Elsewhere(db) => s.(db := db)
    case Evict(q) => s.(cache := s.cache - {q})
    case Tick(elapsed) => s.(now := s.now + elapsed)
  }

  /** A run: event `i` leads from state `i` to state `i + 1`. */
  datatype Trace = Trace(states: seq<State>, events: seq<Event>)

  ghost predicate StepAt(tr: Trace, i: int) {
    0 <= i < |tr.events| < |tr.states| ==>
      Enabled(tr.states[i], tr.events[i]) && tr.states[i + 1] == Apply(tr.states[i], tr.events[i])
  }

  ghost predicate Valid(tr: Trace) {
    && |tr.states| == |tr.events| + 1
    && tr.states[0].cache == map[] && tr.states[0].calls == map[]
    && forall i :: StepAt(tr, i)
  }

  // ----- Where answers come from -----

  /** At step `j` some reader ran its query and the tables of that instant answered `a`. */
  ghost predicate ReadAt(tr: Trace, j: int, q: Question, a: Answer, when: int) {
    && 0 <= j < |tr.events| < |tr.states|
    && tr.events[j].Advance? && tr.events[j].c in tr.states[j].calls
    && tr.states[j].calls[tr.events[j].c] == Missed(q)
    && Query(tr.states[j].db, q) == Some(a)
    && tr.states[j].now == when
  }

  /** At step `k` a reader stored an answer it had read at instant `when`. */
  ghost predicate StoredAt(tr: Trace, k: int, q: Question, a: Answer, when: int) {
    && 0 <= k < |tr.events| < |tr.states|
    && tr.events[k].Advance? && tr.events[k].c in tr.states[k].calls
    && tr.states[k].calls[tr.events[k].c] == Found(q, a, when)
  }

  ghost predicate EntryFrom(tr: Trace, i: int, q: Question, e: Entry<Answer>, j: int, k: int) {
    && 0 <= j < k < i
    && k < |tr.events| < |tr.states|
    && ReadAt(tr, j, q, e.value, tr.states[j].now)
    && StoredAt(tr, k, q, e.value, tr.states[j].now)
    && e.expiresAt == tr.states[k].now + tr.states[0].ttl
  }

  ghost predicate CallFrom(tr: Trace, i: int, call: Call, j: int)
    requires call.Found?
  {
    0 <= j < i && ReadAt(tr, j, call.q, call.answer, call.readAt)
  }

  ghost predicate EntryExplained(tr: Trace, i: int, q: Question, e: Entry<Answer>) {
    exists j, k :: EntryFrom(tr, i, q, e, j, k)
  }

  ghost predicate CallExplained(tr: Trace, i: int, call: Call)
    requires call.Found?
  {
    exists j :: CallFrom(tr, i, call, j)
  }

  ghost predicate Explained(tr: Trace, i: nat)
    requires i < |tr.states|
  {
    && tr.states[i].ttl == tr.states[0].ttl
    && (forall q :: q in tr.states[i].cache ==> EntryExplained(tr, i, q, tr.states[i].cache[q]))
    && (forall c :: c in tr.states[i].calls && tr.states[i].calls[c].Found? ==>
          CallExplained(tr, i, tr.states[i].calls[c]))
  }

  /** Only a reader's query puts an answer in hand. */
  lemma NewlyFound(s: State, e: Event, c: CallId)
    requires Enabled(s, e) && c in Apply(s, e).calls && Apply(s, e).calls[c].Found?
    ensures var call := Apply(s, e).calls[c];
            (c in s.calls && s.calls[c] == call) ||
            (e.Advance? && e.c == c && s.calls[c] == Missed(call.q) &&
             Query(s.db, call.q) == Some(call.answer) && call.readAt == s.now)
  {
  }

  /** Only a reader's store puts an entry in the cache. */
  lemma NewlyCached(s: State, e: Event, q: Question)
    requires Enabled(s, e) && q in Apply(s, e).cache
    ensures var entry := Apply(s, e).cache[q];
            (q in s.cache && s.cache[q] == entry) ||
            (e.Advance? && s.calls[e.c].Found? && s.calls[e.c].q == q &&
             entry == Entry(s.calls[e.c].answer, s.now + s.ttl))
  {
  }

  lemma ExplainedCall(tr: Trace, i: nat, c: CallId)
    requires Valid(tr) && i < |tr.events| && Explained(tr, i)
    requires c in tr.states[i + 1].calls && tr.states[i + 1].calls[c].Found?
    ensures CallExplained(tr, i + 1, tr.states[i + 1].calls[c])
  {
    var s, e, call := tr.states[i], tr.events[i], tr.states[i + 1].calls[c];
    assert StepAt(tr, i);
    NewlyFound(s, e, c);
    if c in s.calls && s.calls[c] == call {
      var j :| CallFrom(tr, i, call, j);
      assert CallFrom(tr, i + 1, call, j);
    } else {
      assert CallFrom(tr, i + 1, call, i);
    }
  }

  lemma ExplainedEntry(tr: Trace, i: nat, q: Question)
    requires Valid(tr) && i < |tr.events| && Explained(tr, i)
    requires q in tr.states[i + 1].cache
    ensures EntryExplained(tr, i + 1, q, tr.states[i + 1].cache[q])
  {
    var s, e, entry := tr.states[i], tr.events[i], tr.states[i + 1].cache[q];
    assert StepAt(tr, i);
    NewlyCached(s, e, q);
    if q in s.cache && s.cache[q] == entry {
      var j, k :| EntryFrom(tr, i, q, entry, j, k);
      assert EntryFrom(tr, i + 1, q, entry, j, k);
    } else {
      var j :| CallFrom(tr, i, s.calls[e.c], j);
      assert EntryFrom(tr, i + 1, q, entry, j, i);
    }
  }

  lemma StepTtl(s: State, e: Event)
    requires Enabled(s, e)
    ensures Apply(s, e).ttl == s.ttl && s.now <= Apply(s, e).now
  {
  }

  lemma ExplainedStep(tr: Trace, i: nat)
    requires Valid(tr) && i < |tr.events| && Explained(tr, i)
    ensures Explained(tr, i + 1)
  {
    var next := tr.states[i + 1];
    assert StepAt(tr, i);
    StepTtl(tr.states[i], tr.events[i]);
    forall q | q in next.cache
      ensures EntryExplained(tr, i + 1, q, next.cache[q])
    {
      ExplainedEntry(tr, i, q);
    }
    forall c | c in next.calls && next.calls[c].Found?
      ensures CallExplained(tr, i + 1, next.calls[c])
    {
      ExplainedCall(tr, i, c);
    }
  }

  lemma {:induction false} AllExplained(tr: Trace, i: nat)
    requires Valid(tr) && i < |tr.states|
    ensures Explained(tr, i)
  {
    if i > 0 {
      AllExplained(tr, i - 1);
      ExplainedStep(tr, i - 1);
    }
  }

  /** Step `i` lets call `c` return an answer. */
  ghost predicate Serves(tr: Trace, i: int, c: CallId, q: Question, a: Answer) {
    && 0 <= i < |tr.events| < |tr.states|
    && tr.events[i].Advance? && tr.events[i].c == c && c in tr.states[i].calls && c in tr.states[i + 1].calls
    && !tr.states[i].calls[c].Served? && tr.states[i + 1].calls[c] == Served(q, a)
  }

  ghost predicate IsHit(tr: Trace, i: int, c: CallId) {
    0 <= i < |tr.states| && c in tr.states[i].calls && tr.states[i].calls[c].Reading?
  }

  /** The answer was the tables' own at step `j`: either some reader's query ran then, or
      this very call found no user. */
  ghost predicate TrueAt(tr: Trace, i: int, j: int, q: Question, a: Answer) {
    0 <= j <= i && j < |tr.states| &&
    (ReadAt(tr, j, q, a, tr.states[j].now) || (j == i && Query(tr.states[j].db, q) == None && a == NoAnswer(q)))
  }

  /** Bounded staleness: every list served is one the tables gave at a past instant at which
      a reader's query ran, and a hit comes less than one lifetime after the list was stored. */
  lemma BoundedStaleness(tr: Trace, i: nat, c: CallId, q: Question, a: Answer)
    requires Valid(tr) && Serves(tr, i, c, q, a)
    ensures exists j :: TrueAt(tr, i, j, q, a)
    ensures IsHit(tr, i, c) ==>
              exists j, k :: 0 <= j < k < i &&
                             ReadAt(tr, j, q, a, tr.states[j].now) && StoredAt(tr, k, q, a, tr.states[j].now) &&
                             tr.states[i].now - tr.states[k].now < tr.states[0].ttl
  {
    AllExplained(tr, i);
    assert StepAt(tr, i);
    var s := tr.states[i];
    match s.calls[c]
    case Reading(_) =>
      var j, k :| EntryFrom(tr, i, q, s.cache[q], j, k);
      assert TrueAt(tr, i, j, q, a);
    case Missed(_) =>
      assert TrueAt(tr, i, i, q, a);
    case Found(_, _, _) =>
      var j :| CallFrom(tr, i, s.calls[c], j);
      assert TrueAt(tr, i, j, q, a);
    case _ =>
  }

  /** No reader takes longer than `d` between reading the tables and storing the answer. */
  ghost predicate Prompt(tr: Trace, d: nat) {
    forall k, q, a, when :: StoredAt(tr, k, q, a, when) ==> tr.states[k].now - when <= d
  }

  lemma {:induction false} TimeMoves(tr: Trace, i: nat, j: nat)
    requires Valid(tr) && i <= j < |tr.states|
    ensures tr.states[i].now <= tr.states[j].now
  {
    if i < j {
      TimeMoves(tr, i, j - 1);
      assert StepAt(tr, j - 1);
    }
  }

  /** A change takes effect: with readers that take at most `d`, a hit served `ttl + d` or
      more after step `m` repeats an answer the tables gave after step `m`.  No invalidation
      is needed for this, so it also covers the writers that do not invalidate. */
  lemma ChangesTakeEffect(tr: Trace, d: nat, m: nat, i: nat, c: CallId, q: Question, a: Answer)
    requires Valid(tr) && Prompt(tr, d) && Serves(tr, i, c, q, a) && IsHit(tr, i, c)
    requires m < |tr.states| && tr.states[m].now + tr.states[0].ttl + d <= tr.states[i].now
    ensures exists j :: m < j < i && ReadAt(tr, j, q, a, tr.states[j].now)
  {
    BoundedStaleness(tr, i, c, q, a);
    var j, k :| 0 <= j < k < i && ReadAt(tr, j, q, a, tr.states[j].now) && StoredAt(tr, k, q, a, tr.states[j].now) &&
                tr.states[i].now - tr.states[k].now < tr.states[0].ttl;
    if j <= m {
      TimeMoves(tr, j, m);
    }
  }

  // ----- Building runs -----

  function Extend(tr: Trace, e: Event): Trace
    requires tr.states != [] && Enabled(tr.states[|tr.states| - 1], e)
  {
    Trace(tr.states + [Apply(tr.states[|tr.states| - 1], e)], tr.events + [e])
  }

  lemma ExtendValid(tr: Trace, e: Event)
    requires Valid(tr) && Enabled(tr.states[|tr.states| - 1], e)
    ensures Valid(Extend(tr, e))
  {
    var tr' := Extend(tr, e);
    forall i
      ensures StepAt(tr', i)
    {
      assert StepAt(tr, i);
    }
  }

  lemma RunOn(tr: Trace, e: Event) returns (tr': Trace, s': State)
    requires Valid(tr) && Enabled(tr.states[|tr.states| - 1], e)
    ensures Valid(tr') && |tr'.states| == |tr.states| + 1
    ensures s' == tr'.states[|tr'.states| - 1] == Apply(tr.states[|tr.states| - 1], e)
    ensures tr'.states[..|tr.states|] == tr.states && tr'.events == tr.events + [e]
  {
    ExtendValid(tr, e);
    tr' := Extend(tr, e);
    s' := tr'.states[|tr'.states| - 1];
  }
}
