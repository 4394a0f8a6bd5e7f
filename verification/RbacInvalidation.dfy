/** What invalidating the two entries of a user achieves when calls interleave, and exactly
    when an answer from before a change can still be served. */
module RbacInvalidation {
  import opened Prelude
  import opened RbacTables
  import opened RbacConcurrent
  import M = RbacMachine

  /** Some reader was given `a` by the tables at or after step `k` and before step `n`. */
  ghost predicate ReadSince(tr: Trace, k: int, n: int, q: Question, a: Answer) {
    exists j :: k <= j < n && 0 <= j < |tr.states| && ReadAt(tr, j, q, a, tr.states[j].now)
  }

  /** At step `i` some reader is served `a` from the cache. */
  ghost predicate Hit(tr: Trace, i: int, q: Question, a: Answer) {
    exists c :: Serves(tr, i, c, q, a) && IsHit(tr, i, c)
  }

  /** Step `i` is a hit on an answer the tables gave nobody from step `k` on. */
  ghost predicate OldHit(tr: Trace, k: int, i: int, q: Question) {
    exists a :: Hit(tr, i, q, a) && !ReadSince(tr, k, i, q, a)
  }

  /** A reader has an answer in hand that nobody was given from step `k` on. */
  ghost predicate OldReader(tr: Trace, k: int, n: nat, c: CallId, q: Question)
    requires n < |tr.states|
  {
    c in tr.states[n].calls && tr.states[n].calls[c].Found? && tr.states[n].calls[c].q == q &&
    !ReadSince(tr, k, n, q, tr.states[n].calls[c].answer)
  }

  /** A live entry holds such an answer. */
  ghost predicate OldEntry(tr: Trace, k: int, n: nat, q: Question)
    requires n < |tr.states|
  {
    var s := tr.states[n];
    Lookup(s.cache, q, s.now).Some? && !ReadSince(tr, k, n, q, s.cache[q].value)
  }

  ghost predicate OldInReach(tr: Trace, k: int, n: nat, q: Question)
    requires n < |tr.states|
  {
    OldEntry(tr, k, n, q) || (tr.states[n].ttl > 0 && exists c :: OldReader(tr, k, n, c, q))
  }

  // ----- Nothing old in reach, nothing old served -----

  ghost predicate NoOldReader(tr: Trace, k: int, n: nat, q: Question)
    requires n < |tr.states|
  {
    forall c :: !OldReader(tr, k, n, c, q)
  }

  lemma ReadLater(tr: Trace, k: int, n: int, q: Question, a: Answer)
    requires ReadSince(tr, k, n, q, a)
    ensures ReadSince(tr, k, n + 1, q, a)
  {
    var j :| k <= j < n && 0 <= j < |tr.states| && ReadAt(tr, j, q, a, tr.states[j].now);
  }

  lemma ReaderStays(tr: Trace, k: int, i: nat, q: Question, c: CallId)
    requires Valid(tr) && k <= i < |tr.events| && NoOldReader(tr, k, i, q)
    ensures !OldReader(tr, k, i + 1, c, q)
  {
    var s, s', e := tr.states[i], tr.states[i + 1], tr.events[i];
    assert StepAt(tr, i);
    if c in s'.calls && s'.calls[c].Found? && s'.calls[c].q == q {
      NewlyFound(s, e, c);
      if c in s.calls && s.calls[c] == s'.calls[c] {
        assert !OldReader(tr, k, i, c, q);
        ReadLater(tr, k, i, q, s'.calls[c].answer);
      } else {
        assert ReadAt(tr, i, q, s'.calls[c].answer, s.now);
      }
    }
  }

  lemma EntryStays(tr: Trace, k: int, i: nat, q: Question)
    requires Valid(tr) && k <= i < |tr.events| && NoOldReader(tr, k, i, q) && !OldEntry(tr, k, i, q)
    ensures !OldEntry(tr, k, i + 1, q)
  {
    var s, s', e := tr.states[i], tr.states[i + 1], tr.events[i];
    assert StepAt(tr, i);
    StepTtl(s, e);
    if Lookup(s'.cache, q, s'.now).Some? {
      NewlyCached(s, e, q);
      if !(q in s.cache && s.cache[q] == s'.cache[q]) {
        assert !OldReader(tr, k, i, e.c, q);
      }
      ReadLater(tr, k, i, q, s'.cache[q].value);
    }
  }

  lemma {:induction false} StaysOutOfReach(tr: Trace, k: int, n: nat, i: nat, q: Question)
    requires Valid(tr) && k <= n <= i < |tr.states|
    requires NoOldReader(tr, k, n, q) && !OldEntry(tr, k, n, q)
    ensures NoOldReader(tr, k, i, q) && !OldEntry(tr, k, i, q)
  {
    if n < i {
      StaysOutOfReach(tr, k, n, i - 1, q);
      EntryStays(tr, k, i - 1, q);
      forall c
        ensures !OldReader(tr, k, i, c, q)
      {
        ReaderStays(tr, k, i - 1, q, c);
      }
    }
  }

  /** A hit serves the live entry, and there are none when entries have no lifetime. */
  lemma HitIsEntry(tr: Trace, i: nat, q: Question, a: Answer)
    requires Valid(tr) && Hit(tr, i, q, a)
    ensures i < |tr.events| && Lookup(tr.states[i].cache, q, tr.states[i].now) == Some(a)
    ensures tr.states[0].ttl > 0
  {
    var c :| Serves(tr, i, c, q, a) && IsHit(tr, i, c);
    assert StepAt(tr, i);
    BoundedStaleness(tr, i, c, q, a);
    var j, k :| 0 <= j < k < i && ReadAt(tr, j, q, a, tr.states[j].now) && StoredAt(tr, k, q, a, tr.states[j].now) &&
                tr.states[i].now - tr.states[k].now < tr.states[0].ttl;
    TimeMoves(tr, k, i);
  }

  /** With nothing old in reach in state `n`, every later hit repeats an answer the tables
      gave at or after step `k`. */
  lemma NothingOldServed(tr: Trace, k: int, n: nat, i: nat, q: Question)
    requires Valid(tr) && k <= n <= i < |tr.events| && !OldInReach(tr, k, n, q)
    ensures !OldHit(tr, k, i, q)
  {
    if OldHit(tr, k, i, q) {
      var a :| Hit(tr, i, q, a) && !ReadSince(tr, k, i, q, a);
      HitIsEntry(tr, i, q, a);
      AllExplained(tr, n);
      StaysOutOfReach(tr, k, n, i, q);
      assert false;
    }
  }

  // ----- Something old in reach can be served -----

  ghost predicate Extends(tr': Trace, tr: Trace) {
    Valid(tr') && tr.states <= tr'.states && tr.events <= tr'.events
  }

  lemma {:induction false} ReadSincePrefix(tr': Trace, tr: Trace, k: int, n: int, q: Question, a: Answer)
    requires Valid(tr) && Extends(tr', tr) && n <= |tr.events|
    ensures ReadSince(tr', k, n, q, a) <==> ReadSince(tr, k, n, q, a)
  {
    forall j | 0 <= j < n
      ensures ReadAt(tr', j, q, a, tr'.states[j].now) <==> ReadAt(tr, j, q, a, tr.states[j].now)
    {
      assert tr'.states[j] == tr.states[j] && tr'.events[j] == tr.events[j];
    }
  }

  /** A live entry is served to the next reader, with no query in between. */
  lemma EntryServed(tr: Trace, q: Question) returns (tr': Trace)
    requires Valid(tr)
    requires var s := tr.states[|tr.events|]; Lookup(s.cache, q, s.now).Some?
    ensures Extends(tr', tr) && |tr'.events| == |tr.events| + 2
    ensures Hit(tr', |tr.events| + 1, q, tr.states[|tr.events|].cache[q].value)
    ensures tr'.events[|tr.events|].Begin?
  {
    var n, s := |tr.events|, tr.states[|tr.events|];
    var c := NumberAbove(s.calls.Keys);
    var s1, s2;
    tr', s1 := RunOn(tr, Begin(c, Reading(q)));
    assert s1.cache == s.cache && s1.now == s.now && s1.calls[c] == Reading(q);
    var tr1 := tr';
    tr', s2 := RunOn(tr1, Advance(c, true));
    assert tr'.states[n + 1] == tr1.states[n + 1] == s1 && tr'.states[n + 2] == s2;
    assert tr'.events[n + 1] == Advance(c, true) && tr'.events[n] == tr1.events[n];
    assert Serves(tr', n + 1, c, q, s.cache[q].value) && IsHit(tr', n + 1, c);
  }

  /** A reader with an answer in hand stores it, however old it is. */
  lemma ReaderStores(tr: Trace, c: CallId) returns (tr': Trace)
    requires Valid(tr)
    requires var s := tr.states[|tr.events|]; c in s.calls && s.calls[c].Found? && s.ttl > 0
    ensures Extends(tr', tr) && |tr'.events| == |tr.events| + 1 && tr'.events[|tr.events|] == Advance(c, true)
    ensures var s, s' := tr.states[|tr.events|], tr'.states[|tr'.events|];
            Lookup(s'.cache, s.calls[c].q, s'.now) == Some(s.calls[c].answer)
  {
    var s';
    tr', s' := RunOn(tr, Advance(c, true));
  }

  /** The entry of `q` in the last state is not read anew by the extension. */
  lemma OldEntryServed(tr: Trace, k: int, q: Question) returns (tr': Trace)
    requires Valid(tr) && k <= |tr.events| && OldEntry(tr, k, |tr.events|, q)
    ensures Extends(tr', tr) && |tr.events| + 1 < |tr'.events|
    ensures var a := tr.states[|tr.events|].cache[q].value;
            Hit(tr', |tr.events| + 1, q, a) && !ReadSince(tr', k, |tr.events| + 1, q, a)
  {
    var n := |tr.events|;
    var a := tr.states[n].cache[q].value;
    tr' := EntryServed(tr, q);
    ReadSincePrefix(tr', tr, k, n, q, a);
    assert !ReadSince(tr', k, n + 1, q, a) by {
      assert !ReadAt(tr', n, q, a, tr'.states[n].now);
    }
  }

  lemma OldReaderServed(tr: Trace, k: int, c: CallId, q: Question) returns (tr': Trace)
    requires Valid(tr) && k <= |tr.events| && OldReader(tr, k, |tr.events|, c, q) && tr.states[|tr.events|].ttl > 0
    ensures Extends(tr', tr) && |tr.events| + 2 < |tr'.events|
    ensures var a := tr.states[|tr.events|].calls[c].answer;
            Hit(tr', |tr.events| + 2, q, a) && !ReadSince(tr', k, |tr.events| + 2, q, a)
  {
    var n := |tr.events|;
    var a := tr.states[n].calls[c].answer;
    var tr1 := ReaderStores(tr, c);
    ReadSincePrefix(tr1, tr, k, n, q, a);
    assert !ReadSince(tr1, k, n + 1, q, a) by {
      assert tr1.states[n] == tr.states[n];
      assert !ReadAt(tr1, n, q, a, tr1.states[n].now);
    }
    tr' := OldEntryServed(tr1, k, q);
  }

  lemma OutOfReachPrefix(tr': Trace, tr: Trace, k: int, q: Question)
    requires Valid(tr) && Extends(tr', tr) && !OldInReach(tr, k, |tr.events|, q)
    ensures !OldInReach(tr', k, |tr.events|, q)
  {
    var n := |tr.events|;
    var s := tr.states[n];
    assert tr'.states[n] == s;
    if Lookup(s.cache, q, s.now).Some? {
      ReadSincePrefix(tr', tr, k, n, q, s.cache[q].value);
    }
    forall c | c in s.calls && s.calls[c].Found? && s.calls[c].q == q && s.ttl > 0
      ensures !OldReader(tr', k, n, c, q)
    {
      assert !OldReader(tr, k, n, c, q);
      ReadSincePrefix(tr', tr, k, n, q, s.calls[c].answer);
    }
  }

  /** Exactly when can an answer from before step `k` still be served?  If a live entry
      holds one, or a reader has one in hand and entries live at all. */
  lemma OldHitIff(tr: Trace, k: nat, q: Question)
    requires Valid(tr) && k <= |tr.events|
    ensures (exists tr', i :: Extends(tr', tr) && |tr.events| <= i < |tr'.events| && OldHit(tr', k, i, q)) <==>
            OldInReach(tr, k, |tr.events|, q)
  {
    var n := |tr.events|;
    if OldEntry(tr, k, n, q) {
      var tr' := OldEntryServed(tr, k, q);
      assert OldHit(tr', k, n + 1, q);
    } else if tr.states[n].ttl > 0 && exists c :: OldReader(tr, k, n, c, q) {
      var c :| OldReader(tr, k, n, c, q);
      var tr' := OldReaderServed(tr, k, c, q);
      assert OldHit(tr', k, n + 2, q);
    } else {
      forall tr', i | Extends(tr', tr) && n <= i < |tr'.events|
        ensures !OldHit(tr', k, i, q)
      {
        OutOfReachPrefix(tr', tr, k, q);
        NothingOldServed(tr', k, n, i, q);
      }
    }
  }

  // ----- The writers that invalidate -----

  /** At step `k` call `c` wrote the row of user `u` of tenant `t`. */
  ghost predicate SavedAt(tr: Trace, k: int, c: CallId, u: Id, t: Id) {
    && 0 <= k < |tr.events| < |tr.states|
    && tr.events[k].Advance? && tr.events[k].c == c && c in tr.states[k].calls
    && tr.states[k].calls[c].Saving? && tr.states[k].calls[c].userId == u && tr.states[k].calls[c].row.tenantId == t
    && tr.states[k + 1].db.users == tr.states[k].db.users[u := tr.states[k].calls[c].row]
  }

  /** At step `d` call `c` deleted the entry of `q`. */
  ghost predicate DeletedAt(tr: Trace, d: int, c: CallId, q: Question) {
    && 0 <= d < |tr.events| < |tr.states|
    && tr.events[d].Advance? && tr.events[d].c == c && c in tr.states[d].calls
    && tr.states[d].calls[c].Invalidating?
    && tr.states[d].calls[c].userId == q.userId && tr.states[d].calls[c].tenantId == q.tenantId
    && q !in tr.states[d + 1].cache
  }

  ghost predicate DeletedSince(tr: Trace, k: int, i: int, c: CallId, q: Question) {
    exists d :: k < d < i && DeletedAt(tr, d, c, q)
  }

  /** A writer that has saved at `k` deletes what it has not deleted yet. */
  ghost predicate Underway(tr: Trace, i: int, c: CallId, call: Call, k: int)
    requires call.Invalidating?
  {
    && 0 <= k < i && SavedAt(tr, k, c, call.userId, call.tenantId)
    && (call.perms || call.names)
    && (!call.perms ==> DeletedSince(tr, k, i, c, PermissionsOf(call.userId, call.tenantId)))
    && (!call.names ==> DeletedSince(tr, k, i, c, NamesOf(call.userId, call.tenantId)))
  }

  ghost predicate WriterExplained(tr: Trace, i: nat, c: CallId)
    requires i < |tr.states|
  {
    c in tr.states[i].calls && tr.states[i].calls[c].Invalidating? ==>
      exists k :: Underway(tr, i, c, tr.states[i].calls[c], k)
  }

  lemma DeletedLater(tr: Trace, k: int, i: int, c: CallId, q: Question)
    ensures DeletedSince(tr, k, i, c, q) ==> DeletedSince(tr, k, i + 1, c, q)
  {
    if DeletedSince(tr, k, i, c, q) {
      var d :| k < d < i && DeletedAt(tr, d, c, q);
      assert k < d < i + 1;
    }
  }

  /** Only the call's own next step makes it invalidate or takes it further. */
  lemma NewlyInvalidating(s: State, e: Event, c: CallId)
    requires Enabled(s, e) && c in Apply(s, e).calls && Apply(s, e).calls[c].Invalidating?
    ensures c in s.calls
    ensures s.calls[c] == Apply(s, e).calls[c] ||
            (e.Advance? && e.c == c && Apply(s, e).calls[c] == NextCall(s, s.calls[c], e.first) &&
             (s.calls[c].Saving? || s.calls[c].Invalidating?))
  {
  }

  lemma DeletesOne(tr: Trace, i: nat, c: CallId)
    requires Valid(tr) && i < |tr.events| && tr.events[i].Advance? && tr.events[i].c == c
    requires c in tr.states[i].calls && tr.states[i].calls[c].Invalidating?
    ensures var call := tr.states[i].calls[c];
            DeletedAt(tr, i, c, if call.perms && (tr.events[i].first || !call.names)
                                then PermissionsOf(call.userId, call.tenantId) else NamesOf(call.userId, call.tenantId))
  {
    assert StepAt(tr, i);
  }

  lemma WriterStep(tr: Trace, i: nat, c: CallId)
    requires Valid(tr) && i < |tr.events| && WriterExplained(tr, i, c)
    ensures WriterExplained(tr, i + 1, c)
  {
    var s, s', e := tr.states[i], tr.states[i + 1], tr.events[i];
    assert StepAt(tr, i);
    if c in s'.calls && s'.calls[c].Invalidating? {
      NewlyInvalidating(s, e, c);
      var call' := s'.calls[c];
      if s.calls[c].Saving? {
        assert Underway(tr, i + 1, c, call', i);
      } else {
        var k :| Underway(tr, i, c, s.calls[c], k);
        DeletedLater(tr, k, i, c, PermissionsOf(call'.userId, call'.tenantId));
        DeletedLater(tr, k, i, c, NamesOf(call'.userId, call'.tenantId));
        if s.calls[c] != call' {
          DeletesOne(tr, i, c);
        }
        assert Underway(tr, i + 1, c, call', k);
      }
    }
  }

  lemma {:induction false} AllWritersExplained(tr: Trace, i: nat, c: CallId)
    requires Valid(tr) && i < |tr.states|
    ensures WriterExplained(tr, i, c)
  {
    if i > 0 {
      AllWritersExplained(tr, i - 1, c);
      WriterStep(tr, i - 1, c);
    }
  }

  /** At step `w` an assignment or removal for user `u` of tenant `t` ends, having saved. */
  ghost predicate ReturnsAt(tr: Trace, w: int, c: CallId, u: Id, t: Id) {
    && 0 <= w < |tr.events| < |tr.states|
    && tr.events[w].Advance? && tr.events[w].c == c
    && c in tr.states[w].calls && c in tr.states[w + 1].calls
    && tr.states[w].calls[c].Invalidating? && tr.states[w].calls[c].userId == u && tr.states[w].calls[c].tenantId == t
    && tr.states[w + 1].calls[c].Returned?
  }

  /** A writer that returns has saved first and deleted both entries after that. */
  lemma ReturnedMeansDeleted(tr: Trace, w: nat, c: CallId, u: Id, t: Id) returns (k: nat)
    requires Valid(tr) && ReturnsAt(tr, w, c, u, t)
    ensures k < w && SavedAt(tr, k, c, u, t)
    ensures DeletedSince(tr, k, w + 1, c, PermissionsOf(u, t)) && DeletedSince(tr, k, w + 1, c, NamesOf(u, t))
  {
    AllWritersExplained(tr, w, c);
    assert StepAt(tr, w);
    var call := tr.states[w].calls[c];
    k :| Underway(tr, w, c, call, k);
    DeletesOne(tr, w, c);
    DeletedLater(tr, k, w, c, PermissionsOf(u, t));
    DeletedLater(tr, k, w, c, NamesOf(u, t));
  }

  lemma HitAfterDeletion(tr: Trace, k: nat, n: nat, i: nat, q: Question, a: Answer)
    requires Valid(tr) && k <= n <= i && n < |tr.states| && Hit(tr, i, q, a)
    requires q !in tr.states[n].cache && NoOldReader(tr, k, n, q)
    ensures ReadSince(tr, k, i, q, a)
  {
    HitIsEntry(tr, i, q, a);
    NothingOldServed(tr, k, n, i, q);
  }

  /** What the invalidation is for.  Take a writer that saved at step `k` and has returned at
      step `w`.  In between it deleted the entry of each question about its user, and unless
      a reader at that moment had in hand an answer from before the save, every hit since
      then repeats an answer the tables gave after the save. */
  lemma InvalidationTakesEffect(tr: Trace, w: nat, c: CallId, q: Question) returns (k: nat, d: nat)
    requires Valid(tr) && ReturnsAt(tr, w, c, q.userId, q.tenantId)
    ensures k < d <= w && SavedAt(tr, k, c, q.userId, q.tenantId) && DeletedAt(tr, d, c, q)
    ensures NoOldReader(tr, k + 1, d + 1, q) ==>
              forall i, a :: i > d && Hit(tr, i, q, a) ==> ReadSince(tr, k + 1, i, q, a)
  {
    k := ReturnedMeansDeleted(tr, w, c, q.userId, q.tenantId);
    assert DeletedSince(tr, k, w + 1, c, q);
    d :| k < d < w + 1 && DeletedAt(tr, d, c, q);
    if NoOldReader(tr, k + 1, d + 1, q) {
      forall i, a | i > d && Hit(tr, i, q, a)
        ensures ReadSince(tr, k + 1, i, q, a)
      {
        HitAfterDeletion(tr, k + 1, d + 1, i, q, a);
      }
    }
  }

  // ----- A completed removal undone -----

  /** Reader 0 holds what the tables `db` answered; call 1 is a writer. */
  function Caught(db: Db, ttl: nat, q: Question, now: Db, writer: Call): State
    requires Query(db, q).Some?
  {
    State(now, map[], map[0 := Found(q, Query(db, q).value, 0), 1 := writer], 0, ttl)
  }

  lemma ReaderHolds(db: Db, ttl: nat, q: Question) returns (tr: Trace)
    requires Query(db, q).Some?
    ensures Valid(tr) && tr.states[0].db == db && |tr.events| == 3
    ensures tr.states[3] == State(db, map[], map[0 := Found(q, Query(db, q).value, 0)], 0, ttl)
  {
    var s := State(db, map[], map[], 0, ttl);
    tr := Trace([s], []);
    tr, s := RunOn(tr, Begin(0, Reading(q)));
    tr, s := RunOn(tr, Advance(0, true));
    tr, s := RunOn(tr, Advance(0, true));
  }

  /** The writer takes one step, the reader none. */
  lemma WriterMoves(tr: Trace, db: Db, ttl: nat, q: Question, now: Db, now': Db, writer: Call, writer': Call)
    returns (tr': Trace)
    requires Valid(tr) && Query(db, q).Some? && tr.states[|tr.events|] == Caught(db, ttl, q, now, writer)
    requires !writer.Served? && !writer.Returned? && !writer.Thrown? && !writer.Found?
    requires var s := Caught(db, ttl, q, now, writer); NextDb(s, writer) == now' && NextCall(s, writer, true) == writer'
    ensures Extends(tr', tr) && |tr'.events| == |tr.events| + 1 && tr'.events[|tr.events|] == Advance(1, true)
    ensures tr'.states[|tr'.events|] == Caught(db, ttl, q, now', writer')
  {
    var s';
    tr', s' := RunOn(tr, Advance(1, true));
    assert s'.calls == Caught(db, ttl, q, now', writer').calls;
    assert s'.cache == map[];
  }

  lemma WriterBegins(tr: Trace, db: Db, ttl: nat, q: Question, writer: Call) returns (tr': Trace)
    requires Valid(tr) && Query(db, q).Some? && IsEntryPoint(writer)
    requires tr.states[|tr.events|] == State(db, map[], map[0 := Found(q, Query(db, q).value, 0)], 0, ttl)
    ensures Extends(tr', tr) && |tr'.events| == |tr.events| + 1
    ensures tr'.states[|tr'.events|] == Caught(db, ttl, q, db, writer)
  {
    var s';
    tr', s' := RunOn(tr, Begin(1, writer));
    assert s'.calls == Caught(db, ttl, q, db, writer).calls;
  }

  lemma RemovalCompletes(db: Db, ttl: nat, u: Id, r: Id, t: Id, q: Question) returns (tr: Trace)
    requires HasUser(db, u, t) && Query(db, q).Some?
    requires SaveAccepted(db, db.users[u].(roleIds := M.Without(db.users[u].roleIds, r)))
    ensures Valid(tr) && tr.states[0].db == db && |tr.events| > 0
    ensures ReturnsAt(tr, |tr.events| - 1, 1, u, t)
    ensures tr.states[|tr.events|] ==
            Caught(db, ttl, q, M.SetRoles(db, u, M.Without(db.users[u].roleIds, r)), Returned)
  {
    var row := db.users[u].(roleIds := M.Without(db.users[u].roleIds, r));
    var now := M.SetRoles(db, u, row.roleIds);
    var tr0 := ReaderHolds(db, ttl, q);
    var tr1 := WriterBegins(tr0, db, ttl, q, Removing(u, r, t));
    var tr2 := WriterMoves(tr1, db, ttl, q, db, db, Removing(u, r, t), Saving(u, row));
    var tr3 := WriterMoves(tr2, db, ttl, q, db, now, Saving(u, row), Invalidating(u, t, true, true));
    var tr4 := WriterMoves(tr3, db, ttl, q, now, now, Invalidating(u, t, true, true), Invalidating(u, t, false, true));
    tr := WriterMoves(tr4, db, ttl, q, now, now, Invalidating(u, t, false, true), Returned);
  }

  lemma ReturnsPrefix(tr': Trace, tr: Trace, w: nat, c: CallId, u: Id, t: Id)
    requires Valid(tr) && Extends(tr', tr) && ReturnsAt(tr, w, c, u, t)
    ensures ReturnsAt(tr', w, c, u, t) && tr'.states[w + 1] == tr.states[w + 1] && tr'.states[0] == tr.states[0]
  {
    assert tr'.states[w] == tr.states[w] && tr'.events[w] == tr.events[w];
  }

  /** The condition on readers is needed.  For every database there is a run in which a
      removal has returned at step `w`, both entries are gone at that moment, and still the
      list from before it is served from the cache later. */
  lemma StaleFill(db: Db, ttl: nat, u: Id, r: Id, t: Id, q: Question) returns (tr: Trace, w: nat, i: nat)
    requires ttl > 0 && HasUser(db, u, t) && q.userId == u && q.tenantId == t
    requires SaveAccepted(db, db.users[u].(roleIds := M.Without(db.users[u].roleIds, r)))
    ensures Valid(tr) && tr.states[0].db == db && w < i < |tr.events|
    ensures ReturnsAt(tr, w, 1, u, t) && tr.states[w + 1].db == M.SetRoles(db, u, M.Without(db.users[u].roleIds, r))
    ensures PermissionsOf(u, t) !in tr.states[w + 1].cache && NamesOf(u, t) !in tr.states[w + 1].cache
    ensures Query(db, q).Some? && Hit(tr, i, q, Query(db, q).value) && OldHit(tr, w + 1, i, q)
  {
    var tr0 := RemovalCompletes(db, ttl, u, r, t, q);
    var n := |tr0.events|;
    assert OldReader(tr0, n, n, 0, q);
    tr := OldReaderServed(tr0, n, 0, q);
    w, i := n - 1, n + 2;
    ReturnsPrefix(tr, tr0, w, 1, u, t);
  }
}
