/** The cache wrapper that tracks its own keys, in front of a store that executes
    the commands it was sent later, one at a time and in order. */
module CacheStore {
  import opened CacheKeys

  datatype Command<V> = SetCommand(key: string, value: V) | DelCommand(key: string)

  /** `tracked` is what the wrapper believes, `store` what the server holds, and
      `pending` what was sent but not yet executed. */
  datatype State<V> = State(tracked: set<string>, store: map<string, V>, pending: seq<Command<V>>)

  datatype Event<V> =
    | Set(key: string, value: V)
    | Del(key: string)
    | DelMultiple(keys: seq<string>)
    | Clear(order: seq<string>)
    | Process
    | Expire(gone: set<string>)

  function Execute<V>(store: map<string, V>, c: Command<V>): map<string, V> {
    match c
    case SetCommand(key, value) => store[key := value]
    case DelCommand(key) => store - {key}
  }

  /** The store once every pending command has been executed. */
  function Drain<V>(store: map<string, V>, pending: seq<Command<V>>): map<string, V> {
    if pending == [] then store
    else Execute(Drain(store, pending[..|pending| - 1]), pending[|pending| - 1])
  }

  function Dels<V>(keys: seq<string>): seq<Command<V>> {
    seq(|keys|, i requires 0 <= i < |keys| => DelCommand(keys[i]))
  }

  function Elements(keys: seq<string>): set<string> {
    set k | k in keys
  }

  predicate Enabled<V>(s: State<V>, e: Event<V>) {
    match e
    case Clear(order) => Elements(order) == s.tracked
    case Process => s.pending != []
    case _ => true
  }

  function Step<V>(s: State<V>, e: Event<V>): State<V>
    requires Enabled(s, e)
  {
    match e
    case Set(key, value) => State(s.tracked + {key}, s.store, s.pending + [SetCommand(key, value)])
    case Del(key) => State(s.tracked - {key}, s.store, s.pending + [DelCommand(key)])
    case DelMultiple(keys) => State(s.tracked - Elements(keys), s.store, s.pending + Dels(keys))
    case Clear(order) => State({}, s.store, s.pending + Dels(order))
    case Process => State(s.tracked, Execute(s.store, s.pending[0]), s.pending[1..])
    case Expire(gone) => State(s.tracked, s.store - gone, s.pending)
  }

  predicate ValidRun<V>(s: State<V>, events: seq<Event<V>>)
    decreases |events|
  {
    events == [] || (Enabled(s, events[0]) && ValidRun(Step(s, events[0]), events[1..]))
  }

  function Run<V>(s: State<V>, events: seq<Event<V>>): State<V>
    requires ValidRun(s, events)
    decreases |events|
  {
    if events == [] then s else Run(Step(s, events[0]), events[1..])
  }

  function Left<V>(s: State<V>): set<string> {
    Drain(s.store, s.pending).Keys
  }

  lemma {:induction false} DrainAppend<V>(store: map<string, V>, a: seq<Command<V>>, b: seq<Command<V>>)
    ensures Drain(store, a + b) == Drain(Drain(store, a), b)
    decreases |b|
  {
    if b == [] {
      assert a + b == a;
    } else {
      assert (a + b)[..|a + b| - 1] == a + b[..|b| - 1];
      DrainAppend(store, a, b[..|b| - 1]);
    }
  }

  lemma {:induction false} DrainDels<V>(store: map<string, V>, keys: seq<string>)
    ensures Drain(store, Dels(keys)) == store - Elements(keys)
    decreases |keys|
  {
    if keys != [] {
      var n := |keys| - 1;
      DrainDels(store, keys[..n]);
      assert Dels<V>(keys)[..n] == Dels<V>(keys[..n]);
      assert Elements(keys) == Elements(keys[..n]) + {keys[n]} by {
        assert keys == keys[..n] + [keys[n]];
      }
    }
  }

  lemma {:induction false} DrainExpired<V>(store: map<string, V>, gone: set<string>, pending: seq<Command<V>>)
    ensures Drain(store - gone, pending).Keys <= Drain(store, pending).Keys
    decreases |pending|
  {
    if pending != [] {
      DrainExpired(store, gone, pending[..|pending| - 1]);
    }
  }

  lemma ProcessKeepsDrain<V>(s: State<V>)
    requires s.pending != []
    ensures Drain(Execute(s.store, s.pending[0]), s.pending[1..]) == Drain(s.store, s.pending)
  {
    DrainAppend(s.store, s.pending[..1], s.pending[1..]);
    assert s.pending[..1] + s.pending[1..] == s.pending;
    assert s.pending[..1][..0] == [];
  }

  /** One step changes the keys left after draining as it changes the tracked keys,
      except that expiry may shrink the former alone. */
  lemma StepLeft<V>(s: State<V>, e: Event<V>)
    requires Enabled(s, e)
    ensures Left(s) <= s.tracked ==> Left(Step(s, e)) <= Step(s, e).tracked
    ensures Left(s) == s.tracked && !e.Expire? ==> Left(Step(s, e)) == Step(s, e).tracked
  {
    match e
    case Set(key, value) => DrainAppend(s.store, s.pending, [SetCommand(key, value)]);
    case Del(key) => DrainAppend(s.store, s.pending, [DelCommand(key)]);
    case DelMultiple(keys) =>
      DrainAppend(s.store, s.pending, Dels(keys));
      DrainDels(Drain(s.store, s.pending), keys);
    case Clear(order) =>
      DrainAppend(s.store, s.pending, Dels(order));
      DrainDels(Drain(s.store, s.pending), order);
    case Process => ProcessKeepsDrain(s);
    case Expire(gone) => DrainExpired(s.store, gone, s.pending);
  }

  /** The tracked keys cover whatever the store ends up holding, over every run;
      they are exactly that as long as nothing expires. */
  lemma {:induction false} TrackedKeysCover<V>(s: State<V>, events: seq<Event<V>>)
    requires ValidRun(s, events) && Left(s) <= s.tracked
    ensures Left(Run(s, events)) <= Run(s, events).tracked
    ensures Left(s) == s.tracked && (forall e :: e in events ==> !e.Expire?) ==>
              Left(Run(s, events)) == Run(s, events).tracked
    decreases |events|
  {
    if events != [] {
      StepLeft(s, events[0]);
      TrackedKeysCover(Step(s, events[0]), events[1..]);
    }
  }

  ghost predicate IssuesNothing<V>(events: seq<Event<V>>) {
    forall e :: e in events ==> e.Process? || e.Expire?
  }

  lemma {:induction false} NothingIssued<V>(s: State<V>, events: seq<Event<V>>)
    requires ValidRun(s, events) && IssuesNothing(events) && Left(s) == {}
    ensures Left(Run(s, events)) == {}
    decreases |events|
  {
    if events != [] {
      assert events[0] in events;
      if events[0].Process? {
        ProcessKeepsDrain(s);
      } else {
        DrainExpired(s.store, events[0].gone, s.pending);
      }
      NothingIssued(Step(s, events[0]), events[1..]);
    }
  }

  /** After any run, a `clear` with nothing issued behind it leaves the store empty
      once its commands have been executed. */
  lemma ClearEmptiesStore<V>(s: State<V>, before: seq<Event<V>>, order: seq<string>, after: seq<Event<V>>)
    requires ValidRun(s, before) && Left(s) <= s.tracked
    requires Enabled(Run(s, before), Clear(order))
    requires ValidRun(Step(Run(s, before), Clear(order)), after) && IssuesNothing(after)
    requires Run(Step(Run(s, before), Clear(order)), after).pending == []
    ensures Run(Step(Run(s, before), Clear(order)), after).store == map[]
  {
    TrackedKeysCover(s, before);
    var t := Step(Run(s, before), Clear(order));
    StepLeft(Run(s, before), Clear(order));
    NothingIssued(t, after);
    assert Left(Run(t, after)) == Run(t, after).store.Keys;
  }

  // ----- What the calls say the store holds -----

  /** The last call on a key wins; a clear is a call on every key. */
  function Told<V>(said: map<string, V>, e: Event<V>): map<string, V> {
    match e
    case Set(key, value) => said[key := value]
    case Del(key) => said - {key}
    case DelMultiple(keys) => map k | k in said && k !in keys :: said[k]
    case Clear(_) => map[]
    case _ => said
  }

  function AllTold<V>(said: map<string, V>, events: seq<Event<V>>): map<string, V>
    decreases |events|
  {
    if events == [] then said else AllTold(Told(said, events[0]), events[1..])
  }

  ghost predicate Within<V>(a: map<string, V>, b: map<string, V>) {
    forall k :: k in a ==> k in b && a[k] == b[k]
  }

  lemma {:induction false} ExpiredWithin<V>(store: map<string, V>, gone: set<string>, pending: seq<Command<V>>)
    ensures Within(Drain(store - gone, pending), Drain(store, pending))
    decreases |pending|
  {
    if pending != [] {
      ExpiredWithin(store, gone, pending[..|pending| - 1]);
    }
  }

  lemma StepTold<V>(s: State<V>, e: Event<V>, said: map<string, V>)
    requires Enabled(s, e) && Left(s) <= s.tracked && Within(Drain(s.store, s.pending), said)
    ensures var s' := Step(s, e);
            && Within(Drain(s'.store, s'.pending), Told(said, e))
            && (Drain(s.store, s.pending) == said && !e.Expire? ==> Drain(s'.store, s'.pending) == Told(said, e))
  {
    match e
    case Set(key, value) => DrainAppend(s.store, s.pending, [SetCommand(key, value)]);
    case Del(key) => DrainAppend(s.store, s.pending, [DelCommand(key)]);
    case DelMultiple(keys) =>
      DrainAppend(s.store, s.pending, Dels(keys));
      DrainDels(Drain(s.store, s.pending), keys);
    case Clear(order) =>
      DrainAppend(s.store, s.pending, Dels(order));
      DrainDels(Drain(s.store, s.pending), order);
    case Process => ProcessKeepsDrain(s);
    case Expire(gone) => ExpiredWithin(s.store, gone, s.pending);
  }

  /** After any run, once everything sent is executed, whatever the store holds under a key is
      what the last call on that key put there; and all of that, if nothing expired. */
  lemma {:induction false} LastCallWins<V>(s: State<V>, events: seq<Event<V>>, said: map<string, V>)
    requires ValidRun(s, events) && Left(s) <= s.tracked && Within(Drain(s.store, s.pending), said)
    ensures var s' := Run(s, events);
            && Within(Drain(s'.store, s'.pending), AllTold(said, events))
            && (Drain(s.store, s.pending) == said && (forall e :: e in events ==> !e.Expire?) ==>
                  Drain(s'.store, s'.pending) == AllTold(said, events))
    decreases |events|
  {
    if events != [] {
      StepLeft(s, events[0]);
      StepTold(s, events[0], said);
      LastCallWins(Step(s, events[0]), events[1..], Told(said, events[0]));
    }
  }

  /** The wrapper itself.  `store` and `pending` stand for the server behind it. */
  class CacheService<V> {
    var cacheKeys: set<string>
    var store: map<string, V>
    var pending: seq<Command<V>>

    ghost function Snapshot(): State<V>
      reads this
    {
      State(cacheKeys, store, pending)
    }

    constructor ()
      ensures Snapshot() == State({}, map[], [])
    {
      cacheKeys, store, pending := {}, map[], [];
    }

    method Send(c: Command<V>)
      modifies this`pending
      ensures pending == old(pending) + [c]
    {
      pending := pending + [c];
    }

    method SetKey(key: string, value: V)
      modifies this
      ensures Snapshot() == Step(old(Snapshot()), Set(key, value))
    {
      cacheKeys := cacheKeys + {key};
      Send(SetCommand(key, value));
    }

    method DelKey(key: string)
      modifies this
      ensures Snapshot() == Step(old(Snapshot()), Del(key))
    {
      cacheKeys := cacheKeys - {key};
      Send(DelCommand(key));
    }

    method DelMultipleKeys(keys: seq<string>)
      modifies this
      ensures Snapshot() == Step(old(Snapshot()), DelMultiple(keys))
    {
      for i := 0 to |keys|
        invariant cacheKeys == old(cacheKeys) - Elements(keys[..i])
        invariant store == old(store) && pending == old(pending)
      {
        assert keys[..i + 1] == keys[..i] + [keys[i]];
        cacheKeys := cacheKeys - {keys[i]};
      }
      assert keys[..|keys|] == keys;
      SendDels(keys);
    }

    method SendDels(keys: seq<string>)
      modifies this`pending
      ensures pending == old(pending) + Dels(keys)
    {
      for i := 0 to |keys|
        invariant pending == old(pending) + Dels(keys[..i])
      {
        assert keys[..i + 1] == keys[..i] + [keys[i]];
        assert Dels<V>(keys[..i + 1]) == Dels<V>(keys[..i]) + [DelCommand(keys[i])];
        Send(DelCommand(keys[i]));
      }
      assert keys[..|keys|] == keys;
    }

    method ClearAll() returns (order: seq<string>)
      modifies this
      ensures Elements(order) == old(cacheKeys)
      ensures Snapshot() == Step(old(Snapshot()), Clear(order))
    {
      order := [];
      var left := cacheKeys;
      while left != {}
        invariant Elements(order) + left == cacheKeys
        decreases left
      {
        var k :| k in left;
        order := order + [k];
        left := left - {k};
      }
      cacheKeys := {};
      if |order| > 0 {
        SendDels(order);
      }
    }

    /** Exactly the tenant's own entry and the tenant list go; no other key of any family does. */
    method InvalidateTenant(tenantId: string)
      modifies this
      ensures Snapshot() == Step(old(Snapshot()), DelMultiple([TenantKey(tenantId), TenantListKey()]))
      ensures forall k: Key :: Separable(k) && k !in {TenantK(tenantId), TenantListK} ==>
                (Render(k) in cacheKeys <==> Render(k) in old(cacheKeys))
    {
      ghost var keys := {TenantK(tenantId), TenantListK};
      forall k: Key | Separable(k) && Render(k) in [TenantKey(tenantId), TenantListKey()]
        ensures k in keys
      {
        RenderInjective(k, if Render(k) == TenantKey(tenantId) then TenantK(tenantId) else TenantListK);
      }
      DelMultipleKeys([TenantKey(tenantId), TenantListKey()]);
    }

    /** Exactly the user's own entry and the user list of the tenant go. */
    method InvalidateUser(userId: string, tenantId: string)
      modifies this
      ensures Snapshot() == Step(old(Snapshot()), DelMultiple([UserKey(userId), UserListKey(tenantId)]))
      ensures forall k: Key :: Separable(k) && k !in {UserK(userId), UserListK(tenantId)} ==>
                (Render(k) in cacheKeys <==> Render(k) in old(cacheKeys))
    {
      ghost var keys := {UserK(userId), UserListK(tenantId)};
      forall k: Key | Separable(k) && Render(k) in [UserKey(userId), UserListKey(tenantId)]
        ensures k in keys
      {
        RenderInjective(k, if Render(k) == UserKey(userId) then UserK(userId) else UserListK(tenantId));
      }
      DelMultipleKeys([UserKey(userId), UserListKey(tenantId)]);
    }
  }

  /** Draining an invalidation takes exactly the named entries out of the store, seen
      through the typed keys: every entry of every other key is as it was. */
  lemma InvalidationExact<V(!new)>(s: State<V>, names: seq<string>, keys: set<Key>, typed: map<Key, V>)
    requires Elements(names) == RenderAll(keys)
    requires forall k :: k in keys ==> Separable(k)
    requires Agrees(Drain(s.store, s.pending), typed)
    ensures var t := Step(s, DelMultiple(names));
            Agrees(Drain(t.store, t.pending), typed - keys)
  {
    DrainAppend(s.store, s.pending, Dels(names));
    DrainDels(Drain(s.store, s.pending), names);
    DelAgrees(Drain(s.store, s.pending), typed, keys);
  }
}
