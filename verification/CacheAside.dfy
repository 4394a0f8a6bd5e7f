/** What holds of any cache that calls fill with answers they have in hand, whatever else the
    calls do: where entries come from, how old they can be, and when an old one can still be
    found.  The machines of single services are looked at through views of this kind. */
module CacheAside {
  import opened Prelude

  /** An answer on its way into the cache, and when it was true. */
  datatype Hand<+K, +V> = Hand(key: K, value: V, since: int)

  /** `truth` is what the tables say, key by key. */
  datatype View<!K, V> = View(
    truth: map<K, V>,
    cache: map<K, Entry<V>>,
    hands: map<nat, Hand<K, V>>,
    now: int)

  /** In one step entries are only added from a hand, and hands only take what is true before
      or after the step. */
  ghost predicate Moves<K(!new), V(!new)>(v: View<K, V>, v': View<K, V>, ttl: nat) {
    && v.now <= v'.now
    && (forall k :: k in v'.cache ==> (k in v.cache && v'.cache[k] == v.cache[k]) || StoredFrom(v, v', k, ttl))
    && (forall c :: c in v'.hands ==> (c in v.hands && v'.hands[c] == v.hands[c]) || Takes(v, v', v'.hands[c]))
  }

  ghost predicate StoredFrom<K, V>(v: View<K, V>, v': View<K, V>, k: K, ttl: nat)
    requires k in v'.cache
  {
    exists c :: c in v.hands && v.hands[c].key == k && v'.cache[k] == Entry(v.hands[c].value, v.now + ttl)
  }

  ghost predicate Takes<K, V>(v: View<K, V>, v': View<K, V>, h: Hand<K, V>) {
    h.since == v.now == v'.now &&
    ((h.key in v.truth && v.truth[h.key] == h.value) || (h.key in v'.truth && v'.truth[h.key] == h.value))
  }

  ghost predicate MovesAt<K(!new), V(!new)>(vs: seq<View<K, V>>, i: int, ttl: nat) {
    0 <= i < |vs| - 1 ==> Moves(vs[i], vs[i + 1], ttl)
  }

  ghost predicate Chain<K(!new), V(!new)>(vs: seq<View<K, V>>, ttl: nat) {
    && |vs| > 0 && vs[0].cache == map[] && vs[0].hands == map[]
    && forall i :: MovesAt(vs, i, ttl)
  }

  /** The tables said so in state `j`. */
  ghost predicate TrueAt<K, V>(vs: seq<View<K, V>>, j: int, k: K, v: V) {
    0 <= j < |vs| && k in vs[j].truth && vs[j].truth[k] == v
  }

  /** The tables said so in some state from `m` to `n`. */
  ghost predicate TrueWithin<K, V>(vs: seq<View<K, V>>, m: int, n: int, k: K, v: V) {
    exists j :: m <= j <= n && TrueAt(vs, j, k, v)
  }

  // ----- Where entries come from -----

  /** True in state `j`, stored by step `s`. */
  ghost predicate EntryFrom<K, V>(vs: seq<View<K, V>>, i: int, k: K, e: Entry<V>, ttl: nat, j: int, s: int) {
    && 0 <= j <= s < i < |vs| && TrueAt(vs, j, k, e.value)
    && e.expiresAt == vs[s].now + ttl && HeldAt(vs, s, k, e.value, vs[j].now)
  }

  /** In state `s` a call has the answer in hand, true at instant `since`. */
  ghost predicate HeldAt<K, V>(vs: seq<View<K, V>>, s: int, k: K, v: V, since: int) {
    0 <= s < |vs| && exists c :: c in vs[s].hands && vs[s].hands[c] == Hand(k, v, since)
  }

  ghost predicate HandFrom<K, V>(vs: seq<View<K, V>>, i: int, h: Hand<K, V>, j: int) {
    0 <= j <= i < |vs| && TrueAt(vs, j, h.key, h.value) && vs[j].now == h.since
  }

  ghost predicate EntryExplained<K, V>(vs: seq<View<K, V>>, i: int, k: K, e: Entry<V>, ttl: nat) {
    exists j, s :: EntryFrom(vs, i, k, e, ttl, j, s)
  }

  ghost predicate HandExplained<K, V>(vs: seq<View<K, V>>, i: int, h: Hand<K, V>) {
    exists j :: HandFrom(vs, i, h, j)
  }

  ghost predicate Explained<K(!new), V>(vs: seq<View<K, V>>, i: int, ttl: nat) {
    0 <= i < |vs| ==>
      && (forall k :: k in vs[i].cache ==> EntryExplained(vs, i, k, vs[i].cache[k], ttl))
      && (forall c :: c in vs[i].hands ==> HandExplained(vs, i, vs[i].hands[c]))
  }

  lemma ExplainedHand<K(!new), V(!new)>(vs: seq<View<K, V>>, ttl: nat, i: nat, c: nat)
    requires Chain(vs, ttl) && i + 1 < |vs| && Explained(vs, i, ttl) && c in vs[i + 1].hands
    ensures HandExplained(vs, i + 1, vs[i + 1].hands[c])
  {
    var v, v', h := vs[i], vs[i + 1], vs[i + 1].hands[c];
    assert MovesAt(vs, i, ttl);
    if c in v.hands && v.hands[c] == h {
      var j :| HandFrom(vs, i, h, j);
      assert HandFrom(vs, i + 1, h, j);
    } else if h.key in v.truth && v.truth[h.key] == h.value {
      assert HandFrom(vs, i + 1, h, i);
    } else {
      assert HandFrom(vs, i + 1, h, i + 1);
    }
  }

  lemma ExplainedEntry<K(!new), V(!new)>(vs: seq<View<K, V>>, ttl: nat, i: nat, k: K)
    requires Chain(vs, ttl) && i + 1 < |vs| && Explained(vs, i, ttl) && k in vs[i + 1].cache
    ensures EntryExplained(vs, i + 1, k, vs[i + 1].cache[k], ttl)
  {
    var v, v', e := vs[i], vs[i + 1], vs[i + 1].cache[k];
    assert MovesAt(vs, i, ttl);
    if k in v.cache && v.cache[k] == e {
      var j, s :| EntryFrom(vs, i, k, e, ttl, j, s);
      assert EntryFrom(vs, i + 1, k, e, ttl, j, s);
    } else {
      var c :| c in v.hands && v.hands[c].key == k && e == Entry(v.hands[c].value, v.now + ttl);
      var j :| HandFrom(vs, i, v.hands[c], j);
      assert v.hands[c] == Hand(k, e.value, vs[j].now);
      assert EntryFrom(vs, i + 1, k, e, ttl, j, i);
    }
  }

  lemma {:induction false} AllExplained<K(!new), V(!new)>(vs: seq<View<K, V>>, ttl: nat, i: nat)
    requires Chain(vs, ttl) && i < |vs|
    ensures Explained(vs, i, ttl)
  {
    if i > 0 {
      AllExplained(vs, ttl, i - 1);
      forall k | k in vs[i].cache
        ensures EntryExplained(vs, i, k, vs[i].cache[k], ttl)
      {
        ExplainedEntry(vs, ttl, i - 1, k);
      }
      forall c | c in vs[i].hands
        ensures HandExplained(vs, i, vs[i].hands[c])
      {
        ExplainedHand(vs, ttl, i - 1, c);
      }
    }
  }

  lemma {:induction false} TimeMoves<K(!new), V(!new)>(vs: seq<View<K, V>>, ttl: nat, i: nat, j: nat)
    requires Chain(vs, ttl) && i <= j < |vs|
    ensures vs[i].now <= vs[j].now
  {
    if i < j {
      TimeMoves(vs, ttl, i, j - 1);
      assert MovesAt(vs, j - 1, ttl);
    }
  }

  /** What a reader finds in the cache was true in some state before and stored less than one
      lifetime ago. */
  lemma FoundWasTrue<K(!new), V(!new)>(vs: seq<View<K, V>>, ttl: nat, i: nat, k: K) returns (j: nat, s: nat)
    requires Chain(vs, ttl) && i < |vs| && Lookup(vs[i].cache, k, vs[i].now).Some?
    ensures j <= s < i && TrueAt(vs, j, k, Lookup(vs[i].cache, k, vs[i].now).value)
    ensures HeldAt(vs, s, k, Lookup(vs[i].cache, k, vs[i].now).value, vs[j].now)
    ensures vs[i].now - vs[s].now < ttl
  {
    AllExplained(vs, ttl, i);
    j, s :| EntryFrom(vs, i, k, vs[i].cache[k], ttl, j, s);
  }

  // ----- Nothing old in reach, nothing old found -----

  /** A call has an answer in hand that was not true in any state from `m` on. */
  ghost predicate OldHand<K, V>(vs: seq<View<K, V>>, m: int, n: int, c: nat, k: K) {
    0 <= n < |vs| && c in vs[n].hands && vs[n].hands[c].key == k && !TrueWithin(vs, m, n, k, vs[n].hands[c].value)
  }

  ghost predicate NoOldHand<K, V>(vs: seq<View<K, V>>, m: int, n: int, k: K) {
    forall c :: !OldHand(vs, m, n, c, k)
  }

  ghost predicate OldEntry<K, V>(vs: seq<View<K, V>>, m: int, n: int, k: K) {
    0 <= n < |vs| && Lookup(vs[n].cache, k, vs[n].now).Some? && !TrueWithin(vs, m, n, k, vs[n].cache[k].value)
  }

  /** An answer not true since state `m` can still get to a reader. */
  ghost predicate OldInReach<K, V>(vs: seq<View<K, V>>, m: int, n: int, k: K, ttl: nat) {
    OldEntry(vs, m, n, k) || (ttl > 0 && exists c :: OldHand(vs, m, n, c, k))
  }

  lemma TrueLater<K, V>(vs: seq<View<K, V>>, m: int, n: int, k: K, v: V)
    requires TrueWithin(vs, m, n, k, v)
    ensures TrueWithin(vs, m, n + 1, k, v)
  {
    var j :| m <= j <= n && TrueAt(vs, j, k, v);
    assert m <= j <= n + 1 && TrueAt(vs, j, k, v);
  }

  lemma HandStays<K(!new), V(!new)>(vs: seq<View<K, V>>, ttl: nat, m: int, i: nat, k: K, c: nat)
    requires Chain(vs, ttl) && m <= i && i + 1 < |vs| && NoOldHand(vs, m, i, k)
    ensures !OldHand(vs, m, i + 1, c, k)
  {
    var v, v' := vs[i], vs[i + 1];
    assert MovesAt(vs, i, ttl);
    if c in v'.hands && v'.hands[c].key == k {
      var value := v'.hands[c].value;
      if c in v.hands && v.hands[c] == v'.hands[c] {
        assert !OldHand(vs, m, i, c, k);
        TrueLater(vs, m, i, k, value);
      } else {
        assert TrueAt(vs, i, k, value) || TrueAt(vs, i + 1, k, value);
      }
    }
  }

  lemma EntryStays<K(!new), V(!new)>(vs: seq<View<K, V>>, ttl: nat, m: int, i: nat, k: K)
    requires Chain(vs, ttl) && m <= i && i + 1 < |vs| && NoOldHand(vs, m, i, k) && !OldEntry(vs, m, i, k)
    ensures !OldEntry(vs, m, i + 1, k)
  {
    var v, v' := vs[i], vs[i + 1];
    assert MovesAt(vs, i, ttl);
    if Lookup(v'.cache, k, v'.now).Some? {
      var value := v'.cache[k].value;
      if !(k in v.cache && v.cache[k] == v'.cache[k]) {
        var c :| c in v.hands && v.hands[c].key == k && v'.cache[k] == Entry(v.hands[c].value, v.now + ttl);
        assert !OldHand(vs, m, i, c, k);
      }
      TrueLater(vs, m, i, k, value);
    }
  }

  lemma {:induction false} StaysOutOfReach<K(!new), V(!new)>(vs: seq<View<K, V>>, ttl: nat, m: int, n: nat, i: nat,
                                                            k: K)
    requires Chain(vs, ttl) && m <= n <= i < |vs| && NoOldHand(vs, m, n, k) && !OldEntry(vs, m, n, k)
    ensures NoOldHand(vs, m, i, k) && !OldEntry(vs, m, i, k)
  {
    if n < i {
      StaysOutOfReach(vs, ttl, m, n, i - 1, k);
      EntryStays(vs, ttl, m, i - 1, k);
      forall c
        ensures !OldHand(vs, m, i, c, k)
      {
        HandStays(vs, ttl, m, i - 1, k, c);
      }
    }
  }

  /** With nothing old in reach in state `n`, whatever is found later was true in some state
      from `m` on. */
  lemma NothingOldFound<K(!new), V(!new)>(vs: seq<View<K, V>>, ttl: nat, m: int, n: nat, i: nat, k: K)
    requires Chain(vs, ttl) && m <= n <= i < |vs| && !OldInReach(vs, m, n, k, ttl)
    ensures !OldEntry(vs, m, i, k)
  {
    if OldEntry(vs, m, i, k) {
      var j, s := FoundWasTrue(vs, ttl, i, k);
      TimeMoves(vs, ttl, s, i);
      StaysOutOfReach(vs, ttl, m, n, i, k);
      assert false;
    }
  }

  /** The same over a prefix: what was so up to `n` does not depend on what came later. */
  lemma WithinPrefix<K, V>(vs: seq<View<K, V>>, vs': seq<View<K, V>>, m: int, n: int, k: K, v: V)
    requires vs <= vs' && n < |vs|
    ensures TrueWithin(vs', m, n, k, v) <==> TrueWithin(vs, m, n, k, v)
  {
    forall j | 0 <= j <= n
      ensures TrueAt(vs', j, k, v) <==> TrueAt(vs, j, k, v)
    {
      assert vs'[j] == vs[j];
    }
  }

  lemma OutOfReachPrefix<K, V>(vs: seq<View<K, V>>, vs': seq<View<K, V>>, m: int, n: nat, k: K, ttl: nat)
    requires vs <= vs' && n < |vs|
    ensures OldInReach(vs', m, n, k, ttl) <==> OldInReach(vs, m, n, k, ttl)
  {
    assert vs'[n] == vs[n];
    if Lookup(vs[n].cache, k, vs[n].now).Some? {
      WithinPrefix(vs, vs', m, n, k, vs[n].cache[k].value);
    }
    forall c
      ensures OldHand(vs', m, n, c, k) <==> OldHand(vs, m, n, c, k)
    {
      if c in vs[n].hands {
        WithinPrefix(vs, vs', m, n, k, vs[n].hands[c].value);
      }
    }
  }
}
