/** Types shared by every component of the model. */
module Prelude {
  /** Identifiers are opaque to the services; the database hands out UUIDs. */
  type Id = string

  datatype Option<+T> = None | Some(value: T) {
    function GetOr(default: T): T {
      if Some? then value else default
    }
  }

  /** A cached value and the instant from which the store no longer serves it. */
  datatype Entry<+V> = Entry(value: V, expiresAt: int) {
    predicate Live(now: int) {
      now < expiresAt
    }
  }

  /** What a read of `key` gets from the cache at instant `now`. */
  function Lookup<K, V>(cache: map<K, Entry<V>>, key: K, now: int): Option<V> {
    if key in cache && cache[key].Live(now) then Some(cache[key].value) else None
  }

  /** A property of a JavaScript object: not there, there and undefined, null, or a value.
      A request body turned into a DTO has every property of its class, undefined where the
      body says nothing; a plain object from another caller has only what it was given. */
  datatype Field<+T> = Missing | Undefined | Null | Given(value: T)

  /** A property that is there overwrites, whatever it holds. */
  function Assigned<T>(present: Option<T>, f: Field<T>): Field<T> {
    if !f.Missing? then f else if present.Some? then Given(present.value) else Null
  }

  /** A save skips undefined columns. */
  function Column<T>(present: Option<T>, f: Field<T>): Option<T> {
    match f
    case Given(v) => Some(v)
    case Null => None
    case _ => present
  }

  function Shown<T>(f: Field<T>): Option<T> {
    if f.Given? then Some(f.value) else None
  }

  /** The property is there and undefined although the row has a value. */
  predicate Hidden<T>(present: Option<T>, f: Field<T>) {
    f.Undefined? && present.Some?
  }

  predicate NoDuplicates<T(==)>(s: seq<T>) {
    forall i, j :: 0 <= i < j < |s| ==> s[i] != s[j]
  }

  /** A supply of distinct strings, one of each length. */
  function Tag(n: nat): string {
    seq(n, i => 'k')
  }

  lemma SubsetCard<T>(a: set<T>, b: set<T>)
    requires a <= b
    ensures |a| <= |b|
  {
    assert b == a + (b - a);
  }

  /** There is always a number not yet in use. */
  lemma NumberAbove(ids: set<nat>) returns (c: nat)
    ensures forall x :: x in ids ==> x < c
  {
    if ids == {} {
      c := 0;
    } else {
      var x :| x in ids;
      var above := NumberAbove(ids - {x});
      c := if above > x then above else x + 1;
      forall y | y in ids
        ensures y < c
      {
        assert y == x || y in ids - {x};
      }
    }
  }
}
