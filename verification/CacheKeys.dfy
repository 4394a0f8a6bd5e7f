/** The string keys under which the services share one cache.  The other modules
    key their cache maps by the ids alone; `RenderInjective` and the two `Agrees`
    lemmas are what makes that lossless. */
module CacheKeys {
  /** One constructor for each key family in use. */
  datatype Key =
    | TenantK(tenantId: string)
    | TenantListK
    | UserK(userId: string)
    | UserListK(tenantId: string)
    | PermissionsK(tenantId: string, userId: string)
    | RolesK(tenantId: string, userId: string)

  function TenantKey(tenantId: string): string { "tenant:" + tenantId }

  function TenantListKey(): string { "tenants:list" }

  function UserKey(userId: string): string { "user:" + userId }

  function UserListKey(tenantId: string): string { "users:" + tenantId + ":list" }

  function PermissionsKey(tenantId: string, userId: string): string {
    "rbac:perms:" + tenantId + ":" + userId
  }

  function RolesKey(tenantId: string, userId: string): string {
    "rbac:roles:" + tenantId + ":" + userId
  }

  function Render(k: Key): string {
    match k
    case TenantK(t) => TenantKey(t)
    case TenantListK => TenantListKey()
    case UserK(u) => UserKey(u)
    case UserListK(t) => UserListKey(t)
    case PermissionsK(t, u) => PermissionsKey(t, u)
    case RolesK(t, u) => RolesKey(t, u)
  }

  /** Only the two RBAC families join two ids, so only there does a ':' in the first id matter. */
  predicate Separable(k: Key) {
    (k.PermissionsK? || k.RolesK?) ==> ':' !in k.tenantId
  }

  lemma JoinInjective(t: string, u: string, t': string, u': string)
    requires ':' !in t && ':' !in t'
    requires t + ":" + u == t' + ":" + u'
    ensures t == t' && u == u'
  {
    var s, s' := t + ":" + u, t' + ":" + u';
    assert s[|t|] == ':' && s'[|t'|] == ':';
    if |t| < |t'| {
      assert false;
    }
    if |t'| < |t| {
      assert false;
    }
    assert s[..|t|] == t && s'[..|t'|] == t';
    assert s[|t| + 1..] == u && s'[|t'| + 1..] == u';
  }

  /** The part of a string after a prefix of known length. */
  lemma DropPrefix(p: string, a: string, b: string)
    requires p + a == p + b
    ensures a == b
  {
    assert (p + a)[|p|..] == a && (p + b)[|p|..] == b;
  }

  lemma JoinedInjective(p: string, t: string, u: string, t': string, u': string)
    requires ':' !in t && ':' !in t'
    requires p + t + ":" + u == p + t' + ":" + u'
    ensures t == t' && u == u'
  {
    assert p + t + ":" + u == p + (t + ":" + u);
    assert p + t' + ":" + u' == p + (t' + ":" + u');
    DropPrefix(p, t + ":" + u, t' + ":" + u');
    JoinInjective(t, u, t', u');
  }

  /** The characters that tell the six families apart. */
  lemma FamilyMarks(k: Key)
    ensures var s := Render(k);
            |s| >= 5 &&
            s[0] == (if k.TenantK? || k.TenantListK? then 't' else if k.UserK? || k.UserListK? then 'u' else 'r') &&
            (k.UserK? ==> s[4] == ':') && (k.UserListK? ==> s[4] == 's') &&
            ((k.TenantK? || k.TenantListK? || k.PermissionsK? || k.RolesK?) ==> |s| >= 7) &&
            (k.TenantK? ==> s[6] == ':') && (k.TenantListK? ==> s[6] == 's') &&
            (k.PermissionsK? ==> s[5] == 'p') && (k.RolesK? ==> s[5] == 'r')
  {
  }

  /** The builders are injective and the six families pairwise disjoint. */
  lemma RenderInjective(k: Key, l: Key)
    requires Separable(k) && Separable(l)
    requires Render(k) == Render(l)
    ensures k == l
  {
    FamilyMarks(k);
    FamilyMarks(l);
    match k
    case TenantK(t) => DropPrefix("tenant:", t, l.tenantId);
    case TenantListK =>
    case UserK(u) => DropPrefix("user:", u, l.userId);
    case UserListK(t) =>
      assert Render(k) == "users:" + (t + ":list");
      assert Render(l) == "users:" + (l.tenantId + ":list");
      DropPrefix("users:", t + ":list", l.tenantId + ":list");
      assert (t + ":list")[..|t|] == t && (l.tenantId + ":list")[..|l.tenantId|] == l.tenantId;
    case PermissionsK(t, u) => JoinedInjective("rbac:perms:", t, u, l.tenantId, l.userId);
    case RolesK(t, u) => JoinedInjective("rbac:roles:", t, u, l.tenantId, l.userId);
  }

  /** Without the restriction on tenant ids two users would share one entry. */
  lemma ColonsCollide()
    ensures PermissionsK("a:b", "c") != PermissionsK("a", "b:c")
    ensures Render(PermissionsK("a:b", "c")) == Render(PermissionsK("a", "b:c"))
  {
  }

  /** The string-keyed store holds exactly what the typed store holds. */
  ghost predicate Agrees<V(!new)>(store: map<string, V>, typed: map<Key, V>) {
    forall k: Key :: Separable(k) ==>
      (Render(k) in store <==> k in typed) && (k in typed ==> store[Render(k)] == typed[k])
  }

  lemma SetAgrees<V(!new)>(store: map<string, V>, typed: map<Key, V>, key: Key, value: V)
    requires Agrees(store, typed) && Separable(key)
    ensures Agrees(store[Render(key) := value], typed[key := value])
  {
    forall k: Key | Separable(k) && Render(k) == Render(key)
      ensures k == key
    {
      RenderInjective(k, key);
    }
  }

  function RenderAll(keys: set<Key>): set<string> {
    set k | k in keys :: Render(k)
  }

  /** Deleting rendered keys removes those entries and no other. */
  lemma DelAgrees<V(!new)>(store: map<string, V>, typed: map<Key, V>, keys: set<Key>)
    requires Agrees(store, typed)
    requires forall k :: k in keys ==> Separable(k)
    ensures Agrees(store - RenderAll(keys), typed - keys)
  {
    forall k: Key | Separable(k)
      ensures Render(k) in RenderAll(keys) <==> k in keys
    {
      if Render(k) in RenderAll(keys) {
        var l :| l in keys && Render(l) == Render(k);
        RenderInjective(k, l);
      }
    }
  }
}
