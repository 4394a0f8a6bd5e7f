/** The API key service over its repository, proved against the state machine. */
module ApiKeysServices {
  import opened Prelude
  import opened ApiKeys

  class ApiKeysService {
    var keys: map<Id, ApiKey>
    var tenants: set<Id>
    var now: int
    const apiKeyMaxActive: nat
    const lastUsedUpdateInterval: nat

    ghost function Snapshot(): State
      reads this
    {
      State(keys, tenants, now, apiKeyMaxActive, lastUsedUpdateInterval)
    }

    ghost predicate Invariant()
      reads this
    {
      UniqueKeys(keys)
    }

    /** The service refuses to start without a hash secret. */
    constructor (maxActive: nat, interval: nat, hashSecret: string, tenants: set<Id>)
      requires hashSecret != ""
      ensures Snapshot() == State(map[], tenants, 0, maxActive, interval) && Invariant()
    {
      keys, now, apiKeyMaxActive, lastUsedUpdateInterval := map[], 0, maxActive, interval;
      this.tenants := tenants;
    }

    method CreateKey(tenantId: Id, name: string, scopes: Option<seq<string>>, expiresAt: Option<int>,
                     newId: Id, key: string, secret: string) returns (outcome: Outcome)
      requires Invariant() && newId !in keys
      modifies this
      ensures Invariant()
      ensures (Snapshot(), outcome) ==
              Step(old(Snapshot()), Create(tenantId, name, scopes, expiresAt, newId, key, secret))
    {
      var existingKeys := |set id | id in keys && keys[id].tenantId == tenantId && keys[id].status.Active?|;
      assert existingKeys == |ActiveIds(keys, tenantId)| by {
        assert (set id | id in keys && keys[id].tenantId == tenantId && keys[id].status.Active?) ==
               ActiveIds(keys, tenantId);
      }
      if existingKeys >= apiKeyMaxActive {
        return LimitReached;
      }
      var hashedSecret := Hmac(secret);
      if exists id :: id in keys && keys[id].key == key {
        return KeyExists;
      }
      var apiKey := ApiKey(tenantId, name, key, hashedSecret, Active, [], None, None);
      if scopes.Some? {
        apiKey := apiKey.(scopes := scopes.value);
      }
      if expiresAt.Some? {
        apiKey := apiKey.(expiresAt := expiresAt);
      }
      // The unique constraint on (tenantId, name) can refuse the save.
      if !NameFree(keys, tenantId, name, newId) {
        return NameTaken;
      }
      // So does the tenant's foreign key.
      if tenantId !in tenants {
        return TenantMissing;
      }
      keys := keys[newId := apiKey];
      return Done;
    }

    method UpdateKey(tenantId: Id, keyId: Id, name: Option<string>, scopes: Option<seq<string>>, expiresAt: Option<int>)
      returns (outcome: Outcome)
      requires Invariant()
      modifies this
      ensures Invariant()
      ensures (Snapshot(), outcome) == Step(old(Snapshot()), Update(tenantId, keyId, name, scopes, expiresAt))
    {
      if keyId !in keys || keys[keyId].tenantId != tenantId {
        return NotFound;
      }
      var key := keys[keyId];
      if name.Some? && name.value != "" {
        key := key.(name := name.value);
      }
      if scopes.Some? {
        key := key.(scopes := scopes.value);
      }
      if expiresAt.Some? {
        key := key.(expiresAt := expiresAt);
      }
      if !NameFree(keys, tenantId, key.name, keyId) {
        return NameTaken;
      }
      keys := keys[keyId := key];
      return Done;
    }

    method RevokeKey(tenantId: Id, keyId: Id) returns (outcome: Outcome)
      requires Invariant()
      modifies this
      ensures Invariant()
      ensures (Snapshot(), outcome) == Step(old(Snapshot()), Revoke(tenantId, keyId))
    {
      if keyId !in keys || keys[keyId].tenantId != tenantId {
        return NotFound;
      }
      keys := keys[keyId := keys[keyId].(status := Revoked)];
      return Done;
    }

    method DeleteKey(tenantId: Id, keyId: Id) returns (outcome: Outcome)
      requires Invariant()
      modifies this
      ensures Invariant()
      ensures (Snapshot(), outcome) == Step(old(Snapshot()), Delete(tenantId, keyId))
    {
      if keyId !in keys || keys[keyId].tenantId != tenantId {
        return NotFound;
      }
      keys := keys - {keyId};
      return Done;
    }

    method RotateKey(tenantId: Id, keyId: Id, newSecret: string) returns (outcome: Outcome)
      requires Invariant()
      modifies this
      ensures Invariant()
      ensures (Snapshot(), outcome) == Step(old(Snapshot()), Rotate(tenantId, keyId, newSecret))
    {
      if keyId !in keys || keys[keyId].tenantId != tenantId {
        return NotFound;
      }
      keys := keys[keyId := keys[keyId].(secret := Hmac(newSecret))];
      return Done;
    }

    method ValidateApiKey(key: string, secret: string) returns (outcome: Outcome)
      requires Invariant()
      modifies this
      ensures Invariant()
      ensures (Snapshot(), outcome) == Step(old(Snapshot()), Validate(key, secret))
    {
      if !exists id :: id in keys && keys[id].key == key {
        return Rejected;
      }
      var id :| id in keys && keys[id].key == key;
      assert id == IdOf(keys, key);
      var apiKey := keys[id];
      assert keys[id := apiKey] == keys;
      if apiKey.status != Active {
        return Rejected;
      }
      if apiKey.expiresAt.Some? && apiKey.expiresAt.value < now {
        keys := keys[id := apiKey.(status := Expired)];
        return Rejected;
      }
      if Hmac(secret) != apiKey.secret {
        return Rejected;
      }
      if ShouldUpdateLastUsed(apiKey.lastUsedAt, now, lastUsedUpdateInterval) {
        keys := keys[id := apiKey.(lastUsedAt := Some(now))];
      }
      return Accepted(id);
    }
  }
}
