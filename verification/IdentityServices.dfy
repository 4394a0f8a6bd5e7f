/** The services that write user rows, as classes over one shared database and cache, each
    method proved against the state machine of Identity. */
module IdentityServices {
  import opened Prelude
  import opened Identity

  class Database {
    var tenants: set<Id>
    var users: map<Id, User>
    var tokens: map<Id, Token>
    var cache: map<Id, Entry<UserDto>>
    var now: int
    const ttl: nat
    ghost var issued: set<Id>
    ghost var drawn: set<string>

    constructor (ttl: nat)
      ensures Empty(Snapshot()) && Invariant() && this.ttl == ttl
    {
      tenants, users, tokens, cache, now := {}, map[], map[], map[], 0;
      issued, drawn := {}, {};
      this.ttl := ttl;
    }

    ghost function Snapshot(): State
      reads this
    {
      State(tenants, users, tokens, cache, issued, drawn, now, ttl)
    }

    /** The unique constraints and foreign keys. */
    ghost predicate Invariant()
      reads this
    {
      UsersSound(Snapshot()) && TokensSound(Snapshot())
    }

    method Save(id: Id, row: User)
      requires id in users
      modifies this`users
      ensures users == Saved(old(users), id, row, now)
    {
      if row != users[id] {
        users := users[id := row.(updatedAt := now)];
      } else {
        assert users[id := row] == users;
      }
    }

    /** The bulk update of a user's unused tokens. */
    method MarkTokensUsed(userId: Id)
      modifies this`tokens
      ensures tokens == UseAll(old(tokens), userId)
    {
      tokens := map k | k in tokens :: if tokens[k].userId == userId then tokens[k].(used := true) else tokens[k];
    }

    method FindByEmail(tenantId: Id, email: string) returns (id: Option<Id>)
      requires UniqueEmails(users)
      ensures id.None? <==> !Known(users, tenantId, email)
      ensures id.Some? ==> id.value == IdOf(users, tenantId, email)
    {
      if exists u :: u in users && users[u].tenantId == tenantId && users[u].email == email {
        var u :| u in users && users[u].tenantId == tenantId && users[u].email == email;
        return Some(u);
      }
      return None;
    }
  }

  class RegisterService {
    const db: Database

    constructor (db: Database)
      ensures this.db == db
    {
      this.db := db;
    }

    method Execute(tenantId: Id, email: string, name: string, password: string, newId: Id) returns (outcome: Outcome)
      requires db.Invariant() && newId !in db.issued
      modifies db
      ensures db.Invariant()
      ensures (db.Snapshot(), outcome) == Step(old(db.Snapshot()), Register(tenantId, email, name, password, newId))
    {
      StepUsersSound(db.Snapshot(), Register(tenantId, email, name, password, newId));
      StepTokensSound(db.Snapshot(), Register(tenantId, email, name, password, newId));
      if tenantId !in db.tenants {
        return TenantMissing;
      }
      var existingUser := db.FindByEmail(tenantId, email);
      if existingUser.Some? {
        return EmailTaken;
      }
      var user := User(tenantId, email, name, Bcrypt(password), Pending, None, db.now, db.now);
      db.users := db.users[newId := user];
      db.issued := db.issued + {newId};
      return Created(newId);
    }
  }

  class LoginService {
    const db: Database

    constructor (db: Database)
      ensures this.db == db
    {
      this.db := db;
    }

    method Execute(tenantId: Id, email: string, password: string) returns (outcome: Outcome)
      requires db.Invariant()
      modifies db
      ensures db.Invariant()
      ensures (db.Snapshot(), outcome) == Step(old(db.Snapshot()), Login(tenantId, email, password))
    {
      StepUsersSound(db.Snapshot(), Login(tenantId, email, password));
      StepTokensSound(db.Snapshot(), Login(tenantId, email, password));
      var found := db.FindByEmail(tenantId, email);
      if found.None? {
        return Refused;
      }
      var user := db.users[found.value];
      if !user.passwordHash.Accepts(password) {
        return Refused;
      }
      if user.status != Active && user.status != Pending {
        return UserInactive;
      }
      db.Save(found.value, user.(lastLoginAt := Some(db.now)));
      return LoggedIn(found.value);
    }
  }

  class ChangePasswordService {
    const db: Database

    constructor (db: Database)
      ensures this.db == db
    {
      this.db := db;
    }

    method Execute(userId: Id, tenantId: Id, currentPassword: string, newPassword: string) returns (outcome: Outcome)
      requires db.Invariant()
      modifies db
      ensures db.Invariant()
      ensures (db.Snapshot(), outcome) ==
              Step(old(db.Snapshot()), ChangePassword(tenantId, userId, currentPassword, newPassword))
    {
      StepUsersSound(db.Snapshot(), ChangePassword(tenantId, userId, currentPassword, newPassword));
      StepTokensSound(db.Snapshot(), ChangePassword(tenantId, userId, currentPassword, newPassword));
      if userId !in db.users || db.users[userId].tenantId != tenantId {
        return NotFound;
      }
      var user := db.users[userId];
      if !user.passwordHash.Accepts(currentPassword) {
        return Refused;
      }
      db.Save(userId, user.(passwordHash := Bcrypt(newPassword)));
      return Done;
    }
  }

  class ProfileService {
    const db: Database

    constructor (db: Database)
      ensures this.db == db
    {
      this.db := db;
    }

    method UpdateProfileName(userId: Id, tenantId: Id, name: Option<string>) returns (outcome: Outcome)
      requires db.Invariant()
      modifies db
      ensures db.Invariant()
      ensures (db.Snapshot(), outcome) == Step(old(db.Snapshot()), UpdateProfile(tenantId, userId, name))
    {
      StepUsersSound(db.Snapshot(), UpdateProfile(tenantId, userId, name));
      StepTokensSound(db.Snapshot(), UpdateProfile(tenantId, userId, name));
      if userId !in db.users || db.users[userId].tenantId != tenantId {
        return NotFound;
      }
      var user := db.users[userId];
      if name.Some? {
        user := user.(name := name.value);
      }
      db.Save(userId, user);
      return Done;
    }
  }

  class PasswordResetService {
    const db: Database

    constructor (db: Database)
      ensures this.db == db
    {
      this.db := db;
    }

    method Request(email: string, tenantId: Id, newTokenId: Id, rawToken: string) returns (outcome: Outcome)
      requires db.Invariant() && newTokenId !in db.tokens && rawToken !in db.drawn
      modifies db
      ensures db.Invariant()
      ensures (db.Snapshot(), outcome) == Step(old(db.Snapshot()), RequestReset(tenantId, email, newTokenId, rawToken))
    {
      ghost var after := Step(db.Snapshot(), RequestReset(tenantId, email, newTokenId, rawToken)).0;
      StepUsersSound(db.Snapshot(), RequestReset(tenantId, email, newTokenId, rawToken));
      StepTokensSound(db.Snapshot(), RequestReset(tenantId, email, newTokenId, rawToken));
      var user := db.FindByEmail(tenantId, email);
      if user.None? {
        assert db.Snapshot() == after;
        return Ignored;
      }
      assert after == DoRequestReset(db.Snapshot(), tenantId, email, newTokenId, rawToken).0;
      db.MarkTokensUsed(user.value);
      var expiresAt := db.now + TOKEN_TTL_MINUTES * 60 * 1000;
      db.tokens := db.tokens[newTokenId := Token(user.value, tenantId, Sha256(rawToken), expiresAt, false)];
      db.drawn := db.drawn + {rawToken};
      assert db.tokens == after.tokens && db.Snapshot() == after;
      return TokenSent(user.value);
    }

    method Reset(token: string, tenantId: Id, newPassword: string) returns (outcome: Outcome)
      requires db.Invariant()
      modifies db
      ensures db.Invariant()
      ensures (db.Snapshot(), outcome) == Step(old(db.Snapshot()), ResetPassword(tenantId, token, newPassword))
    {
      StepUsersSound(db.Snapshot(), ResetPassword(tenantId, token, newPassword));
      StepTokensSound(db.Snapshot(), ResetPassword(tenantId, token, newPassword));
      var hashed := Sha256(token);
      if !exists k :: k in db.tokens && db.tokens[k].token == hashed && db.tokens[k].tenantId == tenantId &&
                      !db.tokens[k].used && db.tokens[k].expiresAt > db.now
      {
        assert forall k :: k in db.tokens ==> !Redeemable(db.tokens[k], token, tenantId, db.now);
        return Refused;
      }
      var k :| k in db.tokens && db.tokens[k].token == hashed && db.tokens[k].tenantId == tenantId &&
               !db.tokens[k].used && db.tokens[k].expiresAt > db.now;
      assert Redeemable(db.tokens[k], token, tenantId, db.now);
      assert k == TokenOf(db.tokens, token, tenantId, db.now);
      var record := db.tokens[k];
      db.Save(record.userId, db.users[record.userId].(passwordHash := Bcrypt(newPassword)));
      db.tokens := db.tokens[k := record.(used := true)];
      return ResetDone(record.userId);
    }
  }

  class UserService {
    const db: Database

    constructor (db: Database)
      ensures this.db == db
    {
      this.db := db;
    }

    method Create(tenantId: Id, email: string, name: string, password: string, newId: Id) returns (outcome: Outcome)
      requires db.Invariant() && newId !in db.issued
      modifies db
      ensures db.Invariant()
      ensures (db.Snapshot(), outcome) == Step(old(db.Snapshot()), CreateUser(tenantId, email, name, password, newId))
    {
      StepUsersSound(db.Snapshot(), CreateUser(tenantId, email, name, password, newId));
      StepTokensSound(db.Snapshot(), CreateUser(tenantId, email, name, password, newId));
      if tenantId !in db.tenants {
        return TenantMissing;
      }
      var existingUser := db.FindByEmail(tenantId, email);
      if existingUser.Some? {
        return EmailTaken;
      }
      var saved := User(tenantId, email, name, Bcrypt(password), Active, None, db.now, db.now);
      db.users := db.users[newId := saved];
      db.issued := db.issued + {newId};
      db.cache := db.cache[newId := Entry(FormatResponse(newId, saved), db.now + db.ttl)];
      return Created(newId);
    }

    method FindById(tenantId: Id, userId: Id) returns (outcome: Outcome)
      requires db.Invariant()
      modifies db
      ensures db.Invariant()
      ensures (db.Snapshot(), outcome) == Step(old(db.Snapshot()), FindUser(tenantId, userId))
    {
      var cached := Lookup(db.cache, userId, db.now);
      if cached.Some? && cached.value.tenantId == tenantId {
        return Read(cached.value);
      }
      if userId !in db.users || db.users[userId].tenantId != tenantId {
        return NotFound;
      }
      var response := FormatResponse(userId, db.users[userId]);
      db.cache := db.cache[userId := Entry(response, db.now + db.ttl)];
      return Read(response);
    }

    method Update(tenantId: Id, userId: Id, name: Option<string>, status: Option<Status>) returns (outcome: Outcome)
      requires db.Invariant()
      modifies db
      ensures db.Invariant()
      ensures (db.Snapshot(), outcome) == Step(old(db.Snapshot()), UpdateUser(tenantId, userId, name, status))
    {
      StepUsersSound(db.Snapshot(), UpdateUser(tenantId, userId, name, status));
      StepTokensSound(db.Snapshot(), UpdateUser(tenantId, userId, name, status));
      if userId !in db.users || db.users[userId].tenantId != tenantId {
        return NotFound;
      }
      var user := db.users[userId];
      if name.Some? {
        user := user.(name := name.value);
      }
      if status.Some? {
        user := user.(status := status.value);
      }
      db.Save(userId, user);
      db.cache := db.cache - {userId};
      return Done;
    }

    /** The cache entry goes before the row; the tokens go with the row. */
    method Delete(tenantId: Id, userId: Id) returns (outcome: Outcome)
      requires db.Invariant()
      modifies db
      ensures db.Invariant()
      ensures (db.Snapshot(), outcome) == Step(old(db.Snapshot()), DeleteUser(tenantId, userId))
    {
      StepUsersSound(db.Snapshot(), DeleteUser(tenantId, userId));
      StepTokensSound(db.Snapshot(), DeleteUser(tenantId, userId));
      if userId !in db.users || db.users[userId].tenantId != tenantId {
        return NotFound;
      }
      db.cache := db.cache - {userId};
      db.users := db.users - {userId};
      db.tokens := map k | k in db.tokens && db.tokens[k].userId != userId :: db.tokens[k];
      return Done;
    }
  }
}
