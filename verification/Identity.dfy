/** Users, their passwords, reset tokens and cached profiles: every service that writes
    user rows, one call a step. */
module Identity {
  import opened Prelude

  /** Salted password hash; comparing a password succeeds for the one hashed. */
  datatype PasswordHash = Bcrypt(password: string) {
    predicate Accepts(plain: string) {
      plain == password
    }
  }

  datatype TokenDigest = Sha256(raw: string)

  datatype Status = Active | Inactive | Pending | Archived

  datatype User = User(
    tenantId: Id,
    email: string,
    name: string,
    passwordHash: PasswordHash,
    status: Status,
    lastLoginAt: Option<int>,
    createdAt: int,
    updatedAt: int)

  datatype UserDto = UserDto(
    id: Id,
    email: string,
    name: string,
    tenantId: Id,
    status: Status,
    lastLoginAt: Option<int>,
    createdAt: int,
    updatedAt: int)

  datatype Token = Token(userId: Id, tenantId: Id, token: TokenDigest, expiresAt: int, used: bool)

  /** `issued` are all user and tenant ids ever handed out, `drawn` all raw tokens. */
  datatype State = State(
    tenants: set<Id>,
    users: map<Id, User>,
    tokens: map<Id, Token>,
    cache: map<Id, Entry<UserDto>>,
    issued: set<Id>,
    drawn: set<string>,
    now: int,
    ttl: nat)

  const TOKEN_TTL_MINUTES := 60
  const TOKEN_TTL := TOKEN_TTL_MINUTES * 60 * 1000

  datatype Op =
    | NewTenant(newId: Id)
    | DropTenant(tenantId: Id)
    | CreateUser(tenantId: Id, email: string, name: string, password: string, newId: Id)
    | Register(tenantId: Id, email: string, name: string, password: string, newId: Id)
    | FindUser(tenantId: Id, userId: Id)
    | UpdateUser(tenantId: Id, userId: Id, newName: Option<string>, newStatus: Option<Status>)
    | DeleteUser(tenantId: Id, userId: Id)
    | UpdateProfile(tenantId: Id, userId: Id, newName: Option<string>)
    | Login(tenantId: Id, email: string, password: string)
    | ChangePassword(tenantId: Id, userId: Id, current: string, next: string)
    | RequestReset(tenantId: Id, email: string, newTokenId: Id, raw: string)
    | ResetPassword(tenantId: Id, raw: string, next: string)
    | Evict(userId: Id)
    | Tick(elapsed: nat)

  datatype Outcome =
    | Done
    | Created(id: Id)
    | Read(dto: UserDto)
    | LoggedIn(id: Id)
    | TokenSent(id: Id)
    | ResetDone(id: Id)
    | NotFound
    | TenantMissing
    | EmailTaken
    | Refused
    | UserInactive
    | Ignored

  function FormatResponse(id: Id, user: User): UserDto {
    UserDto(id, user.email, user.name, user.tenantId, user.status, user.lastLoginAt, user.createdAt, user.updatedAt)
  }

  predicate Has(users: map<Id, User>, tenantId: Id, userId: Id) {
    userId in users && users[userId].tenantId == tenantId
  }

  predicate Known(users: map<Id, User>, tenantId: Id, email: string) {
    exists u :: u in users && users[u].tenantId == tenantId && users[u].email == email
  }

  ghost function IdOf(users: map<Id, User>, tenantId: Id, email: string): Id
    requires Known(users, tenantId, email)
  {
    var u :| u in users && users[u].tenantId == tenantId && users[u].email == email;
    u
  }

  /** Saving a changed row stamps it. */
  function Saved(users: map<Id, User>, id: Id, row: User, now: int): map<Id, User>
    requires id in users
  {
    users[id := if row == users[id] then row else row.(updatedAt := now)]
  }

  function NewUser(op: Op, status: Status, now: int): User
    requires op.CreateUser? || op.Register?
  {
    User(op.tenantId, op.email, op.name, Bcrypt(op.password), status, None, now, now)
  }

  predicate MayLogIn(status: Status) {
    status.Active? || status.Pending?
  }

  // ----- Reset tokens -----

  /** The bulk update: all unused tokens of the user become used. */
  function UseAll(tokens: map<Id, Token>, userId: Id): map<Id, Token> {
    map k | k in tokens :: if tokens[k].userId == userId then tokens[k].(used := true) else tokens[k]
  }

  predicate Redeemable(token: Token, raw: string, tenantId: Id, now: int) {
    token.token == Sha256(raw) && token.tenantId == tenantId && !token.used && token.expiresAt > now
  }

  predicate CanRedeem(tokens: map<Id, Token>, raw: string, tenantId: Id, now: int) {
    exists k :: k in tokens && Redeemable(tokens[k], raw, tenantId, now)
  }

  ghost function TokenOf(tokens: map<Id, Token>, raw: string, tenantId: Id, now: int): Id
    requires CanRedeem(tokens, raw, tenantId, now)
  {
    var k :| k in tokens && Redeemable(tokens[k], raw, tenantId, now);
    k
  }

  // ----- The services -----

  function Insert(s: State, op: Op, status: Status): (State, Outcome)
    requires op.CreateUser? || op.Register?
  {
    if op.tenantId !in s.tenants then (s, TenantMissing)
    else if Known(s.users, op.tenantId, op.email) then (s, EmailTaken)
    else
      (s.(users := s.users[op.newId := NewUser(op, status, s.now)], issued := s.issued + {op.newId}),
       Created(op.newId))
  }

  function Cached(s: State, id: Id): State
    requires id in s.users
  {
    s.(cache := s.cache[id := Entry(FormatResponse(id, s.users[id]), s.now + s.ttl)])
  }

  function DoCreateUser(s: State, op: Op): (State, Outcome)
    requires op.CreateUser?
  {
    var (s', outcome) := Insert(s, op, Active);
    if outcome.Created? then (Cached(s', op.newId), outcome) else (s, outcome)
  }

  /** A cached profile of another tenant is not served but looked up. */
  function DoFindUser(s: State, t: Id, u: Id): (State, Outcome) {
    var cached := Lookup(s.cache, u, s.now);
    if cached.Some? && cached.value.tenantId == t then (s, Read(cached.value))
    else if !Has(s.users, t, u) then (s, NotFound)
    else (Cached(s, u), Read(FormatResponse(u, s.users[u])))
  }

  function DoUpdateUser(s: State, t: Id, u: Id, name: Option<string>, status: Option<Status>): (State, Outcome) {
    if !Has(s.users, t, u) then (s, NotFound)
    else
      var row := s.users[u].(name := name.GetOr(s.users[u].name), status := status.GetOr(s.users[u].status));
      (s.(users := Saved(s.users, u, row, s.now), cache := s.cache - {u}), Done)
  }

  /** The database cascades to the user's tokens. */
  function DoDeleteUser(s: State, t: Id, u: Id): (State, Outcome) {
    if !Has(s.users, t, u) then (s, NotFound)
    else
      (s.(users := s.users - {u}, cache := s.cache - {u},
          tokens := map k | k in s.tokens && s.tokens[k].userId != u :: s.tokens[k]), Done)
  }

  function DoDropTenant(s: State, t: Id): State {
    s.(tenants := s.tenants - {t},
       users := map u | u in s.users && s.users[u].tenantId != t :: s.users[u],
       tokens := map k | k in s.tokens &&
                         !(s.tokens[k].userId in s.users && s.users[s.tokens[k].userId].tenantId == t) :: s.tokens[k])
  }

  function DoUpdateProfile(s: State, t: Id, u: Id, name: Option<string>): (State, Outcome) {
    if !Has(s.users, t, u) then (s, NotFound)
    else (s.(users := Saved(s.users, u, s.users[u].(name := name.GetOr(s.users[u].name)), s.now)), Done)
  }

  ghost function DoLogin(s: State, t: Id, email: string, password: string): (State, Outcome) {
    if !Known(s.users, t, email) then (s, Refused)
    else
      var u := IdOf(s.users, t, email);
      if !s.users[u].passwordHash.Accepts(password) then (s, Refused)
      else if !MayLogIn(s.users[u].status) then (s, UserInactive)
      else (s.(users := Saved(s.users, u, s.users[u].(lastLoginAt := Some(s.now)), s.now)), LoggedIn(u))
  }

  function DoChangePassword(s: State, t: Id, u: Id, current: string, next: string): (State, Outcome) {
    if !Has(s.users, t, u) then (s, NotFound)
    else if !s.users[u].passwordHash.Accepts(current) then (s, Refused)
    else (s.(users := Saved(s.users, u, s.users[u].(passwordHash := Bcrypt(next)), s.now)), Done)
  }

  /** An unknown address gets the same answer to the caller and no token. */
  ghost function DoRequestReset(s: State, t: Id, email: string, newTokenId: Id, raw: string): (State, Outcome) {
    if !Known(s.users, t, email) then (s, Ignored)
    else
      var u := IdOf(s.users, t, email);
      var token := Token(u, t, Sha256(raw), s.now + TOKEN_TTL, false);
      (s.(tokens := UseAll(s.tokens, u)[newTokenId := token], drawn := s.drawn + {raw}), TokenSent(u))
  }

  ghost function DoResetPassword(s: State, t: Id, raw: string, next: string): (State, Outcome) {
    if !CanRedeem(s.tokens, raw, t, s.now) then (s, Refused)
    else
      var k := TokenOf(s.tokens, raw, t, s.now);
      var u := s.tokens[k].userId;
      if u !in s.users then (s, Refused)
      else
        (s.(users := Saved(s.users, u, s.users[u].(passwordHash := Bcrypt(next)), s.now),
            tokens := s.tokens[k := s.tokens[k].(used := true)]), ResetDone(u))
  }

  ghost function Step(s: State, op: Op): (State, Outcome) {
    match op
    case NewTenant(newId) => (s.(tenants := s.tenants + {newId}, issued := s.issued + {newId}), Done)
    case DropTenant(t) => (DoDropTenant(s, t), Done)
    case CreateUser(_, _, _, _, _) => DoCreateUser(s, op)
    case Register(_, _, _, _, _) => Insert(s, op, Pending)
    case FindUser(t, u) => DoFindUser(s, t, u)
    case UpdateUser(t, u, name, status) => DoUpdateUser(s, t, u, name, status)
    case DeleteUser(t, u) => DoDeleteUser(s, t, u)
    case UpdateProfile(t, u, name) => DoUpdateProfile(s, t, u, name)
    case Login(t, email, password) => DoLogin(s, t, email, password)
    case ChangePassword(t, u, current, next) => DoChangePassword(s, t, u, current, next)
    case RequestReset(t, email, newTokenId, raw) => DoRequestReset(s, t, email, newTokenId, raw)
    case ResetPassword(t, raw, next) => DoResetPassword(s, t, raw, next)
    case Evict(u) => (s.(cache := s.cache - {u}), Done)
    case Tick(elapsed) => (s.(now := s.now + elapsed), Done)
  }

  /** Ids and raw tokens are fresh. */
  predicate Enabled(s: State, op: Op) {
    match op
    case NewTenant(newId) => newId !in s.issued
    case CreateUser(_, _, _, _, newId) => newId !in s.issued
    case Register(_, _, _, _, newId) => newId !in s.issued
    case RequestReset(_, _, newTokenId, raw) => newTokenId !in s.tokens && raw !in s.drawn
    case _ => true
  }

  // ----- Runs -----

  datatype Event = Event(op: Op, outcome: Outcome, time: int)

  datatype Trace = Trace(states: seq<State>, events: seq<Event>)

  ghost predicate Follows(s: State, e: Event, s': State) {
    Enabled(s, e.op) && Step(s, e.op) == (s', e.outcome) && e.time == s.now
  }

  predicate Empty(s: State) {
    s.tenants == {} && s.users == map[] && s.tokens == map[] && s.cache == map[] && s.issued == {} && s.drawn == {}
  }

  /** Event `i` of the run is what happens between states `i` and `i + 1`. */
  ghost predicate StepAt(tr: Trace, i: int) {
    0 <= i < |tr.events| < |tr.states| ==> Follows(tr.states[i], tr.events[i], tr.states[i + 1])
  }

  ghost predicate Valid(tr: Trace) {
    && |tr.states| == |tr.events| + 1
    && Empty(tr.states[0])
    && forall i :: StepAt(tr, i)
  }

  // ----- What every step keeps -----

  ghost predicate UniqueEmails(users: map<Id, User>) {
    forall u, v ::
      u in users && v in users && users[u].tenantId == users[v].tenantId && users[u].email == users[v].email ==>
        u == v
  }

  ghost predicate UniqueTokens(tokens: map<Id, Token>) {
    forall k, l :: k in tokens && l in tokens && tokens[k].token == tokens[l].token ==> k == l
  }

  /** At most one unused token a user. */
  ghost predicate OneUnused(tokens: map<Id, Token>) {
    forall k, l ::
      k in tokens && l in tokens && !tokens[k].used && !tokens[l].used && tokens[k].userId == tokens[l].userId ==>
        k == l
  }

  ghost predicate UsersSound(s: State) {
    && UniqueEmails(s.users)
    && s.users.Keys <= s.issued && s.tenants <= s.issued
    && forall u :: u in s.users ==> s.users[u].tenantId in s.tenants
  }

  ghost predicate TokensSound(s: State) {
    && UniqueTokens(s.tokens) && OneUnused(s.tokens)
    && forall k :: k in s.tokens ==>
         s.tokens[k].token.raw in s.drawn && Has(s.users, s.tokens[k].tenantId, s.tokens[k].userId)
  }

  lemma InsertUsersSound(s: State, op: Op, status: Status)
    requires (op.CreateUser? || op.Register?) && op.newId !in s.issued && UsersSound(s)
    ensures UsersSound(Insert(s, op, status).0)
  {
  }

  lemma FewerUsersSound(s: State, op: Op)
    requires (op.DropTenant? || op.DeleteUser?) && UsersSound(s)
    ensures UsersSound(Step(s, op).0)
  {
  }

  lemma StepUsersSound(s: State, op: Op)
    requires Enabled(s, op) && UsersSound(s)
    ensures UsersSound(Step(s, op).0)
  {
    if op.CreateUser? {
      InsertUsersSound(s, op, Active);
    } else if op.Register? {
      InsertUsersSound(s, op, Pending);
    } else if op.DropTenant? || op.DeleteUser? {
      FewerUsersSound(s, op);
    }
  }

  /** Dropping tokens along with their users keeps the rest sound. */
  lemma FewerTokensSound(s: State, s': State)
    requires TokensSound(s) && s'.drawn == s.drawn && s'.tokens.Keys <= s.tokens.Keys
    requires forall k :: k in s'.tokens ==>
               s'.tokens[k] == s.tokens[k] &&
               (Has(s.users, s.tokens[k].tenantId, s.tokens[k].userId) ==>
                  Has(s'.users, s.tokens[k].tenantId, s.tokens[k].userId))
    ensures TokensSound(s')
  {
  }

  lemma UseAllSound(tokens: map<Id, Token>, u: Id)
    requires UniqueTokens(tokens) && OneUnused(tokens)
    ensures UniqueTokens(UseAll(tokens, u)) && OneUnused(UseAll(tokens, u))
    ensures forall k :: k in UseAll(tokens, u) && !UseAll(tokens, u)[k].used ==> tokens[k].userId != u
  {
  }

  lemma AddTokenSound(tokens: map<Id, Token>, k: Id, token: Token)
    requires k !in tokens && UniqueTokens(tokens) && OneUnused(tokens)
    requires forall l :: l in tokens ==> tokens[l].token != token.token
    requires forall l :: l in tokens && !tokens[l].used ==> tokens[l].userId != token.userId
    ensures UniqueTokens(tokens[k := token]) && OneUnused(tokens[k := token])
  {
  }

  lemma RequestTokensSound(s: State, t: Id, email: string, newTokenId: Id, raw: string)
    requires newTokenId !in s.tokens && raw !in s.drawn && TokensSound(s)
    ensures TokensSound(DoRequestReset(s, t, email, newTokenId, raw).0)
  {
    if Known(s.users, t, email) {
      var u := IdOf(s.users, t, email);
      UseAllSound(s.tokens, u);
      AddTokenSound(UseAll(s.tokens, u), newTokenId, Token(u, t, Sha256(raw), s.now + TOKEN_TTL, false));
    }
  }

  lemma ResetTokensSound(s: State, t: Id, raw: string, next: string)
    requires TokensSound(s)
    ensures TokensSound(DoResetPassword(s, t, raw, next).0)
  {
  }

  /** No other call removes a user or moves one to another tenant, or touches a token. */
  lemma UsersStay(s: State, op: Op)
    requires Enabled(s, op) && UsersSound(s)
    requires !op.RequestReset? && !op.ResetPassword? && !op.DropTenant? && !op.DeleteUser?
    ensures var s' := Step(s, op).0;
            && s'.tokens == s.tokens && s'.drawn == s.drawn
            && forall t, u :: Has(s.users, t, u) ==> Has(s'.users, t, u)
  {
  }

  lemma OtherTokensSound(s: State, op: Op)
    requires Enabled(s, op) && UsersSound(s) && TokensSound(s)
    requires !op.RequestReset? && !op.ResetPassword? && !op.DropTenant? && !op.DeleteUser?
    ensures TokensSound(Step(s, op).0)
  {
    UsersStay(s, op);
    FewerTokensSound(s, Step(s, op).0);
  }

  lemma StepTokensSound(s: State, op: Op)
    requires Enabled(s, op) && UsersSound(s) && TokensSound(s)
    ensures TokensSound(Step(s, op).0)
  {
    match op
    case RequestReset(t, email, newTokenId, raw) => RequestTokensSound(s, t, email, newTokenId, raw);
    case ResetPassword(t, raw, next) => ResetTokensSound(s, t, raw, next);
    case DropTenant(t) => FewerTokensSound(s, DoDropTenant(s, t));
    case DeleteUser(t, u) => FewerTokensSound(s, DoDeleteUser(s, t, u).0);
    case _ => OtherTokensSound(s, op);
  }

  lemma {:induction false} AlwaysSound(tr: Trace, n: nat)
    requires Valid(tr) && n < |tr.states|
    ensures UsersSound(tr.states[n]) && TokensSound(tr.states[n])
  {
    if n > 0 {
      AlwaysSound(tr, n - 1);
      assert StepAt(tr, n - 1);
      StepUsersSound(tr.states[n - 1], tr.events[n - 1].op);
      StepTokensSound(tr.states[n - 1], tr.events[n - 1].op);
    }
  }
}
