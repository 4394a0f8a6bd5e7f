/** What one call does to one user row, whichever service made it. */
module IdentityEffects {
  import opened Prelude
  import opened Identity

  predicate RemovesUser(e: Event, id: Id, tenantId: Id) {
    (e.op.DeleteUser? && e.op.userId == id && e.outcome.Done?) || e.op == DropTenant(tenantId)
  }

  /** The event gave user `id` a new password. */
  predicate SetsPassword(e: Event, id: Id) {
    (e.op.ChangePassword? && e.op.userId == id && e.outcome.Done?) ||
    (e.op.ResetPassword? && e.outcome == ResetDone(id))
  }

  function PasswordSet(e: Event): string
    requires e.op.ChangePassword? || e.op.ResetPassword?
  {
    e.op.next
  }

  predicate SetsStatus(e: Event, id: Id) {
    e.op.UpdateUser? && e.op.userId == id && e.outcome.Done? && e.op.newStatus.Some?
  }

  predicate Creates(e: Event) {
    (e.op.CreateUser? || e.op.Register?) && e.outcome.Created?
  }

  function InitialStatus(op: Op): Status {
    if op.CreateUser? then Active else Pending
  }

  ghost predicate Effect(e: Event, id: Id, row: User, row': User) {
    && row'.tenantId == row.tenantId && row'.email == row.email && row'.createdAt == row.createdAt
    && row'.passwordHash == (if SetsPassword(e, id) then Bcrypt(PasswordSet(e)) else row.passwordHash)
    && row'.status == (if SetsStatus(e, id) then e.op.newStatus.value else row.status)
  }

  lemma RowStays(s: State, e: Event, s': State, id: Id)
    requires Follows(s, e, s') && id in s.users
    ensures id in s'.users <==> !RemovesUser(e, id, s.users[id].tenantId)
  {
  }

  /** Calls that save a row found by its id. */
  lemma RowEffectById(s: State, e: Event, s': State, id: Id)
    requires Follows(s, e, s') && id in s.users && id in s'.users
    requires e.op.UpdateUser? || e.op.UpdateProfile? || e.op.ChangePassword?
    ensures Effect(e, id, s.users[id], s'.users[id])
  {
  }

  /** Calls that save a row found in some other way. */
  lemma RowEffectByQuery(s: State, e: Event, s': State, id: Id)
    requires Follows(s, e, s') && id in s.users && id in s'.users
    requires e.op.Login? || e.op.ResetPassword?
    ensures Effect(e, id, s.users[id], s'.users[id])
  {
  }

  lemma RowEffectNone(s: State, e: Event, s': State, id: Id)
    requires Follows(s, e, s') && UsersSound(s) && id in s.users && id in s'.users
    requires !e.op.UpdateUser? && !e.op.UpdateProfile? && !e.op.ChangePassword? && !e.op.Login? && !e.op.ResetPassword?
    ensures s'.users[id] == s.users[id]
  {
  }

  lemma RowEffect(s: State, e: Event, s': State, id: Id)
    requires Follows(s, e, s') && UsersSound(s) && id in s.users && id in s'.users
    ensures Effect(e, id, s.users[id], s'.users[id])
  {
    match e.op
    case UpdateUser(_, _, _, _) => RowEffectById(s, e, s', id);
    case UpdateProfile(_, _, _) => RowEffectById(s, e, s', id);
    case ChangePassword(_, _, _, _) => RowEffectById(s, e, s', id);
    case Login(_, _, _) => RowEffectByQuery(s, e, s', id);
    case ResetPassword(_, _, _) => RowEffectByQuery(s, e, s', id);
    case _ => RowEffectNone(s, e, s', id);
  }

  lemma NoTwin(s: State, e: Event, s': State, id: Id)
    requires Follows(s, e, s') && UsersSound(s) && id in s.users
    ensures Creates(e) ==>
              e.outcome.id != id && (e.op.tenantId != s.users[id].tenantId || e.op.email != s.users[id].email)
  {
  }

  lemma StepEffect(s: State, e: Event, s': State, id: Id)
    requires Follows(s, e, s') && UsersSound(s) && id in s.users
    ensures id in s'.users <==> !RemovesUser(e, id, s.users[id].tenantId)
    ensures id in s'.users ==> Effect(e, id, s.users[id], s'.users[id])
    ensures Creates(e) ==>
              e.outcome.id != id && (e.op.tenantId != s.users[id].tenantId || e.op.email != s.users[id].email)
  {
    RowStays(s, e, s', id);
    if id in s'.users {
      RowEffect(s, e, s', id);
    }
    NoTwin(s, e, s', id);
  }

  lemma NewRow(s: State, e: Event, s': State, id: Id)
    requires Follows(s, e, s') && id !in s.users && id in s'.users
    ensures Creates(e) && e.outcome == Created(id) && s'.users[id] == NewUser(e.op, InitialStatus(e.op), e.time)
  {
  }

  lemma CreatedRow(s: State, e: Event, s': State)
    requires Follows(s, e, s') && UsersSound(s) && Creates(e)
    ensures e.outcome == Created(e.op.newId) && e.op.newId in s'.users && e.op.newId !in s.users
    ensures s'.users[e.op.newId].tenantId == e.op.tenantId && s'.users[e.op.newId].email == e.op.email
  {
  }
}
