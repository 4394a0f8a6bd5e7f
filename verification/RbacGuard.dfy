/** The route guard on top of the RBAC service, and what its decisions mean. */
module RbacGuard {
  import opened Prelude
  import opened RbacTables
  import opened RbacMachine
  import opened RbacRuns

  datatype Caller = Caller(userId: Id, tenantId: Id)

  datatype Decision = Allowed | Unauthorized | Forbidden

  /** Decorator metadata is either missing or a list; an empty list requires nothing. */
  predicate Requires<T>(metadata: Option<seq<T>>) {
    metadata.Some? && |metadata.value| > 0
  }

  function CanActivate(s: State, permissions: Option<seq<Requirement>>, roles: Option<seq<string>>,
                       caller: Option<Caller>): (State, Decision)
  {
    if !Requires(permissions) && !Requires(roles) then (s, Allowed)
    else if caller.None? then (s, Unauthorized)
    else
      var Caller(u, t) := caller.value;
      var (s1, userRoles) := if Requires(roles) then GetUserRoleNames(s, u, t) else (s, []);
      if Requires(roles) && !HasRole(userRoles, roles.value) then (s1, Forbidden)
      else
        var (s2, userPermissions) := if Requires(permissions) then GetUserPermissions(s1, u, t) else (s1, []);
        if Requires(permissions) && !HasPermission(userPermissions, permissions.value) then (s2, Forbidden)
        else (s2, Allowed)
  }

  /** What the guard is for, stated on the tables alone. */
  ghost predicate Entitled(db: Db, permissions: Option<seq<Requirement>>, roles: Option<seq<string>>,
                           caller: Option<Caller>) {
    (!Requires(permissions) && !Requires(roles)) ||
    (caller.Some? &&
     (Requires(roles) ==>
        exists name :: name in roles.value && HoldsRole(db, caller.value.userId, caller.value.tenantId, name)) &&
     (Requires(permissions) ==>
        forall r :: r in permissions.value ==> Grants(db, caller.value.userId, caller.value.tenantId, r)))
  }

  /** The same guard with nothing cached. */
  function Uncached(s: State): State {
    s.(perms := map[], names := map[])
  }

  lemma NamesServed(s: State, u: Id, t: Id)
    ensures Covers(s) ==> forall n :: HoldsRole(s.db, u, t, n) ==> n in GetUserRoleNames(s, u, t).1
    ensures Coherent(s) ==> forall n :: n in GetUserRoleNames(s, u, t).1 <==> HoldsRole(s.db, u, t, n)
  {
    if HasUser(s.db, u, t) {
      QueryNamesExact(s.db, u, t);
    }
  }

  lemma PermissionsServed(s: State, u: Id, t: Id)
    requires CollisionFreeTable(s.db.permissions)
    ensures Covers(s) ==> forall r :: Grants(s.db, u, t, r) ==> r in GetUserPermissions(s, u, t).1
    ensures Coherent(s) ==> forall r :: r in GetUserPermissions(s, u, t).1 <==> Grants(s.db, u, t, r)
  {
    if HasUser(s.db, u, t) {
      QueryPermissionsExact(s.db, u, t);
    }
  }

  /** The pair the check compares is the requirement itself. */
  lemma HasPermissionMeaning(list: seq<Requirement>, required: seq<Requirement>)
    ensures HasPermission(list, required) <==> forall r :: r in required ==> r in list
  {
  }

  /** The two checks, each against what its read serves; the permission read does not depend
      on the name read before it. */
  lemma DecisionParts(s: State, permissions: Option<seq<Requirement>>, roles: Option<seq<string>>, u: Id, t: Id)
    ensures var decision := CanActivate(s, permissions, roles, Some(Caller(u, t))).1;
            && !decision.Unauthorized?
            && (decision.Allowed? <==>
                  (Requires(roles) ==> HasRole(GetUserRoleNames(s, u, t).1, roles.value)) &&
                  (Requires(permissions) ==> HasPermission(GetUserPermissions(s, u, t).1, permissions.value)))
  {
    PermissionsIgnoreNames(s, u, t);
  }

  lemma PermissionsIgnoreNames(s: State, u: Id, t: Id)
    ensures GetUserPermissions(GetUserRoleNames(s, u, t).0, u, t).1 == GetUserPermissions(s, u, t).1
  {
  }

  /** With a coherent cache the guard allows exactly the entitled callers, and reports a
      missing caller as such. */
  lemma GuardExact(s: State, permissions: Option<seq<Requirement>>, roles: Option<seq<string>>, caller: Option<Caller>)
    requires CollisionFreeTable(s.db.permissions) && Coherent(s)
    ensures CanActivate(s, permissions, roles, caller).1.Allowed? <==> Entitled(s.db, permissions, roles, caller)
    ensures CanActivate(s, permissions, roles, caller).1.Unauthorized? <==>
            (Requires(permissions) || Requires(roles)) && caller.None?
  {
    if caller.Some? {
      var Caller(u, t) := caller.value;
      DecisionParts(s, permissions, roles, u, t);
      NamesServed(s, u, t);
      PermissionsServed(s, u, t);
      if Requires(permissions) {
        HasPermissionMeaning(GetUserPermissions(s, u, t).1, permissions.value);
      }
    }
  }

  /** With a covering cache the guard never turns an entitled caller away. */
  lemma GuardAdmitsEntitled(s: State, permissions: Option<seq<Requirement>>, roles: Option<seq<string>>,
                            caller: Option<Caller>)
    requires WellFormed(s) && Covers(s) && Entitled(s.db, permissions, roles, caller)
    ensures CanActivate(s, permissions, roles, caller).1.Allowed?
  {
    if caller.Some? {
      var Caller(u, t) := caller.value;
      DecisionParts(s, permissions, roles, u, t);
      NamesServed(s, u, t);
      PermissionsServed(s, u, t);
      if Requires(permissions) {
        HasPermissionMeaning(GetUserPermissions(s, u, t).1, permissions.value);
      }
    }
  }

  /** A denial is never stale: after any run, whenever the guard refuses, the tables refuse
      too.  As long as nothing was deleted the two decisions are the same. */
  lemma DenialNeverStale(s: State, ops: seq<Op>,
                         permissions: Option<seq<Requirement>>, roles: Option<seq<string>>, caller: Option<Caller>)
    requires Initial(s) && ValidRun(s, ops)
    ensures var s' := Run(s, ops);
            var decision := CanActivate(s', permissions, roles, caller).1;
            && (decision.Forbidden? ==> CanActivate(Uncached(s'), permissions, roles, caller).1.Forbidden?)
            && (decision.Unauthorized? <==> CanActivate(Uncached(s'), permissions, roles, caller).1.Unauthorized?)
            && ((forall op :: op in ops ==> !op.Deletes()) ==>
                  decision == CanActivate(Uncached(s'), permissions, roles, caller).1)
  {
    CachedContainsFresh(s, ops);
    var s' := Run(s, ops);
    GuardExact(Uncached(s'), permissions, roles, caller);
    if Entitled(s'.db, permissions, roles, caller) {
      GuardAdmitsEntitled(s', permissions, roles, caller);
    }
    if forall op :: op in ops ==> !op.Deletes() {
      GuardExact(s', permissions, roles, caller);
    }
  }
}
