/** The RBAC, onboarding and guard classes over shared repositories, each method proved
    against the state machine of RbacMachine. */
module RbacServices {
  import opened Prelude
  import opened RbacTables
  import M = RbacMachine
  import G = RbacGuard

  /** The repositories and the cache the services are constructed with. */
  class Repositories {
    var tenants: set<Id>
    var users: map<Id, User>
    var roles: map<Id, Role>
    var permissions: map<Id, Permission>
    var cachedPermissions: map<(Id, Id), Entry<seq<Requirement>>>
    var cachedNames: map<(Id, Id), Entry<seq<string>>>
    var now: int
    const ttl: nat
    ghost var issued: set<Id>

    constructor (permissions: map<Id, Permission>, ttl: nat)
      requires CollisionFreeTable(permissions)
      ensures this.permissions == permissions && this.ttl == ttl && M.Initial(State())
    {
      this.tenants, this.users, this.roles, this.permissions := {}, map[], map[], permissions;
      this.cachedPermissions, this.cachedNames, this.now := map[], map[], 0;
      this.ttl, this.issued := ttl, {};
    }

    ghost function State(): M.State
      reads this
    {
      M.State(Db(tenants, users, roles, permissions), cachedPermissions, cachedNames, issued, now, ttl)
    }

    /** `findByIds`: the requested permission rows that exist, each once. */
    method FindByIds(requested: seq<Id>) returns (found: seq<Id>)
      ensures M.FindsByIds(permissions, requested, found)
    {
      found := [];
      for i := 0 to |requested|
        invariant NoDuplicates(found)
        invariant forall id :: id in found <==> id in requested[..i] && id in permissions
      {
        if requested[i] in permissions && requested[i] !in found {
          found := found + [requested[i]];
        }
      }
    }

    /** The active permission rows, each once. */
    method FindActive() returns (listed: seq<Id>)
      ensures M.ListsActive(permissions, listed)
    {
      listed := [];
      var left := permissions.Keys;
      while left != {}
        invariant left <= permissions.Keys && NoDuplicates(listed)
        invariant forall id :: id in listed <==> id in permissions && id !in left && permissions[id].isActive
        decreases left
      {
        var id :| id in left;
        if permissions[id].isActive {
          listed := listed + [id];
        }
        left := left - {id};
      }
    }
  }

  class RbacService {
    const repo: Repositories

    constructor (repo: Repositories)
      ensures this.repo == repo
    {
      this.repo := repo;
    }

    method GetUserPermissions(userId: Id, tenantId: Id) returns (permissions: seq<Requirement>)
      modifies repo
      ensures (repo.State(), permissions) == M.GetUserPermissions(old(repo.State()), userId, tenantId)
    {
      var cacheKey := (tenantId, userId);
      var cached := Lookup(repo.cachedPermissions, cacheKey, repo.now);
      if cached.Some? {
        return cached.value;
      }
      if userId !in repo.users || repo.users[userId].tenantId != tenantId {
        return [];
      }
      var user := repo.users[userId];
      permissions := CollectPermissions(LoadPermissions(Join(user.roleIds, repo.roles), repo.permissions));
      repo.cachedPermissions := repo.cachedPermissions[cacheKey := Entry(permissions, repo.now + repo.ttl)];
    }

    method GetUserRoleNames(userId: Id, tenantId: Id) returns (names: seq<string>)
      modifies repo
      ensures (repo.State(), names) == M.GetUserRoleNames(old(repo.State()), userId, tenantId)
    {
      var cacheKey := (tenantId, userId);
      var cached := Lookup(repo.cachedNames, cacheKey, repo.now);
      if cached.Some? {
        return cached.value;
      }
      if userId !in repo.users || repo.users[userId].tenantId != tenantId {
        return [];
      }
      names := Names(Join(repo.users[userId].roleIds, repo.roles));
      repo.cachedNames := repo.cachedNames[cacheKey := Entry(names, repo.now + repo.ttl)];
    }

    method InvalidateUserRbacCache(userId: Id, tenantId: Id)
      modifies repo
      ensures repo.State() == M.Invalidate(old(repo.State()), userId, tenantId)
    {
      repo.cachedPermissions := repo.cachedPermissions - {(tenantId, userId)};
      repo.cachedNames := repo.cachedNames - {(tenantId, userId)};
    }

    method AssignRoleToUser(userId: Id, roleId: Id, tenantId: Id) returns (outcome: M.Outcome)
      modifies repo
      ensures (repo.State(), outcome) == M.AssignRole(old(repo.State()), userId, roleId, tenantId)
    {
      if userId !in repo.users || repo.users[userId].tenantId != tenantId ||
         roleId !in repo.roles || repo.roles[roleId].tenantId != tenantId
      {
        return M.NotFound;
      }
      var user := repo.users[userId];
      if roleId !in user.roleIds {
        user := user.(roleIds := user.roleIds + [roleId]);
        repo.users := repo.users[userId := user];
        InvalidateUserRbacCache(userId, tenantId);
      }
      return M.Done;
    }

    method RemoveRoleFromUser(userId: Id, roleId: Id, tenantId: Id) returns (outcome: M.Outcome)
      modifies repo
      ensures (repo.State(), outcome) == M.RemoveRole(old(repo.State()), userId, roleId, tenantId)
    {
      if userId !in repo.users || repo.users[userId].tenantId != tenantId {
        return M.NotFound;
      }
      var user := repo.users[userId];
      user := user.(roleIds := M.Without(user.roleIds, roleId));
      repo.users := repo.users[userId := user];
      InvalidateUserRbacCache(userId, tenantId);
      return M.Done;
    }

    /** The database refuses a role for a tenant that is gone. */
    method CreateRole(tenantId: Id, name: string, permissionIds: Option<seq<Id>>, newId: Id)
      returns (outcome: M.Outcome, found: seq<Id>)
      requires newId !in repo.issued
      modifies repo
      ensures M.FindsByIds(old(repo.permissions), permissionIds.GetOr([]), found)
      ensures (repo.State(), outcome) == M.CreateRole(old(repo.State()), tenantId, name, found, newId)
    {
      found := [];
      if permissionIds.Some? && |permissionIds.value| > 0 {
        found := repo.FindByIds(permissionIds.value);
      }
      if tenantId !in repo.tenants {
        return M.ConstraintViolation, found;
      }
      repo.roles := repo.roles[newId := Role(tenantId, name, false, found)];
      repo.issued := repo.issued + {newId};
      return M.Done, found;
    }

    method DeleteRole(roleId: Id, tenantId: Id) returns (outcome: M.Outcome)
      modifies repo
      ensures (repo.State(), outcome) == M.DeleteRole(old(repo.State()), roleId, tenantId)
    {
      if roleId !in repo.roles || repo.roles[roleId].tenantId != tenantId {
        return M.NotFound;
      }
      if repo.roles[roleId].isSystem {
        return M.SystemRole;
      }
      // The delete and its cascade to the join rows.
      repo.roles := repo.roles - {roleId};
      repo.users := map u | u in repo.users :: repo.users[u].(roleIds := M.Without(repo.users[u].roleIds, roleId));
      return M.Done;
    }
  }

  class OnboardingService {
    const repo: Repositories

    constructor (repo: Repositories)
      ensures this.repo == repo
    {
      this.repo := repo;
    }

    method InitializeTenant(tenantId: Id, newIds: seq<Id>) returns (listed: seq<Id>)
      requires |newIds| == |M.DEFAULT_ROLES|
      modifies repo
      ensures M.ListsActive(old(repo.permissions), listed)
      ensures repo.State() == M.InitializeTenant(old(repo.State()), tenantId, listed, newIds)
    {
      listed := repo.FindActive();
      if exists r :: r in repo.roles && repo.roles[r].tenantId == tenantId {
        return;
      }
      for i := 0 to |M.DEFAULT_ROLES|
        invariant repo.permissions == old(repo.permissions)
        invariant repo.State() == M.SaveDefaults(old(repo.State()), tenantId, listed, newIds, i)
      {
        var defaultRole := M.DEFAULT_ROLES[i];
        var matching := M.Matching(repo.permissions, listed, defaultRole.patterns);
        // The foreign key to the tenant decides whether the save goes through.
        if tenantId in repo.tenants {
          repo.roles := repo.roles[newIds[i] := Role(tenantId, defaultRole.name, true, matching)];
          repo.issued := repo.issued + {newIds[i]};
        }
      }
    }
  }

  class RbacGuard {
    const rbacService: RbacService

    constructor (rbacService: RbacService)
      ensures this.rbacService == rbacService
    {
      this.rbacService := rbacService;
    }

    method CanActivate(requiredPermissions: Option<seq<Requirement>>, requiredRoles: Option<seq<string>>,
                       user: Option<G.Caller>) returns (decision: G.Decision)
      modifies rbacService.repo
      ensures (rbacService.repo.State(), decision) ==
              G.CanActivate(old(rbacService.repo.State()), requiredPermissions, requiredRoles, user)
    {
      if !G.Requires(requiredPermissions) && !G.Requires(requiredRoles) {
        return G.Allowed;
      }
      if user.None? {
        return G.Unauthorized;
      }
      if G.Requires(requiredRoles) {
        var userRoles := rbacService.GetUserRoleNames(user.value.userId, user.value.tenantId);
        if !HasRole(userRoles, requiredRoles.value) {
          return G.Forbidden;
        }
      }
      if G.Requires(requiredPermissions) {
        var userPermissions := rbacService.GetUserPermissions(user.value.userId, user.value.tenantId);
        if !HasPermission(userPermissions, requiredPermissions.value) {
          return G.Forbidden;
        }
      }
      return G.Allowed;
    }
  }
}
