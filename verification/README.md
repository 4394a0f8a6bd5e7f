# Multi-tenant gateway: a verified model

A Dafny model of the stateful services of the gateway: role-based access control
behind a TTL cache, the tenant and user caches, the tenant event log, API keys,
passwords and reset tokens, webhook delivery and paging. What is proved is about
whole runs of these services, under any order of calls; for the RBAC, user and tenant
caches it is also about calls that interleave at every `await`, and for the two counts that
a second call can slip past, about calls cut between check and save.

## How the model is laid out

Each component has a state (tables as maps of rows, cache entries with the instant
they expire, a clock that never goes back) and a function that says what one service
call does to it. Runs are sequences of calls. The services themselves are classes over
those tables, method by method in the steps of the original; each method is proved to
do to the shared state exactly what the step function says, so what is proved about
runs of steps holds for runs of the methods. What the step functions themselves do is stated
once more in the `*Calls.dfy` files, in terms of the rows and the calls before alone.

| file | content |
|---|---|
| `Prelude.dfy` | ids, options, cache entries |
| `CacheKeys.dfy`, `CacheStore.dfy` | the string keys; the cache wrapper with its tracked keys in front of a store that runs commands late and in order |
| `SharedStore.dfy`, `SharedRuns.dfy` | the RBAC, tenant and user services together on one database and one such store |
| `CacheAside.dfy` | any cache that calls fill with answers they have in hand: where entries come from, when an old one can be found |
| `RbacTables.dfy` | users, roles, permissions; the permission-collection loop; what the tables grant |
| `RbacMachine.dfy`, `RbacRuns.dfy`, `RbacGuard.dfy`, `Onboarding.dfy` | RBAC, guard and onboarding with atomic calls |
| `RbacStale.dfy` | where cached lists come from, and exactly when they and the guard are out of date |
| `RbacCalls.dfy` | what each of these calls answers and writes, by the rows before it; what a new role lets its holders do |
| `RbacServices.dfy` | the RBAC, onboarding and guard classes |
| `RbacConcurrent.dfy` | cached reads and writers cut at every await, how stale an answer can be |
| `RbacInvalidation.dfy` | what the writers' invalidation achieves there, and when it does not |
| `RbacGuardConcurrent.dfy` | what the guard decides there |
| `RbacAlone.dfy` | the cut calls, run without interruption, are the atomic ones |
| `ApiKeys.dfy`, `ApiKeyHistory.dfy`, `ApiKeyUsage.dfy`, `ApiKeysService.dfy` | the API key lifecycle, its history specification, `lastUsedAt`, the class |
| `ApiKeyCalls.dfy` | how each call on keys ends, by the calls before it, and what it writes |
| `ApiKeyCap.dfy`, `ApiKeyCapTight.dfy` | the cap on active keys when creates overlap, and that the bound is met |
| `Identity.dfy`, `IdentityEffects.dfy` | every writer of user rows; what one call does to one row |
| `UserCache.dfy`, `PasswordHistory.dfy`, `TokenHistory.dfy` | cached profiles, who can log in, which reset tokens are honoured |
| `UserCalls.dfy` | how each call on users ends, by the calls before it, and what it writes |
| `ResetConcurrent.dfy`, `ResetConcurrentTight.dfy` | unused tokens when reset requests overlap, and that the bound is met |
| `UserConcurrent.dfy`, `UserInvalidation.dfy`, `UserAlone.dfy` | users and cached profiles with calls cut at every await |
| `IdentityServices.dfy` | the user, profile, login, registration, change-password and reset classes |
| `Tenants.dfy` | tenants: table, cache, event log, class |
| `TenantCalls.dfy` | what each tenant call answers, writes and publishes, by the rows before it and the payload |
| `TenantConcurrent.dfy`, `TenantInvalidation.dfy`, `TenantAlone.dfy` | tenants and cached responses with calls cut at every await |
| `Webhooks.dfy` | delivery, fan-out, counters, class |
| `WebhookCalls.dfy` | how deliveries retry, and what each webhook call writes, by the rows before it |
| `Pagination.dfy` | pages and page counts |

Conventions. Hashes (HMAC-SHA256, SHA-256, bcrypt) are datatype constructors, so
different inputs have different hashes. Ids, keys, secrets and raw tokens are
parameters of the call; a run may only use ids the database does not have or has not
issued, and raw tokens not drawn before. Unique constraints, foreign keys and
cascades belong to the tables. The lifetime of a cache entry is a parameter, and an
entry may also vanish at any time. The clock is read once per call. A permission
table is fixed during a run, since no service writes it.

The service models key cache entries by ids instead of strings, each family in a table of
its own. `RenderInjective` shows that the string keys of all six families are distinct for
distinct ids (as long as a tenant id has no ':' in it, which a UUID has not), and
`ServicesSeeOwnCaches` that the three services, sharing one string-keyed store, each find
there what their own tables say. They share one database too: `SharedRuns` makes every run
of the whole into a run of each service, so what is proved of those holds of the whole.

Where calls are cut, a save writes the whole row from memory, and inserts it again if it was
deleted meanwhile; what a call has in hand it keeps, however long it is not run.

In an update of a tenant or a webhook a property can be missing, undefined, null or a value. A request
body becomes an object with every property of its class, undefined where the body says
nothing, and copying it over the entity copies that too; the save skips undefined columns,
but the answer, and the tenant's event, are made from the entity.

Places where the code and what one would expect of it differ; the model follows the code,
and what exactly holds instead is proved:

* Deleting a role, a user or a tenant does not touch the cached lists. The guard never
  refuses someone the tables entitle (`DenialNeverStale`); at any point of any run
  `StaleAdmissionIff` says exactly when it admits someone they do not, and
  `CachedNamesFreshIff` and `CachedPermissionsFreshIff` when a cached list is out of date.
  For single deletions: `StaleNameIff` (a role), `GoneUserIff` (a user or tenant).
* An assignment or removal that has returned, invalidation included, can still be undone
  in the cache by a reader that queried the tables before it (`StaleFill`). Without such a
  reader the invalidation does what it is for (`InvalidationTakesEffect`), and `OldHitIff`
  says for any moment whether an answer from before can still be served. In any case
  `BoundedStaleness` and `ChangesTakeEffect` bound it in time.
* Deleting a user drops the cached profile before it removes the row, so a reader in
  between brings it back (`DeletedStillServed`); and a create stores its row after the save,
  so it can file a row updated or a tenant deleted meanwhile (`CreateFilesOldRow`,
  `CreateFilesDeleted`). `GoneServedIff` and `OldHitIff` say exactly when something old can
  still be served, `UpdateTakesEffect` and `WriteTakesEffect` what the invalidation is good
  for, and `ServedWasRow` and `ChangesShow` bound it in time.
* The tenant-deleted event is built after the ORM has cleared the id of the removed entity,
  so it carries no tenant id (`DeletionsAnonymous`). Hence the log gives the table exactly
  when everything created is still there (`ReplayIsTableIff`).
* A tenant or webhook update answers with less than the saved row when the payload has
  undefined properties (`Tenants.UpdateAnswerIff`, `Webhooks.UpdateAnswerIff`).
* The services cap the page size at 100 but report the number of pages for the size asked
  for (`PagesCoverIff`). Requests cannot ask for more than 100, so pages read over HTTP are
  complete (`PagesAreList`).

## Model

Results first; the service methods, each proved against the step function its results are about,
close the table.

| member | source | states |
|---|---|---|
| `RbacStale.StaleAdmissionIff` | src/modules/rbac/rbac.service.ts:25-182 | at any point of any run, deletions of roles, users and tenants included: the two lists the guard sees are the tables' answers in two states before, with no assignment to the user since; its decision differs from the uncached one if and only if those answers meet the requirements and what is left of them does not, and then it admits |
| `RbacStale.AnswersKeptIff` | src/modules/rbac/rbac.service.ts:101-182 | over any run without an assignment or removal aimed at a user the answers for the user stay the same if and only if the user and all the user's roles are still there; otherwise exactly what those roles give is left |
| `RbacStale.EntriesAlwaysRead` | src/modules/rbac/rbac.service.ts:25-99 | at any point of any run each cached list is what the tables answered in some state before, and nothing was assigned to or removed from its user since |
| `RbacStale.CachedNamesFreshIff` | src/modules/rbac/rbac.service.ts:59-74 | at any point of any run a cached name list is the tables' own if and only if the user and every role held at its read are still there |
| `RbacStale.CachedPermissionsFreshIff` | src/modules/rbac/rbac.service.ts:25-57 | at any point of any run a cached permission list holds what the tables grant if and only if every pair granted at its read comes also from a role still there, to a user still there |
| `RbacStale.StaleNameIff` | src/modules/rbac/rbac.service.ts:175-182 | one role required, one deleted, the name list live: the decisions differ if and only if the user held the role and no other role of the user has its name |
| `RbacStale.GoneUserIff` | src/modules/users/services/user.service.ts:239-268 | with the user or the tenant deleted and the name list live, the decisions differ if and only if the user held a role of the required name, and then the guard admits |
| `RbacStale.AllowCanBeStale` | src/modules/rbac/rbac.service.ts:175-182 | an instance: for every user whose only role is deleted within a cached read's lifetime, the guard still admits while the tables refuse |
| `RbacInvalidation.OldHitIff` | src/modules/rbac/rbac.service.ts:25-74 | for every run and every step k of it: some continuation serves from the cache an answer nobody was given from k on, if and only if a live entry holds such an answer or a reader has one in hand and entries have a lifetime |
| `RbacInvalidation.InvalidationTakesEffect` | src/modules/rbac/rbac.service.ts:91-141 | an assignment or removal that has returned saved first and then deleted each entry of its user, and unless at that deletion a reader held an answer from before the save, every later hit repeats an answer given after the save |
| `RbacInvalidation.ReturnedMeansDeleted` | src/modules/rbac/rbac.service.ts:91-141 | when such a writer returns both entries have been deleted after its save, in whichever order the two deletions ran |
| `RbacInvalidation.StaleFill` | src/modules/rbac/rbac.service.ts:126-141 | the condition is needed: for every database there is an interleaving in which a removal has returned, both entries are gone at that moment, and the list from before it is served later |
| `RbacGuardConcurrent.GuardDecidesByPast` | src/modules/rbac/rbac.guard.ts:25-78 | under any interleaving the guard lets a caller pass if and only if the tables of one past state met the role requirement and those of one past state granted every required pair; an answer from the cache was stored less than one lifetime ago |
| `RbacConcurrent.BoundedStaleness` | src/modules/rbac/rbac.service.ts:25-74 | under any interleaving every list served is what the tables gave at a past instant when a reader's query ran, and a hit comes less than one lifetime after the list was stored |
| `RbacConcurrent.ChangesTakeEffect` | src/modules/rbac/rbac.service.ts:25-182 | if readers take at most d between query and store, a hit one lifetime plus d after any change repeats an answer given after the change |
| `RbacAlone.AssignAlone` | src/modules/rbac/rbac.service.ts:101-124 | an assignment that runs without interruption, its two finds and two deletions in either order, does to tables and cache what the atomic one does |
| `RbacAlone.RemoveAlone` | src/modules/rbac/rbac.service.ts:126-141 | the same for a removal |
| `RbacAlone.DeleteRoleAlone` | src/modules/rbac/rbac.service.ts:175-182 | the same for the deletion of a role |
| `RbacAlone.ReadPermissionsAlone` | src/modules/rbac/rbac.service.ts:25-57 | a permission read on its own fills the cache and answers as the atomic one |
| `RbacAlone.ReadNamesAlone` | src/modules/rbac/rbac.service.ts:59-74 | the same for role names |
| `RbacGuard.GuardExact` | src/modules/rbac/rbac.guard.ts:25-78 | with a coherent (or empty) cache the guard allows exactly when nothing is required or a present caller holds some required role and is granted every required pair |
| `RbacGuard.GuardAdmitsEntitled` | src/modules/rbac/rbac.guard.ts:49-75 | with a covering cache no entitled caller is refused |
| `RbacGuard.DenialNeverStale` | src/modules/rbac/rbac.guard.ts:49-75 | after any run a refusal is also the uncached guard's, and without deletions the decisions are equal |
| `RbacRuns.RunKeeps` | src/modules/rbac/rbac.service.ts:25-182 | every call keeps the tables well formed and the cache covering what is granted, and all but deletions keep it equal to it |
| `RbacRuns.CachedContainsFresh` | src/modules/rbac/rbac.service.ts:101-182 | from the empty gateway, after any run, cached lists contain what the tables grant, and equal it when nothing was deleted |
| `RbacRuns.ReadAfterRun` | src/modules/rbac/rbac.service.ts:25-57 | after any run the permissions served include all granted ones, and are exactly those when nothing was deleted |
| `RbacRuns.RolesKeepTenantsApart` | src/modules/rbac/rbac.service.ts:101-141 | after any run each user's roles are of the user's tenant and free of duplicates |
| `RbacRuns.AssignIdempotent` | src/modules/rbac/rbac.service.ts:118-123 | assigning twice is assigning once |
| `RbacRuns.AssignGrantsUnion` | src/modules/rbac/rbac.service.ts:101-124 | after an assignment the user is granted what was granted before or what the role grants, nothing else |
| `RbacRuns.AssignLeavesOthers` | src/modules/rbac/rbac.service.ts:101-141 | assigning and removing change no other user's grants |
| `RbacRuns.AssignThenRemove` | src/modules/rbac/rbac.service.ts:118-140 | assigning a role not held and removing it restores the tables |
| `RbacRuns.RemoveGrantsRest` | src/modules/rbac/rbac.service.ts:126-141 | after a removal exactly the grants of the remaining roles are left |
| `RbacRuns.SystemRoleSurvives` | src/modules/rbac/rbac.service.ts:175-182 | a system role stays unchanged over any run that does not delete its tenant |
| `RbacTables.CollectPermissions` | src/modules/rbac/rbac.service.ts:41-53 | the nested loop keeps a pair exactly when no earlier active pair has the same seen-key |
| `RbacTables.CollectionExact` | src/modules/rbac/rbac.service.ts:41-53 | without colliding seen-keys: each distinct active pair once, none omitted, in first-occurrence order |
| `RbacTables.FirstOccurrenceListUnique` | src/modules/rbac/rbac.service.ts:41-53 | only one list fits that description |
| `RbacTables.CollectionCompleteIff` | src/modules/rbac/rbac.service.ts:47-51 | no pair is omitted if and only if no two different pairs share a seen-key |
| `RbacTables.CollisionDropsPair` | src/modules/rbac/rbac.service.ts:47-51 | two pairs with one seen-key: the second is lost |
| `RbacTables.ColonFreeTable` | src/modules/rbac/rbac.service.ts:47 | resource names without ':' rule collisions out |
| `RbacTables.QueryPermissionsExact` | src/modules/rbac/rbac.service.ts:34-53 | the uncached list holds exactly the pairs the tables grant, each once |
| `RbacTables.QueryNamesExact` | src/modules/rbac/rbac.service.ts:64-71 | the uncached role names are exactly those of the roles held |
| `Onboarding.CreatesThreeSystemRoles` | src/modules/tenants/services/onboarding.service.ts:42-73 | a tenant without roles gets exactly the three default system roles, all else is unchanged |
| `Onboarding.Idempotent` | src/modules/tenants/services/onboarding.service.ts:43-51 | setting up again changes nothing |
| `Onboarding.DefaultGrants` | src/modules/tenants/services/onboarding.service.ts:13-29 | admin lists every active permission, member and viewer exactly the named pairs |
| `Onboarding.DefaultsAreNested` | src/modules/tenants/services/onboarding.service.ts:57-62 | viewer grants no more than member, member no more than admin |
| `Onboarding.AdminPassesGuard` | src/modules/tenants/services/onboarding.service.ts:13-18 | a user then given the admin role passes the guard for any list of active permissions |
| `RbacCalls.NewRolePasses` | src/modules/rbac/rbac.service.ts:101-162 | a role is created and given to a user: whatever was cached, and with or without the role itself required, the guard then lets the user pass for a list of pairs if and only if each was granted before or belongs to an active permission whose id was asked for at the creation |
| `RbacCalls.NewRoleMeans` | src/modules/rbac/rbac.service.ts:143-162 | a role is created if and only if its tenant exists; it has the name and tenant given, is no system role, grants a pair if and only if some id asked for names an active permission with it, and no other role, no user and no cache entry changes |
| `RbacCalls.DeleteRoleMeans` | src/modules/rbac/rbac.service.ts:175-182 | NotFound exactly without such a role of this tenant, refused exactly if it is a system role; otherwise the role and every assignment of it go, all else, cached lists included, stays |
| `RbacCalls.AssignMeans` | src/modules/rbac/rbac.service.ts:101-124 | NotFound exactly if user or role is not there under this tenant; a role not held is held last and both entries of the user go, one already held changes nothing |
| `RbacCalls.RemoveMeans` | src/modules/rbac/rbac.service.ts:126-141 | NotFound exactly if the user is not there; the role is not held afterwards, all others are, and both entries go |
| `RbacCalls.WithoutIsFilter` | src/modules/rbac/rbac.service.ts:138 | taking a role out of a list is taking it out of its parts, so what is left keeps its order |
| `RbacCalls.ReadMeans` | src/modules/rbac/rbac.service.ts:25-57 | a permission read serves a live entry, otherwise each pair granted to a user who is there, once, kept for one lifetime, otherwise nothing and keeps nothing |
| `RbacCalls.NamesMean` | src/modules/rbac/rbac.service.ts:59-74 | the same for role names |
| `RbacCalls.GuardMeans` | src/modules/rbac/rbac.guard.ts:25-78 | with a coherent cache, in terms of rows alone: nothing required lets anyone pass, a missing caller is unauthorized, and a present one passes if and only if one of its roles has a required name and each required pair is an active permission of one of its roles, else is forbidden |
| `RbacCalls.SetupMeans` | src/modules/tenants/services/onboarding.service.ts:10-73 | a tenant that exists and has no role gets system roles named admin, member and viewer; they grant every active pair, those of users:read, api-keys:read and api-keys:create that are active, and users:read if active; any other tenant gets nothing |
| `ApiKeyHistory.AcceptedIffHistorySays` | src/modules/api-keys/api-keys.service.ts:227-262 | at every point of every run a key and secret are accepted exactly when the key was created and not deleted or revoked since, the secret is the latest one issued, no earlier validation saw it expired and the expiry in force is unset or not past |
| `ApiKeyHistory.StatusForward` | src/modules/api-keys/api-keys.service.ts:129-262 | while a key exists its status only moves from active to expired to revoked |
| `ApiKeyCalls.DoneIffThere` | src/modules/api-keys/api-keys.service.ts:162-210 | at every point of every run revoke, delete and rotate go through if and only if the key was created for the tenant and no delete of the key or the tenant was asked for since, whatever its status; otherwise NotFound |
| `ApiKeyCalls.UpdateEnds` | src/modules/api-keys/api-keys.service.ts:129-157 | an update is NotFound without the key, refused if and only if it gives a name that is the last one given to another key of the tenant still there, and otherwise done |
| `ApiKeyCalls.CreateEnds` | src/modules/api-keys/api-keys.service.ts:49-94 | a create is refused at the cap, counted over the keys created and since neither gone, revoked nor seen expired; then if the key string is of a key still there; then if the name is; then if the tenant is not there; otherwise it is done |
| `ApiKeyCalls.RevokedForGood` | src/modules/api-keys/api-keys.service.ts:162-245 | after a revoke of a key that is there no validation of its key string is ever accepted again, unless that string was created anew since |
| `ApiKeyCalls.CreateWrites` | src/modules/api-keys/api-keys.service.ts:76-93 | the new row field by field, every other row as it was |
| `ApiKeyCalls.UpdateWrites` | src/modules/api-keys/api-keys.service.ts:142-155 | a name given and not empty, scopes given and an expiry given are in the row afterwards; status, digest, last use and every other row stay |
| `ApiKeyCalls.ByIdWrites` | src/modules/api-keys/api-keys.service.ts:162-210 | revoking changes the status alone, rotating the digest alone, deleting takes the row alone; on another tenant's key nothing changes |
| `ApiKeyCalls.ValidateWrites` | src/modules/api-keys/api-keys.service.ts:215-262 | accepted if and only if active, not past its expiry and with the right secret; last use is noted if none is or more than the interval has passed; an active key past its expiry becomes expired; nothing else changes |
| `ApiKeyUsage.WritesAreRare` | src/modules/api-keys/api-keys.service.ts:215-221 | w writes of lastUsedAt, w at least 2, take more than w - 1 intervals |
| `ApiKeyUsage.LagBounded` | src/modules/api-keys/api-keys.service.ts:255-259 | lastUsedAt never lags an accepted validation by more than the interval |
| `ApiKeyCap.CreateIsCountThenSave` | src/modules/api-keys/api-keys.service.ts:49-94 | the two halves of a create, run together, are the whole |
| `ApiKeyCap.CapUnderConcurrency` | src/modules/api-keys/api-keys.service.ts:54-90 | with at most p creates of a tenant between count and save, its active keys never exceed the cap - 1 + p, and a cap of 0 lets none through; with p = 1, the cap |
| `ApiKeyCapTight.BoundReached` | src/modules/api-keys/api-keys.service.ts:54-90 | for every cap, 0 included, and every p some run reaches that bound |
| `PasswordHistory.LoginIffLastPassword` | src/modules/auth/services/login.service.ts:16-54 | at every point of every run a login passes exactly when the user exists, the password is the last one accepted and the status in force is active or pending; with that password and another status it is turned away as inactive, otherwise as invalid credentials |
| `UserCalls.ChangePasswordEnds` | src/modules/auth/services/change-password.service.ts:21-45 | at every point of every run a password change is NotFound if the user was not created in the tenant or a delete of it or the tenant was asked for since, refused if the current password given is not the last one accepted for the user, and otherwise done |
| `UserCalls.ChangePasswordTakes` | src/modules/auth/services/change-password.service.ts:34-44 | after a change the login takes the new password and no other; one that is refused changes nothing, and the login refuses the password it gave |
| `UserCalls.CreateEnds` | src/modules/users/services/user.service.ts:40-109 | creating or registering a user goes through if and only if the tenant is there and no user there has the address; the tenant is checked first |
| `UserCalls.DoneIffThere` | src/modules/users/services/user.service.ts:195-268 | updates, renames and deletes go through if and only if the user was created in the tenant and neither was deleted since |
| `UserCalls.RequestEnds` | src/modules/auth/services/password-reset.service.ts:23-58 | a reset request sends a token to the one user there under the address, and to no one if and only if there is none |
| `PasswordHistory.OthersUnaffected` | src/modules/auth/services/change-password.service.ts:26-44 | a call aimed at someone else never changes the outcome of a login |
| `PasswordHistory.EmailsStayUnique` | src/modules/auth/services/register.service.ts:36-60 | tenant and email name at most one user after every run |
| `TokenHistory.ResetIffHistorySays` | src/modules/auth/services/password-reset.service.ts:60-82 | at every point of every run a reset goes through exactly when the token is of the user's latest request, for that tenant, not consumed, the user still there, and less than 3,600,000 ms old |
| `TokenHistory.TokenSucceedsOnce` | src/modules/auth/services/password-reset.service.ts:80-81 | a token succeeds at most once in any run |
| `TokenHistory.OneUnusedToken` | src/modules/auth/services/password-reset.service.ts:32-49 | no user ever has two unused tokens |
| `ResetConcurrent.RequestIsMarkThenSave` | src/modules/auth/services/password-reset.service.ts:23-58 | the two halves of a request, run together, are the whole |
| `ResetConcurrent.UnusedUnderConcurrency` | src/modules/auth/services/password-reset.service.ts:32-49 | a user never has more unused tokens than requests were between update and save at once |
| `ResetConcurrentTight.BoundReached` | src/modules/auth/services/password-reset.service.ts:32-49 | for every number of requests some run with that many in flight ends with exactly that many unused tokens |
| `UserCache.UserCacheCoherent` | src/modules/users/services/user.service.ts:84-267 | after any mix of calls a cached profile agrees with its row on id, email, tenant, status and creation time; if only UserService changed rows, on everything; an entry without a row is of a deleted tenant |
| `UserCache.FindUserFaithful` | src/modules/users/services/user.service.ts:111-143 | findById answers if and only if the user is there or a live entry has the tenant asked for, and the latter alone only when the tenant is gone; never with another tenant's or another user |
| `UserCalls.CreateWrites` | src/modules/users/services/user.service.ts:59-109 | the new row field by field; one admitted is active and cached as it is for one lifetime, one who registers is pending and not cached; nothing else changes |
| `UserCalls.UpdateWrites` | src/modules/users/services/user.service.ts:195-237 | name and status are what was given or what they were, the row is stamped if and only if that changed it, the entry goes, nothing else changes |
| `UserCalls.ProfileWrites` | src/modules/profile/profile.service.ts:25-38 | the name alone changes, the entry stays |
| `UserCalls.DeleteWrites` | src/modules/users/services/user.service.ts:239-268 | the user, its tokens and its entry go, nothing else |
| `UserCalls.FindMeans` | src/modules/users/services/user.service.ts:111-143 | a live entry of this tenant is served as it is; otherwise the row of this tenant, field by field, which is then kept for one lifetime; otherwise NotFound |
| `UserCalls.LoginWrites` | src/modules/auth/services/login.service.ts:16-54 | a login notes its time in the row and changes nothing else |
| `UserCalls.ChangePasswordWrites` | src/modules/auth/services/change-password.service.ts:40-44 | the hash alone changes, to that of the new password |
| `UserCalls.RequestWrites` | src/modules/auth/services/password-reset.service.ts:23-58 | every token of the user is used, one new token is for this user, tenant and hour, no other token and no row changes |
| `UserCalls.ResetWrites` | src/modules/auth/services/password-reset.service.ts:60-82 | a token is taken if and only if it is of this tenant, not used and not expired; then the password of its user is the new one and the token is used, and nothing else changes |
| `UserConcurrent.ServedWasRow` | src/modules/users/services/user.service.ts:111-143 | under any interleaving of the user, profile, login and password calls a profile served is that of the user and tenant asked for, as the row was at a past instant; a hit was stored less than one lifetime ago |
| `UserConcurrent.ChangesShow` | src/modules/users/services/user.service.ts:111-143 | if calls take at most d between reading or inserting a row and storing it, a hit shows a row less than one lifetime plus d old |
| `UserConcurrent.OldHitIff` | src/modules/users/services/user.service.ts:111-143 | for every run and point of it: some continuation serves from the cache a profile that has not been the row since, if and only if a live entry holds one or a call has one in hand and entries have a lifetime |
| `UserConcurrent.GoneServedIff` | src/modules/users/services/user.service.ts:239-268 | a user deleted and not back can still be served if and only if an entry is live or any call has the profile in hand and entries have a lifetime |
| `UserInvalidation.UpdateTakesEffect` | src/modules/users/services/user.service.ts:195-237 | an update that ends saved first and then dropped the entry, and unless a call then held a profile from before the save no later hit shows one |
| `UserInvalidation.DeletedStillServed` | src/modules/users/services/user.service.ts:264-267 | the delete drops the entry before the row: for every database there is a run in which no call has a profile in hand when the entry is dropped, and the deleted user is served later |
| `UserInvalidation.CreateFilesOldRow` | src/modules/users/services/user.service.ts:79-89 | without any reader: a create inserts, an update runs from start to end, and the create then stores the row as it was before |
| `UserAlone.FindAlone` | src/modules/users/services/user.service.ts:111-143 | findById run without interruption does what the atomic one does |
| `UserAlone.CreateAlone` | src/modules/users/services/user.service.ts:40-109 | the same for create |
| `UserAlone.UpdateAlone` | src/modules/users/services/user.service.ts:195-237 | the same for update |
| `UserAlone.DeleteAlone` | src/modules/users/services/user.service.ts:239-268 | the same for delete |
| `UserAlone.RenameAlone` | src/modules/profile/profile.service.ts:25-38 | the same for a profile update |
| `UserAlone.LoginAlone` | src/modules/auth/services/login.service.ts:16-54 | the same for a login |
| `UserAlone.ChangePasswordAlone` | src/modules/auth/services/change-password.service.ts:21-45 | the same for a password change |
| `Tenants.CacheTransparent` | src/modules/tenants/services/tenant.service.ts:75-104 | after any run findById answers or throws as an uncached read would |
| `Tenants.LogReplays` | src/modules/tenants/services/tenant.service.ts:48-216 | after any run folding the log, whose update events name only what the saved entity shows, gives name and slug of every live tenant; creations minus deletions is their number; and setting up the default roles was started once for each creation, in order |
| `Tenants.ReplayIsTableIff` | src/modules/tenants/services/tenant.service.ts:64-216 | after any run the folded log equals the table, names and slugs, if and only if every tenant ever created is still there; and when no id is used twice, if and only if no delete went through |
| `Tenants.SlugFinds` | src/modules/tenants/services/tenant.service.ts:106-117 | slugs stay pairwise distinct, and a tenant's slug finds that tenant |
| `Tenants.DeletionsAnonymous` | src/modules/tenants/services/tenant.service.ts:207-216 | why deletes cost it: deleting either of two tenants leaves the same log and different tables |
| `Tenants.UpdateAnswerIff` | src/modules/tenants/services/tenant.service.ts:180-194 | the answer to an update never contradicts the saved row, and shows it in full if and only if the payload has no undefined property where the row has a value |
| `TenantCalls.UpdateEnds` | src/modules/tenants/services/tenant.service.ts:153-181 | an update is served if and only if the tenant is there, name, slug and status are not null and no other tenant has the slug it gives; a taken slug is reported as such unless it is empty, which only the table refuses |
| `TenantCalls.UpdateWrites` | src/modules/tenants/services/tenant.service.ts:180-184 | property by property: a value given is in the row afterwards, a null empties description, website or logo, undefined and missing leave the column; creation time and other rows stay, the stamp moves if and only if something changed |
| `TenantCalls.UpdateShows` | src/modules/tenants/services/tenant.service.ts:187-194 | answer and event show the row as it is now, each property but those that are there and undefined |
| `TenantCalls.CreateMeans` | src/modules/tenants/services/tenant.service.ts:30-73 | unless some tenant has the slug: the row field by field, its entry, the start of its default roles, the event and the answer; otherwise nothing |
| `TenantCalls.FindMeans` | src/modules/tenants/services/tenant.service.ts:75-104 | a live entry as it is, otherwise the row field by field and kept for one lifetime, otherwise NotFound |
| `TenantCalls.DeleteMeans` | src/modules/tenants/services/tenant.service.ts:197-217 | the row and its entry go, one deletion without an id is published, nothing else changes |
| `TenantConcurrent.ServedWasRow` | src/modules/tenants/services/tenant.service.ts:75-104 | under any interleaving of the tenant calls a tenant served is the one asked for as the row was at a past instant; a hit was stored less than one lifetime ago |
| `TenantConcurrent.ChangesShow` | src/modules/tenants/services/tenant.service.ts:75-104 | the time bound, as for users |
| `TenantConcurrent.OldHitIff` | src/modules/tenants/services/tenant.service.ts:75-104 | exactly when a response that has not been the row since a point can still be served, as for users |
| `TenantConcurrent.GoneServedIff` | src/modules/tenants/services/tenant.service.ts:197-217 | exactly when a deleted tenant can still be served |
| `TenantInvalidation.WriteTakesEffect` | src/modules/tenants/services/tenant.service.ts:153-217 | an update or delete that gets to publish wrote first and then dropped the entry, and unless a call then held a response from before the write no later hit shows one |
| `TenantInvalidation.CreateFilesDeleted` | src/modules/tenants/services/tenant.service.ts:47-55 | without any reader: a create inserts, a delete runs from start to end, and the create then stores the tenant that is gone |
| `TenantAlone.FindAlone` | src/modules/tenants/services/tenant.service.ts:75-104 | findById run without interruption does what the atomic one does |
| `TenantAlone.CreateAlone` | src/modules/tenants/services/tenant.service.ts:30-73 | the same for create |
| `TenantAlone.UpdateAlone` | src/modules/tenants/services/tenant.service.ts:153-195 | the same for update |
| `TenantAlone.DeleteAlone` | src/modules/tenants/services/tenant.service.ts:197-217 | the same for delete |
| `Webhooks.DeliveryBounds` | src/modules/webhooks/webhook.service.ts:144-192 | whatever the network and the database do: at most maxRetries requests, the last one the only full success, deliveryCount grown by exactly the 2xx replies among them, a failure counted exactly when nothing succeeded in full, and when it throws |
| `Webhooks.DeliveryCountsOnce` | src/modules/webhooks/webhook.service.ts:176-191 | with working saves a delivery adds one to exactly one of the two counters |
| `Webhooks.StepTotal` | src/modules/webhooks/webhook.service.ts:105-142 | a trigger adds one for exactly the tenant's active subscribed webhooks, a test for the one tested, any other call nothing |
| `Webhooks.TotalsCountDeliveries` | src/modules/webhooks/webhook.service.ts:105-192 | over any run the two counters of a webhook grow together by the deliveries made for it |
| `Webhooks.TotalsSinceCreation` | src/modules/webhooks/webhook.service.ts:26-44 | from its creation on they add up to that number |
| `Webhooks.UpdateAnswerIff` | src/modules/webhooks/webhook.service.ts:64-78 | the answer to an update never contradicts the saved row and shows it in full if and only if the patch has no undefined property where the row has a value; counters, secret and other rows stay |
| `WebhookCalls.DeliveryRetries` | src/modules/webhooks/webhook.service.ts:159-191 | the attempts go on up to the first that gets a 2xx reply whose save works, or for maxRetries of them; a failure is counted if and only if none of those does |
| `WebhookCalls.DeliveryLeaves` | src/modules/webhooks/webhook.service.ts:159-191 | the entity counts each 2xx reply among the attempts made and keeps the time of the last; the row is the entity unless the last save failed; an error is thrown if and only if no attempt went through and there was one or that save failed |
| `WebhookCalls.DeliveriesMean` | src/modules/webhooks/webhook.service.ts:105-142 | a trigger delivers to exactly the active webhooks of the tenant that list the event, a test to the one named, active or not; all other rows stay |
| `WebhookCalls.CreateMeans` | src/modules/webhooks/webhook.service.ts:26-44 | the new row field by field: active, three retries unless given, nothing counted; none if and only if the tenant is not there |
| `WebhookCalls.UpdateMeans` | src/modules/webhooks/webhook.service.ts:64-78 | property by property: a value given is in the row afterwards, a null empties the description, the rest stays; refused exactly for an unknown webhook or a null in another column |
| `WebhookCalls.UpdateShows` | src/modules/webhooks/webhook.service.ts:64-78 | the answer shows the row as it is now, each property but those that are there and undefined |
| `WebhookCalls.DeleteMeans` | src/modules/webhooks/webhook.service.ts:80-88 | exactly the tenant's own webhook of this id goes |
| `WebhookCalls.RotateMeans` | src/modules/webhooks/webhook.service.ts:90-103 | the secret of the tenant's own webhook is the new one, nothing else changes |
| `SharedRuns.StoreIsRight` | src/modules/redis/cache.service.ts:10-102 | after any run of the three services on one database and one store: their tables agree on tenants and users, a tenant found in the store is the row as it is, a profile agrees with its row on what no service changes behind the cache or went with its tenant, and a user's lists contain whatever the tables grant |
| `SharedRuns.RbacProjects` | src/modules/rbac/rbac.service.ts:25-182 | the RBAC part of such a run is a run of the RBAC model |
| `SharedRuns.TenantsProject` | src/modules/tenants/services/tenant.service.ts:30-217 | the tenant part is a run of the tenant model |
| `SharedRuns.UsersProject` | src/modules/users/services/user.service.ts:40-268 | the user part is a run of the user model from the empty gateway |
| `SharedRuns.SharedDenialNeverStale` | src/modules/rbac/rbac.guard.ts:49-75 | on the shared database and store too, a refusal is also the uncached guard's |
| `SharedStore.ServicesSeeOwnCaches` | src/modules/redis/cache.service.ts:10-102 | over any run of the RBAC, tenant and user services on one string-keyed store that executes commands late and may lose entries, each service finds under each of its keys exactly what its own typed cache holds, and nothing is under the list keys |
| `SharedStore.InvalidateTenantShows` | src/modules/redis/cache.service.ts:87-92 | of everything the services store, the two keys of a tenant invalidation take out the tenant's own entry and nothing else |
| `SharedStore.InvalidateUserShows` | src/modules/redis/cache.service.ts:97-102 | the two keys of a user invalidation take out the user's own entry and nothing else |
| `SharedStore.InvalidateRbacShows` | src/modules/rbac/rbac.service.ts:91-99 | the two RBAC deletions take out the user's two lists and nothing else |
| `CacheStore.TrackedKeysCover` | src/modules/redis/cache.service.ts:10-43 | over any run, with commands executed late and entries expiring, the keys left after draining are among the tracked ones; without expiry they are the tracked ones |
| `CacheStore.ClearEmptiesStore` | src/modules/redis/cache.service.ts:48-54 | after any run, once the commands of a clear are executed and nothing was issued behind it, the store is empty |
| `CacheStore.InvalidationExact` | src/modules/redis/cache.service.ts:87-102 | draining an invalidation removes exactly the named entries, every other entry of every family stays |
| `CacheStore.LastCallWins` | src/modules/redis/cache.service.ts:10-54 | over any run, commands executed late: once they are, what the store holds under a key is what the last call on it put there, a clear being a call on every key; and it holds all of that if nothing expired |
| `CacheKeys.RenderInjective` | src/modules/redis/cache.service.ts:59-82 | the key builders are injective and the six families disjoint as strings, for tenant ids without ':' |
| `CacheKeys.ColonsCollide` | src/modules/rbac/rbac.service.ts:29 | with ':' in a tenant id two users can share an entry, so the condition is needed |
| `CacheKeys.SetAgrees` | src/modules/redis/cache.service.ts:24-27 | storing under a built key changes that one typed entry |
| `CacheKeys.DelAgrees` | src/modules/redis/cache.service.ts:40-43 | deleting built keys removes exactly those typed entries |
| `Pagination.PagesAreList` | src/common/dto/pagination.dto.ts:12-35 | for every limit a request may have, 1 to 100, pages 1 to totalPages read the list, each row once and in order |
| `Pagination.PagesCoverIff` | src/common/dto/pagination.dto.ts:29-35 | for any limit, also one a request may not have: pages 1 to totalPages read the list if and only if the limit is within the cap or the list fits the capped pages |
| `Pagination.TotalPagesLeast` | src/common/dto/pagination.dto.ts:34 | totalPages is the least number of pages that holds all rows |
| `Pagination.PageMeans` | src/modules/users/services/user.service.ts:167-190 | row i of a page is row (page - 1) * size + i of the list, for i below the size and as far as the list goes, the size being the limit and at most 100 |
| `Pagination.OverCapLosesRows` | src/modules/users/services/user.service.ts:167-168 | what a caller inside the program, past the request validation, would see: asked for 101 rows a page, a list of 101 loses its last row |
| `CacheStore.CacheService.SetKey` | src/modules/redis/cache.service.ts:24-27 | tracks the key, then issues the command |
| `CacheStore.CacheService.DelKey` | src/modules/redis/cache.service.ts:32-35 | untracks the key, then issues the command |
| `CacheStore.CacheService.DelMultipleKeys` | src/modules/redis/cache.service.ts:40-43 | untracks all the keys and issues one delete for each, in order |
| `CacheStore.CacheService.ClearAll` | src/modules/redis/cache.service.ts:48-54 | untracks everything and issues a delete for each key that was tracked |
| `CacheStore.CacheService.InvalidateTenant` | src/modules/redis/cache.service.ts:87-92 | drops the tenant's entry and the tenant list, tracking of every other key is unchanged |
| `CacheStore.CacheService.InvalidateUser` | src/modules/redis/cache.service.ts:97-102 | drops the user's entry and that tenant's user list, tracking of every other key is unchanged |
| `RbacServices.RbacService.GetUserPermissions` | src/modules/rbac/rbac.service.ts:25-57 | serves the live entry or queries, fills and serves; a missing user is not cached |
| `RbacServices.RbacService.GetUserRoleNames` | src/modules/rbac/rbac.service.ts:59-74 | the same for role names |
| `RbacServices.RbacService.InvalidateUserRbacCache` | src/modules/rbac/rbac.service.ts:91-99 | drops the two entries of one user in one tenant |
| `RbacServices.RbacService.AssignRoleToUser` | src/modules/rbac/rbac.service.ts:101-124 | refuses unknown users and roles of the tenant, appends a role not held and then invalidates |
| `RbacServices.RbacService.RemoveRoleFromUser` | src/modules/rbac/rbac.service.ts:126-141 | filters the role out and invalidates, held or not |
| `RbacServices.RbacService.CreateRole` | src/modules/rbac/rbac.service.ts:143-162 | inserts a non-system role with the requested permissions that exist |
| `RbacServices.RbacService.DeleteRole` | src/modules/rbac/rbac.service.ts:175-182 | refuses unknown and system roles, removes the row and its assignments, leaves the cache alone |
| `RbacServices.OnboardingService.InitializeTenant` | src/modules/tenants/services/onboarding.service.ts:42-73 | the loop over the default roles saves what the specification says |
| `RbacServices.RbacGuard.CanActivate` | src/modules/rbac/rbac.guard.ts:25-78 | the decision and the cache fills of the specified guard |
| `ApiKeysServices.ApiKeysService.CreateKey` | src/modules/api-keys/api-keys.service.ts:49-94 | cap, key, name and tenant checks in that order, then the new active row |
| `ApiKeysServices.ApiKeysService.UpdateKey` | src/modules/api-keys/api-keys.service.ts:129-157 | changes name, scopes and expiry that are given, nothing else |
| `ApiKeysServices.ApiKeysService.RevokeKey` | src/modules/api-keys/api-keys.service.ts:162-173 | sets the status of the tenant's own key |
| `ApiKeysServices.ApiKeysService.DeleteKey` | src/modules/api-keys/api-keys.service.ts:178-188 | removes the tenant's own key |
| `ApiKeysServices.ApiKeysService.RotateKey` | src/modules/api-keys/api-keys.service.ts:193-210 | replaces the digest, not the status |
| `ApiKeysServices.ApiKeysService.ValidateApiKey` | src/modules/api-keys/api-keys.service.ts:227-262 | status, expiry and secret checks in that order, with their writes |
| `IdentityServices.RegisterService.Execute` | src/modules/auth/services/register.service.ts:25-61 | tenant and email checks, then a pending user |
| `IdentityServices.LoginService.Execute` | src/modules/auth/services/login.service.ts:16-54 | password and status checks, then the login time |
| `IdentityServices.ChangePasswordService.Execute` | src/modules/auth/services/change-password.service.ts:21-45 | replaces the hash only if the current password fits |
| `IdentityServices.ProfileService.UpdateProfileName` | src/modules/profile/profile.service.ts:25-38 | changes the name in the row and not in the cache |
| `IdentityServices.PasswordResetService.Request` | src/modules/auth/services/password-reset.service.ts:23-58 | marks the user's tokens used and stores one new one; an unknown address changes nothing |
| `IdentityServices.PasswordResetService.Reset` | src/modules/auth/services/password-reset.service.ts:60-82 | sets the password and uses the token up, or changes nothing |
| `IdentityServices.UserService.Create` | src/modules/users/services/user.service.ts:40-109 | tenant and email checks, then an active user and its cache entry |
| `IdentityServices.UserService.FindById` | src/modules/users/services/user.service.ts:111-143 | a cached profile of another tenant is looked up, not served |
| `IdentityServices.UserService.Update` | src/modules/users/services/user.service.ts:195-237 | changes what is given and drops the entry |
| `IdentityServices.UserService.Delete` | src/modules/users/services/user.service.ts:239-268 | drops the entry, then the row and its tokens |
| `Tenants.TenantService.CreateTenant` | src/modules/tenants/services/tenant.service.ts:30-73 | slug check, row, cache entry, start of the default roles and event |
| `Tenants.TenantService.FindTenantById` | src/modules/tenants/services/tenant.service.ts:75-104 | serves the live entry or reads and fills |
| `Tenants.TenantService.FindTenantBySlug` | src/modules/tenants/services/tenant.service.ts:106-117 | the row with that slug, uncached |
| `Tenants.TenantService.UpdateTenant` | src/modules/tenants/services/tenant.service.ts:153-195 | checks a new non-empty slug, copies the properties the payload has, saves those that are not undefined, drops the entry, and publishes and answers what the entity shows |
| `Tenants.TenantService.DeleteTenant` | src/modules/tenants/services/tenant.service.ts:197-217 | removes row and entry, publishes an event without the id |
| `Webhooks.WebhookService.Deliver` | src/modules/webhooks/webhook.service.ts:144-192 | the retry loop makes the number of requests, ends with the entity and the row, and throws as specified by the first full success and the replies before it |
| `Webhooks.WebhookService.TriggerEvent` | src/modules/webhooks/webhook.service.ts:105-118 | every matching webhook gets its delivery, no other row changes |
| `Webhooks.WebhookService.TestDelivery` | src/modules/webhooks/webhook.service.ts:120-142 | reports whether the delivery threw |
| `Webhooks.WebhookService.CreateWebhook` | src/modules/webhooks/webhook.service.ts:26-44 | an active row with both counters at zero and three retries unless given, answered in full; refused exactly when the tenant does not exist |
| `Webhooks.WebhookService.UpdateWebhook` | src/modules/webhooks/webhook.service.ts:64-78 | copies the properties the patch has, saves those that are not undefined, answers what the entity shows; a null where none may be is refused |
| `Webhooks.WebhookService.DeleteWebhook` | src/modules/webhooks/webhook.service.ts:80-88 | removes the tenant's own row |
| `Webhooks.WebhookService.RotateWebhookSecret` | src/modules/webhooks/webhook.service.ts:90-103 | replaces the secret only |

## Left out

- Controllers, request validation, Swagger, logging, health checks, Kafka transport, audit logging, throttling, middleware and module wiring: no state of their own that a property here depends on.
- Cryptography, JWTs and passport strategies; bcrypt is taken as injective, so its 72-byte limit on passwords is not modelled.
- Row order: joins are read in a fixed order. The database promises none, so a cached and a fresh list could differ in order, not in content.
- Failing events: `publishTenantCreated` and its siblings are taken to succeed. User events are not modelled.
- The user and tenant list keys are only ever deleted, never stored, so the service models drop them; `CacheStore` covers them.
- Lost updates: two read-modify-write calls on one row can overwrite each other. The interleaved models of roles, users and tenants do that, but nothing is claimed of the fields overwritten; API keys other than `create`, and webhooks, are modelled one call at a time.
- Interleaving of registration, password resets and tenant deletion with the user calls: each is one step among the cut ones.
- Timestamps of webhook rows.
- Whether a tenant's default roles get set up: `create` starts it and does not wait; `Onboarding` covers the call itself.
- `get` of the cache wrapper, `findAll`, `listRoles`, `listPermissions`, `findByEmail`, `getProfile` and the other plain reads: each is one query.
- Fields no modelled call decides on: descriptions of roles, metadata, subscriptions, email verification, webhook payload and signature.
- TypeORM soft deletion: `remove` deletes the row.
- Webhooks.TotalsCountDeliveries: stated for runs in which saves succeed; with failing saves only the per-delivery facts of `DeliveryBounds` hold.
