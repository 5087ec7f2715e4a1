# zitadel-operator: a model of its credential lifecycles, gates and convergence loops

A Kubernetes operator drives a Zitadel instance. It hands out one delegated machine user per tenant
scope, rotates keys, decides which of several operators may touch a custom resource, and keeps grants,
roles and credentials in step with their specs. All of it runs against remote calls that may fail, and
may fail after they took effect. This project models that code in Dafny and proves what it keeps over
whole runs, and, where the code does not keep a property that its comments promise, exactly when it does.

## How the model is built

- A remote call ends in one of three ways (`Base.Outcome`): it succeeds, it fails without effect, or it
  fails after taking effect. Outcomes are parameters, so every theorem is about all of them.
- A process that stops half-way is a run whose remaining calls fail without effect, followed by a restart
  that empties the cache.
- Code that changes state in place is a class whose methods are proved equal to a function on values
  (`DelegationManager` against `DelegationSpec`, `MachineUserReconciler` against `MachineUserKeys`, and
  so on). The theorems are about those functions and about runs of them.
- A run is a sequence of states and a sequence of steps; `IsRun` says that each state follows from the
  one before.
- One file is one module. `Base`, `Ordering`, `Conditions` and `OperatorConfig` are shared.

| files | part of the operator |
|---|---|
| `DelegationSpec`, `DelegationInvariants`, `DelegationSafety`, `DelegationSweeping`, `DelegationRuns`, `DelegationStranding`, `DelegationHealing`, `DelegationTracking`, `DelegationSchedule`, `DelegationHomes`, `DelegationAges`, `DelegationCadence`, `DelegationOrphans`, `DelegationLostSecrets`, `DelegationManager`, `DelegationGC` | delegated machine users: mint, warm restart, validate, rotate, revoke, sweep |
| `ScopeMaps` | which scope a namespace belongs to |
| `InstanceGate`, `ManagementGate`, `TenantPreamble` | which operator may touch a resource, and with whose client |
| `MachineUserKeys`, `MachineUserReconciler` | dual-key rotation of a MachineUser |
| `MachineUserGrants`, `MachineUserGrantReconciler` | the project grant of a MachineUser |
| `Credentials`, `CredentialReconciler` | application keys and personal access tokens |
| `RoleSync`, `ProjectRoles`, `ProjectRoleReconciler`, `RoleComparison` | roles of projects |
| `Singletons` | one winner among resources that manage the same setting |

## What turned out to be false

Each of these comes with the condition under which the property does hold; it is exact, except for item 15.

1. **A successful `Ensure` returns the delegate of its Secret.** Not if an earlier deletion of the Secret
   timed out after taking effect: `revokeLocked` then leaves the cache entry behind
   (`internal/delegation/manager.go:374-382`), no sweep lists the hash any more, and `Ensure` keeps
   returning its delegate. The property holds if and only if the entry is not stranded in that way.
2. **Deleting a delegate out-of-band is self-healing** (`docs/operations/scope-maps.md:122`). Only while the
   manager has not validated the cached delegate. A validated one is returned although its user is gone;
   once its key is due for rotation, `Ensure` fails, with its Secret present or not, until the process
   restarts, or the scope is revoked, by itself or by a sweep that lists its Secret. A successful `Ensure`
   returns a user that exists if and only if it did not find such an entry whose key was not due, and if no
   call fails it succeeds if and only if it did not find one whose key was.
3. **Deleting the Secret out-of-band forces a re-mint, and the orphaned machine user is swept**
   (`docs/operations/scope-maps.md:123`). While the user lives, `Ensure` mints again if and only if the cache
   has no entry. Otherwise it returns the entry without a Secret, and once the cached key is due every
   `Ensure` fails and leaves one more live key. After a restart it adopts the same user, and the old keys
   stay live.
4. **A sweep revokes every delegate that is not live.** A sweep goes by the Secrets, so it never reaches a
   user without one, such as the user of a mint whose Secret could not be created. A sweep of all Secrets
   without failing calls leaves a user if and only if its scope is live or has no Secret. Without deletions
   by hand, only an `Ensure` that fails makes such an orphan.
5. **After a sweep every hash outside the live set is gone or still has its Secret.** It has its Secret, or
   user and Secret are gone; the cache entry may stay in the case of item 1.
6. **Rotation keeps the books complete.** A rotation while an earlier rotated-out key is still pending
   overwrites `old_key_id`, and that key stays live for good. A step without failing calls keeps the
   books complete if and only if it does not rotate over a pending key; a sweep past the grace between any
   two rotations of a scope is enough.
7. **A sweep never revokes the delegate of a routed namespace.** A namespace that cannot be read at that
   moment, or for which the maps cannot be listed, counts as having no scope
   (`internal/delegation/gc.go:46-52`), and its delegate is revoked. It is live if and only if both reads
   succeed, or another namespace resolves to the same scope.
8. **The live keys of a MachineUser are the recorded ones, never more than two.** `Reconcile` writes no status
   when `ensureKey` fails (`internal/controller/machineuser_controller.go:127-131`), so every retry after a
   failed write of the Secret leaves one more live key that nothing records. The property holds if and only
   if no reconcile minted a key (whose id it may not have received) without both writing the Secret and
   storing the status.
9. **A revocation time is set exactly while a key awaits revocation.** Not for a key without a recorded id:
   its rotation sets the time and no id. The time stays until the next rotation is recorded, and goes with
   the revocation of that rotation's key; meanwhile, once it has passed, every reconcile that succeeds comes
   back after one second. From a recorded key on, the property holds if and only if it held at the start or a
   rotation has been recorded since.
10. **A rotated-out key outlives its grace.** The persisted time drops the fraction of a second, so a key
    rotated at 0.5 s with a grace of one second goes at 1 s. It keeps its full grace, whenever the sweep or
    the reconcile comes, if and only if the grace ends on a full second (or, for a MachineUser, is none).
11. **The Secret of an ApplicationKey or PersonalAccessToken holds the recorded credential.** A Secret that
    cannot be read once counts as missing: its credential is revoked, the replacement cannot be stored
    because the Secret exists, and every later reconcile finds a Secret with data and leaves it alone
    (`internal/controller/applicationkey_controller.go:147-149`). And if the status write after a mint is
    lost, the Secret holds a credential that the status does not know. A reconcile keeps the agreement of
    Secret, status and live credentials if and only if it does not leak (item 12) and does not revoke a
    credential whose Secret it could not read.
12. **At most one credential is live, and it is recorded; strict deletion leaves none.** Revocation names the
    application or user of the present spec and takes NotFound for success, so a credential that was minted
    for another target survives it. The first claim holds if and only if no mint timed out after taking
    effect, no status write was lost after a mint, and no mint replaced a credential of another target.
    Strict deletion leaves none if and only if none was live, or the first claim holds and the spec still
    names the target.
13. **A grant or role follows its spec.** A target that changes before a reconcile on it succeeded leaves the
    grant or role on the old target behind.
14. **`syncRoles` with repeated roles.** A missing role that the spec lists twice makes the second call fail.
    Retries converge all the same.
15. **`rolesEqual` compares multisets.** It does whenever one of the two lists has no comma, or at most one
    role; a wrong answer takes a comma in both, but commas in both need not give one.
16. **Adoption takes one reconcile.** The write that announces an operator makes its copy of the resource
    stale, so the stamp of the same reconcile is refused and the next one adopts.
17. **A key of a delegate stays until it has the rotation age.** A rotation that stops after its write of the
    Secret leaves the older key in the cache (`internal/delegation/manager.go:292-303`), so the next `Ensure`
    rotates again, and the young key stays live although nothing names it any more. An `Ensure` without
    failing calls keeps a young key if and only if the cache holds no older one; in runs in which no
    rotation stops there, the keys of a user follow each other no faster than the rotation age less a second.

## Model

| member | source | states |
|---|---|---|
| DelegationRuns.NextIsSafe | internal/delegation/manager.go:160-448 | every step (Ensure, Revoke, Sweep, warm restart, time), whichever of its calls fail, keeps the invariant, forgets no Secret before its user, and takes no key from a surviving user before its time |
| DelegationRuns.EveryEnsureAgreesWithItsSecret | internal/delegation/manager.go:160-306 | in every run a successful Ensure returns user, project and key of the scope's Secret at that moment if and only if it did not find a stranded entry; the user was created for that scope |
| DelegationRuns.StrandedIsReturned | internal/delegation/manager.go:169-181 | a stranded entry is returned as it is, and its user does not exist |
| DelegationSafety.EnsureAgrees | internal/delegation/manager.go:160-306 | the same for one Ensure from any state that keeps the invariant |
| DelegationStranding.EnsureAgreesUnlessADeletionTimedOut | internal/delegation/manager.go:160-306 | in every run in which no Secret deletion of Revoke or Sweep timed out after taking effect, every successful Ensure agrees with the Secret |
| DelegationStranding.RevokedDelegateComesBack | internal/delegation/manager.go:348-383 | for every scope: mint, then revoke with a deletion that times out, and the next Ensure returns the revoked delegate |
| DelegationHealing.DeletionOutsideHealsUnlessValidated | internal/delegation/manager.go:160-306 | in every run, whichever calls failed: a successful Ensure returns a user that exists if and only if it did not find a validated entry whose user is gone; an Ensure without failing calls succeeds if and only if it did not find such an entry whose key is due |
| DelegationHealing.EnsureReturnsAlive | internal/delegation/manager.go:160-306 | the same about the user, for one Ensure from any state |
| DelegationHealing.EnsureSucceeds | internal/delegation/manager.go:160-306 | the same about success, for one Ensure from any state that keeps the invariant |
| DelegationHealing.VanishedDecides | internal/delegation/manager.go:169-181 | with or without a Secret, and whatever its calls do, Ensure leaves such an entry as it is and returns it, or fails once its key is due |
| DelegationHealing.RestartHeals | internal/delegation/manager.go:203-231 | after a restart an Ensure without failing calls returns a user that exists |
| DelegationHealing.DeletedUserIsHandedOut | internal/delegation/manager.go:236-242 | for every scope: minted, its user deleted outside, and the next Ensure returns that user |
| DelegationRuns.SecretsGoLast | internal/delegation/manager.go:236-258 | a Secret that disappears, or names another user, was outlived by nobody: the user it named is gone and stays gone |
| DelegationRuns.OneDelegateUserPerScope | internal/delegation/manager.go:516-546 | at most one machine user per scope hash, in every state of every run |
| DelegationHomes.NamedKeyIsLive | internal/delegation/manager.go:473-514 | in every state of every run, as long as the user that a Secret names exists: its key is live, it is a member of the project that the Secret names, it owns the organization exactly if the scope is one, and it is the only user of the scope |
| DelegationHomes.RunKeepsHomed | internal/delegation/manager.go:453-502 | every run keeps that, whichever calls fail |
| DelegationHomes.SecretsNameTheProjectOfTheirScope | internal/delegation/manager.go:548-576 | in every state of every run a Secret names the organization of its scope, and the project that the scope gives by id; or, if it gives a name, the project of that name in that organization; or none, if it gives neither |
| DelegationHomes.NobodyIsAMemberElsewhere | internal/delegation/manager.go:453-480 | in every state of every run no machine user is a member outside its scope: of the organization exactly if the scope names no project, and of no project that was created for another organization or under another name, unless the scope gives its id |
| DelegationAges.KeysAreDatedByTheirFirstWrite | internal/delegation/manager.go:281-303 | in every state of every run, whichever calls fail, Secret and cache date their key by the first write that named it, the Secret to the second, however often it was written since |
| DelegationCadence.OldKeysAreReplaced | internal/delegation/manager.go:264-306 | whichever calls fail: an Ensure that succeeds when the key of the Secret was first written the rotation age ago, or longer, ends with a new key in the Secret |
| DelegationCadence.YoungKeysStay | internal/delegation/manager.go:264-306 | one that comes a second before that age, or earlier, leaves Secrets and users alone and returns no other key, as long as the user lives and the cache holds no older key than the Secret |
| DelegationCadence.AgeDecides | internal/delegation/manager.go:264-306 | both in every run; the second in those in which no rotation stopped between the write of the Secret and the cache |
| DelegationCadence.KeysFollowEachOtherSlowly | internal/delegation/manager.go:264-306 | in such runs, restarts and any other failures included, the first writes of two keys of one user lie further apart than the rotation age less a second |
| DelegationCadence.YoungKeyStaysIff | internal/delegation/manager.go:264-306 | an Ensure without failing calls keeps a young key of a living user if and only if the cache holds no older one; otherwise it rotates again, makes the older one the key to revoke, and the young one stays live unrecorded |
| DelegationCadence.HalfwayRotationRepeats | internal/delegation/manager.go:292-306 | while the cached key is due, an Ensure without failing calls replaces the key of the Secret, however young that one is |
| DelegationRuns.KeysSurviveTheirGrace | internal/delegation/manager.go:422-448 | a key that a surviving user loses was swapped out by an earlier write, and goes no earlier than the second in which the grace since then ends |
| DelegationRuns.SweptFromItsSecondOn | internal/delegation/manager.go:422-437 | a sweep takes a pending key if and only if that second has begun |
| DelegationRuns.FullGraceIffItEndsOnASecond | internal/delegation/manager.go:285-292 | a pending key keeps its full grace, whenever the sweep comes, if and only if the grace ends on a full second |
| DelegationRuns.GraceCutShort | internal/delegation/manager.go:285-292 | for every scope: rotated at 0.5 s with a grace of one second, the key is gone after a sweep at 1 s |
| DelegationTracking.QuietStepTracked | internal/delegation/manager.go:264-306 | a step without failures keeps "live keys = key_id plus old_key_id" if and only if it does not rotate over a pending key |
| DelegationTracking.LiveKeysAreTheNamedKeys | internal/delegation/manager.go:264-448 | in every run without failures and without overlapping rotations the live keys are exactly those |
| DelegationTracking.SweepEndsRotation | internal/delegation/manager.go:422-448 | a sweep past the grace clears the pending key of a live scope, so the next rotation does not overlap |
| DelegationSchedule.OnlyRotationsMark | internal/delegation/manager.go:281-292 | whichever calls fail, only an Ensure that rotates the key of a scope makes a key of that scope pending |
| DelegationSchedule.SweptRunsAreTracked | internal/delegation/manager.go:264-448 | in every run without failures in which, between any two rotations of a scope, a sweep lists its Secret past the grace (or the Secret goes), the live keys are at all times exactly key_id plus old_key_id |
| DelegationSweeping.RevokeKnowsTheOrganization | internal/delegation/manager.go:351-366 | whatever a rotation dropped from the cache, user and organization that revocation computes are those of the Secret |
| DelegationSweeping.SweepDecides | internal/delegation/manager.go:389-418 | however the calls for other hashes end, each listed hash meets its own fate: live ones keep user and Secret; the others are gone with user and Secret, or keep the Secret; gone completely if their calls succeed |
| DelegationSweeping.SweepElsewhere | internal/delegation/manager.go:389-418 | a sweep changes nothing about hashes that it did not list |
| DelegationSweeping.RevokeSuccessMeansGone | internal/delegation/manager.go:348-383 | Revoke reports no error only if Secret and cache entry of the scope are gone, with the users they named |
| DelegationSweeping.SweepReportsTheFirstError | internal/delegation/manager.go:389-418 | a sweep goes on after an error and reports the first one, and none exactly if there was none |
| DelegationSweeping.SweepSuccessMeansGone | internal/delegation/manager.go:389-418 | a sweep that reports no error has removed every listed scope that is not live |
| DelegationRuns.WarmStartServes | internal/delegation/manager.go:309-338 | the warm start caches, not validated, what the Secrets say whose client can be built, and leaves everything else alone |
| DelegationManager.Manager.Ensure | internal/delegation/manager.go:160-198 | the method is the Ensure step on cache, Secrets and users, keeps the invariant, and agrees with the Secret unless the entry was stranded |
| DelegationManager.Manager.WarmLocked | internal/delegation/manager.go:203-231 | is the warm step: cached from the Secret, validated, rotated when due, or unhandled |
| DelegationManager.Manager.ValidateLocked | internal/delegation/manager.go:236-258 | is the validation step: marks the entry, or drops it and its Secret when the user is gone |
| DelegationManager.Manager.RotateIfDueLocked | internal/delegation/manager.go:264-306 | is the rotation step: new key, Secret rewritten under its resourceVersion, cache replaced last |
| DelegationManager.Manager.WarmFromSecrets | internal/delegation/manager.go:309-338 | is the warm start over all Secrets |
| DelegationManager.Manager.RevokeLocked | internal/delegation/manager.go:348-383 | is the revocation step: user first, in the organization of cache or Secret, then Secret, then cache entry |
| DelegationManager.Manager.Revoke | internal/delegation/manager.go:342-346 | is the revocation step under the mutex, keeps the invariant, and names the organization of the Secret |
| DelegationManager.Manager.Sweep | internal/delegation/manager.go:389-418 | the loop is the sweep step over the listed Secrets and returns the first error |
| DelegationManager.Manager.FinishRotationLocked | internal/delegation/manager.go:422-448 | is the end of a rotation: revokes the old key once its time has come, then rewrites the Secret it listed |
| DelegationManager.Manager.Mint | internal/delegation/manager.go:453-502 | is the mint step: user, project, membership, key, Secret, cache |
| DelegationManager.Manager.EnsureMachineUser | internal/delegation/manager.go:516-546 | is the find-or-create of the machine user |
| DelegationManager.Manager.EnsureProject | internal/delegation/manager.go:548-576 | is the find-or-create of the scope's project |
| DelegationManager.Manager.IssueKey | internal/delegation/manager.go:473-514 | is the membership, the key, and the Secret that keeps it |
| DelegationGC.GC.LiveScopes | internal/delegation/gc.go:36-55 | the loop returns exactly the hashes that some namespace resolves to, or nothing when the maps are not synced |
| DelegationGC.GC.SweepOnce | internal/delegation/gc.go:35-58 | sweeps against exactly those hashes and returns the error of the sweep; changes nothing, and says why, when namespaces cannot be listed or maps are not synced |
| DelegationGC.SweepRevokesExactlyTheUnresolved | internal/delegation/gc.go:35-58 | of the scopes whose Secret is listed, each that a namespace resolves to keeps its delegate, however the calls end, and every other one is gone if its own calls succeed |
| DelegationGC.SweepLeavesExactlyTheResolved | internal/delegation/gc.go:35-58 | after a sweep of all Secrets without failing calls a machine user remains if and only if some namespace resolves to its scope, or its scope has no Secret |
| DelegationGC.NoMapsLeaveOnlyOrphans | internal/scopemap/resolver.go:161-163 | without maps such a sweep leaves no Secret, and of the machine users exactly those whose scope had none |
| DelegationOrphans.SweepLeavesExactly | internal/delegation/manager.go:389-418 | the same for any live set, with what remains of Secrets and cache |
| DelegationOrphans.SweepLeavesExactlyTheLive | internal/delegation/manager.go:389-418 | in a run in which no Ensure failed, such a sweep leaves exactly the machine users of live scopes |
| DelegationOrphans.OnlyFailingEnsuresOrphan | internal/delegation/manager.go:160-198 | whichever calls fail, a machine user without a Secret comes only from an Ensure of its scope that failed |
| DelegationOrphans.OrphansStay | internal/delegation/manager.go:348-418 | and no Revoke, Sweep or restart removes it or gives it one |
| DelegationOrphans.FailedMintOutlivesSweeps | internal/delegation/manager.go:183-195 | for every scope: an Ensure whose Secret is not created leaves a user with key and membership that every possible sweep and every Revoke leaves alone |
| DelegationLostSecrets.EnsureRemintsIffNotShielded | internal/delegation/manager.go:160-198 | from any state in which the scope has no Secret: an Ensure without failing calls writes one if and only if the cache has no entry that is validated or whose user lives, and succeeds unless it has such an entry and its key is due |
| DelegationLostSecrets.EveryEnsureAddsAKey | internal/delegation/manager.go:272-282 | in that last case with a living user, the n-th further Ensure fails like the others and n keys have been added to those that are live |
| DelegationLostSecrets.RestartAdoptsTheUser | internal/delegation/manager.go:516-546 | after a restart Ensure adopts the user under a Secret that names one new key, and all others stay live |
| DelegationGC.FailedReadLosesTheScope | internal/delegation/gc.go:42-56 | the scope that the true maps give a namespace is live if and only if both reads for it succeed, or another namespace resolves to it |
| DelegationGC.FailedReadRevokesTheDelegate | internal/delegation/gc.go:35-58 | so, if it has a Secret, its machine user survives a sweep of all Secrets without failing calls in exactly those cases |
| ScopeMaps.FindMatch | internal/scopemap/resolver.go:218-228 | the inner loop stops at the first rule that matches or cannot be evaluated |
| ScopeMaps.CollectMatches | internal/scopemap/resolver.go:214-231 | the loops collect one match per map in order, or the first evaluation error |
| ScopeMaps.ResolveNamespace | internal/scopemap/resolver.go:152-211 | is resolution: sort, collect, decide |
| ScopeMaps.ResolvesToTheSelectedRule | internal/scopemap/resolver.go:152-231 | a namespace resolves to a scope if and only if exactly one map has a matching rule, that map is for this instance, and it gives or has resolved its organization; the scope has the instance, the organization and the name of that map, and project, project id and name of its lowest rule that matches, by its list of namespaces or by its selector |
| ScopeMaps.ErrorsTellWhy | internal/scopemap/resolver.go:152-231 | with maps present and all reads done, each error is returned if and only if its cause holds: a malformed selector, no map with a matching rule, several, a selected map of another instance, or one without an organization |
| ScopeMaps.RuleMatchesMeans | internal/scopemap/resolver.go:249-267 | a rule matches exactly if it has no selector and lists the namespace, or has a selector and no list and the labels meet the selector; a rule with both or neither never matches |
| ScopeMaps.HashIdentifies | internal/scopemap/resolver.go:110-125 | two scopes have the same hash exactly if they agree on instance, organization id, project and project id |
| ScopeMaps.ResolveIgnoresListingOrder | internal/scopemap/resolver.go:170-171 | every permutation of the listed maps gives the same result, errors included |
| ScopeMaps.AddingAMapNeverReroutes | internal/scopemap/resolver.go:152-231 | one more map leaves a resolved namespace at its scope or turns it into an error |
| ScopeMaps.FirstMatchMeaning | internal/scopemap/resolver.go:218-228 | what the first match says about every rule before it |
| InstanceGate.OnlyTheFirstPassesTwice | internal/controller/scope_resolution.go:95-117 | any number of operators, any interleaving, any failing write: whoever passes twice was the first to record its presence, and everybody else passes at most once |
| InstanceGate.LateOperatorsNeverPass | internal/controller/scope_resolution.go:95-117 | an operator whose first read shows another one never passes |
| InstanceGate.FirstIsUnique | internal/controller/scope_resolution.go:132-139 | at most one operator is first |
| InstanceGate.PinIsAliasOrDomain | internal/controller/scope_resolution.go:79-93 | a pinned resource is let through if and only if the pin is the alias of the operator or, without an alias, its domain, and it is not written either way |
| InstanceGate.VerdictIsRecorded | internal/controller/scope_resolution.go:95-117 | an unpinned resource is let through if and only if no other operator is recorded on the copy and the presence of this one is, on the copy or by this gate; it is ambiguous if and only if another one is recorded and that was written; anything unwritten is an error |
| InstanceGate.TwoOperatorsMayPassOnce | internal/controller/scope_resolution.go:95-107 | a run in which two operators pass, so the gate does not exclude |
| TenantPreamble.ResourceHasOneDeployment | internal/controller/scope_resolution.go:159-172 | all operators that the two gates ever let through on a resource not under deletion, pinned or not, are one deployment, although the instance gate alone may let several through; for instance identities without a slash |
| TenantPreamble.PinnedResourceHasOneDeployment | internal/controller/scope_resolution.go:84-93 | with a pin they are one deployment of the pinned instance, whatever identities look like |
| InstanceGate.ForeignOperatorManagerPresent | internal/controller/scope_resolution.go:132-139 | the loop finds a field manager of another operator exactly when there is one |
| InstanceGate.RunGate | internal/controller/scope_resolution.go:79-117 | is the gate; conditions tell the verdict, and a foreign pin leaves them alone |
| Conditions.HasCondition | internal/controller/scope_resolution.go:121-128 | the loop finds a recorded condition exactly when there is one |
| Conditions.Status.SetCondition | internal/controller/common.go:158-180 | afterwards the condition is the only one of its type, with the present time unless status and reason were the same, and those of other types are the same in the same order |
| Conditions.HasConditionType | internal/controller/management_guard.go:130-137 | the loop finds a condition of the type exactly when there is one |
| ManagementGate.OneManagerPerResource | internal/controller/management_guard.go:68-127 | any number of operators with copies of any age and writes that fail: all that ever proceed on a resource not under deletion have one management identity |
| ManagementGate.AnnotationIsFinal | internal/controller/management_guard.go:84-108 | a stamp never changes, and what is unstamped under deletion stays unstamped |
| ManagementGate.HistoryGrows | internal/controller/management_guard.go:68-127 | later states of a run only add versions, so that holds across the whole run |
| ManagementGate.StampDecides | internal/controller/management_guard.go:73-127 | on any stamped copy, however old, the stamped operator proceeds, unless it cannot release its earlier guard condition, and every other one keeps its hands off, deletion included |
| ManagementGate.RunGate | internal/controller/management_guard.go:68-127 | is the gate on a copy of the resource and the conditions of that copy |
| OperatorConfig.ManagementIdentityDistinguishes | internal/config/config.go:91-96 | two deployments of one instance have the same management identity if and only if they are bound to the same organization, or neither is bound and they share a namespace |
| OperatorConfig.ManagementIdentityIsTheDeployment | internal/config/config.go:91-96 | across instances, whose identities have no slash: if and only if they are the same deployment |
| OperatorConfig.OnlyStatusWritesAnnounce | internal/controller/management_guard.go:43-50 | status writes mark an operator as serving, guard writes mark nobody |
| OperatorConfig.FieldManagersDistinguishInstances | internal/controller/lifecycle.go:25-30 | operators of different instances have different field managers |
| OperatorConfig.IdentitiesInFields | internal/config/config.go:71-96 | in every identity the alias goes before the domain; the management identity carries the bound organization if the binding is that of an organization owner and one is verified, else the namespace |
| TenantPreamble.PassingCarriesTheScopesDelegate | internal/controller/scope_resolution.go:147-257 | with a map present, a resource not under deletion passes only with the client of the delegate of the one scope that the maps select; that delegate is the one in the Secret unless it was stranded, and was made for that scope |
| TenantPreamble.DelegateIsWhereTheRuleSays | internal/controller/scope_resolution.go:197-257 | from rule to machine user: the map that routes a passing resource is for the alias of the operator or, without one, its domain; and the delegate, if it exists, owns the organization exactly when the selected rule names no project, and else is a member of just the project that the rule gives by id, or by name in the organization of the map |
| TenantPreamble.StopTellsWhy | internal/controller/scope_resolution.go:279-298 | what stops a resource that both gates let through has the reason of the one thing that is wrong, and comes back after two seconds if that may change by itself, after five minutes if somebody has to mend it |
| TenantPreamble.AnyFailureStops | internal/controller/scope_resolution.go:159-176 | such a resource passes if and only if both gates let it through and either there are no maps, or the maps select one rule of a map that fits and its delegate is to be had; without failing calls that is unless its cached user is gone and its key is due |
| TenantPreamble.DeletionIsStoppedOnlyByManagement | internal/controller/scope_resolution.go:197-257 | a resource under deletion is stopped by nothing but another manager's stamp or a failing release of the guard; it gets the delegate's client exactly when there is one, and the scope whenever its namespace resolves to one |
| TenantPreamble.AdoptionTakesTwoReconciles | internal/controller/scope_resolution.go:159-172 | an unstamped unpinned resource gets through the two gates exactly when an earlier reconcile announced the operator; the announcing reconcile never stamps it |
| TenantPreamble.OrganizationIsTheScopes | internal/controller/scope_resolution.go:305-320 | with a map present, a resource that passes gets the organization of the map selected for its namespace, exactly when it names that one or none |
| TenantPreamble.OrganizationPassesThrough | internal/controller/scope_resolution.go:305-308 | without a scope a resource gets exactly the organization that it names |
| TenantPreamble.RunResolveScopeAndClient | internal/controller/scope_resolution.go:197-257 | is scope resolution and delegation, with the condition that tells the outcome |
| TenantPreamble.RunPreamble | internal/controller/scope_resolution.go:147-177 | the two gates and scope resolution in order; a foreign pin leaves the resource untouched |
| MachineUserKeys.SecretKeyStaysLive | internal/controller/machineuser_controller.go:248-335 | in every run, whichever calls fail: the key in the Secret is live, and a key that goes was rotated out before and goes no earlier than the second in which its grace ends |
| MachineUserKeys.RevokedFromItsSecondOn | internal/controller/machineuser_controller.go:319-335 | a reconcile revokes a rotated-out key if and only if that second has begun |
| MachineUserKeys.FullGraceIffItEndsOnASecond | internal/controller/machineuser_controller.go:353-363 | such a key keeps its full grace, whenever the reconcile comes, if and only if the grace ends on a full second or is none |
| MachineUserKeys.GraceCutShort | internal/controller/machineuser_controller.go:353-363 | key 1, rotated at 0.5 s with a grace of one second, is gone after a reconcile at 1 s |
| MachineUserKeys.ReconcileIsSafe | internal/controller/machineuser_controller.go:248-363 | the same for one reconcile |
| MachineUserKeys.RotationsWaitForTheirAge | internal/controller/machineuser_controller.go:343-363 | in every run, whichever calls fail and however the spec changes: a rotation of a key minted in the run is recorded only under a spec with a rotation age, and no earlier than that age after the second in which the key was minted |
| MachineUserKeys.AgeDecides | internal/controller/machineuser_controller.go:343-349 | in every run a reconcile without failing calls replaces such a key if and only if the spec gives a rotation age, the key is that old, and no other one is pending after the revocation step |
| MachineUserKeys.FineReconcileReplacesIff | internal/controller/machineuser_controller.go:248-293 | from any state such a reconcile ends with a new key if and only if the Secret has none, or none is pending and the recorded one is old enough or of unknown age; the Secret then holds the new key, and the old one is pending if there was one in the Secret |
| MachineUserKeys.SwapMeansOldEnough | internal/controller/machineuser_controller.go:353-363 | whichever calls fail, a recorded rotation found the key old enough by the spec of that reconcile, and grants it the grace of that spec or else five minutes |
| MachineUserKeys.LiveKeysAreRecordedUnlessLeaked | internal/controller/machineuser_controller.go:111-146 | in every run, whichever calls fail and however spec.key changes, the live keys are among the current and the previous one, so at most two, if and only if no reconcile leaked: minted a key without both writing the Secret and storing the status |
| MachineUserKeys.ReconcileContains | internal/controller/machineuser_controller.go:248-293 | the same for one reconcile |
| MachineUserKeys.EveryRetryLeaksAKey | internal/controller/machineuser_controller.go:127-131 | after n reconciles of a new MachineUser whose write of the Secret fails, n keys are live and none is recorded |
| MachineUserKeys.LiveKeysAreTheRecordedKeys | internal/controller/machineuser_controller.go:248-363 | in runs without failures, with spec.key changing at will, the live keys are exactly the current and the previous one, and the Secret holds the current one |
| MachineUserKeys.ChangesAreDetected | internal/controller/machineuser_controller.go:160-167 | every bookkeeping change is one that the status comparison sees |
| MachineUserKeys.RotatedKeyIsRevokedOnTime | internal/controller/machineuser_controller.go:170-180 | when each reconcile runs exactly when the one before asked, a rotated-out key is live at every visit up to one no earlier than the second in which its grace ends and at most a second after that end, and gone after it, for any grace and any spec changes |
| MachineUserKeys.PendingIsRevoked | internal/controller/machineuser_controller.go:319-335 | a key pending until R is revoked by a visit in [R, R+1s] |
| MachineUserKeys.PendingReconcile | internal/controller/machineuser_controller.go:170-180 | before R a reconcile leaves the key and asks to come back by R+1s, from R on it revokes |
| MachineUserKeys.RequeueIsBounded | internal/controller/machineuser_controller.go:170-180 | a reconcile asks to come back between one second and five minutes later, and after five minutes if no revocation time is set |
| MachineUserKeys.RequeueIsASecondLater | internal/controller/machineuser_controller.go:170-180 | with a revocation time that is, within those bounds, a second after the recorded time or, when the reconcile rotated, a second after the grace of its spec |
| MachineUserKeys.SuccessIsReady | internal/controller/machineuser_controller.go:133-146 | a reconcile that succeeds leaves the stored status ready |
| MachineUserKeys.SuccessMeansNoCallFailed | internal/controller/machineuser_controller.go:127-146 | a reconcile succeeds only if it read the Secret and then either completed the bundle or minted, wrote the Secret and stored the status |
| MachineUserKeys.RotationMarksOnlyTrackedKeys | internal/controller/machineuser_controller.go:353-363 | a rotation keeps "time set exactly while a key is pending" if and only if the outgoing key has a recorded id |
| MachineUserKeys.StrayTimeLastsUntilTheNextRotation | internal/controller/machineuser_controller.go:319-363 | from a recorded key on and whichever calls fail, a time without a pending key stays until the next rotation is recorded, and never comes back after it; meanwhile, once it has passed, every reconcile that succeeds asks to come back after one second |
| MachineUserKeys.RotationEndsTheStray | internal/controller/machineuser_controller.go:319-363 | the same for one reconcile |
| MachineUserKeys.StrayTimestampHotLoops | internal/controller/machineuser_controller.go:170-180 | a reconcile without failing calls that does not rotate leaves such a time, and asks to come back after one second |
| MachineUserReconciler.MachineUser.RecordKeyRotation | internal/controller/machineuser_controller.go:353-363 | is the bookkeeping of a rotation |
| MachineUserReconciler.Reconciler.FinishPendingKeyRevocation | internal/controller/machineuser_controller.go:319-335 | is the end of a pending revocation |
| MachineUserReconciler.Reconciler.EnsureKey | internal/controller/machineuser_controller.go:248-293 | is the key step on status, Secret and live keys |
| MachineUserReconciler.Reconciler.Reconcile | internal/controller/machineuser_controller.go:119-146 | is the key part of a reconcile with its status write, and keeps the Secret's key live |
| MachineUserGrants.SuccessMeetsTheSpec | internal/controller/machineuser_grants.go:29-164 | a reconcile that succeeds leaves exactly the grant of the spec (or none) if and only if the user had no other grant than the recorded one and one on the target |
| MachineUserGrants.EverySuccessMeetsTheSpec | internal/controller/machineuser_grants.go:29-164 | in every run whose target changes only after a success, each success ends with exactly the target's grant and the spec's roles, whatever failed before |
| MachineUserGrants.NextFineReconcileMeetsTheSpec | internal/controller/machineuser_grants.go:29-164 | in such a run, whatever failed before, the next reconcile without failing calls ends there if the target resolves |
| MachineUserGrants.FineSucceedsIffResolved | internal/controller/machineuser_grants.go:83-108 | without failing calls a reconcile succeeds if and only if there are no roles or the target resolves |
| MachineUserGrants.GrantIsWhereTheSpecSays | internal/controller/machineuser_grants.go:83-108 | a success leaves the recorded grant, with the roles of the spec, on the explicit project if the spec names one, else on that of the delegate, else on the one that was recorded; without roles none is recorded |
| MachineUserGrants.ReadyTellsTheOutcome | internal/controller/machineuser_grants.go:112-119 | a success leaves the resource ready, and a target that does not resolve leaves it not ready, if that can be written |
| MachineUserGrants.RetryKeepsTheGoal | internal/controller/machineuser_grants.go:83-108 | a reconcile, failed or not, does not move the target of an unchanged spec |
| MachineUserGrants.ChangedTargetLeaks | internal/controller/machineuser_grants.go:56-75 | a target that changes after a lost status write leaves a grant behind |
| MachineUserGrantReconciler.MachineUser.SyncGrant | internal/controller/machineuser_grants.go:122-164 | is the search for the grant and its creation or update |
| MachineUserGrantReconciler.MachineUser.EnsureRoleGrant | internal/controller/machineuser_grants.go:29-75 | is the grant step on status and grants |
| Credentials.OnlyTheRecordedIsLive | internal/controller/applicationkey_controller.go:99-205 | in every run, target changes, Secret losses and failing Secret writes included, the live credentials are at most the recorded one if and only if no mint timed out after taking effect, no status write was lost after a mint, and no mint replaced a credential of another target |
| Credentials.TargetIsThatOfTheMint | internal/controller/applicationkey_controller.go:166-171 | a live credential is on the target that the spec named when it was minted |
| Credentials.FixedTargetIsNeverElsewhere | internal/controller/applicationkey_controller.go:124-137 | as long as the spec keeps its target, revocation always names that of the recorded credential |
| Credentials.ChangedTargetOutlivesDeletion | internal/controller/applicationkey_controller.go:85-90 | for any two targets: minted for one, deleted strictly under the other without a failing call, the credential stays live |
| Credentials.ChangedTargetDoubles | internal/controller/applicationkey_controller.go:158-176 | for any two targets: with the Secret lost in between, both credentials are live |
| Credentials.SecretHoldsALiveCredential | internal/controller/personalaccesstoken_controller.go:97-203 | in every run up to deletion, Secret, status and live credentials agree until exactly the first reconcile that leaks or revokes a credential whose Secret it could not read; every success until then leaves the recorded one live and stored |
| Credentials.ReconcileKeepsHealthyIff | internal/controller/applicationkey_controller.go:139-205 | the same for one reconcile |
| Credentials.LostStatusWriteBreaks | internal/controller/applicationkey_controller.go:99-117 | a first reconcile whose status write is lost leaves a live credential in the Secret that the status does not know |
| Credentials.ReconcileKeepsHealthy | internal/controller/personalaccesstoken_controller.go:139-203 | a success that neither leaks nor misses data in the Secret stores a live credential, of the target of the spec exactly if the one before was, or there was none |
| Credentials.FineReconcileMintsIff | internal/controller/applicationkey_controller.go:139-205 | from any state a reconcile without failing calls succeeds, and mints if and only if the Secret is missing or empty or the status records nothing; the new credential is then in the Secret, recorded and live on the target of the spec |
| Credentials.SuccessIsReady | internal/controller/applicationkey_controller.go:99-122 | a reconcile that succeeds leaves the resource ready |
| Credentials.CredentialSurvivesIffReadable | internal/controller/applicationkey_controller.go:145-170 | one failing read of the Secret revokes the credential that the Secret keeps, unless the revocation is lost or names another target |
| Credentials.DeadCredentialStays | internal/controller/applicationkey_controller.go:147-149 | and every later reconcile that can read it succeeds without repairing it |
| Credentials.DeletionLeavesNothing | internal/controller/lifecycle.go:64-100 | deletion leaves nothing live if and only if nothing was live, or nothing but the recorded credential was, the spec names its target and, unless the deletion is strict, the revocation had an effect |
| Credentials.DeletionInRun | internal/controller/lifecycle.go:64-100 | in every run: if and only if nothing was live, or no earlier reconcile leaked, the spec names the target and, unless the deletion is strict, the revocation had an effect |
| Credentials.TimedOutMintOutlivesDeletion | internal/controller/applicationkey_controller.go:85-90 | a mint that timed out outlives a strict deletion without a failing call, also after a further success |
| Credentials.DeletionConverges | internal/controller/lifecycle.go:64-100 | a deletion that failed can be repeated, and ends with nothing live exactly when nothing was, or nothing but the recorded credential was and the spec names its target |
| Credentials.DeletionLetsGoIff | internal/controller/lifecycle.go:64-100 | deletion lets the resource go if and only if its update takes effect and, if it is strict and a credential is recorded, the revocation reports no error |
| CredentialReconciler.Credential.DeleteKey | internal/controller/applicationkey_controller.go:124-137 | is the revocation of the recorded credential on the target of the spec |
| CredentialReconciler.Credential.EnsureKey | internal/controller/applicationkey_controller.go:139-205 | is the revoke, mint and store step |
| CredentialReconciler.Credential.Reconcile | internal/controller/applicationkey_controller.go:99-122 | is the reconcile with its status writes on both paths |
| CredentialReconciler.Credential.HandleDeletion | internal/controller/lifecycle.go:64-100 | is deletion, strict or not |
| RoleSync.AlwaysBetween | internal/controller/project_controller.go:265-286 | at every intermediate point, wherever a call fails, the server has all desired roles it had before and none that is neither desired nor was there |
| RoleSync.SyncEndsAtTheSpec | internal/controller/project_controller.go:236-289 | success means exactly the desired roles, and failure moves nothing away from them |
| RoleSync.EveryCallShrinksTheDifference | internal/controller/project_controller.go:265-286 | every call with an effect strictly shrinks the difference from the spec |
| RoleSync.SyncSucceedsIffMissingOnce | internal/controller/project_controller.go:265-275 | without failing calls a sync succeeds if and only if no missing role is listed twice |
| RoleSync.RetriesConverge | internal/controller/project_controller.go:236-289 | retries end at the spec after no more failures than there are differences, whatever the listing order and however often roles repeat |
| RoleSync.Project.Sync | internal/controller/project_controller.go:236-289 | the loops are the sync |
| ProjectRoles.ExactlyTheCurrentRoleIsLeft | internal/controller/projectrole_controller.go:87-105 | in every run whose key or project changes only after a success, each success leaves exactly the current role of all ever desired, and deletion none |
| ProjectRoles.SuccessLeavesOneRole | internal/controller/projectrole_controller.go:145-218 | a success leaves exactly that role if and only if no other one than the recorded was left before |
| ProjectRoles.FinePassReachesTheSpec | internal/controller/projectrole_controller.go:87-218 | from any state a pass without failing calls succeeds with the desired role and its attributes in place, and the recorded one gone if it was another |
| ProjectRoles.PassEffect | internal/controller/projectrole_controller.go:87-218 | a success records project, key, generation and readiness, and leaves of the roles ever desired the present one and those that were left over already |
| ProjectRoles.TouchesOnlyItsOwn | internal/controller/projectrole_controller.go:145-230 | whichever call fails, a pass changes no role but the recorded and the desired one |
| ProjectRoles.DisjointPassesCommute | internal/controller/projectrole_controller.go:145-230 | passes of resources without a common role commute, in roles, statuses and errors |
| ProjectRoles.ChangedKeyLeaks | internal/controller/projectrole_controller.go:87-105 | a key that changes after a lost status write leaves the old role behind |
| ProjectRoleReconciler.ProjectRole.RemoveReplacedRole | internal/controller/projectrole_controller.go:145-156 | removes the recorded role exactly when it is replaced |
| ProjectRoleReconciler.ProjectRole.EnsureRole | internal/controller/projectrole_controller.go:165-218 | creates, adopts or corrects the role |
| ProjectRoleReconciler.ProjectRole.Reconcile | internal/controller/projectrole_controller.go:87-114 | is the pass, and leaves every other role as it was |
| Singletons.ExactlyOneIsLetThrough | internal/controller/common.go:195-212 | if some resource is not being deleted, exactly one of those is let through: the earliest by creation time and path |
| Singletons.UnflaggedMeansEarliest | internal/controller/common.go:195-212 | let through if and only if earliest |
| Singletons.WinnerIsOldest | internal/controller/common.go:195-212 | the one let through was created before every other one that stays, or at the same time with the smaller "namespace/name" |
| Singletons.ListOrderIsIrrelevant | internal/controller/common.go:195-212 | the order of the listing does not matter |
| Singletons.NextTakesOver | internal/controller/common.go:195-212 | when the winner starts being deleted, the earliest of the rest takes over and nobody else |
| Singletons.CheckSingletonConflict | internal/controller/common.go:195-212 | the loop decides this, and marks the resource exactly when it is a duplicate |
| RoleComparison.RolesEqualComparesMultisets | internal/controller/usergrant_controller.go:242-253 | if one of the two lists has no comma, or at most one role, the comparison is that of multisets, whatever the other list holds |
| RoleComparison.WrongAnswerNeedsTwoCommas | internal/controller/usergrant_controller.go:242-253 | a wrong answer takes a comma in both lists, and two roles |
| RoleComparison.RolesEqualWithCommas | internal/controller/usergrant_controller.go:252-252 | two different lists with commas that compare equal |
| RoleComparison.SameRolesCompareEqual | internal/controller/usergrant_controller.go:242-253 | equal multisets always compare equal |

## Left out

- DelegationManager.Manager.WarmFromSecrets: lists and fills the cache in one step, right after a restart; the code lists before it takes the mutex, so an Ensure in between could meet an older listing.
- DelegationManager.Manager.Mint: roles of memberships and the organization headers of its calls do not appear, only which project (or the organization) the user is a member of.
- TenantPreamble.PinnedResourceHasOneDeployment: the status writes that follow on a pinned resource are not part of it.
- TenantPreamble.AdoptionTakesTwoReconciles: takes a status apply to make a new resourceVersion, and the copy in memory to keep its old one.
- TenantPreamble.RunPreamble: the write of a failed resolution's condition, whose result the code ignores, is not part of the resource's history.
- MachineUserGrantReconciler.MachineUser.SyncGrant: sorting is a library call and taken as a function on values, as it is in `ScopeMaps.ResolveNamespace` and `RoleComparison`.
- SHA-256 and JSON in `Scope.Hash`: the hash is the hashed tuple, that is, taken to be injective.
- Label selectors: a function parameter that may also report an error.
- A method takes one instant; clocks only move between steps. Keys do not expire.
- DelegationRuns.SecretsGoLast: runs have no Secrets deleted by hand; `DelegationLostSecrets` says what one such deletion leads to.
- Secrets of the delegation manager edited by hand, machine users created by others, key data that does not parse, and Secrets of the delegation manager read from a stale cache; the sweep's own listing may be stale.
- A MachineUser whose Secret is lost, or whose user is recreated.
- Server-side apply beyond the set of manager names; conditions resent by another manager. Plain updates are taken to carry a manager name without the prefix of the operators.
- Conditions.Status.SetCondition: ids and error texts inside messages are left out.
- Targets of credentials: the application (with its project) or user is one identifier, and removing a credential from a target that does not have it is taken to report NotFound.
- Manual edits of the managed-by annotation, and managedFields entries that disappear.
- InstanceGate.OnlyTheFirstPassesTwice: operators are told apart by their field managers, so it is about operators with distinct instance identities.
- Stale copies of a resource outside the gates: a reconcile of a MachineUser, its grant, a credential or a ProjectRole reads the status that was last written.
- An operator without configuration (`cfg == nil`).
- Projects are not contained in their scope: an explicit project id is used as it is (`internal/controller/scope_resolution.go:341-351`).
- Project listings of more than 100 roles.
- The search for the grant of a UserGrant, resolution of references, finalizers other than at deletion.
- Client construction, gRPC, HTTP, logging, events, metrics, and the controllers for policies, identity providers, messages and domains: field-by-field updates.
