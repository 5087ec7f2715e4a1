/** The delegation manager as it runs: a cache under a mutex, a store of Secrets and the operator's
    own Zitadel client. Every method is proved against its step of DelegationSpec; the mutex makes a
    method one step. The outcome of each remote call is a parameter. */
module DelegationManager {
  import opened Base
  import opened ScopeMaps
  import opened DelegationSpec
  import opened DelegationInvariants
  import opened DelegationSafety
  import opened DelegationSweeping
  import opened DelegationRuns

  /** The Secrets of the operator's namespace. */
  class SecretStore {
    var secrets: map<ScopeHash, Secret>
    var version: nat
    ghost var log: seq<Written>

    ghost predicate Valid()
      reads this
    {
      version == |log|
    }

    constructor ()
      ensures Valid() && secrets == map[] && log == []
    {
      secrets, version, log := map[], 0, [];
    }

    /** None when there is no such Secret. */
    method Get(name: ScopeHash, answers: bool) returns (r: Result<Option<Secret>, Error>)
      ensures r == if !answers then Err(CallFailed)
                   else Ok(if name in secrets then Some(secrets[name]) else None)
    {
      if !answers {
        return Err(CallFailed);
      }
      r := Ok(if name in secrets then Some(secrets[name]) else None);
    }

    method Write(q: Secret, now: Time)
      requires Valid()
      modifies this
      ensures Valid()
      ensures secrets == old(secrets)[q.name := q.(version := |old(log)|)]
      ensures log == old(log) + [Written(q.(version := |old(log)|), now)]
    {
      secrets := secrets[q.name := q.(version := version)];
      log := log + [Written(q.(version := version), now)];
      version := version + 1;
    }

    method Create(q: Secret, o: Outcome, now: Time) returns (e: Option<Error>)
      requires Valid()
      modifies this
      ensures Valid()
      ensures q.name in old(secrets) ==> e == Some(Conflict) && secrets == old(secrets) && log == old(log)
      ensures q.name !in old(secrets) ==> e == ErrorOf(o)
      ensures q.name !in old(secrets) && o != Lost ==>
                && secrets == old(secrets)[q.name := q.(version := |old(log)|)]
                && log == old(log) + [Written(q.(version := |old(log)|), now)]
      ensures o == Lost ==> secrets == old(secrets) && log == old(log)
    {
      if q.name in secrets {
        return Some(Conflict);
      }
      if o != Lost {
        Write(q, now);
      }
      e := ErrorOf(o);
    }

    /** Refused unless `q` carries the resourceVersion the Secret has now. */
    method Update(q: Secret, o: Outcome, now: Time) returns (e: Option<Error>)
      requires Valid()
      modifies this
      ensures Valid()
      ensures q.name !in old(secrets) ==> e == Some(NotFound)
      ensures q.name in old(secrets) && old(secrets)[q.name].version != q.version ==> e == Some(Conflict)
      ensures q.name in old(secrets) && old(secrets)[q.name].version == q.version ==> e == ErrorOf(o)
      ensures if q.name in old(secrets) && old(secrets)[q.name].version == q.version && o != Lost then
                && secrets == old(secrets)[q.name := q.(version := |old(log)|)]
                && log == old(log) + [Written(q.(version := |old(log)|), now)]
              else secrets == old(secrets) && log == old(log)
    {
      if q.name !in secrets {
        return Some(NotFound);
      }
      if secrets[q.name].version != q.version {
        return Some(Conflict);
      }
      if o != Lost {
        Write(q, now);
      }
      e := ErrorOf(o);
    }

    /** Deleting a Secret that does not exist is no error to any caller. */
    method Delete(name: ScopeHash, o: Outcome) returns (e: Option<Error>)
      requires Valid()
      modifies this
      ensures Valid() && log == old(log)
      ensures secrets == if o == Lost then old(secrets) else old(secrets) - {name}
      ensures e == ErrorOf(o)
    {
      if o != Lost {
        secrets := secrets - {name};
      }
      e := ErrorOf(o);
    }
  }

  /** The part of the Zitadel instance that the operator's own client works on. */
  class Zitadel {
    var users: map<Id, User>
    var projects: map<(Id, string), Id>
    var nextId: Id
    /** The organization of the last call to remove a user. */
    var removedIn: Id

    constructor ()
      ensures users == map[] && projects == map[] && nextId == 1
    {
      users, projects, nextId, removedIn := map[], map[], 1, NONE;
    }

    /** Whether the user exists. */
    method GetUserByID(u: Id, answers: bool) returns (r: Result<bool, Error>)
      ensures r == if answers then Ok(u in users) else Err(CallFailed)
    {
      r := if answers then Ok(u in users) else Err(CallFailed);
    }

    method ListUsers(name: ScopeHash, answers: bool) returns (r: Result<seq<Id>, Error>)
      ensures answers <==> r.Ok?
      ensures !answers ==> r == Err(CallFailed)
      ensures r.Ok? ==> forall u :: u in r.value <==> u in users && users[u].name == name
    {
      if !answers {
        return Err(CallFailed);
      }
      var found: seq<Id>, rest := [], users.Keys;
      while rest != {}
        invariant rest <= users.Keys
        invariant forall u :: u in found <==> u in users && u !in rest && users[u].name == name
        decreases |rest|
      {
        var u :| u in rest;
        rest := rest - {u};
        if users[u].name == name {
          found := found + [u];
        }
      }
      r := Ok(found);
    }

    method AddMachineUser(name: ScopeHash, o: Outcome) returns (r: Result<Id, Error>)
      modifies this
      ensures projects == old(projects)
      ensures r == if o == Done then Ok(old(nextId)) else Err(CallFailed)
      ensures if o == Lost then users == old(users) && nextId == old(nextId)
              else users == old(users)[old(nextId) := User(name, {}, {})] && nextId == old(nextId) + 1
    {
      r := if o == Done then Ok(nextId) else Err(CallFailed);
      if o != Lost {
        users, nextId := users[nextId := User(name, {}, {})], nextId + 1;
      }
    }

    /** Removing a user that does not exist is no error to any caller; the call names an organization. */
    method RemoveUser(org: Id, u: Id, o: Outcome) returns (e: Option<Error>)
      modifies this
      ensures projects == old(projects) && nextId == old(nextId) && removedIn == org
      ensures users == if o == Lost then old(users) else old(users) - {u}
      ensures e == ErrorOf(o)
    {
      removedIn := org;
      if o != Lost {
        users := users - {u};
      }
      e := ErrorOf(o);
    }

    method AddMachineKey(u: Id, o: Outcome) returns (r: Result<Id, Error>)
      modifies this
      ensures projects == old(projects)
      ensures u !in old(users) ==> r == Err(NotFound) && users == old(users) && nextId == old(nextId)
      ensures u in old(users) ==> r == if o == Done then Ok(old(nextId)) else Err(CallFailed)
      ensures u in old(users) && o != Lost ==>
                && users == old(users)[u := old(users)[u].(keys := old(users)[u].keys + {old(nextId)})]
                && nextId == old(nextId) + 1
      ensures o == Lost ==> users == old(users) && nextId == old(nextId)
    {
      if u !in users {
        return Err(NotFound);
      }
      r := if o == Done then Ok(nextId) else Err(CallFailed);
      if o != Lost {
        users, nextId := users[u := users[u].(keys := users[u].keys + {nextId})], nextId + 1;
      }
    }

    /** Removing a key that does not exist is no error to any caller. */
    method RemoveMachineKey(u: Id, k: Id, o: Outcome) returns (e: Option<Error>)
      modifies this
      ensures projects == old(projects) && nextId == old(nextId)
      ensures users == if o == Lost || u !in old(users) then old(users)
                       else old(users)[u := old(users)[u].(keys := old(users)[u].keys - {k})]
      ensures e == ErrorOf(o)
    {
      if o != Lost && u in users {
        users := users[u := users[u].(keys := users[u].keys - {k})];
      }
      e := ErrorOf(o);
    }

    method ListProjects(org: Id, name: string, answers: bool) returns (r: Result<Option<Id>, Error>)
      ensures r == if !answers then Err(CallFailed)
                   else Ok(if (org, name) in projects then Some(projects[(org, name)]) else None)
    {
      if !answers {
        return Err(CallFailed);
      }
      r := Ok(if (org, name) in projects then Some(projects[(org, name)]) else None);
    }

    method CreateProject(org: Id, name: string, o: Outcome) returns (r: Result<Id, Error>)
      modifies this
      ensures users == old(users)
      ensures r == if o == Done then Ok(old(nextId)) else Err(CallFailed)
      ensures if o == Lost then projects == old(projects) && nextId == old(nextId)
              else projects == old(projects)[(org, name) := old(nextId)] && nextId == old(nextId) + 1
    {
      r := if o == Done then Ok(nextId) else Err(CallFailed);
      if o != Lost {
        projects, nextId := projects[(org, name) := nextId], nextId + 1;
      }
    }

    /** Makes the user an owner of the project, or of the organization for NONE; to be a member
        already is no error to any caller. */
    method AddMember(u: Id, project: Id, o: Outcome) returns (e: Option<Error>)
      modifies this
      ensures projects == old(projects) && nextId == old(nextId)
      ensures users == if o == Lost || u !in old(users) then old(users)
                       else old(users)[u := old(users)[u].(memberOf := old(users)[u].memberOf + {project})]
      ensures e == ErrorOf(o)
    {
      if o != Lost && u in users {
        users := users[u := users[u].(memberOf := users[u].memberOf + {project})];
      }
      e := ErrorOf(o);
    }
  }

  class Manager {
    const k8s: SecretStore
    const binding: Zitadel
    const rotateAfter: Time
    const rotationGrace: Time
    var cache: map<ScopeHash, Delegate>

    /** The three stores as one state. */
    ghost function View(now: Time): State
      reads this, k8s, binding
    {
      State(rotateAfter, rotationGrace, now, cache, k8s.secrets, binding.users, binding.projects,
            binding.nextId, k8s.log)
    }

    ghost predicate Valid(now: Time)
      reads this, k8s, binding
    {
      k8s.Valid() && Inv(View(now))
    }

    constructor (rotateAfter: Time, rotationGrace: Time, ghost now: Time)
      requires 0 < rotateAfter && 0 < rotationGrace
      ensures Valid(now) && View(now) == Init(rotateAfter, rotationGrace, now)
      ensures fresh(k8s) && fresh(binding)
    {
      k8s := new SecretStore();
      binding := new Zitadel();
      this.rotateAfter, this.rotationGrace := rotateAfter, rotationGrace;
      cache := map[];
    }

    /** Returns a delegate for the scope: from the cache, from its Secret, or freshly minted. */
    method Ensure(scope: Scope, now: Time, calls: EnsureCalls) returns (r: Result<Delegate, Error>)
      requires Valid(now)
      modifies this, k8s, binding
      ensures Valid(now)
      ensures (View(now), r) == DelegationSpec.Ensure(old(View(now)), scope, calls)
      ensures r.Ok? ==> (Serves(View(now), scope.Hash(), r.value) <==> !old(Stranded(View(now), scope.Hash())))
    {
      ghost var s := View(now);
      EnsureAgrees(s, scope, calls);
      var h := scope.Hash();
      if h in cache {
        ValidateKeepsInv(s, h, calls);
        var e := ValidateLocked(h, now, calls);
        if e.Some? {
          return Err(e.value);
        }
        if h in cache {
          r := RotateIfDueLocked(h, now, calls);
          return;
        }
      }
      ghost var t := View(now);
      WarmKeepsInv(t, h, calls);
      var w := WarmLocked(h, now, calls);
      match w
      case Err(e) => return Err(e);
      case Ok(Some(d)) => return Ok(d);
      case Ok(None) => r := Mint(scope, now, calls);
    }

    method ValidateLocked(h: ScopeHash, now: Time, calls: EnsureCalls) returns (e: Option<Error>)
      requires k8s.Valid() && h in cache
      modifies this, k8s
      ensures k8s.Valid() && (View(now), e) == Validate(old(View(now)), h, calls)
    {
      var d := cache[h];
      if d.validated {
        return None;
      }
      var found := binding.GetUserByID(d.user, calls.getUser);
      if found.Err? {
        return Some(found.error);
      }
      if found.value {
        cache := cache[h := d.(validated := true)];
        return None;
      }
      cache := cache - {h};
      e := k8s.Delete(h, calls.dropSecret);
    }

    method RotateIfDueLocked(h: ScopeHash, now: Time, calls: EnsureCalls) returns (r: Result<Delegate, Error>)
      requires k8s.Valid() && h in cache && forall g | g in k8s.secrets :: k8s.secrets[g].name == g
      modifies this, k8s, binding
      ensures k8s.Valid() && (View(now), r) == RotateIfDue(old(View(now)), h, calls)
    {
      var d := cache[h];
      if d.created.None? || now - d.created.value < rotateAfter {
        return Ok(d);
      }
      var key := binding.AddMachineKey(d.user, calls.rotateKey);
      if key.Err? {
        return Err(key.error);
      }
      var secret := k8s.Get(h, calls.rereadSecret);
      if secret.Err? {
        return Err(secret.error);
      }
      if secret.value.None? {
        return Err(NotFound);
      }
      var q := secret.value.value.(key := key.value, created := Some(Truncate(now)));
      if d.key != NONE {
        q := q.(oldKey := d.key, oldRevokeAt := Some(Truncate(now + rotationGrace)));
      }
      var e := k8s.Update(q, calls.updateSecret, now);
      if e.Some? {
        return Err(e.value);
      }
      if !calls.buildRotated {
        return Err(CallFailed);
      }
      var nd := Delegate(d.user, NONE, d.project, key.value, Some(now), true);
      cache := cache[h := nd];
      r := Ok(nd);
    }

    method WarmLocked(h: ScopeHash, now: Time, calls: EnsureCalls) returns (r: Result<Option<Delegate>, Error>)
      requires Valid(now)
      modifies this, k8s, binding
      ensures Valid(now) && (View(now), r) == Warm(old(View(now)), h, calls)
    {
      ghost var s := View(now);
      WarmKeepsInv(s, h, calls);
      var secret := k8s.Get(h, calls.readSecret);
      if secret.Err? {
        return Err(secret.error);
      }
      if secret.value.None? {
        return Ok(None);
      }
      if !calls.buildWarm {
        return Err(CallFailed);
      }
      WarmCaches(s, h);
      cache := cache[h := FromSecret(secret.value.value)];
      ValidateKeepsInv(View(now), h, calls);
      var e := ValidateLocked(h, now, calls);
      if e.Some? {
        return Err(e.value);
      }
      if h !in cache {
        return Ok(None);
      }
      var d := RotateIfDueLocked(h, now, calls);
      r := if d.Ok? then Ok(Some(d.value)) else Err(d.error);
    }

    method EnsureMachineUser(h: ScopeHash, now: Time, calls: EnsureCalls) returns (r: Result<Id, Error>)
      requires Valid(now)
      modifies binding
      ensures (View(now), r) == EnsureUser(old(View(now)), h, calls)
    {
      ghost var s := View(now);
      var listed := binding.ListUsers(h, calls.listUsers);
      if listed.Err? {
        return Err(listed.error);
      }
      if listed.value != [] {
        assert listed.value[0] in listed.value;
        assert forall u | Named(s, u, h) :: u == listed.value[0];
        assert Named(s, listed.value[0], h);
        return Ok(listed.value[0]);
      }
      assert forall u :: u !in listed.value && !Named(s, u, h);
      r := binding.AddMachineUser(h, calls.addUser);
    }

    method EnsureProject(scope: Scope, now: Time, calls: EnsureCalls) returns (r: Result<Id, Error>)
      modifies binding
      ensures (View(now), r) == DelegationSpec.EnsureProject(old(View(now)), scope, calls)
    {
      if scope.projectId != NONE || scope.projectName == "" {
        return Ok(scope.projectId);
      }
      var listed := binding.ListProjects(scope.organizationId, scope.projectName, calls.listProjects);
      if listed.Err? {
        return Err(listed.error);
      }
      if listed.value.Some? {
        return Ok(listed.value.value);
      }
      r := binding.CreateProject(scope.organizationId, scope.projectName, calls.addProject);
    }

    /** Membership, key, Secret and cache entry, in this order. */
    method IssueKey(scope: Scope, user: Id, project: Id, now: Time, calls: EnsureCalls)
      returns (r: Result<Delegate, Error>)
      requires k8s.Valid() && user in binding.users
      modifies this, k8s, binding
      ensures k8s.Valid() && (View(now), r) == Issue(old(View(now)), scope, user, project, calls)
    {
      var e := binding.AddMember(user, project, calls.addMember);
      if e.Some? {
        return Err(e.value);
      }
      var key := binding.AddMachineKey(user, calls.addKey);
      if key.Err? {
        return Err(key.error);
      }
      if !calls.buildMinted {
        return Err(CallFailed);
      }
      var q := Secret(
        scope.Hash(), 0, user, scope.organizationId, project, key.value, Some(Truncate(now)), NONE, None);
      e := k8s.Create(q, calls.createSecret, now);
      if e.Some? {
        return Err(e.value);
      }
      var d := Delegate(user, scope.organizationId, project, key.value, Some(now), true);
      cache := cache[scope.Hash() := d];
      r := Ok(d);
    }

    method Mint(scope: Scope, now: Time, calls: EnsureCalls) returns (r: Result<Delegate, Error>)
      requires Valid(now)
      modifies this, k8s, binding
      ensures k8s.Valid() && (View(now), r) == DelegationSpec.Mint(old(View(now)), scope, calls)
    {
      ghost var s := View(now);
      EnsureUserKeepsInv(s, scope.Hash(), calls);
      var user := EnsureMachineUser(scope.Hash(), now, calls);
      if user.Err? {
        return Err(user.error);
      }
      EnsureProjectKeepsInv(View(now), scope, calls);
      var project := EnsureProject(scope, now, calls);
      if project.Err? {
        return Err(project.error);
      }
      r := IssueKey(scope, user.value, project.value, now, calls);
    }

    /** Removes the machine user, then the Secret, then the cache entry; in the organization that the
        Secret names, even if a rotation dropped it from the cache. */
    method Revoke(h: ScopeHash, now: Time, calls: RevokeCalls) returns (e: Option<Error>)
      requires Valid(now)
      modifies this, k8s, binding
      ensures Valid(now) && (View(now), e) == DelegationSpec.Revoke(old(View(now)), h, calls)
      ensures calls.readSecret && h in old(k8s.secrets) ==> binding.removedIn == old(k8s.secrets)[h].org
    {
      RevokeKeepsInv(View(now), h, calls);
      RevokedUserOwns(View(now), h);
      if h in k8s.secrets {
        RevokeKnowsTheOrganization(View(now), h);
      }
      e := RevokeLocked(h, now, calls);
    }

    method RevokeLocked(h: ScopeHash, now: Time, calls: RevokeCalls) returns (e: Option<Error>)
      requires k8s.Valid()
      modifies this, k8s, binding
      ensures k8s.Valid() && (View(now), e) == DelegationSpec.Revoke(old(View(now)), h, calls)
      ensures calls.readSecret && RevokedUser(old(View(now)), h) != NONE ==>
        binding.removedIn == RevokedOrg(old(View(now)), h)
    {
      var user := if h in cache then cache[h].user else NONE;
      var org := if h in cache then cache[h].org else NONE;
      var secret := k8s.Get(h, calls.readSecret);
      if secret.Err? {
        return Some(secret.error);
      }
      if secret.value.Some? && user == NONE {
        user := secret.value.value.user;
      }
      if secret.value.Some? && org == NONE {
        org := secret.value.value.org;
      }
      if user != NONE {
        e := binding.RemoveUser(org, user, calls.removeUser);
        if e.Some? {
          return;
        }
      }
      if secret.value.Some? {
        e := k8s.Delete(h, calls.dropSecret);
        if e.Some? {
          return;
        }
      }
      cache := cache - {h};
      e := None;
    }

    method FinishRotationLocked(q: Secret, now: Time, calls: RevokeCalls) returns (e: Option<Error>)
      requires k8s.Valid()
      modifies k8s, binding
      ensures k8s.Valid() && (View(now), e) == FinishRotation(old(View(now)), q, calls)
    {
      if q.oldKey == NONE || q.oldRevokeAt.None? {
        return None;
      }
      if now < q.oldRevokeAt.value {
        return None;
      }
      e := binding.RemoveMachineKey(q.user, q.oldKey, calls.removeKey);
      if e.Some? {
        return;
      }
      e := k8s.Update(q.(oldKey := NONE, oldRevokeAt := None), calls.updateSecret, now);
    }

    /** `listed` is the listing taken before the lock. */
    method Sweep(listed: seq<Secret>, live: set<ScopeHash>, now: Time, calls: seq<RevokeCalls>)
      returns (firstErr: Option<Error>)
      requires Valid(now) && |calls| == |listed| && AllLogged(View(now), listed)
      modifies this, k8s, binding
      ensures Valid(now) && (View(now), firstErr) == DelegationSpec.Sweep(old(View(now)), listed, live, calls)
    {
      firstErr := None;
      ghost var s := View(now);
      for i := 0 to |listed|
        invariant k8s.Valid()
        invariant (View(now), firstErr) == DelegationSpec.Sweep(s, listed[..i], live, calls[..i])
      {
        var e: Option<Error>;
        if listed[i].name !in live {
          e := RevokeLocked(listed[i].name, now, calls[i]);
        } else {
          e := FinishRotationLocked(listed[i], now, calls[i]);
        }
        if e.Some? && firstErr.None? {
          firstErr := e;
        }
        assert listed[..i + 1][..i] == listed[..i] && calls[..i + 1][..i] == calls[..i];
      }
      assert listed[..|listed|] == listed && calls[..|listed|] == calls;
      SweepKeepsInv(s, listed, live, calls);
    }

    /** Fills the cache from the listed Secrets whose client can be built. */
    method FillCache(built: set<ScopeHash>)
      modifies `cache
      ensures cache == old(cache) + map h | h in k8s.secrets && h in built :: FromSecret(k8s.secrets[h])
    {
      var rest := k8s.secrets.Keys;
      while rest != {}
        invariant rest <= k8s.secrets.Keys
        invariant forall h :: h in cache <==> h in old(cache) || (h in k8s.secrets && h !in rest && h in built)
        invariant forall h | h in cache ::
          cache[h] == (if h in k8s.secrets && h !in rest && h in built then FromSecret(k8s.secrets[h])
                       else old(cache)[h])
        decreases |rest|
      {
        var h :| h in rest;
        rest := rest - {h};
        if h in built {
          cache := cache[h := FromSecret(k8s.secrets[h])];
        }
      }
    }

    method WarmFromSecrets(built: set<ScopeHash>, ghost now: Time)
      requires Valid(now)
      modifies `cache
      ensures Valid(now) && View(now) == DelegationSpec.WarmFromSecrets(old(View(now)), built)
    {
      hide Inv;
      WarmFromSecretsKeepsInv(View(now), built);
      FillCache(built);
    }

    /** A new process: the cache is empty, everything else is as it was. */
    method Restart(ghost now: Time)
      requires Valid(now)
      modifies `cache
      ensures Valid(now) && View(now) == old(View(now)).(cache := map[])
    {
      cache := map[];
    }
  }
}
