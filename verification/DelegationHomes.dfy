/** Which machine users a Secret accounts for, where they are members, and which users no sweep reaches:
    those that a failing mint leaves behind without a Secret. */
module DelegationHomes {
  import opened Base
  import opened ScopeMaps
  import opened DelegationSpec
  import opened DelegationInvariants
  import opened DelegationSafety
  import opened DelegationSweeping
  import opened DelegationTracking
  import opened DelegationRuns

  /** The scope is a whole organization. */
  predicate OrgScope(h: ScopeHash) {
    h.project == "" && h.projectId == NONE
  }

  /** The Secret of a user's hash, if there is one, names that user. */
  ghost predicate NamedBySecret(secrets: Secrets, users: Users) {
    forall u | u in users && users[u].name in secrets :: secrets[users[u].name].user == u
  }

  /** A user is a member of the project that its Secret names. */
  ghost predicate MemberOfItsProject(secrets: Secrets, users: Users) {
    forall h | h in secrets && secrets[h].user in users :: secrets[h].project in users[secrets[h].user].memberOf
  }

  type Projects = map<(Id, string), Id>

  /** `p` is where the scope is: the project it gives by id; else the project of its organization that has
      the name it gives; else, written NONE, the organization itself. */
  ghost predicate InScope(projects: Projects, h: ScopeHash, p: Id) {
    if h.projectId != NONE then p == h.projectId
    else if h.project != "" then
      (h.organizationId, h.project) in projects && projects[(h.organizationId, h.project)] == p
    else p == NONE
  }

  ghost predicate MemberOfItsScope(users: Users, projects: Projects) {
    forall u, p | u in users && p in users[u].memberOf :: InScope(projects, users[u].name, p)
  }

  ghost predicate SecretsOfTheirScope(secrets: Secrets, projects: Projects) {
    forall h | h in secrets :: secrets[h].org == h.organizationId && InScope(projects, h, secrets[h].project)
  }

  /** Every project was created for one organization and one name. */
  ghost predicate DistinctProjects(projects: Projects, next: Id) {
    && (forall k | k in projects :: 0 < projects[k] < next)
    && forall k, l | k in projects && l in projects && projects[k] == projects[l] :: k == l
  }

  ghost predicate Homed(s: State) {
    && NamedBySecret(s.secrets, s.users) && MemberOfItsProject(s.secrets, s.users)
    && MemberOfItsScope(s.users, s.projects) && SecretsOfTheirScope(s.secrets, s.projects)
    && DistinctProjects(s.projects, s.nextId)
  }

  // ----- single effects -----

  /** Users and Secrets may go, and a user may get a key. */
  lemma LessKeepsHomed(s: State, t: State)
    requires Homed(s) && t.projects == s.projects && s.nextId <= t.nextId
    requires forall h | h in t.secrets :: h in s.secrets && t.secrets[h] == s.secrets[h]
    requires forall u | u in t.users ::
      u in s.users && t.users[u].name == s.users[u].name && t.users[u].memberOf == s.users[u].memberOf
    ensures Homed(t)
  {
  }

  lemma PutSecretKeepsHomed(s: State, q: Secret)
    requires Homed(s)
    requires forall u | u in s.users && s.users[u].name == q.name :: u == q.user
    requires q.user in s.users ==> q.project in s.users[q.user].memberOf
    requires q.org == q.name.organizationId && InScope(s.projects, q.name, q.project)
    ensures Homed(PutSecret(s, q))
  {
  }

  /** Rewriting a Secret for the same user, organization and project. */
  lemma RewriteKeepsHomed(s: State, q: Secret)
    requires Homed(s) && q.name in s.secrets
    requires q.user == s.secrets[q.name].user && q.project == s.secrets[q.name].project
    requires q.org == s.secrets[q.name].org
    ensures Homed(PutSecret(s, q))
  {
    PutSecretKeepsHomed(s, q);
  }

  lemma AddKeyKeepsHomed(s: State, u: Id)
    requires Homed(s) && u in s.users
    ensures Homed(AddKey(s, u))
  {
    LessKeepsHomed(s, AddKey(s, u));
  }

  lemma AddUserKeepsHomed(s: State, h: ScopeHash)
    requires Homed(s) && h !in s.secrets && s.nextId !in s.users
    requires forall g | g in s.secrets :: s.secrets[g].user < s.nextId
    ensures Homed(AddUser(s, h))
  {
  }

  lemma AddMemberKeepsHomed(s: State, u: Id, project: Id)
    requires Homed(s) && u in s.users && InScope(s.projects, s.users[u].name, project)
    ensures Homed(AddMember(s, u, project))
  {
  }

  lemma StoredUser(s: State, h: ScopeHash)
    requires Inv(s) && h in s.secrets
    ensures s.secrets[h].user < s.nextId && s.secrets[h].name == h
  {
    assert s.log[s.secrets[h].version].secret == s.secrets[h];
  }

  // ----- Ensure -----

  lemma RotateKeepsHomed(s: State, h: ScopeHash, calls: EnsureCalls)
    requires Inv(s) && Homed(s) && h in s.cache
    ensures Homed(RotateIfDue(s, h, calls).0)
  {
    hide Inv, Homed;
    var d := s.cache[h];
    if d.user in s.users {
      CachedAndAlive(s, h);
      AddKeyKeepsHomed(s, d.user);
      var t := AddKey(s, d.user);
      RewriteKeepsHomed(t, Swapped(t, t.secrets[h], d, s.nextId));
      CacheKeepsHomed(s);
      CacheKeepsHomed(t);
      CacheKeepsHomed(PutSecret(t, Swapped(t, t.secrets[h], d, s.nextId)));
    }
  }

  /** The cache does not matter. */
  lemma CacheKeepsHomed(s: State)
    ensures forall cache: Cache :: Homed(s.(cache := cache)) <==> Homed(s)
  {
  }

  lemma ValidateKeepsHomed(s: State, h: ScopeHash, calls: EnsureCalls)
    requires Homed(s) && h in s.cache
    ensures Homed(Validate(s, h, calls).0)
  {
    hide Homed;
    LessKeepsHomed(s, Validate(s, h, calls).0);
  }

  lemma WarmKeepsHomed(s: State, h: ScopeHash, calls: EnsureCalls)
    requires Inv(s) && Homed(s) && h !in s.cache
    ensures Homed(Warm(s, h, calls).0)
  {
    hide Inv, Homed, Validate, RotateIfDue;
    if h in s.secrets {
      WarmCaches(s, h);
      CacheKeepsHomed(s);
      var w := s.(cache := s.cache[h := FromSecret(s.secrets[h])]);
      ValidateKeepsInv(w, h, calls);
      ValidateKeepsHomed(w, h, calls);
      var t := Validate(w, h, calls).0;
      if h in t.cache && Validate(w, h, calls).1.None? {
        RotateKeepsHomed(t, h, calls);
      }
    }
  }

  lemma EnsureUserKeepsHomed(s: State, h: ScopeHash, calls: EnsureCalls)
    requires Inv(s) && Homed(s) && h !in s.secrets
    ensures Homed(EnsureUser(s, h, calls).0)
  {
    hide Inv, Homed;
    FreshId(s);
    forall g | g in s.secrets ensures s.secrets[g].user < s.nextId {
      StoredUser(s, g);
    }
    AddUserKeepsHomed(s, h);
  }

  /** A new project leaves every scope where it was. */
  lemma AddProjectKeepsScopes(s: State, org: Id, name: string)
    requires (org, name) !in s.projects
    ensures forall h, p | InScope(s.projects, h, p) :: InScope(AddProject(s, org, name).projects, h, p)
  {
  }

  lemma AddProjectKeepsHomed(s: State, org: Id, name: string)
    requires Homed(s) && 0 < s.nextId && (org, name) !in s.projects
    ensures Homed(AddProject(s, org, name))
  {
    hide InScope;
    AddProjectKeepsScopes(s, org, name);
  }

  lemma EnsureProjectKeepsHomed(s: State, scope: Scope, calls: EnsureCalls)
    requires Homed(s) && 0 < s.nextId
    ensures var (t, r) := EnsureProject(s, scope, calls);
      Homed(t) && t.users == s.users && (r.Ok? ==> InScope(t.projects, scope.Hash(), r.value))
  {
    hide Homed;
    if (scope.organizationId, scope.projectName) !in s.projects {
      AddProjectKeepsHomed(s, scope.organizationId, scope.projectName);
    }
  }

  lemma IssueKeepsHomed(s: State, scope: Scope, user: Id, project: Id, calls: EnsureCalls)
    requires Inv(s) && Homed(s) && Named(s, user, scope.Hash()) && InScope(s.projects, scope.Hash(), project)
    ensures Homed(Issue(s, scope, user, project, calls).0)
  {
    hide Inv, Homed;
    OnlyUser(s, user);
    AddMemberKeepsHomed(s, user, project);
    var t := AddMember(s, user, project);
    AddKeyKeepsHomed(t, user);
    var v := AddKey(t, user);
    PutSecretKeepsHomed(v, Fresh(v, scope, user, project, t.nextId));
    CacheKeepsHomed(PutSecret(v, Fresh(v, scope, user, project, t.nextId)));
  }

  lemma OnlyUser(s: State, user: Id)
    requires Inv(s) && user in s.users
    ensures forall u | u in s.users && s.users[u].name == s.users[user].name :: u == user
  {
  }

  lemma MintKeepsHomed(s: State, scope: Scope, calls: EnsureCalls)
    requires Inv(s) && Homed(s) && scope.Hash() !in s.secrets
    ensures Homed(Mint(s, scope, calls).0)
  {
    hide Inv, Homed, Issue;
    EnsureUserKeepsHomed(s, scope.Hash(), calls);
    EnsureUserKeepsInv(s, scope.Hash(), calls);
    var (t, u) := EnsureUser(s, scope.Hash(), calls);
    PositiveId(t);
    EnsureProjectKeepsHomed(t, scope, calls);
    EnsureProjectKeepsInv(t, scope, calls);
    var (v, p) := EnsureProject(t, scope, calls);
    if u.Ok? && p.Ok? {
      assert Named(t, u.value, scope.Hash());
      IssueKeepsHomed(v, scope, u.value, p.value, calls);
    }
  }

  lemma PositiveId(s: State)
    requires Inv(s)
    ensures 0 < s.nextId
  {
  }

  lemma WarmOrMintKeepsHomed(s: State, scope: Scope, calls: EnsureCalls)
    requires Inv(s) && Homed(s) && scope.Hash() !in s.cache
    ensures Homed(WarmOrMint(s, scope, calls).0)
  {
    hide Inv, Homed, Warm, Mint;
    WarmKeepsInv(s, scope.Hash(), calls);
    WarmKeepsHomed(s, scope.Hash(), calls);
    var (t, r) := Warm(s, scope.Hash(), calls);
    if r == Ok(None) {
      MintKeepsHomed(t, scope, calls);
    }
  }

  lemma EnsureKeepsHomed(s: State, scope: Scope, calls: EnsureCalls)
    requires Inv(s) && Homed(s)
    ensures Homed(Ensure(s, scope, calls).0)
  {
    hide Inv, Homed, WarmOrMint, Validate, RotateIfDue;
    var h := scope.Hash();
    if h in s.cache {
      ValidateKeepsInv(s, h, calls);
      ValidateKeepsHomed(s, h, calls);
      var (t, e) := Validate(s, h, calls);
      if e.None? && h in t.cache {
        RotateKeepsHomed(t, h, calls);
      } else if e.None? {
        WarmOrMintKeepsHomed(t, scope, calls);
      }
    } else {
      WarmOrMintKeepsHomed(s, scope, calls);
    }
  }

  // ----- the other steps -----

  lemma DropUserKeepsHomed(s: State, u: Id)
    requires Homed(s)
    ensures Homed(DropUser(s, u))
  {
  }

  lemma DropSecretKeepsHomed(s: State, h: ScopeHash)
    requires Homed(s)
    ensures Homed(DropSecret(s, h))
  {
  }

  lemma RevokeKeepsHomed(s: State, h: ScopeHash, calls: RevokeCalls)
    requires Homed(s)
    ensures Homed(Revoke(s, h, calls).0)
  {
    hide Homed, DropUser, DropSecret;
    var u := RevokedUser(s, h);
    DropUserKeepsHomed(s, u);
    DropSecretKeepsHomed(s, h);
    DropSecretKeepsHomed(DropUser(s, u), h);
    CacheKeepsHomed(s);
    CacheKeepsHomed(DropSecret(s, h));
    CacheKeepsHomed(DropUser(s, u));
    CacheKeepsHomed(DropSecret(DropUser(s, u), h));
  }

  lemma FinishKeepsHomed(s: State, q: Secret, calls: RevokeCalls)
    requires Inv(s) && Homed(s) && Logged(s, q)
    ensures Homed(FinishRotation(s, q, calls).0)
  {
    hide Inv, Homed;
    var t := RemoveKey(s, q.user, q.oldKey);
    LessKeepsHomed(s, t);
    if q.name in s.secrets && s.secrets[q.name].version == q.version {
      LoggedIsCurrent(s, q);
      RewriteKeepsHomed(t, q.(oldKey := NONE, oldRevokeAt := None));
    }
  }

  lemma {:induction false} SweepKeepsHomed(s: State, listed: seq<Secret>, live: set<ScopeHash>, calls: seq<RevokeCalls>)
    requires Inv(s) && Homed(s) && |calls| == |listed| && AllLogged(s, listed)
    ensures Homed(Sweep(s, listed, live, calls).0)
  {
    hide Inv, Homed, Revoke, FinishRotation, Sweeps;
    if listed != [] {
      var n := |listed| - 1;
      SweepKeepsHomed(s, listed[..n], live, calls[..n]);
      SweepKeepsInv(s, listed[..n], live, calls[..n]);
      var t := Sweep(s, listed[..n], live, calls[..n]).0;
      LogGrows(s, t, listed[n]);
      if listed[n].name in live {
        FinishKeepsHomed(t, listed[n], calls[n]);
      } else {
        RevokeKeepsHomed(t, listed[n].name, calls[n]);
      }
    }
  }

  lemma NextKeepsHomed(s: State, step: Step)
    requires Inv(s) && Homed(s) && Possible(s, step)
    ensures Homed(Next(s, step))
  {
    hide Inv, Homed, Ensure, Revoke, Sweep;
    match step
    case DoEnsure(scope, calls) => EnsureKeepsHomed(s, scope, calls);
    case DoRevoke(h, calls) => RevokeKeepsHomed(s, h, calls);
    case DoSweep(listed, live, calls) => SweepKeepsHomed(s, listed, live, calls);
    case _ => LessKeepsHomed(s, Next(s, step));
  }

  lemma {:induction false} RunKeepsHomed(run: seq<State>, steps: seq<Step>, i: nat)
    requires IsRun(run, steps) && i <= |steps|
    ensures Inv(run[i]) && Homed(run[i])
  {
    hide Inv, Next;
    RunKeepsInv(run, steps, i);
    if i > 0 {
      RunKeepsHomed(run, steps, i - 1);
      NextKeepsHomed(run[i - 1], steps[i - 1]);
    }
  }

  // ----- what a Secret says is true -----

  /** In every state of every run: as long as the user that a Secret names exists, its key is live and it
      is a member of the project that the Secret names, of no organization if its scope is a project, and
      it is the only user with this scope hash. */
  lemma NamedKeyIsLive(run: seq<State>, steps: seq<Step>, i: nat, h: ScopeHash)
    requires IsRun(run, steps) && i <= |steps|
    requires h in run[i].secrets && run[i].secrets[h].user in run[i].users
    ensures var q, user := run[i].secrets[h], run[i].users[run[i].secrets[h].user];
      && user.name == h && q.key in user.keys && q.project in user.memberOf
      && (forall p | p in user.memberOf :: p == NONE <==> OrgScope(h))
      && forall u | u in run[i].users && run[i].users[u].name == h :: u == q.user
  {
    RunKeepsHomed(run, steps, i);
    StoredOwner(run[i], h);
    NoneIsTheOrganization(run[i], run[i].secrets[h].user);
  }

  lemma NoneIsTheOrganization(s: State, u: Id)
    requires Homed(s) && u in s.users
    ensures forall p | p in s.users[u].memberOf :: p == NONE <==> OrgScope(s.users[u].name)
  {
  }

  /** In every state of every run a Secret names the organization of its scope, and the project that its
      scope gives by id; or, if it gives a name only, the project of that name in that organization; or no
      project, if it gives neither. */
  lemma SecretsNameTheProjectOfTheirScope(run: seq<State>, steps: seq<Step>, i: nat, h: ScopeHash)
    requires IsRun(run, steps) && i <= |steps| && h in run[i].secrets
    ensures var q, projects := run[i].secrets[h], run[i].projects;
      && q.org == h.organizationId
      && (h.projectId != NONE ==> q.project == h.projectId)
      && (h.projectId == NONE && h.project != "" ==>
            (h.organizationId, h.project) in projects && projects[(h.organizationId, h.project)] == q.project != NONE)
      && (h.projectId == NONE && h.project == "" ==> q.project == NONE)
  {
    RunKeepsHomed(run, steps, i);
  }

  /** No machine user is a member outside its scope: not of an organization if the scope is a project, nor of
      a project that was created for another organization or under another name, unless the scope gives
      its id. */
  lemma NobodyIsAMemberElsewhere(run: seq<State>, steps: seq<Step>, i: nat, u: Id, p: Id)
    requires IsRun(run, steps) && i <= |steps| && u in run[i].users && p in run[i].users[u].memberOf
    ensures var h, projects := run[i].users[u].name, run[i].projects;
      && (p == NONE <==> h.projectId == NONE && h.project == "")
      && (h.projectId != NONE ==> p == h.projectId)
      && forall k | k in projects && projects[k] == p != h.projectId :: k == (h.organizationId, h.project)
  {
    RunKeepsHomed(run, steps, i);
  }
}
