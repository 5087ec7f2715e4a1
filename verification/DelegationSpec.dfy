/** What the delegation manager does, as a state machine over its three stores: the in-memory cache,
    the delegation Secrets and the machine users of the Zitadel instance. Every remote call made on
    the way may fail, before or after it took effect. */
module DelegationSpec {
  import opened Base
  import opened ScopeMaps

  /** A cached delegate. `created` is None for a key of unknown age. */
  datatype Delegate = Delegate(
    user: Id, org: Id, project: Id, key: Id, created: Option<Time>, validated: bool)

  /** A delegation Secret; `name` is the hash behind the name prefix, `version` its resourceVersion. */
  datatype Secret = Secret(
    name: ScopeHash, version: nat, user: Id, org: Id, project: Id, key: Id, created: Option<Time>,
    oldKey: Id, oldRevokeAt: Option<Time>)

  /** A machine user. `memberOf` holds the projects it owns, and NONE when it owns the organization. */
  datatype User = User(name: ScopeHash, keys: set<Id>, memberOf: set<Id>)

  /** One write of a Secret; the n-th write gives it resourceVersion n. */
  datatype Written = Written(secret: Secret, at: Time)

  datatype Error = CallFailed | NotFound | Conflict

  datatype State = State(
    rotateAfter: Time,
    grace: Time,
    now: Time,
    cache: map<ScopeHash, Delegate>,
    secrets: map<ScopeHash, Secret>,
    users: map<Id, User>,
    projects: map<(Id, string), Id>,
    nextId: Id,
    log: seq<Written>)

  function Init(rotateAfter: Time, grace: Time, now: Time): State {
    State(rotateAfter, grace, now, map[], map[], map[], map[], 1, [])
  }

  // ----- the effects of single remote calls -----

  function PutSecret(s: State, q: Secret): State {
    var v := q.(version := |s.log|);
    s.(secrets := s.secrets[v.name := v], log := s.log + [Written(v, s.now)])
  }

  function DropSecret(s: State, h: ScopeHash): State {
    s.(secrets := s.secrets - {h})
  }

  function PutUser(s: State, u: Id, user: User): State {
    s.(users := s.users[u := user])
  }

  function DropUser(s: State, u: Id): State {
    s.(users := s.users - {u})
  }

  function AddUser(s: State, h: ScopeHash): State {
    s.(users := s.users[s.nextId := User(h, {}, {})], nextId := s.nextId + 1)
  }

  function AddKey(s: State, u: Id): State
    requires u in s.users
  {
    var user := s.users[u];
    s.(users := s.users[u := user.(keys := user.keys + {s.nextId})], nextId := s.nextId + 1)
  }

  function RemoveKey(s: State, u: Id, k: Id): State {
    if u in s.users then PutUser(s, u, s.users[u].(keys := s.users[u].keys - {k})) else s
  }

  function AddMember(s: State, u: Id, project: Id): State {
    if u in s.users then PutUser(s, u, s.users[u].(memberOf := s.users[u].memberOf + {project})) else s
  }

  function AddProject(s: State, org: Id, name: string): State {
    s.(projects := s.projects[(org, name) := s.nextId], nextId := s.nextId + 1)
  }

  /** The state after a call whose effect is `t` and which ends in `o`. */
  function After(o: Outcome, s: State, t: State): State {
    if o == Lost then s else t
  }

  function ErrorOf(o: Outcome): Option<Error> {
    if o == Done then None else Some(CallFailed)
  }

  // ----- Ensure -----

  /** The outcomes of the calls one Ensure may make; reads and client construction only succeed or fail. */
  datatype EnsureCalls = EnsureCalls(
    getUser: bool, dropSecret: Outcome, readSecret: bool, buildWarm: bool,
    listUsers: bool, addUser: Outcome, listProjects: bool, addProject: Outcome,
    addMember: Outcome, addKey: Outcome, buildMinted: bool, createSecret: Outcome,
    rotateKey: Outcome, rereadSecret: bool, updateSecret: Outcome, buildRotated: bool)

  const ALL_FINE: EnsureCalls := EnsureCalls(
    true, Done, true, true, true, Done, true, Done, Done, Done, true, Done, Done, true, Done, true)

  predicate Due(s: State, d: Delegate) {
    d.created.Some? && s.now - d.created.value >= s.rotateAfter
  }

  function FromSecret(q: Secret): Delegate {
    Delegate(q.user, q.org, q.project, q.key, q.created, false)
  }

  /** Re-checks a cached delegate once; drops it together with its Secret when its user is gone. */
  function Validate(s: State, h: ScopeHash, calls: EnsureCalls): (State, Option<Error>)
    requires h in s.cache
  {
    var d := s.cache[h];
    if d.validated then (s, None)
    else if !calls.getUser then (s, Some(CallFailed))
    else if d.user in s.users then (s.(cache := s.cache[h := d.(validated := true)]), None)
    else
      var t := s.(cache := s.cache - {h});
      (After(calls.dropSecret, t, DropSecret(t, h)), ErrorOf(calls.dropSecret))
  }

  /** The rotated Secret: the new key, and the cached key as the one to revoke after the grace. */
  function Swapped(s: State, q: Secret, d: Delegate, key: Id): Secret {
    var r := q.(key := key, created := Some(Truncate(s.now)));
    if d.key == NONE then r else r.(oldKey := d.key, oldRevokeAt := Some(Truncate(s.now + s.grace)))
  }

  function RotateIfDue(s: State, h: ScopeHash, calls: EnsureCalls): (State, Result<Delegate, Error>)
    requires h in s.cache
  {
    var d := s.cache[h];
    if !Due(s, d) then (s, Ok(d))
    else if d.user !in s.users then (s, Err(NotFound))
    else
      var key := s.nextId;
      var t := After(calls.rotateKey, s, AddKey(s, d.user));
      if calls.rotateKey != Done || !calls.rereadSecret then (t, Err(CallFailed))
      else if h !in t.secrets then (t, Err(NotFound))
      else
        var v := After(calls.updateSecret, t, PutSecret(t, Swapped(t, t.secrets[h], d, key)));
        if calls.updateSecret != Done || !calls.buildRotated then (v, Err(CallFailed))
        else
          var nd := Delegate(d.user, NONE, d.project, key, Some(s.now), true);
          (v.(cache := v.cache[h := nd]), Ok(nd))
  }

  /** None: the caller has to mint. */
  function Warm(s: State, h: ScopeHash, calls: EnsureCalls): (State, Result<Option<Delegate>, Error>) {
    if !calls.readSecret then (s, Err(CallFailed))
    else if h !in s.secrets then (s, Ok(None))
    else if !calls.buildWarm then (s, Err(CallFailed))
    else
      var (t, e) := Validate(s.(cache := s.cache[h := FromSecret(s.secrets[h])]), h, calls);
      if e.Some? then (t, Err(e.value))
      else if h !in t.cache then (t, Ok(None))
      else
        var (v, r) := RotateIfDue(t, h, calls);
        (v, if r.Ok? then Ok(Some(r.value)) else Err(r.error))
  }

  ghost predicate Named(s: State, u: Id, h: ScopeHash) {
    u in s.users && s.users[u].name == h
  }

  ghost function EnsureUser(s: State, h: ScopeHash, calls: EnsureCalls): (State, Result<Id, Error>) {
    if !calls.listUsers then (s, Err(CallFailed))
    else if exists u :: Named(s, u, h) then
      var u :| Named(s, u, h);
      (s, Ok(u))
    else
      (After(calls.addUser, s, AddUser(s, h)), if calls.addUser == Done then Ok(s.nextId) else Err(CallFailed))
  }

  function EnsureProject(s: State, scope: Scope, calls: EnsureCalls): (State, Result<Id, Error>) {
    var at := (scope.organizationId, scope.projectName);
    if scope.projectId != NONE || scope.projectName == "" then (s, Ok(scope.projectId))
    else if !calls.listProjects then (s, Err(CallFailed))
    else if at in s.projects then (s, Ok(s.projects[at]))
    else
      (After(calls.addProject, s, AddProject(s, scope.organizationId, scope.projectName)),
       if calls.addProject == Done then Ok(s.nextId) else Err(CallFailed))
  }

  /** The Secret first written for a freshly minted delegate. */
  function Fresh(s: State, scope: Scope, user: Id, project: Id, key: Id): Secret {
    Secret(scope.Hash(), 0, user, scope.organizationId, project, key, Some(Truncate(s.now)), NONE, None)
  }

  /** Membership, then key, then Secret, then cache entry, for a user that exists. */
  function Issue(s: State, scope: Scope, user: Id, project: Id, calls: EnsureCalls): (State, Result<Delegate, Error>)
    requires user in s.users
  {
    var h := scope.Hash();
    var t := After(calls.addMember, s, AddMember(s, user, project));
    if calls.addMember != Done then (t, Err(CallFailed))
    else
      var key := t.nextId;
      var v := After(calls.addKey, t, AddKey(t, user));
      if calls.addKey != Done || !calls.buildMinted then (v, Err(CallFailed))
      else if h in v.secrets then (v, Err(Conflict))
      else
        var w := After(calls.createSecret, v, PutSecret(v, Fresh(v, scope, user, project, key)));
        if calls.createSecret != Done then (w, Err(CallFailed))
        else
          var d := Delegate(user, scope.organizationId, project, key, Some(s.now), true);
          (w.(cache := w.cache[h := d]), Ok(d))
  }

  ghost function Mint(s: State, scope: Scope, calls: EnsureCalls): (State, Result<Delegate, Error>) {
    var (t, u) := EnsureUser(s, scope.Hash(), calls);
    if u.Err? then (t, Err(u.error))
    else
      var (v, p) := EnsureProject(t, scope, calls);
      if p.Err? then (v, Err(p.error)) else Issue(v, scope, u.value, p.value, calls)
  }

  ghost function WarmOrMint(s: State, scope: Scope, calls: EnsureCalls): (State, Result<Delegate, Error>) {
    var (t, r) := Warm(s, scope.Hash(), calls);
    match r
    case Err(e) => (t, Err(e))
    case Ok(Some(d)) => (t, Ok(d))
    case Ok(None) => Mint(t, scope, calls)
  }

  ghost function Ensure(s: State, scope: Scope, calls: EnsureCalls): (State, Result<Delegate, Error>) {
    var h := scope.Hash();
    if h !in s.cache then WarmOrMint(s, scope, calls)
    else
      var (t, e) := Validate(s, h, calls);
      if e.Some? then (t, Err(e.value))
      else if h in t.cache then RotateIfDue(t, h, calls)
      else WarmOrMint(t, scope, calls)
  }

  // ----- Revoke and Sweep -----

  /** The outcomes of the calls made for one hash of a sweep, or by one Revoke. */
  datatype RevokeCalls = RevokeCalls(
    readSecret: bool, removeUser: Outcome, dropSecret: Outcome, removeKey: Outcome, updateSecret: Outcome)

  /** The user that Revoke removes: the cached one, else the one the Secret names. */
  function RevokedUser(s: State, h: ScopeHash): Id {
    if h in s.cache && s.cache[h].user != NONE then s.cache[h].user
    else if h in s.secrets then s.secrets[h].user
    else NONE
  }

  /** The organization header that Revoke sends. */
  function RevokedOrg(s: State, h: ScopeHash): Id {
    if h in s.cache && s.cache[h].org != NONE then s.cache[h].org
    else if h in s.secrets then s.secrets[h].org
    else NONE
  }

  function Revoke(s: State, h: ScopeHash, calls: RevokeCalls): (State, Option<Error>) {
    if !calls.readSecret then (s, Some(CallFailed))
    else
      var u := RevokedUser(s, h);
      var t := if u == NONE then s else After(calls.removeUser, s, DropUser(s, u));
      if u != NONE && calls.removeUser != Done then (t, Some(CallFailed))
      else
        var v := if h in s.secrets then After(calls.dropSecret, t, DropSecret(t, h)) else t;
        if h in s.secrets && calls.dropSecret != Done then (v, Some(CallFailed))
        else (v.(cache := v.cache - {h}), None)
  }

  /** Revokes the rotated-out key of a listed Secret once its grace is over, and clears the markers
      unless the Secret has been written since it was listed. */
  function FinishRotation(s: State, q: Secret, calls: RevokeCalls): (State, Option<Error>) {
    if q.oldKey == NONE || q.oldRevokeAt.None? || s.now < q.oldRevokeAt.value then (s, None)
    else
      var t := After(calls.removeKey, s, RemoveKey(s, q.user, q.oldKey));
      if calls.removeKey != Done then (t, Some(CallFailed))
      else if q.name !in t.secrets then (t, Some(NotFound))
      else if t.secrets[q.name].version != q.version then (t, Some(Conflict))
      else
        (After(calls.updateSecret, t, PutSecret(t, q.(oldKey := NONE, oldRevokeAt := None))),
         ErrorOf(calls.updateSecret))
  }

  function SweepOne(s: State, q: Secret, live: set<ScopeHash>, calls: RevokeCalls): (State, Option<Error>) {
    if q.name in live then FinishRotation(s, q, calls) else Revoke(s, q.name, calls)
  }

  /** Visits every listed Secret, whatever happened to the ones before it; reports the first error. */
  function Sweep(s: State, listed: seq<Secret>, live: set<ScopeHash>, calls: seq<RevokeCalls>): (State, Option<Error>)
    requires |calls| == |listed|
  {
    if listed == [] then (s, None)
    else
      var n := |listed| - 1;
      var (t, e) := Sweep(s, listed[..n], live, calls[..n]);
      var (v, f) := SweepOne(t, listed[n], live, calls[n]);
      (v, if e.Some? then e else f)
  }

  /** The start-up listing: the cache entries of the Secrets in `built` are read from the Secrets. */
  function WarmFromSecrets(s: State, built: set<ScopeHash>): State {
    s.(cache := s.cache + map h | h in s.secrets && h in built :: FromSecret(s.secrets[h]))
  }

  // ----- runs -----

  datatype Step =
    | DoEnsure(scope: Scope, ensureCalls: EnsureCalls)
    | DoRevoke(hash: ScopeHash, revokeCalls: RevokeCalls)
    | DoSweep(listed: seq<Secret>, live: set<ScopeHash>, sweepCalls: seq<RevokeCalls>)
    | DoWarm(built: set<ScopeHash>)
    | Restart
    | Tick(elapsed: nat)
    | UserDeletedOutside(user: Id)

  /** `q` is or was the content of a Secret. */
  predicate Logged(s: State, q: Secret) {
    q.version < |s.log| && s.log[q.version].secret == q
  }

  /** A sweep works on Secrets as they once were, not necessarily as they are. */
  ghost predicate Possible(s: State, step: Step) {
    step.DoSweep? ==> |step.sweepCalls| == |step.listed| && forall q | q in step.listed :: Logged(s, q)
  }

  ghost function Next(s: State, step: Step): State
    requires Possible(s, step)
  {
    match step
    case DoEnsure(scope, calls) => Ensure(s, scope, calls).0
    case DoRevoke(h, calls) => Revoke(s, h, calls).0
    case DoSweep(listed, live, calls) => Sweep(s, listed, live, calls).0
    case DoWarm(built) => WarmFromSecrets(s, built)
    case Restart => s.(cache := map[])
    case Tick(elapsed) => s.(now := s.now + elapsed)
    case UserDeletedOutside(u) => DropUser(s, u)
  }

  /** `run` is a sequence of states, each reached from the one before by a possible step. */
  ghost predicate IsRun(run: seq<State>, steps: seq<Step>) {
    && |run| == |steps| + 1
    && 0 < run[0].rotateAfter && 0 < run[0].grace
    && run[0] == Init(run[0].rotateAfter, run[0].grace, run[0].now)
    && forall i | 0 <= i < |steps| :: Possible(run[i], steps[i]) && run[i + 1] == Next(run[i], steps[i])
  }
}
