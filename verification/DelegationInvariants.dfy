/** The facts that every step of the delegation manager keeps, whichever of its calls fail. */
module DelegationInvariants {
  import opened Base
  import opened ScopeMaps
  import opened DelegationSpec

  type Cache = map<ScopeHash, Delegate>
  type Secrets = map<ScopeHash, Secret>
  type Users = map<Id, User>
  type Log = seq<Written>

  // ----- identifiers -----

  ghost predicate UserIds(users: Users, next: Id) {
    forall u | u in users :: 0 < u < next && forall k | k in users[u].keys :: 0 < k < next
  }

  ghost predicate LogIds(log: Log, next: Id) {
    forall i | 0 <= i < |log| ::
      0 < log[i].secret.user < next && 0 < log[i].secret.key < next && log[i].secret.oldKey < next
  }

  ghost predicate CacheIds(cache: Cache, next: Id) {
    forall h | h in cache :: 0 < cache[h].user < next && 0 < cache[h].key < next
  }

  // ----- ownership -----

  ghost predicate OneUserPerHash(users: Users) {
    forall u, v | u in users && v in users && users[u].name == users[v].name :: u == v
  }

  /** Whoever remembers a user knows whose it is. */
  ghost predicate Owned(users: Users, u: Id, h: ScopeHash) {
    u in users ==> users[u].name == h
  }

  ghost predicate LogOwners(log: Log, users: Users) {
    forall i | 0 <= i < |log| :: Owned(users, log[i].secret.user, log[i].secret.name)
  }

  ghost predicate CacheOwners(cache: Cache, users: Users) {
    forall h | h in cache :: Owned(users, cache[h].user, h)
  }

  // ----- Secrets and their history -----

  ghost predicate Versions(secrets: Secrets, log: Log) {
    && (forall i | 0 <= i < |log| :: log[i].secret.version == i)
    && (forall h | h in secrets ::
          secrets[h].name == h && secrets[h].version < |log| && log[secrets[h].version].secret == secrets[h])
  }

  /** The key a Secret names is live while its user is. */
  ghost predicate LiveKeys(secrets: Secrets, users: Users) {
    forall h | h in secrets && secrets[h].user in users :: secrets[h].key in users[secrets[h].user].keys
  }

  /** No version of a Secret ever marked for revocation the key the Secret now names. */
  ghost predicate NeverMarked(log: Log, secrets: Secrets) {
    forall i | 0 <= i < |log| && log[i].secret.oldKey != NONE && log[i].secret.name in secrets ::
      log[i].secret.oldKey != secrets[log[i].secret.name].key
  }

  /** A version that marks a key for revocation was written by the swap to another key, one grace ahead. */
  ghost predicate Graced(log: Log, now: Time, grace: Time) {
    forall i | 0 <= i < |log| ::
      log[i].at <= now &&
      (log[i].secret.oldKey != NONE ==>
        log[i].secret.oldKey != log[i].secret.key && log[i].secret.oldRevokeAt == Some(Truncate(log[i].at + grace)))
  }

  /** A user holds a key only together with an explicit membership. */
  ghost predicate Granted(users: Users) {
    forall u | u in users && users[u].keys != {} :: users[u].memberOf != {}
  }

  // ----- cache against Secrets -----

  /** The cached delegate and the Secret agree, except that the cached key may be an older one,
      past its rotation cycle; a rotation forgets the organization. */
  ghost predicate Matches(s: State, d: Delegate, q: Secret) {
    && d.user == q.user && d.project == q.project
    && (d.org == q.org || d.org == NONE)
    && (d.key == q.key || Due(s, d))
  }

  /** A cached delegate without a Secret has lost its user. */
  ghost predicate CachedAt(s: State, h: ScopeHash)
    requires h in s.cache
  {
    if h in s.secrets then Matches(s, s.cache[h], s.secrets[h]) else s.cache[h].user !in s.users
  }

  ghost predicate Agreement(s: State) {
    forall h | h in s.cache :: CachedAt(s, h)
  }

  ghost predicate Inv(s: State) {
    && 0 < s.nextId && 0 < s.rotateAfter && 0 < s.grace
    && UserIds(s.users, s.nextId) && LogIds(s.log, s.nextId) && CacheIds(s.cache, s.nextId)
    && OneUserPerHash(s.users) && LogOwners(s.log, s.users) && CacheOwners(s.cache, s.users)
    && Versions(s.secrets, s.log) && LiveKeys(s.secrets, s.users) && NeverMarked(s.log, s.secrets)
    && Graced(s.log, s.now, s.grace) && Granted(s.users) && Agreement(s)
  }

  // ----- single effects -----

  lemma DropUserKeepsInv(s: State, u: Id)
    requires Inv(s)
    ensures Inv(DropUser(s, u))
  {
    var t := DropUser(s, u);
    assert forall h | h in t.cache :: CachedAt(s, h);
  }

  lemma DropSecretKeepsInv(s: State, h: ScopeHash)
    requires Inv(s) && (h in s.cache ==> s.cache[h].user !in s.users)
    ensures Inv(DropSecret(s, h))
  {
    var t := DropSecret(s, h);
    assert forall g | g in t.cache :: CachedAt(s, g);
  }

  lemma UncacheKeepsInv(s: State, h: ScopeHash)
    requires Inv(s)
    ensures Inv(s.(cache := s.cache - {h}))
  {
    var t := s.(cache := s.cache - {h});
    assert forall g | g in t.cache :: CachedAt(s, g);
  }

  lemma CacheKeepsInv(s: State, h: ScopeHash, d: Delegate)
    requires Inv(s) && h in s.secrets && Matches(s, d, s.secrets[h]) && 0 < d.key < s.nextId
    ensures Inv(s.(cache := s.cache[h := d]))
  {
    var t := s.(cache := s.cache[h := d]);
    assert s.log[s.secrets[h].version].secret.user == d.user;
    forall g | g in t.cache ensures CachedAt(t, g) {
      assert g != h ==> CachedAt(s, g);
    }
  }

  lemma AddUserKeepsInv(s: State, h: ScopeHash)
    requires Inv(s) && forall u | u in s.users :: s.users[u].name != h
    ensures Inv(AddUser(s, h))
  {
    var t := AddUser(s, h);
    assert forall g | g in t.cache :: CachedAt(s, g);
  }

  /** Changing the keys and memberships of one user. */
  lemma UpdateUserKeepsInv(s: State, u: Id, user: User, next: Id)
    requires Inv(s) && u in s.users && user.name == s.users[u].name && s.nextId <= next
    requires forall k | k in user.keys :: 0 < k < next
    requires user.keys != {} ==> user.memberOf != {}
    requires LiveKeys(s.secrets, s.users[u := user])
    ensures Inv(s.(users := s.users[u := user], nextId := next))
  {
    var t := s.(users := s.users[u := user], nextId := next);
    assert t.users.Keys == s.users.Keys;
    assert forall v | v in t.users :: t.users[v].name == s.users[v].name;
    forall g | g in t.cache ensures CachedAt(t, g) {
      assert CachedAt(s, g);
    }
  }

  lemma AddKeyKeepsInv(s: State, u: Id)
    requires Inv(s) && u in s.users && s.users[u].memberOf != {}
    ensures Inv(AddKey(s, u))
  {
    UpdateUserKeepsInv(s, u, AddKey(s, u).users[u], s.nextId + 1);
  }

  lemma AddMemberKeepsInv(s: State, u: Id, project: Id)
    requires Inv(s) && u in s.users
    ensures Inv(AddMember(s, u, project))
    ensures AddMember(s, u, project).users[u].memberOf != {}
  {
    assert project in AddMember(s, u, project).users[u].memberOf;
    UpdateUserKeepsInv(s, u, AddMember(s, u, project).users[u], s.nextId);
  }

  lemma AddProjectKeepsInv(s: State, org: Id, name: string)
    requires Inv(s)
    ensures Inv(AddProject(s, org, name))
  {
    var t := AddProject(s, org, name);
    assert forall g | g in t.cache :: CachedAt(s, g);
  }

  /** The heart of the rotation protocol: however old the listing, the key it revokes is not the
      one the current Secret names. */
  lemma RemoveKeyKeepsLiveKeys(s: State, q: Secret)
    requires Logged(s, q) && q.oldKey != NONE
    requires LogOwners(s.log, s.users) && Versions(s.secrets, s.log)
    requires LiveKeys(s.secrets, s.users) && NeverMarked(s.log, s.secrets)
    ensures LiveKeys(s.secrets, RemoveKey(s, q.user, q.oldKey).users)
  {
    var t := RemoveKey(s, q.user, q.oldKey);
    forall h | h in t.secrets && t.secrets[h].user in t.users
      ensures t.secrets[h].key in t.users[t.secrets[h].user].keys
    {
      assert s.log[s.secrets[h].version].secret == s.secrets[h];
      assert s.log[q.version].secret == q;
    }
  }

  lemma RemoveKeyKeepsInv(s: State, q: Secret)
    requires Inv(s) && Logged(s, q) && q.oldKey != NONE
    ensures Inv(RemoveKey(s, q.user, q.oldKey))
  {
    RemoveKeyKeepsLiveKeys(s, q);
    if q.user in s.users {
      UpdateUserKeepsInv(s, q.user, RemoveKey(s, q.user, q.oldKey).users[q.user], s.nextId);
    }
  }

  lemma TickKeepsInv(s: State, elapsed: nat)
    requires Inv(s)
    ensures Inv(s.(now := s.now + elapsed))
  {
    var t := s.(now := s.now + elapsed);
    assert forall g | g in t.cache :: CachedAt(s, g);
  }

  ghost predicate NeverMarkedFor(log: Log, h: ScopeHash, key: Id) {
    forall i | 0 <= i < |log| && log[i].secret.oldKey != NONE && log[i].secret.name == h ::
      log[i].secret.oldKey != key
  }

  lemma PutSecretKeepsHistory(s: State, q: Secret)
    requires Versions(s.secrets, s.log) && NeverMarked(s.log, s.secrets) && Graced(s.log, s.now, s.grace)
    requires q.oldKey != NONE ==> q.oldKey != q.key && q.oldRevokeAt == Some(Truncate(s.now + s.grace))
    requires NeverMarkedFor(s.log, q.name, q.key)
    ensures var t := PutSecret(s, q);
      Versions(t.secrets, t.log) && NeverMarked(t.log, t.secrets) && Graced(t.log, t.now, t.grace)
  {
    var t := PutSecret(s, q);
    assert NeverMarked(s.log, t.secrets);
  }

  /** Writing a Secret for a hash whose cached delegate, if any, matches what is written. */
  lemma PutSecretKeepsInv(s: State, q: Secret)
    requires Inv(s)
    requires 0 < q.user < s.nextId && 0 < q.key < s.nextId && q.oldKey < s.nextId
    requires Owned(s.users, q.user, q.name) && (q.user in s.users ==> q.key in s.users[q.user].keys)
    requires q.oldKey != NONE ==> q.oldKey != q.key && q.oldRevokeAt == Some(Truncate(s.now + s.grace))
    requires NeverMarkedFor(s.log, q.name, q.key)
    requires q.name in s.cache ==> Matches(s, s.cache[q.name], q)
    ensures Inv(PutSecret(s, q))
  {
    var t := PutSecret(s, q);
    PutSecretKeepsHistory(s, q);
    forall h | h in t.cache ensures CachedAt(t, h) {
      assert CachedAt(s, h);
    }
  }
}
