/** Safety of the delegation manager over whole runs, whichever remote calls fail and wherever the
    process stops. A process that stops between two calls is a step whose remaining calls are all
    `Lost`, followed by a restart. */
module DelegationSafety {
  import opened Base
  import opened ScopeMaps
  import opened DelegationSpec
  import opened DelegationInvariants

  /** A Secret that goes, or comes to name another user, leaves no user behind. */
  ghost predicate SecretsOutliveUsers(s: State, t: State) {
    forall h | h in s.secrets && (h in t.secrets ==> t.secrets[h].user != s.secrets[h].user) ::
      s.secrets[h].user !in t.users
  }

  /** What lies between a state and any later one. */
  ghost predicate Follows(s: State, t: State) {
    && s.rotateAfter == t.rotateAfter && s.grace == t.grace && s.now <= t.now
    && s.nextId <= t.nextId && s.log <= t.log
    && (forall u | u in t.users && u !in s.users :: s.nextId <= u)
    && SecretsOutliveUsers(s, t)
  }

  /** No user goes, and none loses a key. */
  ghost predicate KeepsKeys(s: State, t: State) {
    forall u | u in s.users :: u in t.users && s.users[u].keys <= t.users[u].keys
  }

  ghost predicate Grows(s: State, t: State) {
    Follows(s, t) && KeepsKeys(s, t)
  }

  lemma FollowsTransitive(s: State, t: State, v: State)
    requires Inv(s) && Follows(s, t) && Follows(t, v)
    ensures Follows(s, v)
  {
    forall h | h in s.secrets && (h in v.secrets ==> v.secrets[h].user != s.secrets[h].user)
      ensures s.secrets[h].user !in v.users
    {
      assert s.log[s.secrets[h].version].secret == s.secrets[h];
    }
  }

  lemma GrowsTransitive(s: State, t: State, v: State)
    requires Inv(s) && Grows(s, t) && Grows(t, v)
    ensures Grows(s, v)
  {
    FollowsTransitive(s, t, v);
  }

  // ----- Ensure, piece by piece -----

  lemma CachedAndStored(s: State, h: ScopeHash)
    requires Inv(s) && h in s.cache
    ensures if h in s.secrets then Matches(s, s.cache[h], s.secrets[h]) else s.cache[h].user !in s.users
  {
    assert CachedAt(s, h);
  }

  lemma ValidateDrops(s: State, h: ScopeHash)
    requires Inv(s) && h in s.cache && s.cache[h].user !in s.users
    ensures var t := s.(cache := s.cache - {h});
      Inv(t) && Grows(s, t) && Inv(DropSecret(t, h)) && Grows(s, DropSecret(t, h))
  {
    hide Inv;
    CachedAndStored(s, h);
    UncacheKeepsInv(s, h);
    DropSecretKeepsInv(s.(cache := s.cache - {h}), h);
  }

  lemma ValidateMarks(s: State, h: ScopeHash)
    requires Inv(s) && h in s.cache && s.cache[h].user in s.users
    ensures var t := s.(cache := s.cache[h := s.cache[h].(validated := true)]);
      Inv(t) && Grows(s, t)
  {
    assert CachedAt(s, h);
    CacheKeepsInv(s, h, s.cache[h].(validated := true));
  }

  lemma GrowsReflexive(s: State)
    ensures Grows(s, s)
  {
  }

  lemma ValidateKeepsInv(s: State, h: ScopeHash, calls: EnsureCalls)
    requires Inv(s) && h in s.cache
    ensures var (t, e) := Validate(s, h, calls);
      Inv(t) && Grows(s, t)
      && (e.None? && h in t.cache ==> t == s.(cache := s.cache[h := s.cache[h].(validated := true)]))
      && (e.None? && h !in t.cache ==> h !in t.secrets)
      && (e.None? && h !in t.cache ==> !s.cache[h].validated)
  {
    hide Inv, Grows;
    GrowsReflexive(s);
    if s.cache[h].user in s.users {
      ValidateMarks(s, h);
    } else {
      ValidateDrops(s, h);
    }
  }

  /** `d` is what the Secret of `h` says: its user, its project and its key. */
  ghost predicate Serves(s: State, h: ScopeHash, d: Delegate) {
    && h in s.secrets
    && d.user == s.secrets[h].user && d.project == s.secrets[h].project && d.key == s.secrets[h].key
  }

  lemma AddKeyGrows(s: State, u: Id)
    requires Inv(s) && u in s.users && s.users[u].memberOf != {}
    ensures Inv(AddKey(s, u)) && Grows(s, AddKey(s, u))
    ensures forall h :: NeverMarkedFor(s.log, h, s.nextId)
  {
    AddKeyKeepsInv(s, u);
  }

  /** A cached delegate whose user lives has its Secret, and the membership its key needs. */
  lemma CachedAndAlive(s: State, h: ScopeHash)
    requires Inv(s) && h in s.cache && s.cache[h].user in s.users
    ensures h in s.secrets && Matches(s, s.cache[h], s.secrets[h])
    ensures s.users[s.cache[h].user].name == h && s.users[s.cache[h].user].memberOf != {}
    ensures 0 < s.cache[h].key < s.nextId && s.log[s.secrets[h].version].secret == s.secrets[h]
    ensures 0 < s.cache[h].user < s.nextId && s.secrets[h].name == h
  {
    assert CachedAt(s, h);
    assert Owned(s.users, s.cache[h].user, h);
    assert s.secrets[h].key in s.users[s.secrets[h].user].keys;
  }

  lemma PutSecretGrows(s: State, q: Secret)
    requires Versions(s.secrets, s.log)
    requires q.name in s.secrets ==> s.secrets[q.name].user == q.user
    ensures Grows(s, PutSecret(s, q))
  {
  }

  lemma SwapKeepsInv(s: State, h: ScopeHash, key: Id)
    requires Inv(s) && h in s.cache && Due(s, s.cache[h]) && s.cache[h].user in s.users
    requires key in s.users[s.cache[h].user].keys && 0 < s.cache[h].key < key < s.nextId
    requires NeverMarkedFor(s.log, h, key) && h in s.secrets
    ensures var t := PutSecret(s, Swapped(s, s.secrets[h], s.cache[h], key));
      Inv(t) && Grows(s, t)
  {
    CachedAndAlive(s, h);
    var q := Swapped(s, s.secrets[h], s.cache[h], key);
    PutSecretKeepsInv(s, q);
    PutSecretGrows(s, q);
  }

  lemma CacheSwapped(s: State, h: ScopeHash, key: Id)
    requires Inv(s) && h in s.cache && s.cache[h].user in s.users && h in s.secrets
    requires s.secrets[h].key == key && 0 < key < s.nextId
    ensures var d := s.cache[h];
      var nd := Delegate(d.user, NONE, d.project, key, Some(s.now), true);
      var t := s.(cache := s.cache[h := nd]);
      Inv(t) && Grows(s, t) && Serves(t, h, nd)
  {
    CachedAndAlive(s, h);
    var d := s.cache[h];
    CacheKeepsInv(s, h, Delegate(d.user, NONE, d.project, key, Some(s.now), true));
  }

  lemma RotateKeepsInv(s: State, h: ScopeHash, calls: EnsureCalls)
    requires Inv(s) && h in s.cache
    ensures var (t, r) := RotateIfDue(s, h, calls);
      Inv(t) && Grows(s, t)
      && (r.Ok? && Due(s, s.cache[h]) ==> Serves(t, h, r.value))
      && (r.Ok? && !Due(s, s.cache[h]) ==> t == s && r.value == s.cache[h])
  {
    hide Inv, Grows, NeverMarkedFor;
    GrowsReflexive(s);
    var d := s.cache[h];
    if Due(s, d) && d.user in s.users {
      CachedAndAlive(s, h);
      AddKeyGrows(s, d.user);
      var t := AddKey(s, d.user);
      SwapKeepsInv(t, h, s.nextId);
      var v := PutSecret(t, Swapped(t, t.secrets[h], d, s.nextId));
      GrowsTransitive(s, t, v);
      CacheSwapped(v, h, s.nextId);
      var w := v.(cache := v.cache[h := Delegate(d.user, NONE, d.project, s.nextId, Some(s.now), true)]);
      GrowsTransitive(s, v, w);
    }
  }

  lemma WarmCaches(s: State, h: ScopeHash)
    requires Inv(s) && h in s.secrets
    ensures var t := s.(cache := s.cache[h := FromSecret(s.secrets[h])]);
      Inv(t) && Grows(s, t)
  {
    assert s.log[s.secrets[h].version].secret == s.secrets[h];
    CacheKeepsInv(s, h, FromSecret(s.secrets[h]));
  }

  lemma WarmKeepsInv(s: State, h: ScopeHash, calls: EnsureCalls)
    requires Inv(s)
    ensures var (t, r) := Warm(s, h, calls);
      Inv(t) && Grows(s, t)
      && (r.Ok? && r.value.Some? ==> Serves(t, h, r.value.value))
      && (r.Ok? && r.value.None? ==> h !in t.secrets && (h in t.cache ==> h in s.cache))
  {
    hide Inv, Grows;
    GrowsReflexive(s);
    if calls.readSecret && h in s.secrets && calls.buildWarm {
      WarmCaches(s, h);
      var w := s.(cache := s.cache[h := FromSecret(s.secrets[h])]);
      ValidateKeepsInv(w, h, calls);
      var (t, e) := Validate(w, h, calls);
      GrowsTransitive(s, w, t);
      if e.None? && h in t.cache {
        RotateKeepsInv(t, h, calls);
        GrowsTransitive(s, t, RotateIfDue(t, h, calls).0);
      }
    }
  }

  lemma AddUserGrows(s: State, h: ScopeHash)
    requires Inv(s)
    ensures Grows(s, AddUser(s, h))
  {
    assert s.nextId !in s.users;
    assert AddUser(s, h).secrets == s.secrets;
  }

  lemma EnsureUserKeepsInv(s: State, h: ScopeHash, calls: EnsureCalls)
    requires Inv(s)
    ensures var (t, r) := EnsureUser(s, h, calls);
      Inv(t) && Grows(s, t) && t.secrets == s.secrets && t.cache == s.cache
      && (r.Ok? ==> Named(t, r.value, h))
  {
    hide Inv, Grows;
    GrowsReflexive(s);
    if calls.listUsers && !exists u :: Named(s, u, h) {
      assert forall u | u in s.users :: !Named(s, u, h);
      AddUserKeepsInv(s, h);
      AddUserGrows(s, h);
      assert Named(AddUser(s, h), s.nextId, h);
    }
  }

  lemma EnsureProjectKeepsInv(s: State, scope: Scope, calls: EnsureCalls)
    requires Inv(s)
    ensures var (t, r) := EnsureProject(s, scope, calls);
      Inv(t) && Grows(s, t) && t.users == s.users && t.secrets == s.secrets && t.cache == s.cache
  {
    hide Inv;
    AddProjectKeepsInv(s, scope.organizationId, scope.projectName);
  }

  lemma AddMemberGrows(s: State, u: Id, project: Id)
    requires Inv(s) && u in s.users
    ensures var t := AddMember(s, u, project);
      Inv(t) && Grows(s, t) && t.users[u].memberOf != {} && t.users[u].name == s.users[u].name
  {
    AddMemberKeepsInv(s, u, project);
  }

  lemma PersistFresh(s: State, scope: Scope, user: Id, project: Id, key: Id)
    requires Inv(s) && Named(s, user, scope.Hash()) && key in s.users[user].keys
    requires scope.Hash() !in s.secrets && scope.Hash() !in s.cache
    requires NeverMarkedFor(s.log, scope.Hash(), key)
    ensures var t := PutSecret(s, Fresh(s, scope, user, project, key));
      Inv(t) && Grows(s, t) && key < t.nextId && 0 < key
  {
    var q := Fresh(s, scope, user, project, key);
    PutSecretKeepsInv(s, q);
    PutSecretGrows(s, q);
  }

  lemma CacheFresh(s: State, h: ScopeHash, d: Delegate)
    requires Inv(s) && Serves(s, h, d) && d.org == s.secrets[h].org && 0 < d.key < s.nextId
    ensures var t := s.(cache := s.cache[h := d]);
      Inv(t) && Grows(s, t) && Serves(t, h, d)
  {
    CacheKeepsInv(s, h, d);
  }

  lemma IssueKeepsInv(s: State, scope: Scope, user: Id, project: Id, calls: EnsureCalls)
    requires Inv(s) && Named(s, user, scope.Hash())
    requires scope.Hash() !in s.secrets && scope.Hash() !in s.cache
    ensures var (t, r) := Issue(s, scope, user, project, calls);
      Inv(t) && Grows(s, t) && (r.Ok? ==> Serves(t, scope.Hash(), r.value))
  {
    hide Inv, Grows, NeverMarkedFor;
    var h := scope.Hash();
    GrowsReflexive(s);
    AddMemberGrows(s, user, project);
    var t := AddMember(s, user, project);
    AddKeyGrows(t, user);
    var v := AddKey(t, user);
    GrowsTransitive(s, t, v);
    PersistFresh(v, scope, user, project, t.nextId);
    var w := PutSecret(v, Fresh(v, scope, user, project, t.nextId));
    GrowsTransitive(s, v, w);
    var d := Delegate(user, scope.organizationId, project, t.nextId, Some(s.now), true);
    CacheFresh(w, h, d);
    GrowsTransitive(s, w, w.(cache := w.cache[h := d]));
  }

  lemma MintKeepsInv(s: State, scope: Scope, calls: EnsureCalls)
    requires Inv(s) && scope.Hash() !in s.secrets && scope.Hash() !in s.cache
    ensures var (t, r) := Mint(s, scope, calls);
      Inv(t) && Grows(s, t) && (r.Ok? ==> Serves(t, scope.Hash(), r.value))
  {
    hide Inv, Grows;
    EnsureUserKeepsInv(s, scope.Hash(), calls);
    var (t, u) := EnsureUser(s, scope.Hash(), calls);
    if u.Ok? {
      EnsureProjectKeepsInv(t, scope, calls);
      var (v, p) := EnsureProject(t, scope, calls);
      GrowsTransitive(s, t, v);
      if p.Ok? {
        IssueKeepsInv(v, scope, u.value, p.value, calls);
        GrowsTransitive(s, v, Issue(v, scope, u.value, p.value, calls).0);
      }
    }
  }

  lemma WarmOrMintKeepsInv(s: State, scope: Scope, calls: EnsureCalls)
    requires Inv(s) && scope.Hash() !in s.cache
    ensures var (t, r) := WarmOrMint(s, scope, calls);
      Inv(t) && Grows(s, t) && (r.Ok? ==> Serves(t, scope.Hash(), r.value))
  {
    hide Inv, Grows, Warm, Mint;
    WarmKeepsInv(s, scope.Hash(), calls);
    var (t, r) := Warm(s, scope.Hash(), calls);
    if r.Ok? && r.value.None? {
      MintKeepsInv(t, scope, calls);
      GrowsTransitive(s, t, Mint(t, scope, calls).0);
    }
  }

  /** A cached delegate that Ensure hands out although no Secret backs it. */
  ghost predicate Stranded(s: State, h: ScopeHash) {
    h in s.cache && h !in s.secrets && s.cache[h].validated && !Due(s, s.cache[h])
  }

  lemma CachedServes(s: State, h: ScopeHash)
    requires Inv(s) && h in s.cache && !Due(s, s.cache[h])
    ensures h in s.secrets ==> Serves(s, h, s.cache[h])
    ensures h !in s.secrets ==> s.cache[h].user !in s.users
  {
    assert CachedAt(s, h);
  }

  /** A successful Ensure returns the delegate its Secret describes, unless the delegate was
      stranded when Ensure was called; then it returns that one. */
  lemma EnsureAgrees(s: State, scope: Scope, calls: EnsureCalls)
    requires Inv(s)
    ensures var (t, r) := Ensure(s, scope, calls);
      Inv(t) && Grows(s, t)
      && (r.Ok? ==> (Serves(t, scope.Hash(), r.value) <==> !Stranded(s, scope.Hash())))
  {
    hide Inv, Grows, WarmOrMint;
    var h := scope.Hash();
    if h in s.cache {
      ValidateKeepsInv(s, h, calls);
      var (t, e) := Validate(s, h, calls);
      if e.None? && h in t.cache {
        RotateKeepsInv(t, h, calls);
        GrowsTransitive(s, t, RotateIfDue(t, h, calls).0);
        if !Due(t, t.cache[h]) {
          CachedServes(t, h);
        }
      } else if e.None? {
        WarmOrMintKeepsInv(t, scope, calls);
        GrowsTransitive(s, t, WarmOrMint(t, scope, calls).0);
      }
    } else {
      WarmOrMintKeepsInv(s, scope, calls);
    }
  }
}
