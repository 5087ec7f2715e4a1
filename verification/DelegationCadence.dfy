/** When keys are replaced: an Ensure replaces a key of the rotation age and leaves a younger one alone, and
    so the keys of one user follow each other no faster than that, restarts included. */
module DelegationCadence {
  import opened Base
  import opened ScopeMaps
  import opened DelegationSpec
  import opened DelegationInvariants
  import opened DelegationSafety
  import opened DelegationSweeping
  import opened DelegationRuns
  import T = DelegationTracking
  import opened DelegationAges
  import opened DelegationHealing

  // ----- one Ensure -----

  /** The key that the Secret of `h` names was first written at `at`. */
  ghost predicate NamedSince(s: State, h: ScopeHash, at: Time) {
    h in s.secrets && exists f :: FirstNames(s.log, s.secrets[h].key, f) && s.log[f].at == at
  }

  lemma FirstIsUnique(log: Log, key: Id, f: int, g: int)
    requires FirstNames(log, key, f) && FirstNames(log, key, g)
    ensures f == g
  {
  }

  /** What the cache and the Secret of one key say about its age. */
  lemma RecordedAge(s: State, h: ScopeHash, at: Time)
    requires Inv(s) && Aged(s) && NamedSince(s, h, at)
    ensures s.secrets[h].created == Some(Truncate(at))
    ensures h in s.cache && s.cache[h].key == s.secrets[h].key ==> s.cache[h].created in {Some(at), Some(Truncate(at))}
  {
    hide Inv;
    var e :| FirstNames(s.log, s.secrets[h].key, e) && s.log[e].at == at;
    var f := SecretIsDated(s, h);
    FirstIsUnique(s.log, s.secrets[h].key, e, f);
    if h in s.cache && s.cache[h].key == s.secrets[h].key {
      var g :| CachedBy(s.log, s.cache[h], g);
      FirstIsUnique(s.log, s.secrets[h].key, e, g);
    }
  }

  lemma RotateIsNew(s: State, h: ScopeHash, calls: EnsureCalls)
    requires Inv(s) && h in s.cache && Due(s, s.cache[h])
    ensures var (t, r) := RotateIfDue(s, h, calls);
      r.Ok? ==> r.value.key == s.nextId
  {
  }

  lemma MintIsNew(s: State, scope: Scope, calls: EnsureCalls)
    ensures var (t, r) := Mint(s, scope, calls);
      r.Ok? ==> r.value.key >= s.nextId
  {
    hide Issue;
    var (t, u) := EnsureUser(s, scope.Hash(), calls);
    if u.Ok? {
      var (v, p) := EnsureProject(t, scope, calls);
      if p.Ok? {
        IssueIsNew(v, scope, u.value, p.value, calls);
      }
    }
  }

  lemma IssueIsNew(s: State, scope: Scope, user: Id, project: Id, calls: EnsureCalls)
    requires user in s.users
    ensures var (t, r) := Issue(s, scope, user, project, calls);
      r.Ok? ==> r.value.key >= s.nextId
  {
  }

  lemma WarmIsNew(s: State, h: ScopeHash, calls: EnsureCalls)
    requires Inv(s) && h in s.secrets && Due(s, FromSecret(s.secrets[h]))
    ensures var (t, r) := Warm(s, h, calls);
      && t.nextId >= s.nextId && (r.Ok? && r.value.Some? ==> r.value.value.key >= s.nextId)
  {
    hide Inv;
    WarmCaches(s, h);
    var w := s.(cache := s.cache[h := FromSecret(s.secrets[h])]);
    ValidateKeepsInv(w, h, calls);
    var t := Validate(w, h, calls).0;
    if h in t.cache && Validate(w, h, calls).1.None? {
      RotateIsNew(t, h, calls);
    }
  }

  lemma WarmOrMintIsNew(s: State, scope: Scope, calls: EnsureCalls)
    requires Inv(s) && (scope.Hash() in s.secrets ==> Due(s, FromSecret(s.secrets[scope.Hash()])))
    ensures var (t, r) := WarmOrMint(s, scope, calls);
      r.Ok? ==> r.value.key >= s.nextId
  {
    hide Inv, Mint;
    if scope.Hash() in s.secrets {
      hide Warm;
      WarmIsNew(s, scope.Hash(), calls);
    }
    MintIsNew(Warm(s, scope.Hash(), calls).0, scope, calls);
  }

  /** Whichever calls fail and whatever came before: an Ensure that succeeds when the key of the Secret was
      first written at least the rotation age ago ends with a new key. */
  lemma OldKeysAreReplaced(s: State, scope: Scope, calls: EnsureCalls, at: Time)
    requires Inv(s) && Aged(s) && NamedSince(s, scope.Hash(), at) && s.now - at >= s.rotateAfter
    ensures var (t, r) := Ensure(s, scope, calls);
      r.Ok? ==>
        && r.value.key >= s.nextId > s.secrets[scope.Hash()].key
        && scope.Hash() in t.secrets && t.secrets[scope.Hash()].key == r.value.key
  {
    hide Inv, Aged, WarmOrMint, Validate, RotateIfDue, NamedSince;
    var h := scope.Hash();
    RecordedAge(s, h, at);
    NamedSecret(s, h, at);
    EnsureAgrees(s, scope, calls);
    assert Due(s, FromSecret(s.secrets[h]));
    if h in s.cache {
      CachedAndStored(s, h);
      assert Due(s, s.cache[h]);
      ValidateKeepsInv(s, h, calls);
      ValidateKeepsClock(s, h, calls);
      var (t, e) := Validate(s, h, calls);
      if e.None? && h in t.cache {
        RotateIsNew(t, h, calls);
      } else if e.None? {
        WarmOrMintIsNew(t, scope, calls);
      }
    } else {
      WarmOrMintIsNew(s, scope, calls);
    }
  }

  lemma NamedSecret(s: State, h: ScopeHash, at: Time)
    requires Inv(s) && NamedSince(s, h, at)
    ensures h in s.secrets && s.secrets[h].key < s.nextId
  {
    StoredEntry(s, h);
    LoggedKeys(s);
  }

  lemma ValidateKeepsClock(s: State, h: ScopeHash, calls: EnsureCalls)
    requires h in s.cache
    ensures var (t, e) := Validate(s, h, calls);
      && t.now == s.now && t.rotateAfter == s.rotateAfter && t.nextId == s.nextId && t.users == s.users
      && (e.None? && h in t.cache ==> t == s.(cache := s.cache[h := s.cache[h].(validated := true)]))
      && (h !in t.cache ==> s.cache[h].user !in s.users)
  {
  }

  /** And when it was first written more recently than that, by a second, the Ensure keeps it, as long as its
      user lives and the cache does not hold an older one. */
  lemma YoungKeysStay(s: State, scope: Scope, calls: EnsureCalls, at: Time)
    requires Inv(s) && Aged(s) && NamedSince(s, scope.Hash(), at) && s.now - at <= s.rotateAfter - SECOND
    requires s.secrets[scope.Hash()].user in s.users
    requires scope.Hash() in s.cache ==> s.cache[scope.Hash()].key == s.secrets[scope.Hash()].key
    ensures var (t, r) := Ensure(s, scope, calls);
      && t.secrets == s.secrets && t.users == s.users && (r.Ok? ==> r.value.key == s.secrets[scope.Hash()].key)
  {
    hide Inv, Aged, Mint, NamedSince, Warm, Validate, RotateIfDue;
    var h := scope.Hash();
    NamedSecret(s, h, at);
    RecordedAge(s, h, at);
    assert !Due(s, FromSecret(s.secrets[h]));
    if h in s.cache {
      CachedAndStored(s, h);
      ValidateKeepsAlive(s, h, calls);
      YoungIsKept(Validate(s, h, calls).0, h, calls);
    } else {
      WarmKeepsYoung(s, h, calls);
    }
  }

  lemma ValidateKeepsAlive(s: State, h: ScopeHash, calls: EnsureCalls)
    requires h in s.cache && s.cache[h].user in s.users
    ensures var t := Validate(s, h, calls).0;
      t in {s, s.(cache := s.cache[h := s.cache[h].(validated := true)])}
  {
  }

  lemma YoungIsKept(s: State, h: ScopeHash, calls: EnsureCalls)
    requires h in s.cache && !Due(s, s.cache[h])
    ensures RotateIfDue(s, h, calls) == (s, Ok(s.cache[h]))
  {
  }

  lemma WarmKeepsYoung(s: State, h: ScopeHash, calls: EnsureCalls)
    requires h in s.secrets && s.secrets[h].user in s.users && !Due(s, FromSecret(s.secrets[h]))
    ensures var (t, r) := Warm(s, h, calls);
      && t.secrets == s.secrets && t.users == s.users
      && (r.Ok? ==> r.value.Some? && r.value.value.key == s.secrets[h].key)
  {
    hide Validate, RotateIfDue;
    var w := s.(cache := s.cache[h := FromSecret(s.secrets[h])]);
    ValidateKeepsAlive(w, h, calls);
    YoungIsKept(Validate(w, h, calls).0, h, calls);
  }

  // ----- the pace of rotations -----

  /** The rotation stops after its Secret was written, so the cache keeps the older key. */
  predicate StopsHalfway(calls: EnsureCalls) {
    calls.updateSecret == Applied || (calls.updateSecret == Done && !calls.buildRotated)
  }

  /** First writes of different keys of one user lie further apart than the rotation age less a second. */
  ghost predicate Spaced(log: Log, rotateAfter: Time) {
    forall f, g | 0 <= f < g < |log| && log[f].secret.user == log[g].secret.user
                  && FirstNames(log, log[f].secret.key, f) && FirstNames(log, log[g].secret.key, g) ::
      log[g].at - log[f].at > rotateAfter - SECOND
  }

  /** A machine user that was ever written to a Secret and lives is still named by it. */
  ghost predicate LoggedStay(s: State) {
    forall i | 0 <= i < |s.log| && s.log[i].secret.user in s.users ::
      s.log[i].secret.name in s.secrets && s.secrets[s.log[i].secret.name].user == s.log[i].secret.user
  }

  ghost predicate Paced(s: State) {
    T.CacheFresh(s) && LoggedStay(s) && Spaced(s.log, s.rotateAfter)
  }

  lemma UsersKeepPaced(s: State, t: State)
    requires Paced(s) && t.cache == s.cache && t.secrets == s.secrets
    requires t.log == s.log && t.rotateAfter == s.rotateAfter
    requires forall i | 0 <= i < |s.log| && s.log[i].secret.user in t.users :: s.log[i].secret.user in s.users
    ensures Paced(t)
  {
  }

  lemma NewUserIsUnlogged(s: State)
    requires Inv(s)
    ensures forall i | 0 <= i < |s.log| :: s.log[i].secret.user != s.nextId
  {
  }

  lemma DropSecretKeepsPaced(s: State, h: ScopeHash)
    requires Paced(s) && (h in s.secrets ==> s.secrets[h].user !in s.users)
    ensures Paced(DropSecret(s, h))
  {
  }

  lemma UncacheKeepsPaced(s: State, h: ScopeHash)
    requires Paced(s)
    ensures Paced(s.(cache := s.cache - {h}))
  {
  }

  lemma CacheKeepsPaced(s: State, h: ScopeHash, d: Delegate)
    requires Paced(s) && (h in s.secrets ==> d.key == s.secrets[h].key)
    ensures Paced(s.(cache := s.cache[h := d]))
  {
  }

  lemma AppendKeepsSpaced(log: Log, rotateAfter: Time, w: Written)
    requires Spaced(log, rotateAfter)
    requires FirstNames(log + [w], w.secret.key, |log|) ==>
      forall f | 0 <= f < |log| && log[f].secret.user == w.secret.user && FirstNames(log, log[f].secret.key, f) ::
        w.at - log[f].at > rotateAfter - SECOND
    ensures Spaced(log + [w], rotateAfter)
  {
    var l := log + [w];
    forall f, g | 0 <= f < g < |l| && l[f].secret.user == l[g].secret.user
                  && FirstNames(l, l[f].secret.key, f) && FirstNames(l, l[g].secret.key, g)
      ensures l[g].at - l[f].at > rotateAfter - SECOND
    {
      FirstBefore(log, w, l[f].secret.key, f);
      if g < |log| {
        FirstBefore(log, w, l[g].secret.key, g);
      }
    }
  }

  lemma FirstBefore(log: Log, w: Written, key: Id, f: int)
    requires FirstNames(log + [w], key, f) && f < |log|
    ensures FirstNames(log, key, f) && (log + [w])[f] == log[f]
  {
    assert forall i | 0 <= i <= f :: (log + [w])[i] == log[i];
  }

  /** Every earlier first write for the user of a Secret is no later than that of the key it names. */
  lemma EarlierKeys(s: State, h: ScopeHash, at: Time, f: int)
    requires Inv(s) && Aged(s) && NamedSince(s, h, at)
    requires 0 <= f < |s.log| && s.log[f].secret.user == s.secrets[h].user && FirstNames(s.log, s.log[f].secret.key, f)
    ensures s.log[f].at <= at
  {
    hide Inv;
    var e :| FirstNames(s.log, s.secrets[h].key, e) && s.log[e].at == at;
    KeyOfUser(s, h, e);
    assert s.log[f].secret.key <= s.secrets[h].key;
    assert f <= e;
  }

  /** The first write of a key is for the user that later writes of it name. */
  lemma KeyOfUser(s: State, h: ScopeHash, e: int)
    requires Inv(s) && Aged(s) && h in s.secrets && FirstNames(s.log, s.secrets[h].key, e)
    ensures s.log[e].secret.user == s.secrets[h].user
  {
    StoredIsNewest(s, h);
  }

  lemma RotateKeepsPaced(s: State, h: ScopeHash, calls: EnsureCalls)
    requires Inv(s) && Aged(s) && Paced(s) && h in s.cache && !StopsHalfway(calls)
    ensures Paced(RotateIfDue(s, h, calls).0)
  {
    hide Inv, Aged, Paced, Spaced;
    var d := s.cache[h];
    if Due(s, d) && d.user in s.users {
      CachedAndAlive(s, h);
      var t := AddKey(s, d.user);
      UsersKeepPaced(s, t);
      var q := Swapped(t, t.secrets[h], d, s.nextId);
      var nd := Delegate(d.user, NONE, d.project, s.nextId, Some(s.now), true);
      SwapIsSpaced(s, h, Written(q.(version := |s.log|), s.now));
      SwapKeepsPaced(t, h, q, nd);
    }
  }

  /** A rotation comes late enough after all earlier keys of its user. */
  lemma SwapIsSpaced(s: State, h: ScopeHash, w: Written)
    requires Inv(s) && Aged(s) && Paced(s) && h in s.cache && h in s.secrets && Due(s, s.cache[h])
    requires w.at == s.now && w.secret.user == s.secrets[h].user
    ensures Spaced(s.log + [w], s.rotateAfter)
  {
    hide Inv, Aged, Spaced;
    assert s.cache[h].key == s.secrets[h].key && Spaced(s.log, s.rotateAfter);
    var f := SecretIsDated(s, h);
    var at := s.log[f].at;
    assert NamedSince(s, h, at);
    RecordedAge(s, h, at);
    forall e | 0 <= e < |s.log| && s.log[e].secret.user == w.secret.user && FirstNames(s.log, s.log[e].secret.key, e)
      ensures w.at - s.log[e].at > s.rotateAfter - SECOND
    {
      EarlierKeys(s, h, at, e);
    }
    AppendKeepsSpaced(s.log, s.rotateAfter, w);
  }

  lemma SwapKeepsPaced(s: State, h: ScopeHash, q: Secret, d: Delegate)
    requires Paced(s) && h in s.secrets && q.name == h && q.user == s.secrets[h].user && d.key == q.key
    requires Spaced(s.log + [Written(q.(version := |s.log|), s.now)], s.rotateAfter)
    ensures Paced(PutSecret(s, q).(cache := s.cache[h := d]))
  {
    hide Spaced;
    var t := PutSecret(s, q).(cache := s.cache[h := d]);
    assert t.log == s.log + [Written(q.(version := |s.log|), s.now)];
  }

  lemma ValidateKeepsPaced(s: State, h: ScopeHash, calls: EnsureCalls)
    requires Inv(s) && Paced(s) && h in s.cache
    ensures Paced(Validate(s, h, calls).0)
  {
    hide Inv, Paced;
    CachedAndStored(s, h);
    FreshEntry(s, h);
    CacheKeepsPaced(s, h, s.cache[h].(validated := true));
    UncacheKeepsPaced(s, h);
    if s.cache[h].user !in s.users {
      DropSecretKeepsPaced(s.(cache := s.cache - {h}), h);
    }
  }

  lemma FreshEntry(s: State, h: ScopeHash)
    requires Paced(s) && h in s.cache
    ensures h in s.secrets ==> s.cache[h].key == s.secrets[h].key
  {
  }

  lemma WarmKeepsPaced(s: State, h: ScopeHash, calls: EnsureCalls)
    requires Inv(s) && Aged(s) && Paced(s) && !StopsHalfway(calls)
    ensures Paced(Warm(s, h, calls).0)
  {
    hide Inv, Aged, Paced, Validate, RotateIfDue;
    if h in s.secrets {
      WarmCaches(s, h);
      var f := SecretIsDated(s, h);
      assert CachedBy(s.log, FromSecret(s.secrets[h]), f);
      CacheIt(s, h, FromSecret(s.secrets[h]), f);
      CacheKeepsPaced(s, h, FromSecret(s.secrets[h]));
      var w := s.(cache := s.cache[h := FromSecret(s.secrets[h])]);
      ValidateKeepsInv(w, h, calls);
      ValidateKeepsAged(w, h, calls);
      ValidateKeepsPaced(w, h, calls);
      var t := Validate(w, h, calls).0;
      if h in t.cache && Validate(w, h, calls).1.None? {
        RotateKeepsPaced(t, h, calls);
      }
    }
  }

  /** The first write for a user is spaced, having nothing before it. */
  lemma FirstWriteKeepsPaced(s: State, q: Secret)
    requires Inv(s) && Paced(s) && q.name !in s.secrets && q.name !in s.cache
    requires q.user in s.users && s.users[q.user].name == q.name
    ensures Paced(PutSecret(s, q))
  {
    hide Spaced;
    var w := Written(q.(version := |s.log|), s.now);
    assert PutSecret(s, q).log == s.log + [w];
    forall i | 0 <= i < |s.log| ensures s.log[i].secret.user != q.user {
      LoggedOwner(s, i);
    }
    AppendKeepsSpaced(s.log, s.rotateAfter, w);
  }

  lemma LoggedOwner(s: State, i: int)
    requires Inv(s) && 0 <= i < |s.log|
    ensures Owned(s.users, s.log[i].secret.user, s.log[i].secret.name)
  {
  }

  lemma IssueKeepsPaced(s: State, scope: Scope, user: Id, project: Id, calls: EnsureCalls)
    requires Inv(s) && Paced(s) && Named(s, user, scope.Hash()) && scope.Hash() !in s.cache
    ensures Paced(Issue(s, scope, user, project, calls).0)
  {
    hide Inv, Paced;
    var h := scope.Hash();
    AddMemberGrows(s, user, project);
    var t := AddMember(s, user, project);
    UsersKeepPaced(s, t);
    AddKeyGrows(t, user);
    var v := AddKey(t, user);
    UsersKeepPaced(t, v);
    if h !in s.secrets {
      var q := Fresh(v, scope, user, project, t.nextId);
      FirstWriteKeepsPaced(v, q);
      CacheKeepsPaced(PutSecret(v, q), h, Delegate(user, scope.organizationId, project, t.nextId, Some(s.now), true));
    }
  }

  lemma MintKeepsPaced(s: State, scope: Scope, calls: EnsureCalls)
    requires Inv(s) && Paced(s) && scope.Hash() !in s.cache
    ensures Paced(Mint(s, scope, calls).0)
  {
    hide Inv, Paced, Issue;
    NewUserIsUnlogged(s);
    EnsureUserKeepsInv(s, scope.Hash(), calls);
    var (t, u) := EnsureUser(s, scope.Hash(), calls);
    UsersKeepPaced(s, t);
    EnsureProjectKeepsInv(t, scope, calls);
    var (v, p) := EnsureProject(t, scope, calls);
    UsersKeepPaced(t, v);
    if u.Ok? && p.Ok? {
      assert Named(v, u.value, scope.Hash());
      IssueKeepsPaced(v, scope, u.value, p.value, calls);
    }
  }

  lemma WarmOrMintKeepsPaced(s: State, scope: Scope, calls: EnsureCalls)
    requires Inv(s) && Aged(s) && Paced(s) && scope.Hash() !in s.cache && !StopsHalfway(calls)
    ensures Paced(WarmOrMint(s, scope, calls).0)
  {
    hide Inv, Aged, Paced, Warm, Mint;
    WarmKeepsInv(s, scope.Hash(), calls);
    WarmKeepsPaced(s, scope.Hash(), calls);
    var (t, r) := Warm(s, scope.Hash(), calls);
    if r == Ok(None) {
      MintKeepsPaced(t, scope, calls);
    }
  }

  lemma EnsureKeepsPaced(s: State, scope: Scope, calls: EnsureCalls)
    requires Inv(s) && Aged(s) && Paced(s) && !StopsHalfway(calls)
    ensures Paced(Ensure(s, scope, calls).0)
  {
    hide Inv, Aged, Paced, WarmOrMint, Validate, RotateIfDue;
    var h := scope.Hash();
    if h in s.cache {
      ValidateKeepsInv(s, h, calls);
      ValidateKeepsAged(s, h, calls);
      ValidateKeepsPaced(s, h, calls);
      var (t, e) := Validate(s, h, calls);
      if e.None? && h in t.cache {
        RotateKeepsPaced(t, h, calls);
      } else if e.None? {
        WarmOrMintKeepsPaced(t, scope, calls);
      }
    } else {
      WarmOrMintKeepsPaced(s, scope, calls);
    }
  }

  // ----- the other steps -----

  lemma RevokeKeepsPaced(s: State, h: ScopeHash, calls: RevokeCalls)
    requires Inv(s) && Paced(s)
    ensures Paced(Revoke(s, h, calls).0)
  {
    hide Inv, Paced;
    RevokedUserOwns(s, h);
    var u := RevokedUser(s, h);
    var t := DropUser(s, u);
    UsersKeepPaced(s, t);
    UncacheKeepsPaced(s, h);
    UncacheKeepsPaced(t, h);
    DropSecretKeepsPaced(t, h);
    UncacheKeepsPaced(DropSecret(t, h), h);
  }

  lemma FinishKeepsPaced(s: State, q: Secret, calls: RevokeCalls)
    requires Inv(s) && Paced(s) && Logged(s, q)
    ensures Paced(FinishRotation(s, q, calls).0)
  {
    hide Inv, Paced;
    var t := RemoveKey(s, q.user, q.oldKey);
    UsersKeepPaced(s, t);
    if q.name in s.secrets && s.secrets[q.name].version == q.version {
      LoggedIsCurrent(s, q);
      RewriteKeepsPaced(t, q.(oldKey := NONE, oldRevokeAt := None), q.version);
    }
  }

  /** Writing a Secret again with a key that an earlier write named is no first write. */
  lemma RewriteKeepsPaced(s: State, q: Secret, i: int)
    requires Paced(s) && q.name in s.secrets && q.user == s.secrets[q.name].user && q.key == s.secrets[q.name].key
    requires 0 <= i < |s.log| && s.log[i].secret.key == q.key
    ensures Paced(PutSecret(s, q))
  {
    hide Spaced;
    var w := Written(q.(version := |s.log|), s.now);
    assert PutSecret(s, q).log == s.log + [w] && (s.log + [w])[i] == s.log[i];
    AppendKeepsSpaced(s.log, s.rotateAfter, w);
  }

  lemma {:induction false} SweepKeepsPaced(
    s: State, listed: seq<Secret>, live: set<ScopeHash>, calls: seq<RevokeCalls>)
    requires Inv(s) && Paced(s) && |calls| == |listed| && AllLogged(s, listed)
    ensures Paced(Sweep(s, listed, live, calls).0)
  {
    hide Inv, Paced, Revoke, FinishRotation, Sweeps;
    if listed != [] {
      var n := |listed| - 1;
      SweepKeepsPaced(s, listed[..n], live, calls[..n]);
      SweepKeepsInv(s, listed[..n], live, calls[..n]);
      var t := Sweep(s, listed[..n], live, calls[..n]).0;
      LogGrows(s, t, listed[n]);
      if listed[n].name in live {
        FinishKeepsPaced(t, listed[n], calls[n]);
      } else {
        RevokeKeepsPaced(t, listed[n].name, calls[n]);
      }
    }
  }

  lemma CachesKeepPaced(s: State, built: set<ScopeHash>)
    requires Paced(s)
    ensures Paced(WarmFromSecrets(s, built)) && Paced(s.(cache := map[]))
  {
  }

  lemma TickKeepsPaced(s: State, elapsed: nat)
    requires Paced(s)
    ensures Paced(s.(now := s.now + elapsed))
  {
  }

  predicate StepStopsHalfway(step: Step) {
    step.DoEnsure? && StopsHalfway(step.ensureCalls)
  }

  lemma NextKeepsPaced(s: State, step: Step)
    requires Inv(s) && Aged(s) && Paced(s) && Possible(s, step) && !StepStopsHalfway(step)
    ensures Paced(Next(s, step))
  {
    hide Inv, Aged, Paced, Ensure, Revoke, Sweep, WarmFromSecrets;
    match step
    case DoEnsure(scope, calls) => EnsureKeepsPaced(s, scope, calls);
    case DoRevoke(h, calls) => RevokeKeepsPaced(s, h, calls);
    case DoSweep(listed, live, calls) => SweepKeepsPaced(s, listed, live, calls);
    case DoWarm(built) => CachesKeepPaced(s, built);
    case Restart => CachesKeepPaced(s, {});
    case Tick(elapsed) => TickKeepsPaced(s, elapsed);
    case UserDeletedOutside(u) => UsersKeepPaced(s, DropUser(s, u));
  }

  lemma InitPaced(s: State)
    requires s == Init(s.rotateAfter, s.grace, s.now)
    ensures Paced(s)
  {
  }

  lemma {:induction false} RunKeepsPaced(run: seq<State>, steps: seq<Step>, i: nat)
    requires IsRun(run, steps) && i <= |steps| && forall j | 0 <= j < i :: !StepStopsHalfway(steps[j])
    ensures Inv(run[i]) && Aged(run[i]) && Paced(run[i])
  {
    hide Inv, Aged, Paced, Next;
    RunKeepsAged(run, steps, i);
    if i == 0 {
      InitPaced(run[0]);
    } else {
      RunKeepsPaced(run, steps, i - 1);
      RunKeepsAged(run, steps, i - 1);
      NextKeepsPaced(run[i - 1], steps[i - 1]);
    }
  }

  // ----- runs -----

  /** In every run in which no rotation stops between the write of the Secret and the cache, whatever else
      fails and however often the process restarts: the first writes of two keys of one user lie further
      apart than the rotation age less a second. */
  lemma KeysFollowEachOtherSlowly(run: seq<State>, steps: seq<Step>, i: nat, f: int, g: int)
    requires IsRun(run, steps) && i <= |steps| && forall j | 0 <= j < i :: !StepStopsHalfway(steps[j])
    requires 0 <= f < g < |run[i].log| && run[i].log[f].secret.user == run[i].log[g].secret.user
    requires FirstNames(run[i].log, run[i].log[f].secret.key, f) && FirstNames(run[i].log, run[i].log[g].secret.key, g)
    ensures run[i].log[g].at - run[i].log[f].at > run[i].rotateAfter - SECOND
  {
    RunKeepsPaced(run, steps, i);
  }

  /** In every run: an Ensure that succeeds replaces a key whose first write is the rotation age ago; and in
      a run in which no rotation stopped halfway, it keeps one that is younger by a second, as long as
      its user lives. */
  lemma AgeDecides(run: seq<State>, steps: seq<Step>, i: nat, at: Time)
    requires IsRun(run, steps) && i < |steps| && steps[i].DoEnsure?
    requires NamedSince(run[i], steps[i].scope.Hash(), at)
    ensures var s, h := run[i], steps[i].scope.Hash();
      var (t, r) := Ensure(s, steps[i].scope, steps[i].ensureCalls);
      && t == run[i + 1]
      && (r.Ok? && s.now - at >= s.rotateAfter ==>
            h in t.secrets && t.secrets[h].key == r.value.key != s.secrets[h].key)
      && (s.now - at <= s.rotateAfter - SECOND && s.secrets[h].user in s.users
          && (forall j | 0 <= j < i :: !StepStopsHalfway(steps[j])) ==>
            t.secrets == s.secrets && (r.Ok? ==> r.value.key == s.secrets[h].key))
  {
    hide Inv, Aged, Paced, Ensure, NamedSince;
    var s, scope := run[i], steps[i].scope;
    RunKeepsAged(run, steps, i);
    NamedSecret(s, scope.Hash(), at);
    if s.now - at >= s.rotateAfter {
      OldKeysAreReplaced(s, scope, steps[i].ensureCalls, at);
    }
    if s.now - at <= s.rotateAfter - SECOND && s.secrets[scope.Hash()].user in s.users
       && forall j | 0 <= j < i :: !StepStopsHalfway(steps[j]) {
      RunKeepsPaced(run, steps, i);
      if scope.Hash() in s.cache {
        FreshEntry(s, scope.Hash());
      }
      YoungKeysStay(s, scope, steps[i].ensureCalls, at);
    }
  }

  /** A young key is kept by an Ensure without failing calls exactly when the cache holds no older one, as it
      does after a rotation that stopped halfway. In that case the Ensure rotates again: the older key
      becomes the one to revoke, and the young one stays live although nothing names it any more. */
  lemma YoungKeyStaysIff(s: State, scope: Scope, at: Time)
    requires Inv(s) && Aged(s) && NamedSince(s, scope.Hash(), at) && s.now - at <= s.rotateAfter - SECOND
    requires s.secrets[scope.Hash()].user in s.users
    ensures var h := scope.Hash();
      var (t, r) := Ensure(s, scope, ALL_FINE);
      var q := s.secrets[h];
      && r.Ok? && h in t.secrets && t.secrets[h].key == r.value.key
      && (r.value.key == q.key <==> (h in s.cache ==> s.cache[h].key == q.key))
      && (r.value.key != q.key ==>
            && t.secrets[h].oldKey == s.cache[h].key != q.key
            && q.user in t.users && q.key in t.users[q.user].keys)
  {
    hide Inv, Aged, NamedSince, Ensure;
    var h := scope.Hash();
    NamedSecret(s, h, at);
    if h in s.cache && s.cache[h].key != s.secrets[h].key {
      CachedAndStored(s, h);
      HalfwayRotationRepeats(s, scope);
    } else {
      YoungKeysStay(s, scope, ALL_FINE, at);
      YoungSucceeds(s, scope, at);
    }
  }

  lemma YoungSucceeds(s: State, scope: Scope, at: Time)
    requires Inv(s) && Aged(s) && NamedSince(s, scope.Hash(), at) && s.now - at <= s.rotateAfter - SECOND
    requires s.secrets[scope.Hash()].user in s.users
    requires scope.Hash() in s.cache ==> s.cache[scope.Hash()].key == s.secrets[scope.Hash()].key
    ensures Ensure(s, scope, ALL_FINE).1.Ok?
  {
    hide Inv, Aged, NamedSince, Ensure;
    NamedSecret(s, scope.Hash(), at);
    EnsureSucceeds(s, scope);
    CachedAndStoredIfCached(s, scope.Hash());
  }

  lemma CachedAndStoredIfCached(s: State, h: ScopeHash)
    requires Inv(s) && h in s.secrets
    ensures h in s.cache ==> s.cache[h].user == s.secrets[h].user
  {
    if h in s.cache {
      CachedAndStored(s, h);
    }
  }

  /** While the cached key is due, an Ensure replaces the key of the Secret, however young that one is, and
      keeps the keys that are live. */
  lemma HalfwayRotationRepeats(s: State, scope: Scope)
    requires Inv(s) && scope.Hash() in s.cache && Due(s, s.cache[scope.Hash()]) && s.cache[scope.Hash()].user in s.users
    ensures var (t, r) := Ensure(s, scope, ALL_FINE);
      var h := scope.Hash();
      && r.Ok? && h in s.secrets && h in t.secrets && t.secrets[h].key == r.value.key == s.nextId > s.secrets[h].key
      && t.secrets[h].oldKey == s.cache[h].key
      && s.secrets[h].user in t.users && s.secrets[h].key in t.users[s.secrets[h].user].keys
  {
    hide Inv, WarmOrMint;
    CachedAndAlive(s, scope.Hash());
    CachedAndStored(s, scope.Hash());
    NamedIsLive(s, scope.Hash());
  }

  lemma NamedIsLive(s: State, h: ScopeHash)
    requires Inv(s) && h in s.secrets && s.secrets[h].user in s.users
    ensures s.secrets[h].key in s.users[s.secrets[h].user].keys && s.secrets[h].key < s.nextId
  {
  }
}
