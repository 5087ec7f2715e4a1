/** What Revoke and Sweep do to one hash, and what they leave alone. */
module DelegationSweeping {
  import opened Base
  import opened ScopeMaps
  import opened DelegationSpec
  import opened DelegationInvariants
  import opened DelegationSafety

  /** Some version of a Secret of user `u` marked key `k`, and its revocation time has come. */
  ghost predicate Retired(s: State, u: Id, k: Id) {
    exists i :: RetiredBy(s, u, k, i)
  }

  ghost predicate RetiredBy(s: State, u: Id, k: Id, i: int) {
    && 0 <= i < |s.log| && k != NONE
    && s.log[i].secret.user == u && s.log[i].secret.oldKey == k
    && Truncate(s.log[i].at + s.grace) <= s.now
  }

  /** Users that survive lose only retired keys. */
  ghost predicate LosesOnlyRetired(s: State, t: State) {
    forall u, k | u in s.users && u in t.users && k in s.users[u].keys && k !in t.users[u].keys :: Retired(t, u, k)
  }

  /** Nothing about hash `h` changed. */
  ghost predicate SameAt(s: State, t: State, h: ScopeHash) {
    && (h in s.secrets <==> h in t.secrets) && (h in s.secrets ==> s.secrets[h] == t.secrets[h])
    && (h in s.cache <==> h in t.cache) && (h in s.cache ==> s.cache[h] == t.cache[h])
    && (forall u | Named(s, u, h) :: u in t.users && t.users[u] == s.users[u])
  }

  /** One sweep step, for the hash it is about. */
  ghost predicate Sweeps(s: State, t: State) {
    && Follows(s, t) && t.users.Keys <= s.users.Keys && t.now == s.now && LosesOnlyRetired(s, t)
  }

  lemma SweepsReflexive(s: State)
    ensures Sweeps(s, s)
  {
  }

  lemma SweepsTransitive(s: State, t: State, v: State)
    requires Inv(s) && Sweeps(s, t) && Sweeps(t, v)
    ensures Sweeps(s, v)
  {
    FollowsTransitive(s, t, v);
    forall u, k | u in s.users && u in v.users && k in s.users[u].keys && k !in v.users[u].keys
      ensures Retired(v, u, k)
    {
      if k !in t.users[u].keys {
        var i :| RetiredBy(t, u, k, i);
        assert RetiredBy(v, u, k, i);
      }
    }
  }

  // ----- Revoke -----

  lemma RevokedUserOwns(s: State, h: ScopeHash)
    requires Inv(s)
    ensures var u := RevokedUser(s, h);
      Owned(s.users, u, h) && (h in s.secrets ==> u == s.secrets[h].user) && (h in s.cache ==> u == s.cache[h].user)
      && (u == NONE <==> h !in s.secrets && h !in s.cache)
  {
    if h in s.cache {
      assert CachedAt(s, h);
    } else if h in s.secrets {
      assert s.log[s.secrets[h].version].secret == s.secrets[h];
    }
  }

  /** Whatever the cache has forgotten, Revoke sends the organization that the Secret records. */
  lemma RevokeKnowsTheOrganization(s: State, h: ScopeHash)
    requires Inv(s) && h in s.secrets
    ensures RevokedOrg(s, h) == s.secrets[h].org && RevokedUser(s, h) == s.secrets[h].user
  {
    RevokedUserOwns(s, h);
    CachedAtSecret(s, h);
  }

  lemma CachedAtSecret(s: State, h: ScopeHash)
    requires Inv(s) && h in s.secrets
    ensures h in s.cache ==> Matches(s, s.cache[h], s.secrets[h])
  {
    assert h in s.cache ==> CachedAt(s, h);
  }

  lemma DropUserSweeps(s: State, u: Id)
    requires Inv(s)
    ensures var t := DropUser(s, u);
      Inv(t) && Sweeps(s, t) && u !in t.users
  {
    DropUserKeepsInv(s, u);
  }

  lemma DropSecretSweeps(s: State, h: ScopeHash)
    requires Inv(s) && (h in s.secrets ==> s.secrets[h].user !in s.users)
    ensures var t := DropSecret(s, h);
      Inv(t) && Sweeps(s, t)
  {
    hide Inv;
    if h in s.cache {
      CachedAndStored(s, h);
    }
    DropSecretKeepsInv(s, h);
  }

  lemma UncacheSweeps(s: State, h: ScopeHash)
    requires Inv(s)
    ensures var t := s.(cache := s.cache - {h});
      Inv(t) && Sweeps(s, t)
  {
    hide Inv;
    UncacheKeepsInv(s, h);
  }

  /** Where Revoke leaves a hash that has a Secret. */
  ghost predicate RevokedOrKept(s: State, t: State, h: ScopeHash, calls: RevokeCalls)
    requires h in s.secrets
  {
    || (h in t.secrets && t.secrets[h] == s.secrets[h])
    || (h !in t.secrets && s.secrets[h].user !in t.users
        && (h in t.cache <==> h in s.cache && calls.dropSecret == Applied))
  }

  ghost predicate AllDone(calls: RevokeCalls) {
    && calls.readSecret && calls.removeUser == Done && calls.dropSecret == Done
    && calls.removeKey == Done && calls.updateSecret == Done
  }

  ghost predicate FullyGone(s: State, t: State, h: ScopeHash)
    requires h in s.secrets
  {
    h !in t.secrets && h !in t.cache && s.secrets[h].user !in t.users
  }

  lemma RevokeKeepsInv(s: State, h: ScopeHash, calls: RevokeCalls)
    requires Inv(s)
    ensures var (t, e) := Revoke(s, h, calls);
      Inv(t) && Sweeps(s, t)
      && (h in s.secrets ==> RevokedOrKept(s, t, h, calls))
      && (AllDone(calls) && h in s.secrets ==> e.None? && FullyGone(s, t, h))
  {
    hide Inv, Sweeps;
    SweepsReflexive(s);
    RevokedUserOwns(s, h);
    var u := RevokedUser(s, h);
    DropUserSweeps(s, u);
    var t := if u == NONE then s else After(calls.removeUser, s, DropUser(s, u));
    if calls.readSecret && (u == NONE || calls.removeUser == Done) {
      var v := if h in s.secrets then After(calls.dropSecret, t, DropSecret(t, h)) else t;
      if h in s.secrets {
        DropSecretSweeps(t, h);
        SweepsReflexive(t);
      }
      if h in s.secrets { SweepsTransitive(s, t, v); }
      UncacheSweeps(v, h);
      SweepsTransitive(s, v, v.(cache := v.cache - {h}));
    }
  }

  lemma RevokeElsewhere(s: State, h: ScopeHash, calls: RevokeCalls, g: ScopeHash)
    requires Inv(s) && g != h
    ensures SameAt(s, Revoke(s, h, calls).0, g)
  {
    hide Inv;
    RevokedUserOwns(s, h);
    assert forall u | Named(s, u, g) :: u != RevokedUser(s, h);
  }

  // ----- finishing a rotation -----

  lemma RemoveKeySweeps(s: State, q: Secret)
    requires Inv(s) && Logged(s, q) && q.oldKey != NONE
    requires q.oldRevokeAt.Some? && q.oldRevokeAt.value <= s.now
    ensures var t := RemoveKey(s, q.user, q.oldKey);
      Inv(t) && Sweeps(s, t) && t.users.Keys == s.users.Keys
  {
    RemoveKeyKeepsInv(s, q);
    var t := RemoveKey(s, q.user, q.oldKey);
    assert s.log[q.version].secret == q;
    assert RetiredBy(t, q.user, q.oldKey, q.version);
  }

  lemma ClearMarkersSweeps(s: State, q: Secret)
    requires Inv(s) && q.name in s.secrets && s.secrets[q.name] == q
    ensures var t := PutSecret(s, q.(oldKey := NONE, oldRevokeAt := None));
      Inv(t) && Sweeps(s, t)
  {
    var r := q.(oldKey := NONE, oldRevokeAt := None);
    assert s.log[q.version].secret == q;
    if q.name in s.cache {
      assert CachedAt(s, q.name);
    }
    PutSecretKeepsInv(s, r);
    PutSecretGrows(s, r);
  }

  /** The Secret still names the same user and key. */
  ghost predicate SameDelegate(s: State, t: State, h: ScopeHash)
    requires h in s.secrets
  {
    && h in t.secrets
    && t.secrets[h].user == s.secrets[h].user && t.secrets[h].project == s.secrets[h].project
    && t.secrets[h].key == s.secrets[h].key
  }

  lemma LoggedIsCurrent(s: State, q: Secret)
    requires Inv(s) && Logged(s, q) && q.name in s.secrets && s.secrets[q.name].version == q.version
    ensures s.secrets[q.name] == q
  {
    assert s.log[s.secrets[q.name].version].secret == s.secrets[q.name];
  }

  lemma FinishKeepsInv(s: State, q: Secret, calls: RevokeCalls)
    requires Inv(s) && Logged(s, q)
    ensures var (t, e) := FinishRotation(s, q, calls);
      Inv(t) && Sweeps(s, t) && t.users.Keys == s.users.Keys && t.cache == s.cache
      && (q.name in s.secrets ==> SameDelegate(s, t, q.name))
  {
    hide Inv, Sweeps;
    SweepsReflexive(s);
    if q.oldKey != NONE && q.oldRevokeAt.Some? && q.oldRevokeAt.value <= s.now {
      RemoveKeySweeps(s, q);
      var t := RemoveKey(s, q.user, q.oldKey);
      if q.name in t.secrets && t.secrets[q.name].version == q.version {
        LoggedIsCurrent(s, q);
        ClearMarkersSweeps(t, q);
        SweepsTransitive(s, t, PutSecret(t, q.(oldKey := NONE, oldRevokeAt := None)));
      }
    }
  }

  lemma FinishElsewhere(s: State, q: Secret, calls: RevokeCalls, g: ScopeHash)
    requires Inv(s) && Logged(s, q) && g != q.name
    ensures SameAt(s, FinishRotation(s, q, calls).0, g)
  {
    hide Inv;
    LoggedOwns(s, q);
    assert forall u | Named(s, u, g) :: u != q.user;
  }

  lemma LoggedOwns(s: State, q: Secret)
    requires Inv(s) && Logged(s, q)
    ensures Owned(s.users, q.user, q.name)
  {
    assert Owned(s.users, s.log[q.version].secret.user, s.log[q.version].secret.name);
  }

  // ----- Sweep -----

  lemma SweepOneKeepsInv(s: State, q: Secret, live: set<ScopeHash>, calls: RevokeCalls)
    requires Inv(s) && Logged(s, q)
    ensures var (t, e) := SweepOne(s, q, live, calls);
      Inv(t) && Sweeps(s, t) && (forall g | g != q.name :: SameAt(s, t, g))
      && (q.name in s.secrets ==> Fate(s, t, q.name, live, calls))
      && (AllDone(calls) && q.name in s.secrets && q.name !in live ==> e.None? && FullyGone(s, t, q.name))
  {
    hide Inv, Sweeps, SameAt;
    if q.name in live {
      FinishKeepsInv(s, q, calls);
      forall g | g != q.name ensures SameAt(s, FinishRotation(s, q, calls).0, g) {
        FinishElsewhere(s, q, calls, g);
      }
    } else {
      RevokeKeepsInv(s, q.name, calls);
      forall g | g != q.name ensures SameAt(s, Revoke(s, q.name, calls).0, g) {
        RevokeElsewhere(s, q.name, calls, g);
      }
    }
  }

  /** What a sweep does to a hash that has a Secret and is listed. */
  ghost predicate Fate(s: State, t: State, h: ScopeHash, live: set<ScopeHash>, calls: RevokeCalls)
    requires h in s.secrets
  {
    if h in live then SameDelegate(s, t, h) && (s.secrets[h].user in s.users ==> s.secrets[h].user in t.users)
    else RevokedOrKept(s, t, h, calls)
  }

  ghost predicate DistinctNames(listed: seq<Secret>) {
    forall i, j | 0 <= i < j < |listed| :: listed[i].name != listed[j].name
  }

  ghost predicate AllLogged(s: State, listed: seq<Secret>) {
    forall i | 0 <= i < |listed| :: Logged(s, listed[i])
  }

  lemma LogGrows(s: State, t: State, q: Secret)
    requires Sweeps(s, t) && Logged(s, q)
    ensures Logged(t, q)
  {
  }

  lemma SweepKeepsInv(s: State, listed: seq<Secret>, live: set<ScopeHash>, calls: seq<RevokeCalls>)
    requires Inv(s) && |calls| == |listed| && AllLogged(s, listed)
    ensures var t := Sweep(s, listed, live, calls).0;
      Inv(t) && Sweeps(s, t)
  {
    hide Inv, Sweeps, SweepOne;
    if listed == [] {
      SweepsReflexive(s);
    } else {
      var n := |listed| - 1;
      SweepKeepsInv(s, listed[..n], live, calls[..n]);
      var t := Sweep(s, listed[..n], live, calls[..n]).0;
      LogGrows(s, t, listed[n]);
      SweepOneKeepsInv(t, listed[n], live, calls[n]);
      SweepsTransitive(s, t, SweepOne(t, listed[n], live, calls[n]).0);
    }
  }

  ghost predicate Listed(listed: seq<Secret>, h: ScopeHash) {
    exists i :: 0 <= i < |listed| && listed[i].name == h
  }

  lemma SameAtTransitive(s: State, t: State, v: State, h: ScopeHash)
    requires SameAt(s, t, h) && SameAt(t, v, h)
    ensures SameAt(s, v, h)
  {
    forall u | Named(s, u, h) ensures u in v.users && v.users[u] == s.users[u] {
      assert Named(t, u, h);
    }
  }

  /** A sweep leaves the hashes it does not list alone. */
  lemma SweepElsewhere(s: State, listed: seq<Secret>, live: set<ScopeHash>, calls: seq<RevokeCalls>, h: ScopeHash)
    requires Inv(s) && |calls| == |listed| && AllLogged(s, listed) && !Listed(listed, h)
    ensures SameAt(s, Sweep(s, listed, live, calls).0, h)
  {
    hide Inv, Sweeps, SweepOne;
    if listed != [] {
      var n := |listed| - 1;
      assert listed[n].name != h;
      SweepElsewhere(s, listed[..n], live, calls[..n], h);
      SweepKeepsInv(s, listed[..n], live, calls[..n]);
      var t := Sweep(s, listed[..n], live, calls[..n]).0;
      LogGrows(s, t, listed[n]);
      SweepOneKeepsInv(t, listed[n], live, calls[n]);
      SameAtTransitive(s, t, SweepOne(t, listed[n], live, calls[n]).0, h);
    }
  }

  lemma StoredOwner(s: State, h: ScopeHash)
    requires Inv(s) && h in s.secrets
    ensures s.secrets[h].user in s.users ==> Named(s, s.secrets[h].user, h)
  {
    assert s.log[s.secrets[h].version].secret == s.secrets[h];
    assert Owned(s.users, s.log[s.secrets[h].version].secret.user, h);
  }

  lemma FateCarriesOver(s: State, t: State, v: State, h: ScopeHash, live: set<ScopeHash>, calls: RevokeCalls)
    requires Inv(t) && h in s.secrets && SameAt(t, v, h) && v.users.Keys <= t.users.Keys
    requires Fate(s, t, h, live, calls)
    ensures Fate(s, v, h, live, calls) && (FullyGone(s, t, h) ==> FullyGone(s, v, h))
  {
    hide Inv;
    if h in t.secrets {
      StoredOwner(t, h);
    }
  }

  lemma FateStartsOver(s: State, t: State, v: State, h: ScopeHash, live: set<ScopeHash>, calls: RevokeCalls)
    requires Inv(s) && h in s.secrets && SameAt(s, t, h)
    requires Fate(t, v, h, live, calls)
    ensures Fate(s, v, h, live, calls) && (FullyGone(t, v, h) ==> FullyGone(s, v, h))
  {
    hide Inv;
    StoredOwner(s, h);
  }

  /** However the calls for the other hashes end, a listed hash meets its fate: a live one keeps its
      delegate; of any other either the Secret is still there, unchanged, or user and Secret are gone,
      and then so is the cache entry unless the deletion of the Secret timed out. */
  lemma SweepDecides(s: State, listed: seq<Secret>, live: set<ScopeHash>, calls: seq<RevokeCalls>, i: nat)
    requires Inv(s) && |calls| == |listed| && AllLogged(s, listed) && DistinctNames(listed)
    requires i < |listed| && listed[i].name in s.secrets
    ensures var h := listed[i].name;
      var t := Sweep(s, listed, live, calls).0;
      Fate(s, t, h, live, calls[i]) && (h !in live && AllDone(calls[i]) ==> FullyGone(s, t, h))
    decreases |listed|
  {
    hide Inv, Sweeps, SweepOne, SameAt, Fate, FullyGone, AllDone;
    var h, n := listed[i].name, |listed| - 1;
    SweepKeepsInv(s, listed[..n], live, calls[..n]);
    var t := Sweep(s, listed[..n], live, calls[..n]).0;
    var v := SweepOne(t, listed[n], live, calls[n]).0;
    LogGrows(s, t, listed[n]);
    SweepOneKeepsInv(t, listed[n], live, calls[n]);
    if i < n {
      SweepDecides(s, listed[..n], live, calls[..n], i);
      FewerUsers(t, v);
      FateCarriesOver(s, t, v, h, live, calls[i]);
    } else {
      SweepElsewhere(s, listed[..n], live, calls[..n], h);
      SecretsSame(s, t, h);
      FateStartsOver(s, t, v, h, live, calls[n]);
    }
  }

  lemma FewerUsers(s: State, t: State)
    requires Sweeps(s, t)
    ensures t.users.Keys <= s.users.Keys
  {
  }

  lemma SecretsSame(s: State, t: State, h: ScopeHash)
    requires SameAt(s, t, h)
    ensures h in s.secrets ==> h in t.secrets && t.secrets[h] == s.secrets[h]
  {
  }

  // ----- what success and failure tell -----

  /** Revoke reports no error only when the scope is gone: no Secret, no cache entry, and none of its
      users that cache or Secret named. */
  lemma RevokeSuccessMeansGone(s: State, h: ScopeHash, calls: RevokeCalls)
    requires Inv(s) && Revoke(s, h, calls).1.None?
    ensures var t := Revoke(s, h, calls).0;
      && h !in t.secrets && h !in t.cache
      && (h in s.secrets ==> s.secrets[h].user !in t.users) && (h in s.cache ==> s.cache[h].user !in t.users)
  {
    hide Inv;
    RevokedUserOwns(s, h);
  }

  /** The error of the sweep at one listed Secret, in the state that the Secrets before it left. */
  function ErrorAt(s: State, listed: seq<Secret>, live: set<ScopeHash>, calls: seq<RevokeCalls>, i: nat): Option<Error>
    requires |calls| == |listed| && i < |listed|
  {
    SweepOne(Sweep(s, listed[..i], live, calls[..i]).0, listed[i], live, calls[i]).1
  }

  /** A sweep goes on after an error and reports the first one: none exactly if there was none. */
  lemma {:induction false} SweepReportsTheFirstError(
    s: State, listed: seq<Secret>, live: set<ScopeHash>, calls: seq<RevokeCalls>)
    requires |calls| == |listed|
    ensures var e := Sweep(s, listed, live, calls).1;
      && (e.None? <==> forall i | 0 <= i < |listed| :: ErrorAt(s, listed, live, calls, i).None?)
      && (e.Some? ==> exists i | 0 <= i < |listed| ::
            ErrorAt(s, listed, live, calls, i) == e
            && forall j | 0 <= j < i :: ErrorAt(s, listed, live, calls, j).None?)
  {
    hide SweepOne;
    if listed != [] {
      var n := |listed| - 1;
      SweepReportsTheFirstError(s, listed[..n], live, calls[..n]);
      forall i | 0 <= i < n ensures ErrorAt(s, listed, live, calls, i) == ErrorAt(s, listed[..n], live, calls[..n], i) {
        assert listed[..n][..i] == listed[..i] && calls[..n][..i] == calls[..i];
      }
      var before, last := Sweep(s, listed[..n], live, calls[..n]).1, ErrorAt(s, listed, live, calls, n);
      assert Sweep(s, listed, live, calls).1 == if before.Some? then before else last;
      if before.Some? {
        var i :| 0 <= i < n && ErrorAt(s, listed[..n], live, calls[..n], i) == before
                 && forall j | 0 <= j < i :: ErrorAt(s, listed[..n], live, calls[..n], j).None?;
        assert ErrorAt(s, listed, live, calls, i) == before;
      }
    }
  }

  /** So a sweep that reports no error has removed every listed scope that is not live. */
  lemma SweepSuccessMeansGone(
    s: State, listed: seq<Secret>, live: set<ScopeHash>, calls: seq<RevokeCalls>, i: nat)
    requires Inv(s) && |calls| == |listed| && AllLogged(s, listed) && DistinctNames(listed)
    requires Sweep(s, listed, live, calls).1.None? && i < |listed| && listed[i].name in s.secrets
    requires listed[i].name !in live
    ensures FullyGone(s, Sweep(s, listed, live, calls).0, listed[i].name)
    decreases |listed|
  {
    hide Inv, Sweeps, SweepOne, SameAt, Fate, FullyGone;
    var h, n := listed[i].name, |listed| - 1;
    SweepKeepsInv(s, listed[..n], live, calls[..n]);
    var t := Sweep(s, listed[..n], live, calls[..n]).0;
    var v := SweepOne(t, listed[n], live, calls[n]).0;
    LogGrows(s, t, listed[n]);
    SweepOneKeepsInv(t, listed[n], live, calls[n]);
    if i < n {
      SweepSuccessMeansGone(s, listed[..n], live, calls[..n], i);
      FewerUsers(t, v);
      GoneStays(s, t, v, h);
    } else {
      SweepElsewhere(s, listed[..n], live, calls[..n], h);
      SecretsSame(s, t, h);
      SweepOneSuccess(t, listed[n], live, calls[n]);
      GoneFromHere(s, t, v, h);
    }
  }

  lemma SweepOneSuccess(s: State, q: Secret, live: set<ScopeHash>, calls: RevokeCalls)
    requires Inv(s) && q.name in s.secrets && q.name !in live && SweepOne(s, q, live, calls).1.None?
    ensures FullyGone(s, SweepOne(s, q, live, calls).0, q.name)
  {
    hide Inv, Revoke;
    RevokeSuccessMeansGone(s, q.name, calls);
  }

  lemma GoneStays(s: State, t: State, v: State, h: ScopeHash)
    requires h in s.secrets && FullyGone(s, t, h) && SameAt(t, v, h) && v.users.Keys <= t.users.Keys
    ensures FullyGone(s, v, h)
  {
  }

  lemma GoneFromHere(s: State, t: State, v: State, h: ScopeHash)
    requires h in s.secrets && h in t.secrets && t.secrets[h] == s.secrets[h] && FullyGone(t, v, h)
    ensures FullyGone(s, v, h)
  {
  }
}
