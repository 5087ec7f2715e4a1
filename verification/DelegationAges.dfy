/** How old keys are, told from the log of Secret writes: what a Secret and the cache record as the age of
    a key, and so when a key is replaced. */
module DelegationAges {
  import opened Base
  import opened ScopeMaps
  import opened DelegationSpec
  import opened DelegationInvariants
  import opened DelegationSafety
  import opened DelegationSweeping
  import opened DelegationRuns

  /** The first write that names `key`. */
  ghost predicate FirstNames(log: Log, key: Id, f: int) {
    && 0 <= f < |log| && log[f].secret.key == key
    && forall i | 0 <= i < f :: log[i].secret.key != key
  }

  /** `created` is the instant of a first write, as the Secret records it. */
  ghost predicate DatedBy(log: Log, key: Id, created: Option<Time>, f: int) {
    FirstNames(log, key, f) && created == Some(Truncate(log[f].at))
  }

  /** Every write dates the key that it names by the first write that did. */
  ghost predicate Dated(log: Log) {
    forall i | 0 <= i < |log| :: EntryDated(log, log[i])
  }

  ghost predicate EntryDated(log: Log, w: Written) {
    exists f :: DatedBy(log, w.secret.key, w.secret.created, f)
  }

  /** A cached delegate is dated by that write as well, to the fraction of a second or without it. */
  ghost predicate CachedBy(log: Log, d: Delegate, f: int) {
    FirstNames(log, d.key, f) && d.created in {Some(log[f].at), Some(Truncate(log[f].at))}
  }

  ghost predicate CacheDated(cache: Cache, log: Log) {
    forall h | h in cache :: exists f :: CachedBy(log, cache[h], f)
  }

  /** The writes for one user name ever newer keys. */
  ghost predicate KeysGrow(log: Log) {
    forall i, j | 0 <= i < j < |log| && log[i].secret.user == log[j].secret.user ::
      log[i].secret.key <= log[j].secret.key
  }

  /** A Secret names the newest key of its user. */
  ghost predicate LastKeys(secrets: Secrets, log: Log) {
    forall h, i | h in secrets && 0 <= i < |log| && log[i].secret.user == secrets[h].user ::
      log[i].secret.key <= secrets[h].key
  }

  /** Writes are logged in the order of time, and each key belongs to one user. */
  ghost predicate InOrder(log: Log) {
    forall i, j | 0 <= i < j < |log| ::
      log[i].at <= log[j].at && (log[i].secret.key == log[j].secret.key ==> log[i].secret.user == log[j].secret.user)
  }

  ghost predicate Aged(s: State) {
    && Dated(s.log) && CacheDated(s.cache, s.log)
    && KeysGrow(s.log) && LastKeys(s.secrets, s.log) && InOrder(s.log)
  }

  // ----- single effects -----

  /** Whatever touches users and projects only, or drops Secrets and cache entries. */
  lemma LessKeepsAged(s: State, t: State)
    requires Aged(s) && t.log == s.log
    requires forall h | h in t.secrets :: h in s.secrets && t.secrets[h] == s.secrets[h]
    requires forall h | h in t.cache :: h in s.cache && t.cache[h] == s.cache[h]
    ensures Aged(t)
  {
  }

  lemma FirstStays(log: Log, w: Written, key: Id, f: int)
    requires FirstNames(log, key, f)
    ensures FirstNames(log + [w], key, f) && (log + [w])[f] == log[f]
  {
  }

  lemma AppendKeepsCache(cache: Cache, log: Log, w: Written)
    requires CacheDated(cache, log)
    ensures CacheDated(cache, log + [w])
  {
    forall h | h in cache ensures exists f :: CachedBy(log + [w], cache[h], f) {
      var f :| CachedBy(log, cache[h], f);
      FirstStays(log, w, cache[h].key, f);
      assert CachedBy(log + [w], cache[h], f);
    }
  }

  lemma AppendKeepsDated(log: Log, w: Written, f: int)
    requires Dated(log) && DatedBy(log + [w], w.secret.key, w.secret.created, f)
    ensures Dated(log + [w])
  {
    hide DatedBy;
    var l := log + [w];
    forall i | 0 <= i < |l| ensures EntryDated(l, l[i]) {
      if i < |log| {
        EntryStaysDated(log, w, log[i]);
        assert l[i] == log[i];
      } else {
        assert l[i] == w;
      }
    }
  }

  lemma EntryStaysDated(log: Log, w: Written, e: Written)
    requires EntryDated(log, e)
    ensures EntryDated(log + [w], e)
  {
    var f :| DatedBy(log, e.secret.key, e.secret.created, f);
    FirstStays(log, w, e.secret.key, f);
    assert DatedBy(log + [w], e.secret.key, e.secret.created, f);
  }

  /** No write for this user names a newer key. */
  ghost predicate Newest(log: Log, user: Id, key: Id) {
    forall i | 0 <= i < |log| && log[i].secret.user == user :: log[i].secret.key <= key
  }

  lemma AppendKeepsGrowth(log: Log, w: Written)
    requires KeysGrow(log) && Newest(log, w.secret.user, w.secret.key)
    ensures KeysGrow(log + [w])
  {
  }

  /** The write may come after all of the log. */
  ghost predicate MayFollow(log: Log, w: Written) {
    forall i | 0 <= i < |log| ::
      log[i].at <= w.at && (log[i].secret.key == w.secret.key ==> log[i].secret.user == w.secret.user)
  }

  lemma AppendKeepsOrder(log: Log, w: Written)
    requires InOrder(log) && MayFollow(log, w)
    ensures InOrder(log + [w])
  {
  }

  lemma LoggedBefore(s: State)
    requires Inv(s)
    ensures forall i | 0 <= i < |s.log| :: s.log[i].at <= s.now
  {
  }

  /** `others` do not name the user of the new write, unless they name its key as the newest as well. */
  lemma AppendKeepsLastKeys(secrets: Secrets, log: Log, w: Written, h: ScopeHash)
    requires LastKeys(secrets, log) && Newest(log, w.secret.user, w.secret.key)
    requires forall g | g in secrets && g != h && secrets[g].user == w.secret.user :: w.secret.key <= secrets[g].key
    ensures LastKeys(secrets[h := w.secret], log + [w])
  {
  }

  /** Writing a Secret whose key is dated, and the newest of its user. */
  lemma PutKeepsAged(s: State, q: Secret, f: int)
    requires Aged(s) && Newest(s.log, q.user, q.key) && MayFollow(s.log, Written(q, s.now))
    requires DatedBy(PutSecret(s, q).log, q.key, q.created, f)
    requires forall g | g in s.secrets && g != q.name && s.secrets[g].user == q.user :: q.key <= s.secrets[g].key
    ensures Aged(PutSecret(s, q))
  {
    hide Dated, CacheDated, KeysGrow, LastKeys, InOrder, DatedBy, Newest;
    var w := Written(q.(version := |s.log|), s.now);
    assert PutSecret(s, q).log == s.log + [w];
    AppendKeepsDated(s.log, w, f);
    AppendKeepsCache(s.cache, s.log, w);
    AppendKeepsGrowth(s.log, w);
    AppendKeepsOrder(s.log, w);
    AppendKeepsLastKeys(s.secrets, s.log, w, q.name);
  }

  /** Writing a key that no write has named yet. */
  lemma PutNewKey(s: State, q: Secret)
    requires Aged(s) && Inv(s)
    requires forall i | 0 <= i < |s.log| :: s.log[i].secret.key < q.key
    requires q.created == Some(Truncate(s.now)) && q.user in s.users && s.users[q.user].name == q.name
    ensures Aged(PutSecret(s, q)) && FirstNames(PutSecret(s, q).log, q.key, |s.log|)
  {
    hide Aged, Inv;
    assert DatedBy(PutSecret(s, q).log, q.key, q.created, |s.log|);
    LoggedBefore(s);
    forall g | g in s.secrets && g != q.name ensures s.secrets[g].user != q.user {
      StoredOwner(s, g);
    }
    PutKeepsAged(s, q, |s.log|);
  }

  /** Writing a Secret again with the key that it names. */
  lemma PutSameKey(s: State, q: Secret)
    requires Aged(s) && Inv(s) && q.name in s.secrets
    requires q.key == s.secrets[q.name].key && q.user == s.secrets[q.name].user
    requires q.created == s.secrets[q.name].created
    ensures Aged(PutSecret(s, q))
  {
    hide Aged, Inv, FirstNames;
    StoredEntry(s, q.name);
    var f := SecretIsDated(s, q.name);
    FirstStays(s.log, Written(q.(version := |s.log|), s.now), q.key, f);
    StoredIsNewest(s, q.name);
    LoggedBefore(s);
    PutKeepsAged(s, q, f);
  }

  lemma StoredIsNewest(s: State, h: ScopeHash)
    requires Aged(s) && Inv(s) && h in s.secrets
    ensures Newest(s.log, s.secrets[h].user, s.secrets[h].key)
    ensures forall g | g in s.secrets && s.secrets[g].user == s.secrets[h].user :: s.secrets[h].key <= s.secrets[g].key
    ensures forall i | 0 <= i < |s.log| && s.log[i].secret.key == s.secrets[h].key ::
      s.log[i].secret.user == s.secrets[h].user
  {
    StoredEntry(s, h);
  }

  lemma StoredEntry(s: State, h: ScopeHash)
    requires Inv(s) && h in s.secrets
    ensures s.secrets[h].version < |s.log| && s.log[s.secrets[h].version].secret == s.secrets[h]
    ensures s.secrets[h].name == h
  {
  }

  lemma CacheIt(s: State, h: ScopeHash, d: Delegate, f: int)
    requires Aged(s) && CachedBy(s.log, d, f)
    ensures Aged(s.(cache := s.cache[h := d]))
  {
    var c := s.cache[h := d];
    forall g | g in c ensures exists e :: CachedBy(s.log, c[g], e) {
      if g == h {
        assert CachedBy(s.log, c[g], f);
      } else {
        assert c[g] == s.cache[g];
      }
    }
  }

  lemma SecretIsDated(s: State, h: ScopeHash) returns (f: int)
    requires Aged(s) && Inv(s) && h in s.secrets
    ensures DatedBy(s.log, s.secrets[h].key, s.secrets[h].created, f)
  {
    StoredEntry(s, h);
    assert EntryDated(s.log, s.log[s.secrets[h].version]);
    f :| DatedBy(s.log, s.secrets[h].key, s.secrets[h].created, f);
  }

  lemma LoggedKeys(s: State)
    requires Inv(s)
    ensures forall i | 0 <= i < |s.log| :: s.log[i].secret.key < s.nextId
  {
  }

  // ----- Ensure -----

  lemma RotateKeepsAged(s: State, h: ScopeHash, calls: EnsureCalls)
    requires Inv(s) && Aged(s) && h in s.cache
    ensures Aged(RotateIfDue(s, h, calls).0)
  {
    hide Inv, Aged;
    var d := s.cache[h];
    if d.user in s.users {
      CachedAndAlive(s, h);
      AddKeyGrows(s, d.user);
      var t := AddKey(s, d.user);
      LessKeepsAged(s, t);
      LoggedKeys(s);
      var q := Swapped(t, t.secrets[h], d, s.nextId);
      PutNewKey(t, q);
      var v := PutSecret(t, q);
      var nd := Delegate(d.user, NONE, d.project, s.nextId, Some(s.now), true);
      assert CachedBy(v.log, nd, |s.log|);
      CacheIt(v, h, nd, |s.log|);
    }
  }

  lemma ValidateKeepsAged(s: State, h: ScopeHash, calls: EnsureCalls)
    requires Aged(s) && h in s.cache
    ensures Aged(Validate(s, h, calls).0)
  {
    hide Aged;
    DatedEntry(s, h);
    var f :| CachedBy(s.log, s.cache[h], f);
    CacheIt(s, h, s.cache[h].(validated := true), f);
    LessKeepsAged(s, s.(cache := s.cache - {h}));
    LessKeepsAged(s, DropSecret(s.(cache := s.cache - {h}), h));
  }

  lemma DatedEntry(s: State, h: ScopeHash)
    requires Aged(s) && h in s.cache
    ensures exists f :: CachedBy(s.log, s.cache[h], f)
  {
  }

  lemma WarmKeepsAged(s: State, h: ScopeHash, calls: EnsureCalls)
    requires Inv(s) && Aged(s)
    ensures Aged(Warm(s, h, calls).0)
  {
    hide Inv, Aged, Validate, RotateIfDue;
    if h in s.secrets {
      WarmCaches(s, h);
      var f := SecretIsDated(s, h);
      assert CachedBy(s.log, FromSecret(s.secrets[h]), f);
      CacheIt(s, h, FromSecret(s.secrets[h]), f);
      var w := s.(cache := s.cache[h := FromSecret(s.secrets[h])]);
      ValidateKeepsInv(w, h, calls);
      ValidateKeepsAged(w, h, calls);
      var t := Validate(w, h, calls).0;
      if h in t.cache && Validate(w, h, calls).1.None? {
        RotateKeepsAged(t, h, calls);
      }
    }
  }

  lemma IssueKeepsAged(s: State, scope: Scope, user: Id, project: Id, calls: EnsureCalls)
    requires Inv(s) && Aged(s) && Named(s, user, scope.Hash())
    ensures Aged(Issue(s, scope, user, project, calls).0)
  {
    hide Inv, Aged;
    var h := scope.Hash();
    AddMemberGrows(s, user, project);
    var t := AddMember(s, user, project);
    LessKeepsAged(s, t);
    AddKeyGrows(t, user);
    var v := AddKey(t, user);
    LessKeepsAged(t, v);
    LoggedKeys(t);
    PutNewKey(v, Fresh(v, scope, user, project, t.nextId));
    var w := PutSecret(v, Fresh(v, scope, user, project, t.nextId));
    var d := Delegate(user, scope.organizationId, project, t.nextId, Some(s.now), true);
    assert CachedBy(w.log, d, |s.log|);
    CacheIt(w, h, d, |s.log|);
  }

  lemma MintKeepsAged(s: State, scope: Scope, calls: EnsureCalls)
    requires Inv(s) && Aged(s)
    ensures Aged(Mint(s, scope, calls).0)
  {
    hide Inv, Aged, Issue;
    EnsureUserKeepsInv(s, scope.Hash(), calls);
    var (t, u) := EnsureUser(s, scope.Hash(), calls);
    LessKeepsAged(s, t);
    EnsureProjectKeepsInv(t, scope, calls);
    var (v, p) := EnsureProject(t, scope, calls);
    LessKeepsAged(t, v);
    if u.Ok? && p.Ok? {
      assert Named(v, u.value, scope.Hash());
      IssueKeepsAged(v, scope, u.value, p.value, calls);
    }
  }

  lemma WarmOrMintKeepsAged(s: State, scope: Scope, calls: EnsureCalls)
    requires Inv(s) && Aged(s)
    ensures Aged(WarmOrMint(s, scope, calls).0)
  {
    hide Inv, Aged, Warm, Mint;
    WarmKeepsInv(s, scope.Hash(), calls);
    WarmKeepsAged(s, scope.Hash(), calls);
    var (t, r) := Warm(s, scope.Hash(), calls);
    if r == Ok(None) {
      MintKeepsAged(t, scope, calls);
    }
  }

  lemma EnsureKeepsAged(s: State, scope: Scope, calls: EnsureCalls)
    requires Inv(s) && Aged(s)
    ensures Aged(Ensure(s, scope, calls).0)
  {
    hide Inv, Aged, WarmOrMint, Validate, RotateIfDue;
    var h := scope.Hash();
    if h in s.cache {
      ValidateKeepsInv(s, h, calls);
      ValidateKeepsAged(s, h, calls);
      var (t, e) := Validate(s, h, calls);
      if e.None? && h in t.cache {
        RotateKeepsAged(t, h, calls);
      } else if e.None? {
        WarmOrMintKeepsAged(t, scope, calls);
      }
    } else {
      WarmOrMintKeepsAged(s, scope, calls);
    }
  }

  // ----- the other steps -----

  lemma RevokeKeepsAged(s: State, h: ScopeHash, calls: RevokeCalls)
    requires Aged(s)
    ensures Aged(Revoke(s, h, calls).0)
  {
    hide Aged, DropUser, DropSecret;
    var u := RevokedUser(s, h);
    DropUserKeepsAged(s, u);
    DropSecretKeepsAged(s, h);
    DropSecretKeepsAged(DropUser(s, u), h);
    UncacheKeepsAged(s, h);
    UncacheKeepsAged(DropSecret(s, h), h);
    UncacheKeepsAged(DropUser(s, u), h);
    UncacheKeepsAged(DropSecret(DropUser(s, u), h), h);
  }

  lemma DropUserKeepsAged(s: State, u: Id)
    requires Aged(s)
    ensures Aged(DropUser(s, u))
  {
  }

  lemma DropSecretKeepsAged(s: State, h: ScopeHash)
    requires Aged(s)
    ensures Aged(DropSecret(s, h))
  {
    LessKeepsAged(s, DropSecret(s, h));
  }

  lemma UncacheKeepsAged(s: State, h: ScopeHash)
    requires Aged(s)
    ensures Aged(s.(cache := s.cache - {h}))
  {
    LessKeepsAged(s, s.(cache := s.cache - {h}));
  }

  lemma FinishKeepsAged(s: State, q: Secret, calls: RevokeCalls)
    requires Inv(s) && Aged(s) && Logged(s, q)
    ensures Aged(FinishRotation(s, q, calls).0)
  {
    hide Inv, Aged;
    var t := RemoveKey(s, q.user, q.oldKey);
    LessKeepsAged(s, t);
    if q.oldKey != NONE && q.name in s.secrets && s.secrets[q.name].version == q.version {
      LoggedIsCurrent(s, q);
      RemoveKeyKeepsInv(s, q);
      PutSameKey(t, q.(oldKey := NONE, oldRevokeAt := None));
    }
  }

  lemma {:induction false} SweepKeepsAged(s: State, listed: seq<Secret>, live: set<ScopeHash>, calls: seq<RevokeCalls>)
    requires Inv(s) && Aged(s) && |calls| == |listed| && AllLogged(s, listed)
    ensures Aged(Sweep(s, listed, live, calls).0)
  {
    hide Inv, Aged, Revoke, FinishRotation, Sweeps;
    if listed != [] {
      var n := |listed| - 1;
      SweepKeepsAged(s, listed[..n], live, calls[..n]);
      SweepKeepsInv(s, listed[..n], live, calls[..n]);
      var t := Sweep(s, listed[..n], live, calls[..n]).0;
      LogGrows(s, t, listed[n]);
      if listed[n].name in live {
        FinishKeepsAged(t, listed[n], calls[n]);
      } else {
        RevokeKeepsAged(t, listed[n].name, calls[n]);
      }
    }
  }

  lemma WarmFromSecretsKeepsAged(s: State, built: set<ScopeHash>)
    requires Inv(s) && Aged(s)
    ensures Aged(WarmFromSecrets(s, built))
  {
    hide Inv;
    var t := WarmFromSecrets(s, built);
    forall h | h in t.cache ensures exists f :: CachedBy(t.log, t.cache[h], f) {
      if h in s.secrets && h in built {
        var f := SecretIsDated(s, h);
        assert CachedBy(t.log, t.cache[h], f);
      }
    }
  }

  lemma NextKeepsAged(s: State, step: Step)
    requires Inv(s) && Aged(s) && Possible(s, step)
    ensures Aged(Next(s, step))
  {
    hide Inv, Aged, Ensure, Revoke, Sweep, WarmFromSecrets;
    match step
    case DoEnsure(scope, calls) => EnsureKeepsAged(s, scope, calls);
    case DoRevoke(h, calls) => RevokeKeepsAged(s, h, calls);
    case DoSweep(listed, live, calls) => SweepKeepsAged(s, listed, live, calls);
    case DoWarm(built) => WarmFromSecretsKeepsAged(s, built);
    case _ => LessKeepsAged(s, Next(s, step));
  }

  lemma {:induction false} RunKeepsAged(run: seq<State>, steps: seq<Step>, i: nat)
    requires IsRun(run, steps) && i <= |steps|
    ensures Inv(run[i]) && Aged(run[i])
  {
    hide Inv, Next;
    RunKeepsInv(run, steps, i);
    if i > 0 {
      RunKeepsAged(run, steps, i - 1);
      NextKeepsAged(run[i - 1], steps[i - 1]);
    }
  }

  /** In every state of every run: a Secret dates its key by the first write that named it, to the second,
      however often it was written since; and the cache dates its key by that write too. */
  lemma KeysAreDatedByTheirFirstWrite(run: seq<State>, steps: seq<Step>, i: nat, h: ScopeHash)
    requires IsRun(run, steps) && i <= |steps|
    ensures var s := run[i];
      && (h in s.secrets ==> exists f :: FirstNames(s.log, s.secrets[h].key, f)
                                         && s.secrets[h].created == Some(Truncate(s.log[f].at)))
      && (h in s.cache ==> exists f :: FirstNames(s.log, s.cache[h].key, f)
                                       && s.cache[h].created in {Some(s.log[f].at), Some(Truncate(s.log[f].at))})
  {
    RunKeepsAged(run, steps, i);
    if h in run[i].secrets {
      var f := SecretIsDated(run[i], h);
    }
    if h in run[i].cache {
      var f :| CachedBy(run[i].log, run[i].cache[h], f);
      assert FirstNames(run[i].log, run[i].cache[h].key, f);
    }
  }
}
