/** Runs in which no call fails: which keys are live, and when the books stop covering them all. */
module DelegationTracking {
  import opened Base
  import opened ScopeMaps
  import opened DelegationSpec
  import opened DelegationInvariants
  import opened DelegationSafety
  import opened DelegationSweeping
  import opened DelegationRuns

  /** The keys a Secret accounts for. */
  function Tracks(q: Secret): set<Id> {
    if q.oldKey == NONE then {q.key} else {q.key, q.oldKey}
  }

  ghost predicate UserTracked(s: State, u: Id)
    requires u in s.users
  {
    && s.users[u].name in s.secrets && s.secrets[s.users[u].name].user == u
    && s.users[u].keys == Tracks(s.secrets[s.users[u].name])
  }

  ghost predicate CacheFresh(s: State) {
    forall h | h in s.cache && h in s.secrets :: s.cache[h].key == s.secrets[h].key
  }

  /** Every user is named by the Secret of its hash, and holds exactly the keys that Secret names. */
  ghost predicate Tracked(s: State) {
    CacheFresh(s) && forall u | u in s.users :: UserTracked(s, u)
  }

  /** Ensure would rotate the key of a live delegate. */
  ghost predicate Rotates(s: State, h: ScopeHash) {
    && (h in s.cache || h in s.secrets)
    && var d := if h in s.cache then s.cache[h] else FromSecret(s.secrets[h]);
       d.user in s.users && Due(s, d)
  }

  /** Ensure would rotate while an earlier rotated-out key still waits for its revocation. */
  ghost predicate Overlaps(s: State, step: Step) {
    && step.DoEnsure?
    && var h := step.scope.Hash();
       Rotates(s, h) && h in s.secrets && s.secrets[h].oldKey != NONE
  }

  /** A step in which no call fails; a sweep works on Secrets as they are. */
  ghost predicate Quiet(s: State, step: Step) {
    match step
    case DoEnsure(_, calls) => calls == ALL_FINE
    case DoRevoke(_, calls) => AllDone(calls)
    case DoSweep(listed, _, calls) =>
      && |calls| == |listed| && DistinctNames(listed)
      && forall i | 0 <= i < |listed| ::
           AllDone(calls[i]) && listed[i].name in s.secrets && s.secrets[listed[i].name] == listed[i]
    case _ => true
  }

  // ----- Ensure -----

  lemma RotationTracked(s: State, h: ScopeHash)
    requires Inv(s) && Tracked(s) && h in s.cache
    ensures Tracked(RotateIfDue(s, h, ALL_FINE).0) <==>
            !(Due(s, s.cache[h]) && s.cache[h].user in s.users && s.secrets[h].oldKey != NONE)
  {
    hide Inv;
    var d := s.cache[h];
    if Due(s, d) && d.user in s.users {
      CachedAndAlive(s, h);
      FreshId(s);
      var q, t := s.secrets[h], RotateIfDue(s, h, ALL_FINE).0;
      assert UserTracked(s, d.user);
      assert t.users[d.user].keys == Tracks(q) + {s.nextId};
      assert t.secrets[h].key == s.nextId && t.secrets[h].oldKey == q.key;
      if q.oldKey == NONE {
        assert forall u | u in t.users && u != d.user :: UserTracked(s, u) && UserTracked(t, u);
      } else {
        MarkedKeyDiffers(s, h);
        assert q.oldKey in t.users[d.user].keys;
        assert !UserTracked(t, d.user);
      }
    }
  }

  lemma MarkedKeyDiffers(s: State, h: ScopeHash)
    requires Inv(s) && h in s.secrets && s.secrets[h].oldKey != NONE
    ensures s.secrets[h].oldKey != s.secrets[h].key && s.secrets[h].oldKey < s.nextId
  {
    assert s.log[s.secrets[h].version].secret == s.secrets[h];
  }

  lemma ValidateTracked(s: State, h: ScopeHash)
    requires Inv(s) && Tracked(s) && h in s.cache
    ensures var t := Validate(s, h, ALL_FINE).0;
      Tracked(t)
      && (h in t.cache ==> t == s.(cache := s.cache[h := s.cache[h].(validated := true)]))
      && (h !in t.cache ==> s.cache[h].user !in s.users)
  {
    hide Inv;
    CachedAndStored(s, h);
    var t := Validate(s, h, ALL_FINE).0;
    assert forall u | u in t.users :: UserTracked(s, u);
  }

  lemma WarmTracked(s: State, h: ScopeHash)
    requires Inv(s) && Tracked(s) && h !in s.cache
    ensures Tracked(Warm(s, h, ALL_FINE).0) <==>
            !(Rotates(s, h) && h in s.secrets && s.secrets[h].oldKey != NONE)
  {
    hide Inv, Validate, RotateIfDue;
    if h in s.secrets {
      WarmCaches(s, h);
      var w := s.(cache := s.cache[h := FromSecret(s.secrets[h])]);
      assert forall u | u in w.users :: UserTracked(s, u);
      assert Tracked(w);
      ValidateTracked(w, h);
      ValidateKeepsInv(w, h, ALL_FINE);
      var (t, e) := Validate(w, h, ALL_FINE);
      ValidateFine(w, h);
      if h in t.cache {
        RotationTracked(t, h);
      }
    }
  }

  lemma ValidateFine(s: State, h: ScopeHash)
    requires h in s.cache
    ensures Validate(s, h, ALL_FINE).1 == None
  {
  }

  lemma IssueTracked(s: State, scope: Scope, user: Id, project: Id)
    requires Inv(s) && CacheFresh(s) && Named(s, user, scope.Hash()) && s.users[user].keys == {}
    requires scope.Hash() !in s.secrets && scope.Hash() !in s.cache
    requires forall u | u in s.users && u != user :: UserTracked(s, u)
    ensures Tracked(Issue(s, scope, user, project, ALL_FINE).0)
  {
    hide Inv;
    var t := Issue(s, scope, user, project, ALL_FINE).0;
    assert t.users[user].keys == {s.nextId};
    forall u | u in t.users ensures UserTracked(t, u) {
      assert u != user ==> UserTracked(s, u) && s.users[u].name != scope.Hash();
    }
  }

  lemma MintTracked(s: State, scope: Scope)
    requires Inv(s) && Tracked(s) && scope.Hash() !in s.secrets && scope.Hash() !in s.cache
    ensures Tracked(Mint(s, scope, ALL_FINE).0)
  {
    hide Inv, Issue;
    var h := scope.Hash();
    forall u ensures !Named(s, u, h) {
      assert u in s.users ==> UserTracked(s, u);
    }
    FreshId(s);
    EnsureUserKeepsInv(s, h, ALL_FINE);
    var (t, u) := EnsureUser(s, h, ALL_FINE);
    assert t == AddUser(s, h) && u == Ok(s.nextId);
    EnsureProjectKeepsInv(t, scope, ALL_FINE);
    var (v, p) := EnsureProject(t, scope, ALL_FINE);
    forall w | w in v.users && w != s.nextId ensures UserTracked(v, w) {
      assert UserTracked(s, w);
    }
    IssueTracked(v, scope, s.nextId, p.value);
  }

  lemma FreshId(s: State)
    requires Inv(s)
    ensures s.nextId !in s.users && forall u | u in s.users :: s.nextId !in s.users[u].keys
  {
  }

  lemma EnsureTracked(s: State, scope: Scope)
    requires Inv(s) && Tracked(s)
    ensures Tracked(Ensure(s, scope, ALL_FINE).0) <==> !Overlaps(s, DoEnsure(scope, ALL_FINE))
  {
    hide Inv, Tracked, Mint, Warm, Validate, RotateIfDue;
    var h := scope.Hash();
    if h in s.cache {
      ValidateTracked(s, h);
      ValidateKeepsInv(s, h, ALL_FINE);
      ValidateFine(s, h);
      var t := Validate(s, h, ALL_FINE).0;
      if h in t.cache {
        RotationTracked(t, h);
        if s.cache[h].user in s.users {
          CachedAndAlive(s, h);
        }
      } else {
        assert h !in t.secrets;
        WarmOrMintTracked(t, scope);
      }
    } else {
      WarmOrMintTracked(s, scope);
    }
  }

  lemma WarmOrMintTracked(s: State, scope: Scope)
    requires Inv(s) && Tracked(s) && scope.Hash() !in s.cache
    ensures Tracked(WarmOrMint(s, scope, ALL_FINE).0) <==> !Overlaps(s, DoEnsure(scope, ALL_FINE))
  {
    hide Inv, Tracked, Mint, Warm;
    var h := scope.Hash();
    WarmTracked(s, h);
    WarmKeepsInv(s, h, ALL_FINE);
    var (t, r) := Warm(s, h, ALL_FINE);
    if r.Ok? && r.value.None? {
      NoRotationWithoutUser(s, h);
      MintTracked(t, scope);
    }
  }

  /** When warming ends without a delegate, there was no live one to rotate. */
  lemma NoRotationWithoutUser(s: State, h: ScopeHash)
    requires h !in s.cache && Warm(s, h, ALL_FINE).1 == Ok(None)
    ensures !Rotates(s, h)
  {
  }

  // ----- Revoke and Sweep -----

  lemma RevokeTracked(s: State, h: ScopeHash, calls: RevokeCalls)
    requires Inv(s) && Tracked(s) && AllDone(calls)
    ensures Tracked(Revoke(s, h, calls).0)
  {
    hide Inv;
    RevokedUserOwns(s, h);
    var t := Revoke(s, h, calls).0;
    forall u | u in t.users ensures UserTracked(t, u) {
      assert UserTracked(s, u);
    }
  }

  lemma FinishTracked(s: State, q: Secret, calls: RevokeCalls)
    requires Inv(s) && Tracked(s) && AllDone(calls) && q.name in s.secrets && s.secrets[q.name] == q
    ensures var t := FinishRotation(s, q, calls).0;
      Tracked(t)
      && (q.oldRevokeAt.Some? && q.oldRevokeAt.value <= s.now ==>
            q.name in t.secrets && t.secrets[q.name].oldKey == NONE)
  {
    hide Inv;
    if q.oldKey != NONE {
      MarkedKeyDiffers(s, q.name);
    }
    StoredOwner(s, q.name);
    var t := FinishRotation(s, q, calls).0;
    forall u | u in t.users ensures UserTracked(t, u) {
      assert UserTracked(s, u);
    }
  }

  lemma StoredIsLogged(s: State, q: Secret)
    requires Inv(s) && q.name in s.secrets && s.secrets[q.name] == q
    ensures Logged(s, q)
  {
  }

  ghost predicate Current(s: State, listed: seq<Secret>) {
    forall i | 0 <= i < |listed| :: listed[i].name in s.secrets && s.secrets[listed[i].name] == listed[i]
  }

  lemma CurrentIsLogged(s: State, listed: seq<Secret>)
    requires Inv(s) && Current(s, listed)
    ensures AllLogged(s, listed)
  {
    forall i | 0 <= i < |listed| ensures Logged(s, listed[i]) {
      StoredIsLogged(s, listed[i]);
    }
  }

  /** A sweep in which every call succeeds keeps the books, and closes the rotations that are over. */
  lemma {:induction false} SweepTracked(s: State, listed: seq<Secret>, live: set<ScopeHash>, calls: seq<RevokeCalls>)
    requires Inv(s) && Tracked(s) && |calls| == |listed| && DistinctNames(listed) && Current(s, listed)
    requires forall i | 0 <= i < |calls| :: AllDone(calls[i])
    ensures Tracked(Sweep(s, listed, live, calls).0)
  {
    hide Inv, Tracked, SweepOne, SameAt, AllDone;
    if listed != [] {
      var n := |listed| - 1;
      SweepTracked(s, listed[..n], live, calls[..n]);
      CurrentIsLogged(s, listed[..n]);
      SweepKeepsInv(s, listed[..n], live, calls[..n]);
      SweepElsewhere(s, listed[..n], live, calls[..n], listed[n].name);
      var t := Sweep(s, listed[..n], live, calls[..n]).0;
      SecretsSame(s, t, listed[n].name);
      SweepOneTracked(t, listed[n], live, calls[n]);
    }
  }

  lemma SweepOneTracked(s: State, q: Secret, live: set<ScopeHash>, calls: RevokeCalls)
    requires Inv(s) && Tracked(s) && AllDone(calls) && q.name in s.secrets && s.secrets[q.name] == q
    ensures Tracked(SweepOne(s, q, live, calls).0)
  {
    hide Inv, Tracked;
    if q.name in live {
      FinishTracked(s, q, calls);
    } else {
      RevokeTracked(s, q.name, calls);
    }
  }

  // ----- steps and runs -----

  lemma WarmFromSecretsTracked(s: State, built: set<ScopeHash>)
    requires Inv(s) && Tracked(s)
    ensures Tracked(WarmFromSecrets(s, built))
  {
    hide Inv;
    assert forall u | u in s.users :: UserTracked(s, u);
  }

  lemma OtherTracked(s: State, step: Step)
    requires Tracked(s) && (step.Restart? || step.Tick? || step.UserDeletedOutside?)
    ensures Tracked(Next(s, step))
  {
    assert forall u | u in s.users :: UserTracked(s, u);
  }

  /** A step in which no call fails keeps the books complete, unless it is an Ensure that rotates a
      key while the one rotated out before is still pending: that one drops out of them, live. */
  lemma QuietStepTracked(s: State, step: Step)
    requires Inv(s) && Tracked(s) && Possible(s, step) && Quiet(s, step)
    ensures Tracked(Next(s, step)) <==> !Overlaps(s, step)
  {
    hide Inv, Tracked, Ensure, Sweep, Revoke, WarmFromSecrets;
    match step
    case DoEnsure(scope, calls) => EnsureTracked(s, scope);
    case DoRevoke(h, calls) => RevokeTracked(s, h, calls);
    case DoSweep(listed, live, calls) => SweepTracked(s, listed, live, calls);
    case DoWarm(built) => WarmFromSecretsTracked(s, built);
    case _ => OtherTracked(s, step);
  }

  /** In a run without failures and without overlapping rotations, the live keys of every delegate
      are at all times exactly the current key and, if any, the one awaiting revocation. */
  lemma {:induction false} LiveKeysAreTheNamedKeys(run: seq<State>, steps: seq<Step>, i: nat)
    requires IsRun(run, steps) && i <= |steps|
    requires forall j | 0 <= j < i :: Quiet(run[j], steps[j]) && !Overlaps(run[j], steps[j])
    ensures Tracked(run[i])
  {
    hide Next, Quiet, Overlaps, Inv;
    if i > 0 {
      LiveKeysAreTheNamedKeys(run, steps, i - 1);
      RunKeepsInv(run, steps, i - 1);
      QuietStepTracked(run[i - 1], steps[i - 1]);
    }
  }

  /** A sweep past the grace that lists the Secret of a live scope ends its pending rotation, so
      that the next rotation does not overlap it. */
  lemma SweepEndsRotation(s: State, listed: seq<Secret>, live: set<ScopeHash>, calls: seq<RevokeCalls>, i: nat)
    requires Inv(s) && Tracked(s) && |calls| == |listed| && DistinctNames(listed) && Current(s, listed)
    requires i < |listed| && listed[i].name in live && AllDone(calls[i])
    requires listed[i].oldRevokeAt.Some? && listed[i].oldRevokeAt.value <= s.now
    requires forall j | 0 <= j < |calls| :: AllDone(calls[j])
    ensures var t := Sweep(s, listed, live, calls).0;
      listed[i].name in t.secrets && t.secrets[listed[i].name].oldKey == NONE
    decreases |listed|
  {
    hide Inv, Tracked, AllDone, SameAt, Sweeps;
    var h, n := listed[i].name, |listed| - 1;
    CurrentIsLogged(s, listed);
    SweepTracked(s, listed[..n], live, calls[..n]);
    SweepKeepsInv(s, listed[..n], live, calls[..n]);
    SweepElsewhere(s, listed[..n], live, calls[..n], listed[n].name);
    var t := Sweep(s, listed[..n], live, calls[..n]).0;
    SecretsSame(s, t, listed[n].name);
    SameNow(s, t, listed[n]);
    if i < n {
      SweepEndsRotation(s, listed[..n], live, calls[..n], i);
      SweepOneKeepsInv(t, listed[n], live, calls[n]);
      SecretsSame(t, SweepOne(t, listed[n], live, calls[n]).0, h);
    } else {
      FinishTracked(t, listed[n], calls[n]);
    }
  }

  lemma SameNow(s: State, t: State, q: Secret)
    requires Sweeps(s, t) && Logged(s, q)
    ensures t.now == s.now && Logged(t, q)
  {
  }
}
