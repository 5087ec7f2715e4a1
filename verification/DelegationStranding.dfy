/** When a cached delegate loses its Secret: only a Secret deletion that times out after taking
    effect leaves one behind. */
module DelegationStranding {
  import opened Base
  import opened ScopeMaps
  import opened DelegationSpec
  import opened DelegationSafety
  import opened DelegationSweeping
  import opened DelegationRuns

  /** Every cached delegate is backed by a Secret. */
  ghost predicate Backed(s: State) {
    s.cache.Keys <= s.secrets.Keys
  }

  /** The step deletes a Secret, for all the caller can tell, without success, but it is gone. */
  ghost predicate DeletionTimesOut(step: Step) {
    match step
    case DoRevoke(_, calls) => calls.dropSecret == Applied
    case DoSweep(_, _, calls) => exists i :: 0 <= i < |calls| && calls[i].dropSecret == Applied
    case _ => false
  }

  lemma IssueKeepsBacked(s: State, scope: Scope, user: Id, project: Id, calls: EnsureCalls)
    requires Backed(s) && user in s.users
    ensures Backed(Issue(s, scope, user, project, calls).0)
  {
  }

  lemma MintKeepsBacked(s: State, scope: Scope, calls: EnsureCalls)
    requires Backed(s)
    ensures Backed(Mint(s, scope, calls).0)
  {
    hide Issue;
    var (t, u) := EnsureUser(s, scope.Hash(), calls);
    assert t.cache == s.cache && t.secrets == s.secrets;
    if u.Ok? {
      var (v, p) := EnsureProject(t, scope, calls);
      assert v.cache == s.cache && v.secrets == s.secrets;
      if p.Ok? {
        IssueKeepsBacked(v, scope, u.value, p.value, calls);
      }
    }
  }

  lemma ValidateKeepsBacked(s: State, h: ScopeHash, calls: EnsureCalls)
    requires Backed(s) && h in s.cache
    ensures Backed(Validate(s, h, calls).0)
  {
  }

  lemma RotateKeepsBacked(s: State, h: ScopeHash, calls: EnsureCalls)
    requires Backed(s) && h in s.cache
    ensures Backed(RotateIfDue(s, h, calls).0)
  {
  }

  lemma WarmKeepsBacked(s: State, h: ScopeHash, calls: EnsureCalls)
    requires Backed(s)
    ensures Backed(Warm(s, h, calls).0)
  {
    hide Validate, RotateIfDue;
    if h in s.secrets {
      var w := s.(cache := s.cache[h := FromSecret(s.secrets[h])]);
      ValidateKeepsBacked(w, h, calls);
      var t := Validate(w, h, calls).0;
      if h in t.cache {
        RotateKeepsBacked(t, h, calls);
      }
    }
  }

  lemma EnsureKeepsBacked(s: State, scope: Scope, calls: EnsureCalls)
    requires Backed(s)
    ensures Backed(Ensure(s, scope, calls).0)
  {
    hide Mint, Validate, RotateIfDue, Warm;
    var h := scope.Hash();
    if h in s.cache {
      ValidateKeepsBacked(s, h, calls);
    }
    var t := if h in s.cache then Validate(s, h, calls).0 else s;
    if h in t.cache {
      RotateKeepsBacked(t, h, calls);
    } else {
      WarmKeepsBacked(t, h, calls);
      MintKeepsBacked(Warm(t, h, calls).0, scope, calls);
    }
  }

  lemma RevokeKeepsBacked(s: State, h: ScopeHash, calls: RevokeCalls)
    requires Backed(s) && calls.dropSecret != Applied
    ensures Backed(Revoke(s, h, calls).0)
  {
  }

  lemma {:induction false} SweepKeepsBacked(
    s: State, listed: seq<Secret>, live: set<ScopeHash>, calls: seq<RevokeCalls>)
    requires Backed(s) && |calls| == |listed|
    requires forall i | 0 <= i < |calls| :: calls[i].dropSecret != Applied
    ensures Backed(Sweep(s, listed, live, calls).0)
  {
    if listed != [] {
      var n := |listed| - 1;
      SweepKeepsBacked(s, listed[..n], live, calls[..n]);
      var t := Sweep(s, listed[..n], live, calls[..n]).0;
      RevokeKeepsBacked(t, listed[n].name, calls[n]);
    }
  }

  lemma {:induction false} RunKeepsBacked(run: seq<State>, steps: seq<Step>, i: nat)
    requires IsRun(run, steps) && i <= |steps|
    requires forall j | 0 <= j < i :: !DeletionTimesOut(steps[j])
    ensures Backed(run[i])
  {
    hide Ensure, Revoke, Sweep;
    if i > 0 {
      RunKeepsBacked(run, steps, i - 1);
      var s := run[i - 1];
      match steps[i - 1]
      case DoEnsure(scope, calls) => EnsureKeepsBacked(s, scope, calls);
      case DoRevoke(h, calls) => RevokeKeepsBacked(s, h, calls);
      case DoSweep(listed, live, calls) => SweepKeepsBacked(s, listed, live, calls);
      case _ =>
    }
  }

  /** As long as no deletion of a Secret times out after taking effect, and whatever else fails,
      every successful Ensure returns the delegate of the Secret it leaves behind. */
  lemma EnsureAgreesUnlessADeletionTimedOut(run: seq<State>, steps: seq<Step>, i: nat)
    requires IsRun(run, steps) && i < |steps| && steps[i].DoEnsure?
    requires forall j | 0 <= j < i :: !DeletionTimesOut(steps[j])
    ensures var (t, r) := Ensure(run[i], steps[i].scope, steps[i].ensureCalls);
      r.Ok? ==> Serves(t, steps[i].scope.Hash(), r.value)
  {
    hide Ensure;
    RunKeepsBacked(run, steps, i);
    EveryEnsureAgreesWithItsSecret(run, steps, i);
  }

  const DELETION_TIMES_OUT: RevokeCalls := RevokeCalls(true, Done, Applied, Done, Done)

  /** For every scope: mint its delegate, then revoke it with a deletion that times out. The next
      Ensure succeeds with a delegate that has neither a Secret nor a user, and no sweep ever visits
      the entry again, since it is not listed. */
  lemma RevokedDelegateComesBack(scope: Scope)
    ensures var minted := Ensure(Init(2, 1, 0), scope, ALL_FINE).0;
      var revoked := Revoke(minted, scope.Hash(), DELETION_TIMES_OUT).0;
      var (t, r) := Ensure(revoked, scope, ALL_FINE);
      && Stranded(revoked, scope.Hash())
      && t == revoked && r.Ok? && t.secrets == map[] && r.value.user !in t.users
  {
    hide Ensure;
    var s := Init(2, 1, 0);
    FirstMint(s, scope);
    var minted := Ensure(s, scope, ALL_FINE).0;
    var revoked := Revoke(minted, scope.Hash(), DELETION_TIMES_OUT).0;
    assert revoked.users == map[] && revoked.secrets == map[] && revoked.cache == minted.cache;
    InitInv(2, 1, 0);
    EnsureAgrees(s, scope, ALL_FINE);
    RevokeKeepsInv(minted, scope.Hash(), DELETION_TIMES_OUT);
    StrandedIsReturned(revoked, scope, ALL_FINE);
  }
}
