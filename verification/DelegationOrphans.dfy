/** Machine users without a Secret. Sweeps go by the Secrets, so they never reach these. */
module DelegationOrphans {
  import opened Base
  import opened ScopeMaps
  import opened DelegationSpec
  import opened DelegationInvariants
  import opened DelegationSafety
  import opened DelegationSweeping
  import opened DelegationRuns
  import opened DelegationTracking
  import opened DelegationHomes

  /** The scope hash of the user has no Secret. */
  ghost predicate Orphan(s: State, u: Id) {
    u in s.users && s.users[u].name !in s.secrets
  }

  // ----- what Ensure does to other scopes -----

  /** Users and Secrets of other hashes stay, and new users carry hash `h`. */
  ghost predicate WorksFor(h: ScopeHash, s: State, t: State) {
    && (forall g | g != h :: g in t.secrets <==> g in s.secrets)
    && s.users.Keys <= t.users.Keys
    && (forall u | u in t.users :: t.users[u].name == if u in s.users then s.users[u].name else h)
  }

  lemma WorksForTransitive(h: ScopeHash, s: State, t: State, v: State)
    requires WorksFor(h, s, t) && WorksFor(h, t, v)
    ensures WorksFor(h, s, v)
  {
  }

  lemma RotateWorksFor(s: State, h: ScopeHash, calls: EnsureCalls)
    requires Inv(s) && h in s.cache
    ensures WorksFor(h, s, RotateIfDue(s, h, calls).0)
  {
    hide Inv;
    if s.cache[h].user in s.users {
      CachedAndAlive(s, h);
    }
  }

  lemma ValidateWorksFor(s: State, h: ScopeHash, calls: EnsureCalls)
    requires h in s.cache
    ensures WorksFor(h, s, Validate(s, h, calls).0)
  {
  }

  lemma WarmWorksFor(s: State, h: ScopeHash, calls: EnsureCalls)
    requires Inv(s)
    ensures WorksFor(h, s, Warm(s, h, calls).0)
  {
    hide Inv, Validate, RotateIfDue;
    if h in s.secrets {
      WarmCaches(s, h);
      var w := s.(cache := s.cache[h := FromSecret(s.secrets[h])]);
      ValidateKeepsInv(w, h, calls);
      ValidateWorksFor(w, h, calls);
      var t := Validate(w, h, calls).0;
      if h in t.cache && Validate(w, h, calls).1.None? {
        RotateWorksFor(t, h, calls);
        WorksForTransitive(h, w, t, RotateIfDue(t, h, calls).0);
      }
    }
  }

  lemma IssueWorksFor(s: State, scope: Scope, user: Id, project: Id, calls: EnsureCalls)
    requires user in s.users
    ensures WorksFor(scope.Hash(), s, Issue(s, scope, user, project, calls).0)
  {
  }

  lemma UserWorksFor(s: State, h: ScopeHash, calls: EnsureCalls)
    requires Inv(s)
    ensures var (t, u) := EnsureUser(s, h, calls);
      WorksFor(h, s, t) && (u.Ok? ==> u.value in t.users)
  {
    hide Inv;
    FreshId(s);
  }

  lemma ProjectWorksFor(s: State, scope: Scope, calls: EnsureCalls)
    ensures var t := EnsureProject(s, scope, calls).0;
      WorksFor(scope.Hash(), s, t) && t.users == s.users
  {
  }

  lemma MintWorksFor(s: State, scope: Scope, calls: EnsureCalls)
    requires Inv(s)
    ensures WorksFor(scope.Hash(), s, Mint(s, scope, calls).0)
  {
    hide Inv, Issue, EnsureUser, EnsureProject, WorksFor;
    var h := scope.Hash();
    UserWorksFor(s, h, calls);
    var (t, u) := EnsureUser(s, h, calls);
    if u.Ok? {
      ProjectWorksFor(t, scope, calls);
      var (v, p) := EnsureProject(t, scope, calls);
      WorksForTransitive(h, s, t, v);
      if p.Ok? {
        IssueWorksFor(v, scope, u.value, p.value, calls);
        WorksForTransitive(h, s, v, Issue(v, scope, u.value, p.value, calls).0);
      }
    }
  }

  lemma WarmOrMintWorksFor(s: State, scope: Scope, calls: EnsureCalls)
    requires Inv(s)
    ensures WorksFor(scope.Hash(), s, WarmOrMint(s, scope, calls).0)
  {
    hide Inv, Warm, Mint, WorksFor;
    var h := scope.Hash();
    WarmKeepsInv(s, h, calls);
    WarmWorksFor(s, h, calls);
    var (t, r) := Warm(s, h, calls);
    if r == Ok(None) {
      MintWorksFor(t, scope, calls);
      WorksForTransitive(h, s, t, Mint(t, scope, calls).0);
    }
  }

  lemma EnsureWorksFor(s: State, scope: Scope, calls: EnsureCalls)
    requires Inv(s)
    ensures WorksFor(scope.Hash(), s, Ensure(s, scope, calls).0)
  {
    hide Inv, WarmOrMint, Validate, RotateIfDue, WorksFor;
    var h := scope.Hash();
    if h in s.cache {
      ValidateKeepsInv(s, h, calls);
      ValidateWorksFor(s, h, calls);
      var (t, e) := Validate(s, h, calls);
      if e.None? && h in t.cache {
        RotateWorksFor(t, h, calls);
        WorksForTransitive(h, s, t, RotateIfDue(t, h, calls).0);
      } else if e.None? {
        WarmOrMintWorksFor(t, scope, calls);
        WorksForTransitive(h, s, t, WarmOrMint(t, scope, calls).0);
      }
    } else {
      WarmOrMintWorksFor(s, scope, calls);
    }
  }

  // ----- where orphans come from -----

  lemma EnsureOrphans(s: State, scope: Scope, calls: EnsureCalls, u: Id)
    requires Inv(s) && Orphan(Ensure(s, scope, calls).0, u)
    ensures Orphan(s, u)
         || (Ensure(s, scope, calls).1.Err? && Ensure(s, scope, calls).0.users[u].name == scope.Hash())
  {
    hide Inv, Ensure;
    EnsureWorksFor(s, scope, calls);
    EnsureAgrees(s, scope, calls);
    if Stranded(s, scope.Hash()) {
      StrandedIsReturned(s, scope, calls);
    }
  }

  lemma RevokeOrphans(s: State, h: ScopeHash, calls: RevokeCalls, u: Id)
    requires Inv(s) && Homed(s)
    ensures Orphan(Revoke(s, h, calls).0, u) <==> Orphan(s, u)
  {
    hide Inv;
    RevokedUserOwns(s, h);
    if h !in s.secrets && h in s.cache {
      CachedAndStored(s, h);
    }
  }

  lemma FinishOrphans(s: State, q: Secret, calls: RevokeCalls, u: Id)
    ensures Orphan(FinishRotation(s, q, calls).0, u) <==> Orphan(s, u)
  {
  }

  /** Whichever calls fail, a sweep neither makes an orphan nor removes one. */
  lemma {:induction false} SweepOrphans(
    s: State, listed: seq<Secret>, live: set<ScopeHash>, calls: seq<RevokeCalls>, u: Id)
    requires Inv(s) && Homed(s) && |calls| == |listed| && AllLogged(s, listed)
    ensures Orphan(Sweep(s, listed, live, calls).0, u) <==> Orphan(s, u)
  {
    hide Inv, Homed, Orphan, Revoke, FinishRotation, Sweeps;
    if listed != [] {
      var n := |listed| - 1;
      SweepOrphans(s, listed[..n], live, calls[..n], u);
      SweepKeepsInv(s, listed[..n], live, calls[..n]);
      SweepKeepsHomed(s, listed[..n], live, calls[..n]);
      var t := Sweep(s, listed[..n], live, calls[..n]).0;
      FinishOrphans(t, listed[n], calls[n], u);
      RevokeOrphans(t, listed[n].name, calls[n], u);
    }
  }

  /** Only an Ensure that fails leaves an orphan, of its own scope. */
  lemma OnlyFailingEnsuresOrphan(s: State, step: Step, u: Id)
    requires Inv(s) && Homed(s) && Possible(s, step) && Orphan(Next(s, step), u)
    ensures Orphan(s, u)
         || (step.DoEnsure? && Ensure(s, step.scope, step.ensureCalls).1.Err?
             && Next(s, step).users[u].name == step.scope.Hash())
  {
    hide Inv, Homed, Ensure, Revoke, Sweep;
    match step
    case DoEnsure(scope, calls) => EnsureOrphans(s, scope, calls, u);
    case DoRevoke(h, calls) => RevokeOrphans(s, h, calls, u);
    case DoSweep(listed, live, calls) => SweepOrphans(s, listed, live, calls, u);
    case _ =>
  }

  /** An orphan stays one, whatever is revoked or swept, until it is deleted outside or the Ensure of its
      own scope writes a Secret. */
  lemma OrphansStay(s: State, step: Step, u: Id)
    requires Inv(s) && Homed(s) && Possible(s, step) && Orphan(s, u)
    requires step != UserDeletedOutside(u)
    requires step.DoEnsure? ==> step.scope.Hash() != s.users[u].name
    ensures Orphan(Next(s, step), u)
  {
    hide Inv, Homed, Ensure, Revoke, Sweep;
    match step
    case DoEnsure(scope, calls) => EnsureWorksFor(s, scope, calls);
    case DoRevoke(h, calls) => RevokeOrphans(s, h, calls, u);
    case DoSweep(listed, live, calls) => SweepOrphans(s, listed, live, calls, u);
    case _ =>
  }

  /** In a run in which no Ensure fails, every machine user has its Secret at all times. */
  lemma {:induction false} NoOrphansUnlessEnsureFails(run: seq<State>, steps: seq<Step>, i: nat, u: Id)
    requires IsRun(run, steps) && i <= |steps| && u in run[i].users
    requires forall j | 0 <= j < i && steps[j].DoEnsure? :: Ensure(run[j], steps[j].scope, steps[j].ensureCalls).1.Ok?
    ensures run[i].users[u].name in run[i].secrets
  {
    hide Inv, Homed, Next, Ensure;
    if i > 0 && Orphan(run[i], u) {
      RunKeepsHomed(run, steps, i - 1);
      OnlyFailingEnsuresOrphan(run[i - 1], steps[i - 1], u);
      NoOrphansUnlessEnsureFails(run, steps, i - 1, u);
    }
  }

  // ----- what a sweep leaves -----

  /** The listing shows every Secret as it is. */
  ghost predicate Complete(s: State, listed: seq<Secret>) {
    DistinctNames(listed) && Current(s, listed) && forall h | h in s.secrets :: Listed(listed, h)
  }

  ghost predicate AllFine(calls: seq<RevokeCalls>) {
    forall i | 0 <= i < |calls| :: AllDone(calls[i])
  }

  lemma SweepLeavesHash(
    s: State, listed: seq<Secret>, live: set<ScopeHash>, calls: seq<RevokeCalls>, h: ScopeHash)
    requires Inv(s) && |calls| == |listed| && Complete(s, listed) && AllFine(calls)
    ensures var t := Sweep(s, listed, live, calls).0;
      && (h !in s.secrets ==> SameAt(s, t, h))
      && (h in s.secrets && h in live ==>
            SameDelegate(s, t, h) && (s.secrets[h].user in s.users ==> s.secrets[h].user in t.users))
      && (h in s.secrets && h !in live ==> FullyGone(s, t, h))
  {
    hide Inv, Sweep, SameAt, SameDelegate, FullyGone, AllDone;
    CurrentIsLogged(s, listed);
    if h in s.secrets {
      var i :| 0 <= i < |listed| && listed[i].name == h;
      SweepDecides(s, listed, live, calls, i);
    } else {
      SweepElsewhere(s, listed, live, calls, h);
    }
  }

  /** A sweep of all Secrets in which no call fails: of the machine users exactly those remain whose scope
      is live or has no Secret, of the Secrets exactly those of live scopes, and the cache forgets
      exactly the scopes whose Secret goes. */
  lemma SweepLeavesExactly(
    s: State, listed: seq<Secret>, live: set<ScopeHash>, calls: seq<RevokeCalls>, u: Id, h: ScopeHash)
    requires Inv(s) && Homed(s) && |calls| == |listed| && Complete(s, listed) && AllFine(calls)
    ensures var t := Sweep(s, listed, live, calls).0;
      && (u in t.users <==> u in s.users && (s.users[u].name in live || Orphan(s, u)))
      && (h in t.secrets <==> h in s.secrets && h in live)
      && (h !in live && h in s.secrets ==> h !in t.cache)
      && (h !in s.secrets ==> (h in t.cache <==> h in s.cache))
  {
    hide Inv, Sweep;
    SweepLeavesHash(s, listed, live, calls, h);
    CurrentIsLogged(s, listed);
    SweepKeepsInv(s, listed, live, calls);
    FewerUsers(s, Sweep(s, listed, live, calls).0);
    if u in s.users {
      SweepLeavesHash(s, listed, live, calls, s.users[u].name);
      assert s.users[u].name in s.secrets ==> s.secrets[s.users[u].name].user == u;
      assert Named(s, u, s.users[u].name);
    }
  }

  /** In a run in which no Ensure fails, such a sweep leaves exactly the machine users of live scopes. */
  lemma SweepLeavesExactlyTheLive(run: seq<State>, steps: seq<Step>, i: nat, u: Id)
    requires IsRun(run, steps) && i < |steps| && steps[i].DoSweep?
    requires Complete(run[i], steps[i].listed) && AllFine(steps[i].sweepCalls)
    requires forall j | 0 <= j < i && steps[j].DoEnsure? :: Ensure(run[j], steps[j].scope, steps[j].ensureCalls).1.Ok?
    ensures u in run[i + 1].users <==> u in run[i].users && run[i].users[u].name in steps[i].live
  {
    hide Inv, Homed, Ensure, Sweep, Complete, AllFine;
    RunKeepsHomed(run, steps, i);
    if u in run[i].users {
      NoOrphansUnlessEnsureFails(run, steps, i, u);
      SweepLeavesExactly(run[i], steps[i].listed, steps[i].live, steps[i].sweepCalls, u, run[i].users[u].name);
    } else {
      SweepLeavesExactly(
        run[i], steps[i].listed, steps[i].live, steps[i].sweepCalls, u, ScopeHash("", NONE, "", NONE));
    }
  }

  /** For every scope: an Ensure whose Secret is not created leaves a user with a key and a membership
      that every possible sweep and every Revoke leaves alone. */
  lemma FailedMintOutlivesSweeps(scope: Scope)
    ensures var s := Ensure(Init(2, 1, 0), scope, ALL_FINE.(createSecret := Lost)).0;
      && s.users.Keys == {1} && s.users[1].name == scope.Hash() && s.users[1].keys != {} && s.users[1].memberOf != {}
      && s.secrets == map[] && s.cache == map[]
      && (forall step: Step | step.DoSweep? && Possible(s, step) :: Next(s, step) == s)
      && (forall h, calls :: Revoke(s, h, calls).0 == s)
  {
    var h, s := scope.Hash(), Init(2, 1, 0);
    var calls := ALL_FINE.(createSecret := Lost);
    assert Warm(s, h, calls) == (s, Ok(None));
    assert !exists u :: Named(s, u, h);
    var t := AddUser(s, h);
    assert EnsureUser(s, h, calls) == (t, Ok(1));
    var (v, p) := EnsureProject(t, scope, calls);
    assert p.Ok? && v.users == t.users && v.cache == map[] && v.secrets == map[] && v.log == [];
    var w := Issue(v, scope, 1, p.value, calls).0;
    assert w == Ensure(s, scope, calls).0;
    assert p.value in w.users[1].memberOf && v.nextId in w.users[1].keys;
    forall step: Step | step.DoSweep? && Possible(w, step) ensures Next(w, step) == w {
      assert step.listed != [] ==> Logged(w, step.listed[0]);
    }
  }
}
