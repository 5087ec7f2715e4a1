/** Machine users that are deleted behind the manager's back: which Ensure notices, which one hands out
    the delegate all the same, and which one cannot succeed before a restart. */
module DelegationHealing {
  import opened Base
  import opened ScopeMaps
  import opened DelegationSpec
  import opened DelegationInvariants
  import opened DelegationSafety
  import opened DelegationRuns

  /** The cache holds a delegate that was validated, and whose user is gone. */
  ghost predicate Vanished(s: State, h: ScopeHash) {
    h in s.cache && s.cache[h].validated && s.cache[h].user !in s.users
  }

  lemma RotateReturnsAlive(s: State, h: ScopeHash, calls: EnsureCalls)
    requires h in s.cache
    ensures var (t, r) := RotateIfDue(s, h, calls);
      r.Ok? ==>
        && (r.value.user in t.users <==> s.cache[h].user in s.users)
        && (Due(s, s.cache[h]) ==> r.value.user in t.users)
  {
  }

  lemma ValidateAlive(s: State, h: ScopeHash, calls: EnsureCalls)
    requires h in s.cache
    ensures var (t, e) := Validate(s, h, calls);
      && t.users == s.users && t.now == s.now && t.rotateAfter == s.rotateAfter
      && (e.None? && h in t.cache ==> t.cache[h] == s.cache[h].(validated := true))
      && (e.None? && h in t.cache ==> s.cache[h].validated || s.cache[h].user in s.users)
  {
  }

  lemma MintReturnsAlive(s: State, scope: Scope, calls: EnsureCalls)
    ensures var (t, r) := Mint(s, scope, calls);
      r.Ok? ==> r.value.user in t.users
  {
    hide Issue;
    var (t, u) := EnsureUser(s, scope.Hash(), calls);
    if u.Ok? {
      assert u.value in t.users;
      var (v, p) := EnsureProject(t, scope, calls);
      assert v.users == t.users;
      if p.Ok? {
        IssueReturnsAlive(v, scope, u.value, p.value, calls);
      }
    }
  }

  lemma IssueReturnsAlive(s: State, scope: Scope, user: Id, project: Id, calls: EnsureCalls)
    requires user in s.users
    ensures var (t, r) := Issue(s, scope, user, project, calls);
      r.Ok? ==> r.value.user in t.users
  {
  }

  lemma WarmOrMintReturnsAlive(s: State, scope: Scope, calls: EnsureCalls)
    ensures var (t, r) := WarmOrMint(s, scope, calls);
      r.Ok? ==> r.value.user in t.users
  {
    hide Mint, Validate, RotateIfDue;
    var h := scope.Hash();
    MintReturnsAlive(Warm(s, h, calls).0, scope, calls);
    if h in s.secrets {
      var w := s.(cache := s.cache[h := FromSecret(s.secrets[h])]);
      ValidateAlive(w, h, calls);
      var t := Validate(w, h, calls).0;
      if h in t.cache {
        RotateReturnsAlive(t, h, calls);
      }
    }
  }

  /** A successful Ensure returns a delegate whose user exists, unless it finds a vanished one whose key
      is not due for rotation: that one it returns. */
  lemma EnsureReturnsAlive(s: State, scope: Scope, calls: EnsureCalls)
    ensures var (t, r) := Ensure(s, scope, calls);
      var h := scope.Hash();
      r.Ok? ==> (r.value.user in t.users <==> !(Vanished(s, h) && !Due(s, s.cache[h])))
  {
    hide WarmOrMint, Validate, RotateIfDue;
    var h := scope.Hash();
    if h in s.cache {
      ValidateAlive(s, h, calls);
      if s.cache[h].validated {
        ValidatedStays(s, h, calls);
      }
      var t := Validate(s, h, calls).0;
      if h in t.cache {
        RotateReturnsAlive(t, h, calls);
      } else {
        WarmOrMintReturnsAlive(t, scope, calls);
      }
    } else {
      WarmOrMintReturnsAlive(s, scope, calls);
    }
  }

  lemma ValidatedStays(s: State, h: ScopeHash, calls: EnsureCalls)
    requires h in s.cache && s.cache[h].validated
    ensures Validate(s, h, calls) == (s, None)
  {
  }

  // ----- when nothing fails -----

  lemma RotateSucceeds(s: State, h: ScopeHash)
    requires Inv(s) && h in s.cache
    ensures RotateIfDue(s, h, ALL_FINE).1.Ok? <==> !(Due(s, s.cache[h]) && s.cache[h].user !in s.users)
  {
    hide Inv;
    if s.cache[h].user in s.users {
      CachedAndAlive(s, h);
    }
  }

  lemma ValidateSucceeds(s: State, h: ScopeHash)
    requires h in s.cache
    ensures Validate(s, h, ALL_FINE).1 == None
  {
  }

  lemma MintSucceeds(s: State, scope: Scope)
    requires scope.Hash() !in s.secrets
    ensures Mint(s, scope, ALL_FINE).1.Ok?
  {
    var (t, u) := EnsureUser(s, scope.Hash(), ALL_FINE);
    assert u.Ok? && t.secrets == s.secrets;
    var (v, p) := EnsureProject(t, scope, ALL_FINE);
    assert p.Ok? && v.secrets == s.secrets;
  }

  lemma WarmOrMintSucceeds(s: State, scope: Scope)
    requires Inv(s)
    ensures WarmOrMint(s, scope, ALL_FINE).1.Ok?
  {
    hide Inv, Mint, Validate, RotateIfDue;
    var h := scope.Hash();
    if h in s.secrets {
      WarmCaches(s, h);
      var w := s.(cache := s.cache[h := FromSecret(s.secrets[h])]);
      ValidateSucceeds(w, h);
      ValidateAlive(w, h, ALL_FINE);
      ValidateKeepsInv(w, h, ALL_FINE);
      var t := Validate(w, h, ALL_FINE).0;
      if h in t.cache {
        RotateSucceeds(t, h);
      } else {
        MintSucceeds(t, scope);
      }
    } else {
      MintSucceeds(s, scope);
    }
  }

  /** When no call fails, Ensure succeeds, unless it finds a vanished delegate whose key is due. */
  lemma EnsureSucceeds(s: State, scope: Scope)
    requires Inv(s)
    ensures var h := scope.Hash();
      Ensure(s, scope, ALL_FINE).1.Ok? <==> !(Vanished(s, h) && Due(s, s.cache[h]))
  {
    hide Inv, WarmOrMint, Validate, RotateIfDue;
    var h := scope.Hash();
    if h in s.cache {
      ValidateSucceeds(s, h);
      ValidateAlive(s, h, ALL_FINE);
      ValidateKeepsInv(s, h, ALL_FINE);
      var t := Validate(s, h, ALL_FINE).0;
      if h in t.cache {
        RotateSucceeds(t, h);
      } else {
        WarmOrMintSucceeds(t, scope);
      }
    } else {
      WarmOrMintSucceeds(s, scope);
    }
  }

  // ----- runs -----

  /** In every run, whichever calls failed: Ensure heals a deleted user if and only if the manager has not
      validated its delegate since the process started. A validated one is handed out until its key is
      due for rotation, and from then on Ensure cannot succeed. */
  lemma DeletionOutsideHealsUnlessValidated(run: seq<State>, steps: seq<Step>, i: nat)
    requires IsRun(run, steps) && i < |steps| && steps[i].DoEnsure?
    ensures var h := steps[i].scope.Hash();
      var (t, r) := Ensure(run[i], steps[i].scope, steps[i].ensureCalls);
      && t == run[i + 1]
      && (r.Ok? ==> (r.value.user in t.users <==> !Vanished(run[i], h)))
      && (steps[i].ensureCalls == ALL_FINE ==> (r.Ok? <==> !(Vanished(run[i], h) && Due(run[i], run[i].cache[h]))))
      && (Vanished(run[i], h) && Due(run[i], run[i].cache[h]) ==> r.Err?)
  {
    hide Inv, Ensure;
    RunKeepsInv(run, steps, i);
    EnsureReturnsAlive(run[i], steps[i].scope, steps[i].ensureCalls);
    EnsureSucceeds(run[i], steps[i].scope);
    if Vanished(run[i], steps[i].scope.Hash()) {
      VanishedDecides(run[i], steps[i].scope, steps[i].ensureCalls);
    }
  }

  /** What Ensure does about a vanished delegate, whatever its calls do and with or without a Secret:
      nothing, and it returns it as long as its key is not due. */
  lemma VanishedDecides(s: State, scope: Scope, calls: EnsureCalls)
    requires Vanished(s, scope.Hash())
    ensures var d := s.cache[scope.Hash()];
      Ensure(s, scope, calls) == (s, if Due(s, d) then Err(NotFound) else Ok(d))
  {
    hide WarmOrMint;
  }

  /** A restart heals it: the next Ensure in which no call fails returns a delegate whose user exists. */
  lemma RestartHeals(s: State, scope: Scope)
    requires Inv(s)
    ensures var (t, r) := Ensure(s.(cache := map[]), scope, ALL_FINE);
      r.Ok? && r.value.user in t.users
  {
    hide Inv, Ensure;
    var t := s.(cache := map[]);
    RestartKeepsInv(s);
    EnsureSucceeds(t, scope);
    EnsureReturnsAlive(t, scope, ALL_FINE);
  }

  /** For every scope: minted, its user deleted outside, and the next Ensure returns that user. */
  lemma DeletedUserIsHandedOut(scope: Scope)
    ensures var minted := Ensure(Init(2, 1, 0), scope, ALL_FINE).0;
      var t := DropUser(minted, 1);
      && 1 in minted.users && Vanished(t, scope.Hash()) && scope.Hash() in t.secrets
      && Ensure(t, scope, ALL_FINE) == (t, Ok(t.cache[scope.Hash()])) && t.cache[scope.Hash()].user == 1
  {
    hide Ensure;
    FirstMint(Init(2, 1, 0), scope);
    var minted := Ensure(Init(2, 1, 0), scope, ALL_FINE).0;
    VanishedDecides(DropUser(minted, 1), scope, ALL_FINE);
  }
}
