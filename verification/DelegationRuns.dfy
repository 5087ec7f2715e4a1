/** The delegation manager over whole runs. */
module DelegationRuns {
  import opened Base
  import opened ScopeMaps
  import opened DelegationSpec
  import opened DelegationInvariants
  import opened DelegationSafety
  import opened DelegationSweeping

  // ----- one step -----

  lemma InitInv(rotateAfter: Time, grace: Time, now: Time)
    requires 0 < rotateAfter && 0 < grace
    ensures Inv(Init(rotateAfter, grace, now))
  {
  }

  lemma WarmFromSecretsKeepsInv(s: State, built: set<ScopeHash>)
    requires Inv(s)
    ensures Inv(WarmFromSecrets(s, built)) && Grows(s, WarmFromSecrets(s, built))
  {
    var t := WarmFromSecrets(s, built);
    forall h | h in t.cache
      ensures CachedAt(t, h) && 0 < t.cache[h].user < t.nextId && 0 < t.cache[h].key < t.nextId
      ensures Owned(t.users, t.cache[h].user, h)
    {
      if h in s.secrets && h in built {
        assert s.log[s.secrets[h].version].secret == s.secrets[h];
      } else {
        assert CachedAt(s, h);
      }
    }
  }

  /** The warm start caches, unvalidated, what the Secrets say whose clients can be built, and leaves the
      other entries and everything else alone. */
  lemma WarmStartServes(s: State, built: set<ScopeHash>, h: ScopeHash)
    requires Inv(s)
    ensures var t := WarmFromSecrets(s, built);
      && t.secrets == s.secrets && t.users == s.users && t.log == s.log
      && (h in s.secrets && h in built ==>
            && h in t.cache && Serves(t, h, t.cache[h]) && !t.cache[h].validated
            && t.cache[h].org == s.secrets[h].org && t.cache[h].created == s.secrets[h].created)
      && (h !in s.secrets || h !in built ==>
            (h in t.cache <==> h in s.cache) && (h in s.cache ==> t.cache[h] == s.cache[h]))
  {
  }

  lemma GrowsLosesNothing(s: State, t: State)
    requires Grows(s, t)
    ensures Follows(s, t) && LosesOnlyRetired(s, t)
  {
  }

  lemma SweepsFollows(s: State, t: State)
    requires Sweeps(s, t)
    ensures Follows(s, t) && LosesOnlyRetired(s, t)
  {
  }

  lemma RestartKeepsInv(s: State)
    requires Inv(s)
    ensures Inv(s.(cache := map[])) && Grows(s, s.(cache := map[]))
  {
  }

  lemma TickGrows(s: State, elapsed: nat)
    ensures Grows(s, s.(now := s.now + elapsed))
  {
  }

  /** Every step keeps the invariant, forgets no Secret before its user, and takes no key from a
      surviving user before its time. */
  lemma NextIsSafe(s: State, step: Step)
    requires Inv(s) && Possible(s, step)
    ensures Inv(Next(s, step)) && Follows(s, Next(s, step)) && LosesOnlyRetired(s, Next(s, step))
  {
    hide Inv, Grows, Sweeps, Follows, LosesOnlyRetired, Ensure, Revoke, Sweep, WarmFromSecrets;
    match step
    case DoEnsure(scope, calls) =>
      EnsureAgrees(s, scope, calls);
      GrowsLosesNothing(s, Next(s, step));
    case DoRevoke(h, calls) =>
      RevokeKeepsInv(s, h, calls);
      SweepsFollows(s, Next(s, step));
    case DoSweep(listed, live, calls) =>
      SweepKeepsInv(s, listed, live, calls);
      SweepsFollows(s, Next(s, step));
    case DoWarm(built) =>
      WarmFromSecretsKeepsInv(s, built);
      GrowsLosesNothing(s, Next(s, step));
    case Restart =>
      RestartKeepsInv(s);
      GrowsLosesNothing(s, Next(s, step));
    case Tick(elapsed) =>
      TickKeepsInv(s, elapsed);
      TickGrows(s, elapsed);
      GrowsLosesNothing(s, Next(s, step));
    case UserDeletedOutside(u) =>
      DropUserSweeps(s, u);
      SweepsFollows(s, Next(s, step));
  }

  // ----- whole runs -----

  lemma {:induction false} RunKeepsInv(run: seq<State>, steps: seq<Step>, i: nat)
    requires IsRun(run, steps) && i <= |steps|
    ensures Inv(run[i])
  {
    hide Inv, Next;
    if i == 0 {
      InitInv(run[0].rotateAfter, run[0].grace, run[0].now);
    } else {
      RunKeepsInv(run, steps, i - 1);
      NextIsSafe(run[i - 1], steps[i - 1]);
    }
  }

  lemma FollowsReflexive(s: State)
    ensures Follows(s, s)
  {
  }

  lemma {:induction false} RunFollows(run: seq<State>, steps: seq<Step>, i: nat, j: nat)
    requires IsRun(run, steps) && i <= j <= |steps|
    ensures Follows(run[i], run[j])
  {
    hide Inv, Next, Follows;
    RunKeepsInv(run, steps, i);
    if i == j {
      FollowsReflexive(run[i]);
    } else {
      RunFollows(run, steps, i, j - 1);
      RunKeepsInv(run, steps, j - 1);
      NextIsSafe(run[j - 1], steps[j - 1]);
      FollowsTransitive(run[i], run[j - 1], run[j]);
    }
  }

  /** Whatever happened before, a successful Ensure returns a delegate whose user, project and key
      are those of the Secret at that moment, exactly when it does not find a stranded one; and the
      user it acts as was created for this scope and no other. */
  lemma EveryEnsureAgreesWithItsSecret(run: seq<State>, steps: seq<Step>, i: nat)
    requires IsRun(run, steps) && i < |steps| && steps[i].DoEnsure?
    ensures var scope := steps[i].scope;
      var (t, r) := Ensure(run[i], scope, steps[i].ensureCalls);
      t == run[i + 1]
      && (r.Ok? ==>
          && (Serves(t, scope.Hash(), r.value) <==> !Stranded(run[i], scope.Hash()))
          && Owned(t.users, r.value.user, scope.Hash()))
  {
    hide Ensure, Inv;
    var scope := steps[i].scope;
    RunKeepsInv(run, steps, i);
    RunKeepsInv(run, steps, i + 1);
    EnsureAgrees(run[i], scope, steps[i].ensureCalls);
    var (t, r) := Ensure(run[i], scope, steps[i].ensureCalls);
    if r.Ok? && Serves(t, scope.Hash(), r.value) {
      StoredOwner(t, scope.Hash());
    } else if r.Ok? {
      StrandedIsReturned(run[i], scope, steps[i].ensureCalls);
    }
  }

  /** What Ensure does with a stranded delegate: it returns it, and its user is gone. */
  lemma StrandedIsReturned(s: State, scope: Scope, calls: EnsureCalls)
    requires Inv(s) && Stranded(s, scope.Hash())
    ensures Ensure(s, scope, calls) == (s, Ok(s.cache[scope.Hash()]))
    ensures s.cache[scope.Hash()].user !in s.users
  {
    assert CachedAt(s, scope.Hash());
  }

  /** A delegation Secret goes only after the machine user it names, and that user stays gone. */
  lemma SecretsGoLast(run: seq<State>, steps: seq<Step>, i: nat, j: nat, h: ScopeHash)
    requires IsRun(run, steps) && i <= j <= |steps| && h in run[i].secrets
    requires h in run[j].secrets ==> run[j].secrets[h].user != run[i].secrets[h].user
    ensures run[i].secrets[h].user !in run[j].users
  {
    hide Inv, Next;
    RunFollows(run, steps, i, j);
  }

  /** No two machine users carry the same scope hash, in any state of any run. */
  lemma OneDelegateUserPerScope(run: seq<State>, steps: seq<Step>, i: nat, u: Id, v: Id)
    requires IsRun(run, steps) && i <= |steps|
    requires u in run[i].users && v in run[i].users && run[i].users[u].name == run[i].users[v].name
    ensures u == v
  {
    RunKeepsInv(run, steps, i);
  }

  lemma MarkedIsNotNamed(s: State, i: nat)
    requires Inv(s) && i < |s.log| && s.log[i].secret.oldKey != NONE
    ensures s.log[i].secret.oldKey != s.log[i].secret.key
  {
  }

  /** A key that a surviving user loses was marked by an earlier write of its Secret, and goes no earlier
      than the second in which the grace since that write ends; so it keeps its full grace if that ends
      on a full second. */
  lemma KeysSurviveTheirGrace(run: seq<State>, steps: seq<Step>, i: nat, u: Id, k: Id)
    requires IsRun(run, steps) && i < |steps|
    requires u in run[i].users && k in run[i].users[u].keys
    requires u in run[i + 1].users && k !in run[i + 1].users[u].keys
    ensures exists w | w in run[i + 1].log ::
      && w.secret.user == u && w.secret.oldKey == k && w.secret.key != k
      && Truncate(w.at + run[i + 1].grace) <= run[i + 1].now
      && ((w.at + run[i + 1].grace) % SECOND == 0 ==> w.at + run[i + 1].grace <= run[i + 1].now)
  {
    hide Next, Inv;
    RunKeepsInv(run, steps, i);
    RunKeepsInv(run, steps, i + 1);
    NextIsSafe(run[i], steps[i]);
    assert Retired(run[i + 1], u, k);
    var n :| RetiredBy(run[i + 1], u, k, n);
    assert run[i + 1].log[n].secret.key != k by {
      MarkedIsNotNamed(run[i + 1], n);
    }
    assert run[i + 1].log[n] in run[i + 1].log;
  }

  // ----- the fraction of a second -----

  /** `h` has a pending rotation: its Secret was written at `at` and marks a key that its user holds. */
  ghost predicate PendingSince(s: State, h: ScopeHash, at: Time) {
    && h in s.secrets && s.secrets[h].oldKey != NONE
    && s.secrets[h].version < |s.log| && s.log[s.secrets[h].version].at == at
    && s.secrets[h].user in s.users && s.secrets[h].oldKey in s.users[s.secrets[h].user].keys
  }

  /** The pending key of `h` is gone after the sweep reaches its Secret at time `now`. */
  ghost predicate GoneAt(s: State, h: ScopeHash, now: Time, calls: RevokeCalls)
    requires h in s.secrets && s.secrets[h].user in s.users
  {
    var q := s.secrets[h];
    var t := FinishRotation(s.(now := now), q, calls).0;
    q.user !in t.users || q.oldKey !in t.users[q.user].keys
  }

  /** A sweep takes the pending key if and only if the second in which its grace ends has begun. */
  lemma SweptFromItsSecondOn(s: State, h: ScopeHash, at: Time, now: Time, calls: RevokeCalls)
    requires Inv(s) && PendingSince(s, h, at) && calls.removeKey != Lost
    ensures GoneAt(s, h, now, calls) <==> Truncate(at + s.grace) <= now
  {
    assert s.log[s.secrets[h].version].secret == s.secrets[h];
  }

  /** The pending key keeps its full grace, whenever the sweep comes, if and only if the grace ends on a
      full second. */
  lemma FullGraceIffItEndsOnASecond(s: State, h: ScopeHash, at: Time, calls: RevokeCalls)
    requires Inv(s) && PendingSince(s, h, at) && calls.removeKey != Lost
    ensures (forall now | at <= now && GoneAt(s, h, now, calls) :: at + s.grace <= now) <==>
      (at + s.grace) % SECOND == 0
  {
    hide GoneAt;
    var end := at + s.grace;
    forall now ensures GoneAt(s, h, now, calls) <==> Truncate(end) <= now {
      SweptFromItsSecondOn(s, h, at, now, calls);
    }
    assert 0 < s.grace;
    if end % SECOND != 0 {
      var now := if Truncate(end) < at then at else Truncate(end);
      assert GoneAt(s, h, now, calls) && now < end;
    }
  }

  /** For every scope: minted at 0 s, rotated at 0.5 s with a grace of one second, swept at 1 s. */
  lemma GraceCutShort(scope: Scope)
    ensures var half, h := SECOND / 2, scope.Hash();
      var minted := Ensure(Init(half, SECOND, 0), scope, ALL_FINE).0;
      var rotated := Ensure(minted.(now := half), scope, ALL_FINE).0;
      && PendingSince(rotated, h, half) && rotated.grace == SECOND
      && GoneAt(rotated, h, SECOND, RevokeCalls(true, Done, Done, Done, Done)) && SECOND < half + SECOND
  {
    var half, h, s := SECOND / 2, scope.Hash(), Init(SECOND / 2, SECOND, 0);
    FirstMint(s, scope);
    var minted := Ensure(s, scope, ALL_FINE).0;
    var rotated := Ensure(minted.(now := half), scope, ALL_FINE).0;
    assert rotated == RotateIfDue(minted.(now := half), h, ALL_FINE).0;
    assert rotated.secrets[h].oldKey == minted.secrets[h].key != NONE;
  }

  /** The first Ensure in an empty world, when no call fails. */
  lemma FirstMint(s: State, scope: Scope)
    requires s == Init(s.rotateAfter, s.grace, s.now)
    ensures var (t, r) := Ensure(s, scope, ALL_FINE);
      var h := scope.Hash();
      && r.Ok? && t.now == s.now && t.rotateAfter == s.rotateAfter && t.grace == s.grace
      && t.cache == map[h := r.value] && r.value.user == 1 && r.value.validated && r.value.created == Some(s.now)
      && t.secrets.Keys == {h} && t.secrets[h].user == 1 && t.secrets[h].key == r.value.key != NONE
      && t.secrets[h].version == 0 && |t.log| == 1 && t.users.Keys == {1} && t.users[1].keys == {r.value.key}
      && r.value.key < t.nextId
  {
    var h := scope.Hash();
    assert Warm(s, h, ALL_FINE) == (s, Ok(None));
    assert !exists u :: Named(s, u, h);
    var t := AddUser(s, h);
    assert EnsureUser(s, h, ALL_FINE) == (t, Ok(1));
    var (v, p) := EnsureProject(t, scope, ALL_FINE);
    assert p.Ok? && v.users == t.users && v.cache == map[] && v.secrets == map[] && v.now == s.now;
    assert Ensure(s, scope, ALL_FINE) == Issue(v, scope, 1, p.value, ALL_FINE);
  }
}
