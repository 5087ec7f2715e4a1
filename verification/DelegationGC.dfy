/** The delegation sweep: every namespace is resolved, and delegates outside the result are revoked. */
module DelegationGC {
  import opened Base
  import opened ScopeMaps
  import opened DelegationSpec
  import opened DelegationInvariants
  import opened DelegationSweeping
  import opened DelegationHomes
  import opened DelegationOrphans
  import opened DelegationManager

  /** A namespace, and what the resolver sees when it resolves it. */
  datatype Visit = Visit(name: string, sight: Sight)

  datatype GCError = NamespacesUnlisted | Unsynced | SweepFailed(error: Error)

  function Resolved(instance: string, visit: Visit, evaluate: Evaluate): Result<Option<Scope>, ResolveError> {
    Resolve(instance, visit.name, visit.sight, evaluate)
  }

  /** The namespace resolves to the scope with hash `h`. */
  ghost predicate ResolvesTo(instance: string, visit: Visit, evaluate: Evaluate, h: ScopeHash) {
    var r := Resolved(instance, visit, evaluate);
    r.Ok? && r.value.Some? && r.value.value.Hash() == h
  }

  ghost predicate LiveScope(instance: string, visits: seq<Visit>, evaluate: Evaluate, h: ScopeHash) {
    exists i :: 0 <= i < |visits| && ResolvesTo(instance, visits[i], evaluate, h)
  }

  ghost predicate AllSynced(visits: seq<Visit>) {
    forall i | 0 <= i < |visits| :: visits[i].sight.synced
  }

  class GC {
    const instance: string
    const manager: Manager

    constructor (instance: string, manager: Manager)
      ensures this.instance == instance && this.manager == manager
    {
      this.instance, this.manager := instance, manager;
    }

    /** The hashes of the scopes that the namespaces resolve to, unless the maps are not synced. */
    method LiveScopes(visits: seq<Visit>, evaluate: Evaluate) returns (r: Option<set<ScopeHash>>)
      ensures r.Some? <==> AllSynced(visits)
      ensures r.Some? ==> forall h :: h in r.value <==> LiveScope(instance, visits, evaluate, h)
    {
      var live: set<ScopeHash> := {};
      for i := 0 to |visits|
        invariant AllSynced(visits[..i])
        invariant forall h :: h in live <==> LiveScope(instance, visits[..i], evaluate, h)
      {
        LiveScopeGrows(instance, visits, i, evaluate);
        var s := ResolveNamespace(instance, visits[i].name, visits[i].sight, evaluate);
        match s
        case Err(MapsNotSynced) =>
          assert !visits[i].sight.synced;
          return None;
        case Err(_) =>
        case Ok(None) =>
        case Ok(Some(scope)) => live := live + {scope.Hash()};
      }
      assert visits[..|visits|] == visits;
      r := Some(live);
    }

    /** `visits` is None when the namespaces cannot be listed. */
    method SweepOnce(
      visits: Option<seq<Visit>>, evaluate: Evaluate, listed: seq<Secret>, now: Time, calls: seq<RevokeCalls>)
      returns (e: Option<GCError>)
      requires manager.Valid(now) && |calls| == |listed| && AllLogged(manager.View(now), listed)
      modifies manager, manager.k8s, manager.binding
      ensures manager.Valid(now)
      ensures visits.None? ==> e == Some(NamespacesUnlisted) && manager.View(now) == old(manager.View(now))
      ensures visits.Some? && !AllSynced(visits.value) ==>
        e == Some(Unsynced) && manager.View(now) == old(manager.View(now))
      ensures visits.Some? && AllSynced(visits.value) ==>
        exists live: set<ScopeHash> ::
          && (forall h :: h in live <==> LiveScope(instance, visits.value, evaluate, h))
          && var (t, f) := Sweep(old(manager.View(now)), listed, live, calls);
             manager.View(now) == t && e == if f.Some? then Some(SweepFailed(f.value)) else None
    {
      if visits.None? {
        return Some(NamespacesUnlisted);
      }
      var live := LiveScopes(visits.value, evaluate);
      if live.None? {
        return Some(Unsynced);
      }
      var swept := manager.Sweep(listed, live.value, now, calls);
      e := if swept.Some? then Some(SweepFailed(swept.value)) else None;
    }
  }

  lemma LiveScopeGrows(instance: string, visits: seq<Visit>, n: nat, evaluate: Evaluate)
    requires n < |visits|
    ensures forall h :: LiveScope(instance, visits[..n + 1], evaluate, h) <==>
      LiveScope(instance, visits[..n], evaluate, h) || ResolvesTo(instance, visits[n], evaluate, h)
  {
    hide ResolvesTo;
    var wide, narrow := visits[..n + 1], visits[..n];
    forall h
      ensures LiveScope(instance, wide, evaluate, h) <==>
        LiveScope(instance, narrow, evaluate, h) || ResolvesTo(instance, visits[n], evaluate, h)
    {
      if LiveScope(instance, narrow, evaluate, h) {
        var i :| 0 <= i < |narrow| && ResolvesTo(instance, narrow[i], evaluate, h);
        assert wide[i] == narrow[i];
      }
      if ResolvesTo(instance, visits[n], evaluate, h) {
        assert wide[n] == visits[n];
      }
      if LiveScope(instance, wide, evaluate, h) {
        var i :| 0 <= i < |wide| && ResolvesTo(instance, wide[i], evaluate, h);
        assert i < n ==> narrow[i] == wide[i];
      }
    }
  }

  /** A sweep against the scopes that the visits resolve to, however its calls end: whoever is listed and
      live keeps its delegate, and whoever is listed and not is gone, if no call about it fails. */
  lemma SweepRevokesExactlyTheUnresolved(
    s: State, instance: string, visits: seq<Visit>, evaluate: Evaluate,
    live: set<ScopeHash>, listed: seq<Secret>, calls: seq<RevokeCalls>, i: nat)
    requires Inv(s) && |calls| == |listed| && AllLogged(s, listed) && DistinctNames(listed)
    requires forall h :: h in live <==> LiveScope(instance, visits, evaluate, h)
    requires i < |listed| && listed[i].name in s.secrets
    ensures var h := listed[i].name;
      var t := Sweep(s, listed, live, calls).0;
      if LiveScope(instance, visits, evaluate, h) then
        SameDelegate(s, t, h) && (s.secrets[h].user in s.users ==> s.secrets[h].user in t.users)
      else
        RevokedOrKept(s, t, h, calls[i]) && (AllDone(calls[i]) ==> FullyGone(s, t, h))
  {
    hide Inv;
    SweepDecides(s, listed, live, calls, i);
  }

  /** A sweep of all Secrets in which no call fails: a machine user remains if and only if its scope is
      one that some namespace resolves to, or has no Secret. */
  lemma SweepLeavesExactlyTheResolved(
    s: State, instance: string, visits: seq<Visit>, evaluate: Evaluate,
    live: set<ScopeHash>, listed: seq<Secret>, calls: seq<RevokeCalls>, u: Id)
    requires Inv(s) && Homed(s) && |calls| == |listed| && Complete(s, listed) && AllFine(calls)
    requires forall h :: h in live <==> LiveScope(instance, visits, evaluate, h)
    requires u in s.users
    ensures u in Sweep(s, listed, live, calls).0.users <==>
      LiveScope(instance, visits, evaluate, s.users[u].name) || Orphan(s, u)
  {
    hide Inv, Homed, Complete, AllFine, LiveScope, Sweep;
    SweepLeavesExactly(s, listed, live, calls, u, s.users[u].name);
  }

  /** Without maps no scope is live, so such a sweep leaves exactly the users whose scope has no Secret,
      and no Secret at all. */
  lemma NoMapsLeaveOnlyOrphans(
    s: State, instance: string, visits: seq<Visit>, evaluate: Evaluate,
    live: set<ScopeHash>, listed: seq<Secret>, calls: seq<RevokeCalls>)
    requires Inv(s) && Homed(s) && |calls| == |listed| && Complete(s, listed) && AllFine(calls)
    requires forall h :: h in live <==> LiveScope(instance, visits, evaluate, h)
    requires forall i | 0 <= i < |visits| :: visits[i].sight.synced && visits[i].sight.maps == Some([])
    ensures var t := Sweep(s, listed, live, calls).0;
      t.secrets == map[] && forall u: Id :: u in t.users <==> Orphan(s, u)
  {
    hide Inv, Homed, Complete, AllFine, Sweep;
    var t := Sweep(s, listed, live, calls).0;
    assert live == {};
    forall u: Id ensures u in t.users <==> Orphan(s, u) {
      SweepLeavesExactly(s, listed, live, calls, u, ScopeHash("", NONE, "", NONE));
    }
    forall h: ScopeHash ensures h !in t.secrets {
      SweepLeavesExactly(s, listed, live, calls, NONE, h);
    }
  }

  /** What a visit sees of the truth when a read fails: no namespace, no maps, or neither. */
  predicate Glimpse(sight: Sight, truth: Sight) {
    sight.synced == truth.synced && sight.maps in {None, truth.maps} && sight.namespace in {None, truth.namespace}
  }

  /** Only unsynced informers stop a sweep. A namespace that cannot be read at that moment, or for which the
      maps cannot be listed, counts as having no scope, although its maps still route it: its scope is
      live exactly when both reads succeed, or another namespace resolves to it. */
  lemma FailedReadLosesTheScope(
    instance: string, visits: seq<Visit>, evaluate: Evaluate, n: nat, truth: Sight, scope: Scope)
    requires n < |visits| && Glimpse(visits[n].sight, truth)
    requires Resolve(instance, visits[n].name, truth, evaluate) == Ok(Some(scope))
    ensures LiveScope(instance, visits, evaluate, scope.Hash()) <==>
      || visits[n].sight == truth
      || exists i :: 0 <= i < |visits| && i != n && ResolvesTo(instance, visits[i], evaluate, scope.Hash())
  {
    if visits[n].sight == truth {
      assert ResolvesTo(instance, visits[n], evaluate, scope.Hash());
    } else {
      assert !ResolvesTo(instance, visits[n], evaluate, scope.Hash());
    }
  }

  /** So a sweep of all Secrets without failing calls revokes the delegate of a namespace that its maps
      route, exactly when a read for its visit failed and no other namespace resolves to the scope. */
  lemma FailedReadRevokesTheDelegate(
    s: State, instance: string, visits: seq<Visit>, evaluate: Evaluate, n: nat, truth: Sight, scope: Scope,
    live: set<ScopeHash>, listed: seq<Secret>, calls: seq<RevokeCalls>, u: Id)
    requires Inv(s) && Homed(s) && |calls| == |listed| && Complete(s, listed) && AllFine(calls)
    requires forall h :: h in live <==> LiveScope(instance, visits, evaluate, h)
    requires n < |visits| && Glimpse(visits[n].sight, truth)
    requires Resolve(instance, visits[n].name, truth, evaluate) == Ok(Some(scope))
    requires Named(s, u, scope.Hash()) && scope.Hash() in s.secrets
    ensures u in Sweep(s, listed, live, calls).0.users <==>
      || visits[n].sight == truth
      || exists i :: 0 <= i < |visits| && i != n && ResolvesTo(instance, visits[i], evaluate, scope.Hash())
  {
    hide Inv, Homed, Complete, AllFine, LiveScope, Sweep, Resolve, ResolvesTo, Glimpse;
    FailedReadLosesTheScope(instance, visits, evaluate, n, truth, scope);
    SweepLeavesExactlyTheResolved(s, instance, visits, evaluate, live, listed, calls, u);
  }
}
