/** What every tenant reconciler does first: it runs the two gates and resolves the namespace to a
    scope, whose delegate it then works with. */
module TenantPreamble {
  import opened Base
  import opened Ordering
  import opened Conditions
  import opened OperatorConfig
  import opened ScopeMaps
  import opened DelegationSpec
  import opened DelegationInvariants
  import opened DelegationSafety
  import opened DelegationSweeping
  import opened DelegationRuns
  import opened DelegationHealing
  import opened DelegationHomes
  import opened DelegationManager
  import IG = InstanceGate
  import MG = ManagementGate

  /** The client a reconcile works with: the operator's own, or that of a delegate. */
  datatype Client = Binding | Delegated(delegate: Delegate)

  datatype ResolvedScope = ResolvedScope(client: Client, scope: Option<Scope>, delegate: Option<Delegate>)

  /** Why the reconcile ends here; an unclassified resolver error has no reason and is returned as such. */
  datatype Stop =
    | InstanceStop(instanceVerdict: IG.Verdict)
    | ManagementStop(managementVerdict: MG.Verdict)
    | ScopeStop(reason: string, requeue: Time)
    | DelegationStop(error: Error)

  const REQUEUE_INTERVAL: Time := 5 * MINUTE
  const REQUEUE_ON_SCOPE_SYNC: Time := 2 * SECOND

  /** Transient conditions are retried soon, confirmed ones at the periodic interval. */
  function Classify(e: ResolveError): (string, Time) {
    match e
    case MapsNotSynced => ("MapsNotSynced", REQUEUE_ON_SCOPE_SYNC)
    case NoMatch(_) => ("NoMatchingRule", REQUEUE_INTERVAL)
    case ScopeConflict(_, _) => ("ScopeConflict", REQUEUE_INTERVAL)
    case InstanceMismatch(_, _, _) => ("InstanceMismatch", REQUEUE_INTERVAL)
    case MapNotReady(_) => ("ScopeMapNotReady", REQUEUE_ON_SCOPE_SYNC)
    case ListingFailed => ("", 0)
    case NamespaceUnreadable => ("", 0)
    case BadSelector(_, _) => ("", 0)
  }

  /** `resolver` is what the resolver sees, None when the deployment has none. */
  ghost function ResolveScopeAndClient(
    s: State, instance: string, name: string, resolver: Option<Sight>, evaluate: Evaluate, deleting: bool,
    calls: EnsureCalls): (State, Result<ResolvedScope, Stop>)
  {
    var binding := ResolvedScope(Binding, None, None);
    if resolver.None? then (s, Ok(binding))
    else
      match Resolve(instance, name, resolver.value, evaluate)
      case Err(e) => (s, if deleting then Ok(binding) else Err(ScopeStop(Classify(e).0, Classify(e).1)))
      case Ok(None) => (s, Ok(binding))
      case Ok(Some(scope)) =>
        var (t, r) := Ensure(s, scope, calls);
        match r
        case Err(e) => (t, if deleting then Ok(binding.(scope := Some(scope))) else Err(DelegationStop(e)))
        case Ok(d) => (t, Ok(ResolvedScope(Delegated(d), Some(scope), Some(d))))
  }

  // ----- the whole preamble -----

  /** The custom resource as each gate sees it: one history, of which each gate has its part. */
  datatype Object = Object(presence: seq<IG.Version>, stamps: seq<MG.Version>)

  predicate OneHistory(o: Object) {
    |o.presence| == |o.stamps| && o.presence != []
  }

  /** A version that one gate wrote is also a version to the other. */
  function Follow<T>(versions: seq<T>, n: nat): seq<T>
    requires versions != []
  {
    if n > |versions| then versions + [versions[|versions| - 1]] else versions
  }

  /** One reconcile, on version `seen` of the resource. */
  datatype Request = Request(
    cfg: Config, seen: nat, pinned: string, namespace: string, resolver: Option<Sight>,
    announce: Outcome, manage: MG.Calls, ensure: EnsureCalls)

  /** The dual-serving gate is skipped during deletion. */
  function InstanceGate(o: Object, req: Request): (Object, IG.Verdict)
    requires OneHistory(o) && req.seen < |o.stamps|
  {
    if o.stamps[req.seen].deleting then (o, IG.Proceed)
    else
      var (vs, v) := IG.Gate(o.presence, req.seen, req.cfg, req.pinned, req.announce);
      (Object(vs, Follow(o.stamps, |vs|)), v)
  }

  function ManagementGate(o: Object, req: Request): (Object, MG.Verdict)
    requires OneHistory(o) && req.seen < |o.stamps|
  {
    var (vs, v) := MG.Gate(o.stamps, req.seen, req.cfg.ManagementIdentity(), req.manage);
    (Object(Follow(o.presence, |vs|), vs), v)
  }

  ghost function Preamble(o: Object, s: State, req: Request, evaluate: Evaluate):
    (Object, State, Result<ResolvedScope, Stop>)
    requires OneHistory(o) && req.seen < |o.stamps|
  {
    var (p, iv) := InstanceGate(o, req);
    if iv != IG.Proceed then (p, s, Err(InstanceStop(iv)))
    else
      var (q, mv) := ManagementGate(p, req);
      if mv != MG.Proceed then (q, s, Err(ManagementStop(mv)))
      else
        var (t, r) := ResolveScopeAndClient(
          s, req.cfg.InstanceIdentity(), req.namespace, req.resolver, evaluate, o.stamps[req.seen].deleting,
          req.ensure);
        (q, t, r)
  }

  predicate Deleting(o: Object, req: Request)
    requires req.seen < |o.stamps|
  {
    o.stamps[req.seen].deleting
  }

  // ----- what a reconcile that passes works with -----

  /** The delegate is the one that the Secret of the scope describes, and nobody else's. */
  lemma EnsuredDelegateIsTheScopes(s: State, scope: Scope, calls: EnsureCalls)
    requires Inv(s) && Ensure(s, scope, calls).1.Ok?
    ensures var (t, r) := Ensure(s, scope, calls);
      && (Serves(t, scope.Hash(), r.value) <==> !Stranded(s, scope.Hash()))
      && Owned(t.users, r.value.user, scope.Hash())
  {
    hide Inv, Ensure;
    EnsureAgrees(s, scope, calls);
    var (t, r) := Ensure(s, scope, calls);
    if Stranded(s, scope.Hash()) {
      StrandedIsReturned(s, scope, calls);
    } else {
      StoredOwner(t, scope.Hash());
    }
  }

  /** There are maps, with distinct names. */
  ghost predicate MapsPresent(req: Request) {
    && req.resolver.Some? && req.resolver.value.maps.Some? && req.resolver.value.maps.value != []
    && DistinctKeys(req.resolver.value.maps.value, BY_NAME)
  }

  /** The maps select one rule for the namespace of the request, and the scope is that rule's. */
  ghost predicate RoutedTo(req: Request, evaluate: Evaluate, scope: Scope, m: ScopeMap, j: nat)
    requires MapsPresent(req)
  {
    && req.resolver.value.synced && req.resolver.value.namespace.Some?
    && Routes(req.cfg.InstanceIdentity(), req.resolver.value.maps.value, m, j, req.resolver.value.namespace.value,
              evaluate, scope)
  }

  /** With a map present, a resource that is not being deleted passes only with the client of the delegate
      of the one scope that the maps select for its namespace. */
  lemma PassingCarriesTheScopesDelegate(o: Object, s: State, req: Request, evaluate: Evaluate)
    requires OneHistory(o) && req.seen < |o.stamps| && !Deleting(o, req) && Inv(s) && MapsPresent(req)
    ensures var (_, t, r) := Preamble(o, s, req, evaluate);
      r.Ok? ==>
        && r.value.scope.Some? && r.value.delegate.Some? && r.value.client == Delegated(r.value.delegate.value)
        && var (scope, d) := (r.value.scope.value, r.value.delegate.value);
        && (exists m, j: nat :: RoutedTo(req, evaluate, scope, m, j))
        && Owned(t.users, d.user, scope.Hash()) && (Serves(t, scope.Hash(), d) <==> !Stranded(s, scope.Hash()))
  {
    hide Inv, Ensure, InstanceGate, ManagementGate, Resolve, Serves, Stranded, Owned, Routes;
    var sight := req.resolver.value;
    var identity := req.cfg.InstanceIdentity();
    if Preamble(o, s, req, evaluate).2.Ok? {
      PassthroughMeansNoMaps(identity, req.namespace, sight, evaluate);
      var scope := Resolve(identity, req.namespace, sight, evaluate).value.value;
      ResolvesToTheSelectedRule(identity, req.namespace, sight, evaluate, scope);
      var m, j: nat :| Routes(identity, sight.maps.value, m, j, sight.namespace.value, evaluate, scope);
      assert RoutedTo(req, evaluate, scope, m, j);
      EnsuredDelegateIsTheScopes(s, scope, req.ensure);
    }
  }

  /** The user owns the organization exactly when the rule names no project, and else is a member of just the
      project that the rule gives by id, or by name in that organization. */
  ghost predicate MemberAsRuled(t: State, u: Id, org: Id, rule: Rule)
    requires u in t.users
  {
    var memberOf := t.users[u].memberOf;
    && (NONE in memberOf <==> rule.projectId == NONE && rule.project == "")
    && (rule.projectId != NONE ==> memberOf == {rule.projectId})
    && (rule.projectId == NONE && rule.project == "" ==> memberOf == {NONE})
    && (rule.projectId == NONE && rule.project != "" ==>
          (org, rule.project) in t.projects && memberOf == {t.projects[(org, rule.project)]})
  }

  /** From the rule to the machine user: the map that routes a passing resource is for the operator's alias or,
      without one, its domain; and the delegate, if its user exists, is a member where the selected rule
      says, in the organization that the map gives or has resolved. */
  lemma DelegateIsWhereTheRuleSays(o: Object, s: State, req: Request, evaluate: Evaluate, m: ScopeMap, j: nat)
    requires OneHistory(o) && req.seen < |o.stamps| && !Deleting(o, req) && Inv(s) && Homed(s) && MapsPresent(req)
    requires Preamble(o, s, req, evaluate).2.Ok? && req.resolver.value.namespace.Some?
    requires Selected(req.resolver.value.maps.value, m, j, req.resolver.value.namespace.value, evaluate)
    ensures var (_, t, r) := Preamble(o, s, req, evaluate);
      && j < |m.rules| && r.value.delegate.Some?
      && m.instance == (if req.cfg.instanceAlias != "" then req.cfg.instanceAlias else req.cfg.domain)
      && var u := r.value.delegate.value.user;
         u in t.users ==>
           MemberAsRuled(
             t, u, if m.organizationId != NONE then m.organizationId else m.resolvedOrganizationId, m.rules[j])
  {
    hide Inv, Homed, Preamble, Selected, Wins, Serves, Stranded, Owned, MemberAsRuled, Ensure, Deleting, OneHistory;
    var maps, ns := req.resolver.value.maps.value, req.resolver.value.namespace.value;
    PassingCarriesTheScopesDelegate(o, s, req, evaluate);
    PreambleEnsures(o, s, req, evaluate);
    var scope := Preamble(o, s, req, evaluate).2.value.scope.value;
    var n, k: nat :| RoutedTo(req, evaluate, scope, n, k);
    SelectedIn(maps, m, j, ns, evaluate);
    SelectedWins(maps, m, j, ns, evaluate);
    OnlyOneWinner(maps, m, j, n, k, ns, evaluate);
    EnsuredMembership(s, scope, req.ensure, m.rules[j]);
  }

  lemma SelectedWins(maps: seq<ScopeMap>, m: ScopeMap, j: nat, ns: Namespace, evaluate: Evaluate)
    requires Selected(maps, m, j, ns, evaluate)
    ensures m in maps && Wins(m, j, ns, evaluate)
  {
  }

  /** The delegate of a reconcile that passes is the one that Ensure returns for its scope. */
  lemma PreambleEnsures(o: Object, s: State, req: Request, evaluate: Evaluate)
    requires OneHistory(o) && req.seen < |o.stamps| && Preamble(o, s, req, evaluate).2.Ok?
    requires Preamble(o, s, req, evaluate).2.value.delegate.Some?
    ensures var (_, t, r) := Preamble(o, s, req, evaluate);
      && r.value.scope.Some? && (t, Ok(r.value.delegate.value)) == Ensure(s, r.value.scope.value, req.ensure)
  {
    hide InstanceGate, ManagementGate, Ensure, Resolve;
  }

  lemma EnsuredMembership(s: State, scope: Scope, calls: EnsureCalls, rule: Rule)
    requires Inv(s) && Homed(s) && Ensure(s, scope, calls).1.Ok?
    requires rule.project == scope.projectName && rule.projectId == scope.projectId
    ensures var (t, r) := Ensure(s, scope, calls);
      r.value.user in t.users ==> MemberAsRuled(t, r.value.user, scope.organizationId, rule)
  {
    hide Inv, Ensure, Homed;
    EnsureKeepsHomed(s, scope, calls);
    EnsureAgrees(s, scope, calls);
    EnsuredDelegateIsTheScopes(s, scope, calls);
    var (t, r) := Ensure(s, scope, calls);
    if Stranded(s, scope.Hash()) {
      StrandedIsReturned(s, scope, calls);
    } else if r.value.user in t.users {
      OneMembership(t, scope.Hash());
    }
  }

  /** The user of a Secret is a member of the one place that its scope is. */
  lemma OneMembership(t: State, h: ScopeHash)
    requires Inv(t) && Homed(t) && h in t.secrets && t.secrets[h].user in t.users
    ensures t.users[t.secrets[h].user].memberOf == {t.secrets[h].project}
    ensures InScope(t.projects, h, t.secrets[h].project)
    ensures h.projectId == NONE && h.project != "" ==> t.secrets[h].project != NONE
  {
    hide Inv;
    StoredOwner(t, h);
    assert t.secrets[h].project in t.users[t.secrets[h].user].memberOf;
  }

  /** Resolution and delegation succeed, or the feature is off. */
  ghost predicate Resolvable(s: State, req: Request, evaluate: Evaluate) {
    req.resolver.None? ||
      match Resolve(req.cfg.InstanceIdentity(), req.namespace, req.resolver.value, evaluate)
      case Err(_) => false
      case Ok(None) => true
      case Ok(Some(scope)) => Ensure(s, scope, req.ensure).1.Ok?
  }

  /** What stops a resource that the gates let through tells which one thing is wrong, and when to look again:
      what may change by itself after two seconds, what somebody has to mend after five minutes, and
      what is returned as an error has no reason. */
  lemma StopTellsWhy(o: Object, s: State, req: Request, evaluate: Evaluate)
    requires OneHistory(o) && req.seen < |o.stamps| && !Deleting(o, req) && GatesOpen(o, req) && req.resolver.Some?
    requires DistinctMaps(req)
    ensures var r := Preamble(o, s, req, evaluate).2;
      var sight := req.resolver.value;
      && (!sight.synced ==> r == Err(ScopeStop("MapsNotSynced", 2 * SECOND)))
      && (sight.synced && (sight.maps.None? || (sight.maps.value != [] && sight.namespace.None?)) ==>
            r == Err(ScopeStop("", 0)))
      && (sight.synced && sight.maps.Some? && sight.maps.value != [] && sight.namespace.Some? ==>
            StoppedBecause(req, r, sight.maps.value, sight.namespace.value, evaluate))
  {
    hide InstanceGate, ManagementGate, Ensure, Decided, Contested, Selected, Silent, Collect, StoppedBecause;
    var sight := req.resolver.value;
    if sight.synced && sight.maps.Some? && sight.maps.value != [] && sight.namespace.Some? {
      StoppedByResolver(s, req, evaluate, Preamble(o, s, req, evaluate).2);
    }
  }

  ghost predicate StoppedBecause(
    req: Request, r: Result<ResolvedScope, Stop>, maps: seq<ScopeMap>, ns: Namespace, evaluate: Evaluate)
  {
    var identity := if req.cfg.instanceAlias != "" then req.cfg.instanceAlias else req.cfg.domain;
    && (!Decided(maps, ns, evaluate) ==> r == Err(ScopeStop("", 0)))
    && ((forall m | m in maps :: Silent(m, ns, evaluate)) ==> r == Err(ScopeStop("NoMatchingRule", 300 * SECOND)))
    && (Decided(maps, ns, evaluate) && Contested(maps, ns, evaluate) ==>
          r == Err(ScopeStop("ScopeConflict", 300 * SECOND)))
    && (forall m, j: nat | Selected(maps, m, j, ns, evaluate) && m.instance != identity ::
          r == Err(ScopeStop("InstanceMismatch", 300 * SECOND)))
    && (forall m, j: nat | Selected(maps, m, j, ns, evaluate) && m.instance == identity
                           && m.organizationId == NONE && m.resolvedOrganizationId == NONE ::
          r == Err(ScopeStop("ScopeMapNotReady", 2 * SECOND)))
  }

  lemma StoppedByResolver(s: State, req: Request, evaluate: Evaluate, r: Result<ResolvedScope, Stop>)
    requires req.resolver.Some? && req.resolver.value.synced && req.resolver.value.maps.Some?
    requires req.resolver.value.maps.value != [] && req.resolver.value.namespace.Some? && DistinctMaps(req)
    requires r == ResolveScopeAndClient(
      s, req.cfg.InstanceIdentity(), req.namespace, req.resolver, evaluate, false, req.ensure).1
    ensures StoppedBecause(req, r, req.resolver.value.maps.value, req.resolver.value.namespace.value, evaluate)
  {
    hide Ensure, Resolve, Decided, Contested, Selected, Silent;
    ErrorsTellWhy(req.cfg.InstanceIdentity(), req.namespace, req.resolver.value, evaluate);
  }

  /** Both gates let the request through. */
  predicate GatesOpen(o: Object, req: Request)
    requires OneHistory(o) && req.seen < |o.stamps|
  {
    InstanceGate(o, req).1 == IG.Proceed && ManagementGate(InstanceGate(o, req).0, req).1 == MG.Proceed
  }

  /** Scope maps are not in use. */
  predicate Off(req: Request) {
    req.resolver.None? || (req.resolver.value.synced && req.resolver.value.maps == Some([]))
  }

  /** The maps select one rule of a map that fits, and a delegate for its scope is to be had. */
  ghost predicate Delegable(s: State, req: Request, evaluate: Evaluate) {
    && MapsPresent(req)
    && exists scope, m, j: nat :: RoutedTo(req, evaluate, scope, m, j) && Ensure(s, scope, req.ensure).1.Ok?
  }

  /** The same, when no call about the delegate fails: its cache entry is not one whose user is gone
      and whose key is due. */
  ghost predicate DelegableWhenFine(s: State, req: Request, evaluate: Evaluate) {
    MapsPresent(req) && exists scope, m, j: nat :: RoutedTo(req, evaluate, scope, m, j) && !Overdue(s, scope.Hash())
  }

  ghost predicate Overdue(s: State, h: ScopeHash) {
    Vanished(s, h) && Due(s, s.cache[h])
  }

  ghost predicate DistinctMaps(req: Request) {
    req.resolver.Some? && req.resolver.value.maps.Some? ==> DistinctKeys(req.resolver.value.maps.value, BY_NAME)
  }

  /** Whatever scope the maps route to is the resolved one. */
  lemma RoutedIsResolved(req: Request, evaluate: Evaluate, scope: Scope)
    requires MapsPresent(req)
    ensures (exists m, j: nat :: RoutedTo(req, evaluate, scope, m, j)) <==>
      Resolve(req.cfg.InstanceIdentity(), req.namespace, req.resolver.value, evaluate) == Ok(Some(scope))
  {
    hide Resolve, Routes;
    var sight, identity := req.resolver.value, req.cfg.InstanceIdentity();
    ResolvesToTheSelectedRule(identity, req.namespace, sight, evaluate, scope);
    if Resolve(identity, req.namespace, sight, evaluate) == Ok(Some(scope)) {
      var m, j: nat :| Routes(identity, sight.maps.value, m, j, sight.namespace.value, evaluate, scope);
      assert RoutedTo(req, evaluate, scope, m, j);
    }
  }

  lemma ResolvableMeans(s: State, req: Request, evaluate: Evaluate)
    requires DistinctMaps(req)
    ensures Resolvable(s, req, evaluate) <==> Off(req) || Delegable(s, req, evaluate)
  {
    hide Resolve, Ensure, RoutedTo;
    if req.resolver.Some? {
      var r := Resolve(req.cfg.InstanceIdentity(), req.namespace, req.resolver.value, evaluate);
      PassthroughMeansNoMaps(req.cfg.InstanceIdentity(), req.namespace, req.resolver.value, evaluate);
      NothingListed(req, evaluate);
      if MapsPresent(req) {
        if r.Ok? && r.value.Some? {
          var scope := r.value.value;
          RoutedIsResolved(req, evaluate, scope);
          var m, j: nat :| RoutedTo(req, evaluate, scope, m, j);
          assert RoutedTo(req, evaluate, scope, m, j);
          assert Ensure(s, scope, req.ensure).1.Ok? ==> Delegable(s, req, evaluate);
        }
        forall scope, m, j: nat | RoutedTo(req, evaluate, scope, m, j) ensures r == Ok(Some(scope)) {
          RoutedIsResolved(req, evaluate, scope);
        }
      }
    }
  }

  lemma NothingListed(req: Request, evaluate: Evaluate)
    requires req.resolver.Some?
    ensures !req.resolver.value.synced || req.resolver.value.maps.None? ==>
      Resolve(req.cfg.InstanceIdentity(), req.namespace, req.resolver.value, evaluate).Err?
  {
  }

  lemma FineMeans(s: State, req: Request, evaluate: Evaluate)
    requires Inv(s) && req.ensure == ALL_FINE
    ensures Delegable(s, req, evaluate) <==> DelegableWhenFine(s, req, evaluate)
  {
    hide Inv, Ensure, RoutedTo, MapsPresent;
    forall scope ensures Ensure(s, scope, ALL_FINE).1.Ok? <==> !Overdue(s, scope.Hash()) {
      EnsureSucceeds(s, scope);
    }
  }

  /** Fail-closed: a resource that is not being deleted passes exactly when both gates let it through and
      either there are no maps, or the maps select one rule of a map that fits this operator and a
      delegate is to be had; which, if no call about it fails, is unless its cache entry is overdue. */
  lemma AnyFailureStops(o: Object, s: State, req: Request, evaluate: Evaluate)
    requires OneHistory(o) && req.seen < |o.stamps| && !Deleting(o, req) && Inv(s) && DistinctMaps(req)
    ensures Preamble(o, s, req, evaluate).2.Ok? <==>
      GatesOpen(o, req) && (Off(req) || Delegable(s, req, evaluate))
    ensures req.ensure == ALL_FINE ==>
      (Preamble(o, s, req, evaluate).2.Ok? <==> GatesOpen(o, req) && (Off(req) || DelegableWhenFine(s, req, evaluate)))
  {
    hide InstanceGate, ManagementGate, Resolve, Ensure, Inv, Delegable, DelegableWhenFine, DistinctMaps;
    ResolvableMeans(s, req, evaluate);
    if req.ensure == ALL_FINE {
      FineMeans(s, req, evaluate);
    }
  }

  /** A resource under deletion is stopped by nothing but the management gate, which depends on nothing
      but the stamp; it works with the delegate if there is one, else with the operator's own client, and
      in either case within the scope that its namespace resolves to, if it does. */
  lemma DeletionIsStoppedOnlyByManagement(o: Object, s: State, req: Request, evaluate: Evaluate)
    requires OneHistory(o) && req.seen < |o.stamps| && Deleting(o, req)
    ensures var (p, t, r) := Preamble(o, s, req, evaluate);
      var v := o.stamps[req.seen];
      && (r.Ok? <==>
           || v.managedBy == ""
           || (v.managedBy == req.cfg.ManagementIdentity() && (req.manage.guardRecorded ==> req.manage.guard == Done)))
      && (r.Err? ==> r.error.ManagementStop? && t == s)
      && (r.Ok? ==> (r.value.client.Delegated? <==> r.value.delegate.Some?)
                    && (r.value.client.Delegated? <==> r.value.scope.Some? && Resolvable(s, req, evaluate)))
      && (r.Ok? ==> forall scope :: r.value.scope == Some(scope) <==>
            req.resolver.Some?
            && Resolve(req.cfg.InstanceIdentity(), req.namespace, req.resolver.value, evaluate) == Ok(Some(scope)))
  {
    hide Resolve, Ensure;
    OnlyStatusWritesAnnounce(req.cfg);
  }

  /** The write that announces an operator makes its copy of the resource stale, so the same reconcile
      cannot stamp it: on an unstamped, unpinned resource that no one else serves, a reconcile on the
      current version gets through the two gates exactly when an earlier one recorded the presence. */
  lemma AdoptionTakesTwoReconciles(o: Object, req: Request)
    requires OneHistory(o) && req.seen == |o.stamps| - 1 && !Deleting(o, req)
    requires req.pinned == "" && o.stamps[req.seen].managedBy == ""
    requires !IG.ForeignPresent(o.presence[req.seen].managers, req.cfg.FieldManager())
    requires req.announce == Done && req.manage.update == Done
    ensures InstanceGate(o, req).1 == IG.Proceed
    ensures GatesOpen(o, req) <==> o.presence[req.seen].assumed
    ensures var p := ManagementGate(InstanceGate(o, req).0, req).0;
      OneHistory(p) && p.presence[|p.presence| - 1].assumed
      && p.stamps[|p.stamps| - 1].managedBy
      == if o.presence[req.seen].assumed then req.cfg.ManagementIdentity() else ""
  {
    OnlyStatusWritesAnnounce(req.cfg);
    hide Config.ManagementIdentity, Config.FieldManager, IG.ForeignPresent;
    if o.presence[req.seen].assumed {
      assert InstanceGate(o, req) == (o, IG.Proceed);
    } else {
      AnnouncingMakesStale(o, req);
    }
  }

  lemma AnnouncingMakesStale(o: Object, req: Request)
    requires OneHistory(o) && req.seen == |o.stamps| - 1 && !Deleting(o, req)
    requires req.pinned == "" && !o.presence[req.seen].assumed && req.announce == Done
    requires !IG.ForeignPresent(o.presence[req.seen].managers, req.cfg.FieldManager())
    ensures var (p, v) := InstanceGate(o, req);
      && v == IG.Proceed && OneHistory(p) && |p.stamps| == |o.stamps| + 1
      && p.stamps == o.stamps + [o.stamps[req.seen]] && p.presence[|p.presence| - 1].assumed
  {
  }

  /** The two gates together exclude, even where the instance gate lets several operators through: all
      operators that the management gate, and so both gates, ever let through on a resource not under
      deletion are one deployment, pinned or not, if instance identities have no slash. */
  lemma ResourceHasOneDeployment(
    run: seq<MG.State>, events: seq<MG.Event>, i: nat, p: MG.Passage, q: MG.Passage)
    requires MG.IsRun(run, events) && i <= |events|
    requires p in run[i].passages && q in run[i].passages && !p.deleting && !q.deleting
    requires '/' !in p.operator.InstanceIdentity() && '/' !in q.operator.InstanceIdentity()
    ensures SameDeployment(p.operator, q.operator)
  {
    MG.OneManagerPerResource(run, events, i, p, q);
    ManagementIdentityIsTheDeployment(p.operator, q.operator);
  }

  /** With spec.instance set, all operators that both gates ever let through on a resource not under
      deletion are one deployment: of the pinned instance, and bound to the same organization or, if they
      are not bound, in the same namespace. */
  lemma PinnedResourceHasOneDeployment(
    run: seq<MG.State>, events: seq<MG.Event>, i: nat, p: MG.Passage, q: MG.Passage,
    versions: seq<IG.Version>, seen: nat, pinned: string, o: Outcome)
    requires MG.IsRun(run, events) && i <= |events| && seen < |versions| && pinned != ""
    requires p in run[i].passages && q in run[i].passages && !p.deleting && !q.deleting
    requires IG.Gate(versions, seen, p.operator, pinned, o).1 == IG.Proceed
    requires IG.Gate(versions, seen, q.operator, pinned, o).1 == IG.Proceed
    ensures p.operator.InstanceIdentity() == pinned && SameDeployment(p.operator, q.operator)
  {
    MG.OneManagerPerResource(run, events, i, p, q);
    ManagementIdentityDistinguishes(p.operator, q.operator);
  }

  // ----- the organization a tenant resource may name -----

  datatype OrganizationError = Unresolved | OutOfScope(requested: Id, scopeOrganization: Id)

  /** `named` is what the resource's own reference or id resolves to, None when it names nothing. */
  function ResolveScopedOrganizationId(rs: ResolvedScope, named: Option<Option<Id>>): Result<Id, OrganizationError> {
    if rs.scope.None? then
      if named.Some? && named.value.Some? then Ok(named.value.value) else Err(Unresolved)
    else if named.None? then Ok(rs.scope.value.organizationId)
    else if named.value.None? then Err(Unresolved)
    else if named.value.value != rs.scope.value.organizationId then
      Err(OutOfScope(named.value.value, rs.scope.value.organizationId))
    else Ok(named.value.value)
  }

  /** Without a scope a resource gets exactly the organization that it names, and an error if it names none. */
  lemma OrganizationPassesThrough(named: Option<Option<Id>>, org: Id)
    ensures var r := ResolveScopedOrganizationId(ResolvedScope(Binding, None, None), named);
      r == Ok(org) <==> named == Some(Some(org))
  {
  }

  /** Containment: whatever a resource names, with a map present its organization is that of the one map
      that the maps select for its namespace, and it gets one exactly when it names that or none. */
  lemma OrganizationIsTheScopes(o: Object, s: State, req: Request, evaluate: Evaluate, named: Option<Option<Id>>)
    requires OneHistory(o) && req.seen < |o.stamps| && !Deleting(o, req) && Inv(s) && MapsPresent(req)
    ensures var passed := Preamble(o, s, req, evaluate).2;
      passed.Ok? ==>
        && var r := ResolveScopedOrganizationId(passed.value, named);
        && passed.value.scope.Some?
        && exists m, j: nat :: RoutedTo(req, evaluate, passed.value.scope.value, m, j)
             && var org := if m.organizationId != NONE then m.organizationId else m.resolvedOrganizationId;
             && (r.Ok? ==> r.value == org != NONE) && (r.Ok? <==> named in {None, Some(Some(org))})
  {
    hide Preamble, Selected, Inv;
    PassingCarriesTheScopesDelegate(o, s, req, evaluate);
    var passed := Preamble(o, s, req, evaluate).2;
    if passed.Ok? {
      var m, j: nat :| RoutedTo(req, evaluate, passed.value.scope.value, m, j);
    }
  }

  // ----- the preamble as it runs -----

  const SCOPE_RESOLVED := "ScopeResolved"

  /** Conditions are set on the fetched object; the write of a failure is not checked. */
  method RunResolveScopeAndClient(
    cfg: Config, delegator: Manager, resolver: Option<Sight>, evaluate: Evaluate, status: Status, namespace: string,
    deleting: bool, now: Time, calls: EnsureCalls)
    returns (r: Result<ResolvedScope, Stop>)
    requires delegator.Valid(now) && OneEach(status.conditions)
    modifies delegator, delegator.k8s, delegator.binding, status
    ensures delegator.Valid(now) && OneEach(status.conditions)
    ensures (delegator.View(now), r) == ResolveScopeAndClient(
      old(delegator.View(now)), cfg.InstanceIdentity(), namespace, resolver, evaluate, deleting, calls)
    ensures r.Err? ==> r.error.ScopeStop? || r.error.DelegationStop?
    ensures r.Ok? && r.value.client.Delegated? ==> Recorded(status.conditions, SCOPE_RESOLVED, true, "Resolved")
    ensures r.Err? && r.error.DelegationStop? ==> Recorded(status.conditions, SCOPE_RESOLVED, false, "DelegationFailed")
    ensures r.Err? && r.error.ScopeStop? && r.error.reason != "" ==>
      Recorded(status.conditions, SCOPE_RESOLVED, false, r.error.reason)
    ensures Others(status.conditions, SCOPE_RESOLVED) == Others(old(status.conditions), SCOPE_RESOLVED)
  {
    hide Inv, Ensure;
    var binding := ResolvedScope(Binding, None, None);
    if resolver.None? {
      return Ok(binding);
    }
    var resolved := ResolveNamespace(cfg.InstanceIdentity(), namespace, resolver.value, evaluate);
    if resolved.Err? {
      if deleting {
        return Ok(binding);
      }
      var (reason, requeue) := Classify(resolved.error);
      if reason != "" {
        status.SetCondition(SCOPE_RESOLVED, false, reason, "", now);
      }
      return Err(ScopeStop(reason, requeue));
    }
    if resolved.value.None? {
      return Ok(binding);
    }
    var scope := resolved.value.value;
    var ensured := delegator.Ensure(scope, now, calls);
    if ensured.Err? {
      if deleting {
        return Ok(binding.(scope := Some(scope)));
      }
      status.SetCondition(SCOPE_RESOLVED, false, "DelegationFailed", "", now);
      return Err(DelegationStop(ensured.error));
    }
    status.SetCondition(SCOPE_RESOLVED, true, "Resolved", "scope " + scope.mapName + "/" + scope.ruleName, now);
    r := Ok(ResolvedScope(Delegated(ensured.value), Some(scope), Some(ensured.value)));
  }

  /** The whole preamble on a fetched copy of the resource: `obj`, `managedFields` and `status` are the parts
      of the copy that it looks at. */
  method RunPreamble(
    presence: IG.ApiServer, stamps: MG.ApiServer, obj: MG.Resource, managedFields: seq<string>,
    status: Status, delegator: Manager, req: Request, evaluate: Evaluate, now: Time)
    returns (r: Result<ResolvedScope, Stop>)
    requires req.seen == obj.version < |stamps.history|
    requires OneHistory(Object(presence.versions, stamps.history))
    requires stamps.history[obj.version] == MG.Version(obj.managedBy, obj.deleting)
    requires presence.versions[obj.version] == IG.Version((set m | m in managedFields), IG.Assumed(status.conditions))
    requires req.manage.guardRecorded == HasKind(status.conditions, MG.FOREIGN_MANAGER)
    requires delegator.Valid(now) && OneEach(status.conditions)
    modifies presence, stamps, obj, status, delegator, delegator.k8s, delegator.binding
    ensures delegator.Valid(now) && OneEach(status.conditions)
    ensures (Object(presence.versions, stamps.history), delegator.View(now), r)
         == Preamble(old(Object(presence.versions, stamps.history)), old(delegator.View(now)), req, evaluate)
    ensures r.Err? && r.error.InstanceStop? && r.error.instanceVerdict == IG.Foreign ==>
      status.conditions == old(status.conditions) && presence.versions == old(presence.versions)
  {
    hide Inv, Ensure, ResolveScopeAndClient, IG.Gate, MG.Gate;
    ghost var o := Object(presence.versions, stamps.history);
    var deleting := obj.deleting;
    if !deleting {
      var seen := IG.RunGate(req.cfg, presence, managedFields, obj.version, req.pinned, status, now, req.announce);
      PresenceGrows(o.presence, obj.version, req.cfg, req.pinned, req.announce);
      stamps.history := Follow(stamps.history, |presence.versions|);
      if seen != IG.Proceed {
        return Err(InstanceStop(seen));
      }
    }
    OthersKeepKind(old(status.conditions), IG.INSTANCE_RESOLVED, MG.FOREIGN_MANAGER);
    OthersKeepKind(status.conditions, IG.INSTANCE_RESOLVED, MG.FOREIGN_MANAGER);
    var managed := MG.RunGate(req.cfg, stamps, obj, status.conditions, req.manage);
    presence.versions := Follow(presence.versions, |stamps.history|);
    if managed != MG.Proceed {
      return Err(ManagementStop(managed));
    }
    r := RunResolveScopeAndClient(
      req.cfg, delegator, req.resolver, evaluate, status, req.namespace, deleting, now, req.ensure);
  }

  lemma PresenceGrows(versions: seq<IG.Version>, seen: nat, cfg: Config, pinned: string, o: Outcome)
    requires seen < |versions|
    ensures var (vs, v) := IG.Gate(versions, seen, cfg, pinned, o);
      versions <= vs && |vs| <= |versions| + 1 && (v == IG.Foreign ==> vs == versions)
  {
  }
}
