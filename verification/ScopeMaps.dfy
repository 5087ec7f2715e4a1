/** Resolution of a namespace to a scope: first match within a map, conflict across maps, and an
    error whenever the maps do not name exactly one scope. */
module ScopeMaps {
  import opened Base
  import opened Ordering

  /** A resolved scope. */
  datatype Scope = Scope(
    instance: string, organizationId: Id, organizationName: string,
    projectName: string, projectId: Id, mapName: string, ruleName: string)
  {
    /** The scope hash. SHA-256 over the canonical JSON is taken to be injective, so the hash is
        the hashed tuple itself. */
    function Hash(): ScopeHash {
      ScopeHash(instance, organizationId, projectName, projectId)
    }
  }

  datatype ScopeHash = ScopeHash(instance: string, organizationId: Id, project: string, projectId: Id)

  type Labels = map<string, string>

  datatype Namespace = Namespace(name: string, labels: Labels)

  datatype LabelSelector = LabelSelector(expression: string)

  /** How label selectors are evaluated; None is a malformed selector. */
  type Evaluate = (LabelSelector, Labels) -> Option<bool>

  datatype Rule = Rule(
    name: string, selector: Option<LabelSelector>, namespaces: seq<string>, project: string, projectId: Id)

  datatype ScopeMap = ScopeMap(
    name: string, instance: string, organization: string, organizationId: Id,
    resolvedOrganizationId: Id, rules: seq<Rule>)

  datatype ResolveError =
    | MapsNotSynced
    | ListingFailed
    | NamespaceUnreadable
    | BadSelector(mapName: string, ruleName: string)
    | NoMatch(namespace: string)
    | ScopeConflict(namespace: string, maps: seq<string>)
    | InstanceMismatch(mapName: string, expected: string, actual: string)
    | MapNotReady(mapName: string)

  /** Exactly one of selector and literal list. */
  predicate ValidRule(rule: Rule) {
    rule.selector.Some? != (rule.namespaces != [])
  }

  /** None when the selector cannot be evaluated; an invalid rule never matches. */
  function RuleMatches(rule: Rule, ns: Namespace, evaluate: Evaluate): Option<bool> {
    if !ValidRule(rule) then Some(false)
    else if rule.namespaces != [] then Some(ns.name in rule.namespaces)
    else evaluate(rule.selector.value, ns.labels)
  }

  datatype Search = Missed | Found(at: nat) | Broken(at: nat)

  /** The first rule, top-down, that matches or cannot be evaluated. */
  function FirstMatch(rules: seq<Rule>, ns: Namespace, evaluate: Evaluate): (r: Search)
    ensures r != Missed ==> r.at < |rules|
  {
    if rules == [] then Missed
    else
      var n := |rules| - 1;
      var before := FirstMatch(rules[..n], ns, evaluate);
      if before != Missed then before
      else
        match RuleMatches(rules[n], ns, evaluate)
        case None => Broken(n)
        case Some(true) => Found(n)
        case Some(false) => Missed
  }

  /** A map together with its winning rule. */
  datatype Match = Match(m: ScopeMap, rule: Rule)

  function Collect(items: seq<ScopeMap>, ns: Namespace, evaluate: Evaluate): (r: Result<seq<Match>, ResolveError>)
    ensures r.Err? ==> r.error.BadSelector?
  {
    if items == [] then Ok([])
    else
      var n := |items| - 1;
      var before := Collect(items[..n], ns, evaluate);
      if before.Err? then before
      else
        match FirstMatch(items[n].rules, ns, evaluate)
        case Missed => before
        case Found(j) => Ok(before.value + [Match(items[n], items[n].rules[j])])
        case Broken(j) => Err(BadSelector(items[n].name, items[n].rules[j].name))
  }

  function OrganizationOf(m: ScopeMap): Id {
    if m.organizationId != NONE then m.organizationId else m.resolvedOrganizationId
  }

  function ScopeOf(m: ScopeMap, rule: Rule): Scope {
    Scope(m.instance, OrganizationOf(m), m.organization, rule.project, rule.projectId, m.name, rule.name)
  }

  function Names(matches: seq<Match>): seq<string> {
    seq(|matches|, i requires 0 <= i < |matches| => matches[i].m.name)
  }

  /** What the resolver sees: whether its informers are synced, the maps it lists, the namespace it reads. */
  datatype Sight = Sight(synced: bool, maps: Option<seq<ScopeMap>>, namespace: Option<Namespace>)

  const BY_NAME: ScopeMap -> string := (m: ScopeMap) => m.name

  /** Ok(None) is passthrough: there are no maps at all. */
  function Resolve(instance: string, name: string, sight: Sight, evaluate: Evaluate):
    Result<Option<Scope>, ResolveError>
  {
    if !sight.synced then Err(MapsNotSynced)
    else if sight.maps.None? then Err(ListingFailed)
    else if sight.maps.value == [] then Ok(None)
    else if sight.namespace.None? then Err(NamespaceUnreadable)
    else
      var matches := Collect(Sort(sight.maps.value, BY_NAME), sight.namespace.value, evaluate);
      if matches.Err? then Err(matches.error) else Decide(instance, name, matches.value)
  }

  function Decide(instance: string, name: string, matches: seq<Match>): Result<Option<Scope>, ResolveError> {
    if |matches| == 0 then Err(NoMatch(name))
    else if |matches| > 1 then Err(ScopeConflict(name, Names(matches)))
    else
      var m := matches[0].m;
      if m.instance != instance then Err(InstanceMismatch(m.name, instance, m.instance))
      else if OrganizationOf(m) == NONE then Err(MapNotReady(m.name))
      else Ok(Some(ScopeOf(m, matches[0].rule)))
  }

  /** Scopes share a hash exactly if they agree on instance, organization id and project; names of maps, rules
      and organizations do not matter. */
  lemma HashIdentifies(a: Scope, b: Scope)
    ensures a.Hash() == b.Hash() <==>
      && a.instance == b.instance && a.organizationId == b.organizationId
      && a.projectName == b.projectName && a.projectId == b.projectId
  {
  }

  // ----- the loops of the source -----

  method CollectMatches(items: seq<ScopeMap>, ns: Namespace, evaluate: Evaluate)
    returns (r: Result<seq<Match>, ResolveError>)
    ensures r == Collect(items, ns, evaluate)
  {
    var matches: seq<Match> := [];
    for i := 0 to |items|
      invariant Collect(items[..i], ns, evaluate) == Ok(matches)
    {
      assert items[..i + 1][..i] == items[..i];
      var found := FindMatch(items[i].rules, ns, evaluate);
      match found
      case Missed =>
      case Found(j) => matches := matches + [Match(items[i], items[i].rules[j])];
      case Broken(j) =>
        CollectStops(items, i + 1, ns, evaluate);
        return Err(BadSelector(items[i].name, items[i].rules[j].name));
    }
    assert items[..|items|] == items;
    r := Ok(matches);
  }

  /** The inner loop: top-down, until a rule matches or cannot be evaluated. */
  method FindMatch(rules: seq<Rule>, ns: Namespace, evaluate: Evaluate) returns (r: Search)
    ensures r == FirstMatch(rules, ns, evaluate)
  {
    for j := 0 to |rules|
      invariant FirstMatch(rules[..j], ns, evaluate) == Missed
    {
      assert rules[..j + 1][..j] == rules[..j];
      var ok := RuleMatches(rules[j], ns, evaluate);
      if ok != Some(false) {
        EarlierDecides(rules, j + 1, ns, evaluate);
        return if ok.None? then Broken(j) else Found(j);
      }
    }
    assert rules[..|rules|] == rules;
    r := Missed;
  }

  /** A rule list is decided by its first decisive prefix. */
  lemma {:induction false} EarlierDecides(rules: seq<Rule>, n: nat, ns: Namespace, evaluate: Evaluate)
    requires n <= |rules| && FirstMatch(rules[..n], ns, evaluate) != Missed
    ensures FirstMatch(rules, ns, evaluate) == FirstMatch(rules[..n], ns, evaluate)
  {
    if n < |rules| {
      var k := |rules| - 1;
      assert rules[..k][..n] == rules[..n];
      EarlierDecides(rules[..k], n, ns, evaluate);
    } else {
      assert rules[..n] == rules;
    }
  }

  lemma {:induction false} CollectStops(items: seq<ScopeMap>, n: nat, ns: Namespace, evaluate: Evaluate)
    requires n <= |items| && Collect(items[..n], ns, evaluate).Err?
    ensures Collect(items, ns, evaluate) == Collect(items[..n], ns, evaluate)
  {
    if n < |items| {
      var k := |items| - 1;
      assert items[..k][..n] == items[..n];
      CollectStops(items[..k], n, ns, evaluate);
    } else {
      assert items[..n] == items;
    }
  }

  method ResolveNamespace(instance: string, name: string, sight: Sight, evaluate: Evaluate)
    returns (r: Result<Option<Scope>, ResolveError>)
    ensures r == Resolve(instance, name, sight, evaluate)
  {
    if !sight.synced {
      return Err(MapsNotSynced);
    }
    if sight.maps.None? {
      return Err(ListingFailed);
    }
    if sight.maps.value == [] {
      return Ok(None);
    }
    if sight.namespace.None? {
      return Err(NamespaceUnreadable);
    }
    var items := Sort(sight.maps.value, BY_NAME);
    var matches := CollectMatches(items, sight.namespace.value, evaluate);
    if matches.Err? {
      return Err(matches.error);
    }
    r := Decide(instance, name, matches.value);
  }

  // ----- what resolution means -----

  /** The rule has no selector and lists the namespace, or no list and a selector that its labels meet. */
  ghost predicate Fits(rule: Rule, ns: Namespace, evaluate: Evaluate) {
    || (rule.selector.None? && ns.name in rule.namespaces)
    || (rule.selector.Some? && rule.namespaces == [] && evaluate(rule.selector.value, ns.labels) == Some(true))
  }

  /** It has no selector and does not list the namespace, or both a selector and a list, or no list and a
      selector that the labels do not meet. What is left is a selector that cannot be evaluated. */
  ghost predicate Skips(rule: Rule, ns: Namespace, evaluate: Evaluate) {
    || (rule.selector.None? && ns.name !in rule.namespaces)
    || (rule.selector.Some? && rule.namespaces != [])
    || (rule.selector.Some? && evaluate(rule.selector.value, ns.labels) == Some(false))
  }

  lemma RuleMatchesMeans(rule: Rule, ns: Namespace, evaluate: Evaluate)
    ensures RuleMatches(rule, ns, evaluate) == Some(true) <==> Fits(rule, ns, evaluate)
    ensures RuleMatches(rule, ns, evaluate) == Some(false) <==> Skips(rule, ns, evaluate)
  {
  }

  /** Rule `j` is the lowest-index rule of `m` that matches, and all before it could be evaluated. */
  ghost predicate Wins(m: ScopeMap, j: nat, ns: Namespace, evaluate: Evaluate) {
    && j < |m.rules| && Fits(m.rules[j], ns, evaluate)
    && forall k | 0 <= k < j :: Skips(m.rules[k], ns, evaluate)
  }

  /** No rule of `m` matches, and all could be evaluated. */
  ghost predicate Silent(m: ScopeMap, ns: Namespace, evaluate: Evaluate) {
    forall k | 0 <= k < |m.rules| :: Skips(m.rules[k], ns, evaluate)
  }

  /** Rule `j` of `m` wins, and every other map is silent. */
  ghost predicate Selected(maps: seq<ScopeMap>, m: ScopeMap, j: nat, ns: Namespace, evaluate: Evaluate) {
    m in maps && Wins(m, j, ns, evaluate) && forall o | o in maps && o != m :: Silent(o, ns, evaluate)
  }

  lemma {:induction false} FirstMatchMeaning(rules: seq<Rule>, ns: Namespace, evaluate: Evaluate)
    ensures var r := FirstMatch(rules, ns, evaluate);
      if r == Missed then forall k | 0 <= k < |rules| :: Skips(rules[k], ns, evaluate)
      else
        && (forall k | 0 <= k < r.at :: Skips(rules[k], ns, evaluate))
        && !Skips(rules[r.at], ns, evaluate) && (r.Found? <==> Fits(rules[r.at], ns, evaluate))
  {
    hide RuleMatches, Skips, Fits;
    if rules != [] {
      FirstMatchMeaning(rules[..|rules| - 1], ns, evaluate);
      RuleMatchesMeans(rules[|rules| - 1], ns, evaluate);
    }
  }

  lemma WinnerIsFirst(m: ScopeMap, j: nat, ns: Namespace, evaluate: Evaluate)
    ensures Wins(m, j, ns, evaluate) <==> FirstMatch(m.rules, ns, evaluate) == Found(j)
    ensures Silent(m, ns, evaluate) <==> FirstMatch(m.rules, ns, evaluate) == Missed
  {
    hide Skips, Fits;
    FirstMatchMeaning(m.rules, ns, evaluate);
    if j < |m.rules| {
      NotBoth(m.rules[j], ns, evaluate);
    }
  }

  lemma NotBoth(rule: Rule, ns: Namespace, evaluate: Evaluate)
    ensures !(Fits(rule, ns, evaluate) && Skips(rule, ns, evaluate))
  {
  }

  /** Nothing is collected exactly when every map is silent. */
  lemma {:induction false} CollectNothing(items: seq<ScopeMap>, ns: Namespace, evaluate: Evaluate)
    ensures Collect(items, ns, evaluate) == Ok([]) <==> forall m | m in items :: Silent(m, ns, evaluate)
  {
    if items != [] {
      var n := |items| - 1;
      CollectNothing(items[..n], ns, evaluate);
      WinnerIsFirst(items[n], 0, ns, evaluate);
      assert forall m :: m in items <==> m in items[..n] || m == items[n];
    }
  }

  lemma LastIsNew(items: seq<ScopeMap>)
    requires items != [] && DistinctKeys(items, BY_NAME)
    ensures var n := |items| - 1;
      items[n] !in items[..n] && DistinctKeys(items[..n], BY_NAME)
      && forall o :: o in items <==> o in items[..n] || o == items[n]
  {
    var n := |items| - 1;
    forall i | 0 <= i < n ensures items[i] != items[n] {
      assert BY_NAME(items[i]) != BY_NAME(items[n]);
    }
  }

  lemma {:induction false} SelectedIsCollected(
    items: seq<ScopeMap>, m: ScopeMap, j: nat, ns: Namespace, evaluate: Evaluate)
    requires DistinctKeys(items, BY_NAME) && Selected(items, m, j, ns, evaluate)
    ensures Collect(items, ns, evaluate) == Ok([Match(m, m.rules[j])])
  {
    hide DistinctKeys, Wins, Silent;
    var n := |items| - 1;
    LastIsNew(items);
    WinnerIsFirst(items[n], j, ns, evaluate);
    if items[n] == m {
      CollectNothing(items[..n], ns, evaluate);
      assert [] + [Match(m, m.rules[j])] == [Match(m, m.rules[j])];
    } else {
      SelectedIsCollected(items[..n], m, j, ns, evaluate);
    }
  }

  lemma {:induction false} CollectedIsSelected(items: seq<ScopeMap>, mt: Match, ns: Namespace, evaluate: Evaluate)
    returns (j: nat)
    requires DistinctKeys(items, BY_NAME) && Collect(items, ns, evaluate) == Ok([mt])
    ensures Selected(items, mt.m, j, ns, evaluate) && mt.rule == mt.m.rules[j]
  {
    hide DistinctKeys, Wins, Silent;
    var n := |items| - 1;
    LastIsNew(items);
    var before := Collect(items[..n], ns, evaluate);
    var found := FirstMatch(items[n].rules, ns, evaluate);
    if found == Missed {
      j := CollectedIsSelected(items[..n], mt, ns, evaluate);
      WinnerIsFirst(items[n], j, ns, evaluate);
    } else {
      j := found.at;
      assert (before.value + [Match(items[n], items[n].rules[j])])[|before.value|] == mt;
      assert |before.value| == 0;
      CollectNothing(items[..n], ns, evaluate);
      WinnerIsFirst(items[n], j, ns, evaluate);
    }
  }

  /** Rule `j` of `m` is the one that the maps select; the map is for this instance; and the scope has the
      project of the rule, and the organization id of the map's spec or, without one, of its status. */
  ghost predicate Routes(
    instance: string, maps: seq<ScopeMap>, m: ScopeMap, j: nat, ns: Namespace, evaluate: Evaluate, scope: Scope)
  {
    && Selected(maps, m, j, ns, evaluate) && m.instance == instance && j < |m.rules|
    && scope.instance == instance && scope.mapName == m.name && scope.ruleName == m.rules[j].name
    && scope.projectName == m.rules[j].project && scope.projectId == m.rules[j].projectId
    && scope.organizationName == m.organization && scope.organizationId != NONE
    && scope.organizationId == (if m.organizationId != NONE then m.organizationId else m.resolvedOrganizationId)
  }

  lemma SortedMaps(maps: seq<ScopeMap>)
    requires DistinctKeys(maps, BY_NAME)
    ensures DistinctKeys(Sort(maps, BY_NAME), BY_NAME)
    ensures forall m :: m in maps <==> m in Sort(maps, BY_NAME)
  {
    SameMembers(maps, Sort(maps, BY_NAME));
    SortKeepsDistinct(maps, BY_NAME);
  }

  lemma SelectedInAnyOrder(
    maps: seq<ScopeMap>, others: seq<ScopeMap>, m: ScopeMap, j: nat, ns: Namespace, evaluate: Evaluate)
    requires forall o :: o in maps <==> o in others
    ensures Selected(maps, m, j, ns, evaluate) <==> Selected(others, m, j, ns, evaluate)
  {
  }

  /** A namespace resolves to a scope exactly when the maps select one rule and its map is for this
      operator's instance and knows its organization; the scope is that rule's. */
  lemma ResolvesToTheSelectedRule(instance: string, name: string, sight: Sight, evaluate: Evaluate, scope: Scope)
    requires sight.maps.Some? ==> DistinctKeys(sight.maps.value, BY_NAME)
    ensures Resolve(instance, name, sight, evaluate) == Ok(Some(scope)) <==>
      && sight.synced && sight.maps.Some? && sight.namespace.Some?
      && exists m, j: nat :: Routes(instance, sight.maps.value, m, j, sight.namespace.value, evaluate, scope)
  {
    hide Wins, Silent, Collect, DistinctKeys, Selected;
    if sight.synced && sight.maps.Some? && sight.namespace.Some? {
      var maps, ns := sight.maps.value, sight.namespace.value;
      var items := Sort(maps, BY_NAME);
      SortedMaps(maps);
      if Resolve(instance, name, sight, evaluate) == Ok(Some(scope)) {
        var matches := Collect(items, ns, evaluate).value;
        assert matches == [matches[0]];
        var j := CollectedIsSelected(items, matches[0], ns, evaluate);
        SelectedInAnyOrder(maps, items, matches[0].m, j, ns, evaluate);
        SelectedIn(maps, matches[0].m, j, ns, evaluate);
        assert Routes(instance, maps, matches[0].m, j, ns, evaluate, scope);
      }
      forall m, j: nat | Routes(instance, maps, m, j, ns, evaluate, scope)
        ensures Resolve(instance, name, sight, evaluate) == Ok(Some(scope))
      {
        SelectedInAnyOrder(maps, items, m, j, ns, evaluate);
        SelectedIsCollected(items, m, j, ns, evaluate);
        SelectedIn(maps, m, j, ns, evaluate);
      }
    }
  }

  lemma SelectedIn(maps: seq<ScopeMap>, m: ScopeMap, j: nat, ns: Namespace, evaluate: Evaluate)
    requires Selected(maps, m, j, ns, evaluate)
    ensures m in maps && j < |m.rules|
  {
  }

  /** The order in which the maps are listed does not matter, not even to the errors. */
  lemma ResolveIgnoresListingOrder(
    instance: string, name: string, sight: Sight, other: seq<ScopeMap>, evaluate: Evaluate)
    requires sight.maps.Some? && DistinctKeys(sight.maps.value, BY_NAME)
    requires multiset(sight.maps.value) == multiset(other)
    ensures Resolve(instance, name, sight, evaluate)
         == Resolve(instance, name, sight.(maps := Some(other)), evaluate)
  {
    var maps := sight.maps.value;
    DistinctKeysDetermine(maps, BY_NAME);
    SortCanonical(maps, other, BY_NAME);
    assert |maps| == |multiset(maps)| == |multiset(other)| == |other|;
  }

  /** Adding a map to maps that resolve a namespace never routes it elsewhere: the scope stays, or
      resolution fails. */
  lemma AddingAMapNeverReroutes(
    instance: string, name: string, sight: Sight, added: ScopeMap, evaluate: Evaluate, scope: Scope)
    requires sight.maps.Some? && DistinctKeys(sight.maps.value + [added], BY_NAME)
    requires Resolve(instance, name, sight, evaluate) == Ok(Some(scope))
    ensures var r := Resolve(instance, name, sight.(maps := Some(sight.maps.value + [added])), evaluate);
      r.Err? || r == Ok(Some(scope))
  {
    hide Resolve, Wins, DistinctKeys;
    var maps := sight.maps.value;
    var wider := sight.(maps := Some(maps + [added]));
    FewerDistinct(maps, added);
    ResolvesToTheSelectedRule(instance, name, sight, evaluate, scope);
    var m, j: nat :| Routes(instance, maps, m, j, sight.namespace.value, evaluate, scope);
    var r := Resolve(instance, name, wider, evaluate);
    if r.Ok? {
      PassthroughMeansNoMaps(instance, name, wider, evaluate);
      var other := r.value.value;
      ResolvesToTheSelectedRule(instance, name, wider, evaluate, other);
      var m2, j2: nat :| Routes(instance, maps + [added], m2, j2, sight.namespace.value, evaluate, other);
      OnlyOneWinner(maps + [added], m, j, m2, j2, sight.namespace.value, evaluate);
    }
  }

  lemma FewerDistinct(maps: seq<ScopeMap>, added: ScopeMap)
    requires DistinctKeys(maps + [added], BY_NAME)
    ensures DistinctKeys(maps, BY_NAME)
  {
    forall i, j | 0 <= i < j < |maps| ensures BY_NAME(maps[i]) != BY_NAME(maps[j]) {
      assert (maps + [added])[i] == maps[i] && (maps + [added])[j] == maps[j];
    }
  }

  lemma OnlyOneWinner(
    maps: seq<ScopeMap>, m: ScopeMap, j: nat, m2: ScopeMap, j2: nat, ns: Namespace, evaluate: Evaluate)
    requires m in maps && Wins(m, j, ns, evaluate) && Selected(maps, m2, j2, ns, evaluate)
    ensures m == m2 && j == j2
  {
    assert m != m2 ==> Silent(m, ns, evaluate);
  }

  /** Maps once present, a namespace is never passed through: only an empty listing does that. */
  lemma PassthroughMeansNoMaps(instance: string, name: string, sight: Sight, evaluate: Evaluate)
    ensures Resolve(instance, name, sight, evaluate) == Ok(None) <==> sight.synced && sight.maps == Some([])
  {
  }

  // ----- what the errors mean -----

  ghost predicate Winner(m: ScopeMap, ns: Namespace, evaluate: Evaluate) {
    exists j: nat :: Wins(m, j, ns, evaluate)
  }

  /** Every map has a winning rule or none that matches; no selector before that is malformed. */
  ghost predicate Decided(maps: seq<ScopeMap>, ns: Namespace, evaluate: Evaluate) {
    forall m | m in maps :: Silent(m, ns, evaluate) || Winner(m, ns, evaluate)
  }

  lemma WinnerIsFound(m: ScopeMap, ns: Namespace, evaluate: Evaluate)
    ensures Winner(m, ns, evaluate) <==> FirstMatch(m.rules, ns, evaluate).Found?
    ensures Silent(m, ns, evaluate) <==> FirstMatch(m.rules, ns, evaluate) == Missed
  {
    hide Wins, Silent;
    var r := FirstMatch(m.rules, ns, evaluate);
    WinnerIsFirst(m, if r.Found? then r.at else 0, ns, evaluate);
    if Winner(m, ns, evaluate) {
      var j: nat :| Wins(m, j, ns, evaluate);
      WinnerIsFirst(m, j, ns, evaluate);
    }
  }

  /** What is collected are the maps that have a winner, each once. */
  ghost predicate Covers(items: seq<ScopeMap>, matches: seq<Match>, ns: Namespace, evaluate: Evaluate) {
    && (forall i | 0 <= i < |matches| :: matches[i].m in items && Winner(matches[i].m, ns, evaluate))
    && (forall m | m in items && Winner(m, ns, evaluate) :: exists i | 0 <= i < |matches| :: matches[i].m == m)
    && forall i, k | 0 <= i < k < |matches| :: matches[i].m != matches[k].m
  }

  lemma {:induction false} CollectCovers(items: seq<ScopeMap>, ns: Namespace, evaluate: Evaluate)
    requires DistinctKeys(items, BY_NAME)
    ensures var r := Collect(items, ns, evaluate);
      && (r.Ok? <==> Decided(items, ns, evaluate))
      && (r.Ok? ==> Covers(items, r.value, ns, evaluate))
  {
    hide DistinctKeys, Winner, Silent;
    if items != [] {
      var n := |items| - 1;
      LastIsNew(items);
      CollectCovers(items[..n], ns, evaluate);
      WinnerIsFound(items[n], ns, evaluate);
      var before, r := Collect(items[..n], ns, evaluate), Collect(items, ns, evaluate);
      assert Decided(items, ns, evaluate) <==>
        Decided(items[..n], ns, evaluate) && (Silent(items[n], ns, evaluate) || Winner(items[n], ns, evaluate));
      if r.Ok? {
        CoversOneMore(items, before.value, r.value, ns, evaluate);
      }
    }
  }

  lemma CoversOneMore(items: seq<ScopeMap>, before: seq<Match>, after: seq<Match>, ns: Namespace, evaluate: Evaluate)
    requires items != [] && Covers(items[..|items| - 1], before, ns, evaluate)
    requires var last := items[|items| - 1];
      && last !in items[..|items| - 1]
      && (if Winner(last, ns, evaluate)
          then |after| == |before| + 1 && after[..|before|] == before && after[|before|].m == last
          else after == before)
    ensures Covers(items, after, ns, evaluate)
  {
    hide Winner;
    var n := |items| - 1;
    assert forall o :: o in items <==> o in items[..n] || o == items[n];
    assert forall i | 0 <= i < |before| :: after[i] == before[i];
    forall m | m in items && Winner(m, ns, evaluate) ensures exists i | 0 <= i < |after| :: after[i].m == m {
      if m != items[n] {
        var i :| 0 <= i < |before| && before[i].m == m;
        assert after[i].m == m;
      } else {
        assert after[|before|].m == m;
      }
    }
  }

  /** Two different maps have a winner. */
  ghost predicate Contested(maps: seq<ScopeMap>, ns: Namespace, evaluate: Evaluate) {
    exists a, b | a in maps && b in maps && a != b :: Winner(a, ns, evaluate) && Winner(b, ns, evaluate)
  }

  /** With maps present and all reads done, each error tells the one thing that is wrong: a malformed selector,
      no map with a matching rule, several, a map of another instance, or one without an organization. */
  lemma ErrorsTellWhy(instance: string, name: string, sight: Sight, evaluate: Evaluate)
    requires sight.synced && sight.maps.Some? && sight.maps.value != [] && sight.namespace.Some?
    requires DistinctKeys(sight.maps.value, BY_NAME)
    ensures var maps, ns := sight.maps.value, sight.namespace.value;
      var r := Resolve(instance, name, sight, evaluate);
      && (r.Err? && r.error.BadSelector? <==> !Decided(maps, ns, evaluate))
      && (r == Err(NoMatch(name)) <==> forall m | m in maps :: Silent(m, ns, evaluate))
      && (r.Err? && r.error.ScopeConflict? <==> Decided(maps, ns, evaluate) && Contested(maps, ns, evaluate))
      && (r.Err? && r.error.InstanceMismatch? <==>
            exists m, j: nat :: Selected(maps, m, j, ns, evaluate) && m.instance != instance)
      && (r.Err? && r.error.MapNotReady? <==>
            exists m, j: nat :: Selected(maps, m, j, ns, evaluate) && m.instance == instance
                                && m.organizationId == NONE && m.resolvedOrganizationId == NONE)
  {
    hide Wins, Silent, Collect, DistinctKeys, Selected, Winner, Decided, Contested;
    var maps, ns := sight.maps.value, sight.namespace.value;
    var items := Sort(maps, BY_NAME);
    SortedMaps(maps);
    assert items != [] by {
      assert maps[0] in items;
    }
    CollectCovers(items, ns, evaluate);
    CollectNothing(items, ns, evaluate);
    SameVerdicts(maps, items, ns, evaluate);
    var collected := Collect(items, ns, evaluate);
    if collected.Ok? {
      ManyAreContested(items, collected.value, ns, evaluate);
      if |collected.value| == 1 {
        assert collected.value == [collected.value[0]];
        var j := CollectedIsSelected(items, collected.value[0], ns, evaluate);
        SelectedInAnyOrder(maps, items, collected.value[0].m, j, ns, evaluate);
      }
    }
    forall m, j: nat | Selected(maps, m, j, ns, evaluate)
      ensures collected.Ok? && |collected.value| == 1 && collected.value[0].m == m
    {
      SelectedIn(maps, m, j, ns, evaluate);
      SelectedInAnyOrder(maps, items, m, j, ns, evaluate);
      SelectedIsCollected(items, m, j, ns, evaluate);
    }
  }

  lemma SameVerdicts(maps: seq<ScopeMap>, items: seq<ScopeMap>, ns: Namespace, evaluate: Evaluate)
    requires forall m :: m in maps <==> m in items
    ensures Decided(maps, ns, evaluate) <==> Decided(items, ns, evaluate)
    ensures Contested(maps, ns, evaluate) <==> Contested(items, ns, evaluate)
  {
    hide Winner, Silent;
  }

  lemma ManyAreContested(items: seq<ScopeMap>, matches: seq<Match>, ns: Namespace, evaluate: Evaluate)
    requires Covers(items, matches, ns, evaluate)
    ensures |matches| > 1 <==> Contested(items, ns, evaluate)
  {
    hide Winner;
    if |matches| > 1 {
      assert matches[0].m != matches[1].m;
    }
    if Contested(items, ns, evaluate) {
      var a, b :| a in items && b in items && a != b && Winner(a, ns, evaluate) && Winner(b, ns, evaluate);
      var i :| 0 <= i < |matches| && matches[i].m == a;
      var k :| 0 <= k < |matches| && matches[k].m == b;
    }
  }
}
