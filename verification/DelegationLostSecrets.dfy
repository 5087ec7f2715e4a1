/** A delegation Secret that is deleted by hand while its machine user lives: which Ensure mints again,
    and what it leaves behind. */
module DelegationLostSecrets {
  import opened Base
  import opened ScopeMaps
  import opened DelegationSpec
  import opened DelegationInvariants
  import opened DelegationHealing

  /** The cache answers for a scope without a Secret. */
  ghost predicate Shielded(s: State, h: ScopeHash) {
    h in s.cache && (s.cache[h].validated || s.cache[h].user in s.users)
  }

  /** Without a Secret, and if no call fails, Ensure mints again exactly if the cache does not answer;
      otherwise it writes no Secret, and succeeds exactly as long as the cached key is not due. */
  lemma EnsureRemintsIffNotShielded(s: State, scope: Scope)
    requires scope.Hash() !in s.secrets
    ensures var (t, r) := Ensure(s, scope, ALL_FINE);
      var h := scope.Hash();
      && (h in t.secrets <==> !Shielded(s, h))
      && (r.Ok? <==> !(Shielded(s, h) && Due(s, s.cache[h])))
  {
    hide Mint, Validate, RotateIfDue;
    var h := scope.Hash();
    if h in s.cache {
      ValidateWithoutSecret(s, h);
      var t := Validate(s, h, ALL_FINE).0;
      if h in t.cache {
        RotateWithoutSecret(t, h);
      } else {
        MintStores(t, scope);
      }
    } else {
      MintStores(s, scope);
    }
  }

  lemma ValidateWithoutSecret(s: State, h: ScopeHash)
    requires h in s.cache && h !in s.secrets
    ensures var (t, e) := Validate(s, h, ALL_FINE);
      && e.None? && t.secrets == s.secrets && t.now == s.now && t.rotateAfter == s.rotateAfter && t.users == s.users
      && t.nextId == s.nextId
      && (h in t.cache <==> Shielded(s, h))
      && (h in t.cache ==> t.cache[h] == s.cache[h].(validated := true))
  {
  }

  lemma RotateWithoutSecret(s: State, h: ScopeHash)
    requires h in s.cache && h !in s.secrets
    ensures var (t, r) := RotateIfDue(s, h, ALL_FINE);
      && h !in t.secrets && (r.Ok? <==> !Due(s, s.cache[h])) && t.cache == s.cache
      && t.now == s.now && t.rotateAfter == s.rotateAfter
      && (t == if Due(s, s.cache[h]) && s.cache[h].user in s.users then AddKey(s, s.cache[h].user) else s)
  {
  }

  lemma MintStores(s: State, scope: Scope)
    requires scope.Hash() !in s.secrets
    ensures Mint(s, scope, ALL_FINE).1.Ok? && scope.Hash() in Mint(s, scope, ALL_FINE).0.secrets
  {
    var (t, u) := EnsureUser(s, scope.Hash(), ALL_FINE);
    assert u.Ok? && t.secrets == s.secrets;
    var (v, p) := EnsureProject(t, scope, ALL_FINE);
    assert p.Ok? && v.secrets == s.secrets;
  }

  // ----- what accumulates -----

  /** The cached key of `h` is due, its user lives, and there is no Secret to rotate it in. */
  ghost predicate Stuck(s: State, h: ScopeHash) {
    && h in s.cache && h !in s.secrets && s.cache[h].user in s.users && Due(s, s.cache[h])
    && UserIds(s.users, s.nextId)
  }

  /** After `n` Ensures. */
  ghost function Tried(s: State, scope: Scope, n: nat): State {
    if n == 0 then s else Ensure(Tried(s, scope, n - 1), scope, ALL_FINE).0
  }

  lemma StuckEnsure(s: State, scope: Scope)
    requires Stuck(s, scope.Hash())
    ensures var (t, r) := Ensure(s, scope, ALL_FINE);
      var u := s.cache[scope.Hash()].user;
      && r.Err? && Stuck(t, scope.Hash()) && t.cache[scope.Hash()].user == u
      && t.users[u].keys == s.users[u].keys + {s.nextId} && s.nextId !in s.users[u].keys
  {
    hide WarmOrMint, Validate, RotateIfDue, AddKey, UserIds;
    var h := scope.Hash();
    ValidateWithoutSecret(s, h);
    var t := Validate(s, h, ALL_FINE).0;
    RotateWithoutSecret(t, h);
    AddKeyIds(t, t.cache[h].user);
    assert Ensure(s, scope, ALL_FINE) == RotateIfDue(t, h, ALL_FINE);
  }

  lemma AddKeyIds(s: State, u: Id)
    requires u in s.users && UserIds(s.users, s.nextId)
    ensures var t := AddKey(s, u);
      && UserIds(t.users, t.nextId) && u in t.users
      && t.users[u].keys == s.users[u].keys + {s.nextId} && s.nextId !in s.users[u].keys
  {
  }

  /** Every further Ensure fails although none of its calls does, and leaves one more live key of the user,
      without bound. */
  lemma {:induction false} EveryEnsureAddsAKey(s: State, scope: Scope, n: nat)
    requires Stuck(s, scope.Hash())
    ensures var t := Tried(s, scope, n);
      var u := s.cache[scope.Hash()].user;
      && Stuck(t, scope.Hash()) && t.cache[scope.Hash()].user == u
      && s.users[u].keys <= t.users[u].keys && |t.users[u].keys| == |s.users[u].keys| + n
      && Ensure(t, scope, ALL_FINE).1.Err?
  {
    hide Ensure, Stuck;
    if n > 0 {
      EveryEnsureAddsAKey(s, scope, n - 1);
      StuckEnsure(Tried(s, scope, n - 1), scope);
      StuckUser(Tried(s, scope, n - 1), scope.Hash());
    }
    StuckUser(s, scope.Hash());
    StuckEnsure(Tried(s, scope, n), scope);
  }

  lemma StuckUser(s: State, h: ScopeHash)
    requires Stuck(s, h)
    ensures h in s.cache && s.cache[h].user in s.users
  {
  }

  /** A restart ends that: the next Ensure adopts the user and writes a Secret, which names one new key;
      all the others stay live and no Secret accounts for them. */
  lemma RestartAdoptsTheUser(s: State, scope: Scope, u: Id)
    requires Named(s, u, scope.Hash()) && scope.Hash() !in s.secrets && OneUserPerHash(s.users)
    ensures var (t, r) := Ensure(s.(cache := map[]), scope, ALL_FINE);
      var h := scope.Hash();
      && r.Ok? && h in t.secrets && t.secrets[h].user == u && t.secrets[h].oldKey == NONE && u in t.users
      && t.users[u].keys == s.users[u].keys + {t.secrets[h].key}
  {
    var v := s.(cache := map[]);
    var h := scope.Hash();
    assert Warm(v, h, ALL_FINE) == (v, Ok(None));
    assert Named(v, u, h);
    assert EnsureUser(v, h, ALL_FINE) == (v, Ok(u));
    var (w, p) := EnsureProject(v, scope, ALL_FINE);
    assert p.Ok? && w.users == s.users && w.secrets == s.secrets;
    assert Ensure(v, scope, ALL_FINE) == Issue(w, scope, u, p.value, ALL_FINE);
  }
}
