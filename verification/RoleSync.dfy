/** The role set of a project: missing roles are added one by one, then extra ones are removed. */
module RoleSync {
  import opened Base

  /** The roles on the server, and whether the calls succeeded so far. */
  datatype Progress = Progress(roles: set<string>, ok: bool)

  function Members(xs: seq<string>): set<string> {
    set r | r in xs
  }

  /** A role that exists cannot be added. */
  function AddRole(roles: set<string>, role: string, o: Outcome): Progress {
    if role in roles then Progress(roles, false)
    else Progress(if o == Lost then roles else roles + {role}, o == Done)
  }

  /** A role that does not exist cannot be removed. */
  function RemoveRole(roles: set<string>, role: string, o: Outcome): Progress {
    if role !in roles then Progress(roles, false)
    else Progress(if o == Lost then roles else roles - {role}, o == Done)
  }

  /** After the first `n` desired roles. */
  function Adding(existing: set<string>, desired: seq<string>, calls: seq<Outcome>, n: nat): Progress
    requires n <= |desired| == |calls|
  {
    if n == 0 then Progress(existing, true)
    else
      var p := Adding(existing, desired, calls, n - 1);
      if !p.ok || desired[n - 1] in existing then p
      else AddRole(p.roles, desired[n - 1], calls[n - 1])
  }

  /** After the first `n` listed roles, in the order in which the listing comes back from a Go map. */
  function Removing(start: Progress, listed: seq<string>, desired: seq<string>, calls: seq<Outcome>, n: nat): Progress
    requires n <= |listed| == |calls|
  {
    if n == 0 then start
    else
      var p := Removing(start, listed, desired, calls, n - 1);
      if !p.ok || listed[n - 1] in desired then p
      else RemoveRole(p.roles, listed[n - 1], calls[n - 1])
  }

  function SyncRoles(
    existing: set<string>, listed: seq<string>, desired: seq<string>, adds: seq<Outcome>, removes: seq<Outcome>):
    Progress
    requires |adds| == |desired| && |removes| == |listed|
  {
    Removing(Adding(existing, desired, adds, |desired|), listed, desired, removes, |listed|)
  }

  ghost predicate NoDuplicates(xs: seq<string>) {
    forall i, j | 0 <= i < j < |xs| :: xs[i] != xs[j]
  }

  /** A complete listing, in some order. */
  ghost predicate Lists(listed: seq<string>, existing: set<string>) {
    Members(listed) == existing && NoDuplicates(listed)
  }

  ghost predicate AllDone(calls: seq<Outcome>) {
    forall i | 0 <= i < |calls| :: calls[i] == Done
  }

  /** What separates the server from the spec. */
  function Difference(roles: set<string>, desired: seq<string>): set<string> {
    (roles - Members(desired)) + (Members(desired) - roles)
  }

  ghost predicate Between(roles: set<string>, existing: set<string>, desired: seq<string>) {
    existing * Members(desired) <= roles <= existing + Members(desired)
  }

  // ----- the two loops -----

  lemma {:induction false} AddingReaches(existing: set<string>, desired: seq<string>, calls: seq<Outcome>, n: nat)
    requires n <= |desired| == |calls|
    ensures var p := Adding(existing, desired, calls, n);
      existing <= p.roles <= existing + Members(desired) && (p.ok ==> p.roles == existing + Members(desired[..n]))
  {
    if n > 0 {
      AddingReaches(existing, desired, calls, n - 1);
      assert desired[..n] == desired[..n - 1] + [desired[n - 1]];
      assert desired[n - 1] in Members(desired);
    }
  }

  lemma {:induction false} RemovingReaches(
    start: Progress, existing: set<string>, listed: seq<string>, desired: seq<string>, calls: seq<Outcome>, n: nat)
    requires n <= |listed| == |calls| && Between(start.roles, existing, desired)
    ensures var p := Removing(start, listed, desired, calls, n);
      && Between(p.roles, existing, desired) && p.roles <= start.roles
      && (p.ok ==> start.ok && p.roles == start.roles - (Members(listed[..n]) - Members(desired)))
  {
    if n > 0 {
      RemovingReaches(start, existing, listed, desired, calls, n - 1);
      assert listed[..n] == listed[..n - 1] + [listed[n - 1]];
    }
  }

  /** At every intermediate point, wherever a call fails, the server has every desired role that it had
      before, and no role that is neither desired nor was there before. */
  lemma AlwaysBetween(
    existing: set<string>, listed: seq<string>, desired: seq<string>, adds: seq<Outcome>, removes: seq<Outcome>,
    n: nat, m: nat)
    requires Lists(listed, existing) && n <= |desired| == |adds| && m <= |listed| == |removes|
    ensures Between(Adding(existing, desired, adds, n).roles, existing, desired)
    ensures var added := Adding(existing, desired, adds, |desired|);
      Between(Removing(added, listed, desired, removes, m).roles, existing, desired)
  {
    AddingReaches(existing, desired, adds, n);
    AddingReaches(existing, desired, adds, |desired|);
    RemovingReaches(Adding(existing, desired, adds, |desired|), existing, listed, desired, removes, m);
  }

  /** Success means exactly the desired roles. */
  lemma SyncEndsAtTheSpec(
    existing: set<string>, listed: seq<string>, desired: seq<string>, adds: seq<Outcome>, removes: seq<Outcome>)
    requires Lists(listed, existing) && |desired| == |adds| && |listed| == |removes|
    ensures var p := SyncRoles(existing, listed, desired, adds, removes);
      && (p.ok ==> p.roles == Members(desired))
      && Difference(p.roles, desired) <= Difference(existing, desired)
  {
    AddingReaches(existing, desired, adds, |desired|);
    RemovingReaches(Adding(existing, desired, adds, |desired|), existing, listed, desired, removes, |listed|);
    assert desired[..|desired|] == desired && listed[..|listed|] == listed;
  }

  /** Every call that has an effect brings the server closer to the spec. */
  lemma EveryCallShrinksTheDifference(
    start: Progress, existing: set<string>, listed: seq<string>, desired: seq<string>,
    adds: seq<Outcome>, removes: seq<Outcome>, n: nat, m: nat)
    requires n < |desired| == |adds| && m < |listed| == |removes|
    ensures var p, q := Adding(existing, desired, adds, n), Adding(existing, desired, adds, n + 1);
      p.roles != q.roles ==> Difference(q.roles, desired) < Difference(p.roles, desired)
    ensures var p, q := Removing(start, listed, desired, removes, m), Removing(start, listed, desired, removes, m + 1);
      p.roles != q.roles ==> Difference(q.roles, desired) < Difference(p.roles, desired)
  {
    assert desired[n] in Members(desired);
    var p, q := Adding(existing, desired, adds, n), Adding(existing, desired, adds, n + 1);
    assert p.roles != q.roles ==> desired[n] in Difference(p.roles, desired) - Difference(q.roles, desired);
    var u, v := Removing(start, listed, desired, removes, m), Removing(start, listed, desired, removes, m + 1);
    assert u.roles != v.roles ==> listed[m] in Difference(u.roles, desired) - Difference(v.roles, desired);
  }

  // ----- when it succeeds -----

  /** No missing role is desired twice among the first `n`. */
  ghost predicate MissingOnce(existing: set<string>, desired: seq<string>, n: nat)
    requires n <= |desired|
  {
    forall i, j | 0 <= i < j < n && desired[i] == desired[j] :: desired[i] in existing
  }

  lemma {:induction false} AddingSucceeds(existing: set<string>, desired: seq<string>, calls: seq<Outcome>, n: nat)
    requires n <= |desired| == |calls| && AllDone(calls)
    ensures Adding(existing, desired, calls, n).ok <==> MissingOnce(existing, desired, n)
  {
    if n > 0 {
      AddingSucceeds(existing, desired, calls, n - 1);
      AddingReaches(existing, desired, calls, n - 1);
      var p := Adding(existing, desired, calls, n - 1);
      if p.ok && desired[n - 1] !in existing {
        assert desired[n - 1] in p.roles <==> desired[n - 1] in desired[..n - 1];
      }
    }
  }

  lemma {:induction false} RemovingSucceeds(
    start: Progress, existing: set<string>, listed: seq<string>, desired: seq<string>, calls: seq<Outcome>, n: nat)
    requires n <= |listed| == |calls| && AllDone(calls) && Lists(listed, existing)
    requires start.ok && start.roles == existing + Members(desired)
    ensures Removing(start, listed, desired, calls, n).ok
  {
    if n > 0 {
      RemovingSucceeds(start, existing, listed, desired, calls, n - 1);
      RemovingReaches(start, existing, listed, desired, calls, n - 1);
      assert listed[n - 1] !in listed[..n - 1];
      assert listed[n - 1] in Members(listed);
    }
  }

  /** If no call fails by itself, a sync succeeds exactly when no missing role is listed twice in the
      spec: adding its second copy is refused. */
  lemma SyncSucceedsIffMissingOnce(
    existing: set<string>, listed: seq<string>, desired: seq<string>, adds: seq<Outcome>, removes: seq<Outcome>)
    requires Lists(listed, existing) && |desired| == |adds| && |listed| == |removes|
    requires AllDone(adds) && AllDone(removes)
    ensures SyncRoles(existing, listed, desired, adds, removes).ok <==> MissingOnce(existing, desired, |desired|)
  {
    AddingSucceeds(existing, desired, adds, |desired|);
    AddingReaches(existing, desired, adds, |desired|);
    var start := Adding(existing, desired, adds, |desired|);
    assert desired[..|desired|] == desired;
    if start.ok {
      RemovingSucceeds(start, existing, listed, desired, removes, |listed|);
    } else {
      RemovingReaches(start, existing, listed, desired, removes, |listed|);
    }
  }

  /** A sync that is refused has added the first copy. */
  lemma RefusedSyncProgresses(
    existing: set<string>, listed: seq<string>, desired: seq<string>, adds: seq<Outcome>, removes: seq<Outcome>)
    requires Lists(listed, existing) && |desired| == |adds| && |listed| == |removes|
    requires AllDone(adds) && AllDone(removes)
    ensures var p := SyncRoles(existing, listed, desired, adds, removes);
      !p.ok ==> Difference(p.roles, desired) < Difference(existing, desired)
  {
    var start := Adding(existing, desired, adds, |desired|);
    var p := SyncRoles(existing, listed, desired, adds, removes);
    SyncSucceedsIffMissingOnce(existing, listed, desired, adds, removes);
    if !p.ok {
      AddingSucceeds(existing, desired, adds, |desired|);
      RemovingStops(start, listed, desired, removes, |listed|);
      SyncEndsAtTheSpec(existing, listed, desired, adds, removes);
      var i, j :| 0 <= i < j < |desired| && desired[i] == desired[j] && desired[i] !in existing;
      RefusedAfterFirst(existing, desired, adds, |desired|);
    }
  }

  lemma {:induction false} RemovingStops(
    start: Progress, listed: seq<string>, desired: seq<string>, calls: seq<Outcome>, n: nat)
    requires n <= |listed| == |calls| && !start.ok
    ensures Removing(start, listed, desired, calls, n) == start
  {
    if n > 0 {
      RemovingStops(start, listed, desired, calls, n - 1);
    }
  }

  lemma {:induction false} RefusedAfterFirst(existing: set<string>, desired: seq<string>, calls: seq<Outcome>, n: nat)
    requires n <= |desired| == |calls| && AllDone(calls) && !Adding(existing, desired, calls, n).ok
    ensures exists r :: r in Adding(existing, desired, calls, n).roles && r !in existing
  {
    if !Adding(existing, desired, calls, n - 1).ok {
      RefusedAfterFirst(existing, desired, calls, n - 1);
    } else {
      assert desired[n - 1] in Adding(existing, desired, calls, n).roles && desired[n - 1] !in existing;
    }
  }

  /** The listing that each of several syncs works on; whatever order it has. */
  type Listings = nat -> seq<string>

  function Fine(n: nat): (calls: seq<Outcome>)
    ensures |calls| == n && forall i | 0 <= i < n :: calls[i] == Done
  {
    seq(n, _ => Done)
  }

  /** The roles at the start of the n-th sync. */
  function Retried(existing: set<string>, listings: Listings, desired: seq<string>, n: nat): set<string> {
    if n == 0 then existing
    else
      var roles := Retried(existing, listings, desired, n - 1);
      SyncRoles(roles, listings(n - 1), desired, Fine(|desired|), Fine(|listings(n - 1)|)).roles
  }

  ghost predicate AlwaysLists(existing: set<string>, listings: Listings, desired: seq<string>) {
    forall n: nat :: Lists(listings(n), Retried(existing, listings, desired, n))
  }

  lemma RetryProgresses(existing: set<string>, listings: Listings, desired: seq<string>, n: nat)
    requires AlwaysLists(existing, listings, desired)
    ensures var roles, next := Retried(existing, listings, desired, n), Retried(existing, listings, desired, n + 1);
      next == Members(desired) || Difference(next, desired) < Difference(roles, desired)
  {
    hide SyncRoles, Difference;
    var roles := Retried(existing, listings, desired, n);
    assert Lists(listings(n), roles);
    SyncEndsAtTheSpec(roles, listings(n), desired, Fine(|desired|), Fine(|listings(n)|));
    RefusedSyncProgresses(roles, listings(n), desired, Fine(|desired|), Fine(|listings(n)|));
  }

  /** Once calls stop failing by themselves, retries reach the spec, however often it repeats roles:
      after no more failures than there are differences. */
  lemma {:induction false} RetriesConverge(existing: set<string>, listings: Listings, desired: seq<string>, from: nat)
    returns (n: nat)
    requires AlwaysLists(existing, listings, desired)
    ensures from <= n <= from + |Difference(Retried(existing, listings, desired, from), desired)|
    ensures Retried(existing, listings, desired, n + 1) == Members(desired)
    decreases |Difference(Retried(existing, listings, desired, from), desired)|
  {
    hide Retried, AlwaysLists, Difference;
    RetryProgresses(existing, listings, desired, from);
    var roles, next := Retried(existing, listings, desired, from), Retried(existing, listings, desired, from + 1);
    if next == Members(desired) {
      n := from;
    } else {
      FewerElements(Difference(next, desired), Difference(roles, desired));
      n := RetriesConverge(existing, listings, desired, from + 1);
    }
  }

  lemma FewerElements(a: set<string>, b: set<string>)
    requires a < b
    ensures |a| < |b|
  {
    assert |b| == |a| + |b - a| by {
      assert a + (b - a) == b;
    }
    assert b - a != {};
  }

  // ----- the sync as it runs -----

  /** The roles of one project. */
  class Project {
    var roles: set<string>

    constructor (roles: set<string>)
      ensures this.roles == roles
    {
      this.roles := roles;
    }

    method AddProjectRole(role: string, o: Outcome) returns (ok: bool)
      modifies this
      ensures Progress(roles, ok) == AddRole(old(roles), role, o)
    {
      if role in roles {
        return false;
      }
      if o != Lost {
        roles := roles + {role};
      }
      ok := o == Done;
    }

    method RemoveProjectRole(role: string, o: Outcome) returns (ok: bool)
      modifies this
      ensures Progress(roles, ok) == RemoveRole(old(roles), role, o)
    {
      if role !in roles {
        return false;
      }
      if o != Lost {
        roles := roles - {role};
      }
      ok := o == Done;
    }

    /** `listed` is what the server answers, None when it does not. */
    method Sync(listed: Option<seq<string>>, desiredRoles: seq<string>, adds: seq<Outcome>, removes: seq<Outcome>)
      returns (ok: bool)
      requires listed.Some? ==> Lists(listed.value, roles) && |removes| == |listed.value|
      requires |adds| == |desiredRoles|
      modifies this
      ensures listed.None? ==> !ok && roles == old(roles)
      ensures listed.Some? ==> Progress(roles, ok) == SyncRoles(old(roles), listed.value, desiredRoles, adds, removes)
      ensures ok ==> roles == Members(desiredRoles)
      ensures Between(roles, old(roles), desiredRoles)
    {
      if listed.None? {
        return false;
      }
      AlwaysBetween(roles, listed.value, desiredRoles, adds, removes, 0, |listed.value|);
      SyncEndsAtTheSpec(roles, listed.value, desiredRoles, adds, removes);
      ghost var before := roles;
      var existing: set<string> := {};
      for i := 0 to |listed.value|
        invariant existing == Members(listed.value[..i]) && roles == before
      {
        existing := existing + {listed.value[i]};
      }
      assert listed.value[..|listed.value|] == listed.value;
      var desired: set<string> := {};
      for i := 0 to |desiredRoles|
        invariant desired == Members(desiredRoles[..i]) && roles == before
      {
        desired := desired + {desiredRoles[i]};
      }
      assert desiredRoles[..|desiredRoles|] == desiredRoles;
      for i := 0 to |desiredRoles|
        invariant Adding(before, desiredRoles, adds, i) == Progress(roles, true)
      {
        if desiredRoles[i] !in existing {
          ok := AddProjectRole(desiredRoles[i], adds[i]);
          if !ok {
            AddingStops(before, desiredRoles, adds, i + 1, |desiredRoles|);
            RemovingStops(Progress(roles, false), listed.value, desiredRoles, removes, |listed.value|);
            return;
          }
        }
      }
      ghost var start := Progress(roles, true);
      for i := 0 to |listed.value|
        invariant Removing(start, listed.value, desiredRoles, removes, i) == Progress(roles, true)
      {
        if listed.value[i] !in desired {
          ok := RemoveProjectRole(listed.value[i], removes[i]);
          if !ok {
            RemovingStopsAt(start, listed.value, desiredRoles, removes, i + 1, |listed.value|);
            return;
          }
        }
      }
      ok := true;
    }
  }

  lemma {:induction false} AddingStops(
    existing: set<string>, desired: seq<string>, calls: seq<Outcome>, n: nat, m: nat)
    requires n <= m <= |desired| == |calls| && !Adding(existing, desired, calls, n).ok
    ensures Adding(existing, desired, calls, m) == Adding(existing, desired, calls, n)
  {
    if n < m {
      AddingStops(existing, desired, calls, n, m - 1);
    }
  }

  lemma {:induction false} RemovingStopsAt(
    start: Progress, listed: seq<string>, desired: seq<string>, calls: seq<Outcome>, n: nat, m: nat)
    requires n <= m <= |listed| == |calls| && !Removing(start, listed, desired, calls, n).ok
    ensures Removing(start, listed, desired, calls, m) == Removing(start, listed, desired, calls, n)
  {
    if n < m {
      RemovingStopsAt(start, listed, desired, calls, n, m - 1);
    }
  }
}
