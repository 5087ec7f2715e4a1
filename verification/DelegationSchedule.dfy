/** Sweeps often enough: if one runs past the grace between any two rotations of a scope, and no call
    fails, the Secrets account for every live key. */
module DelegationSchedule {
  import opened Base
  import opened ScopeMaps
  import opened DelegationSpec
  import opened DelegationInvariants
  import opened DelegationSafety
  import opened DelegationSweeping
  import opened DelegationRuns
  import opened DelegationTracking

  // ----- where pending keys come from -----

  /** Whatever key is pending for `h` in `t` was pending in `s`, until the same time. */
  ghost predicate KeepsMarker(s: State, t: State, h: ScopeHash) {
    h in t.secrets && t.secrets[h].oldKey != NONE ==>
      h in s.secrets && t.secrets[h].oldKey == s.secrets[h].oldKey
      && t.secrets[h].oldRevokeAt == s.secrets[h].oldRevokeAt
  }

  /** The pending key of `h` in `t` is the one that a rotation in `s` swaps out. */
  ghost predicate Marked(s: State, t: State, h: ScopeHash) {
    Rotates(s, h) && h in t.secrets && t.secrets[h].oldRevokeAt == Some(Truncate(s.now + s.grace))
  }

  lemma RotateMarks(s: State, h: ScopeHash, calls: EnsureCalls, g: ScopeHash)
    requires Inv(s) && h in s.cache
    ensures var t := RotateIfDue(s, h, calls).0;
      KeepsMarker(s, t, g) || (g == h && Marked(s, t, h))
  {
    hide Inv;
    if s.cache[h].user in s.users {
      CachedAndAlive(s, h);
    }
  }

  lemma ValidateMarks(s: State, h: ScopeHash, calls: EnsureCalls, g: ScopeHash)
    requires h in s.cache
    ensures KeepsMarker(s, Validate(s, h, calls).0, g)
  {
  }

  lemma MintMarks(s: State, scope: Scope, calls: EnsureCalls, g: ScopeHash)
    ensures KeepsMarker(s, Mint(s, scope, calls).0, g)
  {
    hide Issue;
    var (t, u) := EnsureUser(s, scope.Hash(), calls);
    assert t.secrets == s.secrets;
    if u.Ok? {
      var (v, p) := EnsureProject(t, scope, calls);
      assert v.secrets == s.secrets && u.value in v.users;
      if p.Ok? {
        IssueMarks(v, scope, u.value, p.value, calls, g);
      }
    }
  }

  lemma IssueMarks(s: State, scope: Scope, user: Id, project: Id, calls: EnsureCalls, g: ScopeHash)
    requires user in s.users
    ensures KeepsMarker(s, Issue(s, scope, user, project, calls).0, g)
  {
  }

  lemma WarmMarks(s: State, h: ScopeHash, calls: EnsureCalls, g: ScopeHash)
    requires Inv(s) && h !in s.cache
    ensures var (t, r) := Warm(s, h, calls);
      KeepsMarker(s, t, g) || (g == h && Marked(s, t, h))
    ensures Warm(s, h, calls).1 == Ok(None) ==> KeepsMarker(s, Warm(s, h, calls).0, g)
  {
    hide Inv, Validate, RotateIfDue, KeepsMarker;
    MarkersStay(s, s, g);
    if h in s.secrets {
      WarmCaches(s, h);
      var w := s.(cache := s.cache[h := FromSecret(s.secrets[h])]);
      MarkersStay(s, w, g);
      ValidateKeepsInv(w, h, calls);
      ValidateMarks(w, h, calls, g);
      KeepsMarkerTransitive(s, w, Validate(w, h, calls).0, g);
      var (t, e) := Validate(w, h, calls);
      if e.None? && h in t.cache {
        RotateMarks(t, h, calls, g);
        if KeepsMarker(t, RotateIfDue(t, h, calls).0, g) {
          KeepsMarkerTransitive(s, t, RotateIfDue(t, h, calls).0, g);
        }
      }
    }
  }

  lemma MarkersStay(s: State, t: State, h: ScopeHash)
    requires s.secrets == t.secrets
    ensures KeepsMarker(s, t, h)
  {
  }

  lemma KeepsMarkerTransitive(s: State, t: State, v: State, h: ScopeHash)
    requires KeepsMarker(s, t, h) && KeepsMarker(t, v, h)
    ensures KeepsMarker(s, v, h)
  {
  }

  lemma WarmOrMintMarks(s: State, scope: Scope, calls: EnsureCalls, g: ScopeHash)
    requires Inv(s) && scope.Hash() !in s.cache
    ensures var t := WarmOrMint(s, scope, calls).0;
      KeepsMarker(s, t, g) || (g == scope.Hash() && Marked(s, t, g))
  {
    hide Inv, Warm, Mint, KeepsMarker, Marked;
    WarmMarks(s, scope.Hash(), calls, g);
    var (t, r) := Warm(s, scope.Hash(), calls);
    if r == Ok(None) {
      MintMarks(t, scope, calls, g);
      KeepsMarkerTransitive(s, t, Mint(t, scope, calls).0, g);
    }
  }

  lemma EnsureMarks(s: State, scope: Scope, calls: EnsureCalls, g: ScopeHash)
    requires Inv(s)
    ensures var t := Ensure(s, scope, calls).0;
      KeepsMarker(s, t, g) || (g == scope.Hash() && Marked(s, t, g))
  {
    hide Inv, WarmOrMint, Validate, RotateIfDue, KeepsMarker;
    var h := scope.Hash();
    if h in s.cache {
      ValidateMarks(s, h, calls, g);
      ValidateKeepsInv(s, h, calls);
      var (t, e) := Validate(s, h, calls);
      if e.None? && h in t.cache {
        RotateMarks(t, h, calls, g);
        if KeepsMarker(t, RotateIfDue(t, h, calls).0, g) {
          KeepsMarkerTransitive(s, t, RotateIfDue(t, h, calls).0, g);
        }
      } else if e.None? {
        NothingStored(s, h, calls, g);
        WarmOrMintMarks(t, scope, calls, g);
        if KeepsMarker(t, WarmOrMint(t, scope, calls).0, g) {
          KeepsMarkerTransitive(s, t, WarmOrMint(t, scope, calls).0, g);
        }
      }
    } else {
      WarmOrMintMarks(s, scope, calls, g);
    }
  }

  /** After a validation that drops the entry nothing is left to rotate. */
  lemma NothingStored(s: State, h: ScopeHash, calls: EnsureCalls, g: ScopeHash)
    requires Inv(s) && h in s.cache
    requires var (t, e) := Validate(s, h, calls); e.None? && h !in t.cache
    ensures !Rotates(Validate(s, h, calls).0, h)
  {
    hide Inv;
    ValidateKeepsInv(s, h, calls);
  }

  lemma {:induction false} SweepMarks(
    s: State, listed: seq<Secret>, live: set<ScopeHash>, calls: seq<RevokeCalls>, h: ScopeHash)
    requires |calls| == |listed|
    ensures KeepsMarker(s, Sweep(s, listed, live, calls).0, h)
  {
    hide KeepsMarker, SweepOne;
    if listed == [] {
      MarkersStay(s, s, h);
    } else {
      var n := |listed| - 1;
      SweepMarks(s, listed[..n], live, calls[..n], h);
      var t := Sweep(s, listed[..n], live, calls[..n]).0;
      SweepOneMarks(t, listed[n], live, calls[n], h);
      KeepsMarkerTransitive(s, t, SweepOne(t, listed[n], live, calls[n]).0, h);
    }
  }

  lemma SweepOneMarks(s: State, q: Secret, live: set<ScopeHash>, calls: RevokeCalls, h: ScopeHash)
    ensures KeepsMarker(s, SweepOne(s, q, live, calls).0, h)
  {
  }

  ghost predicate RotatingEnsure(s: State, step: Step, h: ScopeHash) {
    step.DoEnsure? && step.scope.Hash() == h && Rotates(s, h)
  }

  /** Whichever calls fail, only an Ensure that rotates the key of `h` makes a key of `h` pending, until
      the second in which the grace from then on ends. */
  lemma OnlyRotationsMark(s: State, step: Step, h: ScopeHash)
    requires Inv(s) && Possible(s, step)
    ensures KeepsMarker(s, Next(s, step), h) || (RotatingEnsure(s, step, h) && Marked(s, Next(s, step), h))
  {
    hide Inv, Ensure, Sweep, Rotates;
    match step
    case DoEnsure(scope, calls) => EnsureMarks(s, scope, calls, h);
    case DoSweep(listed, live, calls) => SweepMarks(s, listed, live, calls, h);
    case _ =>
  }

  // ----- the schedule -----

  /** The step is a sweep that lists the Secret of `h`, no earlier than `from`. */
  ghost predicate SweepsFrom(s: State, step: Step, h: ScopeHash, from: Time) {
    step.DoSweep? && Listed(step.listed, h) && from <= s.now
  }

  /** Between rotation `i` and step `j`, a sweep lists the Secret of `h` once the grace since the rotation
      is over, to the second that the Secret records; or `h` loses its Secret altogether. */
  ghost predicate Closed(run: seq<State>, steps: seq<Step>, i: nat, j: nat, h: ScopeHash)
    requires i < j <= |steps| && |run| == |steps| + 1
  {
    exists k | i < k < j ::
      h !in run[k].secrets || SweepsFrom(run[k], steps[k], h, Truncate(run[i].now + run[i].grace))
  }

  /** Between any two rotations of one scope. */
  ghost predicate SweptBetweenRotations(run: seq<State>, steps: seq<Step>)
    requires |run| == |steps| + 1
  {
    forall i: nat, j: nat, h |
      i < j < |steps| && RotatingEnsure(run[i], steps[i], h) && RotatingEnsure(run[j], steps[j], h) ::
      Closed(run, steps, i, j, h)
  }

  ghost predicate AllQuiet(run: seq<State>, steps: seq<Step>)
    requires |run| == |steps| + 1
  {
    forall j | 0 <= j < |steps| :: Quiet(run[j], steps[j])
  }

  /** A key is pending for `h`, since rotation `r`, and nothing has closed that rotation. */
  ghost predicate OpenSince(run: seq<State>, steps: seq<Step>, i: nat, h: ScopeHash, r: nat)
    requires i <= |steps| && |run| == |steps| + 1
  {
    && r < i && RotatingEnsure(run[r], steps[r], h) && h in run[i].secrets
    && run[i].secrets[h].oldRevokeAt == Some(Truncate(run[r].now + run[r].grace))
    && !Closed(run, steps, r, i, h)
  }

  lemma DueSweepCloses(s: State, step: Step, h: ScopeHash)
    requires Inv(s) && Tracked(s) && Possible(s, step) && Quiet(s, step)
    requires h in s.secrets && s.secrets[h].oldRevokeAt.Some?
    requires SweepsFrom(s, step, h, s.secrets[h].oldRevokeAt.value)
    ensures h in Next(s, step).secrets ==> Next(s, step).secrets[h].oldKey == NONE
  {
    hide Inv, Tracked, Sweep, AllDone;
    var i :| 0 <= i < |step.listed| && step.listed[i].name == h;
    assert step.listed[i] == s.secrets[h];
    if h in step.live {
      SweepEndsRotation(s, step.listed, step.live, step.sweepCalls, i);
    } else {
      CurrentIsLogged(s, step.listed);
      SweepDecides(s, step.listed, step.live, step.sweepCalls, i);
    }
  }

  lemma {:induction false} PendingIsOpen(run: seq<State>, steps: seq<Step>, i: nat, h: ScopeHash) returns (r: nat)
    requires IsRun(run, steps) && AllQuiet(run, steps) && i <= |steps|
    requires forall j | 0 <= j < i :: Tracked(run[j])
    requires h in run[i].secrets && run[i].secrets[h].oldKey != NONE
    ensures OpenSince(run, steps, i, h, r)
  {
    hide Inv, Tracked, Next, Quiet, RotatingEnsure, SweepsFrom;
    assert i > 0;
    var s, step := run[i - 1], steps[i - 1];
    RunKeepsInv(run, steps, i - 1);
    OnlyRotationsMark(s, step, h);
    if RotatingEnsure(s, step, h) && Marked(s, run[i], h) {
      r := i - 1;
    } else {
      r := PendingIsOpen(run, steps, i - 1, h);
      if SweepsFrom(s, step, h, Truncate(run[r].now + run[r].grace)) {
        DueSweepCloses(s, step, h);
      }
      assert !Closed(run, steps, r, i, h);
    }
  }

  /** If no call fails and a sweep past the grace runs between any two rotations of a scope, then at all
      times the live keys of every delegate are exactly the current key and, if any, the one awaiting
      revocation. */
  lemma {:induction false} SweptRunsAreTracked(run: seq<State>, steps: seq<Step>, i: nat)
    requires IsRun(run, steps) && AllQuiet(run, steps) && SweptBetweenRotations(run, steps) && i <= |steps|
    ensures Tracked(run[i])
    ensures forall j | 0 <= j < i :: Tracked(run[j]) && !Overlaps(run[j], steps[j])
  {
    hide Inv, Tracked, Next, Quiet, Closed, Rotates;
    if i == 0 {
      InitTracked(run[0]);
    } else {
      SweptRunsAreTracked(run, steps, i - 1);
      var s, step := run[i - 1], steps[i - 1];
      RunKeepsInv(run, steps, i - 1);
      if Overlaps(s, step) {
        var h := step.scope.Hash();
        var r := PendingIsOpen(run, steps, i - 1, h);
        assert false;
      }
      QuietStepTracked(s, step);
    }
  }

  lemma InitTracked(s: State)
    requires s == Init(s.rotateAfter, s.grace, s.now)
    ensures Tracked(s)
  {
  }
}
