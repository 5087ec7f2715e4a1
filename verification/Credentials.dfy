/** Revoke-before-replace credentials: the application key of an ApplicationKey and the token of a
    PersonalAccessToken, which follow the same steps up to their deletion. What the spec names, an
    application of a project or a user, is their target. */
module Credentials {
  import opened Base

  type Target = Id

  /** `live`: the credentials minted for this resource that are valid in Zitadel, each with the target
      it was minted for; `secret`: None when there is no Secret, else the credential in it, NONE when
      it holds no data. */
  datatype World = World(
    live: map<Id, Target>, recorded: Id, ready: bool, secret: Option<Id>, nextId: Id, finalized: bool)

  datatype Calls = Calls(
    readSecret: bool, revoke: Outcome, mint: Outcome, writeSecret: Outcome, otherChanged: bool, applyStatus: Outcome)

  // ----- one reconcile -----

  predicate HasData(w: World) {
    w.secret.Some? && w.secret.value != NONE
  }

  /** The reconcile finds nothing to do. */
  predicate Stored(w: World, calls: Calls) {
    calls.readSecret && HasData(w) && w.recorded != NONE
  }

  /** The recorded credential is live, but not on this target. */
  predicate Elsewhere(w: World, target: Target) {
    w.recorded in w.live && w.live[w.recorded] != target
  }

  /** Revokes the recorded credential on the target that the spec names now; a target that does not
      have it, or no longer, is no error. */
  function Revoke(w: World, target: Target, o: Outcome): (World, bool) {
    if w.recorded == NONE then (w, true)
    else (if o == Lost || Elsewhere(w, target) then w else w.(live := w.live - {w.recorded}), o == Done)
  }

  /** A Secret that could not be read is taken to be missing and created. */
  function WriteSecret(w: World, readSecret: bool, key: Id, o: Outcome): (World, bool) {
    if w.secret.Some? && !readSecret then (w, false)
    else (if o == Lost then w else w.(secret := Some(key)), o == Done)
  }

  function Ensure(w: World, target: Target, calls: Calls): (World, bool) {
    if Stored(w, calls) then (w, true)
    else
      var (v, revoked) := Revoke(w, target, calls.revoke);
      if !revoked then (v, false)
      else
        var key := v.nextId;
        var t := if calls.mint == Lost then v else v.(live := v.live[key := target], nextId := key + 1);
        if calls.mint != Done then (t, false)
        else WriteSecret(t.(recorded := key), calls.readSecret, key, calls.writeSecret)
  }

  /** A failure is recorded as well, and so is the credential that was minted before it. */
  function Reconcile(w: World, target: Target, calls: Calls): (World, bool) {
    var (t, ok) := Ensure(w, target, calls);
    if ok && w.ready && !calls.otherChanged && t.recorded == w.recorded then (t, true)
    else
      (if calls.applyStatus == Lost then t.(recorded := w.recorded) else t.(ready := t.ready || ok),
       ok && calls.applyStatus == Done)
  }

  /** Deletion; a strict one waits until the revocation reports no error. */
  function Delete(w: World, strict: bool, target: Target, revoke: Outcome, update: Outcome): (World, bool) {
    var (t, ok) := Revoke(w, target, revoke);
    if strict && !ok then (t, false)
    else (if update == Lost then t else t.(finalized := true), update == Done)
  }

  // ----- at most one credential, the recorded one -----

  /** Nothing is live but what the status records. */
  ghost predicate Contained(w: World) {
    w.live.Keys <= {w.recorded}
  }

  ghost predicate Inv(w: World) {
    0 < w.nextId && w.recorded < w.nextId && forall k | k in w.live :: 0 < k < w.nextId
  }

  /** The reconcile comes to mint. */
  predicate Mints(w: World, target: Target, calls: Calls) {
    !Stored(w, calls) && Revoke(w, target, calls.revoke).1
  }

  /** A mint that the status does not get to know, or that replaces a credential of another target. */
  predicate Leaks(w: World, target: Target, calls: Calls) {
    && Mints(w, target, calls) && calls.mint != Lost
    && (calls.mint == Applied || calls.applyStatus == Lost || Elsewhere(w, target))
  }

  datatype Step =
    | Reconciles(target: Target, calls: Calls)
    | Deletes(target: Target, revoke: Outcome, update: Outcome)
    | LosesSecret(secret: Option<Id>)

  /** The Secret may vanish, or lose its data. */
  predicate Possible(w: World, step: Step) {
    match step
    case Reconciles(_, _) => !w.finalized
    case Deletes(_, _, _) => !w.finalized
    case LosesSecret(secret) => secret in {None, Some(NONE)}
  }

  function Next(w: World, strict: bool, step: Step): World {
    match step
    case Reconciles(target, calls) => Reconcile(w, target, calls).0
    case Deletes(target, revoke, update) => Delete(w, strict, target, revoke, update).0
    case LosesSecret(secret) => w.(secret := secret)
  }

  predicate StepLeaks(w: World, step: Step) {
    step.Reconciles? && Leaks(w, step.target, step.calls)
  }

  /** What Ensure does to the credentials. */
  lemma EnsureMoves(w: World, target: Target, calls: Calls)
    requires Inv(w)
    ensures var (t, ok) := Ensure(w, target, calls);
      var mints := Mints(w, target, calls);
      && Inv(t) && t.ready == w.ready && t.finalized == w.finalized
      && t.recorded == (if mints && calls.mint == Done then w.nextId else w.recorded)
      && w.live.Keys - {w.recorded} <= t.live.Keys <= w.live.Keys + {w.nextId}
      && (forall k | k in t.live :: t.live[k] == if k in w.live then w.live[k] else target)
      && (w.nextId in t.live <==> mints && calls.mint != Lost)
      && (mints ==> (w.recorded in t.live <==> Elsewhere(w, target)))
  {
    hide Stored, HasData, WriteSecret;
    var v := Revoke(w, target, calls.revoke).0;
    assert Inv(v);
    WriteKeeps(v.(recorded := v.nextId, nextId := v.nextId + 1, live := v.live[v.nextId := target]), calls);
  }

  lemma WriteKeeps(w: World, calls: Calls)
    ensures var t := WriteSecret(w, calls.readSecret, w.recorded, calls.writeSecret).0;
      t == w.(secret := t.secret)
  {
  }

  lemma ReconcileMoves(w: World, target: Target, calls: Calls)
    requires Inv(w)
    ensures var t := Reconcile(w, target, calls).0;
      Inv(t) && (Contained(t) <==> Contained(w) && !Leaks(w, target, calls))
  {
    hide Ensure, Mints, Elsewhere;
    EnsureMoves(w, target, calls);
    var t := Reconcile(w, target, calls).0;
    if !Contained(w) {
      var k :| k in w.live && k != w.recorded;
      assert k in t.live && k != t.recorded;
    } else if Leaks(w, target, calls) {
      LeakIsLive(w, target, calls);
    }
  }

  lemma LeakIsLive(w: World, target: Target, calls: Calls)
    requires Inv(w) && Leaks(w, target, calls)
    ensures !Contained(Reconcile(w, target, calls).0)
  {
    hide Ensure, Mints;
    EnsureMoves(w, target, calls);
    var t := Reconcile(w, target, calls).0;
    assert w.nextId in t.live;
    if calls.mint == Done && calls.applyStatus != Lost {
      assert w.recorded in t.live && w.recorded != t.recorded;
    } else {
      assert w.nextId != t.recorded;
    }
  }

  /** A stray credential stays: no step revokes or records it any more. */
  lemma StepContains(w: World, strict: bool, step: Step)
    requires Inv(w)
    ensures var t := Next(w, strict, step);
      Inv(t) && (Contained(t) <==> Contained(w) && !StepLeaks(w, step))
  {
    hide Reconcile, Leaks;
    match step
    case Reconciles(target, calls) => ReconcileMoves(w, target, calls);
    case Deletes(target, revoke, update) =>
      if !Contained(w) {
        var k :| k in w.live && k != w.recorded;
        assert k in Next(w, strict, step).live;
      }
    case LosesSecret(_) =>
  }

  ghost predicate IsRun(run: seq<World>, strict: bool, steps: seq<Step>) {
    && |run| == |steps| + 1 && run[0] == World(map[], NONE, false, run[0].secret, 1, false)
    && forall i | 0 <= i < |steps| :: Possible(run[i], steps[i]) && run[i + 1] == Next(run[i], strict, steps[i])
  }

  lemma {:induction false} RunKeepsInv(run: seq<World>, strict: bool, steps: seq<Step>, i: nat)
    requires IsRun(run, strict, steps) && i <= |steps|
    ensures Inv(run[i])
  {
    if i > 0 {
      RunKeepsInv(run, strict, steps, i - 1);
      StepContains(run[i - 1], strict, steps[i - 1]);
    }
  }

  /** A reconcile that succeeds leaves the resource ready. */
  lemma SuccessIsReady(w: World, target: Target, calls: Calls)
    ensures Reconcile(w, target, calls).1 ==> Reconcile(w, target, calls).0.ready
  {
    hide Ensure;
    EnsureKeepsReady(w, target, calls);
  }

  lemma EnsureKeepsReady(w: World, target: Target, calls: Calls)
    ensures Ensure(w, target, calls).0.ready == w.ready
  {
  }

  /** In every run, at most one credential is live and it is the recorded one, exactly as long as no
      mint timed out after taking effect, no status write was lost after a mint, and no mint replaced
      a credential of another target; whatever else fails, such as the write of the Secret. */
  lemma {:induction false} OnlyTheRecordedIsLive(run: seq<World>, strict: bool, steps: seq<Step>, i: nat)
    requires IsRun(run, strict, steps) && i <= |steps|
    ensures Contained(run[i]) <==> forall j | 0 <= j < i :: !StepLeaks(run[j], steps[j])
  {
    if i > 0 {
      OnlyTheRecordedIsLive(run, strict, steps, i - 1);
      RunKeepsInv(run, strict, steps, i - 1);
      StepContains(run[i - 1], strict, steps[i - 1]);
    }
  }

  /** A live credential is on the target that the spec named when it was minted. */
  ghost predicate MintedBy(run: seq<World>, steps: seq<Step>, i: nat, k: Id, target: Target)
    requires i < |steps| < |run|
  {
    steps[i].Reconciles? && run[i].nextId == k && steps[i].target == target
  }

  lemma {:induction false} TargetIsThatOfTheMint(
    run: seq<World>, strict: bool, steps: seq<Step>, i: nat, k: Id) returns (j: nat)
    requires IsRun(run, strict, steps) && i <= |steps| && k in run[i].live
    ensures j < i && MintedBy(run, steps, j, k, run[i].live[k])
  {
    hide Reconcile;
    assert i > 0;
    RunKeepsInv(run, strict, steps, i - 1);
    if k in run[i - 1].live {
      LiveStays(run[i - 1], strict, steps[i - 1], k);
      j := TargetIsThatOfTheMint(run, strict, steps, i - 1, k);
    } else {
      LiveStays(run[i - 1], strict, steps[i - 1], k);
      j := i - 1;
    }
  }

  lemma LiveStays(w: World, strict: bool, step: Step, k: Id)
    requires Inv(w) && k in Next(w, strict, step).live
    ensures if k in w.live then Next(w, strict, step).live[k] == w.live[k]
            else step.Reconciles? && k == w.nextId && Next(w, strict, step).live[k] == step.target
  {
    hide Ensure, Mints;
    if step.Reconciles? {
      EnsureMoves(w, step.target, step.calls);
    }
  }

  /** As long as the spec keeps its target, none is ever elsewhere. */
  lemma FixedTargetIsNeverElsewhere(
    run: seq<World>, strict: bool, steps: seq<Step>, i: nat, target: Target)
    requires IsRun(run, strict, steps) && i <= |steps|
    requires forall j | 0 <= j < i && steps[j].Reconciles? :: steps[j].target == target
    ensures !Elsewhere(run[i], target)
  {
    if run[i].recorded in run[i].live {
      var j := TargetIsThatOfTheMint(run, strict, steps, i, run[i].recorded);
    }
  }

  /** When no call fails, a reconcile mints exactly when the Secret is missing or has no data, or the status
      records nothing; then the new credential is in the Secret, recorded, and on the target of the
      spec. Else it changes nothing but the readiness. */
  lemma FineReconcileMintsIff(w: World, target: Target, otherChanged: bool)
    requires Inv(w)
    ensures var (t, ok) := Reconcile(w, target, FINE.(otherChanged := otherChanged));
      && ok && t.ready
      && if w.secret in {None, Some(NONE)} || w.recorded == NONE
         then && t.secret == Some(w.nextId) && t.recorded == w.nextId
              && w.nextId in t.live && t.live[w.nextId] == target && t.nextId == w.nextId + 1
         else t == w.(ready := true)
  {
    if HasData(w) && w.recorded != NONE {
      assert Ensure(w, target, FINE.(otherChanged := otherChanged)) == (w, true);
    }
  }

  // ----- deletion -----

  /** Deletion leaves nothing live behind if and only if nothing was live, or nothing but the recorded
      credential was, the spec still names its target and, unless the deletion is strict, the
      revocation had an effect. */
  lemma DeletionLeavesNothing(w: World, strict: bool, target: Target, revoke: Outcome, update: Outcome)
    requires Inv(w) && !w.finalized && Delete(w, strict, target, revoke, update).0.finalized
    ensures Delete(w, strict, target, revoke, update).0.live == map[] <==>
      w.live == map[] || (Contained(w) && !Elsewhere(w, target) && (strict || revoke != Lost))
  {
    assert w.live != map[] && Contained(w) ==> w.recorded in w.live;
    if !Contained(w) {
      var k :| k in w.live && k != w.recorded;
      assert k in Delete(w, strict, target, revoke, update).0.live;
    }
  }

  /** A deletion lets the resource go, whatever the revocation did, unless it is strict and the revocation of a
      recorded credential reports an error, or the update has no effect. */
  lemma DeletionLetsGoIff(w: World, strict: bool, target: Target, revoke: Outcome, update: Outcome)
    requires !w.finalized
    ensures Delete(w, strict, target, revoke, update).0.finalized <==>
      update != Lost && (strict && w.recorded != NONE ==> revoke == Done)
    ensures Delete(w, strict, target, revoke, update).1 ==> Delete(w, strict, target, revoke, update).0.finalized
  {
  }

  /** Deletion that fails can be repeated, and ends with nothing live exactly when nothing but the recorded
      credential was live, and the spec names its target. */
  lemma DeletionConverges(w: World, strict: bool, target: Target, revoke: Outcome, update: Outcome)
    requires Inv(w) && !w.finalized
    ensures var t := Delete(w, strict, target, revoke, update).0;
      var u := Delete(t, strict, target, Done, Done).0;
      u.finalized && (u.live == map[] <==> w.live == map[] || (Contained(w) && !Elsewhere(w, target)))
  {
    var t := Delete(w, strict, target, revoke, update).0;
    assert w.live != map[] && Contained(w) ==> w.recorded in w.live;
    if !Contained(w) {
      var k :| k in w.live && k != w.recorded;
      assert k in t.live && k in Delete(t, strict, target, Done, Done).0.live;
    }
  }

  /** In every run: the deletion that lets the resource go leaves nothing live if and only if nothing was,
      or no earlier reconcile leaked, the spec names the target of the credential and, unless the
      deletion is strict, its revocation had an effect. */
  lemma DeletionInRun(run: seq<World>, strict: bool, steps: seq<Step>, i: nat)
    requires IsRun(run, strict, steps) && i < |steps| && steps[i].Deletes? && run[i + 1].finalized
    ensures run[i + 1].live == map[] <==>
      || run[i].live == map[]
      || ((forall j | 0 <= j < i :: !StepLeaks(run[j], steps[j]))
          && !Elsewhere(run[i], steps[i].target) && (strict || steps[i].revoke != Lost))
  {
    hide Delete, StepLeaks, Elsewhere;
    RunKeepsInv(run, strict, steps, i);
    OnlyTheRecordedIsLive(run, strict, steps, i);
    DeletionLeavesNothing(run[i], strict, steps[i].target, steps[i].revoke, steps[i].update);
  }

  const FINE: Calls := Calls(true, Done, Done, Done, false, Done)

  /** Mint for one target, name another in the spec, delete: even a strict deletion, in which no call
      fails, leaves the credential of the first target live. */
  lemma ChangedTargetOutlivesDeletion(a: Target, b: Target)
    requires a != b
    ensures var start := World(map[], NONE, false, None, 1, false);
      var minted := Reconcile(start, a, FINE).0;
      var retargeted := Reconcile(minted, b, FINE);
      var (t, ok) := Delete(retargeted.0, true, b, Done, Done);
      && retargeted == (minted, true)
      && ok && t.finalized && t.live == map[1 := a]
  {
  }

  /** With the Secret lost in between, a second credential is minted and both are live. */
  lemma ChangedTargetDoubles(a: Target, b: Target)
    requires a != b
    ensures var start := World(map[], NONE, false, None, 1, false);
      var minted := Reconcile(start, a, FINE).0;
      var (t, ok) := Reconcile(minted.(secret := None), b, FINE);
      ok && t.live == map[1 := a, 2 := b] && t.recorded == 2
  {
  }

  /** A mint that times out leaves a credential that a strict deletion in which no call fails leaves live,
      also after a further reconcile has succeeded. */
  lemma TimedOutMintOutlivesDeletion(a: Target)
    ensures var start := World(map[], NONE, false, None, 1, false);
      var leaked := Reconcile(start, a, FINE.(mint := Applied)).0;
      var retried := Reconcile(leaked, a, FINE);
      && Delete(leaked, true, a, Done, Done) == (leaked.(finalized := true), true) && leaked.live == map[1 := a]
      && retried.1 && Delete(retried.0, true, a, Done, Done).1
      && Delete(retried.0, true, a, Done, Done).0.live == map[1 := a]
  {
    var start := World(map[], NONE, false, None, 1, false);
    var leaked := Reconcile(start, a, FINE.(mint := Applied)).0;
    assert Reconcile(leaked, a, FINE).0.live == map[1 := a, 2 := a];
  }

  // ----- the Secret -----

  /** The Secret holds the recorded credential, and it works; or it holds none. */
  ghost predicate Healthy(w: World) {
    Inv(w) && Contained(w) && (HasData(w) ==> w.secret.value == w.recorded && w.recorded in w.live)
  }

  /** The reconcile revokes the credential that the Secret keeps, because it cannot read the Secret. */
  predicate Blind(w: World, target: Target, calls: Calls) {
    !calls.readSecret && HasData(w) && calls.revoke != Lost && !Elsewhere(w, target)
  }

  /** A reconcile breaks the agreement of Secret, status and live credentials exactly when it leaks, or
      revokes blindly. */
  lemma ReconcileKeepsHealthyIff(w: World, target: Target, calls: Calls)
    requires Healthy(w)
    ensures Healthy(Reconcile(w, target, calls).0) <==> !Leaks(w, target, calls) && !Blind(w, target, calls)
  {
    hide Leaks, Mints, Ensure;
    EnsureMoves(w, target, calls);
    ReconcileMoves(w, target, calls);
    if !Leaks(w, target, calls) {
      if calls.readSecret || !HasData(w) {
        ReconcileKeepsHealthy(w, target, calls);
      } else {
        CredentialSurvivesIffReadable(w, target, calls);
        UnreadIsNotWritten(w, target, calls);
      }
    }
  }

  lemma UnreadDataFails(w: World, target: Target, calls: Calls)
    requires HasData(w) && !calls.readSecret
    ensures !Reconcile(w, target, calls).1
  {
  }

  lemma UnreadIsNotWritten(w: World, target: Target, calls: Calls)
    requires Healthy(w) && HasData(w) && !calls.readSecret && !Leaks(w, target, calls)
    ensures Reconcile(w, target, calls).0.secret == w.secret
    ensures calls.revoke == Lost || Elsewhere(w, target) ==> Reconcile(w, target, calls).0.recorded == w.recorded
  {
  }

  /** A reconcile that reads the Secret, or finds no data in it, and does not leak keeps the agreement; if it
      succeeds it leaves the recorded one live and in the Secret; it is one of the target
      that the spec names exactly when the one before was, or there was none in the Secret. */
  lemma ReconcileKeepsHealthy(w: World, target: Target, calls: Calls)
    requires Healthy(w) && (calls.readSecret || !HasData(w)) && !Leaks(w, target, calls)
    ensures var (t, ok) := Reconcile(w, target, calls);
      && Healthy(t)
      && (ok ==>
        && t.secret == Some(t.recorded) && t.live.Keys == {t.recorded}
        && (t.live[t.recorded] == target <==> !HasData(w) || w.live[w.recorded] == target))
  {
    hide Mints, Ensure;
    EnsureMoves(w, target, calls);
    ReconcileMoves(w, target, calls);
    EnsureWrites(w, target, calls);
  }

  lemma EnsureWrites(w: World, target: Target, calls: Calls)
    requires Healthy(w) && (calls.readSecret || !HasData(w))
    ensures var (t, ok) := Ensure(w, target, calls);
      var mints := Mints(w, target, calls);
      && (HasData(t) ==> t.secret.value == t.recorded && t.recorded in t.live)
      && (ok ==> HasData(t) && (HasData(w) ==> t == w) && (!HasData(w) ==> mints && calls.mint == Done))
      && (mints && calls.mint == Done ==> t.recorded == w.nextId)
      && (!HasData(t) || t.secret == w.secret || (mints && calls.mint == Done))
  {
    assert w.recorded == NONE ==> w.live == map[];
  }

  predicate Breaks(w: World, step: Step) {
    step.Reconciles? && (Leaks(w, step.target, step.calls) || Blind(w, step.target, step.calls))
  }

  /** In every run up to its deletion and whatever else fails: as long as no reconcile leaks or revokes
      blindly, the Secret holds the recorded credential, and that one is live; or it holds none. The
      first that does ends it. */
  lemma {:induction false} SecretHoldsALiveCredential(run: seq<World>, strict: bool, steps: seq<Step>, i: nat)
    requires IsRun(run, strict, steps) && i < |steps| && !HasData(run[0])
    requires forall j | 0 <= j <= i :: !steps[j].Deletes?
    requires forall j | 0 <= j < i :: !Breaks(run[j], steps[j])
    ensures Healthy(run[i]) && (Healthy(run[i + 1]) <==> !Breaks(run[i], steps[i]))
    ensures !Breaks(run[i], steps[i]) && steps[i].Reconciles?
            && Reconcile(run[i], steps[i].target, steps[i].calls).1 ==>
      run[i + 1].secret == Some(run[i + 1].recorded) && run[i + 1].live.Keys == {run[i + 1].recorded}
  {
    hide Reconcile, Leaks, Blind;
    if i > 0 {
      SecretHoldsALiveCredential(run, strict, steps, i - 1);
    }
    match steps[i]
    case Reconciles(target, calls) =>
      ReconcileKeepsHealthyIff(run[i], target, calls);
      if !calls.readSecret && HasData(run[i]) {
        UnreadDataFails(run[i], target, calls);
      } else if !Leaks(run[i], target, calls) {
        ReconcileKeepsHealthy(run[i], target, calls);
      }
    case LosesSecret(_) =>
  }

  /** A status write that is lost after a mint: every read succeeds, and the Secret holds a live credential
      that the status does not know. */
  lemma LostStatusWriteBreaks(a: Target)
    ensures var start := World(map[], NONE, false, None, 1, false);
      var t := Reconcile(start, a, FINE.(applyStatus := Lost)).0;
      Healthy(start) && !Healthy(t) && t.secret == Some(1) && t.recorded == NONE && t.live == map[1 := a]
  {
  }

  /** A Secret that cannot be read once counts as missing, so its credential is revoked although the
      Secret keeps it: the credential survives exactly when the read succeeds, the revocation is lost, or
      the revocation goes to another target. */
  lemma CredentialSurvivesIffReadable(w: World, target: Target, calls: Calls)
    requires Healthy(w) && HasData(w)
    ensures var t := Reconcile(w, target, calls).0;
      && t.secret == w.secret
      && (t.secret.value in t.live <==> calls.readSecret || calls.revoke == Lost || Elsewhere(w, target))
  {
    var (v, ok) := Ensure(w, target, calls);
    assert v.secret == w.secret;
    assert w.recorded in v.live <==> calls.readSecret || calls.revoke == Lost || Elsewhere(w, target);
  }

  /** From then on every reconcile that can read the Secret finds nothing to do, so the dead credential
      stays there. */
  lemma {:induction false} DeadCredentialStays(run: seq<World>, targets: seq<Target>, calls: seq<Calls>, i: nat)
    requires |run| == |calls| + 1 == |targets| + 1 && i <= |calls|
    requires HasData(run[0]) && run[0].recorded != NONE && run[0].secret.value !in run[0].live
    requires forall j | 0 <= j < |calls| ::
      calls[j].readSecret && run[j + 1] == Reconcile(run[j], targets[j], calls[j]).0
    ensures run[i].(ready := run[0].ready) == run[0]
    ensures i < |calls| && calls[i].applyStatus == Done ==> Reconcile(run[i], targets[i], calls[i]).1
  {
    if i > 0 {
      DeadCredentialStays(run, targets, calls, i - 1);
    }
  }
}
