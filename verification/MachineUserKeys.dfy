/** Dual-key rotation of a MachineUser: the key bookkeeping in its status, the key in its Secret, and
    the keys that are live in Zitadel. */
module MachineUserKeys {
  import opened Base

  /** spec.key; an absent duration keeps its default. */
  datatype KeySpec = KeySpec(rotateAfter: Option<Time>, rotationGrace: Option<Time>)

  const REQUEUE_INTERVAL: Time := 5 * MINUTE
  const DEFAULT_KEY_ROTATION_GRACE: Time := 5 * MINUTE

  datatype Status = Status(
    keyId: Id, keyCreatedAt: Option<Time>, previousKeyId: Id, previousKeyRevokeAt: Option<Time>, ready: bool)

  /** A rotation: the outgoing key, and how long it was to stay valid from then on. */
  datatype Swap = Swap(outgoing: Id, at: Time, grace: Time)

  /** `secretKey` is the key whose JSON the Secret holds, `swaps` the rotations that were persisted, and
      `minted` when keys were created. */
  datatype World = World(
    now: Time, status: Status, secretKey: Id, live: set<Id>, nextId: Id, swaps: seq<Swap>, minted: map<Id, Time>)

  /** What the status says after it was written and read back. */
  function PersistedTime(t: Option<Time>): Option<Time> {
    if t.Some? then Some(Truncate(t.value)) else None
  }

  function Persisted(st: Status): Status {
    st.(keyCreatedAt := PersistedTime(st.keyCreatedAt), previousKeyRevokeAt := PersistedTime(st.previousKeyRevokeAt))
  }

  // ----- one reconcile -----

  datatype Calls = Calls(
    readSecret: bool, removeKey: Outcome, writeBundle: Outcome, addKey: Outcome, writeSecret: Outcome,
    applyStatus: Outcome)

  predicate RevocationDue(st: Status, now: Time) {
    st.previousKeyId != NONE && st.previousKeyRevokeAt.Some? && st.previousKeyRevokeAt.value <= now
  }

  /** `ok` tells whether the reconcile goes on. */
  function FinishRevocation(w: World, o: Outcome): (r: (World, bool)) {
    if !RevocationDue(w.status, w.now) then (w, true)
    else
      var t := if o == Lost then w else w.(live := w.live - {w.status.previousKeyId});
      if o != Done then (t, false)
      else (t.(status := w.status.(previousKeyId := NONE, previousKeyRevokeAt := None)), true)
  }

  predicate KeyRotationDue(st: Status, spec: Option<KeySpec>, hasKey: bool, now: Time) {
    && hasKey && spec.Some? && spec.value.rotateAfter.Some? && st.previousKeyId == NONE
    && (st.keyCreatedAt.None? || now - st.keyCreatedAt.value >= spec.value.rotateAfter.value)
  }

  function GraceOf(spec: KeySpec): Time {
    if spec.rotationGrace.Some? then spec.rotationGrace.value else DEFAULT_KEY_ROTATION_GRACE
  }

  function RecordRotation(st: Status, spec: KeySpec, now: Time): Status {
    st.(previousKeyId := st.keyId, previousKeyRevokeAt := Some(now + GraceOf(spec)))
  }

  function EnsureKey(w: World, spec: Option<KeySpec>, calls: Calls): (World, bool) {
    if !calls.readSecret then (w, false)
    else
      var hasKey := w.secretKey != NONE;
      var (t, ok) := FinishRevocation(w, calls.removeKey);
      if !ok then (t, false)
      else
        var due := KeyRotationDue(t.status, spec, hasKey, t.now);
        if hasKey && !due then (t, calls.writeBundle == Done)
        else Replace(t, spec, due, calls)
  }

  /** Mints a key, records it, and writes it to the Secret. */
  function Replace(w: World, spec: Option<KeySpec>, due: bool, calls: Calls): (World, bool)
    requires due ==> spec.Some?
  {
    var key := w.nextId;
    var t := if calls.addKey == Lost then w
             else w.(live := w.live + {key}, nextId := key + 1, minted := w.minted[key := w.now]);
    if calls.addKey != Done then (t, false)
    else
      var st := if due then RecordRotation(w.status, spec.value, w.now) else w.status;
      var v := t.(status := st.(keyId := key, keyCreatedAt := Some(w.now)));
      (if calls.writeSecret == Lost then v else v.(secretKey := key), calls.writeSecret == Done)
  }

  predicate StatusChanged(prev: Status, cur: Status) {
    cur.keyId != prev.keyId || cur.previousKeyId != prev.previousKeyId
  }

  /** How long until the next reconcile. */
  function NextRequeue(st: Status, now: Time): Time {
    if st.previousKeyRevokeAt.None? then REQUEUE_INTERVAL
    else
      var until := st.previousKeyRevokeAt.value - now + SECOND;
      if until >= REQUEUE_INTERVAL then REQUEUE_INTERVAL
      else if until < SECOND then SECOND
      else until
  }

  /** Stores the status, and with it the rotation that was recorded in it. */
  function Store(w: World, st: Status, before: Status, spec: Option<KeySpec>): World {
    w.(status := Persisted(st),
       swaps := if spec.Some? && st.previousKeyId != NONE && st.previousKeyId != before.previousKeyId
                then w.swaps + [Swap(st.previousKeyId, w.now, GraceOf(spec.value))] else w.swaps)
  }

  /** The key part of one reconcile. Nothing is stored when EnsureKey fails. `otherChanged` stands for
      the status fields outside the key bookkeeping. None is an error, else the requeue. */
  function Reconcile(w: World, spec: Option<KeySpec>, otherChanged: bool, calls: Calls): (World, Option<Time>) {
    var (t, ok) := EnsureKey(w, spec, calls);
    if !ok then (t.(status := w.status), None)
    else
      var requeue := NextRequeue(t.status, w.now);
      if t.status.ready && !otherChanged && !StatusChanged(w.status, t.status) then
        (t.(status := w.status), Some(requeue))
      else
        var st := t.status.(ready := true);
        (if calls.applyStatus == Lost then t.(status := w.status) else Store(t, st, w.status, spec),
         if calls.applyStatus == Done then Some(requeue) else None)
  }

  // ----- whichever call fails -----

  ghost predicate SwapOf(w: World, i: int, k: Id, revokeAt: Time) {
    0 <= i < |w.swaps| && w.swaps[i].outgoing == k && revokeAt == Truncate(w.swaps[i].at + w.swaps[i].grace)
  }

  ghost predicate Safe(w: World) {
    && 0 < w.nextId && (forall k | k in w.live :: 0 < k < w.nextId)
    && w.status.keyId < w.nextId && w.status.previousKeyId < w.nextId && w.secretKey < w.nextId
    && (w.secretKey != NONE ==> w.secretKey in w.live)
    && (w.status.previousKeyId != NONE ==>
        && w.status.previousKeyId != w.secretKey && w.status.previousKeyId != w.status.keyId
        && w.status.previousKeyRevokeAt.Some?
        && exists i :: SwapOf(w, i, w.status.previousKeyId, w.status.previousKeyRevokeAt.value))
  }

  /** Every bookkeeping change is one that the status comparison sees. */
  lemma ChangesAreDetected(w: World, spec: Option<KeySpec>, calls: Calls)
    requires w.status.keyId < w.nextId
    ensures var (t, ok) := EnsureKey(w, spec, calls);
      ok && t.status != w.status ==> StatusChanged(w.status, t.status)
  {
  }

  /** What EnsureKey does to keys and status, whatever its calls do. */
  lemma EnsureKeyMoves(w: World, spec: Option<KeySpec>, calls: Calls)
    requires Safe(w)
    ensures var (t, ok) := EnsureKey(w, spec, calls);
      && t.now == w.now && t.swaps == w.swaps && w.nextId <= t.nextId
      && (forall k | k in t.live :: 0 < k < t.nextId)
      && (forall k | k in w.live && k !in t.live :: k == w.status.previousKeyId && RevocationDue(w.status, w.now))
      && (t.secretKey == w.secretKey || (t.secretKey in t.live && w.nextId <= t.secretKey))
      && (ok ==>
        && t.status.keyId < t.nextId && t.status.ready == w.status.ready
        && (t.status.previousKeyId == w.status.previousKeyId != NONE ==>
            t.status.previousKeyRevokeAt == w.status.previousKeyRevokeAt
            && t.status.keyId != t.status.previousKeyId)
        && (t.status.previousKeyId != NONE && t.status.previousKeyId != w.status.previousKeyId ==>
            && spec.Some? && t.status.previousKeyId == w.status.keyId && t.status.keyId == t.secretKey >= w.nextId
            && t.status.previousKeyRevokeAt == Some(w.now + GraceOf(spec.value))))
  {
    hide Replace;
    var t := FinishRevocation(w, calls.removeKey).0;
    assert t.secretKey == w.secretKey && t.swaps == w.swaps && t.nextId == w.nextId;
    var due := KeyRotationDue(t.status, spec, w.secretKey != NONE, t.now);
    ReplaceMoves(t, spec, due, calls);
  }

  lemma ReplaceMoves(w: World, spec: Option<KeySpec>, due: bool, calls: Calls)
    requires due ==> spec.Some?
    ensures var (t, ok) := Replace(w, spec, due, calls);
      && t.now == w.now && t.swaps == w.swaps && t.nextId in {w.nextId, w.nextId + 1}
      && w.live <= t.live <= w.live + {w.nextId} && (t.nextId == w.nextId ==> t.live == w.live)
      && (t.secretKey == w.secretKey || (t.secretKey == w.nextId && w.nextId in t.live))
      && (ok ==>
        && t.secretKey == w.nextId < t.nextId
        && t.status.(keyId := w.nextId, keyCreatedAt := Some(w.now))
           == (if due then RecordRotation(w.status, spec.value, w.now) else w.status).(
                keyId := w.nextId, keyCreatedAt := Some(w.now))
        && t.status.keyId == w.nextId)
  {
  }

  /** The key was rotated out, and the second in which its grace ends has begun. */
  ghost predicate GraceOver(w: World, k: Id) {
    exists i :: 0 <= i < |w.swaps| && w.swaps[i].outgoing == k
                && Truncate(w.swaps[i].at + w.swaps[i].grace) <= w.now
  }

  /** The key in the Secret is live after every reconcile, however its calls end; a key goes only
      when the status marked it and the second in which its grace ends has begun. */
  lemma ReconcileIsSafe(w: World, spec: Option<KeySpec>, otherChanged: bool, calls: Calls)
    requires Safe(w)
    ensures var t := Reconcile(w, spec, otherChanged, calls).0;
      Safe(t) && t.now == w.now && forall k | k in w.live && k !in t.live :: GraceOver(w, k)
  {
    hide EnsureKey;
    var t := Reconcile(w, spec, otherChanged, calls).0;
    EnsureKeyMoves(w, spec, calls);
    forall k | k in w.live && k !in t.live ensures GraceOver(w, k) {
      var i :| SwapOf(w, i, k, w.status.previousKeyRevokeAt.value);
    }
    if t.status.previousKeyId != NONE {
      if t.status.previousKeyId == w.status.previousKeyId {
        var i :| SwapOf(w, i, w.status.previousKeyId, w.status.previousKeyRevokeAt.value);
        assert SwapOf(t, i, t.status.previousKeyId, t.status.previousKeyRevokeAt.value);
      } else {
        assert SwapOf(t, |w.swaps|, t.status.previousKeyId, t.status.previousKeyRevokeAt.value);
      }
    }
  }

  // ----- runs -----

  datatype Step = Reconciles(spec: Option<KeySpec>, otherChanged: bool, calls: Calls) | Passes(elapsed: nat)

  function Next(w: World, step: Step): World {
    match step
    case Reconciles(spec, otherChanged, calls) => Reconcile(w, spec, otherChanged, calls).0
    case Passes(elapsed) => w.(now := w.now + elapsed)
  }

  ghost predicate IsRun(run: seq<World>, steps: seq<Step>) {
    |run| == |steps| + 1 && forall i | 0 <= i < |steps| :: run[i + 1] == Next(run[i], steps[i])
  }

  lemma StepIsSafe(w: World, step: Step)
    requires Safe(w)
    ensures var t := Next(w, step);
      Safe(t) && w.now <= t.now && forall k | k in w.live && k !in t.live :: GraceOver(w, k)
  {
    match step
    case Reconciles(spec, otherChanged, calls) => ReconcileIsSafe(w, spec, otherChanged, calls);
    case Passes(elapsed) =>
      if w.status.previousKeyId != NONE {
        var i :| SwapOf(w, i, w.status.previousKeyId, w.status.previousKeyRevokeAt.value);
        assert SwapOf(Next(w, step), i, w.status.previousKeyId, w.status.previousKeyRevokeAt.value);
      }
  }

  /** In every run, whichever calls fail: the Secret's key is live, and a key that goes was rotated
      out before, and goes no earlier than the second in which its grace ends. */
  lemma {:induction false} SecretKeyStaysLive(run: seq<World>, steps: seq<Step>, i: nat)
    requires IsRun(run, steps) && Safe(run[0]) && i <= |steps|
    ensures Safe(run[i]) && (run[i].secretKey != NONE ==> run[i].secretKey in run[i].live)
    ensures i < |steps| ==> forall k | k in run[i].live && k !in run[i + 1].live :: GraceOver(run[i], k)
  {
    hide Next;
    if i > 0 {
      SecretKeyStaysLive(run, steps, i - 1);
      StepIsSafe(run[i - 1], steps[i - 1]);
    }
    if i < |steps| {
      StepIsSafe(run[i], steps[i]);
    }
  }

  // ----- the fraction of a second -----

  /** The world in which a reconcile at time `at` finds a key that was rotated out. */
  function At(w: World, at: Time): World {
    w.(now := at)
  }

  /** A key that awaits revocation is revoked by a reconcile at a given time if and only if the second
      in which its grace ends has begun. */
  lemma RevokedFromItsSecondOn(w: World, swap: Swap, at: Time, spec: Option<KeySpec>, otherChanged: bool)
    requires Safe(w) && w.status.previousKeyId == swap.outgoing != NONE && swap.outgoing in w.live
    requires w.status.previousKeyRevokeAt == Some(Truncate(swap.at + swap.grace))
    ensures swap.outgoing !in Reconcile(At(w, at), spec, otherChanged, FINE).0.live <==>
      Truncate(swap.at + swap.grace) <= at
  {
  }

  /** Such a key keeps its full grace, whenever the reconcile comes, if and only if the grace ends on a
      full second, or is none. */
  lemma FullGraceIffItEndsOnASecond(w: World, swap: Swap, spec: Option<KeySpec>, otherChanged: bool)
    requires Safe(w) && w.status.previousKeyId == swap.outgoing != NONE && swap.outgoing in w.live
    requires w.status.previousKeyRevokeAt == Some(Truncate(swap.at + swap.grace))
    ensures (forall at | swap.at <= at && swap.outgoing !in Reconcile(At(w, at), spec, otherChanged, FINE).0.live ::
               swap.at + swap.grace <= at) <==>
      swap.grace <= 0 || (swap.at + swap.grace) % SECOND == 0
  {
    hide Reconcile, Safe;
    var end := swap.at + swap.grace;
    forall at ensures swap.outgoing !in Reconcile(At(w, at), spec, otherChanged, FINE).0.live <==> Truncate(end) <= at {
      RevokedFromItsSecondOn(w, swap, at, spec, otherChanged);
    }
    if 0 < swap.grace && end % SECOND != 0 {
      var at := if Truncate(end) < swap.at then swap.at else Truncate(end);
      assert swap.outgoing !in Reconcile(At(w, at), spec, otherChanged, FINE).0.live && at < end;
    }
  }

  /** Key 1, rotated out at 0.5 s with a grace of one second, is gone after a reconcile at 1 s. */
  lemma GraceCutShort()
    ensures var half := SECOND / 2;
      var spec := Some(KeySpec(Some(half), Some(SECOND)));
      var minted := Reconcile(NEW, spec, false, FINE).0;
      var rotated := Reconcile(At(minted, half), spec, false, FINE).0;
      && rotated.swaps == [Swap(1, half, SECOND)] && 1 in rotated.live
      && 1 !in Reconcile(At(rotated, SECOND), spec, false, FINE).0.live && SECOND < half + SECOND
  {
  }

  // ----- runs without failures -----

  const FINE: Calls := Calls(true, Done, Done, Done, Done, Done)

  /** The keys that the status accounts for. */
  function Tracks(st: Status): set<Id> {
    {st.keyId, st.previousKeyId} - {NONE}
  }

  /** Fresh or tracked: the live keys are those of the status, and the Secret holds the current one. */
  ghost predicate Tracked(w: World) {
    && Safe(w) && w.live == Tracks(w.status) && w.secretKey == w.status.keyId
    && (w.status.previousKeyId != NONE <==> w.status.previousKeyRevokeAt.Some?)
  }

  lemma EnsureKeyTracks(w: World, spec: Option<KeySpec>)
    requires Tracked(w)
    ensures var (t, ok) := EnsureKey(w, spec, FINE);
      && ok && t.live == Tracks(t.status) && t.secretKey == t.status.keyId
      && (t.status.previousKeyId != NONE <==> t.status.previousKeyRevokeAt.Some?)
  {
  }

  lemma ReconcileTracks(w: World, spec: Option<KeySpec>, otherChanged: bool)
    requires Tracked(w)
    ensures Tracked(Reconcile(w, spec, otherChanged, FINE).0)
  {
    hide EnsureKey, Safe;
    EnsureKeyTracks(w, spec);
    ReconcileIsSafe(w, spec, otherChanged, FINE);
    var t := EnsureKey(w, spec, FINE).0;
    SafeIds(w);
    ChangesAreDetected(w, spec, FINE);
  }

  lemma SafeIds(w: World)
    requires Safe(w)
    ensures w.status.keyId < w.nextId
  {
  }

  /** Without failures, and however spec.key changes, the live keys are exactly the current and the
      previous one, and the Secret holds the current one. */
  lemma {:induction false} LiveKeysAreTheRecordedKeys(run: seq<World>, steps: seq<Step>, i: nat)
    requires IsRun(run, steps) && Tracked(run[0]) && i <= |steps|
    requires forall j | 0 <= j < i && steps[j].Reconciles? :: steps[j].calls == FINE
    ensures Tracked(run[i]) && |run[i].live| <= 2
  {
    if i > 0 {
      LiveKeysAreTheRecordedKeys(run, steps, i - 1);
      match steps[i - 1]
      case Reconciles(spec, otherChanged, _) => ReconcileTracks(run[i - 1], spec, otherChanged);
      case Passes(elapsed) => StepIsSafe(run[i - 1], steps[i - 1]);
    }
    assert Tracks(run[i].status) <= {run[i].status.keyId, run[i].status.previousKeyId};
    AtMostTwo(Tracks(run[i].status), run[i].status.keyId, run[i].status.previousKeyId);
  }

  lemma AtMostTwo(s: set<Id>, a: Id, b: Id)
    requires s <= {a, b}
    ensures |s| <= 2
  {
    assert s == (s * {a}) + (s * {b});
    assert |s * {a}| <= 1 by {
      assert s * {a} == {} || s * {a} == {a};
    }
    assert |s * {b}| <= 1 by {
      assert s * {b} == {} || s * {b} == {b};
    }
  }

  // ----- when keys rotate -----

  /** After the revocation step no key is pending: none was, or its time has come. */
  predicate NonePending(w: World) {
    || w.status.previousKeyId == NONE
    || (w.status.previousKeyRevokeAt.Some? && w.status.previousKeyRevokeAt.value <= w.now)
  }

  /** The spec gives a rotation age and the recorded key is at least that old, or of unknown age. */
  predicate OldEnough(w: World, spec: Option<KeySpec>) {
    && spec.Some? && spec.value.rotateAfter.Some?
    && (w.status.keyCreatedAt.None? || w.now >= w.status.keyCreatedAt.value + spec.value.rotateAfter.value)
  }

  /** A reconcile without failing calls ends with a new key if and only if there was none in the Secret, or
      none is pending after the revocation step and the recorded one is old enough; and then the Secret
      holds the new key, and the old one is pending if it was the Secret's. */
  lemma FineReconcileReplacesIff(w: World, spec: Option<KeySpec>, otherChanged: bool)
    requires w.status.keyId < w.nextId
    ensures var t := Reconcile(w, spec, otherChanged, FINE).0;
      && (t.status.keyId != w.status.keyId <==> w.secretKey == NONE || (NonePending(w) && OldEnough(w, spec)))
      && (t.status.keyId != w.status.keyId ==>
            && t.secretKey == t.status.keyId == w.nextId && t.status.keyCreatedAt == Some(Truncate(w.now))
            && (w.secretKey != NONE ==> t.status.previousKeyId == w.status.keyId))
      && (t.status.keyId == w.status.keyId ==> t.secretKey == w.secretKey)
  {
  }

  /** Whichever calls fail, a rotation is recorded only when the key was old enough by the spec of that
      reconcile, and with the grace of that spec, or else five minutes. */
  lemma SwapMeansOldEnough(w: World, spec: Option<KeySpec>, otherChanged: bool, calls: Calls)
    requires Safe(w) && Reconcile(w, spec, otherChanged, calls).0.swaps != w.swaps
    ensures w.secretKey != NONE && NonePending(w) && OldEnough(w, spec)
    ensures Reconcile(w, spec, otherChanged, calls).0.swaps == w.swaps + [
      Swap(w.status.keyId, w.now,
           if spec.value.rotationGrace.Some? then spec.value.rotationGrace.value else 300 * SECOND)]
  {
  }

  /** The recorded creation time is when the recorded key was minted, to the second. */
  ghost predicate DatesKeys(w: World) {
    && (forall k | k in w.minted :: k < w.nextId)
    && (w.status.keyId in w.minted ==> w.status.keyCreatedAt == Some(Truncate(w.minted[w.status.keyId])))
  }

  lemma ReconcileDatesKeys(w: World, spec: Option<KeySpec>, otherChanged: bool, calls: Calls)
    requires Safe(w) && DatesKeys(w)
    ensures var t := Reconcile(w, spec, otherChanged, calls).0;
      DatesKeys(t) && forall k | k in w.minted :: k in t.minted && t.minted[k] == w.minted[k]
  {
    hide EnsureKey, Safe;
    SafeKeys(w);
    EnsureKeyDates(w, spec, calls);
  }

  /** What EnsureKey does to the dates. */
  lemma EnsureKeyDates(w: World, spec: Option<KeySpec>, calls: Calls)
    requires w.status.keyId < w.nextId
    ensures var (t, ok) := EnsureKey(w, spec, calls);
      && t.minted in {w.minted, w.minted[w.nextId := w.now]} && w.nextId <= t.nextId
      && (t.minted != w.minted ==> t.nextId == w.nextId + 1)
      && (ok && t.status.keyId == w.status.keyId ==> t.status.keyCreatedAt == w.status.keyCreatedAt)
      && (ok && t.status.keyId != w.status.keyId ==> t.status.keyId == w.nextId && t.status.keyCreatedAt == Some(w.now))
      && (ok && t.status.keyId != w.status.keyId ==> t.minted == w.minted[w.nextId := w.now])
  {
  }

  lemma {:induction false} RunDatesKeys(run: seq<World>, steps: seq<Step>, i: nat)
    requires IsRun(run, steps) && Safe(run[0]) && DatesKeys(run[0]) && i <= |steps|
    ensures Safe(run[i]) && DatesKeys(run[i])
  {
    hide Reconcile, Safe;
    if i > 0 {
      RunDatesKeys(run, steps, i - 1);
      StepIsSafe(run[i - 1], steps[i - 1]);
      match steps[i - 1]
      case Reconciles(spec, otherChanged, calls) => ReconcileDatesKeys(run[i - 1], spec, otherChanged, calls);
      case Passes(_) =>
    }
  }

  /** In every run, whichever calls fail and however the spec changes: when the rotation of a key that was
      minted in the run is recorded, the spec gives a rotation age, and the key is that old, to the second. */
  lemma RotationsWaitForTheirAge(run: seq<World>, steps: seq<Step>, i: nat)
    requires IsRun(run, steps) && Safe(run[0]) && DatesKeys(run[0]) && i < |steps|
    requires run[i + 1].swaps != run[i].swaps
    ensures steps[i].Reconciles? && steps[i].spec.Some? && steps[i].spec.value.rotateAfter.Some?
    ensures run[i].status.keyId in run[i].minted ==>
      run[i].now >= Truncate(run[i].minted[run[i].status.keyId]) + steps[i].spec.value.rotateAfter.value
    ensures |run[i + 1].swaps| == |run[i].swaps| + 1
    ensures run[i + 1].swaps[|run[i].swaps|].outgoing == run[i].status.keyId
    ensures run[i + 1].swaps[|run[i].swaps|].at == run[i].now
  {
    hide Reconcile, Safe;
    RunDatesKeys(run, steps, i);
    SwapMeansOldEnough(run[i], steps[i].spec, steps[i].otherChanged, steps[i].calls);
  }

  /** And a reconcile without failing calls replaces such a key if and only if it is that old, unless another
      one is pending; without a rotation age it never does. */
  lemma AgeDecides(run: seq<World>, steps: seq<Step>, i: nat)
    requires IsRun(run, steps) && Safe(run[0]) && DatesKeys(run[0]) && i < |steps|
    requires steps[i].Reconciles? && steps[i].calls == FINE
    requires run[i].secretKey != NONE && run[i].status.keyId in run[i].minted
    ensures run[i + 1].status.keyId != run[i].status.keyId <==>
      && NonePending(run[i]) && steps[i].spec.Some? && steps[i].spec.value.rotateAfter.Some?
      && run[i].now >= Truncate(run[i].minted[run[i].status.keyId]) + steps[i].spec.value.rotateAfter.value
  {
    hide Reconcile, Safe;
    RunDatesKeys(run, steps, i);
    SafeKeys(run[i]);
    FineReconcileReplacesIff(run[i], steps[i].spec, steps[i].otherChanged);
  }

  /** A reconcile succeeds only if each call that it had to make did: reading the Secret, then either completing
      the bundle, or minting, writing the Secret and storing the status. */
  lemma SuccessMeansNoCallFailed(w: World, spec: Option<KeySpec>, otherChanged: bool, calls: Calls)
    requires w.status.keyId < w.nextId
    ensures var (t, requeue) := Reconcile(w, spec, otherChanged, calls);
      requeue.Some? ==>
        && calls.readSecret
        && (t.status.keyId == w.status.keyId ==> w.secretKey != NONE && calls.writeBundle == Done)
        && (t.status.keyId != w.status.keyId ==>
              calls.addKey == Done && calls.writeSecret == Done && calls.applyStatus == Done)
        && (t.status.previousKeyId != w.status.previousKeyId ==> calls.applyStatus == Done)
  {
  }

  /** A reconcile that succeeds leaves the resource ready, and the stored status with it. */
  lemma SuccessIsReady(w: World, spec: Option<KeySpec>, otherChanged: bool, calls: Calls)
    ensures var (t, requeue) := Reconcile(w, spec, otherChanged, calls);
      requeue.Some? ==> t.status.ready
  {
    hide EnsureKey;
    EnsureKeyKeepsReady(w, spec, calls);
  }

  lemma EnsureKeyKeepsReady(w: World, spec: Option<KeySpec>, calls: Calls)
    ensures EnsureKey(w, spec, calls).0.status.ready == w.status.ready
  {
  }

  /** A reconcile asks to come back after five minutes if no revocation time is set, and always between one
      second and five minutes. */
  lemma RequeueIsBounded(w: World, spec: Option<KeySpec>, otherChanged: bool, calls: Calls)
    requires w.status.keyId < w.nextId
    ensures var (t, requeue) := Reconcile(w, spec, otherChanged, calls);
      requeue.Some? ==>
        && SECOND <= requeue.value <= 300 * SECOND
        && (t.status.previousKeyRevokeAt.None? ==> requeue.value == 300 * SECOND)
  {
    hide EnsureKey;
    ChangesAreDetected(w, spec, calls);
    var v := EnsureKey(w, spec, calls).0;
    var t := Reconcile(w, spec, otherChanged, calls).0;
    assert Reconcile(w, spec, otherChanged, calls).1.Some? ==>
      (t.status.previousKeyRevokeAt.None? <==> v.status.previousKeyRevokeAt.None?);
  }

  /** With a revocation time it is a second after that time, within those bounds: after the recorded time, or,
      when the reconcile rotated, after the grace of its spec. */
  lemma RequeueIsASecondLater(w: World, spec: Option<KeySpec>, otherChanged: bool, calls: Calls)
    requires w.status.keyId < w.nextId
    ensures var (t, requeue) := Reconcile(w, spec, otherChanged, calls);
      requeue.Some? && t.status.previousKeyRevokeAt.Some? ==>
        var rotated := t.status.keyId != w.status.keyId && w.secretKey != NONE;
        && (rotated ==> spec.Some?) && (!rotated ==> w.status.previousKeyRevokeAt.Some?)
        && var wait := if !rotated then w.status.previousKeyRevokeAt.value - w.now
                       else if spec.value.rotationGrace.Some? then spec.value.rotationGrace.value else 300 * SECOND;
           requeue.value == if wait < 0 then SECOND else if wait > 299 * SECOND then 300 * SECOND else wait + SECOND
  {
  }

  // ----- runs with failures -----

  /** Every live key is one that the status accounts for. */
  ghost predicate Contained(w: World) {
    w.live <= Tracks(w.status)
  }

  /** Without a key in the Secret the status knows of none. */
  ghost predicate Bound(w: World) {
    Safe(w) && (w.secretKey == NONE ==> w.status.keyId == NONE)
  }

  /** The reconcile comes to mint. */
  predicate Mints(w: World, spec: Option<KeySpec>, calls: Calls) {
    && calls.readSecret && FinishRevocation(w, calls.removeKey).1
    && (w.secretKey == NONE
        || KeyRotationDue(FinishRevocation(w, calls.removeKey).0.status, spec, true, w.now))
  }

  /** A key is minted, and the status that would record it is not stored: the reconcile goes no further
      than a mint or a write of the Secret that fails, or its last write is lost. */
  predicate Leaks(w: World, spec: Option<KeySpec>, calls: Calls) {
    && Mints(w, spec, calls) && calls.addKey != Lost
    && (calls.addKey != Done || calls.writeSecret != Done || calls.applyStatus == Lost)
  }

  /** What EnsureKey does to the live keys and to the ids in the status. */
  lemma EnsureKeyMints(w: World, spec: Option<KeySpec>, calls: Calls)
    requires Safe(w)
    ensures var (t, ok) := EnsureKey(w, spec, calls);
      var mints := Mints(w, spec, calls);
      && (w.nextId in t.live <==> mints && calls.addKey != Lost)
      && t.live <= w.live + {w.nextId} && w.live - {w.status.previousKeyId} <= t.live
      && (ok ==> t.status.keyId == if mints then w.nextId else w.status.keyId)
      && (ok ==> t.status.previousKeyId in {NONE, w.status.previousKeyId, w.status.keyId})
      && (ok && w.status.previousKeyId in t.live && w.status.previousKeyId != NONE ==>
            t.status.previousKeyId == w.status.previousKeyId)
      && (ok && mints ==> calls.addKey == Done && calls.writeSecret == Done)
      && (ok && mints && w.status.keyId != NONE && w.secretKey != NONE ==> t.status.previousKeyId == w.status.keyId)
      && (mints && calls.addKey == Done && calls.writeSecret == Done ==> ok)
      && (t.secretKey == NONE ==> w.secretKey == NONE && !ok)
  {
  }

  /** One reconcile keeps every live key accounted for if and only if it does not leak; a key that is
      unaccounted for stays so, and live. */
  lemma ReconcileContains(w: World, spec: Option<KeySpec>, otherChanged: bool, calls: Calls)
    requires Bound(w)
    ensures var t := Reconcile(w, spec, otherChanged, calls).0;
      Bound(t) && (Contained(t) <==> Contained(w) && !Leaks(w, spec, calls))
  {
    hide EnsureKey, Mints, Safe;
    ReconcileIsSafe(w, spec, otherChanged, calls);
    EnsureKeyMints(w, spec, calls);
    SafeKeys(w);
    var t := Reconcile(w, spec, otherChanged, calls).0;
    if !Contained(w) {
      var k :| k in w.live && k !in Tracks(w.status);
      assert k in t.live && k !in Tracks(t.status);
    } else if Leaks(w, spec, calls) {
      assert w.nextId in t.live && w.nextId !in Tracks(t.status);
    }
  }

  lemma SafeKeys(w: World)
    requires Safe(w)
    ensures 0 < w.nextId && w.status.keyId < w.nextId && w.status.previousKeyId < w.nextId
    ensures forall k | k in w.live :: 0 < k < w.nextId
  {
  }

  predicate StepLeaks(w: World, step: Step) {
    step.Reconciles? && Leaks(w, step.spec, step.calls)
  }

  /** In every run, whichever calls fail and however spec.key changes: the live keys are at most the current
      and the previous one, and so at most two, exactly as long as no reconcile leaked. */
  lemma {:induction false} LiveKeysAreRecordedUnlessLeaked(run: seq<World>, steps: seq<Step>, i: nat)
    requires IsRun(run, steps) && Bound(run[0]) && i <= |steps|
    ensures Bound(run[i])
    ensures Contained(run[i]) <==> Contained(run[0]) && forall j | 0 <= j < i :: !StepLeaks(run[j], steps[j])
    ensures Contained(run[i]) ==> |run[i].live| <= 2
  {
    hide Reconcile, Leaks, Safe;
    if i > 0 {
      LiveKeysAreRecordedUnlessLeaked(run, steps, i - 1);
      match steps[i - 1]
      case Reconciles(spec, otherChanged, calls) => ReconcileContains(run[i - 1], spec, otherChanged, calls);
      case Passes(elapsed) => StepIsSafe(run[i - 1], steps[i - 1]);
    }
    if Contained(run[i]) {
      AtMostTwo(run[i].live, run[i].status.keyId, run[i].status.previousKeyId);
    }
  }

  /** The world of a MachineUser that is new. */
  const NEW: World := World(0, Status(NONE, None, NONE, None, false), NONE, {}, 1, [], map[])

  /** After `n` reconciles whose write of the Secret fails. */
  function Retried(spec: Option<KeySpec>, n: nat): World {
    if n == 0 then NEW else Reconcile(Retried(spec, n - 1), spec, false, FINE.(writeSecret := Lost)).0
  }

  /** Each of them leaves one more live key that nothing records, without bound. */
  lemma {:induction false} EveryRetryLeaksAKey(spec: Option<KeySpec>, n: nat)
    ensures var w := Retried(spec, n);
      && |w.live| == n && (forall k :: k in w.live <==> 0 < k <= n)
      && w.status == NEW.status && w.secretKey == NONE && w.nextId == n + 1
  {
    if n > 0 {
      EveryRetryLeaksAKey(spec, n - 1);
    }
  }

  // ----- keys from before the bookkeeping -----

  /** A revocation time is set exactly while a key awaits revocation. */
  predicate Matched(st: Status) {
    st.previousKeyId != NONE <==> st.previousKeyRevokeAt.Some?
  }

  /** A rotation keeps that if and only if the outgoing key was tracked. */
  lemma RotationMarksOnlyTrackedKeys(w: World, spec: Option<KeySpec>, otherChanged: bool)
    requires w.status.keyId < w.nextId && w.secretKey != NONE
    requires KeyRotationDue(FinishRevocation(w, Done).0.status, spec, true, w.now)
    ensures Matched(Reconcile(w, spec, otherChanged, FINE).0.status) <==> w.status.keyId != NONE
  {
  }

  /** For an untracked key the time that was set is not cleared by a reconcile that does not rotate again;
      once it has passed, the reconcile comes back every second. */
  lemma StrayTimestampHotLoops(w: World, spec: Option<KeySpec>, otherChanged: bool)
    requires w.secretKey != NONE && w.status.previousKeyId == NONE
    requires w.status.previousKeyRevokeAt.Some? && w.status.previousKeyRevokeAt.value < w.now
    requires !KeyRotationDue(w.status, spec, true, w.now)
    ensures var (t, requeue) := Reconcile(w, spec, otherChanged, FINE);
      requeue == Some(SECOND)
      && t.status.previousKeyId == NONE && t.status.previousKeyRevokeAt.Some?
      && t.status.previousKeyRevokeAt.value <= w.status.previousKeyRevokeAt.value
  {
  }

  /** With a recorded current key, a reconcile clears a stray time exactly by recording a rotation. */
  lemma RotationEndsTheStray(w: World, spec: Option<KeySpec>, otherChanged: bool, calls: Calls)
    requires Safe(w) && w.status.keyId != NONE
    ensures var t := Reconcile(w, spec, otherChanged, calls).0;
      && t.status.keyId != NONE
      && (Matched(t.status) <==> Matched(w.status) || t.status.previousKeyId != NONE)
  {
  }

  /** A reconcile that finds a stray time which has passed, leaves it there, and succeeds, comes back after
      one second. */
  lemma StrayTimeHurries(w: World, spec: Option<KeySpec>, otherChanged: bool, calls: Calls)
    requires Safe(w) && w.status.keyId != NONE
    requires !Matched(w.status) && w.status.previousKeyRevokeAt.Some? && w.status.previousKeyRevokeAt.value < w.now
    ensures var (t, requeue) := Reconcile(w, spec, otherChanged, calls);
      requeue.Some? && !Matched(t.status) ==> requeue == Some(SECOND)
  {
  }

  /** Whichever calls fail, a stray time stays until the next rotation is recorded, every reconcile that
      succeeds meanwhile comes back after one second once the time has passed, and from that rotation on
      the time is there exactly while a key is pending: it goes with the revocation of that key. */
  lemma {:induction false} StrayTimeLastsUntilTheNextRotation(run: seq<World>, steps: seq<Step>, i: nat)
    requires IsRun(run, steps) && Safe(run[0]) && run[0].status.keyId != NONE && i <= |steps|
    ensures Safe(run[i]) && run[i].status.keyId != NONE
    ensures Matched(run[i].status) <==>
      Matched(run[0].status) || exists j | 0 <= j <= i :: run[j].status.previousKeyId != NONE
    ensures i < |steps| && steps[i].Reconciles? && !Matched(run[i].status) && !Matched(run[i + 1].status)
            && run[i].status.previousKeyRevokeAt.Some? && run[i].status.previousKeyRevokeAt.value < run[i].now ==>
      Reconcile(run[i], steps[i].spec, steps[i].otherChanged, steps[i].calls).1 in {None, Some(SECOND)}
  {
    hide Reconcile, Safe;
    if i > 0 {
      StrayTimeLastsUntilTheNextRotation(run, steps, i - 1);
      StepIsSafe(run[i - 1], steps[i - 1]);
      match steps[i - 1]
      case Reconciles(spec, otherChanged, calls) => RotationEndsTheStray(run[i - 1], spec, otherChanged, calls);
      case Passes(_) =>
      SafeMarks(run[i]);
    } else {
      SafeMarks(run[0]);
    }
    if i < |steps| && steps[i].Reconciles? && !Matched(run[i].status)
       && run[i].status.previousKeyRevokeAt.Some? && run[i].status.previousKeyRevokeAt.value < run[i].now {
      StrayTimeHurries(run[i], steps[i].spec, steps[i].otherChanged, steps[i].calls);
    }
  }

  lemma SafeMarks(w: World)
    requires Safe(w)
    ensures w.status.previousKeyId != NONE ==> w.status.previousKeyRevokeAt.Some?
  {
  }

  // ----- the revocation comes on time -----

  /** Key `k` awaits revocation at `at`. */
  ghost predicate Pending(w: World, k: Id, at: Time) {
    && Tracked(w) && k != NONE && w.status.previousKeyId == k && w.status.previousKeyRevokeAt == Some(at)
    && Truncate(at) == at
  }

  /** Before its time, a reconcile leaves a pending key alone and asks to come back at most a second
      after that time; at its time, it revokes the key. */
  lemma PendingReconcile(w: World, k: Id, at: Time, spec: Option<KeySpec>, otherChanged: bool)
    requires Pending(w, k, at)
    ensures var (t, requeue) := Reconcile(w, spec, otherChanged, FINE);
      requeue.Some?
      && (w.now < at ==> Pending(t, k, at) && k in t.live && SECOND <= requeue.value <= at + SECOND - w.now)
      && (w.now >= at ==> k !in t.live)
  {
    ReconcileTracks(w, spec, otherChanged);
  }

  /** What each reconcile finds in the spec, and whether other status fields change: anything. */
  type Schedule = nat -> (Option<KeySpec>, bool)

  /** The world at the start of the n-th reconcile, each running exactly when the one before asked. */
  ghost function Visit(w: World, schedule: Schedule, n: nat): World {
    if n == 0 then w
    else
      var before := Visit(w, schedule, n - 1);
      var (t, requeue) := Reconcile(before, schedule(n - 1).0, schedule(n - 1).1, FINE);
      if requeue.Some? then t.(now := before.now + requeue.value) else t
  }

  lemma LaterIsPending(w: World, k: Id, at: Time, elapsed: Time)
    requires Pending(w, k, at) && 0 <= elapsed
    ensures Pending(w.(now := w.now + elapsed), k, at)
  {
    var t := w.(now := w.now + elapsed);
    var i :| SwapOf(w, i, k, at);
    assert SwapOf(t, i, k, at);
  }

  /** The n-th visit finds a key pending until `at`: some visit in the second that starts then is the
      first to revoke it. */
  lemma PendingIsRevoked(w: World, schedule: Schedule, n: nat, k: Id, at: Time) returns (m: nat)
    requires Pending(Visit(w, schedule, n), k, at) && Visit(w, schedule, n).now <= at + SECOND
    ensures n <= m && at <= Visit(w, schedule, m).now <= at + SECOND
    ensures forall j | n <= j <= m :: k in Visit(w, schedule, j).live
    ensures k !in Visit(w, schedule, m + 1).live
    decreases at - Visit(w, schedule, n).now
  {
    hide Reconcile;
    var v := Visit(w, schedule, n);
    PendingReconcile(v, k, at, schedule(n).0, schedule(n).1);
    if v.now >= at {
      m := n;
    } else {
      var (t, requeue) := Reconcile(v, schedule(n).0, schedule(n).1, FINE);
      ReconcileKeepsTime(v, schedule(n).0, schedule(n).1);
      LaterIsPending(t, k, at, requeue.value);
      m := PendingIsRevoked(w, schedule, n + 1, k, at);
    }
  }

  lemma ReconcileKeepsTime(w: World, spec: Option<KeySpec>, otherChanged: bool)
    ensures Reconcile(w, spec, otherChanged, FINE).0.now == w.now
  {
  }

  /** The reconcile that rotates a key, for the key it rotates out. */
  lemma RotatingReconcile(w: World, spec: Option<KeySpec>, otherChanged: bool)
    requires Tracked(w) && w.secretKey != NONE
    requires KeyRotationDue(FinishRevocation(w, Done).0.status, spec, true, w.now)
    ensures var k := w.status.keyId;
      var revokeAt := w.now + GraceOf(spec.value);
      var (t, requeue) := Reconcile(w, spec, otherChanged, FINE);
      && Pending(t, k, Truncate(revokeAt)) && requeue.Some? && SECOND <= requeue.value && k in w.live && k in t.live
      && w.now + requeue.value <= (if revokeAt < w.now then w.now else revokeAt) + SECOND
  {
    ReconcileTracks(w, spec, otherChanged);
  }

  /** A key rotated out at time `s` with grace `g` is live at every visit until one that comes no earlier
      than the second of s+g and no later than s+g+1s (s+1s for a negative grace), and gone at the next;
      for any grace, and whatever happens to the spec meanwhile. */
  lemma RotatedKeyIsRevokedOnTime(w: World, schedule: Schedule) returns (m: nat)
    requires Tracked(w) && w.secretKey != NONE
    requires KeyRotationDue(FinishRevocation(w, Done).0.status, schedule(0).0, true, w.now)
    ensures var k, revokeAt := w.status.keyId, w.now + GraceOf(schedule(0).0.value);
      && (forall j | 0 <= j <= m :: k in Visit(w, schedule, j).live) && k !in Visit(w, schedule, m + 1).live
      && Truncate(revokeAt) <= Visit(w, schedule, m).now
      && Visit(w, schedule, m).now <= (if revokeAt < w.now then w.now else revokeAt) + SECOND
  {
    hide Reconcile;
    var k, revokeAt := w.status.keyId, w.now + GraceOf(schedule(0).0.value);
    RotatingReconcile(w, schedule(0).0, schedule(0).1);
    ReconcileKeepsTime(w, schedule(0).0, schedule(0).1);
    var (t, requeue) := Reconcile(w, schedule(0).0, schedule(0).1, FINE);
    LaterIsPending(t, k, Truncate(revokeAt), requeue.value);
    var v := Visit(w, schedule, 1);
    assert v == t.(now := w.now + requeue.value) by {
      assert Visit(w, schedule, 0) == w;
    }
    if v.now < Truncate(revokeAt) {
      m := PendingIsRevoked(w, schedule, 1, k, Truncate(revokeAt));
    } else {
      m := 1;
      PendingReconcile(v, k, Truncate(revokeAt), schedule(1).0, schedule(1).1);
    }
  }
}
