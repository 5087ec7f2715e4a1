/** The key part of the MachineUser reconciler as it runs: it edits the status of the object it
    fetched, changes keys and Secret on the way, and writes the status back at the end. */
module MachineUserReconciler {
  import opened Base
  import opened MachineUserKeys

  /** The key bookkeeping of a fetched MachineUser. */
  class MachineUser {
    var keyId: Id
    var keyCreatedAt: Option<Time>
    var previousKeyId: Id
    var previousKeyRevokeAt: Option<Time>
    var ready: bool

    constructor (st: Status)
      ensures View() == st
    {
      keyId, keyCreatedAt := st.keyId, st.keyCreatedAt;
      previousKeyId, previousKeyRevokeAt, ready := st.previousKeyId, st.previousKeyRevokeAt, st.ready;
    }

    function View(): Status
      reads this
    {
      Status(keyId, keyCreatedAt, previousKeyId, previousKeyRevokeAt, ready)
    }

    /** The outgoing key stays valid until the grace elapses. */
    method RecordKeyRotation(spec: KeySpec, now: Time)
      modifies this
      ensures View() == RecordRotation(old(View()), spec, now)
    {
      var grace := DEFAULT_KEY_ROTATION_GRACE;
      if spec.rotationGrace.Some? {
        grace := spec.rotationGrace.value;
      }
      previousKeyId := keyId;
      previousKeyRevokeAt := Some(now + grace);
    }
  }

  /** The reconciler's view of the cluster and of Zitadel, for one MachineUser. */
  class Reconciler {
    var stored: Status
    var secretKey: Id
    var live: set<Id>
    var nextId: Id
    ghost var swaps: seq<Swap>
    ghost var minted: map<Id, Time>

    constructor (w: World)
      ensures Sees(w.now, w.status) == w
    {
      stored, secretKey, live, nextId := w.status, w.secretKey, w.live, w.nextId;
      swaps, minted := w.swaps, w.minted;
    }

    ghost function Sees(now: Time, st: Status): World
      reads this
    {
      World(now, st, secretKey, live, nextId, swaps, minted)
    }

    method AddMachineKey(ghost now: Time, o: Outcome) returns (r: Option<Id>)
      modifies `live, `nextId, `minted
      ensures minted == if o == Lost then old(minted) else old(minted)[old(nextId) := now]
      ensures live == if o == Lost then old(live) else old(live) + {old(nextId)}
      ensures nextId == if o == Lost then old(nextId) else old(nextId) + 1
      ensures r == if o == Done then Some(old(nextId)) else None
    {
      r := if o == Done then Some(nextId) else None;
      if o != Lost {
        minted := minted[nextId := now];
        live, nextId := live + {nextId}, nextId + 1;
      }
    }

    /** Revokes the rotated-out key once its grace elapsed; false is an error. */
    method FinishPendingKeyRevocation(cr: MachineUser, now: Time, o: Outcome) returns (ok: bool)
      modifies `live, cr
      ensures (Sees(now, cr.View()), ok) == FinishRevocation(old(Sees(now, cr.View())), o)
    {
      if cr.previousKeyId == NONE || cr.previousKeyRevokeAt.None? {
        return true;
      }
      if now < cr.previousKeyRevokeAt.value {
        return true;
      }
      if o != Lost {
        live := live - {cr.previousKeyId};
      }
      if o != Done {
        return false;
      }
      cr.previousKeyId := NONE;
      cr.previousKeyRevokeAt := None;
      ok := true;
    }

    method EnsureKey(cr: MachineUser, spec: Option<KeySpec>, now: Time, calls: Calls) returns (ok: bool)
      modifies `live, `nextId, `minted, `secretKey, cr
      ensures (Sees(now, cr.View()), ok) == MachineUserKeys.EnsureKey(old(Sees(now, cr.View())), spec, calls)
    {
      if !calls.readSecret {
        return false;
      }
      var hasKey := secretKey != NONE;
      ok := FinishPendingKeyRevocation(cr, now, calls.removeKey);
      if !ok {
        return;
      }
      var rotationDue := KeyRotationDue(cr.View(), spec, hasKey, now);
      if hasKey && !rotationDue {
        return calls.writeBundle == Done;
      }
      var key := AddMachineKey(now, calls.addKey);
      if key.None? {
        return false;
      }
      if rotationDue {
        cr.RecordKeyRotation(spec.value, now);
      }
      cr.keyId := key.value;
      cr.keyCreatedAt := Some(now);
      if calls.writeSecret != Lost {
        secretKey := key.value;
      }
      ok := calls.writeSecret == Done;
    }

    method Reconcile(spec: Option<KeySpec>, otherChanged: bool, now: Time, calls: Calls) returns (requeue: Option<Time>)
      modifies this
      ensures (Sees(now, stored), requeue)
           == MachineUserKeys.Reconcile(old(Sees(now, stored)), spec, otherChanged, calls)
      ensures old(Safe(Sees(now, stored))) ==> Safe(Sees(now, stored))
    {
      hide MachineUserKeys.EnsureKey, Safe;
      ghost var w := Sees(now, stored);
      var cr := new MachineUser(stored);
      var prevStatus := cr.View();
      var ok := EnsureKey(cr, spec, now, calls);
      if Safe(w) {
        ReconcileIsSafe(w, spec, otherChanged, calls);
      }
      if !ok {
        return None;
      }
      requeue := Some(NextRequeue(cr.View(), now));
      if cr.ready && !otherChanged && !StatusChanged(prevStatus, cr.View()) {
        return;
      }
      cr.ready := true;
      if calls.applyStatus != Lost {
        stored := Persisted(cr.View());
        swaps := Store(w, cr.View(), w.status, spec).swaps;
      }
      if calls.applyStatus != Done {
        requeue := None;
      }
    }
  }
}
