/** The ApplicationKey and PersonalAccessToken reconcilers as they run, on the object they fetched. */
module CredentialReconciler {
  import opened Base
  import opened Credentials

  /** The resource, its Secret, and the credentials minted for it. */
  class Credential {
    var live: map<Id, Target>
    var nextId: Id
    var secret: Option<Id>
    /** The fetched object. */
    var keyId: Id
    var ready: bool
    /** What the API server has. */
    var stored: Id
    var storedReady: bool
    var finalized: bool

    constructor (w: World)
      ensures World() == w
    {
      live, nextId, secret, finalized := w.live, w.nextId, w.secret, w.finalized;
      stored, storedReady, keyId, ready := w.recorded, w.ready, w.recorded, w.ready;
    }

    function World(): World
      reads this
    {
      Credentials.World(live, stored, storedReady, secret, nextId, finalized)
    }

    /** The world as the reconcile sees it, with the fetched object in place of the stored one. */
    ghost function Edited(): World
      reads this
    {
      World().(recorded := keyId, ready := ready)
    }

    /** The call names the target; NotFound is no error. */
    method RemoveKey(target: Target, k: Id, o: Outcome) returns (ok: bool)
      modifies `live
      ensures live == if o == Lost || (k in old(live) && old(live)[k] != target) then old(live) else old(live) - {k}
      ensures ok == (o == Done)
    {
      if o != Lost && k in live && live[k] == target {
        live := live - {k};
      }
      ok := o == Done;
    }

    method DeleteKey(target: Target, o: Outcome) returns (ok: bool)
      modifies `live
      ensures (Edited(), ok) == Revoke(old(Edited()), target, o)
    {
      if keyId == NONE {
        return true;
      }
      ok := RemoveKey(target, keyId, o);
    }

    method Mint(target: Target, o: Outcome) returns (r: Option<Id>)
      modifies `live, `nextId
      ensures live == if o == Lost then old(live) else old(live)[old(nextId) := target]
      ensures nextId == if o == Lost then old(nextId) else old(nextId) + 1
      ensures r == if o == Done then Some(old(nextId)) else None
    {
      r := if o == Done then Some(nextId) else None;
      if o != Lost {
        live, nextId := live[nextId := target], nextId + 1;
      }
    }

    method CreateSecret(key: Id, o: Outcome) returns (ok: bool)
      modifies `secret
      ensures ok <==> old(secret).None? && o == Done
      ensures secret == if old(secret).None? && o != Lost then Some(key) else old(secret)
    {
      if secret.Some? {
        return false;
      }
      if o != Lost {
        secret := Some(key);
      }
      ok := o == Done;
    }

    method UpdateSecret(key: Id, o: Outcome) returns (ok: bool)
      modifies `secret
      ensures ok <==> o == Done
      ensures secret == if o != Lost then Some(key) else old(secret)
    {
      if o != Lost {
        secret := Some(key);
      }
      ok := o == Done;
    }

    method EnsureKey(target: Target, calls: Calls) returns (ok: bool)
      modifies `live, `nextId, `secret, `keyId
      ensures (Edited(), ok) == Ensure(old(Edited()), target, calls)
    {
      var read := if calls.readSecret then secret else None;
      if read.Some? && read.value != NONE && keyId != NONE {
        return true;
      }
      if keyId != NONE {
        ok := DeleteKey(target, calls.revoke);
        if !ok {
          return;
        }
      }
      var key := Mint(target, calls.mint);
      if key.None? {
        return false;
      }
      keyId := key.value;
      if read.None? {
        ok := CreateSecret(key.value, calls.writeSecret);
      } else {
        ok := UpdateSecret(key.value, calls.writeSecret);
      }
    }

    method ApplyStatus(o: Outcome) returns (ok: bool)
      modifies `stored, `storedReady
      ensures ok == (o == Done)
      ensures stored == if o == Lost then old(stored) else keyId
      ensures storedReady == if o == Lost then old(storedReady) else ready
    {
      if o != Lost {
        stored, storedReady := keyId, ready;
      }
      ok := o == Done;
    }

    method Reconcile(target: Target, calls: Calls) returns (ok: bool)
      modifies this
      ensures (World(), ok) == Credentials.Reconcile(old(World()), target, calls)
    {
      keyId, ready := stored, storedReady;
      var prev := keyId;
      ok := EnsureKey(target, calls);
      if !ok {
        var _ := ApplyStatus(calls.applyStatus);
        return false;
      }
      if ready && !calls.otherChanged && keyId == prev {
        return true;
      }
      ready := true;
      ok := ApplyStatus(calls.applyStatus);
    }

    method HandleDeletion(strict: bool, target: Target, revoke: Outcome, update: Outcome) returns (ok: bool)
      modifies this
      ensures (World(), ok) == Delete(old(World()), strict, target, revoke, update)
    {
      keyId, ready := stored, storedReady;
      ok := DeleteKey(target, revoke);
      if strict && !ok {
        return;
      }
      if update != Lost {
        finalized := true;
      }
      ok := update == Done;
    }
  }
}
