/** Single roles: a ProjectRole keeps one role of one project in Zitadel, replacing it when its key or
    its project changes. Many of them share the server. */
module ProjectRoles {
  import opened Base

  /** Where a role lives; its key cannot be changed. */
  datatype Slot = Slot(project: Id, key: string)

  datatype Role = Role(displayName: string, group: string)

  type Server = map<Slot, Role>

  /** The stored status of a ProjectRole. */
  datatype Status = Status(projectId: Id, key: string, observedGeneration: nat, ready: bool)

  datatype Spec = Spec(slot: Slot, role: Role, generation: nat)

  datatype Calls = Calls(remove: Outcome, list: bool, write: Outcome, applyStatus: Outcome)

  /** What one pass leaves behind. */
  datatype Pass = Pass(server: Server, status: Status, ok: bool)

  // ----- one pass -----

  predicate Recorded(st: Status) {
    st.key != "" && st.projectId != NONE
  }

  function Current(st: Status): Slot {
    Slot(st.projectId, st.key)
  }

  predicate Replaces(st: Status, slot: Slot) {
    Recorded(st) && Current(st) != slot
  }

  /** A role that does not exist is removed already. */
  function Without(server: Server, slot: Slot, o: Outcome): Server {
    if o == Lost then server else server - {slot}
  }

  function With(server: Server, slot: Slot, role: Role, o: Outcome): Server {
    if o == Lost then server else server[slot := role]
  }

  /** Creates the role, or adopts it and corrects its drift. */
  function EnsureRole(server: Server, spec: Spec, calls: Calls): (Server, bool) {
    if !calls.list then (server, false)
    else if spec.slot in server && server[spec.slot] == spec.role then (server, true)
    else (With(server, spec.slot, spec.role, calls.write), calls.write == Done)
  }

  predicate StatusChanged(st: Status, spec: Spec) {
    st.projectId != spec.slot.project || st.key != spec.slot.key || st.observedGeneration != spec.generation
  }

  function Reconcile(server: Server, st: Status, spec: Spec, calls: Calls): Pass {
    var replaced := Replaces(st, spec.slot);
    var cleared := if replaced then Without(server, Current(st), calls.remove) else server;
    if replaced && calls.remove != Done then Pass(cleared, st, false)
    else
      var (t, ok) := EnsureRole(cleared, spec, calls);
      if !ok then Pass(t, st, false)
      else if st.ready && !StatusChanged(st, spec) then Pass(t, st, true)
      else
        var stored := Status(spec.slot.project, spec.slot.key, spec.generation, true);
        Pass(t, if calls.applyStatus == Lost then st else stored, calls.applyStatus == Done)
  }

  /** Deletion removes the recorded role, and goes on without it. */
  function Delete(server: Server, st: Status, o: Outcome): Server {
    if Recorded(st) then Without(server, Current(st), o) else server
  }

  // ----- what a pass touches -----

  /** The role that the status records, if any. */
  function Own(st: Status): set<Slot> {
    if Recorded(st) then {Current(st)} else {}
  }

  function Touched(st: Status, spec: Spec): set<Slot> {
    Own(st) + {spec.slot}
  }

  predicate Sensible(spec: Spec) {
    spec.slot.project != NONE && spec.slot.key != ""
  }

  predicate Agree(a: Server, b: Server, slot: Slot) {
    (slot in a <==> slot in b) && (slot in a ==> a[slot] == b[slot])
  }

  /** Whichever call fails, a pass changes no role but the recorded and the desired one. */
  lemma TouchesOnlyItsOwn(server: Server, st: Status, spec: Spec, calls: Calls, slot: Slot)
    requires slot !in Touched(st, spec)
    ensures Agree(server, Reconcile(server, st, spec, calls).server, slot)
  {
  }

  /** A pass sees no role but the desired one, so it does the same on every server that agrees on it. */
  lemma SeesOnlyItsOwn(server: Server, other: Server, st: Status, spec: Spec, calls: Calls, slot: Slot)
    requires Agree(server, other, spec.slot) && Agree(server, other, slot)
    ensures var p, q := Reconcile(server, st, spec, calls), Reconcile(other, st, spec, calls);
      p.ok == q.ok && p.status == q.status && Agree(p.server, q.server, slot)
  {
    hide EnsureRole, Without, StatusChanged, Agree;
    var cleared, alike := Without(server, Current(st), calls.remove), Without(other, Current(st), calls.remove);
    RemovalAgrees(server, other, Current(st), calls.remove, slot);
    RemovalAgrees(server, other, Current(st), calls.remove, spec.slot);
    EnsureAgrees(server, other, spec, calls, slot);
    EnsureAgrees(cleared, alike, spec, calls, slot);
  }

  lemma RemovalAgrees(server: Server, other: Server, removed: Slot, o: Outcome, slot: Slot)
    requires Agree(server, other, slot)
    ensures Agree(Without(server, removed, o), Without(other, removed, o), slot)
  {
  }

  lemma EnsureAgrees(server: Server, other: Server, spec: Spec, calls: Calls, slot: Slot)
    requires Agree(server, other, spec.slot) && Agree(server, other, slot)
    ensures var (p, q) := (EnsureRole(server, spec, calls), EnsureRole(other, spec, calls));
      p.1 == q.1 && Agree(p.0, q.0, slot)
  {
  }

  /** Passes of resources that share no role commute, whatever fails in each. */
  lemma DisjointPassesCommute(
    server: Server, a: Status, sa: Spec, ca: Calls, b: Status, sb: Spec, cb: Calls)
    requires Touched(a, sa) !! Touched(b, sb)
    ensures var p := Reconcile(server, a, sa, ca);
      var q := Reconcile(server, b, sb, cb);
      var pq := Reconcile(p.server, b, sb, cb);
      var qp := Reconcile(q.server, a, sa, ca);
      && pq.server == qp.server && pq.status == q.status && pq.ok == q.ok && qp.status == p.status && qp.ok == p.ok
  {
    hide Reconcile, Touched;
    var p, q := Reconcile(server, a, sa, ca), Reconcile(server, b, sb, cb);
    var pq, qp := Reconcile(p.server, b, sb, cb), Reconcile(q.server, a, sa, ca);
    forall slot ensures slot !in Touched(a, sa) ==> Agree(server, p.server, slot) && Agree(q.server, qp.server, slot) {
      if slot !in Touched(a, sa) {
        TouchesOnlyItsOwn(server, a, sa, ca, slot);
        TouchesOnlyItsOwn(q.server, a, sa, ca, slot);
      }
    }
    forall slot ensures slot !in Touched(b, sb) ==> Agree(server, q.server, slot) && Agree(p.server, pq.server, slot) {
      if slot !in Touched(b, sb) {
        TouchesOnlyItsOwn(server, b, sb, cb, slot);
        TouchesOnlyItsOwn(p.server, b, sb, cb, slot);
      }
    }
    assert sa.slot in Touched(a, sa) && sb.slot in Touched(b, sb) by {
      TouchesTheDesired(a, sa);
      TouchesTheDesired(b, sb);
    }
    SeesOnlyItsOwn(server, p.server, b, sb, cb, sb.slot);
    SeesOnlyItsOwn(server, q.server, a, sa, ca, sa.slot);
    forall slot ensures Agree(pq.server, qp.server, slot) {
      if slot in Touched(a, sa) {
        assert Agree(p.server, pq.server, slot);
        SeesOnlyItsOwn(server, q.server, a, sa, ca, slot);
      } else if slot in Touched(b, sb) {
        assert Agree(q.server, qp.server, slot);
        SeesOnlyItsOwn(server, p.server, b, sb, cb, slot);
      }
    }
    AgreeEverywhere(pq.server, qp.server);
  }

  lemma AgreeEverywhere(a: Server, b: Server)
    requires forall slot :: Agree(a, b, slot)
    ensures a == b
  {
    forall slot ensures slot in a <==> slot in b {
      assert Agree(a, b, slot);
    }
    assert a.Keys == b.Keys;
    forall slot | slot in a ensures a[slot] == b[slot] {
      assert Agree(a, b, slot);
    }
  }

  lemma TouchesTheDesired(st: Status, spec: Spec)
    ensures spec.slot in Touched(st, spec)
  {
  }

  // ----- runs of one resource -----

  /** Roles that the resource once desired, and that the status does not record. */
  function Strays(server: Server, st: Status, desired: set<Slot>): set<Slot> {
    set slot | slot in desired && slot in server && slot !in Own(st)
  }

  /** What a pass does to the roles that were ever desired, the present one included. */
  lemma PassEffect(server: Server, st: Status, spec: Spec, calls: Calls, desired: set<Slot>)
    requires Sensible(spec) && spec.slot in desired
    ensures var p := Reconcile(server, st, spec, calls);
      && Strays(p.server, p.status, desired) <= Strays(server, st, desired) + {spec.slot}
      && (p.ok ==> p.status == Status(spec.slot.project, spec.slot.key, spec.generation, true))
      && (p.ok ==> && Own(p.status) == {spec.slot} && spec.slot in p.server && p.server[spec.slot] == spec.role
                   && Strays(p.server, p.status, desired) == Strays(server, st, desired) - {spec.slot})
  {
    var p := Reconcile(server, st, spec, calls);
    forall slot | slot !in Touched(st, spec) ensures Agree(server, p.server, slot) {
      TouchesOnlyItsOwn(server, st, spec, calls, slot);
    }
  }

  /** The roles that are left of those ever desired. */
  function Left(server: Server, desired: set<Slot>): set<Slot> {
    set slot | slot in desired && slot in server
  }

  /** A pass that succeeds leaves exactly the desired role of all that the resource ever desired, if
      and only if no other one was there but the recorded. */
  lemma SuccessLeavesOneRole(server: Server, st: Status, spec: Spec, calls: Calls, desired: set<Slot>)
    requires Sensible(spec) && spec.slot in desired && Reconcile(server, st, spec, calls).ok
    ensures Left(Reconcile(server, st, spec, calls).server, desired) == {spec.slot} <==>
      Strays(server, st, desired) <= {spec.slot}
  {
    hide Reconcile;
    PassEffect(server, st, spec, calls, desired);
    var p := Reconcile(server, st, spec, calls);
    assert Left(p.server, desired) == Strays(p.server, p.status, desired) + {spec.slot};
  }

  /** From any server and status, a pass without failing calls succeeds: the desired role is there with its
      display name and group, and the recorded role is gone if it was another one. */
  lemma FinePassReachesTheSpec(server: Server, st: Status, spec: Spec)
    requires Sensible(spec)
    ensures var p := Reconcile(server, st, spec, Calls(Done, true, Done, Done));
      var recorded := Slot(st.projectId, st.key);
      && p.ok && spec.slot in p.server && p.server[spec.slot] == spec.role
      && p.status == Status(spec.slot.project, spec.slot.key, spec.generation, true)
      && (st.projectId != NONE && st.key != "" && recorded != spec.slot ==> recorded !in p.server)
  {
  }

  datatype Step = Step(spec: Spec, calls: Calls)

  /** Everything desired in the first `n` passes. */
  ghost function Desired(steps: seq<Step>, n: nat): set<Slot>
    requires n <= |steps|
  {
    set i | 0 <= i < n :: steps[i].spec.slot
  }

  /** A fresh resource that nobody else interferes with; a spec is replaced only once it was reached. */
  ghost predicate IsRun(servers: seq<Server>, statuses: seq<Status>, steps: seq<Step>) {
    && |servers| == |statuses| == |steps| + 1 && !Recorded(statuses[0])
    && (forall i | 0 <= i < |steps| ::
          Sensible(steps[i].spec)
          && servers[i + 1] == Reconcile(servers[i], statuses[i], steps[i].spec, steps[i].calls).server
          && statuses[i + 1] == Reconcile(servers[i], statuses[i], steps[i].spec, steps[i].calls).status)
    && forall i | 0 <= i < |steps| - 1 ::
         Succeeds(servers, statuses, steps, i) || steps[i + 1].spec.slot == steps[i].spec.slot
  }

  ghost predicate Succeeds(servers: seq<Server>, statuses: seq<Status>, steps: seq<Step>, i: nat)
    requires i < |steps| && |servers| == |statuses| == |steps| + 1
  {
    Reconcile(servers[i], statuses[i], steps[i].spec, steps[i].calls).ok
  }

  lemma {:induction false} StraysInRun(servers: seq<Server>, statuses: seq<Status>, steps: seq<Step>, i: nat)
    requires IsRun(servers, statuses, steps) && i < |steps|
    ensures Strays(servers[i], statuses[i], Desired(steps, i + 1)) <= {steps[i].spec.slot}
  {
    hide Reconcile;
    forall slot | slot in Desired(steps, i + 1) ensures slot == steps[i].spec.slot || slot in Desired(steps, i) {
      var j :| 0 <= j < i + 1 && slot == steps[j].spec.slot;
    }
    if i > 0 {
      StraysInRun(servers, statuses, steps, i - 1);
      var s := steps[i - 1];
      assert i - 1 + 1 == i;
      assert s.spec.slot in Desired(steps, i);
      PassEffect(servers[i - 1], statuses[i - 1], s.spec, s.calls, Desired(steps, i));
      assert Succeeds(servers, statuses, steps, i - 1) || steps[i - 1 + 1].spec.slot == s.spec.slot;
      assert Strays(servers[i], statuses[i], Desired(steps, i)) <= {steps[i].spec.slot};
    }
  }

  /** However often key and project change, and whichever calls fail before a pass succeeds: after each
      success exactly the current role is left of all that the resource ever desired. */
  lemma ExactlyTheCurrentRoleIsLeft(servers: seq<Server>, statuses: seq<Status>, steps: seq<Step>, i: nat)
    requires IsRun(servers, statuses, steps) && i < |steps| && Succeeds(servers, statuses, steps, i)
    ensures Left(servers[i + 1], Desired(steps, i + 1)) == {steps[i].spec.slot}
    ensures servers[i + 1][steps[i].spec.slot] == steps[i].spec.role
    ensures Left(Delete(servers[i + 1], statuses[i + 1], Done), Desired(steps, i + 1)) == {}
  {
    hide Reconcile;
    var s := steps[i];
    assert s.spec.slot in Desired(steps, i + 1);
    StraysInRun(servers, statuses, steps, i);
    PassEffect(servers[i], statuses[i], s.spec, s.calls, Desired(steps, i + 1));
    SuccessLeavesOneRole(servers[i], statuses[i], s.spec, s.calls, Desired(steps, i + 1));
  }

  /** A role whose status write is lost before the key changes stays behind for good. */
  lemma ChangedKeyLeaks(server: Server, st: Status, first: Spec, second: Spec)
    requires Sensible(first) && Sensible(second) && first.slot != second.slot && !Recorded(st)
    requires !st.ready || StatusChanged(st, first)
    ensures var fine := Calls(Done, true, Done, Done);
      var p := Reconcile(server, st, first, fine.(applyStatus := Lost));
      var q := Reconcile(p.server, p.status, second, fine);
      q.ok && first.slot in q.server && second.slot in q.server
  {
  }
}
