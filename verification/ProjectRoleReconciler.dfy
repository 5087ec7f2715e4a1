/** The ProjectRole reconciler as it runs: it changes roles on a shared server and its own status. */
module ProjectRoleReconciler {
  import opened Base
  import opened ProjectRoles

  /** The roles of all projects. */
  class RoleServer {
    var roles: Server

    constructor (roles: Server)
      ensures this.roles == roles
    {
      this.roles := roles;
    }

    method RemoveProjectRole(slot: Slot, o: Outcome) returns (ok: bool)
      modifies this
      ensures roles == Without(old(roles), slot, o) && ok == (o == Done)
    {
      if o != Lost {
        roles := roles - {slot};
      }
      ok := o == Done;
    }

    method WriteProjectRole(slot: Slot, role: Role, o: Outcome) returns (ok: bool)
      modifies this
      ensures roles == With(old(roles), slot, role, o) && ok == (o == Done)
    {
      if o != Lost {
        roles := roles[slot := role];
      }
      ok := o == Done;
    }
  }

  class ProjectRole {
    const server: RoleServer
    var status: Status

    constructor (server: RoleServer, status: Status)
      ensures this.server == server && this.status == status
    {
      this.server, this.status := server, status;
    }

    method RemoveReplacedRole(slot: Slot, o: Outcome) returns (ok: bool)
      modifies server
      ensures ok <==> !Replaces(status, slot) || o == Done
      ensures server.roles == if Replaces(status, slot) then Without(old(server.roles), Current(status), o)
                              else old(server.roles)
    {
      if status.key == "" || status.projectId == NONE {
        return true;
      }
      if status.key == slot.key && status.projectId == slot.project {
        return true;
      }
      ok := server.RemoveProjectRole(Current(status), o);
    }

    method EnsureRole(spec: Spec, calls: Calls) returns (ok: bool)
      modifies server
      ensures (server.roles, ok) == ProjectRoles.EnsureRole(old(server.roles), spec, calls)
    {
      if !calls.list {
        return false;
      }
      if spec.slot in server.roles {
        if server.roles[spec.slot] == spec.role {
          return true;
        }
        ok := server.WriteProjectRole(spec.slot, spec.role, calls.write);
        return;
      }
      ok := server.WriteProjectRole(spec.slot, spec.role, calls.write);
    }

    /** Works for its own role only, so what it does commutes with the passes for other roles. */
    method Reconcile(spec: Spec, calls: Calls) returns (ok: bool)
      modifies this, server
      ensures Pass(server.roles, status, ok) == ProjectRoles.Reconcile(old(server.roles), old(status), spec, calls)
      ensures forall slot | slot !in Touched(old(status), spec) :: Agree(old(server.roles), server.roles, slot)
    {
      ghost var before, was := server.roles, status;
      ok := RemoveReplacedRole(spec.slot, calls.remove);
      if ok {
        ok := EnsureRole(spec, calls);
        if ok {
          var statusChanged := StatusChanged(status, spec);
          if !status.ready || statusChanged {
            if calls.applyStatus != Lost {
              status := Status(spec.slot.project, spec.slot.key, spec.generation, true);
            }
            ok := calls.applyStatus == Done;
          }
        }
      }
      forall slot | slot !in Touched(was, spec) ensures Agree(before, server.roles, slot) {
        TouchesOnlyItsOwn(before, was, spec, calls, slot);
      }
    }

    /** A failed removal does not keep the resource. */
    method HandleDeletion(o: Outcome)
      modifies server
      ensures server.roles == Delete(old(server.roles), status, o)
    {
      if status.projectId == NONE || status.key == "" {
        return;
      }
      var _ := server.RemoveProjectRole(Current(status), o);
    }
  }
}
