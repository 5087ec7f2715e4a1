/** The role grant of a MachineUser as it is reconciled: it edits the status of the object it fetched and
    changes grants on the way. */
module MachineUserGrantReconciler {
  import opened Base
  import opened Ordering
  import opened MachineUserGrants

  /** The user grants of one user. */
  class UserGrants {
    var grants: map<Id, Grant>
    var nextId: Id

    constructor (grants: map<Id, Grant>, nextId: Id)
      ensures this.grants == grants && this.nextId == nextId
    {
      this.grants, this.nextId := grants, nextId;
    }

    /** None is an error. */
    method ListUserGrants(project: Id, answers: bool) returns (r: Option<seq<Grant>>)
      ensures r == if !answers then None else Some(if project in grants then [grants[project]] else [])
    {
      if !answers {
        return None;
      }
      r := Some(if project in grants then [grants[project]] else []);
    }

    method AddUserGrant(project: Id, roles: seq<string>, o: Outcome) returns (r: Option<Id>)
      modifies this
      ensures grants == if o == Lost then old(grants) else old(grants)[project := Grant(old(nextId), roles)]
      ensures nextId == if o == Lost then old(nextId) else old(nextId) + 1
      ensures r == if o == Done then Some(old(nextId)) else None
    {
      r := if o == Done then Some(nextId) else None;
      if o != Lost {
        grants, nextId := grants[project := Grant(nextId, roles)], nextId + 1;
      }
    }

    method UpdateUserGrant(id: Id, roles: seq<string>, o: Outcome) returns (ok: bool)
      modifies `grants
      ensures ok == (o == Done)
      ensures grants == if o == Lost then old(grants) else
        map p | p in old(grants) :: if old(grants)[p].id == id then Grant(id, roles) else old(grants)[p]
    {
      if o != Lost {
        grants := map p | p in grants :: if grants[p].id == id then Grant(id, roles) else grants[p];
      }
      ok := o == Done;
    }

    /** A grant that does not exist is no error to any caller. */
    method RemoveUserGrant(id: Id, o: Outcome) returns (ok: bool)
      modifies `grants
      ensures ok == (o == Done)
      ensures grants == if o == Lost then old(grants)
                        else map p | p in old(grants) && old(grants)[p].id != id :: old(grants)[p]
    {
      if o != Lost {
        grants := map p | p in grants && grants[p].id != id :: grants[p];
      }
      ok := o == Done;
    }
  }

  /** The fields of a fetched MachineUser that the role grant concerns, and the ones that are stored. */
  class MachineUser {
    var grantId: Id
    var projectId: Id
    var ready: bool
    const api: UserGrants

    constructor (grantId: Id, projectId: Id, ready: bool, api: UserGrants)
      ensures View() == World(api.grants, grantId, projectId, ready, api.nextId) && this.api == api
    {
      this.grantId, this.projectId, this.ready, this.api := grantId, projectId, ready, api;
    }

    ghost function View(): World
      reads this, api
    {
      World(api.grants, grantId, projectId, ready, api.nextId)
    }

    /** Finds or creates the grant and brings its roles up to date. */
    method SyncGrant(roles: seq<string>, project: Id, calls: Calls) returns (r: Option<Id>)
      requires DistinctIds(api.grants, api.nextId)
      modifies api
      ensures var (t, ok) := Sync(old(View()), roles, project, calls);
        && api.grants == t.grants && api.nextId == t.nextId && r == if ok then Some(t.grantId) else None
    {
      hide SortStrings, DistinctIds;
      var listed := api.ListUserGrants(project, calls.list);
      if listed.None? {
        return None;
      }
      var desired := SortStrings(roles);
      if |listed.value| > 0 {
        var g := listed.value[0];
        var current := SortStrings(g.roles);
        if current != desired {
          UpdateById(api.grants, api.nextId, project, roles);
          var ok := api.UpdateUserGrant(g.id, roles, calls.write);
          if !ok {
            return None;
          }
        }
        return Some(g.id);
      }
      r := api.AddUserGrant(project, roles, calls.write);
    }

    /** False tells the caller to stop. */
    method EnsureRoleGrant(step: Step) returns (ok: bool)
      requires Inv(View())
      modifies this, api
      ensures (View(), ok) == MachineUserGrants.EnsureRoleGrant(old(View()), step)
    {
      hide SortStrings, Sync;
      if step.roles == [] {
        if grantId != NONE && projectId != NONE {
          ok := api.RemoveUserGrant(grantId, step.calls.remove);
          if !ok {
            return;
          }
          grantId := NONE;
          projectId := NONE;
        }
        return true;
      }
      var target := Target(step, projectId);
      if target.Err? {
        if step.calls.applyStatus != Lost {
          ready := false;
        }
        return false;
      }
      var project := target.value;
      if grantId != NONE && projectId != NONE && projectId != project {
        ok := api.RemoveUserGrant(grantId, step.calls.remove);
        if !ok {
          return;
        }
        grantId := NONE;
      }
      SyncKeepsStatus(View(), step.roles, project, step.calls);
      var synced := SyncGrant(step.roles, project, step.calls);
      if synced.None? {
        return false;
      }
      grantId := synced.value;
      projectId := project;
      ok := true;
    }
  }

  lemma UpdateById(grants: map<Id, Grant>, nextId: Id, project: Id, roles: seq<string>)
    requires DistinctIds(grants, nextId) && project in grants
    ensures var g := Grant(grants[project].id, roles);
      grants[project := g] == map p | p in grants :: if grants[p].id == g.id then g else grants[p]
  {
  }

  lemma SyncKeepsStatus(w: World, roles: seq<string>, project: Id, calls: Calls)
    ensures var (t, ok) := Sync(w, roles, project, calls);
      && t.ready == w.ready
      && (if ok then t.projectId == project else t.projectId == w.projectId && t.grantId == w.grantId)
  {
    hide SortStrings;
  }
}
