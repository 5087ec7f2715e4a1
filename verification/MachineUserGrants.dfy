/** The project grant of a MachineUser: its status names one grant, and a reconcile moves that grant
    to the project and roles of the spec. */
module MachineUserGrants {
  import opened Base
  import opened Ordering

  datatype Grant = Grant(id: Id, roles: seq<string>)

  /** The user's grants in Zitadel by project, which has at most one for each, and the stored status. */
  datatype World = World(grants: map<Id, Grant>, grantId: Id, projectId: Id, ready: bool, nextId: Id)

  datatype TargetError = ProjectNotReady | InvalidSpec | RolesRequireProjectScope

  /** `list` and `rest` tell whether the listing and the rest of the reconcile succeed. */
  datatype Calls = Calls(remove: Outcome, list: bool, write: Outcome, rest: bool, applyStatus: Outcome)

  /** One reconcile: the spec's roles, its explicit project if any as it resolves at that moment, the
      project of the namespace's delegate, and whether other status fields change. */
  datatype Step = Step(
    roles: seq<string>, explicit: Option<Result<Id, TargetError>>, delegateProject: Id, otherChanged: bool,
    calls: Calls)

  // ----- one reconcile -----

  function Target(step: Step, recorded: Id): Result<Id, TargetError> {
    if step.explicit.Some? then step.explicit.value
    else if step.delegateProject != NONE then Ok(step.delegateProject)
    else if recorded != NONE then Ok(recorded)
    else Err(RolesRequireProjectScope)
  }

  function Put(w: World, project: Id, g: Grant, o: Outcome): World {
    if o == Lost then w else w.(grants := w.grants[project := g])
  }

  function Sync(w: World, roles: seq<string>, project: Id, calls: Calls): (World, bool) {
    if !calls.list then (w, false)
    else if project in w.grants then
      var g := w.grants[project];
      if SortStrings(g.roles) == SortStrings(roles) then (w.(grantId := g.id, projectId := project), true)
      else if calls.write != Done then (Put(w, project, g.(roles := roles), calls.write), false)
      else (Put(w, project, g.(roles := roles), Done).(grantId := g.id, projectId := project), true)
    else
      var id := w.nextId;
      var t := if calls.write == Lost then w
               else w.(grants := w.grants[project := Grant(id, roles)], nextId := id + 1);
      if calls.write != Done then (t, false) else (t.(grantId := id, projectId := project), true)
  }

  predicate Recorded(w: World) {
    w.grantId != NONE && w.projectId != NONE
  }

  /** Removes the grant that the status names; one that is gone already is no error. */
  function Removed(w: World, o: Outcome): World {
    if o == Lost then w
    else w.(grants := map p | p in w.grants && w.grants[p].id != w.grantId :: w.grants[p])
  }

  function EnsureRoleGrant(w: World, step: Step): (World, bool) {
    if step.roles == [] then
      if !Recorded(w) then (w, true)
      else if step.calls.remove != Done then (Removed(w, step.calls.remove), false)
      else (Removed(w, Done).(grantId := NONE, projectId := NONE), true)
    else match Target(step, w.projectId)
      case Err(_) => (if step.calls.applyStatus == Lost then w else w.(ready := false), false)
      case Ok(project) =>
        if !Recorded(w) || w.projectId == project then Sync(w, step.roles, project, step.calls)
        else if step.calls.remove != Done then (Removed(w, step.calls.remove), false)
        else Sync(Removed(w, Done).(grantId := NONE), step.roles, project, step.calls)
  }

  /** What is left when the edited status is not stored. */
  function Unstored(t: World, w: World): World {
    t.(grantId := w.grantId, projectId := w.projectId)
  }

  function Reconcile(w: World, step: Step): (World, bool) {
    var (t, ok) := EnsureRoleGrant(w, step);
    if !ok || !step.calls.rest then (Unstored(t, w), false)
    else if t.ready && !step.otherChanged && t.grantId == w.grantId && t.projectId == w.projectId then (t, true)
    else (if step.calls.applyStatus == Lost then Unstored(t, w) else t.(ready := true), step.calls.applyStatus == Done)
  }

  // ----- what a reconcile does to the grants -----

  ghost predicate DistinctIds(grants: map<Id, Grant>, nextId: Id) {
    && 0 < nextId && (forall p | p in grants :: p != NONE && 0 < grants[p].id < nextId)
    && forall p, q | p in grants && q in grants && grants[p].id == grants[q].id :: p == q
  }

  /** The status names a grant together with its project, which may be gone, or nothing. */
  ghost predicate Names(grants: map<Id, Grant>, grantId: Id, projectId: Id) {
    && (grantId != NONE <==> projectId != NONE)
    && forall p | p in grants && grants[p].id == grantId :: p == projectId
  }

  ghost predicate Inv(w: World) {
    DistinctIds(w.grants, w.nextId) && Names(w.grants, w.grantId, w.projectId) && w.grantId < w.nextId
  }

  /** A project reference that resolves, resolves to some project. */
  predicate Sensible(step: Step) {
    step.explicit.Some? && step.explicit.value.Ok? ==> step.explicit.value.value != NONE
  }

  /** The project to hold a grant on, if there is one to hold and it resolves. */
  function Goal(step: Step, recorded: Id): set<Id> {
    if step.roles == [] || Target(step, recorded).Err? then {} else {Target(step, recorded).value}
  }

  /** The projects with a grant other than `id`. */
  ghost function Strays(grants: map<Id, Grant>, id: Id): set<Id> {
    set p | p in grants && grants[p].id != id
  }

  ghost predicate SameRoles(grants: map<Id, Grant>, project: Id, roles: seq<string>) {
    project in grants && multiset(grants[project].roles) == multiset(roles)
  }

  /** The grants after a sync: those before, and possibly one more on the project. */
  ghost predicate Extends(w: World, t: World, project: Id) {
    && w.grants.Keys <= t.grants.Keys <= w.grants.Keys + {project}
    && (forall p | p in w.grants :: t.grants[p].id == w.grants[p].id)
    && (forall p | p in t.grants && p !in w.grants :: w.nextId <= t.grants[p].id < t.nextId)
    && w.nextId <= t.nextId && t.ready == w.ready
  }

  lemma SyncEffect(w: World, roles: seq<string>, project: Id, calls: Calls)
    requires DistinctIds(w.grants, w.nextId) && project != NONE
    ensures var (t, ok) := Sync(w, roles, project, calls);
      && Extends(w, t, project)
      && (ok ==> && SameRoles(t.grants, project, roles) && t.projectId == project
                 && t.grantId == t.grants[project].id)
  {
    hide SortStrings;
    if project in w.grants {
      SortStringsCompares(w.grants[project].roles, roles);
    }
  }

  lemma ExtendsKeeps(w: World, t: World, project: Id)
    requires DistinctIds(w.grants, w.nextId) && Extends(w, t, project) && project != NONE
    ensures DistinctIds(t.grants, t.nextId) && w.nextId <= t.nextId
    ensures project in t.grants ==>
      && Names(t.grants, t.grants[project].id, project) && 0 < t.grants[project].id < t.nextId
      && Strays(t.grants, t.grants[project].id) == w.grants.Keys - {project} == t.grants.Keys - {project}
  {
  }

  lemma ExtendsKeepsNames(w: World, t: World, project: Id, id: Id, named: Id)
    requires Extends(w, t, project) && id < w.nextId && Names(w.grants, id, named)
    ensures Names(t.grants, id, named) && Strays(t.grants, id) <= Strays(w.grants, id) + {project}
  {
  }

  lemma RemovedEffect(w: World, o: Outcome)
    requires Inv(w)
    ensures var t := Removed(w, o);
      && Inv(t) && t == w.(grants := t.grants) && Strays(t.grants, w.grantId) == Strays(w.grants, w.grantId)
      && (o != Lost ==> t.grants.Keys == Strays(w.grants, w.grantId))
  {
  }

  lemma UnnamedAreStrays(w: World, project: Id)
    requires Inv(w) && (w.grantId == NONE || w.projectId == project)
    ensures w.grants.Keys - {project} == Strays(w.grants, w.grantId) - {project}
  {
  }

  lemma NoneIsNoGrant(grants: map<Id, Grant>, nextId: Id)
    requires DistinctIds(grants, nextId)
    ensures Strays(grants, NONE) == grants.Keys && Names(grants, NONE, NONE)
  {
  }

  /** The edited status names the grant on the goal, and every other grant was a stray before. */
  ghost predicate Reached(w: World, t: World, step: Step, goal: set<Id>) {
    && Strays(t.grants, t.grantId) == Strays(w.grants, w.grantId) - goal
    && t.grants.Keys == Strays(w.grants, w.grantId) + goal
    && goal == (if t.projectId == NONE then {} else {t.projectId})
    && forall p | p in goal :: SameRoles(t.grants, p, step.roles)
  }

  lemma SyncReaches(w: World, v: World, step: Step, project: Id)
    requires Inv(w) && step.roles != [] && project != NONE && DistinctIds(v.grants, v.nextId) && v.nextId == w.nextId
    requires Names(v.grants, w.grantId, w.projectId) && Strays(v.grants, w.grantId) == Strays(w.grants, w.grantId)
    requires v.grants.Keys - {project} == Strays(w.grants, w.grantId) - {project}
    ensures var (t, ok) := Sync(v, step.roles, project, step.calls);
      && Inv(Unstored(t, w)) && Strays(t.grants, w.grantId) <= Strays(w.grants, w.grantId) + {project}
      && (ok ==> Inv(t) && Reached(w, t, step, {project}))
  {
    hide Sync, DistinctIds, Names, Strays, Extends;
    SyncEffect(v, step.roles, project, step.calls);
    var (t, ok) := Sync(v, step.roles, project, step.calls);
    ExtendsKeeps(v, t, project);
    ExtendsKeepsNames(v, t, project, w.grantId, w.projectId);
    if ok {
      assert t.grants.Keys == (t.grants.Keys - {project}) + {project};
      assert SameRoles(t.grants, project, step.roles) && t.grantId == t.grants[project].id;
    }
  }

  lemma EnsureRoleGrantEffect(w: World, step: Step)
    requires Inv(w) && Sensible(step)
    ensures var (t, ok) := EnsureRoleGrant(w, step);
      && Inv(Unstored(t, w))
      && Strays(t.grants, w.grantId) <= Strays(w.grants, w.grantId) + Goal(step, w.projectId)
      && (ok ==> Inv(t) && Reached(w, t, step, Goal(step, w.projectId)))
  {
    hide Sync, DistinctIds, Strays, Removed;
    NoneIsNoGrant(w.grants, w.nextId);
    if Recorded(w) {
      RemovedEffect(w, step.calls.remove);
      RemovedEffect(w, Done);
      NoneIsNoGrant(Removed(w, Done).grants, w.nextId);
    }
    if step.roles == [] {
    } else if Target(step, w.projectId).Ok? {
      var project := Target(step, w.projectId).value;
      if !Recorded(w) || w.projectId == project {
        UnnamedAreStrays(w, project);
        SyncReaches(w, w, step, project);
      } else if step.calls.remove == Done {
        SyncReaches(w, Removed(w, Done).(grantId := NONE), step, project);
      }
    }
  }

  lemma ReconcileEffect(w: World, step: Step)
    requires Inv(w) && Sensible(step)
    ensures var (t, ok) := Reconcile(w, step);
      && Inv(t) && Strays(t.grants, t.grantId) <= Strays(w.grants, w.grantId) + Goal(step, w.projectId)
      && (ok ==> Reached(w, t, step, Goal(step, w.projectId)))
  {
    hide EnsureRoleGrant, DistinctIds, Names, Strays, Goal;
    EnsureRoleGrantEffect(w, step);
  }

  /** The user holds a grant on the goal, with the spec's roles in some order, and no other grant. */
  ghost predicate Holds(w: World, roles: seq<string>, goal: set<Id>) {
    w.grants.Keys == goal && forall p | p in goal :: SameRoles(w.grants, p, roles)
  }

  /** A reconcile that succeeds leaves exactly what the spec says, if and only if the user had no grant
      other than the one that the status names and one on the goal. */
  lemma SuccessMeetsTheSpec(w: World, step: Step)
    requires Inv(w) && Sensible(step) && Reconcile(w, step).1
    ensures Goal(step, w.projectId) == {} <==> step.roles == []
    ensures Holds(Reconcile(w, step).0, step.roles, Goal(step, w.projectId)) <==>
      Strays(w.grants, w.grantId) <= Goal(step, w.projectId)
  {
    hide DistinctIds, Names, Strays, Sync;
    ReconcileEffect(w, step);
  }

  // ----- runs -----

  ghost predicate IsRun(run: seq<World>, steps: seq<Step>) {
    && |run| == |steps| + 1 && run[0] == World(map[], NONE, NONE, false, 1)
    && forall i | 0 <= i < |steps| :: Sensible(steps[i]) && run[i + 1] == Reconcile(run[i], steps[i]).0
  }

  predicate Succeeds(w: World, step: Step) {
    Reconcile(w, step).1
  }

  /** Every goal is pursued until a reconcile reaches it: `goals` are those of the specs, wherever they
      resolve, and change only after a success. */
  ghost predicate Pursues(run: seq<World>, steps: seq<Step>, goals: seq<set<Id>>) {
    && |run| == |steps| + 1 && |goals| == |steps| + 1
    && (forall i | 0 <= i < |steps| && (steps[i].roles == [] || Target(steps[i], run[i].projectId).Ok?) ::
          goals[i] == Goal(steps[i], run[i].projectId))
    && forall i | 0 <= i < |steps| && !Succeeds(run[i], steps[i]) :: goals[i + 1] == goals[i]
  }

  lemma {:induction false} NoStrays(run: seq<World>, steps: seq<Step>, goals: seq<set<Id>>, i: nat)
    requires IsRun(run, steps) && Pursues(run, steps, goals) && i <= |steps|
    ensures Inv(run[i]) && Strays(run[i].grants, run[i].grantId) <= goals[i]
  {
    hide Reconcile, Goal;
    if i == 0 {
    } else {
      NoStrays(run, steps, goals, i - 1);
      ReconcileEffect(run[i - 1], steps[i - 1]);
      NoGoalUnlessResolved(steps[i - 1], run[i - 1].projectId);
      if Succeeds(run[i - 1], steps[i - 1]) {
        SucceedsOnlyResolved(run[i - 1], steps[i - 1]);
      }
    }
  }

  lemma NoGoalUnlessResolved(step: Step, recorded: Id)
    ensures step.roles == [] || Target(step, recorded).Err? ==> Goal(step, recorded) == {}
  {
  }

  lemma SucceedsOnlyResolved(w: World, step: Step)
    requires Succeeds(w, step)
    ensures step.roles == [] || Target(step, w.projectId).Ok?
  {
  }

  /** Whatever calls fail, and however specs change from one success to the next: after each success the
      user holds exactly the grant that the spec asks for, or none when it has no roles. */
  lemma EverySuccessMeetsTheSpec(run: seq<World>, steps: seq<Step>, goals: seq<set<Id>>, i: nat)
    requires IsRun(run, steps) && Pursues(run, steps, goals) && i < |steps| && Succeeds(run[i], steps[i])
    ensures Holds(run[i + 1], steps[i].roles, goals[i]) && (goals[i] == {} <==> steps[i].roles == [])
  {
    hide Reconcile, Holds, Strays, Inv;
    NoStrays(run, steps, goals, i);
    SucceedsOnlyResolved(run[i], steps[i]);
    SuccessMeetsTheSpec(run[i], steps[i]);
  }

  /** A reconcile does not move the goal of the spec it works on. */
  lemma RetryKeepsTheGoal(w: World, step: Step, retry: Step)
    requires Inv(w) && Sensible(step) && retry == step.(calls := retry.calls, otherChanged := retry.otherChanged)
    ensures Goal(retry, Reconcile(w, step).0.projectId) == Goal(step, w.projectId)
  {
    hide Sync, DistinctIds, Names, Strays, SameRoles;
    var (t, ok) := Reconcile(w, step);
    RecordedMoves(w, step);
  }

  lemma RecordedMoves(w: World, step: Step)
    ensures var p := Reconcile(w, step).0.projectId;
      p == w.projectId || step.roles == [] || (Target(step, w.projectId).Ok? && p == Target(step, w.projectId).value)
  {
    hide SortStrings;
  }

  const FINE: Calls := Calls(Done, true, Done, true, Done)

  /** When no call fails, a reconcile succeeds if and only if the spec has no roles, or its target resolves;
      so retries of a spec that resolves make progress as soon as calls stop failing. */
  lemma FineSucceedsIffResolved(w: World, step: Step)
    requires step.calls == FINE
    ensures Succeeds(w, step) <==> step.roles == [] || Target(step, w.projectId).Ok?
  {
    hide SortStrings;
  }

  /** Whatever has failed before in a run, the next reconcile without failing calls ends with exactly the
      grant of the spec, provided that its target resolves. */
  lemma NextFineReconcileMeetsTheSpec(run: seq<World>, steps: seq<Step>, goals: seq<set<Id>>, i: nat)
    requires IsRun(run, steps) && Pursues(run, steps, goals) && i < |steps| && steps[i].calls == FINE
    requires steps[i].roles != [] ==> Target(steps[i], run[i].projectId).Ok?
    ensures Holds(run[i + 1], steps[i].roles, goals[i])
  {
    hide Reconcile, Holds, Target, Pursues;
    FineSucceedsIffResolved(run[i], steps[i]);
    EverySuccessMeetsTheSpec(run, steps, goals, i);
  }

  /** A success leaves the resource ready, and a target that does not resolve leaves it not ready, if that can
      be written. */
  lemma ReadyTellsTheOutcome(w: World, step: Step)
    ensures Succeeds(w, step) ==> Reconcile(w, step).0.ready
    ensures step.roles != [] && Target(step, w.projectId).Err? && step.calls.applyStatus != Lost ==>
      !Reconcile(w, step).0.ready
  {
    hide SortStrings;
  }

  /** Where a success puts the grant, in the fields of the step: on the explicit project if the spec names one,
      else on that of the delegate, else on the one that was recorded; without roles, nowhere. */
  lemma GrantIsWhereTheSpecSays(w: World, step: Step)
    requires Inv(w) && Sensible(step) && Succeeds(w, step)
    ensures var t := Reconcile(w, step).0;
      && (step.roles == [] ==> t.grantId == NONE && t.projectId == NONE)
      && (step.roles != [] ==>
            && t.projectId in t.grants && t.grantId == t.grants[t.projectId].id
            && SameRoles(t.grants, t.projectId, step.roles)
            && (step.explicit.Some? ==> step.explicit.value == Ok(t.projectId))
            && (step.explicit.None? && step.delegateProject != NONE ==> t.projectId == step.delegateProject)
            && (step.explicit.None? && step.delegateProject == NONE ==> t.projectId == w.projectId))
  {
    hide Reconcile, DistinctIds, Names, Strays, SameRoles;
    ReconcileEffect(w, step);
    SucceedsOnlyResolved(w, step);
    NamedGrant(w, step);
  }

  lemma NamedGrant(w: World, step: Step)
    requires Inv(w) && Sensible(step) && Succeeds(w, step)
    ensures var t := Reconcile(w, step).0;
      if step.roles == [] then t.grantId == NONE && t.projectId == NONE
      else t.projectId in t.grants && t.grantId == t.grants[t.projectId].id
  {
    hide Reconcile, DistinctIds;
    ReconcileEffect(w, step);
    SucceedsOnlyResolved(w, step);
    var t := Reconcile(w, step).0;
    if step.roles != [] {
      assert t.projectId in Goal(step, w.projectId) && t.projectId !in Strays(t.grants, t.grantId);
    }
  }

  /** A target that changes before it was reached leaves a grant behind: the first reconcile creates a
      grant whose status write is lost, the second succeeds on another project, and both grants stay. */
  lemma ChangedTargetLeaks(p: Id, q: Id, roles: seq<string>)
    requires p != NONE && q != NONE && p != q && roles != []
    ensures var start := World(map[], NONE, NONE, false, 1);
      var first := Step(roles, Some(Ok(p)), NONE, false, FINE.(applyStatus := Lost));
      var second := Step(roles, Some(Ok(q)), NONE, false, FINE);
      var (w, _) := Reconcile(start, first);
      var (t, ok) := Reconcile(w, second);
      ok && t.grants.Keys == {p, q} && !Holds(t, roles, {q})
  {
    hide SortStrings;
  }
}
