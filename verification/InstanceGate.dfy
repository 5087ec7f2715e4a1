/** The dual-serving gate: operators of different instances, with no channel between them, find each
    other through the field managers recorded on a custom resource. Each one looks first and
    announces itself second. */
module InstanceGate {
  import opened Base
  import opened OperatorConfig
  import opened Conditions

  /** A version of the resource: who wrote it, and whether it carries InstanceResolved=True/Assumed. */
  datatype Version = Version(managers: set<string>, assumed: bool)

  datatype Verdict = Proceed | Ambiguous | Foreign | Fail

  /** A field manager of another operator is recorded. */
  predicate ForeignPresent(managers: set<string>, mine: string) {
    exists m | m in managers :: m != mine && IsOperator(m)
  }

  /** A server-side apply by `manager` on the current version. */
  function Apply(versions: seq<Version>, manager: string, assumed: bool, o: Outcome): seq<Version>
    requires versions != []
  {
    if o == Lost then versions
    else versions + [Version(versions[|versions| - 1].managers + {manager}, assumed)]
  }

  /** The gate, run by the operator with configuration `cfg` on version number `seen`. */
  function Gate(versions: seq<Version>, seen: nat, cfg: Config, pinned: string, o: Outcome): (seq<Version>, Verdict)
    requires seen < |versions|
  {
    if pinned != "" then (versions, if pinned == cfg.InstanceIdentity() then Proceed else Foreign)
    else Unpinned(versions, seen, cfg.FieldManager(), o)
  }

  function Unpinned(versions: seq<Version>, seen: nat, mine: string, o: Outcome): (seq<Version>, Verdict)
    requires seen < |versions|
  {
    var v := versions[seen];
    if !ForeignPresent(v.managers, mine) then
      if v.assumed then (versions, Proceed)
      else (Apply(versions, mine, true, o), if o == Done then Proceed else Fail)
    else (Apply(versions, mine, false, o), if o == Done then Ambiguous else Fail)
  }

  /** A resource that is pinned is let through exactly if the pin is the operator's alias or, without an alias,
      its domain; and it is written in neither case. */
  lemma PinIsAliasOrDomain(versions: seq<Version>, seen: nat, cfg: Config, pinned: string, o: Outcome)
    requires seen < |versions| && pinned != ""
    ensures cfg.instanceAlias != "" ==>
      (Gate(versions, seen, cfg, pinned, o).1 == Proceed <==> pinned == cfg.instanceAlias)
    ensures cfg.instanceAlias == "" ==>
      (Gate(versions, seen, cfg, pinned, o).1 == Proceed <==> pinned == cfg.domain)
    ensures Gate(versions, seen, cfg, pinned, o) in {(versions, Proceed), (versions, Foreign)}
  {
  }

  /** A resource that is not pinned: without another operator's manager on the copy the gate lets it through,
      once the presence of this operator is recorded, on the copy or by this very gate; with one it is held
      back as ambiguous, once that is recorded. What is not recorded is an error. */
  lemma VerdictIsRecorded(versions: seq<Version>, seen: nat, cfg: Config, o: Outcome)
    requires seen < |versions|
    ensures var (vs, verdict) := Gate(versions, seen, cfg, "", o);
      var mine := cfg.FieldManager();
      var alone := forall m | m in versions[seen].managers && "zitadel-operator" <= m :: m == mine;
      && (verdict == Proceed <==> alone && (versions[seen].assumed || o == Done))
      && (verdict == Ambiguous <==> !alone && o == Done)
      && (verdict == Fail <==> o != Done && !(alone && versions[seen].assumed))
      && (verdict == Ambiguous ==> mine in vs[|vs| - 1].managers && !vs[|vs| - 1].assumed)
      && (verdict == Proceed ==> vs == versions || (mine in vs[|vs| - 1].managers && vs[|vs| - 1].assumed))
  {
    hide Config.FieldManager;
  }

  // ----- runs on one unpinned resource -----

  /** An operator fetches the resource, runs the gate on what it fetched, or writes status later on;
      anybody else may write too. */
  datatype Event =
    | Reads(mine: string, at: nat)
    | Gates(mine: string, outcome: Outcome)
    | WritesStatus(mine: string, assumed: bool)
    | Others(manager: string, assumed: bool)

  /** What one operator has been through: the first version it read, the newest it has read or
      written, whether it is about to run the gate, and how often it was let through. */
  datatype Memory = Memory(first: nat, seen: nat, gating: bool, passes: nat)

  datatype State = State(versions: seq<Version>, memory: map<string, Memory>)

  predicate Possible(s: State, e: Event) {
    && s.versions != []
    && match e
       case Reads(mine, at) =>
         IsOperator(mine) && at < |s.versions| && (mine in s.memory ==> s.memory[mine].seen <= at)
       case Gates(mine, _) => mine in s.memory && s.memory[mine].gating && s.memory[mine].seen < |s.versions|
       case WritesStatus(mine, _) => mine in s.memory && !s.memory[mine].gating
       case Others(manager, assumed) =>
         !IsOperator(manager) && (assumed ==> s.versions[|s.versions| - 1].assumed)
  }

  function Read(memory: map<string, Memory>, mine: string, at: nat): map<string, Memory> {
    memory[mine := if mine in memory then memory[mine].(seen := at, gating := true) else Memory(at, at, true, 0)]
  }

  /** An operator reads its own writes, except one it never learned about. */
  function Gated(m: Memory, newest: nat, wrote: bool, verdict: Verdict): Memory {
    Memory(m.first, if wrote && verdict != Fail then newest else m.seen, false,
           if verdict == Proceed then m.passes + 1 else m.passes)
  }

  function Next(s: State, e: Event): State
    requires Possible(s, e)
  {
    match e
    case Reads(mine, at) => s.(memory := Read(s.memory, mine, at))
    case Gates(mine, o) =>
      var m := s.memory[mine];
      var (vs, verdict) := Unpinned(s.versions, m.seen, mine, o);
      State(vs, s.memory[mine := Gated(m, |vs| - 1, vs != s.versions, verdict)])
    case WritesStatus(mine, assumed) =>
      var vs := Apply(s.versions, mine, assumed, Done);
      State(vs, s.memory[mine := s.memory[mine].(seen := |vs| - 1)])
    case Others(manager, assumed) => s.(versions := Apply(s.versions, manager, assumed, Done))
  }

  /** A run starts from a resource that no operator has written to. */
  ghost predicate IsRun(run: seq<State>, events: seq<Event>) {
    && |run| == |events| + 1
    && (exists v: Version :: run[0] == State([v], map[]) && !v.assumed && Operators(v) == {})
    && forall i | 0 <= i < |events| :: Possible(run[i], events[i]) && run[i + 1] == Next(run[i], events[i])
  }

  /** The operators recorded in a version. */
  ghost function Operators(v: Version): set<string> {
    set m | m in v.managers && IsOperator(m)
  }

  /** Some version records `mine` and no other operator: it was the first to record its presence. */
  ghost predicate First(versions: seq<Version>, mine: string) {
    exists i | 0 <= i < |versions| :: Operators(versions[i]) == {mine}
  }

  ghost predicate Accumulates(versions: seq<Version>) {
    forall i | 0 <= i < |versions| - 1 :: versions[i].managers <= versions[i + 1].managers
  }

  ghost predicate AssumedByOperators(versions: seq<Version>) {
    forall i | 0 <= i < |versions| && versions[i].assumed :: Operators(versions[i]) != {}
  }

  /** What an operator's past says about the versions. */
  ghost predicate Explains(versions: seq<Version>, mine: string, m: Memory) {
    && m.first <= m.seen < |versions| && IsOperator(mine)
    && (m.passes > 0 ==> mine in versions[m.seen].managers && !ForeignPresent(versions[m.first].managers, mine))
    && (m.passes > 1 ==> First(versions, mine))
  }

  ghost predicate Inv(s: State) {
    && s.versions != [] && Accumulates(s.versions) && AssumedByOperators(s.versions)
    && forall mine | mine in s.memory :: Explains(s.versions, mine, s.memory[mine])
  }

  lemma {:induction false} ManagersStay(versions: seq<Version>, i: nat, j: nat)
    requires Accumulates(versions) && i <= j < |versions|
    ensures versions[i].managers <= versions[j].managers
  {
    if i < j {
      ManagersStay(versions, i, j - 1);
      assert versions[j - 1].managers <= versions[j - 1 + 1].managers;
    }
  }

  lemma ApplyKeeps(versions: seq<Version>, manager: string, assumed: bool, o: Outcome)
    requires versions != [] && Accumulates(versions) && AssumedByOperators(versions)
    requires assumed ==> IsOperator(manager) || versions[|versions| - 1].assumed
    ensures var vs := Apply(versions, manager, assumed, o);
      && versions <= vs && Accumulates(vs) && AssumedByOperators(vs)
      && (o != Lost ==> |vs| == |versions| + 1 && manager in vs[|vs| - 1].managers)
  {
    var vs := Apply(versions, manager, assumed, o);
    if o != Lost && assumed {
      if IsOperator(manager) {
        assert manager in Operators(vs[|vs| - 1]);
      } else {
        assert Operators(versions[|versions| - 1]) <= Operators(vs[|vs| - 1]);
      }
    }
  }

  lemma FirstStays(versions: seq<Version>, vs: seq<Version>, mine: string)
    requires versions <= vs && First(versions, mine)
    ensures First(vs, mine)
  {
    var i :| 0 <= i < |versions| && Operators(versions[i]) == {mine};
    assert Operators(vs[i]) == {mine};
  }

  /** The past stays explained as versions are added and the operator reads on. */
  lemma StillExplains(versions: seq<Version>, vs: seq<Version>, mine: string, m: Memory, seen: nat)
    requires Explains(versions, mine, m) && versions <= vs && Accumulates(vs) && m.seen <= seen < |vs|
    ensures Explains(vs, mine, m.(seen := seen))
  {
    hide First, ForeignPresent;
    ManagersStay(vs, m.seen, seen);
    if m.passes > 1 {
      FirstStays(versions, vs, mine);
    }
  }

  lemma OthersStillExplained(s: State, vs: seq<Version>)
    requires Inv(s) && s.versions <= vs && Accumulates(vs)
    ensures forall m | m in s.memory :: Explains(vs, m, s.memory[m])
  {
    hide Explains;
    forall m | m in s.memory ensures Explains(vs, m, s.memory[m]) {
      assert s.memory[m].seen < |s.versions| by { Bounded(s, m); }
      StillExplains(s.versions, vs, m, s.memory[m], s.memory[m].seen);
      assert s.memory[m].(seen := s.memory[m].seen) == s.memory[m];
    }
  }

  lemma Bounded(s: State, mine: string)
    requires Inv(s) && mine in s.memory
    ensures s.memory[mine].first <= s.memory[mine].seen < |s.versions| && IsOperator(mine)
  {
    assert Explains(s.versions, mine, s.memory[mine]);
  }

  /** Being let through means that nobody else was there, neither now nor at the first read; and an
      operator that had recorded itself earlier was first to do so. */
  lemma PassMeans(versions: seq<Version>, mine: string, m: Memory)
    requires Explains(versions, mine, m) && Accumulates(versions) && AssumedByOperators(versions)
    requires !ForeignPresent(versions[m.seen].managers, mine)
    ensures !ForeignPresent(versions[m.first].managers, mine)
    ensures versions[m.seen].assumed ==> mine in versions[m.seen].managers
    ensures mine in versions[m.seen].managers ==> First(versions, mine)
  {
    var v := versions[m.seen];
    ManagersStay(versions, m.first, m.seen);
    assert Operators(v) <= {mine};
    if mine in v.managers {
      assert mine in Operators(v);
    }
  }

  lemma UnpinnedKeeps(versions: seq<Version>, mine: string, m: Memory, o: Outcome)
    requires Explains(versions, mine, m) && Accumulates(versions) && AssumedByOperators(versions)
    ensures var (vs, verdict) := Unpinned(versions, m.seen, mine, o);
      && versions <= vs && Accumulates(vs) && AssumedByOperators(vs)
      && Explains(vs, mine, Gated(m, |vs| - 1, vs != versions, verdict))
  {
    var (vs, verdict) := Unpinned(versions, m.seen, mine, o);
    assert m.first <= m.seen < |versions|;
    ApplyKeeps(versions, mine, !ForeignPresent(versions[m.seen].managers, mine), o);
    if verdict == Proceed {
      PassMeans(versions, mine, m);
      if First(versions, mine) {
        FirstStays(versions, vs, mine);
      }
    }
    var seen := if vs != versions && verdict != Fail then |vs| - 1 else m.seen;
    StillExplains(versions, vs, mine, m, seen);
  }

  lemma NextKeepsInv(s: State, e: Event)
    requires Inv(s) && Possible(s, e)
    ensures Inv(Next(s, e)) && s.versions <= Next(s, e).versions
  {
    hide Explains, Unpinned, Gated, Accumulates, AssumedByOperators, Apply;
    match e
    case Reads(mine, at) =>
      if mine in s.memory {
        var m := s.memory[mine];
        StillExplains(s.versions, s.versions, mine, m, at);
        SameGating(s.versions, mine, m.(seen := at), true);
      } else {
        FreshReader(s.versions, mine, at);
      }
    case Gates(mine, o) =>
      UnpinnedKeeps(s.versions, mine, s.memory[mine], o);
      OthersStillExplained(s, Next(s, e).versions);
    case WritesStatus(mine, assumed) =>
      Bounded(s, mine);
      ApplyKeeps(s.versions, mine, assumed, Done);
      var vs := Next(s, e).versions;
      StillExplains(s.versions, vs, mine, s.memory[mine], |vs| - 1);
      OthersStillExplained(s, vs);
    case Others(manager, assumed) =>
      ApplyKeeps(s.versions, manager, assumed, Done);
      OthersStillExplained(s, Next(s, e).versions);
  }

  lemma SameGating(versions: seq<Version>, mine: string, m: Memory, gating: bool)
    requires Explains(versions, mine, m)
    ensures Explains(versions, mine, m.(gating := gating))
  {
  }

  lemma FreshReader(versions: seq<Version>, mine: string, at: nat)
    requires at < |versions| && IsOperator(mine)
    ensures Explains(versions, mine, Memory(at, at, true, 0))
  {
  }

  lemma {:induction false} RunKeepsInv(run: seq<State>, events: seq<Event>, i: nat)
    requires IsRun(run, events) && i <= |events|
    ensures Inv(run[i])
  {
    if i > 0 {
      RunKeepsInv(run, events, i - 1);
      NextKeepsInv(run[i - 1], events[i - 1]);
    }
  }

  /** At most one operator is first. */
  lemma FirstIsUnique(versions: seq<Version>, a: string, b: string)
    requires Accumulates(versions) && First(versions, a) && First(versions, b)
    ensures a == b
  {
    var i :| 0 <= i < |versions| && Operators(versions[i]) == {a};
    var j :| 0 <= j < |versions| && Operators(versions[j]) == {b};
    assert a in Operators(versions[i]) && b in Operators(versions[j]);
    if i <= j {
      ManagersStay(versions, i, j);
      assert a in Operators(versions[j]);
    } else {
      ManagersStay(versions, j, i);
      assert b in Operators(versions[i]);
    }
  }

  /** Any number of operators, any interleaving: whoever is let through twice was first to record its
      presence, so every other one is let through at most once. */
  lemma OnlyTheFirstPassesTwice(run: seq<State>, events: seq<Event>, i: nat, mine: string, other: string)
    requires IsRun(run, events) && i <= |events| && mine in run[i].memory && other in run[i].memory
    requires run[i].memory[mine].passes > 1
    ensures First(run[i].versions, mine)
    ensures other != mine ==> !First(run[i].versions, other) && run[i].memory[other].passes <= 1
  {
    RunKeepsInv(run, events, i);
    assert Explains(run[i].versions, mine, run[i].memory[mine]);
    assert Explains(run[i].versions, other, run[i].memory[other]);
    if First(run[i].versions, other) {
      FirstIsUnique(run[i].versions, mine, other);
    }
  }

  /** An operator that first reads the resource after another one recorded itself is never let through. */
  lemma LateOperatorsNeverPass(run: seq<State>, events: seq<Event>, i: nat, late: string, early: string)
    requires IsRun(run, events) && i <= |events| && late in run[i].memory && late != early
    requires run[i].memory[late].first < |run[i].versions|
    requires early in Operators(run[i].versions[run[i].memory[late].first])
    ensures run[i].memory[late].passes == 0
  {
    RunKeepsInv(run, events, i);
    assert Explains(run[i].versions, late, run[i].memory[late]);
  }

  /** The gate on a copy from before anybody announced itself. */
  lemma PassesOnAFreshCopy(s: State, mine: string)
    requires s.versions != [] && s.versions[0] == Version({}, false)
    requires mine in s.memory && s.memory[mine] == Memory(0, 0, true, 0)
    ensures Possible(s, Gates(mine, Done))
    ensures var last := s.versions[|s.versions| - 1];
      Next(s, Gates(mine, Done)) == State(
        s.versions + [Version(last.managers + {mine}, true)],
        s.memory[mine := Memory(0, |s.versions|, false, 1)])
  {
  }

  /** The gate does not exclude: two operators that both look before either announces itself both pass. */
  lemma TwoOperatorsMayPassOnce(a: string, b: string)
    requires IsOperator(a) && IsOperator(b) && a != b
    ensures exists run: seq<State>, events: seq<Event> ::
      IsRun(run, events) && |events| == 4 && a in run[4].memory && b in run[4].memory
      && run[4].memory[a].passes == run[4].memory[b].passes == 1
  {
    var events := [Reads(a, 0), Reads(b, 0), Gates(a, Done), Gates(b, Done)];
    var s0 := State([Version({}, false)], map[]);
    var s1 := Next(s0, events[0]);
    var s2 := Next(s1, events[1]);
    hide IsOperator, Unpinned, Gated;
    PassesOnAFreshCopy(s2, a);
    var s3 := Next(s2, events[2]);
    PassesOnAFreshCopy(s3, b);
    var s4 := Next(s3, events[3]);
    assert Operators(s0.versions[0]) == {};
    ChainIsRun([s0, s1, s2, s3, s4], events);
  }

  lemma ChainIsRun(run: seq<State>, events: seq<Event>)
    requires |run| == |events| + 1 && run[0].memory == map[] && |run[0].versions| == 1
    requires !run[0].versions[0].assumed && Operators(run[0].versions[0]) == {}
    requires forall i | 0 <= i < |events| :: Possible(run[i], events[i]) && run[i + 1] == Next(run[i], events[i])
    ensures IsRun(run, events)
  {
    assert run[0] == State([run[0].versions[0]], map[]);
  }

  // ----- the gate as it runs -----

  /** The custom resource on the API server. */
  class ApiServer {
    var versions: seq<Version>

    constructor (v: Version)
      ensures versions == [v]
    {
      versions := [v];
    }

    method ApplyStatus(manager: string, assumed: bool, o: Outcome) returns (ok: bool)
      requires versions != []
      modifies this
      ensures versions == Apply(old(versions), manager, assumed, o) && ok == (o == Done)
    {
      if o != Lost {
        versions := versions + [Version(versions[|versions| - 1].managers + {manager}, assumed)];
      }
      ok := o == Done;
    }
  }

  const INSTANCE_RESOLVED := "InstanceResolved"

  predicate Assumed(conditions: seq<Condition>) {
    Recorded(conditions, INSTANCE_RESOLVED, true, "Assumed")
  }

  /** The scan of the managed fields. */
  method ForeignOperatorManagerPresent(managedFields: seq<string>, mine: string) returns (found: bool)
    ensures found == ForeignPresent((set m | m in managedFields), mine)
  {
    for i := 0 to |managedFields|
      invariant forall j | 0 <= j < i :: managedFields[j] == mine || !IsOperator(managedFields[j])
    {
      if managedFields[i] != mine && HasPrefix(managedFields[i], "zitadel-operator") {
        assert managedFields[i] in (set m | m in managedFields);
        return true;
      }
    }
    found := false;
  }

  /** The gate on a fetched copy; `status` holds the conditions of that copy. */
  method RunGate(
    cfg: Config, api: ApiServer, managedFields: seq<string>, seen: nat, pinned: string, status: Status,
    now: Time, o: Outcome)
    returns (verdict: Verdict)
    requires seen < |api.versions|
    requires api.versions[seen] == Version((set m | m in managedFields), Assumed(status.conditions))
    requires OneEach(status.conditions)
    modifies api, status
    ensures (api.versions, verdict) == Gate(old(api.versions), seen, cfg, pinned, o)
    ensures OneEach(status.conditions)
    ensures Conditions.Others(status.conditions, INSTANCE_RESOLVED)
         == old(Conditions.Others(status.conditions, INSTANCE_RESOLVED))
    ensures verdict == Foreign ==> status.conditions == old(status.conditions)
    ensures verdict == Proceed ==>
      Recorded(status.conditions, INSTANCE_RESOLVED, true, if pinned == "" then "Assumed" else "Pinned")
    ensures verdict == Ambiguous ==> Recorded(status.conditions, INSTANCE_RESOLVED, false, "AmbiguousInstance")
  {
    if pinned != "" {
      if pinned != cfg.InstanceIdentity() {
        return Foreign;
      }
      status.SetCondition(
        INSTANCE_RESOLVED, true, "Pinned",
        "spec.instance pins this resource to instance " + cfg.InstanceIdentity(), now);
      return Proceed;
    }
    var mine := cfg.FieldManager();
    var foreign := ForeignOperatorManagerPresent(managedFields, mine);
    if !foreign {
      var assumed := HasCondition(status.conditions, INSTANCE_RESOLVED, true, "Assumed");
      if !assumed {
        status.SetCondition(INSTANCE_RESOLVED, true, "Assumed", "no other operator has written status", now);
        var ok := api.ApplyStatus(mine, true, o);
        if !ok {
          return Fail;
        }
      }
      return Proceed;
    }
    status.SetCondition(
      INSTANCE_RESOLVED, false, "AmbiguousInstance", "namespace is served by multiple zitadel operators", now);
    var ok := api.ApplyStatus(mine, false, o);
    verdict := if ok then Ambiguous else Fail;
  }
}
