/** The management gate: operators of one instance compete for a custom resource through an
    annotation on it, each working from a possibly stale copy. */
module ManagementGate {
  import opened Base
  import opened OperatorConfig
  import opened Conditions

  /** A version of the custom resource; the annotation is "" when absent. */
  datatype Version = Version(managedBy: string, deleting: bool)

  datatype Verdict = Proceed | Skip | Fail

  /** The write of the guard condition, and the update that stamps. */
  datatype Calls = Calls(guardRecorded: bool, guard: Outcome, update: Outcome)

  /** A server-side write that leaves the annotation alone. */
  function Touch(history: seq<Version>, o: Outcome): seq<Version>
    requires history != []
  {
    if o == Lost then history else history + [history[|history| - 1]]
  }

  /** The gate, run by the operator with identity `identity` on version number `seen`. */
  function Gate(history: seq<Version>, seen: nat, identity: string, calls: Calls): (seq<Version>, Verdict)
    requires seen < |history|
  {
    var v := history[seen];
    if v.managedBy == identity then
      if !calls.guardRecorded then (history, Proceed)
      else (Touch(history, calls.guard), if calls.guard == Done then Proceed else Fail)
    else if v.managedBy == "" then
      if v.deleting then (history, Proceed)
      else if seen != |history| - 1 then (history, Fail)
      else
        (if calls.update == Lost then history else history + [v.(managedBy := identity)],
         if calls.update == Done then Proceed else Fail)
    else (Touch(history, calls.guard), if calls.guard == Done then Skip else Fail)
  }

  // ----- runs -----

  /** Someone runs the gate, or writes anything but the annotation. */
  datatype Event = Gates(operator: Config, seen: nat, calls: Calls) | Writes(deleting: bool)

  /** An operator proceeded, on a version that was or was not under deletion. */
  datatype Passage = Passage(operator: Config, deleting: bool)

  datatype State = State(history: seq<Version>, passages: seq<Passage>)

  predicate Possible(s: State, e: Event) {
    && s.history != []
    && (e.Gates? ==> e.seen < |s.history|)
    && (e.Writes? ==> s.history[|s.history| - 1].deleting ==> e.deleting)
  }

  function Next(s: State, e: Event): State
    requires Possible(s, e)
  {
    match e
    case Gates(operator, seen, calls) =>
      var (h, verdict) := Gate(s.history, seen, operator.ManagementIdentity(), calls);
      State(h, if verdict == Proceed then s.passages + [Passage(operator, s.history[seen].deleting)] else s.passages)
    case Writes(deleting) =>
      s.(history := s.history + [s.history[|s.history| - 1].(deleting := deleting)])
  }

  ghost predicate IsRun(run: seq<State>, events: seq<Event>) {
    && |run| == |events| + 1 && run[0].history != [] && run[0].passages == []
    && Evolves(run[0].history)
    && forall i | 0 <= i < |events| :: Possible(run[i], events[i]) && run[i + 1] == Next(run[i], events[i])
  }

  /** From one version to the next. */
  ghost predicate Adjacent(v: Version, w: Version) {
    (v.deleting ==> w.deleting) && (v.managedBy != w.managedBy ==> v.managedBy == "" && !v.deleting)
  }

  ghost predicate Evolves(history: seq<Version>) {
    forall i | 0 <= i < |history| - 1 :: Adjacent(history[i], history[i + 1])
  }

  /** Whoever proceeded on a version not under deletion is named by the current annotation. */
  ghost predicate Inv(s: State) {
    && s.history != [] && Evolves(s.history)
    && forall i | 0 <= i < |s.passages| && !s.passages[i].deleting ::
         s.history[|s.history| - 1].managedBy == s.passages[i].operator.ManagementIdentity()
  }

  lemma {:induction false} StampStays(history: seq<Version>, i: nat, j: nat)
    requires Evolves(history) && i <= j < |history|
    ensures history[i].managedBy != "" ==> history[j].managedBy == history[i].managedBy
    ensures history[i].deleting ==> history[j].deleting && history[j].managedBy == history[i].managedBy
  {
    if i < j {
      StampStays(history, i, j - 1);
      assert Adjacent(history[j - 1], history[j - 1 + 1]);
    }
  }

  lemma GateEvolves(history: seq<Version>, seen: nat, identity: string, calls: Calls)
    requires Evolves(history) && seen < |history| && identity != ""
    ensures var (h, verdict) := Gate(history, seen, identity, calls);
      && history <= h && h != [] && Evolves(h)
      && (history[|history| - 1].managedBy != "" ==> h[|h| - 1].managedBy == history[|history| - 1].managedBy)
      && (verdict == Proceed && !history[seen].deleting ==> h[|h| - 1].managedBy == identity)
  {
    StampStays(history, seen, |history| - 1);
  }

  lemma PassageIsStamped(s: State, i: nat)
    requires Inv(s) && i < |s.passages| && !s.passages[i].deleting
    ensures s.history[|s.history| - 1].managedBy == s.passages[i].operator.ManagementIdentity() != ""
  {
    OnlyStatusWritesAnnounce(s.passages[i].operator);
  }

  lemma NextKeepsInv(s: State, e: Event)
    requires Inv(s) && Possible(s, e)
    ensures Inv(Next(s, e)) && s.history <= Next(s, e).history
  {
    hide Config.ManagementIdentity, Gate, Evolves;
    var t := Next(s, e);
    if e.Gates? {
      OnlyStatusWritesAnnounce(e.operator);
      GateEvolves(s.history, e.seen, e.operator.ManagementIdentity(), e.calls);
    } else {
      WriteEvolves(s.history, e.deleting);
    }
    forall i | 0 <= i < |t.passages| && !t.passages[i].deleting
      ensures t.history[|t.history| - 1].managedBy == t.passages[i].operator.ManagementIdentity()
    {
      if i < |s.passages| {
        PassageIsStamped(s, i);
      }
    }
  }

  lemma WriteEvolves(history: seq<Version>, deleting: bool)
    requires Evolves(history) && history != [] && (history[|history| - 1].deleting ==> deleting)
    ensures Evolves(history + [history[|history| - 1].(deleting := deleting)])
  {
  }

  lemma {:induction false} RunKeepsInv(run: seq<State>, events: seq<Event>, i: nat)
    requires IsRun(run, events) && i <= |events|
    ensures Inv(run[i])
  {
    if i > 0 {
      RunKeepsInv(run, events, i - 1);
      NextKeepsInv(run[i - 1], events[i - 1]);
    }
  }

  /** Versions are only ever added. */
  lemma {:induction false} HistoryGrows(run: seq<State>, events: seq<Event>, i: nat, j: nat)
    requires IsRun(run, events) && i <= j <= |events|
    ensures run[i].history <= run[j].history
  {
    hide Inv, Next, Evolves;
    if i < j {
      HistoryGrows(run, events, i, j - 1);
      RunKeepsInv(run, events, j - 1);
      NextKeepsInv(run[j - 1], events[j - 1]);
    }
  }

  /** Any number of operators, however stale their copies and whichever writes fail: all that ever
      proceed on a resource not under deletion have one and the same management identity. */
  lemma OneManagerPerResource(run: seq<State>, events: seq<Event>, i: nat, p: Passage, q: Passage)
    requires IsRun(run, events) && i <= |events|
    requires p in run[i].passages && q in run[i].passages && !p.deleting && !q.deleting
    ensures p.operator.ManagementIdentity() == q.operator.ManagementIdentity()
  {
    RunKeepsInv(run, events, i);
  }

  /** A stamp never changes; a resource that is unstamped under deletion is never stamped. */
  lemma AnnotationIsFinal(run: seq<State>, events: seq<Event>, i: nat, a: nat, b: nat)
    requires IsRun(run, events) && i <= |events| && a <= b < |run[i].history|
    ensures var v, w := run[i].history[a], run[i].history[b];
      (v.managedBy != "" ==> w.managedBy == v.managedBy) && (v.managedBy == "" && v.deleting ==> w.managedBy == "")
  {
    RunKeepsInv(run, events, i);
    StampStays(run[i].history, a, b);
  }

  /** An operator that the stamp names proceeds, unless its earlier guard condition cannot be released, and
      every other one keeps its hands off, also under deletion and however old the stamped copy is. */
  lemma StampDecides(run: seq<State>, events: seq<Event>, i: nat, operator: Config, seen: nat, calls: Calls)
    requires IsRun(run, events) && i <= |events| && seen < |run[i].history|
    requires run[i].history[seen].managedBy != ""
    ensures var verdict := Gate(run[i].history, seen, operator.ManagementIdentity(), calls).1;
      if run[i].history[|run[i].history| - 1].managedBy == operator.ManagementIdentity()
      then verdict == if calls.guardRecorded && calls.guard != Done then Fail else Proceed
      else verdict == if calls.guard != Done then Fail else Skip
  {
    RunKeepsInv(run, events, i);
    StampStays(run[i].history, seen, |run[i].history| - 1);
  }

  // ----- the gate as it runs -----

  class ApiServer {
    var history: seq<Version>

    constructor (v: Version)
      ensures history == [v]
    {
      history := [v];
    }

    /** Refused when the object is not the current version; false is an error. */
    method Update(v: Version, version: nat, o: Outcome) returns (ok: bool)
      modifies this
      ensures ok <==> version == |old(history)| - 1 && o == Done
      ensures history == if version == |old(history)| - 1 && o != Lost then old(history) + [v] else old(history)
    {
      if version != |history| - 1 {
        return false;
      }
      if o != Lost {
        history := history + [v];
      }
      ok := o == Done;
    }

    /** A status patch, which is not checked against the version it was made from. */
    method PatchStatus(o: Outcome) returns (ok: bool)
      requires history != []
      modifies this
      ensures history == Touch(old(history), o) && ok == (o == Done)
    {
      if o != Lost {
        history := history + [history[|history| - 1]];
      }
      ok := o == Done;
    }
  }

  /** The copy of the resource a reconcile works on. */
  class Resource {
    var managedBy: string
    var deleting: bool
    var version: nat

    constructor (v: Version, version: nat)
      ensures managedBy == v.managedBy && deleting == v.deleting && this.version == version
    {
      managedBy, deleting, this.version := v.managedBy, v.deleting, version;
    }
  }

  const FOREIGN_MANAGER := "ForeignManager"

  method RunGate(cfg: Config, api: ApiServer, obj: Resource, conditions: seq<Condition>, calls: Calls)
    returns (verdict: Verdict)
    requires calls.guardRecorded == HasKind(conditions, FOREIGN_MANAGER)
    requires obj.version < |api.history| && api.history[obj.version] == Version(obj.managedBy, obj.deleting)
    modifies api, obj
    ensures (api.history, verdict) == Gate(old(api.history), old(obj.version), cfg.ManagementIdentity(), calls)
    ensures obj.deleting == old(obj.deleting)
    ensures verdict == Proceed && !obj.deleting ==> obj.managedBy == cfg.ManagementIdentity()
  {
    OnlyStatusWritesAnnounce(cfg);
    var identity := cfg.ManagementIdentity();
    var ok := true;
    if obj.managedBy == identity {
      var recorded := HasConditionType(conditions, FOREIGN_MANAGER);
      if recorded {
        ok := api.PatchStatus(calls.guard);
      }
      return if ok then Proceed else Fail;
    }
    if obj.managedBy == "" {
      if obj.deleting {
        return Proceed;
      }
      obj.managedBy := identity;
      ok := api.Update(Version(identity, obj.deleting), obj.version, calls.update);
      return if ok then Proceed else Fail;
    }
    ok := api.PatchStatus(calls.guard);
    verdict := if ok then Skip else Fail;
  }
}
