/** The status conditions of a custom resource: a list holding at most one condition of each type. */
module Conditions {
  import opened Base

  /** `since` is when status or reason last changed. */
  datatype Condition = Condition(kind: string, status: bool, reason: string, message: string, since: Time)

  ghost predicate OneEach(conditions: seq<Condition>) {
    forall i, j | 0 <= i < j < |conditions| :: conditions[i].kind != conditions[j].kind
  }

  /** A condition of this type, status and reason is in the list. */
  predicate Recorded(conditions: seq<Condition>, kind: string, status: bool, reason: string) {
    exists c | c in conditions :: Says(c, kind, status, reason)
  }

  predicate Says(c: Condition, kind: string, status: bool, reason: string) {
    c.kind == kind && c.status == status && c.reason == reason
  }

  predicate HasKind(conditions: seq<Condition>, kind: string) {
    exists c | c in conditions :: c.kind == kind
  }

  /** The conditions of every other type. */
  function Others(conditions: seq<Condition>, kind: string): seq<Condition> {
    if conditions == [] then []
    else if conditions[0].kind == kind then Others(conditions[1..], kind)
    else [conditions[0]] + Others(conditions[1..], kind)
  }

  lemma {:induction false} OthersUnchanged(conditions: seq<Condition>, i: nat, c: Condition)
    requires i < |conditions| && conditions[i].kind == c.kind
    ensures Others(conditions[i := c], c.kind) == Others(conditions, c.kind)
  {
    if i > 0 {
      OthersUnchanged(conditions[1..], i - 1, c);
      assert conditions[i := c][1..] == conditions[1..][i - 1 := c];
    } else {
      assert conditions[i := c][1..] == conditions[1..];
    }
  }

  lemma {:induction false} OthersAppended(conditions: seq<Condition>, c: Condition)
    ensures Others(conditions + [c], c.kind) == Others(conditions, c.kind)
  {
    if conditions == [] {
    } else {
      OthersAppended(conditions[1..], c);
      assert (conditions + [c])[1..] == conditions[1..] + [c];
    }
  }

  lemma {:induction false} OthersKeepKind(conditions: seq<Condition>, kind: string, other: string)
    requires other != kind
    ensures HasKind(Others(conditions, kind), other) <==> HasKind(conditions, other)
  {
    if conditions != [] {
      OthersKeepKind(conditions[1..], kind, other);
      assert conditions == [conditions[0]] + conditions[1..];
    }
  }

  method HasCondition(conditions: seq<Condition>, kind: string, status: bool, reason: string) returns (found: bool)
    ensures found == Recorded(conditions, kind, status, reason)
  {
    for i := 0 to |conditions|
      invariant forall j | 0 <= j < i :: !Says(conditions[j], kind, status, reason)
    {
      var c := conditions[i];
      if c.kind == kind && c.status == status && c.reason == reason {
        assert Says(conditions[i], kind, status, reason);
        return true;
      }
    }
    found := false;
  }

  method HasConditionType(conditions: seq<Condition>, kind: string) returns (found: bool)
    ensures found == HasKind(conditions, kind)
  {
    for i := 0 to |conditions|
      invariant forall j | 0 <= j < i :: conditions[j].kind != kind
    {
      if conditions[i].kind == kind {
        return true;
      }
    }
    found := false;
  }

  class Status {
    var conditions: seq<Condition>
    var ready: bool

    constructor ()
      ensures conditions == [] && !ready
    {
      conditions, ready := [], false;
    }

    /** Afterwards this is the one condition of its type, those of other types are as before, and its
        time is the present one unless status and reason were the same already. */
    method SetCondition(kind: string, status: bool, reason: string, message: string, now: Time)
      requires OneEach(conditions)
      modifies this`conditions
      ensures OneEach(conditions)
      ensures exists c | c in conditions :: Says(c, kind, status, reason)
      ensures forall c | c in conditions && c.kind == kind :: Says(c, kind, status, reason) && c.message == message
      ensures forall c, d | c in conditions && d in old(conditions) && c.kind == d.kind == kind ::
        c.since == if Says(d, kind, status, reason) then d.since else now
      ensures forall c | c in conditions && c.kind == kind && !HasKind(old(conditions), kind) :: c.since == now
      ensures Others(conditions, kind) == Others(old(conditions), kind)
    {
      for i := 0 to |conditions|
        invariant conditions == old(conditions)
        invariant forall j | 0 <= j < i :: conditions[j].kind != kind
      {
        var c := conditions[i];
        if c.kind == kind {
          var updated := if c.status != status || c.reason != reason then Condition(kind, status, reason, message, now)
                         else c.(message := message);
          OthersUnchanged(conditions, i, updated);
          conditions := conditions[i := updated];
          assert Says(conditions[i], kind, status, reason);
          return;
        }
      }
      var added := Condition(kind, status, reason, message, now);
      OthersAppended(conditions, added);
      conditions := conditions + [added];
      assert Says(conditions[|conditions| - 1], kind, status, reason);
    }
  }
}
