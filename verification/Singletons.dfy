/** Which of several resources of a kind may manage a setting that an instance has only once. */
module Singletons {
  import opened Base
  import opened Ordering
  import opened Conditions

  datatype Candidate = Candidate(uid: string, namespace: string, name: string, created: Time, deleting: bool)

  function Path(c: Candidate): string {
    c.namespace + "/" + c.name
  }

  /** Created before, or in the same second with a smaller path. */
  predicate Earlier(a: Candidate, b: Candidate) {
    a.created < b.created || (a.created == b.created && Less(Path(a), Path(b)))
  }

  /** An earlier resource is there that does not go away. */
  predicate Flagged(cr: Candidate, candidates: seq<Candidate>) {
    exists other | other in candidates :: other.uid != cr.uid && Earlier(other, cr) && !other.deleting
  }

  /** Distinct resources, whose namespaces have names without a slash as Kubernetes demands. */
  ghost predicate Listing(candidates: seq<Candidate>) {
    && (forall i | 0 <= i < |candidates| :: '/' !in candidates[i].namespace)
    && forall i, j | 0 <= i < j < |candidates| ::
         && candidates[i].uid != candidates[j].uid
         && (candidates[i].namespace != candidates[j].namespace || candidates[i].name != candidates[j].name)
  }

  /** Any two listed resources are ordered. */
  lemma EarlierIsTotal(candidates: seq<Candidate>, a: Candidate, b: Candidate)
    requires Listing(candidates) && a in candidates && b in candidates && a != b
    ensures a.uid != b.uid && (Earlier(a, b) <==> !Earlier(b, a))
  {
    if Path(a) == Path(b) {
      SeparatorSplits(a.namespace, a.name, b.namespace, b.name, '/');
    }
    LessTrichotomy(Path(a), Path(b));
  }

  lemma EarlierIsTransitive(a: Candidate, b: Candidate, c: Candidate)
    requires Earlier(a, b) && Earlier(b, c)
    ensures Earlier(a, c)
  {
    if a.created == b.created == c.created {
      LessTransitive(Path(a), Path(b), Path(c));
    }
  }

  /** The earliest of those that are not being deleted. */
  ghost predicate Wins(w: Candidate, candidates: seq<Candidate>) {
    && w in candidates && !w.deleting
    && forall c | c in candidates && !c.deleting && c != w :: Earlier(w, c)
  }

  /** A resource that stays is let through exactly when it is the earliest of those that stay. */
  lemma UnflaggedMeansEarliest(candidates: seq<Candidate>, cr: Candidate)
    requires Listing(candidates) && cr in candidates && !cr.deleting
    ensures !Flagged(cr, candidates) <==> Wins(cr, candidates)
  {
    hide Earlier;
    forall c | c in candidates && c != cr ensures c.uid != cr.uid && (Earlier(cr, c) <==> !Earlier(c, cr)) {
      EarlierIsTotal(candidates, c, cr);
    }
  }

  lemma {:induction false} FindWinner(candidates: seq<Candidate>, n: nat) returns (w: Option<Candidate>)
    requires Listing(candidates) && n <= |candidates|
    ensures w.None? ==> forall c | c in candidates[..n] :: c.deleting
    ensures w.Some? ==> Wins(w.value, candidates[..n])
  {
    hide Earlier, Listing;
    if n == 0 {
      w := None;
    } else {
      w := FindWinner(candidates, n - 1);
      var c := candidates[n - 1];
      assert candidates[..n] == candidates[..n - 1] + [c];
      if !c.deleting && w.None? {
        w := Some(c);
      } else if !c.deleting && w.value != c {
        assert w.value in candidates;
        EarlierIsTotal(candidates, c, w.value);
        if Earlier(c, w.value) {
          forall d | d in candidates[..n] && !d.deleting && d != c ensures Earlier(c, d) {
            if d != w.value {
              EarlierIsTransitive(c, w.value, d);
            }
          }
          w := Some(c);
        }
      }
    }
  }

  /** If some resource stays, exactly one of those that stay is let through. */
  lemma ExactlyOneIsLetThrough(candidates: seq<Candidate>) returns (w: Candidate)
    requires Listing(candidates) && exists c | c in candidates :: !c.deleting
    ensures Wins(w, candidates)
    ensures forall c | c in candidates && !c.deleting :: Flagged(c, candidates) <==> c != w
  {
    hide Earlier, Listing;
    assert candidates[..|candidates|] == candidates;
    var found := FindWinner(candidates, |candidates|);
    w := found.value;
    forall c | c in candidates && !c.deleting ensures Flagged(c, candidates) <==> c != w {
      UnflaggedMeansEarliest(candidates, c);
      if c != w && Wins(c, candidates) {
        EarlierIsTotal(candidates, c, w);
      }
    }
  }

  /** In its own fields: the winner was created before every other resource that stays, or at the same instant
      with the smaller "namespace/name". */
  lemma WinnerIsOldest(candidates: seq<Candidate>, w: Candidate, c: Candidate)
    requires Listing(candidates) && w in candidates && !w.deleting && !Flagged(w, candidates)
    requires c in candidates && !c.deleting && c != w
    ensures w.created < c.created
         || (w.created == c.created && Less(w.namespace + "/" + w.name, c.namespace + "/" + c.name))
  {
    hide Less;
    UnflaggedMeansEarliest(candidates, w);
  }

  /** The order of the list does not matter. */
  lemma ListOrderIsIrrelevant(candidates: seq<Candidate>, listed: seq<Candidate>, cr: Candidate)
    requires multiset(candidates) == multiset(listed)
    ensures Flagged(cr, candidates) == Flagged(cr, listed)
  {
    SameMembers(candidates, listed);
  }

  /** When the winner starts being deleted, the earliest of the rest takes over, and nobody else. */
  lemma NextTakesOver(candidates: seq<Candidate>, i: nat) returns (next: Candidate)
    requires Listing(candidates) && i < |candidates| && Wins(candidates[i], candidates)
    requires exists c | c in candidates :: !c.deleting && c != candidates[i]
    ensures next in candidates && next != candidates[i] && !next.deleting
    ensures forall c | c in candidates && !c.deleting && c != candidates[i] && c != next :: Earlier(next, c)
    ensures var later := candidates[i := candidates[i].(deleting := true)];
      forall c | c in candidates && !c.deleting && c != candidates[i] :: Flagged(c, later) <==> c != next
  {
    hide Earlier;
    var later := candidates[i := candidates[i].(deleting := true)];
    assert Listing(later);
    var c :| c in candidates && !c.deleting && c != candidates[i];
    var j :| 0 <= j < |candidates| && candidates[j] == c;
    assert later[j] == c;
    next := ExactlyOneIsLetThrough(later);
    var k :| 0 <= k < |later| && later[k] == next;
    assert k != i && candidates[k] == next && candidates[k].uid != candidates[i].uid;
    forall d | d in candidates && d != candidates[i] ensures d in later {
      var l :| 0 <= l < |candidates| && candidates[l] == d;
      assert later[l] == d;
    }
  }

  const READY := "Ready"

  /** True tells the caller to stop. */
  method CheckSingletonConflict(
    cr: Candidate, candidates: seq<Candidate>, status: Status, kindName: string, now: Time) returns (conflict: bool)
    requires OneEach(status.conditions)
    modifies status
    ensures conflict == Flagged(cr, candidates)
    ensures !conflict ==> status.conditions == old(status.conditions) && status.ready == old(status.ready)
    ensures conflict ==> !status.ready && Recorded(status.conditions, READY, false, "DuplicateSingleton")
    ensures OneEach(status.conditions) && Others(status.conditions, READY) == Others(old(status.conditions), READY)
  {
    hide Less;
    for i := 0 to |candidates|
      invariant status.conditions == old(status.conditions) && status.ready == old(status.ready)
      invariant !Flagged(cr, candidates[..i])
    {
      var other := candidates[i];
      assert candidates[..i + 1] == candidates[..i] + [other];
      if other.uid == cr.uid {
        continue;
      }
      var earlier := other.created < cr.created || (other.created == cr.created && Less(Path(other), Path(cr)));
      if earlier && !other.deleting {
        status.SetCondition(
          READY, false, "DuplicateSingleton",
          "another " + kindName + " " + Path(other) + " (created earlier) is already managing this instance singleton",
          now);
        status.ready := false;
        return true;
      }
    }
    assert candidates[..|candidates|] == candidates;
    conflict := false;
  }
}
