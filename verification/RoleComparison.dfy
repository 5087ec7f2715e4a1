/** How a user grant compares two lists of roles: both are sorted and joined with commas. */
module RoleComparison {
  import opened Ordering

  function Join(xs: seq<string>): string {
    if xs == [] then "" else if |xs| == 1 then xs[0] else xs[0] + "," + Join(xs[1..])
  }

  predicate RolesEqual(a: seq<string>, b: seq<string>) {
    |a| == |b| && Join(SortStrings(a)) == Join(SortStrings(b))
  }

  ghost predicate NoCommas(xs: seq<string>) {
    forall i | 0 <= i < |xs| :: ',' !in xs[i]
  }

  // ----- commas -----

  function Commas(s: string): nat {
    if s == [] then 0 else (if s[0] == ',' then 1 else 0) + Commas(s[1..])
  }

  lemma {:induction false} CommasAdd(s: string, t: string)
    ensures Commas(s + t) == Commas(s) + Commas(t)
  {
    if s == [] {
      assert s + t == t;
    } else {
      assert (s + t)[1..] == s[1..] + t;
      CommasAdd(s[1..], t);
    }
  }

  lemma {:induction false} CommaCounts(s: string)
    ensures Commas(s) == 0 <==> ',' !in s
  {
    if s != [] {
      CommaCounts(s[1..]);
      assert s == [s[0]] + s[1..];
    }
  }

  /** A join has a comma between any two strings, and no other exactly when the strings have none. */
  lemma {:induction false} JoinCommas(xs: seq<string>)
    requires xs != []
    ensures Commas(Join(xs)) >= |xs| - 1
    ensures Commas(Join(xs)) == |xs| - 1 <==> NoCommas(xs)
  {
    CommaCounts(xs[0]);
    if |xs| > 1 {
      JoinCommas(xs[1..]);
      CommasAdd(xs[0] + ",", Join(xs[1..]));
      CommasAdd(xs[0], ",");
      assert "," == [','] && ","[1..] == "";
      assert xs == [xs[0]] + xs[1..];
      assert NoCommas(xs) <==> ',' !in xs[0] && NoCommas(xs[1..]);
    }
  }

  /** Joining forgets nothing when no string has a comma. */
  lemma {:induction false} JoinIsInjective(xs: seq<string>, ys: seq<string>)
    requires NoCommas(xs) && NoCommas(ys) && |xs| == |ys| && Join(xs) == Join(ys)
    ensures xs == ys
  {
    if |xs| > 1 {
      SeparatorSplits(xs[0], Join(xs[1..]), ys[0], Join(ys[1..]), ',');
      assert NoCommas(xs[1..]) && NoCommas(ys[1..]);
      JoinIsInjective(xs[1..], ys[1..]);
      assert xs == [xs[0]] + xs[1..] && ys == [ys[0]] + ys[1..];
    }
  }

  lemma SortKeepsCommas(xs: seq<string>)
    ensures |SortStrings(xs)| == |xs| && (NoCommas(SortStrings(xs)) <==> NoCommas(xs))
  {
    var ys := SortStrings(xs);
    assert |ys| == |multiset(ys)| == |multiset(xs)| == |xs|;
    SameMembers(ys, xs);
    forall i | 0 <= i < |ys| ensures ys[i] in xs {}
    forall i | 0 <= i < |xs| ensures xs[i] in ys {}
  }

  // ----- when the comparison is that of multisets -----

  /** It is as soon as one of the two lists has no comma, or at most one role; whatever the other has. */
  lemma RolesEqualComparesMultisets(a: seq<string>, b: seq<string>)
    requires NoCommas(a) || NoCommas(b) || |a| <= 1
    ensures RolesEqual(a, b) <==> multiset(a) == multiset(b)
  {
    hide SortStrings, NoCommas;
    SortStringsCompares(a, b);
    SortKeepsCommas(a);
    SortKeepsCommas(b);
    var xs, ys := SortStrings(a), SortStrings(b);
    assert |a| == |multiset(a)| && |b| == |multiset(b)|;
    if RolesEqual(a, b) && a != [] {
      JoinCommas(xs);
      JoinCommas(ys);
      if NoCommas(a) || NoCommas(b) {
        JoinIsInjective(xs, ys);
      } else {
        assert xs == [xs[0]] && ys == [ys[0]];
      }
    }
  }

  /** A wrong answer takes a comma in both lists, and two roles. */
  lemma WrongAnswerNeedsTwoCommas(a: seq<string>, b: seq<string>)
    requires RolesEqual(a, b) && multiset(a) != multiset(b)
    ensures |a| == |b| >= 2 && !NoCommas(a) && !NoCommas(b)
  {
    if NoCommas(a) || NoCommas(b) || |a| <= 1 {
      RolesEqualComparesMultisets(a, b);
    }
  }

  /** With commas in both, different roles can compare equal. */
  lemma RolesEqualWithCommas()
    ensures RolesEqual(["a", "b,c"], ["a,b", "c"]) && multiset(["a", "b,c"]) != multiset(["a,b", "c"])
  {
    hide SortStrings;
    SortPair("a", "b,c");
    SortPair("a,b", "c");
    assert ["a", "b,c"][1..] == ["b,c"] && ["a,b", "c"][1..] == ["c"];
    assert Join(["a", "b,c"]) == "a,b,c" == Join(["a,b", "c"]);
    assert "a" in multiset(["a", "b,c"]) && "a" !in multiset(["a,b", "c"]);
  }

  /** Equal multisets always compare equal. */
  lemma SameRolesCompareEqual(a: seq<string>, b: seq<string>)
    requires multiset(a) == multiset(b)
    ensures RolesEqual(a, b)
  {
    hide SortStrings;
    SortStringsCompares(a, b);
    assert |a| == |multiset(a)| == |multiset(b)| == |b|;
  }

  lemma SortPair(x: string, y: string)
    requires Less(x, y)
    ensures SortStrings([x, y]) == [x, y]
  {
    LessTrichotomy(x, y);
    assert [x, y][1..] == [y] && [y][1..] == [];
    assert Sort([y], Self) == Insert(y, Sort([], Self), Self) == [y];
    assert Sort([x, y], Self) == Insert(x, [y], Self);
  }
}
