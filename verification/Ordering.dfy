/** Strings in Go's order, and sorting by a string key. */
module Ordering {

  predicate Less(a: string, b: string) {
    b != [] && (a == [] || a[0] < b[0] || (a[0] == b[0] && Less(a[1..], b[1..])))
  }

  lemma LessTrichotomy(a: string, b: string)
    ensures Less(a, b) || a == b || Less(b, a)
    ensures !(Less(a, b) && Less(b, a)) && !Less(a, a)
  {
    if a != [] && b != [] && a[0] == b[0] {
      LessTrichotomy(a[1..], b[1..]);
      assert a == [a[0]] + a[1..] && b == [b[0]] + b[1..];
    }
  }

  lemma LessTransitive(a: string, b: string, c: string)
    requires Less(a, b) && Less(b, c)
    ensures Less(a, c)
  {
  }

  /** `a` has the smaller character where the two first differ. */
  ghost predicate SmallerAt(a: string, b: string, n: nat) {
    n < |a| && n < |b| && a[..n] == b[..n] && a[n] < b[n]
  }

  /** A string is less than another exactly if it is a proper prefix of it, or has the smaller character
      where they first differ. */
  lemma {:induction false} LessMeans(a: string, b: string)
    ensures Less(a, b) <==> a < b || exists n: nat :: SmallerAt(a, b, n)
  {
    if a == [] || b == [] {
    } else if a[0] != b[0] {
      assert SmallerAt(a, b, 0) <==> a[0] < b[0];
      forall n: nat | SmallerAt(a, b, n) ensures n == 0 {
        SmallerStartsAlike(a, b, n);
      }
    } else {
      hide SmallerAt;
      LessMeans(a[1..], b[1..]);
      assert a < b <==> a[1..] < b[1..] by {
        assert a == [a[0]] + a[1..] && b == [b[0]] + b[1..];
      }
      forall n: nat ensures SmallerAt(a[1..], b[1..], n) <==> SmallerAt(a, b, n + 1) {
        SmallerFurtherOn(a, b, n);
      }
      forall n: nat | SmallerAt(a, b, n) ensures SmallerAt(a[1..], b[1..], n - 1) {
        SmallerNotAtOnce(a, b, n);
        SmallerFurtherOn(a, b, n - 1);
      }
    }
  }

  lemma SmallerStartsAlike(a: string, b: string, n: nat)
    requires SmallerAt(a, b, n)
    ensures n > 0 ==> a[0] == b[0]
  {
    assert n > 0 ==> a[..n][0] == a[0] && b[..n][0] == b[0];
  }

  lemma SmallerNotAtOnce(a: string, b: string, n: nat)
    requires a != [] && b != [] && a[0] == b[0] && SmallerAt(a, b, n)
    ensures n > 0
  {
  }

  lemma SmallerFurtherOn(a: string, b: string, n: nat)
    requires a != [] && b != [] && a[0] == b[0]
    ensures SmallerAt(a[1..], b[1..], n) <==> SmallerAt(a, b, n + 1)
  {
    if n + 1 < |a| && n + 1 < |b| {
      assert a[..n + 1] == [a[0]] + a[1..][..n] && b[..n + 1] == [b[0]] + b[1..][..n];
      assert a[1..][..n] == a[..n + 1][1..] && b[1..][..n] == b[..n + 1][1..];
    }
  }

  /** In order, equal keys allowed. */
  ghost predicate Sorted<T>(xs: seq<T>, key: T -> string) {
    forall i, j | 0 <= i < j < |xs| :: !Less(key(xs[j]), key(xs[i]))
  }

  function Insert<T>(x: T, xs: seq<T>, key: T -> string): (r: seq<T>)
    ensures multiset(r) == multiset(xs) + multiset{x}
  {
    if xs == [] || !Less(key(xs[0]), key(x)) then [x] + xs
    else
      assert xs == [xs[0]] + xs[1..];
      [xs[0]] + Insert(x, xs[1..], key)
  }

  /** Some sorted arrangement of `xs`. */
  function Sort<T>(xs: seq<T>, key: T -> string): (r: seq<T>)
    ensures multiset(r) == multiset(xs)
  {
    if xs == [] then []
    else
      assert xs == [xs[0]] + xs[1..];
      Insert(xs[0], Sort(xs[1..], key), key)
  }

  lemma InsertSorted<T>(x: T, xs: seq<T>, key: T -> string)
    requires Sorted(xs, key)
    ensures Sorted(Insert(x, xs, key), key)
  {
    var r := Insert(x, xs, key);
    if xs == [] || !Less(key(xs[0]), key(x)) {
      forall j | 0 < j < |r| ensures !Less(key(r[j]), key(x)) {
        if Less(key(r[j]), key(x)) && 1 < j {
          assert !Less(key(xs[j - 1]), key(xs[0]));
          LessTrichotomy(key(xs[j - 1]), key(xs[0]));
          if Less(key(xs[0]), key(xs[j - 1])) {
            LessTransitive(key(xs[0]), key(xs[j - 1]), key(x));
          }
        }
      }
    } else {
      InsertSorted(x, xs[1..], key);
      forall j | 0 < j < |r| ensures !Less(key(r[j]), key(r[0])) {
        assert r[j] in multiset(r[1..]);
        if r[j] == x {
          LessTrichotomy(key(xs[0]), key(x));
        } else {
          assert r[j] in xs[1..];
        }
      }
    }
  }

  lemma SortSorted<T>(xs: seq<T>, key: T -> string)
    ensures Sorted(Sort(xs, key), key)
  {
    if xs != [] {
      SortSorted(xs[1..], key);
      InsertSorted(xs[0], Sort(xs[1..], key), key);
    }
  }

  ghost predicate DistinctKeys<T>(xs: seq<T>, key: T -> string) {
    forall i, j | 0 <= i < j < |xs| :: key(xs[i]) != key(xs[j])
  }

  /** Equal keys mean equal elements. */
  ghost predicate KeyDetermines<T>(xs: seq<T>, key: T -> string) {
    forall x, y | x in xs && y in xs && key(x) == key(y) :: x == y
  }

  lemma SameMembers<T>(xs: seq<T>, ys: seq<T>)
    requires multiset(xs) == multiset(ys)
    ensures forall x :: x in xs <==> x in ys
  {
    forall x ensures x in xs <==> x in ys {
      assert x in multiset(xs) <==> x in multiset(ys);
    }
  }

  lemma KeyDeterminesPart<T>(xs: seq<T>, ys: seq<T>, key: T -> string)
    requires KeyDetermines(xs, key) && multiset(ys) <= multiset(xs)
    ensures KeyDetermines(ys, key)
  {
    forall x, y | x in ys && y in ys && key(x) == key(y) ensures x == y {
      assert x in multiset(ys) && y in multiset(ys);
    }
  }

  lemma SameFirst<T>(xs: seq<T>, ys: seq<T>, key: T -> string)
    requires Sorted(xs, key) && Sorted(ys, key) && multiset(xs) == multiset(ys) && KeyDetermines(xs, key)
    requires xs != [] && ys != []
    ensures xs[0] == ys[0]
  {
    SameMembers(xs, ys);
    assert ys[0] in xs && xs[0] in ys;
    LessTrichotomy(key(xs[0]), key(ys[0]));
  }

  /** There is only one way to sort elements that their keys determine. */
  lemma {:induction false} SortedUnique<T>(xs: seq<T>, ys: seq<T>, key: T -> string)
    requires Sorted(xs, key) && Sorted(ys, key) && multiset(xs) == multiset(ys) && KeyDetermines(xs, key)
    ensures xs == ys
  {
    hide KeyDetermines, Sorted;
    assert |xs| == |multiset(xs)| == |multiset(ys)| == |ys|;
    if xs != [] {
      SameFirst(xs, ys, key);
      DropFirst(xs, key);
      DropFirst(ys, key);
      KeyDeterminesPart(xs, xs[1..], key);
      SortedUnique(xs[1..], ys[1..], key);
    }
  }

  lemma DropFirst<T>(xs: seq<T>, key: T -> string)
    requires xs != [] && Sorted(xs, key)
    ensures xs == [xs[0]] + xs[1..] && multiset(xs[1..]) == multiset(xs) - multiset{xs[0]} && Sorted(xs[1..], key)
  {
    assert xs == [xs[0]] + xs[1..];
  }

  /** Sorting forgets the order of elements that their keys determine. */
  lemma SortCanonical<T>(xs: seq<T>, ys: seq<T>, key: T -> string)
    requires multiset(xs) == multiset(ys) && KeyDetermines(xs, key)
    ensures Sort(xs, key) == Sort(ys, key)
  {
    hide KeyDetermines;
    SortSorted(xs, key);
    SortSorted(ys, key);
    KeyDeterminesPart(xs, Sort(xs, key), key);
    SortedUnique(Sort(xs, key), Sort(ys, key), key);
  }

  lemma DistinctKeysDetermine<T>(xs: seq<T>, key: T -> string)
    requires DistinctKeys(xs, key)
    ensures KeyDetermines(xs, key)
  {
  }

  /** A rearrangement of elements with distinct keys has distinct keys. */
  lemma SortKeepsDistinct<T>(xs: seq<T>, key: T -> string)
    requires DistinctKeys(xs, key)
    ensures DistinctKeys(Sort(xs, key), key)
  {
    if xs != [] {
      forall i, j | 0 <= i < j < |xs[1..]| ensures key(xs[1..][i]) != key(xs[1..][j]) {
        assert xs[1..][i] == xs[i + 1] && xs[1..][j] == xs[j + 1];
      }
      SortKeepsDistinct(xs[1..], key);
      forall y | y in Sort(xs[1..], key) ensures key(y) != key(xs[0]) {
        assert y in multiset(Sort(xs[1..], key)) && y in multiset(xs[1..]);
        var i :| 0 <= i < |xs[1..]| && xs[1..][i] == y;
        assert xs[i + 1] == y;
      }
      InsertKeepsDistinct(xs[0], Sort(xs[1..], key), key);
    }
  }

  lemma InsertKeepsDistinct<T>(x: T, xs: seq<T>, key: T -> string)
    requires DistinctKeys(xs, key) && forall y | y in xs :: key(y) != key(x)
    ensures DistinctKeys(Insert(x, xs, key), key)
  {
    var r := Insert(x, xs, key);
    if xs != [] && Less(key(xs[0]), key(x)) {
      forall i, j | 0 <= i < j < |xs[1..]| ensures key(xs[1..][i]) != key(xs[1..][j]) {
        assert xs[1..][i] == xs[i + 1] && xs[1..][j] == xs[j + 1];
      }
      InsertKeepsDistinct(x, xs[1..], key);
      forall j | 0 < j < |r| ensures key(r[j]) != key(r[0]) {
        assert r[j] in multiset(r[1..]);
        if r[j] != x {
          assert r[j] in xs[1..];
          var i :| 0 <= i < |xs[1..]| && xs[1..][i] == r[j];
          assert xs[i + 1] == r[j];
        }
      }
    }
  }

  // ----- lists of strings -----

  function Self(s: string): string {
    s
  }

  function SortStrings(xs: seq<string>): (r: seq<string>)
    ensures multiset(r) == multiset(xs)
  {
    Sort(xs, Self)
  }

  /** Two lists sort to the same one exactly when they hold the same strings equally often. */
  lemma SortStringsCompares(xs: seq<string>, ys: seq<string>)
    ensures SortStrings(xs) == SortStrings(ys) <==> multiset(xs) == multiset(ys)
  {
    if multiset(xs) == multiset(ys) {
      SortCanonical(xs, ys, Self);
    } else {
      assert multiset(SortStrings(xs)) != multiset(SortStrings(ys));
    }
  }

  /** A separator splits a string in one way, if the first part does not contain it. */
  lemma SeparatorSplits(a: string, b: string, c: string, d: string, sep: char)
    requires sep !in a && sep !in c && a + [sep] + b == c + [sep] + d
    ensures a == c && b == d
  {
    var s, t := a + [sep] + b, c + [sep] + d;
    assert s[|a|] == sep && forall i | 0 <= i < |a| :: s[i] == a[i] != sep;
    assert t[|c|] == sep && forall i | 0 <= i < |c| :: t[i] == c[i] != sep;
    assert s[..|a|] == a && t[..|c|] == c && s[|a| + 1..] == b && t[|c| + 1..] == d;
  }
}
