/** Stable sorting by a preorder, as `sort_by` and `sort_by_key` do it, and sets read in order. */
module Sorting {
  import opened Sequences

  ghost predicate TotalPreorder<T(!new)>(le: (T, T) -> bool) {
    && (forall x, y :: le(x, y) || le(y, x))
    && (forall x, y, z :: le(x, y) && le(y, z) ==> le(x, z))
  }

  ghost predicate Sorted<T>(le: (T, T) -> bool, s: seq<T>) {
    forall i, j | 0 <= i < j < |s| :: le(s[i], s[j])
  }

  /** Put `x` behind everything that may stand before it. */
  function Insert<T>(le: (T, T) -> bool, s: seq<T>, x: T): seq<T> {
    if s == [] || le(s[|s| - 1], x) then s + [x]
    else Insert(le, s[..|s| - 1], x) + [s[|s| - 1]]
  }

  function Sort<T>(le: (T, T) -> bool, s: seq<T>): seq<T> {
    if s == [] then [] else Insert(le, Sort(le, s[..|s| - 1]), s[|s| - 1])
  }

  lemma {:induction false} InsertMembers<T>(le: (T, T) -> bool, s: seq<T>, x: T)
    ensures multiset(Insert(le, s, x)) == multiset(s) + multiset{x}
  {
    if !(s == [] || le(s[|s| - 1], x)) {
      InsertMembers(le, s[..|s| - 1], x);
      assert s == s[..|s| - 1] + [s[|s| - 1]];
    }
  }

  /** Sorting only rearranges. */
  lemma {:induction false} SortMembers<T>(le: (T, T) -> bool, s: seq<T>)
    ensures multiset(Sort(le, s)) == multiset(s)
  {
    if s != [] {
      SortMembers(le, s[..|s| - 1]);
      InsertMembers(le, Sort(le, s[..|s| - 1]), s[|s| - 1]);
      assert s == s[..|s| - 1] + [s[|s| - 1]];
    }
  }

  lemma {:induction false} InsertSorted<T(!new)>(le: (T, T) -> bool, s: seq<T>, x: T)
    requires TotalPreorder(le) && Sorted(le, s)
    ensures Sorted(le, Insert(le, s, x))
  {
    if !(s == [] || le(s[|s| - 1], x)) {
      var front, last := s[..|s| - 1], s[|s| - 1];
      InsertSorted(le, front, x);
      InsertMembers(le, front, x);
      var r := Insert(le, front, x);
      forall i | 0 <= i < |r| ensures le(r[i], last) {
        assert r[i] in multiset(r);
        assert r[i] in multiset(front) + multiset{x};
      }
    }
  }

  /** Sorting sorts. */
  lemma {:induction false} SortSorted<T(!new)>(le: (T, T) -> bool, s: seq<T>)
    requires TotalPreorder(le)
    ensures Sorted(le, Sort(le, s))
  {
    if s != [] {
      SortSorted(le, s[..|s| - 1]);
      InsertSorted(le, Sort(le, s[..|s| - 1]), s[|s| - 1]);
    }
  }

  // ---- Stability ----

  /** The elements tied with `x`, in their order. */
  function TiedWith<T>(le: (T, T) -> bool, s: seq<T>, x: T): seq<T> {
    if s == [] then []
    else
      var front, y := TiedWith(le, s[..|s| - 1], x), s[|s| - 1];
      if le(x, y) && le(y, x) then front + [y] else front
  }

  lemma {:induction false} TiedMore<T>(le: (T, T) -> bool, s: seq<T>, y: T, x: T)
    ensures TiedWith(le, s + [y], x) == TiedWith(le, s, x) + if le(x, y) && le(y, x) then [y] else []
  {
    assert (s + [y])[..|s|] == s;
  }

  lemma {:induction false} InsertStable<T(!new)>(le: (T, T) -> bool, s: seq<T>, y: T, x: T)
    requires TotalPreorder(le)
    ensures TiedWith(le, Insert(le, s, y), x) == TiedWith(le, s + [y], x)
  {
    TiedMore(le, s, y, x);
    if s != [] && !le(s[|s| - 1], y) {
      var front, last := s[..|s| - 1], s[|s| - 1];
      InsertStable(le, front, y, x);
      TiedMore(le, front, y, x);
      TiedMore(le, Insert(le, front, y), last, x);
    }
  }

  /** Sorting keeps tied elements in their order. */
  lemma {:induction false} SortStable<T(!new)>(le: (T, T) -> bool, s: seq<T>, x: T)
    requires TotalPreorder(le)
    ensures TiedWith(le, Sort(le, s), x) == TiedWith(le, s, x)
  {
    if s != [] {
      var front, last := s[..|s| - 1], s[|s| - 1];
      SortStable(le, front, x);
      InsertStable(le, Sort(le, front), last, x);
      TiedMore(le, Sort(le, front), last, x);
    }
  }

  /** Different elements are never tied. */
  ghost predicate NoTies<T>(le: (T, T) -> bool, s: seq<T>) {
    forall i, j | 0 <= i < |s| && 0 <= j < |s| && le(s[i], s[j]) && le(s[j], s[i]) :: s[i] == s[j]
  }

  lemma {:induction false} LastAgree<T>(le: (T, T) -> bool, a: seq<T>, b: seq<T>)
    requires multiset(a) == multiset(b) && Sorted(le, a) && Sorted(le, b) && |a| == |b| > 0 && NoTies(le, a)
    ensures a[|a| - 1] == b[|b| - 1]
  {
    var n := |a| - 1;
    PartMember(a, b, a[n]);
    PartMember(b, a, b[n]);
    var i :| 0 <= i < |a| && a[i] == b[n];
    var j :| 0 <= j < |b| && b[j] == a[n];
    assert i == n || le(a[i], a[n]);
    assert j == n || le(b[j], b[n]);
  }

  lemma DropLast<T>(le: (T, T) -> bool, s: seq<T>)
    requires s != []
    ensures multiset(s[..|s| - 1]) == multiset(s) - multiset{s[|s| - 1]}
    ensures Sorted(le, s) ==> Sorted(le, s[..|s| - 1])
    ensures NoTies(le, s) ==> NoTies(le, s[..|s| - 1])
  {
    assert s == s[..|s| - 1] + [s[|s| - 1]];
  }

  lemma SameLength<T>(a: seq<T>, b: seq<T>)
    requires multiset(a) == multiset(b)
    ensures |a| == |b|
  {
    assert |a| == |multiset(a)| && |b| == |multiset(b)|;
  }

  lemma Fronts<T>(le: (T, T) -> bool, a: seq<T>, b: seq<T>)
    requires multiset(a) == multiset(b) && Sorted(le, a) && Sorted(le, b) && NoTies(le, a) && |a| == |b| > 0
    ensures
      var n := |a| - 1;
      && a[n] == b[n] && multiset(a[..n]) == multiset(b[..n])
      && Sorted(le, a[..n]) && Sorted(le, b[..n]) && NoTies(le, a[..n])
  {
    LastAgree(le, a, b);
    DropLast(le, a);
    DropLast(le, b);
  }

  /** Two sorted arrangements of the same elements are equal when different elements are never tied. */
  lemma {:induction false} SortedUnique<T>(le: (T, T) -> bool, a: seq<T>, b: seq<T>)
    requires multiset(a) == multiset(b) && Sorted(le, a) && Sorted(le, b) && NoTies(le, a)
    ensures a == b
  {
    SameLength(a, b);
    if a == [] {
      assert b == [];
    } else {
      var n := |a| - 1;
      Fronts(le, a, b);
      SortedUnique(le, a[..n], b[..n]);
      assert a == a[..n] + [a[n]] && b == b[..n] + [b[n]];
    }
  }

  /** `sort_by` on a slice, a library call, which leaves the slice stably sorted in place. */
  method SortBy<T>(le: (T, T) -> bool, a: array<T>)
    modifies a
    ensures a[..] == Sort(le, old(a[..]))
  {
    var sorted := Sort(le, a[..]);
    SortMembers(le, a[..]);
    SameLength(sorted, a[..]);
    forall i | 0 <= i < a.Length { a[i] := sorted[i]; }
  }

  // ---- A set in order ----

  ghost function Enumerate<T>(s: set<T>): seq<T> {
    if s == {} then [] else
      var x :| x in s;
      Enumerate(s - {x}) + [x]
  }

  lemma {:induction false} EnumerateMembers<T>(s: set<T>)
    ensures multiset(Enumerate(s)) == multiset(s)
  {
    if s != {} {
      var x :| x in s && Enumerate(s) == Enumerate(s - {x}) + [x];
      EnumerateMembers(s - {x});
      assert s == s - {x} + {x};
    }
  }

  /** The elements of a set, each once, in order: how a `BTreeMap` is read and how sorted keys come out. */
  ghost function InOrder<T>(le: (T, T) -> bool, s: set<T>): seq<T> {
    Sort(le, Enumerate(s))
  }

  ghost predicate Distinct<T>(s: seq<T>) {
    forall i, j | 0 <= i < j < |s| :: s[i] != s[j]
  }

  lemma {:induction false} DistinctMembers<T>(r: seq<T>, s: set<T>)
    requires Distinct(r) && forall x :: x in r <==> x in s
    ensures multiset(r) == multiset(s)
  {
    forall x ensures multiset(r)[x] == multiset(s)[x] {
      assert x in r <==> x in multiset(r);
      if multiset(r)[x] >= 2 {
        var a, b := TwoOccurrences(r, x);
      }
    }
  }

  lemma InOrderMembers<T(!new)>(le: (T, T) -> bool, s: set<T>)
    requires TotalPreorder(le)
    ensures Sorted(le, InOrder(le, s)) && Distinct(InOrder(le, s))
    ensures multiset(InOrder(le, s)) == multiset(s)
    ensures forall x :: x in InOrder(le, s) <==> x in s
    ensures |InOrder(le, s)| == |s|
  {
    var r := InOrder(le, s);
    SortMembers(le, Enumerate(s));
    EnumerateMembers(s);
    SortSorted(le, Enumerate(s));
    forall i, j | 0 <= i < j < |r| ensures r[i] != r[j] {
      Repeats(r, i, j);
    }
    forall x ensures x in r <==> x in s {
      assert x in r <==> x in multiset(r);
    }
    assert |r| == |multiset(r)|;
  }

  /** Collecting a set in any order and sorting it gives it in order. */
  method KeysInOrder<T(!new,==)>(le: (T, T) -> bool, s: set<T>) returns (r: seq<T>)
    requires TotalPreorder(le) && forall x, y | le(x, y) && le(y, x) :: x == y
    ensures r == InOrder(le, s)
  {
    var rest, found := s, [];
    while rest != {}
      invariant rest <= s && multiset(found) + multiset(rest) == multiset(s)
      decreases |rest|
    {
      var x :| x in rest;
      assert rest == rest - {x} + {x};
      found, rest := found + [x], rest - {x};
    }
    var a := new T[|found|](i requires 0 <= i < |found| => found[i]);
    assert a[..] == found;
    SortBy(le, a);
    r := a[..];
    SortsToOrder(le, found, s);
  }

  lemma {:induction false} SortsToOrder<T(!new)>(le: (T, T) -> bool, found: seq<T>, s: set<T>)
    requires TotalPreorder(le) && forall x, y | le(x, y) && le(y, x) :: x == y
    requires multiset(found) == multiset(s)
    ensures Sort(le, found) == InOrder(le, s)
  {
    InOrderMembers(le, s);
    SortMembers(le, found);
    SortSorted(le, found);
    SortedUnique(le, Sort(le, found), InOrder(le, s));
  }
}
