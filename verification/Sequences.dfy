/** What a lossy, reordering channel keeps: facts about sequences whose multisets are ordered. */
module Sequences {
  import opened Domain

  /** A value counted twice occurs at two different positions. */
  lemma {:induction false} TwoOccurrences<T>(s: seq<T>, x: T) returns (a: nat, b: nat)
    requires multiset(s)[x] >= 2
    ensures a < b < |s| && s[a] == x == s[b]
  {
    var n := |s| - 1;
    assert s == s[..n] + [s[n]];
    if s[n] == x {
      assert x in s[..n];
      a :| 0 <= a < n && s[a] == x;
      b := n;
    } else {
      a, b := TwoOccurrences(s[..n], x);
    }
  }

  lemma Inhabited<T>(s: seq<T>)
    ensures s == [] || exists x :: x in s
  {
    if s != [] { assert s[0] in s; }
  }

  lemma Repeats<T>(s: seq<T>, i: nat, j: nat)
    requires i < j < |s|
    ensures s[i] == s[j] ==> multiset(s)[s[i]] >= 2
  {
    assert s == s[..i] + [s[i]] + s[i + 1..j] + [s[j]] + s[j + 1..];
  }

  /** Two positions of a part come from two different positions of the whole. */
  lemma Origins<T>(part: seq<T>, whole: seq<T>, i: nat, j: nat) returns (a: nat, b: nat)
    requires multiset(part) <= multiset(whole)
    requires i < |part| && j < |part| && i != j
    ensures a < |whole| && b < |whole| && a != b
    ensures whole[a] == part[i] && whole[b] == part[j]
  {
    var x, y := part[i], part[j];
    assert x in multiset(part) && y in multiset(part);
    assert x in multiset(whole) && y in multiset(whole);
    if x == y {
      var lo, hi := if i < j then i else j, if i < j then j else i;
      assert part == part[..hi] + [x] + part[hi + 1..];
      assert part[..hi][lo] == x;
      a, b := TwoOccurrences(whole, x);
    } else {
      a :| 0 <= a < |whole| && whole[a] == x;
      b :| 0 <= b < |whole| && whole[b] == y;
    }
  }

  /** Every element of a part is an element of the whole. */
  lemma PartMember<T>(part: seq<T>, whole: seq<T>, x: T)
    requires multiset(part) <= multiset(whole) && x in part
    ensures x in whole
  {
    assert x in multiset(part);
    assert x in multiset(whole);
  }

  // ---- Sums over a sequence ----

  function Sum<T>(f: T -> nat, s: seq<T>): nat {
    if s == [] then 0 else Sum(f, s[..|s| - 1]) + f(s[|s| - 1])
  }

  function Part<T>(f: T -> nat, x: Option<T>): nat {
    match x
    case None => 0
    case Some(value) => f(value)
  }

  lemma {:induction false} SumConcat<T>(f: T -> nat, a: seq<T>, b: seq<T>)
    ensures Sum(f, a + b) == Sum(f, a) + Sum(f, b)
  {
    if b == [] {
      assert a + b == a;
    } else {
      assert (a + b)[..|a + b| - 1] == a + b[..|b| - 1];
      SumConcat(f, a, b[..|b| - 1]);
    }
  }

  lemma {:induction false} SumSnoc<T>(f: T -> nat, s: seq<T>, x: T)
    ensures Sum(f, s + [x]) == Sum(f, s) + f(x)
  {
  }

  lemma Without<T>(s: seq<T>, k: nat)
    requires k < |s|
    ensures multiset(s) == multiset(s[..k] + s[k + 1..]) + multiset{s[k]}
  {
    assert s == s[..k] + [s[k]] + s[k + 1..];
  }

  lemma {:induction false} SumRemove<T>(f: T -> nat, s: seq<T>, k: nat)
    requires k < |s|
    ensures Sum(f, s) == Sum(f, s[..k] + s[k + 1..]) + f(s[k])
  {
    var a, b := s[..k], s[k + 1..];
    assert s == (a + [s[k]]) + b;
    SumConcat(f, a + [s[k]], b);
    SumSnoc(f, a, s[k]);
    SumConcat(f, a, b);
  }

  /** Losing elements never increases a sum, reordering them never changes it. */
  lemma {:induction false} SumPart<T>(f: T -> nat, part: seq<T>, whole: seq<T>)
    requires multiset(part) <= multiset(whole)
    ensures Sum(f, part) <= Sum(f, whole)
    decreases |part|
  {
    if part != [] {
      var n := |part| - 1;
      PartMember(part, whole, part[n]);
      var k :| 0 <= k < |whole| && whole[k] == part[n];
      Without(part, n);
      assert part[..n] + part[n + 1..] == part[..n];
      Without(whole, k);
      var rest := whole[..k] + whole[k + 1..];
      assert multiset(part[..n]) == multiset(part) - multiset{part[n]};
      assert multiset(rest) == multiset(whole) - multiset{part[n]};
      SumPart(f, part[..n], whole[..k] + whole[k + 1..]);
      SumRemove(f, whole, k);
    }
  }

  lemma SumReorder<T>(f: T -> nat, a: seq<T>, b: seq<T>)
    requires multiset(a) == multiset(b)
    ensures Sum(f, a) == Sum(f, b)
  {
    SumPart(f, a, b);
    SumPart(f, b, a);
  }

  lemma {:induction false} SumAgree<S, T>(f: S -> nat, a: seq<S>, g: T -> nat, b: seq<T>)
    requires |a| == |b| && forall i | 0 <= i < |a| :: f(a[i]) == g(b[i])
    ensures Sum(f, a) == Sum(g, b)
  {
    if a != [] {
      SumAgree(f, a[..|a| - 1], g, b[..|b| - 1]);
    }
  }

  lemma Members<T>(a: seq<T>, b: seq<T>)
    requires multiset(a) == multiset(b)
    ensures forall x :: x in a <==> x in b
  {
    forall x ensures x in a <==> x in b { assert x in a <==> x in multiset(a); }
  }

  lemma {:induction false} SumBelow<T>(f: T -> nat, g: T -> nat, h: T -> nat, s: seq<T>)
    requires forall x | x in s :: f(x) <= g(x) + h(x)
    ensures Sum(f, s) <= Sum(g, s) + Sum(h, s)
  {
    if s != [] {
      assert s[|s| - 1] in s && forall x | x in s[..|s| - 1] :: x in s;
      SumBelow(f, g, h, s[..|s| - 1]);
    }
  }

  // ---- Picking and mapping ----

  function Pick<S, T>(f: S -> Option<T>, s: seq<S>): seq<T> {
    if s == [] then []
    else
      match f(s[|s| - 1])
      case None => Pick(f, s[..|s| - 1])
      case Some(y) => Pick(f, s[..|s| - 1]) + [y]
  }

  lemma {:induction false} PickConcat<S, T>(f: S -> Option<T>, a: seq<S>, b: seq<S>)
    ensures Pick(f, a + b) == Pick(f, a) + Pick(f, b)
  {
    if b == [] {
      assert a + b == a;
    } else {
      assert (a + b)[..|a + b| - 1] == a + b[..|b| - 1];
      PickConcat(f, a, b[..|b| - 1]);
    }
  }

  lemma {:induction false} PickRemove<S, T>(f: S -> Option<T>, s: seq<S>, k: nat)
    requires k < |s|
    ensures multiset(Pick(f, s)) == multiset(Pick(f, s[..k] + s[k + 1..])) + multiset(Pick(f, [s[k]]))
  {
    var a, b := s[..k], s[k + 1..];
    assert s == (a + [s[k]]) + b;
    PickConcat(f, a + [s[k]], b);
    PickConcat(f, a, [s[k]]);
    PickConcat(f, a, b);
  }

  /** Reordering reorders what is picked. */
  lemma {:induction false} PickReorder<S, T>(f: S -> Option<T>, a: seq<S>, b: seq<S>)
    requires multiset(a) == multiset(b)
    ensures multiset(Pick(f, a)) == multiset(Pick(f, b))
    decreases |a|
  {
    assert |a| == |multiset(a)| && |b| == |multiset(b)|;
    if a != [] {
      var n := |a| - 1;
      PartMember(a, b, a[n]);
      var k :| 0 <= k < |b| && b[k] == a[n];
      Without(a, n);
      Without(b, k);
      assert a[..n] + a[n + 1..] == a[..n];
      var rest := b[..k] + b[k + 1..];
      assert multiset(a[..n]) == multiset(a) - multiset{a[n]};
      assert multiset(rest) == multiset(b) - multiset{a[n]};
      PickReorder(f, a[..n], rest);
      PickRemove(f, a, n);
      PickRemove(f, b, k);
    }
  }
}
