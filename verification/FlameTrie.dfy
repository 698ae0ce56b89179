/** The flame tree: built by saturating insertion, meaning a cut sum for every label path. */
module FlameTrie {
  import opened Domain
  import opened Sequences
  import opened Sorting

  /** `TreeBuilder`: the value of a path and its continuations by label. */
  datatype Trie = Trie(value: u64, children: map<string, Trie>)

  const EMPTY := Trie(0, map[])

  /** One included sample: its labels from the first selected frame on, its state and its weight. */
  datatype Hit = Hit(labels: seq<string>, state: ExecutionState, weight: u64)

  function ChildOf(t: Trie, name: string): Trie {
    if name in t.children then t.children[name] else EMPTY
  }

  /** `TreeBuilder::insert`. */
  function Insert(t: Trie, labels: seq<string>, weight: u64): Trie
    decreases |labels|
  {
    var value := SatAdd(t.value, weight);
    if labels == [] then t.(value := value)
    else Trie(value, t.children[labels[0] := Insert(ChildOf(t, labels[0]), labels[1..], weight)])
  }

  function Build(hits: seq<Hit>): Trie {
    if hits == [] then EMPTY
    else
      var hit := hits[|hits| - 1];
      Insert(Build(hits[..|hits| - 1]), hit.labels, hit.weight)
  }

  /** The value of the node at a path, if there is one. */
  function At(t: Trie, path: seq<string>): Option<u64>
    decreases |path|
  {
    if path == [] then Some(t.value)
    else if path[0] in t.children then At(t.children[path[0]], path[1..])
    else None
  }

  // ---- What the tree means ----

  function ValueAt(t: Trie, path: seq<string>): u64 {
    match At(t, path)
    case Some(value) => value
    case None => 0
  }

  lemma EmptyAt(path: seq<string>)
    ensures At(EMPTY, path) == if path == [] then Some(0) else None
  {
  }

  /** Insertion adds to exactly the prefixes of the labels. */
  lemma {:induction false} InsertAt(t: Trie, labels: seq<string>, weight: u64, path: seq<string>)
    ensures At(Insert(t, labels, weight), path) ==
            if path <= labels then Some(SatAdd(ValueAt(t, path), weight)) else At(t, path)
    decreases |labels|
  {
    if path != [] && labels != [] && path[0] == labels[0] {
      InsertAt(ChildOf(t, labels[0]), labels[1..], weight, path[1..]);
      EmptyAt(path[1..]);
      assert path <= labels <==> path[1..] <= labels[1..] by {
        assert path == [path[0]] + path[1..] && labels == [labels[0]] + labels[1..];
      }
    }
  }

  /** The exact weight below a path. */
  function Under(path: seq<string>): Hit -> nat {
    (hit: Hit) => if path <= hit.labels then hit.weight else 0
  }

  ghost predicate Reached(hits: seq<Hit>, path: seq<string>) {
    path == [] || exists hit :: hit in hits && path <= hit.labels
  }

  /**
   A path has a node exactly when it is a prefix of some hit's labels (the root always exists), and its
   value is the exact sum of the weights of those hits, cut at the largest u64.
   */
  lemma {:induction false} TrieMeaning(hits: seq<Hit>, path: seq<string>)
    ensures At(Build(hits), path) == if Reached(hits, path) then Some(Cap(Sum(Under(path), hits))) else None
  {
    if hits == [] {
      EmptyAt(path);
    } else {
      var front, hit := hits[..|hits| - 1], hits[|hits| - 1];
      TrieMeaning(front, path);
      InsertAt(Build(front), hit.labels, hit.weight, path);
      ReachedFurther(hits, path);
      if !Reached(front, path) { NothingUnder(front, path); }
    }
  }

  lemma {:induction false} ReachedFurther(hits: seq<Hit>, path: seq<string>)
    requires hits != []
    ensures Reached(hits, path) <==> Reached(hits[..|hits| - 1], path) || path <= hits[|hits| - 1].labels
  {
    assert hits == hits[..|hits| - 1] + [hits[|hits| - 1]];
    assert hits[|hits| - 1] in hits;
  }

  lemma {:induction false} NothingUnder(hits: seq<Hit>, path: seq<string>)
    requires !Reached(hits, path)
    ensures Sum(Under(path), hits) == 0
  {
    if hits != [] {
      var front := hits[..|hits| - 1];
      assert hits[|hits| - 1] in hits && forall hit | hit in front :: hit in hits;
      NothingUnder(front, path);
    }
  }

  /** A tree is determined by the values at its paths. */
  lemma {:induction false} TrieDetermined(t: Trie, u: Trie)
    requires forall path :: At(t, path) == At(u, path)
    ensures t == u
    decreases t
  {
    assert At(t, []) == At(u, []);
    forall name ensures name in t.children <==> name in u.children {
      assert At(t, [name]) == At(u, [name]);
      if name in t.children { assert At(t, [name]) == Some(t.children[name].value); }
      if name in u.children { assert At(u, [name]) == Some(u.children[name].value); }
    }
    forall name | name in t.children ensures t.children[name] == u.children[name] {
      forall path ensures At(t.children[name], path) == At(u.children[name], path) {
        assert ([name] + path)[1..] == path;
        assert At(t, [name] + path) == At(u, [name] + path);
      }
      TrieDetermined(t.children[name], u.children[name]);
    }
  }

  /** The order of the samples does not matter. */
  lemma {:induction false} BuildReorder(a: seq<Hit>, b: seq<Hit>)
    requires multiset(a) == multiset(b)
    ensures Build(a) == Build(b)
  {
    forall path ensures At(Build(a), path) == At(Build(b), path) {
      TrieMeaning(a, path);
      TrieMeaning(b, path);
      SumReorder(Under(path), a, b);
      Members(a, b);
    }
    TrieDetermined(Build(a), Build(b));
  }

  /** Values add up at every path, even where they saturate, when the hits of one are those of the other two. */
  lemma {:induction false} BuildAddsAt(whole: seq<Hit>, a: seq<Hit>, b: seq<Hit>, path: seq<string>)
    requires multiset(whole) == multiset(a) + multiset(b)
    ensures At(Build(whole), path).Some? <==> At(Build(a), path).Some? || At(Build(b), path).Some?
    ensures ValueAt(Build(whole), path) == SatAdd(ValueAt(Build(a), path), ValueAt(Build(b), path))
  {
    TrieMeaning(whole, path);
    TrieMeaning(a, path);
    TrieMeaning(b, path);
    SumReorder(Under(path), whole, a + b);
    SumConcat(Under(path), a, b);
    Members(whole, a + b);
    if !Reached(whole, path) { NothingUnder(whole, path); }
    if !Reached(a, path) { NothingUnder(a, path); }
    if !Reached(b, path) { NothingUnder(b, path); }
  }

  // ---- The finished tree ----

  /** The order of `String` keys: lexicographic by code point. */
  predicate NameLe(a: string, b: string) {
    a == [] || (b != [] && (a[0] < b[0] || (a[0] == b[0] && NameLe(a[1..], b[1..]))))
  }

  lemma {:induction false} NameLeTotal(a: string, b: string)
    ensures NameLe(a, b) || NameLe(b, a)
  {
    if a != [] && b != [] && a[0] == b[0] { NameLeTotal(a[1..], b[1..]); }
  }

  lemma {:induction false} NameLeTransitive(a: string, b: string, c: string)
    requires NameLe(a, b) && NameLe(b, c)
    ensures NameLe(a, c)
  {
    if a != [] && a[0] == b[0] == c[0] { NameLeTransitive(a[1..], b[1..], c[1..]); }
  }

  lemma {:induction false} NameLeAntisymmetric(a: string, b: string)
    requires NameLe(a, b) && NameLe(b, a)
    ensures a == b
  {
    if a != [] {
      NameLeAntisymmetric(a[1..], b[1..]);
      assert a == [a[0]] + a[1..] && b == [b[0]] + b[1..];
    }
  }

  /** At the first place where two names differ the smaller character decides; a prefix comes first. */
  lemma {:induction false} NameLeIs(a: string, b: string, k: nat)
    requires k <= |a| && k <= |b| && a[..k] == b[..k]
    ensures k == |a| ==> NameLe(a, b)
    ensures k == |b| < |a| ==> !NameLe(a, b)
    ensures k < |a| && k < |b| && a[k] < b[k] ==> NameLe(a, b) && !NameLe(b, a)
  {
    if k > 0 {
      assert a[0] == a[..k][0] == b[..k][0] == b[0];
      assert a[1..][..k - 1] == a[..k][1..] && b[1..][..k - 1] == b[..k][1..];
      NameLeIs(a[1..], b[1..], k - 1);
    }
  }

  lemma NameLeOrders()
    ensures TotalPreorder(NameLe)
  {
    forall a, b ensures NameLe(a, b) || NameLe(b, a) { NameLeTotal(a, b); }
    forall a, b, c | NameLe(a, b) && NameLe(b, c) ensures NameLe(a, c) { NameLeTransitive(a, b, c); }
  }

  predicate NameBefore(a: string, b: string) {
    NameLe(a, b) && a != b
  }

  datatype FlameNode = FlameNode(name: string, value: u64, children: seq<FlameNode>)

  ghost function Names(t: Trie): (r: seq<string>)
    ensures forall name :: name in r <==> name in t.children
  {
    NameLeOrders();
    InOrderMembers(NameLe, t.children.Keys);
    InOrder(NameLe, t.children.Keys)
  }

  /** `TreeBuilder::finish`: the children in the order of their names. */
  ghost function Finish(t: Trie, name: string): (r: FlameNode)
    ensures r.name == name
    decreases t
  {
    var names := Names(t);
    FlameNode(name, t.value, seq(|names|, i requires 0 <= i < |names| =>
      assert names[i] in names;
      Finish(t.children[names[i]], names[i])))
  }

  /** At every node the names of the children rise strictly. */
  ghost predicate NameOrdered(n: FlameNode) {
    && (forall i, j | 0 <= i < j < |n.children| :: NameBefore(n.children[i].name, n.children[j].name))
    && (forall i | 0 <= i < |n.children| :: NameOrdered(n.children[i]))
  }

  function ChildNamed(ns: seq<FlameNode>, name: string): (r: Option<FlameNode>)
    ensures r.Some? ==> r.value in ns && r.value.name == name
    ensures r.None? ==> forall i | 0 <= i < |ns| :: ns[i].name != name
  {
    if ns == [] then None
    else if ns[0].name == name then Some(ns[0])
    else ChildNamed(ns[1..], name)
  }

  function NodeAt(n: FlameNode, path: seq<string>): Option<u64>
    decreases |path|
  {
    if path == [] then Some(n.value)
    else
      match ChildNamed(n.children, path[0])
      case None => None
      case Some(child) => NodeAt(child, path[1..])
  }

  lemma {:induction false} FinishedChild(t: Trie, name: string, i: nat)
    requires i < |Names(t)|
    ensures |Finish(t, name).children| == |Names(t)| && Names(t)[i] in t.children
    ensures Finish(t, name).children[i] == Finish(t.children[Names(t)[i]], Names(t)[i])
  {
  }

  /** The value of a path in a finished tree, zero where there is no node. */
  function ValueIn(n: FlameNode, path: seq<string>): u64 {
    match NodeAt(n, path)
    case Some(value) => value
    case None => 0
  }

  /** The finished children, in the order of their names, make the finished node. */
  lemma {:induction false} FinishedFrom(t: Trie, name: string, children: seq<FlameNode>)
    requires |children| == |Names(t)|
    requires forall i | 0 <= i < |Names(t)| :: children[i] == Finish(t.children[Names(t)[i]], Names(t)[i])
    ensures Finish(t, name) == FlameNode(name, t.value, children)
  {
  }

  lemma {:induction false} FinishOrdered(t: Trie, name: string)
    ensures NameOrdered(Finish(t, name))
    decreases t
  {
    var names, n := Names(t), Finish(t, name);
    NameLeOrders();
    InOrderMembers(NameLe, t.children.Keys);
    forall i, j | 0 <= i < j < |n.children| ensures NameBefore(n.children[i].name, n.children[j].name) {
      FinishedChild(t, name, i);
      FinishedChild(t, name, j);
    }
    forall i | 0 <= i < |n.children| ensures NameOrdered(n.children[i]) {
      FinishedChild(t, name, i);
      FinishOrdered(t.children[names[i]], names[i]);
    }
  }

  lemma {:induction false} FinishedChildren(t: Trie, name: string)
    ensures forall child | child in Finish(t, name).children ::
              child.name in t.children && child == Finish(t.children[child.name], child.name)
    ensures forall key | key in t.children ::
              exists i :: 0 <= i < |Finish(t, name).children| && Finish(t, name).children[i].name == key
  {
    var names, n := Names(t), Finish(t, name);
    forall child | child in n.children
      ensures child.name in t.children && child == Finish(t.children[child.name], child.name)
    {
      var i :| 0 <= i < |n.children| && n.children[i] == child;
      FinishedChild(t, name, i);
    }
    forall key | key in t.children ensures exists i :: 0 <= i < |n.children| && n.children[i].name == key {
      assert key in names;
      var i :| 0 <= i < |names| && names[i] == key;
      FinishedChild(t, name, i);
    }
  }

  /** Finishing loses nothing: every path keeps its value, and no path appears. */
  lemma {:induction false} FinishKeeps(t: Trie, name: string, path: seq<string>)
    ensures NodeAt(Finish(t, name), path) == At(t, path)
    decreases |path|
  {
    if path != [] {
      FinishedChildren(t, name);
      if path[0] in t.children { FinishKeeps(t.children[path[0]], path[0], path[1..]); }
    }
  }
}
