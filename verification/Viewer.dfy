/** The viewer's own aggregation of a selection. */
module Viewer {
  import opened Domain
  import opened Sequences
  import opened Sorting
  import opened LatencyWindow
  import opened Queries

  /** What a node of `calculate` counts; the numbers are exact. */
  datatype Counts = Counts(value: nat, selfValue: nat, sampleCount: nat, invocations: set<u64>, cpu: nat, off: nat)

  const NO_COUNTS := Counts(0, 0, 0, {}, 0, 0)

  datatype Node = Node(counts: Counts, children: map<string, Node>)

  const NEW_NODE := Node(NO_COUNTS, map[])

  /** One sample as the tree sees it: cut, and marked as included by the metric or not. */
  datatype Visit = Visit(labels: seq<string>, invocationId: u64, state: ExecutionState, weight: u64, included: bool) {
    function Value(): nat {
      if included then weight else 0
    }

    function Cpu(): nat {
      if state.OnCpu? then weight else 0
    }

    function Off(): nat {
      if state.OffCpu? then weight else 0
    }
  }

  /** A sample passes a node; at the last one it also adds to the self value. */
  function Add(c: Counts, v: Visit, last: bool): Counts {
    Counts(c.value + v.Value(), c.selfValue + (if last then v.Value() else 0), c.sampleCount + 1,
           c.invocations + {v.invocationId}, c.cpu + v.Cpu(), c.off + v.Off())
  }

  function Child(n: Node, name: string): Node {
    if name in n.children then n.children[name] else NEW_NODE
  }

  /** The descent of one sample. */
  function Walk(n: Node, v: Visit, labels: seq<string>): Node
    decreases |labels|
  {
    Node(Add(n.counts, v, labels == []),
         if labels == [] then n.children
         else n.children[labels[0] := Walk(Child(n, labels[0]), v, labels[1..])])
  }

  function WalkAll(visits: seq<Visit>): Node {
    if visits == [] then NEW_NODE
    else
      var v := visits[|visits| - 1];
      Walk(WalkAll(visits[..|visits| - 1]), v, v.labels)
  }

  function CountsAt(n: Node, path: seq<string>): Option<Counts>
    decreases |path|
  {
    if path == [] then Some(n.counts)
    else if path[0] in n.children then CountsAt(n.children[path[0]], path[1..])
    else None
  }

  function CountsOr(n: Node, path: seq<string>): Counts {
    match CountsAt(n, path)
    case Some(c) => c
    case None => NO_COUNTS
  }

  // ---- What every node counts ----

  lemma {:induction false} WalkAt(n: Node, v: Visit, labels: seq<string>, path: seq<string>)
    ensures CountsAt(Walk(n, v, labels), path) ==
            if path <= labels then Some(Add(CountsOr(n, path), v, path == labels)) else CountsAt(n, path)
    decreases |labels|
  {
    if path != [] && labels != [] && path[0] == labels[0] {
      WalkAt(Child(n, labels[0]), v, labels[1..], path[1..]);
      NothingAt(path[1..]);
      assert path == [path[0]] + path[1..] && labels == [labels[0]] + labels[1..];
      assert path <= labels <==> path[1..] <= labels[1..];
    }
  }

  lemma NothingAt(path: seq<string>)
    ensures CountsOr(NEW_NODE, path) == NO_COUNTS && (path != [] ==> CountsAt(NEW_NODE, path).None?)
  {
  }

  ghost predicate Visited(visits: seq<Visit>, path: seq<string>) {
    path == [] || exists v :: v in visits && path <= v.labels
  }

  function ValueUnder(path: seq<string>): Visit -> nat {
    (v: Visit) => if path <= v.labels then v.Value() else 0
  }

  function SelfUnder(path: seq<string>): Visit -> nat {
    (v: Visit) => if path == v.labels then v.Value() else 0
  }

  function CpuUnder(path: seq<string>): Visit -> nat {
    (v: Visit) => if path <= v.labels then v.Cpu() else 0
  }

  function OffUnder(path: seq<string>): Visit -> nat {
    (v: Visit) => if path <= v.labels then v.Off() else 0
  }

  function OneUnder(path: seq<string>): Visit -> nat {
    (v: Visit) => if path <= v.labels then 1 else 0
  }

  function InvocationsUnder(visits: seq<Visit>, path: seq<string>): set<u64> {
    set v | v in visits && path <= v.labels :: v.invocationId
  }

  function Tally(visits: seq<Visit>, path: seq<string>): Counts {
    Counts(Sum(ValueUnder(path), visits), Sum(SelfUnder(path), visits), Sum(OneUnder(path), visits),
           InvocationsUnder(visits, path), Sum(CpuUnder(path), visits), Sum(OffUnder(path), visits))
  }

  lemma {:induction false} TallyMore(visits: seq<Visit>, path: seq<string>)
    requires visits != []
    ensures
      var front, v := visits[..|visits| - 1], visits[|visits| - 1];
      Tally(visits, path)
      == if path <= v.labels then Add(Tally(front, path), v, path == v.labels) else Tally(front, path)
  {
  }

  lemma {:induction false} NothingTallied(visits: seq<Visit>, path: seq<string>)
    requires forall v | v in visits :: !(path <= v.labels)
    ensures Tally(visits, path) == NO_COUNTS
  {
    if visits != [] {
      var front := visits[..|visits| - 1];
      assert visits[|visits| - 1] in visits && forall v | v in front :: v in visits;
      NothingTallied(front, path);
      TallyMore(visits, path);
    }
  }

  /** Every node counts exactly the samples whose cut stack begins with its path. */
  lemma {:induction false} ViewerMeaning(visits: seq<Visit>, path: seq<string>)
    ensures CountsAt(WalkAll(visits), path) == if Visited(visits, path) then Some(Tally(visits, path)) else None
  {
    if visits == [] {
      NothingAt(path);
      NothingTallied(visits, path);
    } else {
      var front, v := visits[..|visits| - 1], visits[|visits| - 1];
      ViewerMeaning(front, path);
      WalkAt(WalkAll(front), v, v.labels, path);
      TallyMore(visits, path);
      assert visits == front + [v];
      assert Visited(visits, path) <==> Visited(front, path) || path <= v.labels;
      if !Visited(front, path) { NothingTallied(front, path); }
    }
  }

  // ---- Conservation: a node's value is its self value and those of its children ----

  function ChildValue(children: map<string, Node>): string -> nat {
    name => if name in children then children[name].counts.value else 0
  }

  ghost function ChildrenTotal(children: map<string, Node>): nat {
    Sum(ChildValue(children), Enumerate(children.Keys))
  }

  ghost predicate Conserved(n: Node)
    decreases n
  {
    && n.counts.value == n.counts.selfValue + ChildrenTotal(n.children)
    && forall name | name in n.children :: Conserved(n.children[name])
  }

  lemma {:induction false} ChildReplaced(children: map<string, Node>, name: string, child: Node)
    ensures ChildrenTotal(children[name := child]) + ChildValue(children)(name)
         == ChildrenTotal(children) + child.counts.value
  {
    var more := children[name := child];
    if name in children {
      assert more.Keys == children.Keys;
      EnumerateMembers(children.Keys);
      OneChanged(ChildValue(children), ChildValue(more), Enumerate(children.Keys), name);
    } else {
      ChildAdded(children, name, child);
    }
  }

  lemma {:induction false} ChildAdded(children: map<string, Node>, name: string, child: Node)
    requires name !in children
    ensures ChildrenTotal(children[name := child]) == ChildrenTotal(children) + child.counts.value
  {
    var more := children[name := child];
    var before := Enumerate(children.Keys);
    assert more.Keys == children.Keys + {name};
    EnumerateMore(children.Keys, name);
    SumReorder(ChildValue(more), Enumerate(more.Keys), before + [name]);
    SumSnoc(ChildValue(more), before, name);
    SumUntouched(ChildValue(children), ChildValue(more), before, name);
  }

  lemma {:induction false} EnumerateMore(names: set<string>, name: string)
    requires name !in names
    ensures multiset(Enumerate(names + {name})) == multiset(Enumerate(names) + [name])
    ensures name !in Enumerate(names)
  {
    EnumerateMembers(names);
    EnumerateMembers(names + {name});
    assert name in Enumerate(names) <==> name in multiset(Enumerate(names));
  }

  lemma SumUntouched(f: string -> nat, g: string -> nat, s: seq<string>, name: string)
    requires name !in s && forall other | other != name :: f(other) == g(other)
    ensures Sum(g, s) == Sum(f, s)
  {
  }

  lemma {:induction false} OneChanged(f: string -> nat, g: string -> nat, s: seq<string>, name: string)
    requires multiset(s)[name] == 1
    requires forall other | other != name :: f(other) == g(other)
    ensures Sum(g, s) + f(name) == Sum(f, s) + g(name)
  {
    assert name in multiset(s);
    var k :| 0 <= k < |s| && s[k] == name;
    var rest := s[..k] + s[k + 1..];
    Without(s, k);
    SumRemove(f, s, k);
    SumRemove(g, s, k);
    assert multiset(rest)[name] == 0;
    assert name !in rest;
    SumUntouched(f, g, rest, name);
  }

  lemma NewConserved()
    ensures Conserved(NEW_NODE)
  {
  }

  lemma {:induction false} ChildConserves(n: Node, counts: Counts, name: string, child: Node)
    requires Conserved(n) && Conserved(child)
    requires counts.selfValue == n.counts.selfValue
    requires counts.value + ChildValue(n.children)(name) == n.counts.value + child.counts.value
    ensures Conserved(Node(counts, n.children[name := child]))
  {
    ChildReplaced(n.children, name, child);
  }

  lemma {:induction false} WalkConserves(n: Node, v: Visit, labels: seq<string>)
    requires Conserved(n)
    ensures Conserved(Walk(n, v, labels))
    decreases |labels|
  {
    if labels != [] {
      var name := labels[0];
      NewConserved();
      WalkConserves(Child(n, name), v, labels[1..]);
      ChildConserves(n, Add(n.counts, v, false), name, Walk(Child(n, name), v, labels[1..]));
    }
  }

  /** At every node of the viewer's tree. */
  lemma {:induction false} ViewerConserves(visits: seq<Visit>)
    ensures Conserved(WalkAll(visits))
  {
    if visits == [] {
      NewConserved();
    } else {
      var v := visits[|visits| - 1];
      ViewerConserves(visits[..|visits| - 1]);
      WalkConserves(WalkAll(visits[..|visits| - 1]), v, v.labels);
    }
  }

  // ---- `calculate` ----

  /** A half-open span of time. */
  datatype Window = Window(from: nat, to: nat)

  /** The interactive state that `calculate` reads and settles. */
  datatype View = View(
    functionId: u32, threads: set<u32>, time: Window,
    percentiles: Percentiles, latency: Option<Span>, metric: Metric)

  /** `eligible`, before sorting. */
  predicate Shown(w: View, i: Invocation) {
    && i.functionId == w.functionId && i.complete && i.valid && i.tid in w.threads
    && i.startNs >= w.time.from && i.startNs < w.time.to
  }

  function ShownOf(w: View, calls: seq<Invocation>): seq<Invocation> {
    if calls == [] then []
    else
      var front, i := ShownOf(w, calls[..|calls| - 1]), calls[|calls| - 1];
      if Shown(w, i) then front + [i] else front
  }

  /** The comparator of `eligible`: the difference of the durations, then that of the ids. */
  predicate ShownLe(a: Invocation, b: Invocation) {
    var order := (a.endNs - a.startNs) - (b.endNs - b.startNs);
    if order != 0 then order <= 0 else a.id - b.id <= 0
  }

  /** The name of the last function with the id, as an id-keyed map answers. */
  function LastName(functions: seq<Function>, id: u32): Option<string> {
    if functions == [] then None
    else if functions[|functions| - 1].id == id then Some(functions[|functions| - 1].demangledName)
    else LastName(functions[..|functions| - 1], id)
  }

  /** `eligible`. */
  function All(w: View, calls: seq<Invocation>): seq<Invocation> {
    Sort(ShownLe, ShownOf(w, calls))
  }

  /** The range and the window that the view settles on. */
  function Settled(w: View, calls: seq<Invocation>): (Percentiles, Span) {
    Settle(w.percentiles, w.latency, Durations(All(w, calls)))
  }

  /** The view after `calculate`. */
  function SettledView(w: View, calls: seq<Invocation>): View {
    var (range, window) := Settled(w, calls);
    w.(percentiles := range, latency := Some(window))
  }

  function Slice(all: seq<Invocation>, bounds: (nat, nat)): seq<Invocation> {
    if bounds.0 <= bounds.1 <= |all| then all[bounds.0..bounds.1] else []
  }

  function Chosen(w: View, calls: seq<Invocation>): seq<Invocation> {
    Slice(All(w, calls), ViewBounds(|All(w, calls)|, Settled(w, calls).0))
  }

  /** `metricIncludes`. */
  predicate MetricIncludes(metric: Metric, stateName: ExecutionState) {
    || metric == WallTime
    || (metric == CpuTime && stateName == OnCpu)
    || (metric == OffCpuTime && stateName == OffCpu)
  }

  /** A sample of a chosen invocation with a known stack in which the function is found. */
  function VisitOf(l: Lens, x: Sample): Option<Visit> {
    if x.invocationId !in l.ids || StackOf(l.stacks, x.stackId).None? then None
    else
      match Cut(l.target, StackOf(l.stacks, x.stackId).value.frames)
      case None => None
      case Some(labels) => Some(Visit(labels, x.invocationId, x.state, x.weightNs, MetricIncludes(l.metric, x.state)))
  }

  function Visits(l: Lens, samples: seq<Sample>): seq<Visit> {
    if samples == [] then []
    else
      var front := Visits(l, samples[..|samples| - 1]);
      match VisitOf(l, samples[|samples| - 1])
      case None => front
      case Some(v) => front + [v]
  }

  lemma {:induction false} VisitsMembers(l: Lens, samples: seq<Sample>, v: Visit)
    ensures v in Visits(l, samples) <==> exists x :: x in samples && VisitOf(l, x) == Some(v)
  {
    if samples != [] {
      var front, x := samples[..|samples| - 1], samples[|samples| - 1];
      VisitsMembers(l, front, v);
      assert samples == front + [x];
    }
  }

  function ViewLens(p: Profile, w: View): Lens {
    Lens(Target(w.functionId, LastName(p.functions, w.functionId)), p.stacks, IdSet(Chosen(w, p.invocations)), w.metric)
  }

  function Shows(v: Visit): nat {
    if v.included then 1 else 0
  }

  function CpuOf(v: Visit): nat {
    v.Cpu()
  }

  function OffOf(v: Visit): nat {
    v.Off()
  }

  /** What `calculate` returns. */
  datatype Picture = Picture(
    all: seq<Invocation>, chosen: seq<Invocation>, root: Node,
    selectedSampleCount: nat, cpu: nat, off: nat, window: Span)

  function Calculated(p: Profile, w: View): Picture {
    var visits := Visits(ViewLens(p, w), p.samples);
    Picture(All(w, p.invocations), Chosen(w, p.invocations), WalkAll(visits),
            Sum(Shows, visits), Sum(CpuOf, visits), Sum(OffOf, visits), Settled(w, p.invocations).1)
  }
}
