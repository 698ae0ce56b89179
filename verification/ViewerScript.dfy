/** `calculate` as it is written: a mutable state, a node tree updated in place, and running totals. */
module ViewerScript {
  import opened Domain
  import opened Sequences
  import opened Sorting
  import opened Quantiles
  import opened LatencyWindow
  import opened Queries
  import opened Loading
  import V = Viewer

  /** A node of the viewer's tree, which owns the nodes below it. */
  class ViewNode {
    var counts: V.Counts
    var children: map<string, ViewNode>
    ghost var Repr: set<object>

    ghost predicate Valid()
      reads this, Repr
      decreases Repr
    {
      && this in Repr
      && (forall name | name in children :: Owns(children[name]))
      && Apart()
    }

    ghost predicate Owns(child: ViewNode)
      requires this in Repr
      reads this, Repr
      decreases Repr, 0
    {
      child in Repr && child in child.Repr && child.Repr <= Repr && this !in child.Repr && child.Valid()
    }

    ghost predicate Apart()
      requires this in Repr && forall name | name in children :: children[name] in Repr
      reads this, Repr
    {
      forall a, b | a in children && b in children && a != b :: children[a].Repr !! children[b].Repr
    }

    /** `node`. */
    constructor ()
      ensures Valid() && fresh(Repr) && Tree() == V.NEW_NODE
    {
      counts, children := V.NO_COUNTS, map[];
      Repr := {this};
    }

    ghost function Tree(): V.Node
      requires Valid()
      reads this, Repr
      decreases Repr, 1
    {
      V.Node(counts, Subtrees())
    }

    ghost function Subtrees(): map<string, V.Node>
      requires Valid()
      reads this, Repr
      decreases Repr, 0
    {
      map name | name in children :: assert Owns(children[name]); children[name].Tree()
    }

    /** The child of a name, or a new node that shares nothing with the others. */
    method ChildFor(name: string) returns (child: ViewNode)
      requires Valid()
      ensures child.Valid() && child.Tree() == V.Child(Tree(), name)
      ensures this !in child.Repr && (child.Repr <= Repr || fresh(child.Repr))
      ensures forall other | other in children && other != name :: children[other].Repr !! child.Repr
    {
      if name in children {
        child := children[name];
        assert Owns(child);
      } else {
        child := new ViewNode();
        assert forall other | other in children :: Owns(children[other]);
      }
    }

    /** The child, changed or new, takes its place; the others have kept theirs. */
    method Adopt(name: string, child: ViewNode, ghost before: map<string, V.Node>)
      requires this in Repr && child.Valid() && child in child.Repr && this !in child.Repr
      requires before.Keys == children.Keys
      requires forall other | other in children && other != name ::
                 Owns(children[other]) && children[other].Repr !! child.Repr && children[other].Tree() == before[other]
      requires forall a, b | a in children && b in children && a != b && a != name && b != name ::
                 children[a].Repr !! children[b].Repr
      modifies this`children, this`Repr
      ensures Valid() && Repr == old(Repr) + child.Repr
      ensures Subtrees() == before[name := child.Tree()]
    {
      ghost var after := before[name := child.Tree()];
      children, Repr := children[name := child], Repr + child.Repr;
      forall key | key in children ensures Owns(children[key]) && children[key].Tree() == after[key] {
        if key != name {
          assert old(Owns(children[key]));
          assert old(allocated(children[key])) && children[key].Repr == old(children[key].Repr);
        }
      }
      SubtreesAre(after);
    }

    lemma SubtreesAre(trees: map<string, V.Node>)
      requires Valid() && trees.Keys == children.Keys
      requires forall key | key in children :: Owns(children[key]) && children[key].Tree() == trees[key]
      ensures Subtrees() == trees
    {
    }

    /** What every node on the way counts; the last one also gets the self value. */
    method Touch(v: V.Visit, last: bool)
      requires Valid()
      modifies this`counts
      ensures Valid() && counts == V.Add(old(counts), v, last) && Subtrees() == old(Subtrees())
    {
      var c := counts;
      c := c.(sampleCount := c.sampleCount + 1, invocations := c.invocations + {v.invocationId});
      if v.state.OnCpu? { c := c.(cpu := c.cpu + v.weight); } else { c := c.(off := c.off + v.weight); }
      if v.included {
        c := c.(value := c.value + v.weight);
        if last { c := c.(selfValue := c.selfValue + v.weight); }
      }
      counts := c;
      forall key | key in children ensures Owns(children[key]) && children[key].Tree() == old(children[key].Tree()) {
        assert old(Owns(children[key]));
      }
    }

    method Descend(v: V.Visit, labels: seq<string>)
      requires Valid() && labels != []
      modifies Repr
      ensures Valid() && fresh(Repr - old(Repr)) && counts == old(counts)
      ensures Subtrees() == old(Subtrees())[labels[0] := V.Walk(V.Child(old(Tree()), labels[0]), v, labels[1..])]
      decreases |labels|, 0
    {
      ghost var before := Subtrees();
      var child := ChildFor(labels[0]);
      child.Walk(v, labels[1..]);
      forall other | other in children && other != labels[0]
        ensures Owns(children[other]) && children[other].Repr !! child.Repr
        ensures children[other].Tree() == before[other]
      {
        Untouched(children[other]);
      }
      Adopt(labels[0], child, before);
    }

    /** A child in which nothing has changed is owned as before and has the tree it had. */
    twostate lemma Untouched(child: ViewNode)
      requires this in Repr && old(this in Repr) && Repr == old(Repr)
      requires old(Owns(child)) && unchanged(child) && unchanged(old(child.Repr))
      ensures Owns(child) && child.Repr == old(child.Repr) && child.Tree() == old(child.Tree())
    {
    }

    /** The descent of one sample. */
    method Walk(v: V.Visit, labels: seq<string>)
      requires Valid()
      modifies Repr
      ensures Valid() && fresh(Repr - old(Repr))
      ensures Tree() == V.Walk(old(Tree()), v, labels)
      decreases |labels|, 1
    {
      Touch(v, labels == []);
      if labels != [] { Descend(v, labels); }
    }
  }

  // ---- The sample loop ----

  ghost predicate Painted(visits: seq<V.Visit>, root: V.Node, count: nat, cpu: nat, off: nat) {
    && root == V.WalkAll(visits)
    && count == Sum(V.Shows, visits) && cpu == Sum(V.CpuOf, visits) && off == Sum(V.OffOf, visits)
  }

  lemma {:induction false} PaintedFurther(visits: seq<V.Visit>, v: V.Visit, root: V.Node, count: nat, cpu: nat,
                                          off: nat)
    requires Painted(visits, root, count, cpu, off)
    ensures Painted(visits + [v], V.Walk(root, v, v.labels), count + V.Shows(v), cpu + v.Cpu(), off + v.Off())
  {
    assert (visits + [v])[..|visits|] == visits;
  }

  lemma {:induction false} PaintedSkip(l: Lens, samples: seq<Sample>, n: nat, root: V.Node, count: nat, cpu: nat,
                                       off: nat)
    requires n < |samples| && Painted(V.Visits(l, samples[..n]), root, count, cpu, off)
    requires V.VisitOf(l, samples[n]).None?
    ensures Painted(V.Visits(l, samples[..n + 1]), root, count, cpu, off)
  {
    assert samples[..n + 1][..n] == samples[..n];
  }

  lemma {:induction false} PaintedAdd(l: Lens, samples: seq<Sample>, n: nat, v: V.Visit, root: V.Node, count: nat,
                                      cpu: nat, off: nat)
    requires n < |samples| && Painted(V.Visits(l, samples[..n]), root, count, cpu, off)
    requires V.VisitOf(l, samples[n]) == Some(v)
    ensures Painted(V.Visits(l, samples[..n + 1]), V.Walk(root, v, v.labels), count + V.Shows(v), cpu + v.Cpu(),
                    off + v.Off())
  {
    assert samples[..n + 1][..n] == samples[..n];
    PaintedFurther(V.Visits(l, samples[..n]), v, root, count, cpu, off);
  }

  /** One turn of the sample loop: the tree takes the sample if it is of a chosen invocation and can be cut. */
  method PaintOne(l: Lens, stacks: map<u32, Stack>, x: Sample, root: ViewNode) returns (v: Option<V.Visit>)
    requires root.Valid()
    requires forall id: u32 :: StackOf(l.stacks, id) == if id in stacks then Some(stacks[id]) else None
    modifies root.Repr
    ensures root.Valid() && fresh(root.Repr - old(root.Repr))
    ensures v == V.VisitOf(l, x)
    ensures root.Tree() == if v.Some? then V.Walk(old(root.Tree()), v.value, v.value.labels) else old(root.Tree())
  {
    if x.invocationId !in l.ids || x.stackId !in stacks { return None; }
    var labels := Cut(l.target, stacks[x.stackId].frames);
    if labels.None? { return None; }
    v := Some(V.Visit(labels.value, x.invocationId, x.state, x.weightNs, V.MetricIncludes(l.metric, x.state)));
    root.Walk(v.value, v.value.labels);
  }

  /** The sample loop. */
  method Paint(l: Lens, samples: seq<Sample>, root: ViewNode) returns (count: nat, cpu: nat, off: nat)
    requires root.Valid() && root.Tree() == V.NEW_NODE
    modifies root.Repr
    ensures root.Valid() && Painted(V.Visits(l, samples), root.Tree(), count, cpu, off)
  {
    var stacks := StackMap(l.stacks);
    count, cpu, off := 0, 0, 0;
    for n := 0 to |samples|
      invariant root.Valid() && fresh(root.Repr - old(root.Repr))
      invariant Painted(V.Visits(l, samples[..n]), root.Tree(), count, cpu, off)
    {
      ghost var tree := root.Tree();
      var v := PaintOne(l, stacks, samples[n], root);
      if v.None? {
        PaintedSkip(l, samples, n, tree, count, cpu, off);
      } else {
        PaintedAdd(l, samples, n, v.value, tree, count, cpu, off);
        if v.value.included { count := count + 1; }
        if v.value.state.OnCpu? { cpu := cpu + v.value.weight; } else { off := off + v.value.weight; }
      }
    }
    assert samples[..|samples|] == samples;
  }

  // ---- The state ----

  class ViewState {
    var functionId: u32
    var threads: set<u32>
    var time: V.Window
    var percentiles: Percentiles
    var latency: Option<Span>
    var metric: Metric

    /** The initial state: defaults are filled in, the time is clamped, and an empty time is reset. */
    constructor (p: Profile, q: Query)
      requires q.percentile.Legal()
      ensures View() == LoadedView(p, q)
    {
      var bounds := Bounds(p);
      var from := Clamp(bounds, if q.time.Some? then q.time.value.fromNs else bounds.from);
      var to := Clamp(bounds, if q.time.Some? then q.time.value.toNs else bounds.to);
      if from >= to { from, to := bounds.from, bounds.to; }
      functionId, time, metric := q.functionId, V.Window(from, to), q.metric;
      threads := if q.threads.Some? then q.threads.value else AllThreads(p);
      percentiles, latency := Asked(q.percentile), None;
    }

    function View(): V.View
      reads this
    {
      V.View(functionId, threads, time, percentiles, latency, metric)
    }

    /** `eligible`. */
    method Eligible(calls: seq<Invocation>) returns (all: seq<Invocation>)
      ensures all == V.All(View(), calls)
    {
      var shown: seq<Invocation> := [];
      for n := 0 to |calls|
        invariant shown == V.ShownOf(View(), calls[..n])
      {
        assert calls[..n + 1][..n] == calls[..n];
        if V.Shown(View(), calls[n]) { shown := shown + [calls[n]]; }
      }
      assert calls[..|calls|] == calls;
      var a := new Invocation[|shown|](i requires 0 <= i < |shown| => shown[i]);
      assert a[..] == shown;
      SortBy(V.ShownLe, a);
      all := a[..];
    }

    /** `syncLatencyWindow`. */
    method SyncLatencyWindow(durations: seq<u64>) returns (window: Span)
      modifies this`percentiles, this`latency
      ensures (percentiles, window) == Settle(old(percentiles), old(latency), durations)
      ensures latency == Some(window)
    {
      if durations == [] {
        latency := Some(Span(0.0, 0.0));
        return Span(0.0, 0.0);
      }
      if latency.None? {
        latency := Some(Span(DurationAtPercentile(durations, percentiles.low),
                             DurationAtPercentile(durations, percentiles.high)));
      }
      var last := durations[|durations| - 1] as real;
      var low := Largest(durations[0] as real, Smallest(last, latency.value.low));
      var high := Largest(low, Smallest(last, latency.value.high));
      window := Span(low, high);
      latency := Some(window);
      if low < high {
        var from := PercentileAtDuration(durations, low, LowEdge);
        var to := PercentileAtDuration(durations, high, HighEdge);
        percentiles := Percentiles(from, to);
      }
    }

    /** `calculate`. */
    method Calculate(p: Profile)
      returns (all: seq<Invocation>, chosen: seq<Invocation>, root: ViewNode, count: nat, cpu: nat, off: nat,
               window: Span)
      modifies this`percentiles, this`latency
      ensures View() == V.SettledView(old(View()), p.invocations)
      ensures fresh(root) && root.Valid()
      ensures V.Picture(all, chosen, root.Tree(), count, cpu, off, window) == V.Calculated(p, old(View()))
    {
      all := Eligible(p.invocations);
      window := SyncLatencyWindow(Durations(all));
      var bounds := ViewBounds(|all|, percentiles);
      chosen := if bounds.0 <= bounds.1 then all[bounds.0..bounds.1] else [];
      root := new ViewNode();
      var l := Lens(Target(functionId, V.LastName(p.functions, functionId)), p.stacks, IdSet(chosen), metric);
      count, cpu, off := Paint(l, p.samples, root);
    }
  }
}
