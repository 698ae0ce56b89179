/** What the viewer shows, in terms of its state and the records of the profile alone. */
module PictureMeaning {
  import opened Domain
  import opened Sequences
  import opened Sorting
  import opened LatencyWindow
  import opened Queries
  import opened QueryTheorems
  import opened Viewer
  import opened AnswerMeaning

  // ---- Which samples are drawn ----

  ghost predicate LastFunction(functions: seq<Function>, id: u32, n: int) {
    0 <= n < |functions| && functions[n].id == id && forall m | n < m < |functions| :: functions[m].id != id
  }

  /** The frame is one of the viewed function: by its id, or by the name of the last function that has it. */
  ghost predicate OfViewed(w: View, functions: seq<Function>, f: Frame) {
    || f.functionId == Some(w.functionId)
    || exists n :: LastFunction(functions, w.functionId, n) && f.name == functions[n].demangledName
  }

  ghost predicate ViewedAt(w: View, functions: seq<Function>, frames: seq<Frame>, k: int) {
    0 <= k < |frames| && OfViewed(w, functions, frames[k])
      && forall i | 0 <= i < k :: !OfViewed(w, functions, frames[i])
  }

  ghost predicate IsChosen(p: Profile, w: View, id: u64) {
    exists i :: i in Chosen(w, p.invocations) && i.id == id
  }

  /** The sample is of a chosen call, and its stack, cut at the viewed function, begins with the path. */
  ghost predicate Drawn(p: Profile, w: View, x: Sample, path: seq<string>) {
    && IsChosen(p, w, x.invocationId)
    && exists n, k :: LastWithId(p.stacks, x.stackId, n) && ViewedAt(w, p.functions, p.stacks[n].frames, k)
                      && Begins(p.stacks[n].frames, k, path)
  }

  /** The path is all of the cut stack. */
  ghost predicate DrawnWhole(p: Profile, w: View, x: Sample, path: seq<string>) {
    && IsChosen(p, w, x.invocationId)
    && exists n, k :: LastWithId(p.stacks, x.stackId, n) && ViewedAt(w, p.functions, p.stacks[n].frames, k)
                      && Begins(p.stacks[n].frames, k, path) && k + |path| == |p.stacks[n].frames|
  }

  lemma {:induction false} LastIs(functions: seq<Function>, id: u32, n: nat)
    requires LastFunction(functions, id, n)
    ensures LastName(functions, id) == Some(functions[n].demangledName)
  {
    if n < |functions| - 1 { LastIs(functions[..|functions| - 1], id, n); }
  }

  lemma {:induction false} LastFound(functions: seq<Function>, id: u32) returns (n: nat)
    requires LastName(functions, id).Some?
    ensures LastFunction(functions, id, n)
  {
    n := |functions| - 1;
    if functions[n].id != id { n := LastFound(functions[..n], id); }
  }

  lemma {:induction false} ViewedIs(p: Profile, w: View, f: Frame)
    ensures ViewLens(p, w).target.Is(f) <==> OfViewed(w, p.functions, f)
  {
    if n :| LastFunction(p.functions, w.functionId, n) { LastIs(p.functions, w.functionId, n); }
    if LastName(p.functions, w.functionId).Some? {
      var n := LastFound(p.functions, w.functionId);
      LastIs(p.functions, w.functionId, n);
    }
  }

  lemma {:induction false} ViewedBegins(p: Profile, w: View, frames: seq<Frame>, path: seq<string>)
    ensures
      var cut := Cut(ViewLens(p, w).target, frames);
      && (cut.Some? && path <= cut.value <==>
            exists k :: ViewedAt(w, p.functions, frames, k) && Begins(frames, k, path))
      && (cut == Some(path) <==>
            exists k :: ViewedAt(w, p.functions, frames, k) && Begins(frames, k, path) && k + |path| == |frames|)
  {
    var target := ViewLens(p, w).target;
    TargetBegins(target, frames, path);
    forall f ensures target.Is(f) <==> OfViewed(w, p.functions, f) { ViewedIs(p, w, f); }
    forall k ensures FirstIs(target, frames, k) <==> ViewedAt(w, p.functions, frames, k) {
    }
    if Cut(target, frames).Some? {
      var k := CutFound(target, frames);
      CutMeaning(target, frames, k);
      assert FirstIs(target, frames, k);
      assert forall j | ViewedAt(w, p.functions, frames, j) :: j == k;
      LabelsBegin(frames, k, path);
      assert |Cut(target, frames).value| == |frames| - k;
      if path <= Cut(target, frames).value && |path| == |frames| - k { assert path == Cut(target, frames).value; }
    } else {
      NoCut(target, frames);
    }
  }

  lemma {:induction false} DrawnIs(p: Profile, w: View, x: Sample, path: seq<string>)
    ensures
      var v := VisitOf(ViewLens(p, w), x);
      && (Drawn(p, w, x, path) <==> v.Some? && path <= v.value.labels)
      && (DrawnWhole(p, w, x, path) <==> v.Some? && path == v.value.labels)
      && (v.Some? ==> v.value.invocationId == x.invocationId && v.value.state == x.state && v.value.weight == x.weightNs
                      && (v.value.included <==> Measures(w.metric, x.state)))
  {
    if n :| LastWithId(p.stacks, x.stackId, n) {
      LastStack(p.stacks, x.stackId, n);
      ViewedBegins(p, w, p.stacks[n].frames, path);
    }
    if StackOf(p.stacks, x.stackId).Some? {
      var n := StackFound(p.stacks, x.stackId);
      LastStack(p.stacks, x.stackId, n);
      ViewedBegins(p, w, p.stacks[n].frames, path);
      forall m | LastWithId(p.stacks, x.stackId, m) ensures m == n {
      }
    }
  }

  // ---- The numbers of a picture ----

  /** A sum over the samples drawn below a path. */
  ghost function OverDrawn(p: Profile, w: View, path: seq<string>, f: Sample -> nat): Sample -> nat {
    (x: Sample) => if Drawn(p, w, x, path) then f(x) else 0
  }

  /** The measured weight of the samples whose whole cut stack is the path. */
  ghost function OverWhole(p: Profile, w: View, path: seq<string>): Sample -> nat {
    (x: Sample) => if DrawnWhole(p, w, x, path) && Measures(w.metric, x.state) then x.weightNs else 0
  }

  function One(): Sample -> nat {
    (x: Sample) => 1
  }

  function OneMeasured(metric: Metric): Sample -> nat {
    (x: Sample) => if Measures(metric, x.state) then 1 else 0
  }

  function Measured(metric: Metric): Sample -> nat {
    (x: Sample) => if Measures(metric, x.state) then x.weightNs else 0
  }

  function InState(state: ExecutionState): Sample -> nat {
    (x: Sample) => if x.state == state then x.weightNs else 0
  }

  lemma {:induction false} DrawnSum(p: Profile, w: View, f: Sample -> nat, g: Visit -> nat, samples: seq<Sample>)
    requires forall x: Sample :: Part(g, VisitOf(ViewLens(p, w), x)) == f(x)
    ensures Sum(g, Visits(ViewLens(p, w), samples)) == Sum(f, samples)
  {
    if samples != [] {
      var front, x := samples[..|samples| - 1], samples[|samples| - 1];
      DrawnSum(p, w, f, g, front);
      var v := VisitOf(ViewLens(p, w), x);
      if v.Some? { SumSnoc(g, Visits(ViewLens(p, w), front), v.value); }
    }
  }

  /**
   The number of samples counts those of the metric, the two totals all samples of a state whatever the
   metric, each over the drawn samples.
   */
  lemma {:induction false} TotalsShow(p: Profile, w: View)
    ensures
      var picture := Calculated(p, w);
      && picture.selectedSampleCount == Sum(OverDrawn(p, w, [], OneMeasured(w.metric)), p.samples)
      && picture.cpu == Sum(OverDrawn(p, w, [], InState(OnCpu)), p.samples)
      && picture.off == Sum(OverDrawn(p, w, [], InState(OffCpu)), p.samples)
  {
    forall x { DrawnIs(p, w, x, []); }
    DrawnSum(p, w, OverDrawn(p, w, [], OneMeasured(w.metric)), Shows, p.samples);
    DrawnSum(p, w, OverDrawn(p, w, [], InState(OnCpu)), CpuOf, p.samples);
    DrawnSum(p, w, OverDrawn(p, w, [], InState(OffCpu)), OffOf, p.samples);
  }

  lemma {:induction false} VisitedDrawn(p: Profile, w: View, path: seq<string>, samples: seq<Sample>)
    ensures Visited(Visits(ViewLens(p, w), samples), path) <==>
              path == [] || exists x :: x in samples && Drawn(p, w, x, path)
  {
    var l := ViewLens(p, w);
    if v :| v in Visits(l, samples) && path <= v.labels {
      VisitsMembers(l, samples, v);
      var x :| x in samples && VisitOf(l, x) == Some(v);
      DrawnIs(p, w, x, path);
    }
    if x :| x in samples && Drawn(p, w, x, path) {
      DrawnIs(p, w, x, path);
      VisitsMembers(l, samples, VisitOf(l, x).value);
    }
  }

  lemma {:induction false} InvocationsDrawn(p: Profile, w: View, path: seq<string>, samples: seq<Sample>)
    ensures InvocationsUnder(Visits(ViewLens(p, w), samples), path)
         == set x | x in samples && Drawn(p, w, x, path) :: x.invocationId
  {
    var l := ViewLens(p, w);
    var drawn := set x | x in samples && Drawn(p, w, x, path) :: x.invocationId;
    forall id | id in InvocationsUnder(Visits(l, samples), path) ensures id in drawn {
      var v :| v in Visits(l, samples) && path <= v.labels && v.invocationId == id;
      VisitsMembers(l, samples, v);
      var x :| x in samples && VisitOf(l, x) == Some(v);
      DrawnIs(p, w, x, path);
    }
    forall id | id in drawn ensures id in InvocationsUnder(Visits(l, samples), path) {
      var x :| x in samples && Drawn(p, w, x, path) && x.invocationId == id;
      DrawnIs(p, w, x, path);
      VisitsMembers(l, samples, VisitOf(l, x).value);
    }
  }

  /** What a node of the picture's tree counts, over the samples drawn below it. */
  ghost predicate NodeShows(p: Profile, w: View, path: seq<string>, c: Counts) {
    && c.value == Sum(OverDrawn(p, w, path, Measured(w.metric)), p.samples)
    && c.selfValue == Sum(OverWhole(p, w, path), p.samples)
    && c.sampleCount == Sum(OverDrawn(p, w, path, One()), p.samples)
    && c.cpu == Sum(OverDrawn(p, w, path, InState(OnCpu)), p.samples)
    && c.off == Sum(OverDrawn(p, w, path, InState(OffCpu)), p.samples)
    && c.invocations == (set x | x in p.samples && Drawn(p, w, x, path) :: x.invocationId)
  }

  lemma {:induction false} WeightsShow(p: Profile, w: View, path: seq<string>)
    ensures Sum(ValueUnder(path), Visits(ViewLens(p, w), p.samples))
         == Sum(OverDrawn(p, w, path, Measured(w.metric)), p.samples)
    ensures Sum(SelfUnder(path), Visits(ViewLens(p, w), p.samples)) == Sum(OverWhole(p, w, path), p.samples)
  {
    forall x { DrawnIs(p, w, x, path); }
    DrawnSum(p, w, OverDrawn(p, w, path, Measured(w.metric)), ValueUnder(path), p.samples);
    DrawnSum(p, w, OverWhole(p, w, path), SelfUnder(path), p.samples);
  }

  lemma {:induction false} CountShows(p: Profile, w: View, path: seq<string>)
    ensures Sum(OneUnder(path), Visits(ViewLens(p, w), p.samples)) == Sum(OverDrawn(p, w, path, One()), p.samples)
  {
    forall x { DrawnIs(p, w, x, path); }
    DrawnSum(p, w, OverDrawn(p, w, path, One()), OneUnder(path), p.samples);
  }

  lemma {:induction false} StatesShow(p: Profile, w: View, path: seq<string>)
    ensures Sum(CpuUnder(path), Visits(ViewLens(p, w), p.samples))
         == Sum(OverDrawn(p, w, path, InState(OnCpu)), p.samples)
    ensures Sum(OffUnder(path), Visits(ViewLens(p, w), p.samples))
         == Sum(OverDrawn(p, w, path, InState(OffCpu)), p.samples)
  {
    forall x { DrawnIs(p, w, x, path); }
    DrawnSum(p, w, OverDrawn(p, w, path, InState(OnCpu)), CpuUnder(path), p.samples);
    DrawnSum(p, w, OverDrawn(p, w, path, InState(OffCpu)), OffUnder(path), p.samples);
  }

  /** The picture's tree has a node exactly for the paths that samples are drawn below, and the root. */
  lemma {:induction false} NodesShow(p: Profile, w: View, path: seq<string>)
    ensures
      var c := CountsAt(Calculated(p, w).root, path);
      && (c.Some? <==> path == [] || exists x :: x in p.samples && Drawn(p, w, x, path))
      && (c.Some? ==> NodeShows(p, w, path, c.value))
  {
    var visits := Visits(ViewLens(p, w), p.samples);
    ViewerMeaning(visits, path);
    VisitedDrawn(p, w, path, p.samples);
    InvocationsDrawn(p, w, path, p.samples);
    WeightsShow(p, w, path);
    CountShows(p, w, path);
    StatesShow(p, w, path);
  }

  /** What a view lists, whatever its state: the complete valid calls that it admits, the shorter before the longer. */
  lemma {:induction false} ListShows(p: Profile, w: View)
    ensures forall i :: i in Calculated(p, w).all <==>
              && i in p.invocations && i.functionId == w.functionId && i.complete && i.valid && i.tid in w.threads
              && w.time.from <= i.startNs < w.time.to
    ensures
      var all := Calculated(p, w).all;
      forall a, b | 0 <= a < b < |all| ::
        all[a].endNs - all[a].startNs < all[b].endNs - all[b].startNs
        || (all[a].endNs - all[a].startNs == all[b].endNs - all[b].startNs && all[a].id <= all[b].id)
  {
    ShownIn(w, p.invocations);
    ShownOrders();
    SortSorted(ShownLe, ShownOf(w, p.invocations));
    SortMembers(ShownLe, ShownOf(w, p.invocations));
    Members(All(w, p.invocations), ShownOf(w, p.invocations));
    var all := All(w, p.invocations);
    forall a, b | 0 <= a < b < |all| ensures ShownLe(all[a], all[b]) {
    }
  }

  lemma {:induction false} ShownIn(w: View, calls: seq<Invocation>)
    ensures forall i :: i in ShownOf(w, calls) <==> i in calls && Shown(w, i)
  {
    if calls != [] {
      ShownIn(w, calls[..|calls| - 1]);
      assert calls == calls[..|calls| - 1] + [calls[|calls| - 1]];
    }
  }

  lemma ShownOrders()
    ensures TotalPreorder(ShownLe)
  {
  }

  /** The chosen calls are the block of the list between the ranks of the settled range. */
  lemma {:induction false} ChoiceShows(p: Profile, w: View)
    ensures
      var all, range := Calculated(p, w).all, SettledView(w, p.invocations).percentiles;
      var from, to := ViewRank(|all|, range.low), ViewRank(|all|, range.high);
      && from <= |all| && to <= |all|
      && Calculated(p, w).chosen == if from <= to then all[from..to] else []
  {
  }
}
