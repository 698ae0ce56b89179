/** What the answer to a query says, in terms of the query and the records of the profile alone. */
module AnswerMeaning {
  import opened Domain
  import opened Sequences
  import opened FlameTrie
  import opened Ranks
  import opened Queries
  import opened QueryTheorems
  import Q = Quantiles

  // ---- The population ----

  /** How long an invocation took. */
  function Length(i: Invocation): u64 {
    if i.startNs <= i.endNs then i.endNs - i.startNs else 0
  }

  function Lengths(calls: seq<Invocation>): seq<u64> {
    seq(|calls|, n requires 0 <= n < |calls| => Length(calls[n]))
  }

  /**
   The candidates are the complete and valid calls of the queried function, on a queried thread and started
   in the queried time (start included, end not), the shorter before the longer and the smaller id first.
   */
  lemma {:induction false} PopulationIs(q: Query, calls: seq<Invocation>)
    ensures forall i :: i in Candidates(q, calls) <==>
              && i in calls && i.functionId == q.functionId && i.complete && i.valid
              && (q.threads == None || i.tid in q.threads.value)
              && (q.time == None || q.time.value.fromNs <= i.startNs < q.time.value.toNs)
    ensures
      var c := Candidates(q, calls);
      forall a, b | 0 <= a < b < |c| ::
        Length(c[a]) < Length(c[b]) || (Length(c[a]) == Length(c[b]) && c[a].id <= c[b].id)
  {
    CandidatesAre(q, calls);
  }

  /** The selection is the block of the candidates between the two shares, each rounded up and cut at its limits. */
  lemma {:induction false} SelectionIs(q: Query, calls: seq<Invocation>)
    requires q.percentile.Legal()
    ensures
      var n := |Candidates(q, calls)|;
      var from := Min(n, Min(CeilRank(n, q.percentile.low), U64_MAX / 100));
      var to := Min(n, Min(CeilRank(n, q.percentile.high), U64_MAX / 100));
      from <= to <= n && Selected(q, calls) == Candidates(q, calls)[from..to]
  {
    var n := |Candidates(q, calls)|;
    RankIs(n, q.percentile.low);
    RankIs(n, q.percentile.high);
    RankBoundsOrdered(n, q.percentile);
  }

  // ---- Which samples count ----

  /** The metric counts time of this state. */
  predicate Measures(metric: Metric, state: ExecutionState) {
    match metric
    case WallTime => true
    case CpuTime => state == OnCpu
    case OffCpuTime => state == OffCpu
  }

  /** The frame is one of the queried function: by its id, or by the name of the first function that has it. */
  ghost predicate OfFunction(q: Query, functions: seq<Function>, f: Frame) {
    || f.functionId == Some(q.functionId)
    || exists n :: FirstWithId(functions, q.functionId, n) && f.name == functions[n].demangledName
  }

  ghost predicate FirstWithId(functions: seq<Function>, id: u32, n: int) {
    0 <= n < |functions| && functions[n].id == id && forall m | 0 <= m < n :: functions[m].id != id
  }

  /** The stack that the last record of an id holds. */
  ghost predicate LastWithId(stacks: seq<Stack>, id: u32, n: int) {
    0 <= n < |stacks| && stacks[n].id == id && forall m | n < m < |stacks| :: stacks[m].id != id
  }

  /** The first frame of the queried function. */
  ghost predicate CutAt(q: Query, functions: seq<Function>, frames: seq<Frame>, k: int) {
    0 <= k < |frames| && OfFunction(q, functions, frames[k])
      && forall i | 0 <= i < k :: !OfFunction(q, functions, frames[i])
  }

  /** From the frame on, the names begin with the path. */
  predicate Begins(frames: seq<Frame>, k: nat, path: seq<string>) {
    k + |path| <= |frames| && forall i | 0 <= i < |path| :: frames[k + i].name == path[i]
  }

  ghost predicate IsSelected(p: Profile, q: Query, id: u64)
    requires q.percentile.Legal()
  {
    exists i :: i in Selected(q, p.invocations) && i.id == id
  }

  /** The stack of the sample, cut at the queried function, begins with the path. */
  ghost predicate StackBegins(p: Profile, q: Query, x: Sample, path: seq<string>) {
    exists n, k :: LastWithId(p.stacks, x.stackId, n) && CutAt(q, p.functions, p.stacks[n].frames, k)
                   && Begins(p.stacks[n].frames, k, path)
  }

  /** The sample counts below the path: selected, measured, and its cut stack begins with the path. */
  ghost predicate CountsBelow(p: Profile, q: Query, x: Sample, path: seq<string>)
    requires q.percentile.Legal()
  {
    IsSelected(p, q, x.invocationId) && Measures(q.metric, x.state) && StackBegins(p, q, x, path)
  }

  ghost function WeightBelow(p: Profile, q: Query, path: seq<string>): Sample -> nat
    requires q.percentile.Legal()
  {
    (x: Sample) => if CountsBelow(p, q, x, path) then x.weightNs else 0
  }

  /** The same, of one state only. */
  ghost function WeightOf(p: Profile, q: Query, state: ExecutionState): Sample -> nat
    requires q.percentile.Legal()
  {
    (x: Sample) => if x.state == state && CountsBelow(p, q, x, []) then x.weightNs else 0
  }

  lemma MeasuresIs(metric: Metric, state: ExecutionState)
    ensures Includes(metric, state) <==> Measures(metric, state)
  {
  }

  lemma {:induction false} FirstName(functions: seq<Function>, id: u32, n: nat)
    requires FirstWithId(functions, id, n)
    ensures NameOf(functions, id) == Some(functions[n].demangledName)
  {
    if n > 0 { FirstName(functions[1..], id, n - 1); }
  }

  lemma {:induction false} NameFound(functions: seq<Function>, id: u32) returns (n: nat)
    requires NameOf(functions, id).Some?
    ensures FirstWithId(functions, id, n)
  {
    if functions[0].id == id { n := 0; } else {
      n := NameFound(functions[1..], id);
      n := n + 1;
      assert forall m | 1 <= m < n :: functions[m] == functions[1..][m - 1];
    }
  }

  lemma {:induction false} TargetIs(p: Profile, q: Query, f: Frame)
    requires q.percentile.Legal()
    ensures LensOf(p, q).target.Is(f) <==> OfFunction(q, p.functions, f)
  {
    if n :| FirstWithId(p.functions, q.functionId, n) { FirstName(p.functions, q.functionId, n); }
    if NameOf(p.functions, q.functionId).Some? {
      var n := NameFound(p.functions, q.functionId);
      FirstName(p.functions, q.functionId, n);
    }
  }

  lemma {:induction false} LastStack(stacks: seq<Stack>, id: u32, n: nat)
    requires LastWithId(stacks, id, n)
    ensures StackOf(stacks, id) == Some(stacks[n])
  {
    if n < |stacks| - 1 { LastStack(stacks[..|stacks| - 1], id, n); }
  }

  lemma {:induction false} StackFound(stacks: seq<Stack>, id: u32) returns (n: nat)
    requires StackOf(stacks, id).Some?
    ensures LastWithId(stacks, id, n)
  {
    n := |stacks| - 1;
    if stacks[n].id != id { n := StackFound(stacks[..n], id); }
  }

  lemma {:induction false} CutFound(target: Target, frames: seq<Frame>) returns (k: nat)
    requires Cut(target, frames).Some?
    ensures k < |frames| && target.Is(frames[k]) && forall i | 0 <= i < k :: !target.Is(frames[i])
  {
    if target.Is(frames[0]) { k := 0; } else {
      k := CutFound(target, frames[1..]);
      k := k + 1;
      assert forall i | 1 <= i < k :: frames[i] == frames[1..][i - 1];
    }
  }

  lemma LabelsBegin(frames: seq<Frame>, k: nat, path: seq<string>)
    requires k <= |frames|
    ensures path <= Labels(frames[k..]) <==> Begins(frames, k, path)
  {
    var labels := Labels(frames[k..]);
    assert forall i | 0 <= i < |labels| :: labels[i] == frames[k + i].name;
    if Begins(frames, k, path) { assert forall i | 0 <= i < |path| :: path[i] == labels[i]; }
    if path <= labels { assert forall i | 0 <= i < |path| :: labels[i] == path[i]; }
  }

  /** The first frame that the target is. */
  ghost predicate FirstIs(target: Target, frames: seq<Frame>, k: int) {
    0 <= k < |frames| && target.Is(frames[k]) && forall i | 0 <= i < k :: !target.Is(frames[i])
  }

  lemma {:induction false} TargetBegins(target: Target, frames: seq<Frame>, path: seq<string>)
    ensures
      var cut := Cut(target, frames);
      cut.Some? && path <= cut.value <==> exists k :: FirstIs(target, frames, k) && Begins(frames, k, path)
  {
    if Cut(target, frames).Some? {
      var k := CutFound(target, frames);
      CutMeaning(target, frames, k);
      LabelsBegin(frames, k, path);
      assert FirstIs(target, frames, k);
    }
    if k :| FirstIs(target, frames, k) && Begins(frames, k, path) {
      CutMeaning(target, frames, k);
      LabelsBegin(frames, k, path);
    }
  }

  lemma {:induction false} CutBegins(p: Profile, q: Query, frames: seq<Frame>, path: seq<string>)
    requires q.percentile.Legal()
    ensures
      var cut := Cut(LensOf(p, q).target, frames);
      cut.Some? && path <= cut.value <==> exists k :: CutAt(q, p.functions, frames, k) && Begins(frames, k, path)
  {
    var target := LensOf(p, q).target;
    TargetBegins(target, frames, path);
    forall f ensures target.Is(f) <==> OfFunction(q, p.functions, f) { TargetIs(p, q, f); }
    forall k ensures FirstIs(target, frames, k) <==> CutAt(q, p.functions, frames, k) {
    }
  }

  lemma SelectedIds(p: Profile, q: Query, id: u64)
    requires q.percentile.Legal()
    ensures id in LensOf(p, q).ids <==> IsSelected(p, q, id)
  {
  }

  lemma {:induction false} StackCut(p: Profile, q: Query, x: Sample, path: seq<string>)
    requires q.percentile.Legal()
    ensures
      var stack := StackOf(p.stacks, x.stackId);
      StackBegins(p, q, x, path) <==>
      && stack.Some? && Cut(LensOf(p, q).target, stack.value.frames).Some?
      && path <= Cut(LensOf(p, q).target, stack.value.frames).value
  {
    if n, k :| LastWithId(p.stacks, x.stackId, n) && CutAt(q, p.functions, p.stacks[n].frames, k)
               && Begins(p.stacks[n].frames, k, path) {
      LastStack(p.stacks, x.stackId, n);
      CutBegins(p, q, p.stacks[n].frames, path);
    }
    if StackOf(p.stacks, x.stackId).Some? {
      var n := StackFound(p.stacks, x.stackId);
      LastStack(p.stacks, x.stackId, n);
      CutBegins(p, q, p.stacks[n].frames, path);
    }
  }

  lemma {:induction false} PassesIs(p: Profile, q: Query, x: Sample, path: seq<string>)
    requires q.percentile.Legal()
    ensures Passes(LensOf(p, q), x, path) <==> CountsBelow(p, q, x, path)
  {
    SelectedIds(p, q, x.invocationId);
    MeasuresIs(q.metric, x.state);
    StackCut(p, q, x, path);
  }

  // ---- The tree and the totals ----

  /**
   At every path the answer's tree has a node exactly when some sample counts below it (the root is always
   there), and its value is the exact sum of the weights of the samples that count below it, cut at the
   largest u64. Its root is called "root".
   */
  lemma {:induction false} TreeSays(p: Profile, q: Query, path: seq<string>)
    requires q.percentile.Legal()
    ensures Report(p, q).root.name == "root"
    ensures NodeAt(Report(p, q).root, path) ==
            if path == [] || exists x :: x in p.samples && CountsBelow(p, q, x, path)
            then Some(Cap(Sum(WeightBelow(p, q, path), p.samples))) else None
  {
    var l := LensOf(p, q);
    RootIs(p, q);
    FlameMeaning(p, q, path);
    forall x ensures Passes(l, x, path) <==> CountsBelow(p, q, x, path) { PassesIs(p, q, x, path); }
    SumAgree(SampleUnder(l, path), p.samples, WeightBelow(p, q, path), p.samples);
  }

  lemma {:induction false} StateTotal(p: Profile, q: Query, state: ExecutionState, f: Hit -> nat)
    requires q.percentile.Legal() && forall hit: Hit :: f(hit) == if hit.state == state then hit.weight else 0
    ensures Sum(f, Hits(LensOf(p, q), p.samples)) == Sum(WeightOf(p, q, state), p.samples)
  {
    var l := LensOf(p, q);
    HitsSum(l, f, p.samples);
    forall n | 0 <= n < |p.samples| ensures PerHit(l, f)(p.samples[n]) == WeightOf(p, q, state)(p.samples[n]) {
      PassesIs(p, q, p.samples[n], []);
    }
    SumAgree(PerHit(l, f), p.samples, WeightOf(p, q, state), p.samples);
  }

  /** The two totals are the capped sums over the counted samples of each state. */
  ghost predicate TotalsAre(p: Profile, q: Query, r: QueryResult)
    requires q.percentile.Legal()
  {
    && r.sampledCpuNs == Cap(Sum(WeightOf(p, q, OnCpu), p.samples))
    && r.offCpuNs == Cap(Sum(WeightOf(p, q, OffCpu), p.samples))
  }

  lemma {:induction false} TotalsSay(p: Profile, q: Query)
    requires q.percentile.Legal()
    ensures TotalsAre(p, q, Report(p, q))
  {
    StateTotal(p, q, OnCpu, CpuWeight);
    StateTotal(p, q, OffCpu, OffWeight);
  }

  lemma {:induction false} NothingCounted(p: Profile, q: Query, state: ExecutionState, samples: seq<Sample>)
    requires q.percentile.Legal() && !Measures(q.metric, state)
    ensures Sum(WeightOf(p, q, state), samples) == 0
  {
    if samples != [] { NothingCounted(p, q, state, samples[..|samples| - 1]); }
  }

  lemma {:induction false} OthersEmpty(p: Profile, q: Query, r: QueryResult)
    requires q.percentile.Legal() && TotalsAre(p, q, r)
    ensures q.metric == CpuTime ==> r.offCpuNs == 0
    ensures q.metric == OffCpuTime ==> r.sampledCpuNs == 0
  {
    if q.metric == CpuTime { NothingCounted(p, q, OffCpu, p.samples); }
    if q.metric == OffCpuTime { NothingCounted(p, q, OnCpu, p.samples); }
  }

  /** A CPU answer reports no off-CPU time, and an off-CPU answer no CPU time. */
  lemma {:induction false} OtherMetricsEmpty(p: Profile, q: Query)
    requires q.percentile.Legal()
    ensures q.metric == CpuTime ==> Report(p, q).offCpuNs == 0
    ensures q.metric == OffCpuTime ==> Report(p, q).sampledCpuNs == 0
  {
    TotalsSay(p, q);
    OthersEmpty(p, q, Report(p, q));
  }

  // ---- The numbers ----

  /**
   The ids in the order of the selection, the size of the population, and as latency bounds the lengths of the
   first and of the last selected call, if there is one.
   */
  lemma {:induction false} NumbersSay(p: Profile, q: Query)
    requires q.percentile.Legal()
    ensures
      var selected, r := Selected(q, p.invocations), Report(p, q);
      && |r.selectedIds| == |selected|
      && (forall n | 0 <= n < |selected| :: r.selectedIds[n] == selected[n].id)
      && r.available == |Candidates(q, p.invocations)|
      && r.latencyMin == (if selected == [] then None else Some(Length(selected[0])))
      && r.latencyMax == (if selected == [] then None else Some(Length(selected[|selected| - 1])))
  {
    if Selected(q, p.invocations) != [] { LatencyBounds(p, q); }
  }

  /**
   The two percentile values are the R-7 quantiles of the sorted durations of the whole population at the two
   ends of the asked range; of an empty population there are none.
   */
  lemma {:induction false} PercentilesSay(p: Profile, q: Query)
    requires q.percentile.Legal()
    ensures
      var ds, r := Lengths(Candidates(q, p.invocations)), Report(p, q);
      && Q.IsR7(ds, q.percentile.low as real, r.percentileLow)
      && Q.IsR7(ds, q.percentile.high as real, r.percentileHigh)
  {
    var ds := Durations(Candidates(q, p.invocations));
    assert ds == Lengths(Candidates(q, p.invocations));
    Q.R7Value(ds, q.percentile.low as real);
    Q.R7Value(ds, q.percentile.high as real);
  }

  // ---- The errors ----

  /** The sample is selected and measured, and no stack has its id. */
  ghost predicate Stackless(p: Profile, q: Query, x: Sample)
    requires q.percentile.Legal()
  {
    && IsSelected(p, q, x.invocationId) && Measures(q.metric, x.state)
    && forall n | 0 <= n < |p.stacks| :: p.stacks[n].id != x.stackId
  }

  lemma {:induction false} NoStack(stacks: seq<Stack>, id: u32)
    ensures StackOf(stacks, id).None? <==> forall n | 0 <= n < |stacks| :: stacks[n].id != id
  {
    if stacks != [] { NoStack(stacks[..|stacks| - 1], id); }
  }

  lemma StacklessIs(p: Profile, q: Query, x: Sample)
    requires q.percentile.Legal()
    ensures Stackless(p, q, x) <==> Included(LensOf(p, q), x) && StackOf(p.stacks, x.stackId).None?
  {
    SelectedIds(p, q, x.invocationId);
    MeasuresIs(q.metric, x.state);
    NoStack(p.stacks, x.stackId);
  }

  lemma {:induction false} NoneMissing(p: Profile, q: Query, samples: seq<Sample>)
    requires q.percentile.Legal() && forall n | 0 <= n < |samples| :: !Stackless(p, q, samples[n])
    ensures Missing(LensOf(p, q), samples) == None
  {
    if samples != [] {
      NoneMissing(p, q, samples[..|samples| - 1]);
      StacklessIs(p, q, samples[|samples| - 1]);
    }
  }

  lemma {:induction false} FirstMissing(p: Profile, q: Query, samples: seq<Sample>, n: nat)
    requires q.percentile.Legal() && n < |samples| && Stackless(p, q, samples[n])
    requires forall m | 0 <= m < n :: !Stackless(p, q, samples[m])
    ensures Missing(LensOf(p, q), samples) == Some(samples[n].stackId)
    decreases |samples|
  {
    var front := samples[..|samples| - 1];
    if n < |front| {
      FirstMissing(p, q, front, n);
    } else {
      NoneMissing(p, q, front);
      StacklessIs(p, q, samples[n]);
    }
  }

  /** Which error a query fails with: its range, its time, or the first counted sample without a stack. */
  lemma {:induction false} ErrorsSay(p: Profile, q: Query)
    ensures
      var legal := q.percentile.low < q.percentile.high <= 100;
      var timely := q.time == None || q.time.value.fromNs < q.time.value.toNs;
      && (!legal ==> Answer(p, q) == Err(InvalidPercentileRange(q.percentile)))
      && (legal && !timely ==> Answer(p, q) == Err(InvalidTimeRange(q.time.value)))
      && (legal && timely ==>
            (forall n | 0 <= n < |p.samples| && Stackless(p, q, p.samples[n])
                        && (forall m | 0 <= m < n :: !Stackless(p, q, p.samples[m])) ::
               Answer(p, q) == Err(UnknownStack(p.samples[n].stackId))))
      && (legal && timely && (forall n | 0 <= n < |p.samples| :: !Stackless(p, q, p.samples[n])) ==>
            Answer(p, q) == Ok(Report(p, q)))
  {
    if q.percentile.Legal() && LegalTime(q) {
      forall n | 0 <= n < |p.samples| && Stackless(p, q, p.samples[n])
                 && (forall m | 0 <= m < n :: !Stackless(p, q, p.samples[m]))
        ensures Answer(p, q) == Err(UnknownStack(p.samples[n].stackId))
      {
        FirstMissing(p, q, p.samples, n);
      }
      if forall n | 0 <= n < |p.samples| :: !Stackless(p, q, p.samples[n]) { NoneMissing(p, q, p.samples); }
    }
  }
}
