/** `execute_query`: which invocations a query selects, and what it aggregates over their samples. */
module Queries {
  import opened Domain
  import opened Sequences
  import opened Sorting
  import opened FlameTrie
  import opened Ranks
  import opened TreeBuilders
  import Q = Quantiles

  datatype Metric = WallTime | CpuTime | OffCpuTime

  /** `Metric::includes`. */
  predicate Includes(metric: Metric, state: ExecutionState) {
    metric.WallTime? || (metric.CpuTime? && state.OnCpu?) || (metric.OffCpuTime? && state.OffCpu?)
  }

  datatype TimeRange = TimeRange(fromNs: u64, toNs: u64) {
    predicate ContainsStart(timestampNs: u64) {
      fromNs <= timestampNs < toNs
    }
  }

  datatype Query = Query(
    functionId: u32, threads: Option<set<u32>>, time: Option<TimeRange>,
    percentile: PercentileRange, metric: Metric)

  datatype QueryError =
    | InvalidPercentileRange(range: PercentileRange)
    | InvalidTimeRange(time: TimeRange)
    | UnknownStack(stackId: u32)

  datatype QueryResult = QueryResult(
    selectedIds: seq<u64>, available: nat,
    latencyMin: Option<u64>, latencyMax: Option<u64>,
    percentileLow: Option<real>, percentileHigh: Option<real>,
    sampledCpuNs: u64, offCpuNs: u64, root: FlameNode)

  // ---- The population ----

  predicate Eligible(q: Query, i: Invocation) {
    && i.functionId == q.functionId
    && i.Counted()
    && (q.threads.Some? ==> i.tid in q.threads.value)
    && (q.time.Some? ==> q.time.value.ContainsStart(i.startNs))
  }

  function EligibleOf(q: Query, calls: seq<Invocation>): seq<Invocation> {
    if calls == [] then []
    else
      var front, i := EligibleOf(q, calls[..|calls| - 1]), calls[|calls| - 1];
      if Eligible(q, i) then front + [i] else front
  }

  /** The sort key: duration, then id. */
  predicate LatencyLe(a: Invocation, b: Invocation) {
    a.Duration() < b.Duration() || (a.Duration() == b.Duration() && a.id <= b.id)
  }

  function Candidates(q: Query, calls: seq<Invocation>): seq<Invocation> {
    Sort(LatencyLe, EligibleOf(q, calls))
  }

  function Selected(q: Query, calls: seq<Invocation>): seq<Invocation>
    requires q.percentile.Legal()
  {
    var candidates := Candidates(q, calls);
    var (start, end) := RankBounds(|candidates|, q.percentile);
    RankBoundsOrdered(|candidates|, q.percentile);
    candidates[start..end]
  }

  function IdsOf(calls: seq<Invocation>): seq<u64> {
    seq(|calls|, i requires 0 <= i < |calls| => calls[i].id)
  }

  function Durations(calls: seq<Invocation>): seq<u64> {
    seq(|calls|, i requires 0 <= i < |calls| => calls[i].Duration())
  }

  function IdSet(calls: seq<Invocation>): set<u64> {
    set i | 0 <= i < |calls| :: calls[i].id
  }

  function Least(ds: seq<u64>): Option<u64> {
    if ds == [] then None
    else
      match Least(ds[..|ds| - 1])
      case None => Some(ds[|ds| - 1])
      case Some(least) => Some(if ds[|ds| - 1] < least then ds[|ds| - 1] else least)
  }

  function Greatest(ds: seq<u64>): Option<u64> {
    if ds == [] then None
    else
      match Greatest(ds[..|ds| - 1])
      case None => Some(ds[|ds| - 1])
      case Some(greatest) => Some(if ds[|ds| - 1] >= greatest then ds[|ds| - 1] else greatest)
  }

  // ---- The samples ----

  function Labels(frames: seq<Frame>): (r: seq<string>)
    ensures |r| == |frames|
  {
    seq(|frames|, i requires 0 <= i < |frames| => frames[i].name)
  }

  /** The queried function, by id and, if it exists, by name. */
  datatype Target = Target(functionId: u32, name: Option<string>) {
    predicate Is(f: Frame) {
      f.functionId == Some(functionId) || (name.Some? && f.name == name.value)
    }
  }

  /** What the sample loop looks at. */
  datatype Lens = Lens(target: Target, stacks: seq<Stack>, ids: set<u64>, metric: Metric)

  /** The labels from the first frame of the queried function on. */
  function Cut(target: Target, frames: seq<Frame>): (r: Option<seq<string>>)
    ensures r.Some? ==> r.value != []
  {
    if frames == [] then None
    else if target.Is(frames[0]) then Some(Labels(frames))
    else Cut(target, frames[1..])
  }

  predicate Included(l: Lens, x: Sample) {
    x.invocationId in l.ids && Includes(l.metric, x.state)
  }

  function HitOf(l: Lens, x: Sample): Option<Hit> {
    if !Included(l, x) || StackOf(l.stacks, x.stackId).None? then None
    else
      match Cut(l.target, StackOf(l.stacks, x.stackId).value.frames)
      case None => None
      case Some(labels) => Some(Hit(labels, x.state, x.weightNs))
  }

  function Hits(l: Lens, samples: seq<Sample>): seq<Hit> {
    if samples == [] then []
    else
      var front := Hits(l, samples[..|samples| - 1]);
      match HitOf(l, samples[|samples| - 1])
      case None => front
      case Some(hit) => front + [hit]
  }

  /** The first included sample whose stack does not exist. */
  function Missing(l: Lens, samples: seq<Sample>): Option<u32> {
    if samples == [] then None
    else
      var earlier := Missing(l, samples[..|samples| - 1]);
      var x := samples[|samples| - 1];
      if earlier.Some? then earlier
      else if Included(l, x) && StackOf(l.stacks, x.stackId).None? then Some(x.stackId)
      else None
  }

  function CpuWeight(hit: Hit): nat {
    if hit.state.OnCpu? then hit.weight else 0
  }

  function OffWeight(hit: Hit): nat {
    if hit.state.OffCpu? then hit.weight else 0
  }

  // ---- The answer ----

  /** The name of the first function with the id. */
  function NameOf(functions: seq<Function>, id: u32): Option<string> {
    if functions == [] then None
    else if functions[0].id == id then Some(functions[0].demangledName)
    else NameOf(functions[1..], id)
  }

  function LensOf(p: Profile, q: Query): Lens
    requires q.percentile.Legal()
  {
    Lens(Target(q.functionId, NameOf(p.functions, q.functionId)), p.stacks, IdSet(Selected(q, p.invocations)), q.metric)
  }

  predicate LegalTime(q: Query) {
    q.time.Some? ==> q.time.value.fromNs < q.time.value.toNs
  }

  /** `FlameNode::empty`. */
  const EMPTY_ROOT := FlameNode("root", 0, [])

  ghost function Report(p: Profile, q: Query): QueryResult
    requires q.percentile.Legal()
  {
    var candidates, selected := Candidates(q, p.invocations), Selected(q, p.invocations);
    var hits := Hits(LensOf(p, q), p.samples);
    QueryResult(
      IdsOf(selected), |candidates|,
      Least(Durations(selected)), Greatest(Durations(selected)),
      Q.R7(Durations(candidates), q.percentile.low as real),
      Q.R7(Durations(candidates), q.percentile.high as real),
      Cap(Sum(CpuWeight, hits)), Cap(Sum(OffWeight, hits)),
      if selected == [] then EMPTY_ROOT else Finish(Build(hits), "root"))
  }

  ghost function Answer(p: Profile, q: Query): Result<QueryResult, QueryError> {
    if !q.percentile.Legal() then Err(InvalidPercentileRange(q.percentile))
    else if !LegalTime(q) then Err(InvalidTimeRange(q.time.value))
    else if Missing(LensOf(p, q), p.samples).Some? then Err(UnknownStack(Missing(LensOf(p, q), p.samples).value))
    else Ok(Report(p, q))
  }

  // ---- The procedure ----

  method Filter(q: Query, calls: seq<Invocation>) returns (r: seq<Invocation>)
    ensures r == EligibleOf(q, calls)
  {
    r := [];
    for n := 0 to |calls|
      invariant r == EligibleOf(q, calls[..n])
    {
      assert calls[..n + 1][..n] == calls[..n];
      if Eligible(q, calls[n]) { r := r + [calls[n]]; }
    }
    assert calls[..|calls|] == calls;
  }

  method SortCandidates(calls: seq<Invocation>) returns (r: seq<Invocation>)
    ensures r == Sort(LatencyLe, calls)
  {
    var a := new Invocation[|calls|](i requires 0 <= i < |calls| => calls[i]);
    assert a[..] == calls;
    SortBy(LatencyLe, a);
    r := a[..];
  }

  method Extremes(ds: seq<u64>) returns (least: Option<u64>, greatest: Option<u64>)
    ensures least == Least(ds) && greatest == Greatest(ds)
  {
    least, greatest := None, None;
    for n := 0 to |ds|
      invariant least == Least(ds[..n]) && greatest == Greatest(ds[..n])
    {
      assert ds[..n + 1][..n] == ds[..n];
      if least.None? || ds[n] < least.value { least := Some(ds[n]); }
      if greatest.None? || ds[n] >= greatest.value { greatest := Some(ds[n]); }
    }
    assert ds[..|ds|] == ds;
  }

  method StackMap(stacks: seq<Stack>) returns (m: map<u32, Stack>)
    ensures forall id: u32 :: StackOf(stacks, id) == if id in m then Some(m[id]) else None
  {
    m := map[];
    for n := 0 to |stacks|
      invariant forall id: u32 :: StackOf(stacks[..n], id) == if id in m then Some(m[id]) else None
    {
      assert stacks[..n + 1][..n] == stacks[..n];
      m := m[stacks[n].id := stacks[n]];
    }
    assert stacks[..|stacks|] == stacks;
  }

  /** A missing stack stays missing. */
  lemma {:induction false} MissingStays(l: Lens, samples: seq<Sample>, n: nat)
    requires n <= |samples| && Missing(l, samples[..n]).Some?
    ensures Missing(l, samples) == Missing(l, samples[..n])
    decreases |samples|
  {
    if n < |samples| {
      var front := samples[..|samples| - 1];
      assert front[..n] == samples[..n];
      MissingStays(l, front, n);
    } else {
      assert samples[..n] == samples;
    }
  }

  /** What the sample loop has summed up. */
  ghost predicate Sums(l: Lens, samples: seq<Sample>, tree: Trie, cpu: u64, off: u64) {
    && Missing(l, samples).None?
    && tree == Build(Hits(l, samples))
    && cpu == Cap(Sum(CpuWeight, Hits(l, samples)))
    && off == Cap(Sum(OffWeight, Hits(l, samples)))
  }

  lemma {:induction false} SumsSkip(l: Lens, samples: seq<Sample>, n: nat, tree: Trie, cpu: u64, off: u64)
    requires n < |samples| && Sums(l, samples[..n], tree, cpu, off)
    requires HitOf(l, samples[n]).None?
    requires Included(l, samples[n]) ==> StackOf(l.stacks, samples[n].stackId).Some?
    ensures Sums(l, samples[..n + 1], tree, cpu, off)
  {
    assert samples[..n + 1][..n] == samples[..n];
  }

  lemma {:induction false} SumsAdd(l: Lens, samples: seq<Sample>, n: nat, tree: Trie, cpu: u64, off: u64, hit: Hit)
    requires n < |samples| && Sums(l, samples[..n], tree, cpu, off)
    requires HitOf(l, samples[n]) == Some(hit)
    ensures Sums(l, samples[..n + 1], FlameTrie.Insert(tree, hit.labels, hit.weight),
                 SatAdd(cpu, CpuWeight(hit)), SatAdd(off, OffWeight(hit)))
  {
    var front := Hits(l, samples[..n]);
    assert samples[..n + 1][..n] == samples[..n];
    assert Hits(l, samples[..n + 1]) == front + [hit];
    assert (front + [hit])[..|front|] == front;
    SumSnoc(CpuWeight, front, hit);
    SumSnoc(OffWeight, front, hit);
  }

  /** The sample loop, which fills the tree. */
  method Aggregate(l: Lens, samples: seq<Sample>, tree: TreeBuilder) returns (r: Result<(u64, u64), QueryError>)
    requires tree.Valid() && tree.Tree() == EMPTY
    modifies tree.Repr
    ensures tree.Valid()
    ensures match Missing(l, samples)
            case Some(stackId) => r == Err(UnknownStack(stackId))
            case None => r.Ok? && Sums(l, samples, tree.Tree(), r.value.0, r.value.1)
  {
    var stacks := StackMap(l.stacks);
    var cpu: u64, off: u64 := 0, 0;
    for n := 0 to |samples|
      invariant tree.Valid() && fresh(tree.Repr - old(tree.Repr))
      invariant Sums(l, samples[..n], tree.Tree(), cpu, off)
    {
      var x := samples[n];
      if !Included(l, x) {
        SumsSkip(l, samples, n, tree.Tree(), cpu, off);
        continue;
      }
      if x.stackId !in stacks {
        assert samples[..n + 1][..n] == samples[..n];
        MissingStays(l, samples, n + 1);
        return Err(UnknownStack(x.stackId));
      }
      var labels := Cut(l.target, stacks[x.stackId].frames);
      if labels.None? {
        SumsSkip(l, samples, n, tree.Tree(), cpu, off);
        continue;
      }
      SumsAdd(l, samples, n, tree.Tree(), cpu, off, Hit(labels.value, x.state, x.weightNs));
      tree.Insert(labels.value, x.weightNs);
      match x.state {
        case OnCpu => cpu := SatAdd(cpu, x.weightNs);
        case OffCpu => off := SatAdd(off, x.weightNs);
      }
    }
    assert samples[..|samples|] == samples;
    r := Ok((cpu, off));
  }

  /** Filter, sort, cut by rank. */
  method Select(q: Query, calls: seq<Invocation>) returns (candidates: seq<Invocation>, selected: seq<Invocation>)
    requires q.percentile.Legal()
    ensures candidates == Candidates(q, calls) && selected == Selected(q, calls)
  {
    var eligible := Filter(q, calls);
    candidates := SortCandidates(eligible);
    RankBoundsOrdered(|candidates|, q.percentile);
    var bounds := RankBounds(|candidates|, q.percentile);
    selected := candidates[bounds.0..bounds.1];
  }

  /** `execute_query`. */
  method ExecuteQuery(p: Profile, q: Query) returns (r: Result<QueryResult, QueryError>)
    ensures r == Answer(p, q)
  {
    if !q.percentile.Legal() { return Err(InvalidPercentileRange(q.percentile)); }
    if q.time.Some? && q.time.value.fromNs >= q.time.value.toNs { return Err(InvalidTimeRange(q.time.value)); }
    var candidates, selected := Select(q, p.invocations);
    r := Measure(p, q, candidates, selected);
  }

  /** The tree, the totals and the bounds of a selection. */
  method Measure(p: Profile, q: Query, candidates: seq<Invocation>, selected: seq<Invocation>)
    returns (r: Result<QueryResult, QueryError>)
    requires q.percentile.Legal()
    requires candidates == Candidates(q, p.invocations) && selected == Selected(q, p.invocations)
    ensures match Missing(LensOf(p, q), p.samples)
            case Some(stackId) => r == Err(UnknownStack(stackId))
            case None => r == Ok(Report(p, q))
  {
    var l := Lens(Target(q.functionId, NameOf(p.functions, q.functionId)), p.stacks, IdSet(selected), q.metric);
    var tree := new TreeBuilder();
    var sums := Aggregate(l, p.samples, tree);
    if sums.Err? { return Err(sums.error); }
    var root := tree.Finish("root");
    var least, greatest := Extremes(Durations(selected));
    r := Ok(QueryResult(
      IdsOf(selected), |candidates|, least, greatest,
      Q.R7(Durations(candidates), q.percentile.low as real), Q.R7(Durations(candidates), q.percentile.high as real),
      sums.value.0, sums.value.1, if selected == [] then EMPTY_ROOT else root));
  }
}
