/** What the answers to queries promise. */
module QueryTheorems {
  import opened Domain
  import opened Sequences
  import opened Sorting
  import opened FlameTrie
  import opened Ranks
  import Q = Quantiles
  import opened Queries

  // ---- The selected population ----

  lemma LatencyOrders()
    ensures TotalPreorder(LatencyLe)
  {
  }

  /** The candidates are exactly the eligible invocations, in order of duration. */
  lemma {:induction false} CandidatesAre(q: Query, calls: seq<Invocation>)
    ensures Sorted(LatencyLe, Candidates(q, calls))
    ensures forall i :: i in Candidates(q, calls) <==> i in calls && Eligible(q, i)
  {
    LatencyOrders();
    SortSorted(LatencyLe, EligibleOf(q, calls));
    SortMembers(LatencyLe, EligibleOf(q, calls));
    Members(Candidates(q, calls), EligibleOf(q, calls));
    EligibleMembers(q, calls);
  }

  lemma {:induction false} EligibleMembers(q: Query, calls: seq<Invocation>)
    ensures forall i :: i in EligibleOf(q, calls) <==> i in calls && Eligible(q, i)
  {
    if calls != [] {
      EligibleMembers(q, calls[..|calls| - 1]);
      assert calls == calls[..|calls| - 1] + [calls[|calls| - 1]];
    }
  }

  /**
   The selection is a block of the candidates: nothing before it is slower and nothing after it is faster
   than anything in it. Its size is the exact share of the population, rounded.
   */
  lemma {:induction false} SelectionOrdered(q: Query, calls: seq<Invocation>)
    requires q.percentile.Legal()
    ensures
      var candidates, (start, end) := Candidates(q, calls), RankBounds(|Candidates(q, calls)|, q.percentile);
      && start <= end <= |candidates|
      && candidates == candidates[..start] + Selected(q, calls) + candidates[end..]
      && (forall i, s | i in candidates[..start] && s in Selected(q, calls) :: i.Duration() <= s.Duration())
      && (forall i, s | i in candidates[end..] && s in Selected(q, calls) :: s.Duration() <= i.Duration())
  {
    var candidates := Candidates(q, calls);
    CandidatesAre(q, calls);
    RankBoundsOrdered(|candidates|, q.percentile);
    var (start, end) := RankBounds(|candidates|, q.percentile);
    forall a, b | 0 <= a < b < |candidates| ensures candidates[a].Duration() <= candidates[b].Duration() {
      assert LatencyLe(candidates[a], candidates[b]);
    }
  }

  lemma {:induction false} SelectionSize(q: Query, calls: seq<Invocation>)
    requires q.percentile.Legal() && CeilRank(|Candidates(q, calls)|, q.percentile.high) <= U64_MAX / 100
    ensures
      var n, low, high := |Candidates(q, calls)|, q.percentile.low, q.percentile.high;
      && n * (high - low) / 100 <= |Selected(q, calls)| <= CeilRank(n, high - low)
      && (high == 100 ==> |Selected(q, calls)| == n * (100 - low) / 100)
  {
    SelectionOrdered(q, calls);
    PopulationSize(|Candidates(q, calls)|, q.percentile);
  }

  lemma {:induction false} ExtremesAre(ds: seq<u64>)
    requires Q.Ascending(ds) && ds != []
    ensures Least(ds) == Some(ds[0]) && Greatest(ds) == Some(ds[|ds| - 1])
  {
    if |ds| > 1 { ExtremesAre(ds[..|ds| - 1]); }
  }

  lemma SortedSlice<T>(le: (T, T) -> bool, s: seq<T>, from: nat, to: nat)
    requires Sorted(le, s) && from <= to <= |s|
    ensures Sorted(le, s[from..to])
  {
  }

  lemma {:induction false} DurationsRise(calls: seq<Invocation>)
    requires Sorted(LatencyLe, calls)
    ensures Q.Ascending(Durations(calls))
  {
  }

  lemma {:induction false} SelectedSorted(q: Query, calls: seq<Invocation>)
    requires q.percentile.Legal()
    ensures Sorted(LatencyLe, Selected(q, calls))
  {
    var candidates := Candidates(q, calls);
    var (start, end) := RankBounds(|candidates|, q.percentile);
    CandidatesAre(q, calls);
    RankBoundsOrdered(|candidates|, q.percentile);
    SortedSlice(LatencyLe, candidates, start, end);
  }

  /** The latency bounds are those of the first and the last selected invocation. */
  lemma {:induction false} LatencyBounds(p: Profile, q: Query)
    requires q.percentile.Legal() && Selected(q, p.invocations) != []
    ensures
      var ds, r := Durations(Selected(q, p.invocations)), Report(p, q);
      && r.latencyMin == Some(ds[0]) && r.latencyMax == Some(ds[|ds| - 1])
      && forall i | 0 <= i < |ds| :: ds[0] <= ds[i] <= ds[|ds| - 1]
  {
    SelectedSorted(q, p.invocations);
    DurationsRise(Selected(q, p.invocations));
    ExtremesAre(Durations(Selected(q, p.invocations)));
  }

  // ---- What the flame tree of an answer means ----

  /** The cut begins at the first frame of the queried function. */
  lemma {:induction false} CutMeaning(target: Target, frames: seq<Frame>, k: nat)
    requires k < |frames| && target.Is(frames[k]) && forall i | 0 <= i < k :: !target.Is(frames[i])
    ensures Cut(target, frames) == Some(Labels(frames[k..]))
  {
    if k > 0 {
      CutMeaning(target, frames[1..], k - 1);
      assert frames[1..][k - 1..] == frames[k..];
    } else {
      assert frames[0..] == frames;
    }
  }

  lemma {:induction false} NoCut(target: Target, frames: seq<Frame>)
    ensures Cut(target, frames).None? <==> forall i | 0 <= i < |frames| :: !target.Is(frames[i])
  {
    if frames != [] && !target.Is(frames[0]) {
      NoCut(target, frames[1..]);
      assert forall i | 1 <= i < |frames| :: frames[i] == frames[1..][i - 1];
    }
  }

  /** The sample is included and its cut stack begins with the path. */
  predicate Passes(l: Lens, x: Sample, path: seq<string>) {
    HitOf(l, x).Some? && path <= HitOf(l, x).value.labels
  }

  /** The weight that a sample adds below a path. */
  function SampleUnder(l: Lens, path: seq<string>): Sample -> nat {
    (x: Sample) => if Passes(l, x, path) then x.weightNs else 0
  }

  /** What a sample adds to a sum over the hits. */
  function PerHit(l: Lens, f: Hit -> nat): Sample -> nat {
    (x: Sample) => Part(f, HitOf(l, x))
  }

  lemma {:induction false} HitsSum(l: Lens, f: Hit -> nat, samples: seq<Sample>)
    ensures Sum(f, Hits(l, samples)) == Sum(PerHit(l, f), samples)
  {
    if samples != [] {
      var front, x := samples[..|samples| - 1], samples[|samples| - 1];
      HitsSum(l, f, front);
      if HitOf(l, x).Some? { SumSnoc(f, Hits(l, front), HitOf(l, x).value); }
    }
  }

  lemma {:induction false} HitsMembers(l: Lens, samples: seq<Sample>, hit: Hit)
    ensures hit in Hits(l, samples) <==> exists x :: x in samples && HitOf(l, x) == Some(hit)
  {
    if samples != [] {
      var front, x := samples[..|samples| - 1], samples[|samples| - 1];
      HitsMembers(l, front, hit);
      assert samples == front + [x];
    }
  }

  lemma {:induction false} HitsUnder(l: Lens, samples: seq<Sample>, path: seq<string>)
    ensures Sum(Under(path), Hits(l, samples)) == Sum(SampleUnder(l, path), samples)
    ensures Reached(Hits(l, samples), path) <==> path == [] || exists x :: x in samples && Passes(l, x, path)
  {
    HitsSum(l, Under(path), samples);
    SumAgree(PerHit(l, Under(path)), samples, SampleUnder(l, path), samples);
    if hit :| hit in Hits(l, samples) && path <= hit.labels { HitsMembers(l, samples, hit); }
    if x :| x in samples && Passes(l, x, path) { HitsMembers(l, samples, HitOf(l, x).value); }
  }

  lemma {:induction false} NothingSelected(l: Lens, samples: seq<Sample>)
    requires l.ids == {}
    ensures Hits(l, samples) == [] && Missing(l, samples).None?
  {
    if samples != [] { NothingSelected(l, samples[..|samples| - 1]); }
  }

  lemma NoNames()
    ensures Finish(EMPTY, "root") == EMPTY_ROOT
  {
  }

  /** The root of an answer is the finished tree of its hits, also when nothing is selected. */
  lemma {:induction false} RootIs(p: Profile, q: Query)
    requires q.percentile.Legal()
    ensures Report(p, q).root == Finish(Build(Hits(LensOf(p, q), p.samples)), "root")
  {
    if Selected(q, p.invocations) == [] {
      NothingSelected(LensOf(p, q), p.samples);
      NoNames();
    }
  }

  /**
   In the flame tree of an answer a label path has a node exactly when the cut stack of some included
   sample begins with it (the root is always there); its value is the exact sum of the weights of those
   samples, cut at the largest u64. The children of every node are in strictly rising order of name.
   */
  lemma {:induction false} FlameMeaning(p: Profile, q: Query, path: seq<string>)
    requires q.percentile.Legal()
    ensures
      var l, root := LensOf(p, q), Report(p, q).root;
      && NodeAt(root, path) ==
         (if path == [] || exists x :: x in p.samples && Passes(l, x, path)
          then Some(Cap(Sum(SampleUnder(l, path), p.samples))) else None)
      && NameOrdered(root)
  {
    var hits := Hits(LensOf(p, q), p.samples);
    RootIs(p, q);
    FinishKeeps(Build(hits), "root", path);
    FinishOrdered(Build(hits), "root");
    TrieMeaning(hits, path);
    HitsUnder(LensOf(p, q), p.samples, path);
  }

  // ---- Additivity ----

  lemma {:induction false} HitsSplit(whole: Lens, a: Lens, b: Lens, samples: seq<Sample>)
    requires forall x | x in samples ::
               HitOf(whole, x) == if HitOf(a, x).Some? then HitOf(a, x) else HitOf(b, x)
    requires forall x | x in samples :: HitOf(a, x).None? || HitOf(b, x).None?
    ensures multiset(Hits(whole, samples)) == multiset(Hits(a, samples)) + multiset(Hits(b, samples))
  {
    if samples != [] {
      var front, x := samples[..|samples| - 1], samples[|samples| - 1];
      assert x in samples && forall y | y in front :: y in samples;
      HitsSplit(whole, a, b, front);
    }
  }

  /** An answer's totals are the sums of those of two others, and its tree is their node-wise sum. */
  ghost predicate AddsUp(whole: QueryResult, a: QueryResult, b: QueryResult) {
    && whole.sampledCpuNs == SatAdd(a.sampledCpuNs, b.sampledCpuNs)
    && whole.offCpuNs == SatAdd(a.offCpuNs, b.offCpuNs)
    && forall path ::
      && (NodeAt(whole.root, path).Some? <==> NodeAt(a.root, path).Some? || NodeAt(b.root, path).Some?)
      && ValueIn(whole.root, path) == SatAdd(ValueIn(a.root, path), ValueIn(b.root, path))
  }

  lemma {:induction false} TreesAddUp(whole: seq<Hit>, a: seq<Hit>, b: seq<Hit>, path: seq<string>)
    requires multiset(whole) == multiset(a) + multiset(b)
    ensures
      var (w, x, y) := (Finish(Build(whole), "root"), Finish(Build(a), "root"), Finish(Build(b), "root"));
      && (NodeAt(w, path).Some? <==> NodeAt(x, path).Some? || NodeAt(y, path).Some?)
      && ValueIn(w, path) == SatAdd(ValueIn(x, path), ValueIn(y, path))
  {
    BuildAddsAt(whole, a, b, path);
    FinishKeeps(Build(whole), "root", path);
    FinishKeeps(Build(a), "root", path);
    FinishKeeps(Build(b), "root", path);
  }

  lemma {:induction false} TotalsAddUp(f: Hit -> nat, whole: seq<Hit>, a: seq<Hit>, b: seq<Hit>)
    requires multiset(whole) == multiset(a) + multiset(b)
    ensures Cap(Sum(f, whole)) == SatAdd(Cap(Sum(f, a)), Cap(Sum(f, b)))
  {
    SumReorder(f, whole, a + b);
    SumConcat(f, a, b);
  }

  /** The answers add up when the hits of one are those of the other two. */
  lemma {:induction false} AnswersAddUp(p: Profile, whole: Query, a: Query, b: Query)
    requires whole.percentile.Legal() && a.percentile.Legal() && b.percentile.Legal()
    requires multiset(Hits(LensOf(p, whole), p.samples))
          == multiset(Hits(LensOf(p, a), p.samples)) + multiset(Hits(LensOf(p, b), p.samples))
    ensures AddsUp(Report(p, whole), Report(p, a), Report(p, b))
  {
    var w, x, y := Hits(LensOf(p, whole), p.samples), Hits(LensOf(p, a), p.samples), Hits(LensOf(p, b), p.samples);
    RootIs(p, whole);
    RootIs(p, a);
    RootIs(p, b);
    TotalsAddUp(CpuWeight, w, x, y);
    TotalsAddUp(OffWeight, w, x, y);
    forall path
      ensures NodeAt(Report(p, whole).root, path).Some?
         <==> NodeAt(Report(p, a).root, path).Some? || NodeAt(Report(p, b).root, path).Some?
      ensures ValueIn(Report(p, whole).root, path)
           == SatAdd(ValueIn(Report(p, a).root, path), ValueIn(Report(p, b).root, path))
    {
      TreesAddUp(w, x, y, path);
    }
  }

  /** A query for another percentile range. */
  function Within(q: Query, low: u8, high: u8): Query {
    q.(percentile := PercentileRange(low, high))
  }

  lemma {:induction false} EligibleDistinct(q: Query, calls: seq<Invocation>)
    requires forall i, j | 0 <= i < j < |calls| :: calls[i].id != calls[j].id
    ensures forall x, y | x in EligibleOf(q, calls) && y in EligibleOf(q, calls) && x.id == y.id :: x == y
    ensures Distinct(EligibleOf(q, calls))
  {
    EligibleMembers(q, calls);
    if calls != [] {
      var n := |calls| - 1;
      EligibleDistinct(q, calls[..n]);
      EligibleMembers(q, calls[..n]);
    }
  }

  lemma {:induction false} CandidatesDistinct(q: Query, calls: seq<Invocation>)
    requires forall i, j | 0 <= i < j < |calls| :: calls[i].id != calls[j].id
    ensures
      var c := Candidates(q, calls);
      forall i, j | 0 <= i < j < |c| :: c[i].id != c[j].id
  {
    var e, c := EligibleOf(q, calls), Candidates(q, calls);
    EligibleDistinct(q, calls);
    SortMembers(LatencyLe, e);
    forall i, j | 0 <= i < j < |c| ensures c[i].id != c[j].id {
      var a, b := Origins(c, e, i, j);
    }
  }

  /**
   For a < b < c the selection of a:c is that of a:b followed by that of b:c, and its tree and totals are
   the sums of theirs, node by node, even where they saturate.
   */
  lemma {:induction false} PercentilesAdd(p: Profile, q: Query, a: u8, b: u8, c: u8)
    requires a < b < c <= 100
    requires forall i, j | 0 <= i < j < |p.invocations| :: p.invocations[i].id != p.invocations[j].id
    ensures Selected(Within(q, a, c), p.invocations)
         == Selected(Within(q, a, b), p.invocations) + Selected(Within(q, b, c), p.invocations)
    ensures AddsUp(Report(p, Within(q, a, c)), Report(p, Within(q, a, b)), Report(p, Within(q, b, c)))
  {
    var calls := p.invocations;
    PercentilesMeet(q, calls, a, b, c);
    var ab, bc, ac := Within(q, a, b), Within(q, b, c), Within(q, a, c);
    var x, y, whole := LensOf(p, ab), LensOf(p, bc), LensOf(p, ac);
    assert whole.ids == x.ids + y.ids && x.ids !! y.ids by {
      IdSetSplit(Selected(ab, calls), Selected(bc, calls));
    }
    LensesSplit(whole, x, y, p.samples);
    AnswersAddUp(p, ac, ab, bc);
  }

  lemma IdSetSplit(a: seq<Invocation>, b: seq<Invocation>)
    requires forall i, j | 0 <= i < j < |a + b| :: (a + b)[i].id != (a + b)[j].id
    ensures IdSet(a + b) == IdSet(a) + IdSet(b) && IdSet(a) !! IdSet(b)
  {
    forall id | id in IdSet(b) ensures id in IdSet(a + b) && id !in IdSet(a) {
      var j :| 0 <= j < |b| && b[j].id == id;
      assert (a + b)[|a| + j] == b[j];
      forall i | 0 <= i < |a| ensures a[i].id != id {
        assert (a + b)[i] == a[i];
      }
    }
    forall id | id in IdSet(a) ensures id in IdSet(a + b) {
      var i :| 0 <= i < |a| && a[i].id == id;
      assert (a + b)[i] == a[i];
    }
    forall id | id in IdSet(a + b) ensures id in IdSet(a) + IdSet(b) {
      var i :| 0 <= i < |a + b| && (a + b)[i].id == id;
      assert (a + b)[i] == if i < |a| then a[i] else b[i - |a|];
    }
  }

  lemma {:induction false} PercentilesMeet(q: Query, calls: seq<Invocation>, a: u8, b: u8, c: u8)
    requires a < b < c <= 100
    requires forall i, j | 0 <= i < j < |calls| :: calls[i].id != calls[j].id
    ensures
      var whole := Selected(Within(q, a, c), calls);
      && whole == Selected(Within(q, a, b), calls) + Selected(Within(q, b, c), calls)
      && forall i, j | 0 <= i < j < |whole| :: whole[i].id != whole[j].id
  {
    var n := |Candidates(q, calls)|;
    WithinSelects(q, calls, a, b);
    WithinSelects(q, calls, b, c);
    WithinSelects(q, calls, a, c);
    RangesMeet(n, a, b, c);
    CandidatesDistinct(q, calls);
    BlocksMeet(Candidates(q, calls), RankBounds(n, PercentileRange(a, b)), RankBounds(n, PercentileRange(b, c)));
  }

  /** The block of a sequence between two ranks. */
  function Block(calls: seq<Invocation>, ranks: (nat, nat)): seq<Invocation>
    requires ranks.0 <= ranks.1 <= |calls|
  {
    calls[ranks.0..ranks.1]
  }

  lemma {:induction false} WithinSelects(q: Query, calls: seq<Invocation>, low: u8, high: u8)
    requires low < high <= 100
    ensures
      var ranks := RankBounds(|Candidates(q, calls)|, PercentileRange(low, high));
      && ranks.0 <= ranks.1 <= |Candidates(q, calls)|
      && Selected(Within(q, low, high), calls) == Block(Candidates(q, calls), ranks)
  {
    RankBoundsOrdered(|Candidates(q, calls)|, PercentileRange(low, high));
    SameCandidates(q, Within(q, low, high), calls);
  }

  lemma {:induction false} BlocksMeet(calls: seq<Invocation>, ab: (nat, nat), bc: (nat, nat))
    requires ab.0 <= ab.1 == bc.0 <= bc.1 <= |calls|
    requires forall i, j | 0 <= i < j < |calls| :: calls[i].id != calls[j].id
    ensures
      var whole := Block(calls, (ab.0, bc.1));
      && whole == Block(calls, ab) + Block(calls, bc)
      && forall i, j | 0 <= i < j < |whole| :: whole[i].id != whole[j].id
  {
  }

  lemma {:induction false} SameCandidates(q: Query, r: Query, calls: seq<Invocation>)
    requires r == q.(percentile := r.percentile, metric := r.metric)
    ensures EligibleOf(q, calls) == EligibleOf(r, calls) && Candidates(q, calls) == Candidates(r, calls)
  {
    if calls != [] { SameCandidates(q, r, calls[..|calls| - 1]); }
  }

  lemma {:induction false} LensesSplit(whole: Lens, a: Lens, b: Lens, samples: seq<Sample>)
    requires whole.ids == a.ids + b.ids && a.ids !! b.ids && a == whole.(ids := a.ids) && b == whole.(ids := b.ids)
    ensures multiset(Hits(whole, samples)) == multiset(Hits(a, samples)) + multiset(Hits(b, samples))
  {
    forall x: Sample ensures SameCuts(whole, a, x) && SameCuts(whole, b, x) {}
    HitsSplit(whole, a, b, samples);
  }

  /** Only inclusion tells the lenses apart. */
  ghost predicate SameCuts(l: Lens, m: Lens, x: Sample) {
    Included(l, x) && Included(m, x) ==> HitOf(l, x) == HitOf(m, x)
  }

  function Measuring(q: Query, metric: Metric): Query {
    q.(metric := metric)
  }

  /** The wall tree and totals are the sums of those of the CPU and the off-CPU metric. */
  lemma {:induction false} MetricsAdd(p: Profile, q: Query)
    requires q.percentile.Legal()
    ensures AddsUp(Report(p, Measuring(q, WallTime)), Report(p, Measuring(q, CpuTime)),
                   Report(p, Measuring(q, OffCpuTime)))
  {
    SameCandidates(q, Measuring(q, WallTime), p.invocations);
    SameCandidates(q, Measuring(q, CpuTime), p.invocations);
    SameCandidates(q, Measuring(q, OffCpuTime), p.invocations);
    var wall, cpu := LensOf(p, Measuring(q, WallTime)), LensOf(p, Measuring(q, CpuTime));
    var off := LensOf(p, Measuring(q, OffCpuTime));
    MetricLenses(wall, cpu, off, p.samples);
    AnswersAddUp(p, Measuring(q, WallTime), Measuring(q, CpuTime), Measuring(q, OffCpuTime));
  }

  lemma {:induction false} MetricLenses(wall: Lens, cpu: Lens, off: Lens, samples: seq<Sample>)
    requires wall.metric == WallTime && cpu == wall.(metric := CpuTime) && off == wall.(metric := OffCpuTime)
    ensures multiset(Hits(wall, samples)) == multiset(Hits(cpu, samples)) + multiset(Hits(off, samples))
  {
    forall x: Sample ensures SameCuts(wall, cpu, x) && SameCuts(wall, off, x) {}
    HitsSplit(wall, cpu, off, samples);
  }
}
