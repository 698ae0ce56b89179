/** What the answers to queries do not depend on. */
module QueryIndependence {
  import opened Domain
  import opened Sequences
  import opened Interning
  import opened FlameTrie
  import opened Queries
  import opened QueryTheorems
  import V = Validation

  // ---- Legal queries on valid profiles succeed ----

  lemma {:induction false} ListedStack(stacks: seq<Stack>, id: u32)
    requires id as u64 in V.StackIds(stacks)
    ensures StackOf(stacks, id).Some?
  {
    var k :| 0 <= k < |stacks| && V.StackIds(stacks)[k] == id;
    Found(stacks, k);
  }

  lemma {:induction false} NothingMissing(l: Lens, samples: seq<Sample>)
    requires forall x | x in samples :: StackOf(l.stacks, x.stackId).Some?
    ensures Missing(l, samples).None?
  {
    if samples != [] {
      var front := samples[..|samples| - 1];
      assert samples[|samples| - 1] in samples && forall x | x in front :: x in samples;
      NothingMissing(l, front);
    }
  }

  ghost predicate StacksKnown(p: Profile) {
    forall x | x in p.samples :: StackOf(p.stacks, x.stackId).Some?
  }

  lemma {:induction false} WellFormedStacks(p: Profile)
    requires V.WellFormed(p)
    ensures StacksKnown(p)
  {
    forall x | x in p.samples ensures StackOf(p.stacks, x.stackId).Some? {
      var n :| 0 <= n < |p.samples| && p.samples[n] == x;
      assert V.SampleOk(p, p.samples[n]);
      ListedStack(p.stacks, x.stackId);
    }
  }

  /** On a valid profile a query fails only for its own ranges. */
  lemma {:induction false} QueriesSucceed(p: Profile, q: Query)
    requires V.WellFormed(p)
    ensures Answer(p, q).Ok? <==> q.percentile.Legal() && LegalTime(q)
  {
    WellFormedStacks(p);
    if q.percentile.Legal() { NothingMissing(LensOf(p, q), p.samples); }
  }

  // ---- Incomplete and invalid invocations are invisible ----

  function VisibleCalls(calls: seq<Invocation>): seq<Invocation> {
    if calls == [] then []
    else
      var front, i := VisibleCalls(calls[..|calls| - 1]), calls[|calls| - 1];
      if i.Counted() then front + [i] else front
  }

  predicate Hidden(calls: seq<Invocation>, id: u64) {
    exists i | 0 <= i < |calls| :: calls[i].id == id && !calls[i].Counted()
  }

  function VisibleSamples(calls: seq<Invocation>, samples: seq<Sample>): seq<Sample> {
    if samples == [] then []
    else
      var front, x := VisibleSamples(calls, samples[..|samples| - 1]), samples[|samples| - 1];
      if Hidden(calls, x.invocationId) then front else front + [x]
  }

  /** The profile without its incomplete and invalid invocations and their samples. */
  function Visible(p: Profile): Profile {
    p.(invocations := VisibleCalls(p.invocations), samples := VisibleSamples(p.invocations, p.samples))
  }

  lemma {:induction false} VisibleEligible(q: Query, calls: seq<Invocation>)
    ensures EligibleOf(q, VisibleCalls(calls)) == EligibleOf(q, calls)
  {
    if calls != [] {
      var front, i := calls[..|calls| - 1], calls[|calls| - 1];
      VisibleEligible(q, front);
      if i.Counted() {
        assert (VisibleCalls(front) + [i])[..|VisibleCalls(front)|] == VisibleCalls(front);
      }
    }
  }

  lemma {:induction false} VisibleHits(l: Lens, calls: seq<Invocation>, samples: seq<Sample>)
    requires forall id | id in l.ids :: !Hidden(calls, id)
    ensures Hits(l, VisibleSamples(calls, samples)) == Hits(l, samples)
    ensures Missing(l, VisibleSamples(calls, samples)) == Missing(l, samples)
  {
    if samples != [] {
      var front, x := samples[..|samples| - 1], samples[|samples| - 1];
      var visible := VisibleSamples(calls, front);
      VisibleHits(l, calls, front);
      if !Hidden(calls, x.invocationId) {
        assert (visible + [x])[..|visible|] == visible;
      }
    }
  }

  lemma CountedVisible(calls: seq<Invocation>, n: nat)
    requires n < |calls| && calls[n].Counted()
    requires forall i, j | 0 <= i < j < |calls| :: calls[i].id != calls[j].id
    ensures !Hidden(calls, calls[n].id)
  {
  }

  lemma {:induction false} SelectedFrom(q: Query, calls: seq<Invocation>, i: Invocation)
    requires q.percentile.Legal() && i in Selected(q, calls)
    ensures i in calls && Eligible(q, i)
  {
    CandidatesAre(q, calls);
    assert i in Candidates(q, calls);
  }

  lemma {:induction false} SelectedVisible(q: Query, calls: seq<Invocation>, id: u64)
    requires q.percentile.Legal() && id in IdSet(Selected(q, calls))
    requires forall i, j | 0 <= i < j < |calls| :: calls[i].id != calls[j].id
    ensures !Hidden(calls, id)
  {
    var i :| i in Selected(q, calls) && i.id == id;
    SelectedFrom(q, calls, i);
    var n :| 0 <= n < |calls| && calls[n] == i;
    CountedVisible(calls, n);
  }

  /** Deleting every incomplete or invalid invocation together with its samples changes no answer. */
  lemma {:induction false} InvisiblePopulations(p: Profile, q: Query)
    requires V.WellFormed(p)
    ensures Answer(Visible(p), q) == Answer(p, q)
  {
    VisibleEligible(q, p.invocations);
    UniqueIds(p);
    if q.percentile.Legal() {
      forall id | id in IdSet(Selected(q, p.invocations)) ensures !Hidden(p.invocations, id) {
        SelectedVisible(q, p.invocations, id);
      }
      VisibleHits(LensOf(p, q), p.invocations, p.samples);
    }
  }

  lemma UniqueIds(p: Profile)
    requires V.WellFormed(p)
    ensures forall i, j | 0 <= i < j < |p.invocations| :: p.invocations[i].id != p.invocations[j].id
  {
    var ids := V.InvocationIds(p.invocations);
    forall i, j | 0 <= i < j < |p.invocations| ensures p.invocations[i].id != p.invocations[j].id {
      assert ids[i] != ids[j];
    }
  }

  // ---- Sample order and stack numbering ----

  /** The hit of a sample that comes with its frames. */
  function HitOfKept(l: Lens): Kept -> Option<Hit> {
    (k: Kept) =>
      if k.invocationId in l.ids && Includes(l.metric, k.sample.state) && Cut(l.target, k.sample.frames).Some?
      then Some(Hit(Cut(l.target, k.sample.frames).value, k.sample.state, k.sample.weightNs))
      else None
  }

  lemma {:induction false} HitsResolved(l: Lens, samples: seq<Sample>, kept: seq<Kept>)
    requires forall x | x in samples :: StackOf(l.stacks, x.stackId).Some?
    requires |kept| == |samples| && forall i | 0 <= i < |samples| :: kept[i] == Resolve(l.stacks, samples[i])
    ensures Hits(l, samples) == Pick(HitOfKept(l), kept)
  {
    if samples != [] {
      var n := |samples| - 1;
      assert samples[n] in samples && forall x | x in samples[..n] :: x in samples;
      HitsResolved(l, samples[..n], kept[..n]);
      assert kept[n] == Resolve(l.stacks, samples[n]);
      assert HitOf(l, samples[n]) == HitOfKept(l)(kept[n]);
    }
  }

  /** Two profiles that hold the same samples with the same frames, however ordered and numbered. */
  ghost predicate SameContents(p: Profile, r: Profile) {
    && p.functions == r.functions && p.invocations == r.invocations
    && StacksKnown(p) && StacksKnown(r)
    && multiset(Resolved(p)) == multiset(Resolved(r))
  }

  lemma {:induction false} SameHits(p: Profile, r: Profile, q: Query)
    requires SameContents(p, r) && q.percentile.Legal()
    ensures multiset(Hits(LensOf(p, q), p.samples)) == multiset(Hits(LensOf(r, q), r.samples))
  {
    var l, m := LensOf(p, q), LensOf(r, q);
    HitsResolved(l, p.samples, Resolved(p));
    HitsResolved(m, r.samples, Resolved(r));
    PickReorder(HitOfKept(l), Resolved(p), Resolved(r));
    PickAgree(HitOfKept(l), HitOfKept(m), Resolved(r));
  }

  lemma {:induction false} PickAgree<S, T>(f: S -> Option<T>, g: S -> Option<T>, s: seq<S>)
    requires forall x | x in s :: f(x) == g(x)
    ensures Pick(f, s) == Pick(g, s)
  {
    if s != [] {
      assert s[|s| - 1] in s && forall x | x in s[..|s| - 1] :: x in s;
      PickAgree(f, g, s[..|s| - 1]);
    }
  }

  /** No answer depends on the order of the samples or on the numbering of the stacks. */
  lemma {:induction false} NumberingIrrelevant(p: Profile, r: Profile, q: Query)
    requires SameContents(p, r)
    ensures Answer(p, q) == Answer(r, q)
  {
    if q.percentile.Legal() {
      var a, b := Hits(LensOf(p, q), p.samples), Hits(LensOf(r, q), r.samples);
      SameHits(p, r, q);
      NothingMissing(LensOf(p, q), p.samples);
      NothingMissing(LensOf(r, q), r.samples);
      BuildReorder(a, b);
      SumReorder(CpuWeight, a, b);
      SumReorder(OffWeight, a, b);
    }
  }
}
