/** Ring-buffer delivery order does not affect what the collector concludes. */
module OrderIndependence {
  import opened Domain
  import opened Sequences
  import opened Collector
  import opened Interning
  import opened SourceMode
  import opened SourceFinish

  // ---- Samples and violations are kept as multisets ----

  lemma SamplesReorder(id: u64, a: seq<CollectorEvent>, b: seq<CollectorEvent>)
    requires multiset(a) == multiset(b)
    ensures multiset(SamplesOf(id, a)) == multiset(SamplesOf(id, b))
  {
    forall x: Pending ensures multiset(SamplesOf(id, a))[x] == multiset(SamplesOf(id, b))[x] {
      SamplesCount(id, a, x);
      SamplesCount(id, b, x);
    }
  }

  lemma ViolationsReorder(a: seq<CollectorEvent>, b: seq<CollectorEvent>)
    requires multiset(a) == multiset(b)
    ensures multiset(ViolationsOf(a)) == multiset(ViolationsOf(b))
  {
    forall v: (u32, u64) ensures multiset(ViolationsOf(a))[v] == multiset(ViolationsOf(b))[v] {
      ViolationsCount(a, v);
      ViolationsCount(b, v);
    }
  }

  // ---- Records agree but for the order of their samples ----

  ghost predicate SameRecord(r: SourceInvocation, t: SourceInvocation) {
    r == t.(samples := r.samples) && multiset(r.samples) == multiset(t.samples)
  }

  ghost predicate SameRecords(a: map<u64, SourceInvocation>, b: map<u64, SourceInvocation>) {
    a.Keys == b.Keys && forall id | id in a :: SameRecord(a[id], b[id])
  }

  lemma RecordReorder(r: SourceInvocation, t: SourceInvocation, id: u64, a: seq<CollectorEvent>, b: seq<CollectorEvent>)
    requires multiset(a) == multiset(b) && Mentioned(id, a) && RecordOk(r, id, a) && RecordOk(t, id, b)
    ensures SameRecord(r, t)
  {
    Members(a, b);
    SamplesReorder(id, a, b);
    var e :| e in a && IdOf(e) == Some(id);
    assert e in b && Holds(r, e) && Holds(t, e);
    if r.sawEntry {
      var f :| f in a && f.Entry? && f.invocationId == Some(id);
      assert f in b && IdOf(f) == Some(id) && Holds(r, f) && Holds(t, f);
    }
    if r.sawReturn {
      var f :| f in a && f.Return? && f.invocationId == Some(id);
      assert f in b && IdOf(f) == Some(id) && Holds(r, f) && Holds(t, f);
    }
    assert SawEntry(id, a) <==> SawEntry(id, b);
    assert SawReturn(id, a) <==> SawReturn(id, b);
  }

  lemma RecordsReorder(x: map<u64, SourceInvocation>, y: map<u64, SourceInvocation>,
                       a: seq<CollectorEvent>, b: seq<CollectorEvent>)
    requires multiset(a) == multiset(b) && RecordsOk(x, a) && RecordsOk(y, b)
    ensures SameRecords(x, y)
  {
    Members(a, b);
    forall id: u64 ensures Mentioned(id, a) <==> Mentioned(id, b) {
    }
    forall id | id in x ensures SameRecord(x[id], y[id]) { RecordReorder(x[id], y[id], id, a, b); }
  }

  lemma JudgeReorder(x: map<u64, SourceInvocation>, y: map<u64, SourceInvocation>,
                     v: seq<(u32, u64)>, w: seq<(u32, u64)>)
    requires SameRecords(x, y) && multiset(v) == multiset(w)
    ensures SameRecords(Judge(x, v), Judge(y, w))
  {
    Members(v, w);
    forall id | id in x ensures Hit(v, x[id]) <==> Hit(w, y[id]) {
      HitMember(v, x[id]);
      HitMember(w, y[id]);
      assert forall u: (u32, u64) :: Hits(u, x[id]) <==> Hits(u, y[id]);
    }
  }

  lemma HitCountReorder(x: map<u64, SourceInvocation>, y: map<u64, SourceInvocation>,
                        v: seq<(u32, u64)>, w: seq<(u32, u64)>)
    requires SameRecords(x, y) && multiset(v) == multiset(w)
    ensures Sum(HitCount(x), v) == Sum(HitCount(y), w)
  {
    forall i | 0 <= i < |v| ensures HitCount(x)(v[i]) == HitCount(y)(v[i]) {
      assert (set id | id in x && Hits(v[i], x[id])) == (set id | id in y && Hits(v[i], y[id]));
    }
    SumAgree(HitCount(x), v, HitCount(y), v);
    SumReorder(HitCount(y), v, w);
  }

  // ---- What is reported agrees ----

  lemma {:induction false} ReportedReorder(x: map<u64, SourceInvocation>, y: map<u64, SourceInvocation>,
                                           ids: seq<u64>, now: u64)
    requires SameRecords(x, y) && forall id | id in ids :: id in x
    ensures Reported(x, ids, now) == Reported(y, ids, now)
  {
    if ids != [] {
      assert SameRecord(x[ids[|ids| - 1]], y[ids[|ids| - 1]]);
      ReportedReorder(x, y, ids[..|ids| - 1], now);
    }
  }

  lemma ContributionReorder(r: SourceInvocation, t: SourceInvocation, now: u64)
    requires SameRecord(r, t)
    ensures multiset(Contribution(r, now)) == multiset(Contribution(t, now))
    ensures Mismatches(r, now) == Mismatches(t, now)
  {
    if r.IsReported() {
      var a, b := KeptOf(r, now, r.samples), KeptOf(t, now, t.samples);
      forall k: Kept ensures multiset(a)[k] == multiset(b)[k] {
        KeptCount(r, now, r.samples, k);
        KeptCount(t, now, t.samples, k);
      }
      assert multiset(a) == multiset(b);
      assert |a| == |multiset(a)| == |multiset(b)| == |b|;
      assert |r.samples| == |multiset(r.samples)| == |multiset(t.samples)| == |t.samples|;
      KeptLength(r, now, r.samples);
      KeptLength(t, now, t.samples);
    }
  }

  lemma {:induction false} KeptAllReorder(x: map<u64, SourceInvocation>, y: map<u64, SourceInvocation>,
                                          ids: seq<u64>, now: u64)
    requires SameRecords(x, y) && forall id | id in ids :: id in x
    ensures multiset(KeptAll(x, ids, now)) == multiset(KeptAll(y, ids, now))
  {
    if ids != [] {
      KeptAllReorder(x, y, ids[..|ids| - 1], now);
      ContributionReorder(x[ids[|ids| - 1]], y[ids[|ids| - 1]], now);
    }
  }

  lemma ScoredReorder(q: Quality, x: map<u64, SourceInvocation>, y: map<u64, SourceInvocation>, ids: seq<u64>, now: u64)
    requires SameRecords(x, y) && forall id | id in ids :: id in x
    ensures ScoredAll(q, x, ids, now) == ScoredAll(q, y, ids, now)
  {
    forall i | 0 <= i < |ids|
      ensures ValidWeight(x, now)(ids[i]) == ValidWeight(y, now)(ids[i])
      ensures InvalidWeight(x, now)(ids[i]) == InvalidWeight(y, now)(ids[i])
      ensures MismatchWeight(x, now)(ids[i]) == MismatchWeight(y, now)(ids[i])
    {
      assert SameRecord(x[ids[i]], y[ids[i]]);
      ContributionReorder(x[ids[i]], y[ids[i]], now);
    }
    SumAgree(ValidWeight(x, now), ids, ValidWeight(y, now), ids);
    SumAgree(InvalidWeight(x, now), ids, InvalidWeight(y, now), ids);
    SumAgree(MismatchWeight(x, now), ids, MismatchWeight(y, now), ids);
  }

  lemma TalliedReorder(q: Quality, a: seq<CollectorEvent>, b: seq<CollectorEvent>)
    requires multiset(a) == multiset(b)
    ensures Tallied(q, a) == Tallied(q, b)
  {
    SumReorder(EventWeight, a, b);
    SumReorder(SampleWeight, a, b);
    SumReorder(ViolationWeight, a, b);
    SumReorder(LostEventWeight, a, b);
    SumReorder(LostSampleWeight, a, b);
  }

  /**
   Two orders of one consistent stream finish with the same invocations, the same counters, as many
   stacks, and, while stack ids last, the same samples with the same frames.
   */
  lemma {:induction false} DeliveryOrderIrrelevant(functions: seq<Function>, q: Quality,
                                                   a: seq<CollectorEvent>, b: seq<CollectorEvent>,
                                now: u64, order: seq<u32>, other: seq<u32>)
    requires Consistent(a) && multiset(a) == multiset(b)
    requires IsOrderOf(order, PushAll(Blank(functions, q), a).c.active)
    requires IsOrderOf(other, PushAll(Blank(functions, q), b).c.active)
    ensures
      var p := Finish(PushAll(Blank(functions, q), a), now, order);
      var r := Finish(PushAll(Blank(functions, q), b), now, other);
      && p.invocations == r.invocations
      && p.quality == r.quality
      && |p.stacks| == |r.stacks|
      && (|p.stacks| <= U32_MAX ==> multiset(Resolved(p)) == multiset(Resolved(r)))
  {
    ConsistentPart(b, a);
    FinishForm(functions, q, a, now, order);
    FinishForm(functions, q, b, now, other);
    PushAllGathers(functions, q, a);
    PushAllGathers(functions, q, b);
    PushAllRecords(functions, q, a);
    PushAllRecords(functions, q, b);
    var x := PushAll(Blank(functions, q), a).c.sourceInvocations;
    var y := PushAll(Blank(functions, q), b).c.sourceInvocations;
    RecordsReorder(x, y, a, b);
    ViolationsReorder(a, b);
    VerdictsReorder(q, x, y, a, b, now);
    FramesReorder(KeptAll(Judge(x, ViolationsOf(a)), SortedIds(x.Keys), now),
                  KeptAll(Judge(y, ViolationsOf(b)), SortedIds(x.Keys), now));
  }

  lemma VerdictsReorder(q: Quality, x: map<u64, SourceInvocation>, y: map<u64, SourceInvocation>,
                        a: seq<CollectorEvent>, b: seq<CollectorEvent>, now: u64)
    requires SameRecords(x, y) && multiset(a) == multiset(b) && multiset(ViolationsOf(a)) == multiset(ViolationsOf(b))
    ensures
      var v, w, ids := Judge(x, ViolationsOf(a)), Judge(y, ViolationsOf(b)), SortedIds(x.Keys);
      && v.Keys == x.Keys && w.Keys == x.Keys
      && Reported(v, ids, now) == Reported(w, ids, now)
      && multiset(KeptAll(v, ids, now)) == multiset(KeptAll(w, ids, now))
      && ScoredAll(SuspectedOf(Tallied(q, a), x, ViolationsOf(a)), v, ids, now)
      == ScoredAll(SuspectedOf(Tallied(q, b), y, ViolationsOf(b)), w, ids, now)
  {
    var v, w, ids := Judge(x, ViolationsOf(a)), Judge(y, ViolationsOf(b)), SortedIds(x.Keys);
    JudgeReorder(x, y, ViolationsOf(a), ViolationsOf(b));
    SuspectedReorder(q, x, y, a, b);
    ReportsReorder(SuspectedOf(Tallied(q, a), x, ViolationsOf(a)), v, w, ids, now);
  }

  lemma {:induction false} SuspectedReorder(q: Quality, x: map<u64, SourceInvocation>, y: map<u64, SourceInvocation>,
                                            a: seq<CollectorEvent>, b: seq<CollectorEvent>)
    requires SameRecords(x, y) && multiset(a) == multiset(b) && multiset(ViolationsOf(a)) == multiset(ViolationsOf(b))
    ensures SuspectedOf(Tallied(q, a), x, ViolationsOf(a)) == SuspectedOf(Tallied(q, b), y, ViolationsOf(b))
  {
    HitCountReorder(x, y, ViolationsOf(a), ViolationsOf(b));
    TalliedReorder(q, a, b);
  }

  lemma {:induction false} ReportsReorder(q: Quality, v: map<u64, SourceInvocation>, w: map<u64, SourceInvocation>,
                                          ids: seq<u64>, now: u64)
    requires SameRecords(v, w) && forall id | id in ids :: id in v
    ensures Reported(v, ids, now) == Reported(w, ids, now)
    ensures multiset(KeptAll(v, ids, now)) == multiset(KeptAll(w, ids, now))
    ensures ScoredAll(q, v, ids, now) == ScoredAll(q, w, ids, now)
  {
    ReportedReorder(v, w, ids, now);
    KeptAllReorder(v, w, ids, now);
    ScoredReorder(q, v, w, ids, now);
  }

  lemma FramesReorder(a: seq<Kept>, b: seq<Kept>)
    requires multiset(a) == multiset(b)
    ensures FramesIn(a) == FramesIn(b)
  {
    Members(a, b);
  }
}
