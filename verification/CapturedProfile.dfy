/** The profile that a capture ends with is well-formed, says only what happened, and says all of it. */
module CapturedProfile {
  import opened Domain
  import opened Sequences
  import opened Sorting
  import K = Kernel
  import C = Collector
  import opened Interning
  import opened SourceMode
  import opened SourceFinish
  import opened Adapter
  import opened EndToEnd
  import V = Validation

  // ---- Reported invocations ----

  ghost predicate Keyed(records: map<u64, C.SourceInvocation>) {
    forall id | id in records :: records[id].id == id
  }

  /** The invocation is what the record of its id reports. */
  predicate Reports(records: map<u64, C.SourceInvocation>, now: u64, i: Invocation) {
    i.id in records && records[i.id].IsReported() && i == records[i.id].Report(now)
  }

  /** The invocations are those of the reported records among these ids, one for each id. */
  ghost predicate Lists(is_: seq<Invocation>, records: map<u64, C.SourceInvocation>, ids: seq<u64>, now: u64) {
    && (forall i | 0 <= i < |is_| :: is_[i].id in ids && Reports(records, now, is_[i]))
    && (forall i, j | 0 <= i < j < |is_| :: is_[i].id != is_[j].id)
    && (forall id | id in ids && id in records && records[id].IsReported() :: records[id].Report(now) in is_)
  }

  lemma {:induction false} ListsFurther(is_: seq<Invocation>, records: map<u64, C.SourceInvocation>,
                                        ids: seq<u64>, id: u64, now: u64)
    requires Lists(is_, records, ids, now) && Keyed(records) && id in records && id !in ids
    ensures Lists(if records[id].IsReported() then is_ + [records[id].Report(now)] else is_, records, ids + [id], now)
  {
  }

  lemma {:induction false} ReportedExactly(records: map<u64, C.SourceInvocation>, ids: seq<u64>, now: u64)
    requires Keyed(records) && Distinct(ids) && forall id | id in ids :: id in records
    ensures Lists(Reported(records, ids, now), records, ids, now)
  {
    if ids != [] {
      var n := |ids| - 1;
      var front, last := ids[..n], ids[n];
      assert ids == front + [last] && last !in front;
      assert Keyed(records) && Distinct(front) && forall id | id in front :: id in ids;
      ReportedExactly(records, front, now);
      ListsFurther(Reported(records, front, now), records, front, last, now);
    }
  }

  lemma {:induction false} ReportedInOrder(records: map<u64, C.SourceInvocation>, now: u64)
    requires Keyed(records)
    ensures Lists(Reported(records, C.SortedIds(records.Keys), now), records, C.SortedIds(records.Keys), now)
  {
    InOrderMembers(C.Ascending, records.Keys);
    ReportedExactly(records, C.SortedIds(records.Keys), now);
  }

  lemma {:induction false} ReportedCounts(records: map<u64, C.SourceInvocation>, ids: seq<u64>, now: u64)
    requires forall id | id in ids :: id in records
    ensures
      var is_ := Reported(records, ids, now);
      && V.CountedIn(is_) == Sum(ValidWeight(records, now), ids)
      && |is_| - V.CountedIn(is_) == Sum(InvalidWeight(records, now), ids)
  {
    if ids != [] {
      ReportedCounts(records, ids[..|ids| - 1], now);
      var r := records[ids[|ids| - 1]];
      if r.IsReported() {
        var front := Reported(records, ids[..|ids| - 1], now);
        assert (front + [r.Report(now)])[..|front|] == front;
      }
    }
  }

  // ---- Kept samples ----

  /** All samples of a stream, with their ids. */
  function AllSamples(es: seq<C.CollectorEvent>): seq<Kept> {
    if es == [] then []
    else
      var e := es[|es| - 1];
      var front := AllSamples(es[..|es| - 1]);
      if e.Sampled? && e.invocationId.Some? then front + [Kept(e.invocationId.value, e.sample)] else front
  }

  lemma {:induction false} AllSamplesCount(es: seq<C.CollectorEvent>, k: Kept)
    ensures multiset(AllSamples(es))[k] == multiset(es)[C.Sampled(Some(k.invocationId), k.sample)]
  {
    if es != [] {
      AllSamplesCount(es[..|es| - 1], k);
      assert es == es[..|es| - 1] + [es[|es| - 1]];
    }
  }

  lemma {:induction false} AllSamplesLength(es: seq<C.CollectorEvent>)
    ensures |AllSamples(es)| <= Sum(SampleWeight, es)
  {
    if es != [] { AllSamplesLength(es[..|es| - 1]); }
  }

  lemma {:induction false} KeptAllCount(records: map<u64, C.SourceInvocation>, ids: seq<u64>, now: u64, k: Kept)
    requires Keyed(records) && Distinct(ids) && forall id | id in ids :: id in records
    ensures multiset(KeptAll(records, ids, now))[k]
         == if k.invocationId in ids then multiset(Contribution(records[k.invocationId], now))[k] else 0
  {
    if ids != [] {
      var last := ids[|ids| - 1];
      KeptAllCount(records, ids[..|ids| - 1], now, k);
      assert forall id :: id in ids <==> id in ids[..|ids| - 1] || id == last;
      if records[last].IsReported() { KeptCount(records[last], now, records[last].samples, k); }
    }
  }

  /** A record keeps its samples when it is reported valid and they lie in its bounds. */
  predicate Keeping(records: map<u64, C.SourceInvocation>, k: Kept, now: u64) {
    k.invocationId in records && records[k.invocationId].IsReported() && records[k.invocationId].IsValid(now)
    && records[k.invocationId].Covers(k.sample, now)
  }

  /**
   Accounting for samples: each sample event of the stream is kept exactly once if its record is valid
   and covers it, and not at all otherwise.
   */
  lemma {:induction false} SamplesAccounted(functions: seq<Function>, q: Quality, es: seq<C.CollectorEvent>, now: u64,
                                            k: Kept)
    requires AllTransport(es)
    ensures
      var records := Verdicts(functions, q, es);
      multiset(KeptAll(records, C.SortedIds(records.Keys), now))[k]
      == if Keeping(records, k, now) then multiset(es)[C.Sampled(Some(k.invocationId), k.sample)] else 0
  {
    var records := Verdicts(functions, q, es);
    PushAllGathers(functions, q, es);
    VerdictsKeyed(functions, q, es);
    InOrderMembers(C.Ascending, records.Keys);
    KeptAllCount(records, C.SortedIds(records.Keys), now, k);
    var id := k.invocationId;
    if id in records {
      SamplesCount(id, es, k.sample);
      if records[id].IsReported() { KeptCount(records[id], now, records[id].samples, k); }
    }
  }

  lemma {:induction false} VerdictsKeyed(functions: seq<Function>, q: Quality, es: seq<C.CollectorEvent>)
    requires AllTransport(es)
    ensures
      var records := Verdicts(functions, q, es);
      && Keyed(records)
      && (forall id :: id in records <==> Mentioned(id, es))
      && (forall id | id in records :: records[id].samples == SamplesOf(id, es))
  {
    PushAllGathers(functions, q, es);
  }

  lemma {:induction false} KeptPart(functions: seq<Function>, q: Quality, es: seq<C.CollectorEvent>, now: u64)
    requires AllTransport(es)
    ensures
      var records := Verdicts(functions, q, es);
      multiset(KeptAll(records, C.SortedIds(records.Keys), now)) <= multiset(AllSamples(es))
  {
    var records := Verdicts(functions, q, es);
    var kept := KeptAll(records, C.SortedIds(records.Keys), now);
    forall k: Kept ensures multiset(kept)[k] <= multiset(AllSamples(es))[k] {
      SamplesAccounted(functions, q, es, now, k);
      AllSamplesCount(es, k);
    }
  }

  lemma PartLength<T>(part: seq<T>, whole: seq<T>)
    requires multiset(part) <= multiset(whole)
    ensures |part| <= |whole|
  {
    assert multiset(whole) == multiset(part) + (multiset(whole) - multiset(part));
    assert |multiset(whole)| == |multiset(part)| + |multiset(whole) - multiset(part)|;
    assert |part| == |multiset(part)| && |whole| == |multiset(whole)|;
  }

  // ---- A 32-bit id is enough for the stacks of a capture ----

  lemma {:induction false} ImageSmall<T>(f: int -> T, n: nat)
    ensures |set i | 0 <= i < n :: f(i)| <= n
  {
    if n > 0 {
      ImageSmall(f, n - 1);
      assert (set i | 0 <= i < n :: f(i)) == (set i | 0 <= i < n - 1 :: f(i)) + {f(n - 1)};
    }
  }

  function SlotFrames(r: Request): int -> seq<Frame> {
    (slot: int) => if 0 <= slot < K.STACK_SLOTS then FramesAt(r.table, slot) else []
  }

  function SlotFramesOff(r: Request): int -> seq<Frame> {
    (slot: int) => if 0 <= slot < K.STACK_SLOTS then WithFallback(FramesAt(r.table, slot), r.function_) else []
  }

  /** Every list of frames that replay can produce. */
  function Universe(r: Request): set<seq<Frame>> {
    (set i | 0 <= i < K.STACK_SLOTS :: SlotFrames(r)(i)) + {[]}
    + (set i | 0 <= i < K.STACK_SLOTS :: SlotFramesOff(r)(i)) + {WithFallback([], r.function_)}
  }

  lemma UniverseSmall(r: Request)
    ensures |Universe(r)| <= U32_MAX
  {
    ImageSmall(SlotFrames(r), K.STACK_SLOTS);
    ImageSmall(SlotFramesOff(r), K.STACK_SLOTS);
  }

  lemma InUniverse(r: Request, e: K.Event)
    requires Symbolized(r.table) && Translate(e, r.function_, r.table).Sampled?
    ensures Translate(e, r.function_, r.table).sample.frames in Universe(r)
  {
    var slot := e.stackId;
    if slot < 0 {
      assert FramesAt(r.table, slot) == [];
    } else {
      assert SlotFrames(r)(slot) == FramesAt(r.table, slot);
      assert SlotFramesOff(r)(slot) == WithFallback(FramesAt(r.table, slot), r.function_);
    }
  }

  lemma SubsetSmall<T>(a: set<T>, b: set<T>)
    requires a <= b
    ensures |a| <= |b|
  {
    assert b == a + (b - a);
  }

  /** Every kept sample comes from a delivered ring record. */
  lemma {:induction false} KeptOrigin(s: K.State, r: Request, delivered: seq<K.Event>, k: Kept) returns (e: K.Event)
    requires Delivered(s, delivered)
    requires k in KeptAll(VerdictsOf(r, delivered), C.SortedIds(VerdictsOf(r, delivered).Keys), r.now)
    ensures e in SortEvents(delivered)
    ensures Translate(e, r.function_, r.table) == C.Sampled(Some(k.invocationId), k.sample)
    ensures Keeping(VerdictsOf(r, delivered), k, r.now)
  {
    ReplayConsistent(s, r, delivered);
    var es := Events(r, delivered);
    SamplesAccounted([r.function_], StartQuality(r), es, r.now, k);
    assert k in multiset(KeptAll(VerdictsOf(r, delivered), C.SortedIds(VerdictsOf(r, delivered).Keys), r.now));
    assert C.Sampled(Some(k.invocationId), k.sample) in multiset(es);
    e := Origin(r, delivered, C.Sampled(Some(k.invocationId), k.sample));
  }
}
