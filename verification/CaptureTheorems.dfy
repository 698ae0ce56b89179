/** The promises of a whole capture. */
module CaptureTheorems {
  import opened Domain
  import opened Sequences
  import opened Sorting
  import K = Kernel
  import KI = KernelInvariant
  import C = Collector
  import opened Interning
  import opened SourceMode
  import opened SourceFinish
  import opened Adapter
  import opened EndToEnd
  import opened CapturedProfile
  import V = Validation

  ghost function Ids(r: Request, delivered: seq<K.Event>): seq<u64> {
    C.SortedIds(VerdictsOf(r, delivered).Keys)
  }

  ghost function KeptBy(r: Request, delivered: seq<K.Event>): seq<Kept> {
    KeptAll(VerdictsOf(r, delivered), Ids(r, delivered), r.now)
  }

  ghost function ReportedBy(r: Request, delivered: seq<K.Event>): seq<Invocation> {
    Reported(VerdictsOf(r, delivered), Ids(r, delivered), r.now)
  }

  /** A captured profile in closed form. */
  ghost predicate CapturedAs(p: Profile, r: Request, invocations: seq<Invocation>, kept: seq<Kept>) {
    && p.formatVersion == 1 && p.functions == [r.function_]
    && p.invocations == invocations
    && |p.stacks| <= U32_MAX
    && (forall i | 0 <= i < |p.stacks| :: p.stacks[i].id == i + 1 && p.stacks[i].frames in Universe(r))
    && (forall i | 0 <= i < |p.samples| :: StackOf(p.stacks, p.samples[i].stackId).Some?)
    && Resolved(p) == kept
  }

  lemma {:induction false} CaptureForm(s: K.State, r: Request, delivered: seq<K.Event>)
    requires Delivered(s, delivered) && Symbolized(r.table)
    ensures CapturedAs(Capture(r, delivered), r, ReportedBy(r, delivered), KeptBy(r, delivered))
  {
    var es := Events(r, delivered);
    ReplayConsistent(s, r, delivered);
    FinishForm([r.function_], StartQuality(r), es, r.now, []);
    StacksAreInterned([r.function_], StartQuality(r), es, r.now, []);
    FewStacks(s, r, delivered);
    var p := C.Finish(Replayed(r, delivered), r.now, []);
    FinishedAs(p, p.quality, Capture(r, delivered), r, ReportedBy(r, delivered), KeptBy(r, delivered));
  }

  lemma {:induction false} FinishedAs(p: Profile, q: Quality, captured: Profile, r: Request,
                                      invocations: seq<Invocation>, kept: seq<Kept>)
    requires Finished(p, [r.function_], q, kept, invocations)
    requires FramesIn(kept) <= Universe(r) && |FramesIn(kept)| <= U32_MAX
    requires forall i | 0 <= i < |p.samples| :: StackOf(p.stacks, p.samples[i].stackId).Some?
    requires captured == p.(threads := captured.threads, quality := captured.quality)
    ensures CapturedAs(captured, r, invocations, kept)
  {
  }

  lemma {:induction false} FewStacks(s: K.State, r: Request, delivered: seq<K.Event>)
    requires Delivered(s, delivered) && Symbolized(r.table)
    ensures FramesIn(KeptBy(r, delivered)) <= Universe(r) && |FramesIn(KeptBy(r, delivered))| <= U32_MAX
  {
    forall f | f in FramesIn(KeptBy(r, delivered)) ensures f in Universe(r) {
      var k :| k in KeptBy(r, delivered) && k.sample.frames == f;
      var e := KeptOrigin(s, r, delivered, k);
      InUniverse(r, e);
    }
    SubsetSmall(FramesIn(KeptBy(r, delivered)), Universe(r));
    UniverseSmall(r);
  }

  /** What the counters of a captured profile count. */
  ghost predicate Counts(q: Quality, is_: seq<Invocation>, es: seq<C.CollectorEvent>) {
    && q.completeInvocations == Cap(V.CountedIn(is_))
    && q.incompleteInvocations == Cap(|is_| - V.CountedIn(is_))
    && q.samplesGenerated == Cap(Sum(SampleWeight, es))
  }

  lemma {:induction false} CaptureCounters(s: K.State, r: Request, delivered: seq<K.Event>)
    requires Delivered(s, delivered)
    ensures Counts(Capture(r, delivered).quality, ReportedBy(r, delivered), Events(r, delivered))
  {
    CaptureQuality(s, r, delivered);
    CountersForm(r, Events(r, delivered), Replayed(r, delivered).c.sourceInvocations,
                 VerdictsOf(r, delivered), Ids(r, delivered), Capture(r, delivered).quality);
  }

  ghost predicate Ends(q: Quality, r: Request, es: seq<C.CollectorEvent>, x: map<u64, C.SourceInvocation>,
                       records: map<u64, C.SourceInvocation>, ids: seq<u64>)
  {
    q == ScoredAll(C.SuspectedOf(Tallied(StartQuality(r), es), x, ViolationsOf(es)), records, ids, r.now)
         .(eventsGenerated := q.eventsGenerated)
  }

  lemma {:induction false} CaptureQuality(s: K.State, r: Request, delivered: seq<K.Event>)
    requires Delivered(s, delivered)
    ensures Ends(Capture(r, delivered).quality, r, Events(r, delivered), Replayed(r, delivered).c.sourceInvocations,
                 VerdictsOf(r, delivered), Ids(r, delivered))
  {
    ReplayConsistent(s, r, delivered);
    FinishForm([r.function_], StartQuality(r), Events(r, delivered), r.now, []);
  }

  lemma {:induction false} CountersForm(r: Request, es: seq<C.CollectorEvent>, x: map<u64, C.SourceInvocation>,
                                        records: map<u64, C.SourceInvocation>, ids: seq<u64>, q: Quality)
    requires forall id | id in ids :: id in records
    requires Ends(q, r, es, x, records, ids)
    ensures Counts(q, Reported(records, ids, r.now), es)
  {
    ReportedCounts(records, ids, r.now);
  }

  /** No more samples are kept than were delivered. */
  lemma {:induction false} KeptAtMost(s: K.State, r: Request, delivered: seq<K.Event>)
    requires Delivered(s, delivered)
    ensures |KeptBy(r, delivered)| <= Sum(SampleWeight, Events(r, delivered)) <= |delivered|
  {
    var es := Events(r, delivered);
    ReplayConsistent(s, r, delivered);
    KeptPart([r.function_], StartQuality(r), es, r.now);
    PartLength(KeptBy(r, delivered), AllSamples(es));
    AllSamplesLength(es);
    SamplesBounded(es);
    SortedPart(s, delivered);
    PartLength(SortEvents(delivered), delivered);
  }

  lemma {:induction false} SamplesBounded(es: seq<C.CollectorEvent>)
    ensures Sum(SampleWeight, es) <= |es|
  {
    if es != [] { SamplesBounded(es[..|es| - 1]); }
  }

  /** The reported invocations and the verdicts name each other. */
  lemma {:induction false} ReportedVerdicts(s: K.State, r: Request, delivered: seq<K.Event>)
    requires Delivered(s, delivered)
    ensures Lists(ReportedBy(r, delivered), VerdictsOf(r, delivered), Ids(r, delivered), r.now)
  {
    ReplayConsistent(s, r, delivered);
    VerdictsKeyed([r.function_], StartQuality(r), Events(r, delivered));
    ReportedInOrder(VerdictsOf(r, delivered), r.now);
  }

  // ---- Soundness and completeness of the reported invocations ----

  /** An invocation of the profile is the life with its id; its flags say what was delivered of it. */
  ghost predicate Sound(lives: map<u64, K.Life>, r: Request, delivered: seq<K.Event>, i: Invocation) {
    && i.id in lives
    && i.functionId == r.function_.id
    && i.parentId == None
    && i.tid == lives[i.id].tid
    && i.startNs == lives[i.id].startNs <= i.endNs
    && (i.complete <==> EntrySeen(delivered, i.id) && ReturnSeen(delivered, i.id))
    && (i.complete ==> lives[i.id].endNs == Some(i.endNs))
    && (i.valid <==> i.complete && !ViolationSeen(delivered, i.tid, i.startNs, i.endNs))
  }

  /**
   In every run, whatever is delivered in whatever order: every invocation of the profile is sound, and
   there is one exactly for each life whose entry was delivered.
   */
  lemma {:induction false} InvocationsSound(s: K.State, r: Request, delivered: seq<K.Event>)
    requires Delivered(s, delivered) && Symbolized(r.table)
    ensures
      var p := Capture(r, delivered);
      && (forall i | 0 <= i < |p.invocations| :: Sound(s.k.lives, r, delivered, p.invocations[i]))
      && (forall i, j | 0 <= i < j < |p.invocations| :: p.invocations[i].id != p.invocations[j].id)
      && (forall id :: EntrySeen(delivered, id) <==> exists i :: 0 <= i < |p.invocations| && p.invocations[i].id == id)
  {
    var p := Capture(r, delivered);
    var records := VerdictsOf(r, delivered);
    CaptureForm(s, r, delivered);
    ReportedVerdicts(s, r, delivered);
    forall i | 0 <= i < |p.invocations| ensures Sound(s.k.lives, r, delivered, p.invocations[i]) {
      VerdictsTrue(s, r, delivered, p.invocations[i].id);
    }
    forall id: u64
      ensures EntrySeen(delivered, id) <==> exists i :: 0 <= i < |p.invocations| && p.invocations[i].id == id
    {
      EntryReported(s, r, delivered, id);
      if EntrySeen(delivered, id) {
        assert records[id].Report(r.now) in p.invocations;
      }
      if i :| 0 <= i < |p.invocations| && p.invocations[i].id == id { VerdictsTrue(s, r, delivered, id); }
    }
  }

  lemma {:induction false} EntryReported(s: K.State, r: Request, delivered: seq<K.Event>, id: u64)
    requires Delivered(s, delivered)
    ensures EntrySeen(delivered, id) ==>
              id in VerdictsOf(r, delivered) && VerdictsOf(r, delivered)[id].IsReported()
              && VerdictsOf(r, delivered)[id].id == id
  {
    if e :| e in delivered && e.kind == K.ENTRY && e.invocationId == id {
      SortedPart(s, delivered);
      Replays(r, delivered, e);
      ReplayConsistent(s, r, delivered);
      VerdictsKeyed([r.function_], StartQuality(r), Events(r, delivered));
      assert IdOf(Translate(e, r.function_, r.table)) == Some(id);
      assert Mentioned(id, Events(r, delivered));
      VerdictsTrue(s, r, delivered, id);
    }
  }

  /** Two complete invocations of one thread never overlap, except that one may start when the other ends. */
  lemma {:induction false} NeverOverlap(s: K.State, r: Request, delivered: seq<K.Event>, i: Invocation, j: Invocation)
    requires Delivered(s, delivered) && Symbolized(r.table)
    requires i in Capture(r, delivered).invocations && j in Capture(r, delivered).invocations
    requires i.complete && j.complete && i.tid == j.tid && i.id < j.id
    ensures i.endNs <= j.startNs
  {
    InvocationsSound(s, r, delivered);
  }

  // ---- The captured profile is well-formed ----

  lemma {:induction false} InvocationsOk(s: K.State, r: Request, delivered: seq<K.Event>)
    requires Delivered(s, delivered) && Symbolized(r.table)
    ensures
      var p := Capture(r, delivered);
      forall i | 0 <= i < |p.invocations| :: V.InvocationOk(p, p.invocations[i])
  {
    CaptureForm(s, r, delivered);
    ThreadsKnown(r, delivered);
    InvocationsFlat(s, r, delivered);
    FlatOk(Capture(r, delivered), r);
  }

  lemma {:induction false} ThreadsKnown(r: Request, delivered: seq<K.Event>)
    ensures
      var p := Capture(r, delivered);
      forall i | 0 <= i < |p.invocations| :: p.invocations[i].tid as u64 in V.ThreadIds(p.threads)
  {
    var p := Capture(r, delivered);
    forall i | 0 <= i < |p.invocations| ensures p.invocations[i].tid as u64 in V.ThreadIds(p.threads) {
      ThreadsListed(r, delivered, p.invocations[i].tid);
      assert p.invocations[i].tid in TidsOf(p);
    }
  }

  /** No parent, one function, an end that is not before the start. */
  predicate Flat(r: Request, i: Invocation) {
    i.functionId == r.function_.id && i.parentId == None && i.startNs <= i.endNs
  }

  lemma {:induction false} InvocationsFlat(s: K.State, r: Request, delivered: seq<K.Event>)
    requires Delivered(s, delivered) && Symbolized(r.table)
    ensures
      var p := Capture(r, delivered);
      forall i | 0 <= i < |p.invocations| :: Flat(r, p.invocations[i])
  {
    InvocationsSound(s, r, delivered);
    var p := Capture(r, delivered);
    forall i | 0 <= i < |p.invocations| ensures Flat(r, p.invocations[i]) {
      assert Sound(s.k.lives, r, delivered, p.invocations[i]);
    }
  }

  lemma {:induction false} FlatOk(p: Profile, r: Request)
    requires p.functions == [r.function_]
    requires forall i | 0 <= i < |p.invocations| :: Flat(r, p.invocations[i])
    requires forall i | 0 <= i < |p.invocations| :: p.invocations[i].tid as u64 in V.ThreadIds(p.threads)
    ensures forall i | 0 <= i < |p.invocations| :: V.InvocationOk(p, p.invocations[i])
  {
    assert V.FunctionIds(p.functions)[0] == r.function_.id;
    forall i | 0 <= i < |p.invocations| ensures V.InvocationOk(p, p.invocations[i]) {
      NoParents(p.invocations, p.invocations[i].id);
      assert V.Ancestor(p.invocations, p.invocations[i].id, 1) == None;
    }
  }

  lemma {:induction false} NoParents(calls: seq<Invocation>, id: u64)
    requires forall i | 0 <= i < |calls| :: calls[i].parentId == None
    ensures V.ParentOf(calls, id) == None
  {
    if calls != [] { NoParents(calls[..|calls| - 1], id); }
  }

  lemma {:induction false} ThreadsListed(r: Request, delivered: seq<K.Event>, tid: u32)
    ensures
      var p := Capture(r, delivered);
      && (tid in TidsOf(p) <==> tid as u64 in V.ThreadIds(p.threads))
      && Distinct(V.ThreadIds(p.threads))
  {
    var p := Capture(r, delivered);
    InOrderMembers(TidLe, TidsOf(p));
    NamesListed(p.threads, InOrder(TidLe, TidsOf(p)), tid);
  }

  lemma {:induction false} NamesListed(threads: seq<Thread>, tids: seq<u32>, tid: u32)
    requires Distinct(tids) && |threads| == |tids| && forall i | 0 <= i < |tids| :: threads[i].tid == tids[i]
    ensures tid in tids <==> tid as u64 in V.ThreadIds(threads)
    ensures Distinct(V.ThreadIds(threads))
  {
    var ids := V.ThreadIds(threads);
    forall i | 0 <= i < |tids| ensures ids[i] == tids[i] {
      assert ids[i] == threads[i].tid;
    }
    if tid in tids {
      var i :| 0 <= i < |tids| && tids[i] == tid;
      assert ids[i] == tid;
    }
  }

  lemma {:induction false} StacksOk(s: K.State, r: Request, delivered: seq<K.Event>)
    requires Delivered(s, delivered) && Symbolized(r.table)
    ensures
      var p := Capture(r, delivered);
      && Distinct(V.StackIds(p.stacks))
      && forall i | 0 <= i < |p.stacks| :: V.StackOk(p, p.stacks[i])
  {
    var p := Capture(r, delivered);
    CaptureForm(s, r, delivered);
    assert V.FunctionIds(p.functions)[0] == r.function_.id;
    forall i | 0 <= i < |p.stacks| ensures V.StackOk(p, p.stacks[i]) {
      UniverseFrames(r, p.stacks[i].frames);
    }
  }

  lemma {:induction false} UniverseFrames(r: Request, frames: seq<Frame>)
    requires Symbolized(r.table) && frames in Universe(r)
    ensures forall i | 0 <= i < |frames| :: frames[i].functionId.None? || frames[i].functionId == Some(r.function_.id)
  {
  }

  lemma {:induction false} StackOfListed(stacks: seq<Stack>, id: u32)
    requires StackOf(stacks, id).Some?
    ensures id as u64 in V.StackIds(stacks)
  {
    var n := |stacks| - 1;
    if stacks[n].id == id {
      assert V.StackIds(stacks)[n] == id;
    } else {
      StackOfListed(stacks[..n], id);
      var i :| 0 <= i < n && V.StackIds(stacks[..n])[i] == id;
      assert V.StackIds(stacks)[i] == id;
    }
  }

  lemma {:induction false} SamplesOk(s: K.State, r: Request, delivered: seq<K.Event>)
    requires Delivered(s, delivered) && Symbolized(r.table)
    ensures
      var p := Capture(r, delivered);
      forall k | 0 <= k < |p.samples| :: V.SampleOk(p, p.samples[k])
  {
    var p := Capture(r, delivered);
    CaptureForm(s, r, delivered);
    forall k | 0 <= k < |p.samples| ensures V.SampleOk(p, p.samples[k]) {
      var kept := KeptBy(r, delivered)[k];
      assert Resolve(p.stacks, p.samples[k]) == Resolved(p)[k] == kept;
      KeptWithin(s, r, delivered, kept);
      ResolvedOk(p, p.samples[k], kept);
    }
  }

  lemma {:induction false} ResolvedOk(p: Profile, x: Sample, k: Kept)
    requires Resolve(p.stacks, x) == k && StackOf(p.stacks, x.stackId).Some?
    requires exists i :: 0 <= i < |p.invocations| && KeptIn(k, p.invocations[i])
    ensures V.SampleOk(p, x)
  {
    StackOfListed(p.stacks, x.stackId);
    var i :| 0 <= i < |p.invocations| && KeptIn(k, p.invocations[i]);
    assert V.SampleWithin(x, p.invocations[i]);
  }

  predicate KeptIn(k: Kept, i: Invocation) {
    k.invocationId == i.id && k.sample.tid == i.tid && i.startNs <= k.sample.timestampNs <= i.endNs && i.Counted()
  }

  /** A kept sample lies in a complete and valid invocation of its thread. */
  lemma {:induction false} KeptWithin(s: K.State, r: Request, delivered: seq<K.Event>, k: Kept)
    requires Delivered(s, delivered) && Symbolized(r.table) && k in KeptBy(r, delivered)
    ensures
      var p := Capture(r, delivered);
      exists i :: 0 <= i < |p.invocations| && KeptIn(k, p.invocations[i])
  {
    var p := Capture(r, delivered);
    CaptureForm(s, r, delivered);
    ReportedVerdicts(s, r, delivered);
    KeptReport(s, r, delivered, k);
    var i :| 0 <= i < |p.invocations| && p.invocations[i] == VerdictsOf(r, delivered)[k.invocationId].Report(r.now);
    assert KeptIn(k, p.invocations[i]);
  }

  lemma {:induction false} KeptReport(s: K.State, r: Request, delivered: seq<K.Event>, k: Kept)
    requires Delivered(s, delivered) && k in KeptBy(r, delivered)
    ensures Keeping(VerdictsOf(r, delivered), k, r.now)
    ensures KeptIn(k, VerdictsOf(r, delivered)[k.invocationId].Report(r.now))
  {
    var e := KeptOrigin(s, r, delivered, k);
    SortedPart(s, delivered);
    assert KI.EventOk(s.k, e);
    VerdictsTrue(s, r, delivered, k.invocationId);
  }

  lemma {:induction false} CountersOk(s: K.State, r: Request, delivered: seq<K.Event>)
    requires Delivered(s, delivered) && Symbolized(r.table) && |delivered| <= U64_MAX
    ensures V.CountersOk(Capture(r, delivered))
  {
    var p := Capture(r, delivered);
    CaptureForm(s, r, delivered);
    CaptureCounters(s, r, delivered);
    KeptAtMost(s, r, delivered);
    assert |Resolved(p)| == |p.samples|;
  }

  lemma {:induction false} InvocationIdsDiffer(calls: seq<Invocation>)
    requires forall i, j | 0 <= i < j < |calls| :: calls[i].id != calls[j].id
    ensures Distinct(V.InvocationIds(calls))
  {
    var ids := V.InvocationIds(calls);
    forall i, j | 0 <= i < j < |ids| ensures ids[i] != ids[j] {
      assert ids[i] == calls[i].id && ids[j] == calls[j].id;
    }
  }

  lemma {:induction false} OneFunction(function_: Function)
    ensures Distinct(V.FunctionIds([function_]))
  {
    assert |V.FunctionIds([function_])| == 1;
  }

  /** What validation asks of the ids, from what is known of each list. */
  lemma {:induction false} IdsTogether(p: Profile, function_: Function)
    requires p.functions == [function_] && Distinct(V.ThreadIds(p.threads)) && Distinct(V.StackIds(p.stacks))
    requires forall i, j | 0 <= i < j < |p.invocations| :: p.invocations[i].id != p.invocations[j].id
    ensures V.IdsOk(p)
  {
    OneFunction(function_);
    InvocationIdsDiffer(p.invocations);
  }

  lemma {:induction false} CapturedIdsDiffer(s: K.State, r: Request, delivered: seq<K.Event>)
    requires Delivered(s, delivered) && Symbolized(r.table)
    ensures
      var calls := Capture(r, delivered).invocations;
      forall i, j | 0 <= i < j < |calls| :: calls[i].id != calls[j].id
  {
    CaptureForm(s, r, delivered);
    ReportedVerdicts(s, r, delivered);
  }

  lemma {:induction false} IdsOk(s: K.State, r: Request, delivered: seq<K.Event>)
    requires Delivered(s, delivered) && Symbolized(r.table)
    ensures V.IdsOk(Capture(r, delivered))
  {
    var p := Capture(r, delivered);
    CaptureForm(s, r, delivered);
    StacksOk(s, r, delivered);
    CapturedIdsDiffer(s, r, delivered);
    ThreadsListed(r, delivered, 0);
    IdsTogether(p, r.function_);
  }

  /**
   End-to-end validity. For every interleaving of the kernel handlers, every part of the ring that is
   delivered and every delivery order, the captured profile is well-formed, so `validate` answers Ok.
   (A vector's length fits a 64-bit counter.)
   */
  lemma {:induction false} CaptureIsWellFormed(actions: seq<K.Action>, period: u64, r: Request, delivered: seq<K.Event>)
    requires multiset(delivered) <= multiset(K.After(actions, period).ring)
    requires Symbolized(r.table) && |delivered| <= U64_MAX
    ensures V.WellFormed(Capture(r, delivered)) && V.FirstFault(Capture(r, delivered)) == None
  {
    var s := K.After(actions, period);
    KI.RunsKeep(actions, period);
    InvocationsOk(s, r, delivered);
    StacksOk(s, r, delivered);
    SamplesOk(s, r, delivered);
    IdsOk(s, r, delivered);
    CountersOk(s, r, delivered);
    CaptureForm(s, r, delivered);
    V.FirstFaultDecides(Capture(r, delivered));
  }
}
