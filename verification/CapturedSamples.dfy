/** The samples of a captured profile, record by record: weights, states and frames. */
module CapturedSamples {
  import opened Domain
  import opened Sequences
  import opened Sorting
  import K = Kernel
  import KI = KernelInvariant
  import RingOrigins
  import C = Collector
  import opened Interning
  import opened Adapter
  import opened EndToEnd
  import opened CapturedProfile
  import opened CaptureTheorems
  import opened Queries
  import QT = QueryTheorems
  import opened Ranks
  import opened AnswerMeaning

  // ---- Which sample a record stands for ----

  /** The frames are those that were read back for the slot; a slot that was not read back has none. */
  predicate FromSlot(table: StackTable, slot: K.StackRef, frames: seq<Frame>) {
    if slot in table then frames == table[slot] else frames == []
  }

  /** The frame has the name or the id of the function. */
  predicate Mentions(f: Frame, function_: Function) {
    f.name == function_.demangledName || f.functionId == Some(function_.id)
  }

  predicate MentionedIn(frames: seq<Frame>, function_: Function) {
    exists n | 0 <= n < |frames| :: Mentions(frames[n], function_)
  }

  /** The frames of the slot if one of them mentions the function, and otherwise those behind a root frame of it. */
  predicate RootedFrom(r: Request, slot: K.StackRef, frames: seq<Frame>) {
    || (FromSlot(r.table, slot, frames) && MentionedIn(frames, r.function_))
    || (frames != [] && FromSlot(r.table, slot, frames[1..]) && !MentionedIn(frames[1..], r.function_)
        && frames[0].functionId == Some(r.function_.id) && frames[0].name == r.function_.demangledName
        && frames[0].moduleName == Some(r.function_.moduleName) && frames[0].address == Some(r.function_.address))
  }

  /** The sample is what the record says: on the CPU with the frames walked, or off it with a root if need be. */
  predicate ShowsAs(r: Request, e: K.Event, k: Kept) {
    var x := k.sample;
    && k.invocationId == e.invocationId && x.tid == e.tid && x.timestampNs == e.timestampNs
    && x.cpu == e.cpu && x.weightNs == e.weightNs
    && (|| (e.kind == K.SAMPLE && x.state == OnCpu && FromSlot(r.table, e.stackId, x.frames))
        || (e.kind == K.OFFCPU && x.state == OffCpu && RootedFrom(r, e.stackId, x.frames)))
  }

  lemma {:induction false} RootedIs(r: Request, slot: K.StackRef, frames: seq<Frame>)
    ensures RootedFrom(r, slot, frames) <==> frames == WithFallback(FramesAt(r.table, slot), r.function_)
  {
    var base := FramesAt(r.table, slot);
    assert MentionedIn(base, r.function_) <==> exists i | 0 <= i < |base| :: Selects(base[i], r.function_) by {
      if MentionedIn(base, r.function_) {
        var n :| 0 <= n < |base| && Mentions(base[n], r.function_);
        assert Selects(base[n], r.function_);
      }
      if i :| 0 <= i < |base| && Selects(base[i], r.function_) { assert Mentions(base[i], r.function_); }
    }
    if frames != [] { assert frames == [frames[0]] + frames[1..]; }
  }

  lemma {:induction false} ShowsIs(r: Request, e: K.Event, k: Kept)
    ensures ShowsAs(r, e, k) <==> Translate(e, r.function_, r.table) == C.Sampled(Some(k.invocationId), k.sample)
  {
    RootedIs(r, e.stackId, k.sample.frames);
  }

  // ---- Every sample counts its records ----

  function Shown(r: Request, k: Kept): K.Event -> nat {
    (e: K.Event) => if ShowsAs(r, e, k) then 1 else 0
  }

  lemma {:induction false} CountShown(r: Request, events: seq<K.Event>, k: Kept)
    ensures multiset(TranslateAll(events, r.function_, r.table))[C.Sampled(Some(k.invocationId), k.sample)]
         == Sum(Shown(r, k), events)
  {
    if events != [] {
      var front, e := events[..|events| - 1], events[|events| - 1];
      CountShown(r, front, k);
      ShowsIs(r, e, k);
      assert TranslateAll(events, r.function_, r.table)
          == TranslateAll(front, r.function_, r.table) + [Translate(e, r.function_, r.table)];
    }
  }

  /** The sample lies within a complete and valid invocation of its id, both ends included. */
  predicate CoveredIn(calls: seq<Invocation>, k: Kept) {
    exists n | 0 <= n < |calls| :: CoveredBy(calls[n], k)
  }

  predicate CoveredBy(i: Invocation, k: Kept) {
    i.id == k.invocationId && i.complete && i.valid && i.startNs <= k.sample.timestampNs <= i.endNs
  }

  lemma {:induction false} KeepingIs(s: K.State, r: Request, delivered: seq<K.Event>, k: Kept)
    requires Delivered(s, delivered) && Symbolized(r.table)
    ensures Keeping(VerdictsOf(r, delivered), k, r.now) <==> CoveredIn(Capture(r, delivered).invocations, k)
  {
    var records := VerdictsOf(r, delivered);
    CaptureForm(s, r, delivered);
    ReportedVerdicts(s, r, delivered);
    ReplayConsistent(s, r, delivered);
    VerdictsKeyed([r.function_], StartQuality(r), Events(r, delivered));
    InOrderMembers(C.Ascending, records.Keys);
    ListedCovers(Capture(r, delivered).invocations, records, Ids(r, delivered), r.now, k);
  }

  lemma {:induction false} ListedCovers(calls: seq<Invocation>, records: map<u64, C.SourceInvocation>, ids: seq<u64>,
                                        now: u64, k: Kept)
    requires Keyed(records) && Lists(calls, records, ids, now) && forall id :: id in ids <==> id in records
    ensures Keeping(records, k, now) <==> CoveredIn(calls, k)
  {
    if Keeping(records, k, now) {
      var i := records[k.invocationId].Report(now);
      assert i in calls;
      var n :| 0 <= n < |calls| && calls[n] == i;
      assert CoveredBy(calls[n], k);
    }
    if n :| 0 <= n < |calls| && CoveredBy(calls[n], k) {
      assert Reports(records, now, calls[n]);
    }
  }

  /**
   In every run, under every loss and delivery order: the profile holds a sample as often as delivered records
   stand for it if it lies within a complete and valid invocation, and not at all otherwise.
   */
  lemma {:induction false} SamplesCountRecords(s: K.State, r: Request, delivered: seq<K.Event>, k: Kept)
    requires Delivered(s, delivered) && Symbolized(r.table)
    ensures
      var p := Capture(r, delivered);
      multiset(Resolved(p))[k] == if CoveredIn(p.invocations, k) then Sum(Shown(r, k), delivered) else 0
  {
    var es := Events(r, delivered);
    ReplayConsistent(s, r, delivered);
    CaptureForm(s, r, delivered);
    SamplesAccounted([r.function_], StartQuality(r), es, r.now, k);
    KeepingIs(s, r, delivered, k);
    CountShown(r, SortEvents(delivered), k);
    SortMembers(EventLe, delivered);
    SumReorder(Shown(r, k), SortEvents(delivered), delivered);
  }

  lemma {:induction false} RecordShown(r: Request, events: seq<K.Event>, k: Kept) returns (e: K.Event)
    requires Sum(Shown(r, k), events) > 0
    ensures e in events && ShowsAs(r, e, k)
  {
    e := events[|events| - 1];
    if !ShowsAs(r, e, k) { e := RecordShown(r, events[..|events| - 1], k); }
  }

  /** Behind every sample of the profile there is a delivered record. */
  lemma {:induction false} SampleHasRecord(s: K.State, r: Request, delivered: seq<K.Event>, n: nat) returns (e: K.Event)
    requires Delivered(s, delivered) && Symbolized(r.table) && n < |Capture(r, delivered).samples|
    ensures e in delivered && ShowsAs(r, e, Resolved(Capture(r, delivered))[n])
  {
    var k := Resolved(Capture(r, delivered))[n];
    SamplesCountRecords(s, r, delivered, k);
    assert k in multiset(Resolved(Capture(r, delivered)));
    e := RecordShown(r, delivered, k);
  }

  // ---- On-CPU time ----

  /** Every on-CPU sample of a captured profile weighs one sampling period. */
  lemma {:induction false} OnCpuWeighsPeriod(actions: seq<K.Action>, period: u64, r: Request,
                                             delivered: seq<K.Event>, x: Sample)
    requires multiset(delivered) <= multiset(K.After(actions, period).ring) && Symbolized(r.table)
    requires x in Capture(r, delivered).samples && x.state == OnCpu
    ensures x.weightNs == period
  {
    var s, p := K.After(actions, period), Capture(r, delivered);
    KI.RunsKeep(actions, period);
    var n :| 0 <= n < |p.samples| && p.samples[n] == x;
    assert Resolved(p)[n] == Resolve(p.stacks, x);
    var e := SampleHasRecord(s, r, delivered, n);
    PartMember(delivered, s.ring, e);
    RingOrigins.SamplesHaveOrigin(actions, period, e);
  }

  /** How many samples of a state a query counts. */
  ghost function CountOf(p: Profile, q: Query, state: ExecutionState): Sample -> nat
    requires q.percentile.Legal()
  {
    (x: Sample) => if x.state == state && CountsBelow(p, q, x, []) then 1 else 0
  }

  lemma {:induction false} WeighedAlike(p: Profile, q: Query, state: ExecutionState, period: u64, samples: seq<Sample>)
    requires q.percentile.Legal() && forall x | x in samples && x.state == state :: x.weightNs == period
    ensures Sum(WeightOf(p, q, state), samples) == Times(period, Sum(CountOf(p, q, state), samples))
  {
    if samples != [] {
      var front, x := samples[..|samples| - 1], samples[|samples| - 1];
      assert x in samples && forall y | y in front :: y in samples;
      WeighedAlike(p, q, state, period, front);
    }
  }

  /** In every run the CPU time of an answer is the sampling period times the number of samples it counts, capped. */
  lemma {:induction false} CpuTimeIsPeriods(actions: seq<K.Action>, period: u64, r: Request,
                                            delivered: seq<K.Event>, q: Query)
    requires multiset(delivered) <= multiset(K.After(actions, period).ring) && Symbolized(r.table)
    requires q.percentile.Legal()
    ensures
      var p := Capture(r, delivered);
      Report(p, q).sampledCpuNs == Cap(Times(period, Sum(CountOf(p, q, OnCpu), p.samples)))
  {
    var p := Capture(r, delivered);
    forall x | x in p.samples && x.state == OnCpu ensures x.weightNs == period {
      OnCpuWeighsPeriod(actions, period, r, delivered, x);
    }
    WeighedAlike(p, q, OnCpu, period, p.samples);
    TotalsSay(p, q);
    CpuTotal(p, q, period, Report(p, q));
  }

  lemma {:induction false} CpuTotal(p: Profile, q: Query, period: u64, r: QueryResult)
    requires q.percentile.Legal() && TotalsAre(p, q, r)
    requires Sum(WeightOf(p, q, OnCpu), p.samples) == Times(period, Sum(CountOf(p, q, OnCpu), p.samples))
    ensures r.sampledCpuNs == Cap(Times(period, Sum(CountOf(p, q, OnCpu), p.samples)))
  {
  }

  // ---- Off-CPU time ----

  /** Every off-CPU sample has a frame of the captured function, so a query for it cuts the stack. */
  lemma {:induction false} OffCpuIsCut(s: K.State, r: Request, delivered: seq<K.Event>, q: Query, x: Sample)
    requires Delivered(s, delivered) && Symbolized(r.table)
    requires q.percentile.Legal() && q.functionId == r.function_.id
    requires x in Capture(r, delivered).samples && x.state == OffCpu
    ensures StackBegins(Capture(r, delivered), q, x, [])
  {
    var p := Capture(r, delivered);
    var n :| 0 <= n < |p.samples| && p.samples[n] == x;
    var k := Resolved(p)[n];
    assert k == Resolve(p.stacks, x);
    var e := SampleHasRecord(s, r, delivered, n);
    CaptureForm(s, r, delivered);
    assert StackOf(p.stacks, p.samples[n].stackId).Some?;
    assert MentionedIn(k.sample.frames, r.function_) by {
      if !MentionedIn(k.sample.frames[1..], r.function_) && k.sample.frames[0].functionId == Some(r.function_.id) {
        assert Mentions(k.sample.frames[0], r.function_);
      }
    }
    assert p.functions == [r.function_];
    MentionCuts(p, q, r.function_, k.sample.frames);
    StackCut(p, q, x, []);
  }

  lemma {:induction false} MentionCuts(p: Profile, q: Query, function_: Function, frames: seq<Frame>)
    requires q.percentile.Legal() && p.functions == [function_] && q.functionId == function_.id
    requires MentionedIn(frames, function_)
    ensures Cut(LensOf(p, q).target, frames).Some?
  {
    var n :| 0 <= n < |frames| && Mentions(frames[n], function_);
    assert LensOf(p, q).target.Is(frames[n]);
    QT.NoCut(LensOf(p, q).target, frames);
  }

  /** The off-CPU weight of the samples of the selected calls. */
  ghost function SelectedOff(p: Profile, q: Query): Sample -> nat
    requires q.percentile.Legal()
  {
    (x: Sample) => if x.state == OffCpu && IsSelected(p, q, x.invocationId) then x.weightNs else 0
  }

  /**
   In every run, for a query on the captured function whose metric measures off-CPU time: the answer reports
   all the off-CPU time of the selected calls, capped, also where the stack walk failed.
   */
  lemma {:induction false} OffCpuTimeComplete(s: K.State, r: Request, delivered: seq<K.Event>, q: Query)
    requires Delivered(s, delivered) && Symbolized(r.table)
    requires q.percentile.Legal() && q.functionId == r.function_.id && q.metric != CpuTime
    ensures
      var p := Capture(r, delivered);
      Report(p, q).offCpuNs == Cap(Sum(SelectedOff(p, q), p.samples))
  {
    var p := Capture(r, delivered);
    forall n | 0 <= n < |p.samples|
      ensures WeightOf(p, q, OffCpu)(p.samples[n]) == SelectedOff(p, q)(p.samples[n])
    {
      if p.samples[n].state == OffCpu { OffCpuIsCut(s, r, delivered, q, p.samples[n]); }
    }
    SumAgree(WeightOf(p, q, OffCpu), p.samples, SelectedOff(p, q), p.samples);
    TotalsSay(p, q);
    OffTotal(p, q, Report(p, q));
  }

  lemma {:induction false} OffTotal(p: Profile, q: Query, r: QueryResult)
    requires q.percentile.Legal() && TotalsAre(p, q, r)
    requires Sum(WeightOf(p, q, OffCpu), p.samples) == Sum(SelectedOff(p, q), p.samples)
    ensures r.offCpuNs == Cap(Sum(SelectedOff(p, q), p.samples))
  {
  }

  // ---- Threads ----

  ghost predicate HasThread(threads: seq<Thread>, tid: u32) {
    exists i :: 0 <= i < |threads| && threads[i].tid == tid
  }

  /** A call or a sample is of the thread. */
  ghost predicate SeenIn(p: Profile, tid: u32) {
    (exists n :: 0 <= n < |p.invocations| && p.invocations[n].tid == tid)
    || exists n :: 0 <= n < |p.samples| && p.samples[n].tid == tid
  }

  ghost predicate ThreadsAre(p: Profile, names: map<u32, string>) {
    && (forall i, j | 0 <= i < j < |p.threads| :: p.threads[i].tid < p.threads[j].tid)
    && (forall i | 0 <= i < |p.threads| ::
          p.threads[i].name == if p.threads[i].tid in names then Some(names[p.threads[i].tid]) else None)
    && (forall tid :: HasThread(p.threads, tid) <==> SeenIn(p, tid))
  }

  lemma {:induction false} RebuiltThreads(p: Profile, names: map<u32, string>)
    ensures ThreadsAre(RebuildThreads(p, names), names)
  {
    var tids, rebuilt := InOrder(TidLe, TidsOf(p)), RebuildThreads(p, names);
    InOrderMembers(TidLe, TidsOf(p));
    forall i, j | 0 <= i < j < |tids| ensures tids[i] < tids[j] {
      assert TidLe(tids[i], tids[j]) && tids[i] != tids[j];
    }
    forall tid ensures HasThread(rebuilt.threads, tid) <==> SeenIn(rebuilt, tid) {
      ThreadRebuilt(p, tids, names, tid);
      assert SeenIn(rebuilt, tid) <==> SeenIn(p, tid);
    }
  }

  lemma {:induction false} ThreadRebuilt(p: Profile, tids: seq<u32>, names: map<u32, string>, tid: u32)
    requires forall x :: x in tids <==> x in TidsOf(p)
    ensures HasThread(seq(|tids|, i requires 0 <= i < |tids| => Adapter.NameOf(names, tids[i])), tid)
         <==> SeenIn(p, tid)
  {
    var threads := seq(|tids|, i requires 0 <= i < |tids| => Adapter.NameOf(names, tids[i]));
    assert tid in TidsOf(p) <==> SeenIn(p, tid);
    if tid in tids {
      var i :| 0 <= i < |tids| && tids[i] == tid;
      assert threads[i].tid == tid;
    }
    if i :| 0 <= i < |threads| && threads[i].tid == tid { assert tids[i] in tids; }
  }

  /** The thread list rises, has exactly the threads of the calls and of the samples, and the names that are known. */
  lemma {:induction false} ThreadsSay(r: Request, delivered: seq<K.Event>)
    ensures ThreadsAre(Capture(r, delivered), r.names)
  {
    RebuiltThreads(C.Finish(Replayed(r, delivered), r.now, []), r.names);
  }
}
