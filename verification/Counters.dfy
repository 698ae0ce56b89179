/** The counters of a finished profile, in terms of the events and of the records that they leave. */
module Counters {
  import opened Domain
  import opened Sequences
  import opened Sorting
  import K = Kernel
  import opened Collector
  import opened Interning
  import opened SourceMode
  import opened SourceFinish
  import opened Adapter
  import opened EndToEnd
  import opened CaptureTheorems

  // ---- What is counted one by one, in both modes ----

  ghost predicate CountedOne(p: Quality, q: Quality, es: seq<CollectorEvent>) {
    && p.eventsGenerated == Cap(q.eventsGenerated + Sum(EventWeight, es))
    && p.eventsDropped == Cap(q.eventsDropped + Sum(LostEventWeight, es))
    && p.samplesGenerated == Cap(q.samplesGenerated + Sum(SampleWeight, es))
    && p.samplesDropped == Cap(q.samplesDropped + Sum(LostSampleWeight, es))
  }

  /** The four counters are the same. */
  predicate SameCounted(p: Quality, q: Quality) {
    && p.eventsGenerated == q.eventsGenerated && p.eventsDropped == q.eventsDropped
    && p.samplesGenerated == q.samplesGenerated && p.samplesDropped == q.samplesDropped
  }

  lemma {:induction false} PushCounted(s: Session, e: CollectorEvent)
    ensures
      var p, q := Push(s, e).p.quality, s.p.quality;
      && p.eventsGenerated == Cap(q.eventsGenerated + EventWeight(e))
      && p.eventsDropped == Cap(q.eventsDropped + LostEventWeight(e))
      && p.samplesGenerated == Cap(q.samplesGenerated + SampleWeight(e))
      && p.samplesDropped == Cap(q.samplesDropped + LostSampleWeight(e))
  {
    match e
    case Entry(_, _, _, _) =>
    case Return(_, _, _, _) =>
    case Violation(_, _) =>
    case _ =>
  }

  lemma {:induction false} StreamCounted(functions: seq<Function>, q: Quality, es: seq<CollectorEvent>)
    ensures CountedOne(PushAll(Blank(functions, q), es).p.quality, q, es)
  {
    if es != [] {
      StreamCounted(functions, q, es[..|es| - 1]);
      PushCounted(PushAll(Blank(functions, q), es[..|es| - 1]), es[|es| - 1]);
    }
  }

  lemma {:induction false} AbandonCounted(p: Profile, active: map<u32, ActiveInvocation>, order: seq<u32>, now: u64)
    requires forall tid | tid in order :: tid in active
    ensures SameCounted(AbandonAll(p, active, order, now).quality, p.quality)
  {
    if order != [] { AbandonCounted(p, active, order[..|order| - 1], now); }
  }

  lemma {:induction false} SourceCounted(s: Session, now: u64)
    requires InternedSession(s)
    ensures SameCounted(FinishSource(s, now).p.quality, s.p.quality)
  {
    if s.c.sourceMode {
      var judged := Collector.Judged(s);
      ReportAllForm(judged, judged.c.sourceInvocations, SortedIds(judged.c.sourceInvocations.Keys), now);
    }
  }

  /** For any stream of both modes, mixed ones included, and any end: events, samples and losses, one by one, capped. */
  lemma {:induction false} AnyStreamCounted(functions: seq<Function>, q: Quality, es: seq<CollectorEvent>, now: u64,
                                            order: seq<u32>)
    requires forall tid | tid in order :: tid in PushAll(Blank(functions, q), es).c.active
    ensures CountedOne(Finish(PushAll(Blank(functions, q), es), now, order).quality, q, es)
  {
    var s := PushAll(Blank(functions, q), es);
    StreamCounted(functions, q, es);
    PushAllKeeps(Blank(functions, q), es);
    SourceCounted(s, now);
    AbandonCounted(FinishSource(s, now).p, s.c.active, order, now);
  }

  // ---- Suspected violations ----

  /** The violation is of the record's thread and falls into its span, as far as that is known, both ends included. */
  predicate Strikes(tid: u32, timestampNs: u64, r: SourceInvocation) {
    && r.tid == tid && r.startNs.Some? && r.startNs.value <= timestampNs
    && (r.endNs.Some? ==> timestampNs <= r.endNs.value)
  }

  /** How many records a violation event strikes. */
  function Struck(records: map<u64, SourceInvocation>): CollectorEvent -> nat {
    (e: CollectorEvent) =>
      if e.Violation? then |set id | id in records && Strikes(e.tid, e.timestampNs, records[id])| else 0
  }

  lemma {:induction false} StruckIs(records: map<u64, SourceInvocation>, es: seq<CollectorEvent>)
    ensures Sum(HitCount(records), ViolationsOf(es)) == Sum(Struck(records), es)
  {
    if es != [] {
      var front, e := es[..|es| - 1], es[|es| - 1];
      StruckIs(records, front);
      if e.Violation? {
        SumSnoc(HitCount(records), ViolationsOf(front), (e.tid, e.timestampNs));
        assert (set id | id in records && Strikes(e.tid, e.timestampNs, records[id]))
            == set id | id in records && Hits((e.tid, e.timestampNs), records[id]);
      }
    }
  }

  // ---- Mismatches ----

  /** How many samples lie before `from` or after `to`. */
  function OutsideCount(samples: seq<Pending>, from: u64, to: u64): nat {
    if samples == [] then 0
    else
      var x := samples[|samples| - 1];
      OutsideCount(samples[..|samples| - 1], from, to) + if x.timestampNs < from || to < x.timestampNs then 1 else 0
  }

  /** A violation event of the stream strikes the record. */
  ghost predicate StruckBy(es: seq<CollectorEvent>, r: SourceInvocation) {
    exists e :: e in es && e.Violation? && Strikes(e.tid, e.timestampNs, r)
  }

  /**
   What a record adds to the mismatches at the end: nothing while its function or its start is unknown; if it
   is complete, in order and not struck, one for each sample outside its span; otherwise one if it is complete.
   */
  ghost function Faults(es: seq<CollectorEvent>, r: SourceInvocation, now: u64): nat {
    if r.functionId.None? || r.startNs.None? || !r.sawEntry || !r.sawReturn then 0
    else
      var start := r.startNs.value;
      var end := if r.endNs.Some? then r.endNs.value else Max(now, start);
      if r.valid && !StruckBy(es, r) && start <= end then OutsideCount(r.samples, start, end) else 1
  }

  ghost function FaultWeight(es: seq<CollectorEvent>, records: map<u64, SourceInvocation>, now: u64): u64 -> nat {
    id => if id in records then Faults(es, records[id], now) else 0
  }

  lemma {:induction false} OutsideIs(r: SourceInvocation, now: u64, samples: seq<Pending>)
    requires r.IsReported()
    ensures |SelectOutside(r, now, samples)| == OutsideCount(samples, r.startNs.value, r.End(now))
  {
    if samples != [] { OutsideIs(r, now, samples[..|samples| - 1]); }
  }

  lemma {:induction false} HitIs(es: seq<CollectorEvent>, r: SourceInvocation)
    ensures Hit(ViolationsOf(es), r) <==> StruckBy(es, r)
  {
    var vs := ViolationsOf(es);
    if i :| 0 <= i < |vs| && Hits(vs[i], r) {
      ViolationListed(es, vs[i]);
      assert Strikes(vs[i].0, vs[i].1, r);
    }
    if e :| e in es && e.Violation? && Strikes(e.tid, e.timestampNs, r) {
      ViolationListed(es, (e.tid, e.timestampNs));
      var i :| 0 <= i < |vs| && vs[i] == (e.tid, e.timestampNs);
      assert Hits(vs[i], r);
    }
  }

  lemma {:induction false} FaultsIs(es: seq<CollectorEvent>, records: map<u64, SourceInvocation>, now: u64, id: u64)
    requires id in records
    ensures Mismatches(Judge(records, ViolationsOf(es))[id], now) == Faults(es, records[id], now)
  {
    var r := Judge(records, ViolationsOf(es))[id];
    HitIs(es, records[id]);
    if r.IsReported() { OutsideIs(r, now, r.samples); }
  }

  /** The counters of the finished profile but for the two that count its invocations. */
  ghost predicate CountersAre(p: Quality, q: Quality, es: seq<CollectorEvent>, records: map<u64, SourceInvocation>,
                              ids: seq<u64>, now: u64)
  {
    && p.eventsGenerated == Cap(q.eventsGenerated + Sum(EventWeight, es))
    && p.eventsDropped == Cap(q.eventsDropped + Sum(LostEventWeight, es))
    && p.samplesGenerated == Cap(q.samplesGenerated + Sum(SampleWeight, es))
    && p.samplesDropped == Cap(q.samplesDropped + Sum(LostSampleWeight, es))
    && p.suspectedAsyncViolations == Cap(q.suspectedAsyncViolations + Sum(Struck(records), es))
    && p.stackMismatches == Cap(q.stackMismatches + Sum(ViolationWeight, es) + Sum(FaultWeight(es, records, now), ids))
  }

  /**
   For every stream of transport events and every end: events, samples and losses are counted one by one; a
   violation is one mismatch and one suspicion for each record that it strikes; and every record adds its
   faults to the mismatches. All counters saturate.
   */
  lemma {:induction false} TransportCounters(functions: seq<Function>, q: Quality, es: seq<CollectorEvent>,
                                             now: u64, order: seq<u32>)
    requires AllTransport(es)
    requires forall tid | tid in order :: tid in PushAll(Blank(functions, q), es).c.active
    ensures
      var s := PushAll(Blank(functions, q), es);
      CountersAre(Finish(s, now, order).quality, q, es, s.c.sourceInvocations, SortedIds(s.c.sourceInvocations.Keys),
                  now)
  {
    var s := PushAll(Blank(functions, q), es);
    QualityIs(functions, q, es, now, order);
    ScoresAre(q, es, s.c.sourceInvocations, SortedIds(s.c.sourceInvocations.Keys), now);
  }

  lemma {:induction false} QualityIs(functions: seq<Function>, q: Quality, es: seq<CollectorEvent>, now: u64,
                                     order: seq<u32>)
    requires AllTransport(es)
    requires forall tid | tid in order :: tid in PushAll(Blank(functions, q), es).c.active
    ensures
      var s, vs := PushAll(Blank(functions, q), es), ViolationsOf(es);
      Finish(s, now, order).quality
      == ScoredAll(SuspectedOf(Tallied(q, es), s.c.sourceInvocations, vs), Judge(s.c.sourceInvocations, vs),
                   SortedIds(s.c.sourceInvocations.Keys), now)
  {
    var s, vs := PushAll(Blank(functions, q), es), ViolationsOf(es);
    FinishForm(functions, q, es, now, order);
    assert Judge(s.c.sourceInvocations, vs).Keys == s.c.sourceInvocations.Keys;
  }

  lemma {:induction false} ScoresAre(q: Quality, es: seq<CollectorEvent>, records: map<u64, SourceInvocation>,
                                     ids: seq<u64>, now: u64)
    requires forall id | id in ids :: id in records
    ensures
      var vs := ViolationsOf(es);
      CountersAre(ScoredAll(SuspectedOf(Tallied(q, es), records, vs), Judge(records, vs), ids, now), q, es, records,
                  ids, now)
  {
    ScoredMismatches(q, es, records, ids, now);
    ScoredOthers(q, es, records, ids, now);
  }

  lemma {:induction false} ScoredMismatches(q: Quality, es: seq<CollectorEvent>, records: map<u64, SourceInvocation>,
                                            ids: seq<u64>, now: u64)
    requires forall id | id in ids :: id in records
    ensures
      var vs := ViolationsOf(es);
      ScoredAll(SuspectedOf(Tallied(q, es), records, vs), Judge(records, vs), ids, now).stackMismatches
      == Cap(q.stackMismatches + Sum(ViolationWeight, es) + Sum(FaultWeight(es, records, now), ids))
  {
    FaultsSum(es, records, ids, now);
    CapTwice(q.stackMismatches + Sum(ViolationWeight, es), Sum(FaultWeight(es, records, now), ids));
  }

  lemma {:induction false} ScoredOthers(q: Quality, es: seq<CollectorEvent>, records: map<u64, SourceInvocation>,
                                        ids: seq<u64>, now: u64)
    ensures
      var vs := ViolationsOf(es);
      var r := ScoredAll(SuspectedOf(Tallied(q, es), records, vs), Judge(records, vs), ids, now);
      && r.eventsGenerated == Cap(q.eventsGenerated + Sum(EventWeight, es))
      && r.eventsDropped == Cap(q.eventsDropped + Sum(LostEventWeight, es))
      && r.samplesGenerated == Cap(q.samplesGenerated + Sum(SampleWeight, es))
      && r.samplesDropped == Cap(q.samplesDropped + Sum(LostSampleWeight, es))
      && r.suspectedAsyncViolations == Cap(q.suspectedAsyncViolations + Sum(Struck(records), es))
  {
    StruckIs(records, es);
  }

  lemma CapTwice(a: nat, b: nat)
    ensures Cap(Cap(a) + b) == Cap(a + b)
  {
  }

  lemma {:induction false} FaultsSum(es: seq<CollectorEvent>, records: map<u64, SourceInvocation>,
                                     ids: seq<u64>, now: u64)
    requires forall id | id in ids :: id in records
    ensures Sum(MismatchWeight(Judge(records, ViolationsOf(es)), now), ids) == Sum(FaultWeight(es, records, now), ids)
  {
    var judged := Judge(records, ViolationsOf(es));
    forall n | 0 <= n < |ids| ensures MismatchWeight(judged, now)(ids[n]) == FaultWeight(es, records, now)(ids[n]) {
      assert ids[n] in ids;
      FaultsIs(es, records, now, ids[n]);
    }
    SumAgree(MismatchWeight(judged, now), ids, FaultWeight(es, records, now), ids);
  }

  // ---- The counters of a capture ----

  function KindWeight(kinds: set<u32>): K.Event -> nat {
    (e: K.Event) => if e.kind in kinds then 1 else 0
  }

  function OtherWeight(kinds: set<u32>): K.Event -> nat {
    (e: K.Event) => if e.kind in kinds then 0 else 1
  }

  const BOUNDARIES: set<u32> := {K.ENTRY, K.RETURN, K.VIOLATION}
  const SAMPLES: set<u32> := {K.SAMPLE, K.OFFCPU}

  lemma {:induction false} ReplayedSum(r: Request, events: seq<K.Event>, f: CollectorEvent -> nat, g: K.Event -> nat)
    requires forall e: K.Event :: f(Translate(e, r.function_, r.table)) == g(e)
    ensures Sum(f, TranslateAll(events, r.function_, r.table)) == Sum(g, events)
  {
    var es := TranslateAll(events, r.function_, r.table);
    SumAgree(f, es, g, events);
  }

  lemma {:induction false} DeliveredSum(r: Request, delivered: seq<K.Event>, f: CollectorEvent -> nat,
                                        g: K.Event -> nat)
    requires forall e: K.Event :: f(Translate(e, r.function_, r.table)) == g(e)
    ensures Sum(f, Events(r, delivered)) == Sum(g, delivered)
  {
    ReplayedSum(r, SortEvents(delivered), f, g);
    SortMembers(EventLe, delivered);
    SumReorder(g, SortEvents(delivered), delivered);
  }

  lemma ReplayedTransport(r: Request, delivered: seq<K.Event>)
    ensures AllTransport(Events(r, delivered))
  {
  }

  lemma {:induction false} NothingLost(es: seq<CollectorEvent>)
    requires forall e | e in es :: !e.DroppedSamples?
    ensures Sum(LostSampleWeight, es) == 0
  {
    if es != [] {
      assert es[|es| - 1] in es && forall e | e in es[..|es| - 1] :: e in es;
      NothingLost(es[..|es| - 1]);
    }
  }

  /** The counters of a capture, in terms of the delivered records. */
  ghost predicate DeliveredCounters(p: Profile, r: Request, delivered: seq<K.Event>) {
    && p.quality.eventsGenerated == Max(Cap(Sum(KindWeight(BOUNDARIES), delivered)), Cap(2 * |p.invocations|))
    && p.quality.eventsDropped == Cap(r.droppedEvents + Sum(OtherWeight(BOUNDARIES + SAMPLES), delivered))
    && p.quality.samplesGenerated == Cap(Sum(KindWeight(SAMPLES), delivered))
    && p.quality.samplesDropped == r.droppedSamples
  }

  lemma {:induction false} CountersDelivered(p: Profile, r: Request, delivered: seq<K.Event>,
                                             records: map<u64, SourceInvocation>)
    requires CapturedCounters(p, r, Events(r, delivered), records)
    ensures DeliveredCounters(p, r, delivered)
  {
    BoundariesDelivered(r, delivered);
    LossesDelivered(r, delivered);
    SamplesDelivered(r, delivered);
    NothingLost(Events(r, delivered));
  }

  /**
   For any delivered records, also of kinds that no kernel emits: the drop counters start from those that were
   read back, a record of an unknown kind is one more lost event, and the generated events are at least two
   for each invocation.
   */
  lemma {:induction false} CaptureCountersSay(r: Request, delivered: seq<K.Event>)
    ensures DeliveredCounters(Capture(r, delivered), r, delivered)
  {
    CaptureCounted(r, delivered);
    CountersDelivered(Capture(r, delivered), r, delivered, Replayed(r, delivered).c.sourceInvocations);
  }

  lemma {:induction false} BoundariesDelivered(r: Request, delivered: seq<K.Event>)
    ensures Sum(EventWeight, Events(r, delivered)) == Sum(KindWeight(BOUNDARIES), delivered)
  {
    DeliveredSum(r, delivered, EventWeight, KindWeight(BOUNDARIES));
  }

  lemma {:induction false} LossesDelivered(r: Request, delivered: seq<K.Event>)
    ensures Sum(LostEventWeight, Events(r, delivered)) == Sum(OtherWeight(BOUNDARIES + SAMPLES), delivered)
  {
    DeliveredSum(r, delivered, LostEventWeight, OtherWeight(BOUNDARIES + SAMPLES));
  }

  lemma {:induction false} SamplesDelivered(r: Request, delivered: seq<K.Event>)
    ensures Sum(SampleWeight, Events(r, delivered)) == Sum(KindWeight(SAMPLES), delivered)
  {
    DeliveredSum(r, delivered, SampleWeight, KindWeight(SAMPLES));
  }

  /** The counters of a capture, in terms of the replayed events. */
  ghost predicate CapturedCounters(p: Profile, r: Request,
                                   es: seq<CollectorEvent>, records: map<u64, SourceInvocation>) {
    && p.quality.eventsGenerated == Max(Cap(Sum(EventWeight, es)), Cap(2 * |p.invocations|))
    && p.quality.eventsDropped == Cap(r.droppedEvents + Sum(LostEventWeight, es))
    && p.quality.samplesGenerated == Cap(Sum(SampleWeight, es))
    && p.quality.samplesDropped == Cap(r.droppedSamples + Sum(LostSampleWeight, es))
    && p.quality.suspectedAsyncViolations == Cap(Sum(Struck(records), es))
  }

  lemma {:induction false} RaisedCounters(p: Profile, q: Quality, r: Request, es: seq<CollectorEvent>,
                                          records: map<u64, SourceInvocation>, ids: seq<u64>)
    requires CountersAre(q, StartQuality(r), es, records, ids, r.now)
    requires p.quality == q.(eventsGenerated := Max(q.eventsGenerated, Cap(2 * |p.invocations|)))
    ensures CapturedCounters(p, r, es, records)
  {
  }

  lemma {:induction false} CaptureCounted(r: Request, delivered: seq<K.Event>)
    ensures CapturedCounters(Capture(r, delivered), r, Events(r, delivered), Replayed(r, delivered).c.sourceInvocations)
  {
    var es, records := Events(r, delivered), Replayed(r, delivered).c.sourceInvocations;
    ReplayedTransport(r, delivered);
    TransportCounters([r.function_], StartQuality(r), es, r.now, []);
    var finished := Finish(Replayed(r, delivered), r.now, []);
    RaisedCounters(Capture(r, delivered), finished.quality, r, es, records, SortedIds(records.Keys));
  }

  /** The violation falls into the life, as far as its end was delivered, and its entry was delivered. */
  ghost predicate StrikesLife(lives: map<u64, K.Life>, delivered: seq<K.Event>, e: K.Event, id: u64) {
    && id in lives && EntrySeen(delivered, id) && lives[id].tid == e.tid && lives[id].startNs <= e.timestampNs
    && (ReturnSeen(delivered, id) ==> lives[id].endNs.Some? && e.timestampNs <= lives[id].endNs.value)
  }

  ghost function StruckLives(lives: map<u64, K.Life>, delivered: seq<K.Event>): K.Event -> nat {
    (e: K.Event) =>
      if e.kind == K.VIOLATION then |set id | id in lives && StrikesLife(lives, delivered, e, id)| else 0
  }

  lemma {:induction false} StrikesAlike(s: K.State, r: Request, delivered: seq<K.Event>, e: K.Event, id: u64)
    requires Delivered(s, delivered)
    ensures
      var records := Replayed(r, delivered).c.sourceInvocations;
      id in records && Strikes(e.tid, e.timestampNs, records[id]) <==> StrikesLife(s.k.lives, delivered, e, id)
  {
    var es, records := Events(r, delivered), Replayed(r, delivered).c.sourceInvocations;
    ReplayConsistent(s, r, delivered);
    PushAllRecords([r.function_], StartQuality(r), es);
    BoundariesSeen(s, r, delivered, id);
    if id in records { RecordTrue(s, r, delivered, id, records[id]); }
  }

  lemma {:induction false} StruckAlike(s: K.State, r: Request, delivered: seq<K.Event>, e: K.Event)
    requires Delivered(s, delivered)
    ensures Struck(Replayed(r, delivered).c.sourceInvocations)(Translate(e, r.function_, r.table))
         == StruckLives(s.k.lives, delivered)(e)
  {
    var records := Replayed(r, delivered).c.sourceInvocations;
    if e.kind == K.VIOLATION {
      forall id: u64
        ensures id in records && Strikes(e.tid, e.timestampNs, records[id]) <==>
                  id in s.k.lives && StrikesLife(s.k.lives, delivered, e, id)
      {
        StrikesAlike(s, r, delivered, e, id);
      }
      assert (set id | id in records && Strikes(e.tid, e.timestampNs, records[id]))
          == set id | id in s.k.lives && StrikesLife(s.k.lives, delivered, e, id);
    }
  }

  /**
   In every run, under every loss and delivery order, the profile counts one suspicion for each delivered
   violation and each life of its thread whose known span it falls into, capped.
   */
  lemma {:induction false} CaptureSuspicions(s: K.State, r: Request, delivered: seq<K.Event>)
    requires Delivered(s, delivered)
    ensures Capture(r, delivered).quality.suspectedAsyncViolations
         == Cap(Sum(StruckLives(s.k.lives, delivered), delivered))
  {
    var records := Replayed(r, delivered).c.sourceInvocations;
    CaptureCounted(r, delivered);
    forall e: K.Event
      ensures Struck(records)(Translate(e, r.function_, r.table)) == StruckLives(s.k.lives, delivered)(e)
    {
      StruckAlike(s, r, delivered, e);
    }
    DeliveredSum(r, delivered, Struck(records), StruckLives(s.k.lives, delivered));
  }

  lemma {:induction false} SumPositive<T>(f: T -> nat, s: seq<T>, x: T)
    requires x in s && f(x) > 0
    ensures Sum(f, s) > 0
  {
    if s[|s| - 1] != x {
      assert s == s[..|s| - 1] + [s[|s| - 1]];
      SumPositive(f, s[..|s| - 1], x);
    }
  }

  lemma {:induction false} StruckOnce(lives: map<u64, K.Life>, delivered: seq<K.Event>, e: K.Event, id: u64)
    requires e.kind == K.VIOLATION && StrikesLife(lives, delivered, e, id)
    ensures StruckLives(lives, delivered)(e) > 0
  {
    var struck := set id | id in lives && StrikesLife(lives, delivered, e, id);
    assert id in struck;
  }

  /** A complete call that the profile reports as invalid has raised a suspicion. */
  lemma {:induction false} InvalidIsSuspected(s: K.State, r: Request, delivered: seq<K.Event>, i: Invocation)
    requires Delivered(s, delivered) && Symbolized(r.table)
    requires i in Capture(r, delivered).invocations && i.complete && !i.valid
    ensures Capture(r, delivered).quality.suspectedAsyncViolations > 0
  {
    var p := Capture(r, delivered);
    InvocationsSound(s, r, delivered);
    var n :| 0 <= n < |p.invocations| && p.invocations[n] == i;
    assert Sound(s.k.lives, r, delivered, p.invocations[n]);
    var e :| e in delivered && e.kind == K.VIOLATION && e.tid == i.tid && i.startNs <= e.timestampNs <= i.endNs;
    CaptureSuspicions(s, r, delivered);
    StruckOnce(s.k.lives, delivered, e, i.id);
    SumPositive(StruckLives(s.k.lives, delivered), delivered, e);
  }
}
