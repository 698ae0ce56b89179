/**
 The source mode in closed form: what the records hold after any sequence of transport events, and
 what `Finish` makes of them. Nothing here depends on the order in which events arrive, except the
 order of the samples inside a record.
 */
module SourceMode {
  import opened Domain
  import opened Sequences
  import opened Collector

  // ---- Events with a transport id ----

  function IdOf(e: CollectorEvent): Option<u64> {
    match e
    case Entry(id, _, _, _) => id
    case Return(id, _, _, _) => id
    case Sampled(id, _) => id
    case _ => None
  }

  function TidOf(e: CollectorEvent): u32 {
    match e
    case Entry(_, _, tid, _) => tid
    case Return(_, _, tid, _) => tid
    case Violation(tid, _) => tid
    case Sampled(_, x) => x.tid
    case _ => 0
  }

  predicate Transport(e: CollectorEvent) {
    e.Entry? || e.Return? || e.Sampled? ==> IdOf(e).Some?
  }

  predicate Boundary(e: CollectorEvent) {
    e.Entry? || e.Return?
  }

  /** Two boundary events of the same kind for the same id. */
  predicate Repeated(e: CollectorEvent, f: CollectorEvent) {
    ((e.Entry? && f.Entry?) || (e.Return? && f.Return?)) && e.invocationId == f.invocationId
  }

  /** Two events of one id disagree about its thread or its function. */
  predicate Clash(e: CollectorEvent, f: CollectorEvent) {
    IdOf(e).Some? && IdOf(e) == IdOf(f)
    && (TidOf(e) != TidOf(f) || (Boundary(e) && Boundary(f) && e.functionId != f.functionId))
  }

  ghost predicate AllTransport(es: seq<CollectorEvent>) {
    forall e | e in es :: Transport(e)
  }

  /** Transport ids everywhere, at most one entry and one return per id, one thread and function per id. */
  ghost predicate Consistent(es: seq<CollectorEvent>) {
    && AllTransport(es)
    && (forall i, j | 0 <= i < j < |es| :: !Repeated(es[i], es[j]))
    && (forall e, f | e in es && f in es :: !Clash(e, f))
  }

  /** Losing and reordering events keeps a stream consistent. */
  lemma ConsistentPart(part: seq<CollectorEvent>, whole: seq<CollectorEvent>)
    requires Consistent(whole) && multiset(part) <= multiset(whole)
    ensures Consistent(part)
  {
    forall e | e in part ensures e in whole { PartMember(part, whole, e); }
    forall i, j | 0 <= i < j < |part| ensures !Repeated(part[i], part[j]) {
      var a, b := Origins(part, whole, i, j);
      assert a < b || b < a;
    }
  }

  // ---- One record ----

  function SamplesOf(id: u64, es: seq<CollectorEvent>): seq<Pending> {
    if es == [] then []
    else
      var e := es[|es| - 1];
      var front := SamplesOf(id, es[..|es| - 1]);
      if e.Sampled? && e.invocationId == Some(id) then front + [e.sample] else front
  }

  predicate Reversed(r: SourceInvocation) {
    r.startNs.Some? && r.endNs.Some? && r.endNs.value < r.startNs.value
  }

  /** An event of the record's id says nothing that the record does not hold. */
  predicate Holds(r: SourceInvocation, e: CollectorEvent) {
    && r.tid == TidOf(e)
    && (e.Entry? ==> r.sawEntry && r.startNs == Some(e.timestampNs) && r.functionId == Some(e.functionId))
    && (e.Return? ==> r.sawReturn && r.endNs == Some(e.timestampNs) && r.functionId == Some(e.functionId))
  }

  ghost predicate SawEntry(id: u64, es: seq<CollectorEvent>) {
    exists e :: e in es && e.Entry? && e.invocationId == Some(id)
  }

  ghost predicate SawReturn(id: u64, es: seq<CollectorEvent>) {
    exists e :: e in es && e.Return? && e.invocationId == Some(id)
  }

  ghost predicate Mentioned(id: u64, es: seq<CollectorEvent>) {
    exists e :: e in es && IdOf(e) == Some(id)
  }

  /** The record holds exactly what the events of its id say. */
  ghost predicate RecordOk(r: SourceInvocation, id: u64, es: seq<CollectorEvent>) {
    && r.id == id
    && (forall e | e in es && IdOf(e) == Some(id) :: Holds(r, e))
    && (r.sawEntry <==> SawEntry(id, es))
    && (r.sawReturn <==> SawReturn(id, es))
    && (r.startNs.Some? <==> r.sawEntry)
    && (r.endNs.Some? <==> r.sawReturn)
    && (r.functionId.Some? <==> r.sawEntry || r.sawReturn)
    && (r.valid <==> !Reversed(r))
    && r.samples == SamplesOf(id, es)
  }

  ghost predicate RecordsOk(records: map<u64, SourceInvocation>, es: seq<CollectorEvent>) {
    && (forall id :: id in records <==> Mentioned(id, es))
    && (forall id | id in records :: RecordOk(records[id], id, es))
  }

  /** Whatever the stream: one record for each id mentioned, with all its samples. */
  ghost predicate Collected(records: map<u64, SourceInvocation>, es: seq<CollectorEvent>) {
    && (forall id :: id in records <==> Mentioned(id, es))
    && (forall id | id in records :: records[id].id == id && records[id].samples == SamplesOf(id, es))
  }

  lemma {:induction false} NoSamples(id: u64, es: seq<CollectorEvent>)
    requires !Mentioned(id, es)
    ensures SamplesOf(id, es) == []
  {
    if es != [] {
      assert forall e | e in es[..|es| - 1] :: e in es;
      assert es[|es| - 1] in es;
      NoSamples(id, es[..|es| - 1]);
    }
  }

  lemma UnseenOk(id: u64, tid: u32, es: seq<CollectorEvent>)
    requires !Mentioned(id, es)
    ensures RecordOk(Unseen(id, tid), id, es)
  {
    NoSamples(id, es);
  }

  /** An event of another id changes nothing for this one. */
  lemma OtherEvent(r: SourceInvocation, id: u64, es: seq<CollectorEvent>, e: CollectorEvent)
    requires RecordOk(r, id, es) && IdOf(e) != Some(id)
    ensures RecordOk(r, id, es + [e])
  {
  }

  ghost predicate Joins(r: SourceInvocation, id: u64, es: seq<CollectorEvent>, e: CollectorEvent) {
    && RecordOk(r, id, es) && IdOf(e) == Some(id) && r.tid == TidOf(e)
    && (forall f | f in es :: !Repeated(f, e) && !Clash(f, e))
  }

  lemma EntryOk(r: SourceInvocation, id: u64, es: seq<CollectorEvent>, e: CollectorEvent)
    requires Joins(r, id, es, e) && e.Entry?
    ensures RecordOk(SourceEntry(r, e.functionId, e.tid, e.timestampNs), id, es + [e])
  {
  }

  lemma ReturnOk(r: SourceInvocation, id: u64, es: seq<CollectorEvent>, e: CollectorEvent)
    requires Joins(r, id, es, e) && e.Return?
    ensures RecordOk(SourceReturn(r, e.functionId, e.tid, e.timestampNs), id, es + [e])
  {
  }

  lemma SampleOk(r: SourceInvocation, id: u64, es: seq<CollectorEvent>, e: CollectorEvent)
    requires Joins(r, id, es, e) && e.Sampled?
    ensures RecordOk(SourceSample(r, e.sample), id, es + [e])
  {
  }

  // ---- The whole session ----

  function Updated(c: State, e: CollectorEvent): map<u64, SourceInvocation> {
    if IdOf(e).None? then c.sourceInvocations
    else
      var id := IdOf(e).value;
      var r := RecordOf(c, id, TidOf(e));
      c.sourceInvocations[id :=
        match e
        case Entry(_, functionId, tid, timestampNs) => SourceEntry(r, functionId, tid, timestampNs)
        case Return(_, functionId, tid, timestampNs) => SourceReturn(r, functionId, tid, timestampNs)
        case Sampled(_, x) => SourceSample(r, x)
        case _ => r]
  }

  lemma {:induction false} UpdatedOk(c: State, es: seq<CollectorEvent>, e: CollectorEvent)
    requires RecordsOk(c.sourceInvocations, es) && Consistent(es + [e])
    ensures RecordsOk(Updated(c, e), es + [e])
  {
    var records := Updated(c, e);
    assert forall f | f in es :: f in es + [e];
    assert e in es + [e];
    forall id | id in records && IdOf(e) != Some(id) ensures RecordOk(records[id], id, es + [e]) {
      OtherEvent(records[id], id, es, e);
    }
    if IdOf(e).Some? { JoinedOk(c, es, e); }
    forall id: u64 ensures id in records <==> Mentioned(id, es + [e]) {
      assert Mentioned(id, es + [e]) <==> Mentioned(id, es) || IdOf(e) == Some(id);
    }
  }

  lemma {:induction false} UpdatedCollected(c: State, es: seq<CollectorEvent>, e: CollectorEvent)
    requires Collected(c.sourceInvocations, es)
    ensures Collected(Updated(c, e), es + [e])
  {
    var records := Updated(c, e);
    forall id: u64 ensures id in records <==> Mentioned(id, es + [e]) { MentionedFurther(id, es, e); }
    forall id | id in records ensures records[id].id == id && records[id].samples == SamplesOf(id, es + [e]) {
      assert (es + [e])[..|es|] == es && (es + [e])[|es|] == e;
      if id !in c.sourceInvocations { NoSamples(id, es); }
    }
  }

  lemma {:induction false} MentionedFurther(id: u64, es: seq<CollectorEvent>, e: CollectorEvent)
    ensures Mentioned(id, es + [e]) <==> Mentioned(id, es) || IdOf(e) == Some(id)
  {
    if Mentioned(id, es) {
      var f :| f in es && IdOf(f) == Some(id);
      assert f in es + [e];
    }
    assert e in es + [e];
  }

  lemma {:induction false} JoinedOk(c: State, es: seq<CollectorEvent>, e: CollectorEvent)
    requires RecordsOk(c.sourceInvocations, es) && Consistent(es + [e]) && IdOf(e).Some?
    ensures RecordOk(Updated(c, e)[IdOf(e).value], IdOf(e).value, es + [e])
  {
    var id := IdOf(e).value;
    var r := RecordOf(c, id, TidOf(e));
    if id in c.sourceInvocations {
      var f :| f in es && IdOf(f) == Some(id);
      assert f in es + [e] && e in es + [e];
      assert !Clash(f, e);
    } else {
      UnseenOk(id, TidOf(e), es);
    }
    NotRepeated(es, e);
    match e
    case Entry(_, _, _, _) => EntryOk(r, id, es, e);
    case Return(_, _, _, _) => ReturnOk(r, id, es, e);
    case Sampled(_, _) => SampleOk(r, id, es, e);
  }

  lemma NotRepeated(es: seq<CollectorEvent>, e: CollectorEvent)
    requires Consistent(es + [e])
    ensures forall f | f in es :: !Repeated(f, e) && !Clash(f, e)
  {
    forall f | f in es ensures !Repeated(f, e) && !Clash(f, e) {
      assert f in es + [e] && e in es + [e];
      var i :| 0 <= i < |es| && es[i] == f;
      assert (es + [e])[i] == f && (es + [e])[|es|] == e;
    }
  }

  function ViolationsOf(es: seq<CollectorEvent>): seq<(u32, u64)> {
    if es == [] then []
    else
      var e := es[|es| - 1];
      var front := ViolationsOf(es[..|es| - 1]);
      if e.Violation? then front + [(e.tid, e.timestampNs)] else front
  }

  function EventWeight(e: CollectorEvent): nat {
    if e.Entry? || e.Return? || e.Violation? then 1 else 0
  }

  function SampleWeight(e: CollectorEvent): nat {
    if e.Sampled? then 1 else 0
  }

  function ViolationWeight(e: CollectorEvent): nat {
    if e.Violation? then 1 else 0
  }

  function LostEventWeight(e: CollectorEvent): nat {
    if e.DroppedEvents? then e.count else 0
  }

  function LostSampleWeight(e: CollectorEvent): nat {
    if e.DroppedSamples? then e.count else 0
  }

  /** The counters after a stream of transport events. */
  function Tallied(q: Quality, es: seq<CollectorEvent>): Quality {
    q.(eventsGenerated := Cap(q.eventsGenerated + Sum(EventWeight, es)),
       eventsDropped := Cap(q.eventsDropped + Sum(LostEventWeight, es)),
       samplesGenerated := Cap(q.samplesGenerated + Sum(SampleWeight, es)),
       samplesDropped := Cap(q.samplesDropped + Sum(LostSampleWeight, es)),
       stackMismatches := Cap(q.stackMismatches + Sum(ViolationWeight, es)))
  }

  function Blank(functions: seq<Function>, q: Quality): Session {
    Session(DEFAULT, Profile(1, functions, [], [], [], [], q))
  }

  /** The session after transport events: only records, violations and counters have moved. */
  ghost predicate Gathered(s: Session, functions: seq<Function>, q: Quality, es: seq<CollectorEvent>) {
    && s.c == DEFAULT.(sourceInvocations := s.c.sourceInvocations, sourceMode := s.c.sourceMode,
                       sourceViolations := ViolationsOf(es))
    && s.p == Profile(1, functions, [], [], [], [], Tallied(q, es))
    && (s.c.sourceMode <==> s.c.sourceInvocations != map[])
    && Collected(s.c.sourceInvocations, es)
  }

  lemma {:induction false} PushGathers(s: Session, functions: seq<Function>, q: Quality,
                                       es: seq<CollectorEvent>, e: CollectorEvent)
    requires Gathered(s, functions, q, es) && Transport(e)
    ensures Gathered(Push(s, e), functions, q, es + [e])
  {
    assert (es + [e])[..|es|] == es;
    UpdatedCollected(s.c, es, e);
    PushTallies(s, q, es, e);
    PushUpdates(s, e);
  }

  lemma {:induction false} PushUpdates(s: Session, e: CollectorEvent)
    requires Transport(e) && s.c.active == map[]
    requires forall id | id in s.c.sourceInvocations :: s.c.sourceInvocations[id].id == id
    ensures Push(s, e).c == s.c.(
              sourceInvocations := Updated(s.c, e),
              sourceMode := s.c.sourceMode || IdOf(e).Some?,
              sourceViolations :=
                if e.Violation? then s.c.sourceViolations + [(e.tid, e.timestampNs)] else s.c.sourceViolations)
  {
  }

  lemma {:induction false} PushTallies(s: Session, q: Quality, es: seq<CollectorEvent>, e: CollectorEvent)
    requires Transport(e) && s.c.active == map[] && s.p.quality == Tallied(q, es)
    ensures Push(s, e).p == s.p.(quality := Tallied(q, es + [e]))
  {
  }

  /** For every stream of transport events, whatever its order. */
  lemma {:induction false} PushAllGathers(functions: seq<Function>, q: Quality, es: seq<CollectorEvent>)
    requires AllTransport(es)
    ensures Gathered(PushAll(Blank(functions, q), es), functions, q, es)
  {
    if es == [] {
      assert Tallied(q, es) == q;
    } else {
      var front, e := es[..|es| - 1], es[|es| - 1];
      assert es == front + [e];
      PushAllGathers(functions, q, front);
      PushGathers(PushAll(Blank(functions, q), front), functions, q, front, e);
    }
  }

  /** For every consistent stream the records hold exactly what the events say. */
  lemma {:induction false} PushAllRecords(functions: seq<Function>, q: Quality, es: seq<CollectorEvent>)
    requires Consistent(es)
    ensures RecordsOk(PushAll(Blank(functions, q), es).c.sourceInvocations, es)
  {
    if es != [] {
      var front, e := es[..|es| - 1], es[|es| - 1];
      assert es == front + [e];
      ConsistentPart(front, es);
      PushAllRecords(functions, q, front);
      PushAllGathers(functions, q, front);
      UpdatedOk(PushAll(Blank(functions, q), front).c, front, e);
      PushUpdates(PushAll(Blank(functions, q), front), e);
    }
  }

  lemma HitMember(violations: seq<(u32, u64)>, r: SourceInvocation)
    ensures Hit(violations, r) <==> exists v :: v in violations && Hits(v, r)
  {
  }

  // ---- Samples and violations are kept as multisets ----

  lemma {:induction false} SamplesCount(id: u64, es: seq<CollectorEvent>, x: Pending)
    ensures multiset(SamplesOf(id, es))[x] == multiset(es)[Sampled(Some(id), x)]
  {
    if es != [] {
      SamplesCount(id, es[..|es| - 1], x);
      assert es == es[..|es| - 1] + [es[|es| - 1]];
    }
  }

  lemma {:induction false} ViolationsCount(es: seq<CollectorEvent>, v: (u32, u64))
    ensures multiset(ViolationsOf(es))[v] == multiset(es)[Violation(v.0, v.1)]
  {
    if es != [] {
      ViolationsCount(es[..|es| - 1], v);
      assert es == es[..|es| - 1] + [es[|es| - 1]];
    }
  }
}
