/**
 What the collector does to its own state and to the profile, event by event and at the end.

 Two modes share the state. An event without a transport id drives the local mode: one active
 invocation per thread, samples committed at once. An event with a transport id only updates the
 record of that id; records become invocations in `Finish`.
 */
module Collector {
  import opened Domain
  import opened Sequences
  import opened Sorting

  /** A sample as it arrives, with its frames. */
  datatype Pending = Pending(
    tid: u32, timestampNs: u64, cpu: u32, state: ExecutionState, weightNs: u64, frames: seq<Frame>)

  datatype ActiveInvocation = ActiveInvocation(id: u64, functionId: u32, tid: u32, startNs: u64, valid: bool)

  datatype SourceInvocation = SourceInvocation(
    id: u64, functionId: Option<u32>, tid: u32, startNs: Option<u64>, endNs: Option<u64>,
    sawEntry: bool, sawReturn: bool, valid: bool, samples: seq<Pending>)
  {
    /** `finish` turns the record into an invocation: it knows a function and a start. */
    predicate IsReported() {
      functionId.Some? && startNs.Some?
    }

    function End(now: u64): u64
      requires IsReported()
    {
      if endNs.Some? then endNs.value else Max(now, startNs.value)
    }

    predicate IsComplete() {
      sawEntry && sawReturn
    }

    predicate IsValid(now: u64)
      requires IsReported()
    {
      valid && IsComplete() && End(now) >= startNs.value
    }

    function Report(now: u64): Invocation
      requires IsReported()
    {
      Invocation(id, functionId.value, None, tid, startNs.value, End(now), IsComplete(), IsValid(now))
    }

    predicate Covers(x: Pending, now: u64)
      requires IsReported()
    {
      startNs.value <= x.timestampNs <= End(now)
    }
  }

  datatype CollectorEvent =
    | Entry(invocationId: Option<u64>, functionId: u32, tid: u32, timestampNs: u64)
    | Return(invocationId: Option<u64>, functionId: u32, tid: u32, timestampNs: u64)
    | Violation(tid: u32, timestampNs: u64)
    | Sampled(invocationId: Option<u64>, sample: Pending)
    | DroppedEvents(count: u64)
    | DroppedSamples(count: u64)

  datatype State = State(
    nextInvocationId: u64, nextStackId: u32,
    active: map<u32, ActiveInvocation>, stackIds: map<seq<Frame>, u32>,
    sourceInvocations: map<u64, SourceInvocation>, sourceMode: bool,
    sourceViolations: seq<(u32, u64)>)

  const DEFAULT := State(1, 1, map[], map[], map[], false, [])

  /** A correlator and the profile it writes to. */
  datatype Session = Session(c: State, p: Profile)

  // ---- Counters ----

  function Generated(p: Profile): Profile {
    p.(quality := p.quality.(eventsGenerated := SatAdd(p.quality.eventsGenerated, 1)))
  }

  function SampleGenerated(p: Profile): Profile {
    p.(quality := p.quality.(samplesGenerated := SatAdd(p.quality.samplesGenerated, 1)))
  }

  function Mismatch(p: Profile): Profile {
    p.(quality := p.quality.(stackMismatches := SatAdd(p.quality.stackMismatches, 1)))
  }

  function Suspect(p: Profile, n: u64): Profile {
    p.(quality := p.quality.(suspectedAsyncViolations := SatAdd(p.quality.suspectedAsyncViolations, n)))
  }

  /** Record an invocation and count it as complete or incomplete. */
  function Conclude(p: Profile, i: Invocation): Profile {
    p.(invocations := p.invocations + [i],
       quality :=
         if i.Counted() then
           p.quality.(completeInvocations := SatAdd(p.quality.completeInvocations, 1))
         else
           p.quality.(incompleteInvocations := SatAdd(p.quality.incompleteInvocations, 1)))
  }

  // ---- Records of the source mode ----

  function Unseen(id: u64, tid: u32): SourceInvocation {
    SourceInvocation(id, None, tid, None, None, false, false, true, [])
  }

  function RecordOf(c: State, id: u64, tid: u32): SourceInvocation {
    if id in c.sourceInvocations then c.sourceInvocations[id] else Unseen(id, tid)
  }

  /** `source_entry` on an existing or fresh record. */
  function SourceEntry(r: SourceInvocation, functionId: u32, tid: u32, timestampNs: u64): SourceInvocation {
    if r.sawEntry then r.(valid := false)
    else
      r.(sawEntry := true, functionId := Some(functionId), tid := tid, startNs := Some(timestampNs),
         valid := r.valid && (r.endNs.Some? ==> r.endNs.value >= timestampNs))
  }

  /** `source_return` on an existing or fresh record. */
  function SourceReturn(r: SourceInvocation, functionId: u32, tid: u32, timestampNs: u64): SourceInvocation {
    var known := if r.functionId.None? then Some(functionId) else r.functionId;
    r.(sawReturn := true, functionId := known, endNs := Some(timestampNs),
       valid := r.valid && !r.sawReturn && known == Some(functionId) && r.tid == tid
                && (r.startNs.Some? ==> timestampNs >= r.startNs.value))
  }

  function SourceSample(r: SourceInvocation, x: Pending): SourceInvocation {
    r.(samples := r.samples + [x])
  }

  function Store(s: Session, r: SourceInvocation): Session {
    s.(c := s.c.(sourceMode := true, sourceInvocations := s.c.sourceInvocations[r.id := r]))
  }

  // ---- Interned stacks ----

  /** The id of the stack at an index: counted from one, saturating. */
  function StackId(index: nat): u32 {
    if index < U32_MAX then index + 1 else U32_MAX
  }

  function Intern(s: Session, frames: seq<Frame>): Session {
    if frames in s.c.stackIds then s
    else
      var id := s.c.nextStackId;
      Session(
        s.c.(nextStackId := if id < U32_MAX then id + 1 else id, stackIds := s.c.stackIds[frames := id]),
        s.p.(stacks := s.p.stacks + [Stack(id, frames)]))
  }

  /** `append_sample`, which the local mode repeats in line. */
  function Append(s: Session, invocationId: u64, x: Pending): (r: Session)
    ensures x.frames in r.c.stackIds
  {
    var t := Intern(s, x.frames);
    t.(p := t.p.(samples := t.p.samples
       + [Sample(x.timestampNs, invocationId, t.c.stackIds[x.frames], x.tid, x.cpu, x.state, x.weightNs)]))
  }

  // ---- One event ----

  function Unfinished(a: ActiveInvocation, now: u64): Invocation {
    Invocation(a.id, a.functionId, None, a.tid, a.startNs, Max(now, a.startNs), false, false)
  }

  function LocalEntry(s: Session, functionId: u32, tid: u32, timestampNs: u64): Session {
    var p :=
      if tid in s.c.active then
        var existing := s.c.active[tid].(tid := tid);
        Suspect(Mismatch(Conclude(s.p, Unfinished(existing, timestampNs))), 1)
      else s.p;
    var id := s.c.nextInvocationId;
    Session(
      s.c.(nextInvocationId := SatAdd(id, 1),
           active := s.c.active[tid := ActiveInvocation(id, functionId, tid, timestampNs, true)]),
      p)
  }

  function LocalReturn(s: Session, functionId: u32, tid: u32, timestampNs: u64): Session {
    if tid !in s.c.active then s.(p := Mismatch(s.p))
    else
      var a := s.c.active[tid];
      var valid := a.valid && a.functionId == functionId && timestampNs >= a.startNs;
      Session(
        s.c.(active := s.c.active - {tid}),
        Conclude(if valid then s.p else Mismatch(s.p),
                 Invocation(a.id, a.functionId, None, tid, a.startNs, timestampNs, true, valid)))
  }

  function Violate(s: Session, tid: u32, timestampNs: u64): Session {
    var c := s.c.(sourceViolations := s.c.sourceViolations + [(tid, timestampNs)]);
    if tid in s.c.active then
      var a := s.c.active[tid];
      var p := Suspect(Mismatch(s.p), 1);
      Session(c.(active := c.active[tid := a.(valid := false)]), if timestampNs < a.startNs then Mismatch(p) else p)
    else
      Session(c, Mismatch(s.p))
  }

  function LocalSample(s: Session, x: Pending): Session {
    if x.tid in s.c.active && s.c.active[x.tid].valid then Append(s, s.c.active[x.tid].id, x) else s
  }

  /** `Correlator::push`. */
  function Push(s: Session, e: CollectorEvent): Session {
    match e
    case Entry(invocationId, functionId, tid, timestampNs) =>
      var g := s.(p := Generated(s.p));
      if invocationId.Some? then
        Store(g, SourceEntry(RecordOf(g.c, invocationId.value, tid), functionId, tid, timestampNs))
      else LocalEntry(g, functionId, tid, timestampNs)
    case Return(invocationId, functionId, tid, timestampNs) =>
      var g := s.(p := Generated(s.p));
      if invocationId.Some? then
        Store(g, SourceReturn(RecordOf(g.c, invocationId.value, tid), functionId, tid, timestampNs))
      else LocalReturn(g, functionId, tid, timestampNs)
    case Violation(tid, timestampNs) => Violate(s.(p := Generated(s.p)), tid, timestampNs)
    case Sampled(invocationId, x) =>
      var g := s.(p := SampleGenerated(s.p));
      if invocationId.Some? then Store(g, SourceSample(RecordOf(g.c, invocationId.value, x.tid), x))
      else LocalSample(g, x)
    case DroppedEvents(count) =>
      s.(p := s.p.(quality := s.p.quality.(eventsDropped := SatAdd(s.p.quality.eventsDropped, count))))
    case DroppedSamples(count) =>
      s.(p := s.p.(quality := s.p.quality.(samplesDropped := SatAdd(s.p.quality.samplesDropped, count))))
  }

  function PushAll(s: Session, es: seq<CollectorEvent>): Session {
    if es == [] then s else Push(PushAll(s, es[..|es| - 1]), es[|es| - 1])
  }

  // ---- The end of a capture ----

  /** A violation falls into the recorded span of a record, both ends included. */
  predicate Hits(violation: (u32, u64), r: SourceInvocation) {
    && r.tid == violation.0
    && r.startNs.Some? && r.startNs.value <= violation.1
    && (r.endNs.Some? ==> violation.1 <= r.endNs.value)
  }

  predicate Hit(violations: seq<(u32, u64)>, r: SourceInvocation) {
    exists i | 0 <= i < |violations| :: Hits(violations[i], r)
  }

  function Judge(records: map<u64, SourceInvocation>, violations: seq<(u32, u64)>): map<u64, SourceInvocation> {
    map id | id in records :: records[id].(valid := records[id].valid && !Hit(violations, records[id]))
  }

  /** How many records a violation hits. */
  function HitCount(records: map<u64, SourceInvocation>): ((u32, u64)) -> nat {
    (violation: (u32, u64)) => |set id | id in records && Hits(violation, records[id])|
  }

  /** Every hit counts, once for each violation and record. */
  function SuspectedOf(q: Quality, records: map<u64, SourceInvocation>, violations: seq<(u32, u64)>): Quality {
    q.(suspectedAsyncViolations := Cap(q.suspectedAsyncViolations + Sum(HitCount(records), violations)))
  }

  /** The session once every violation has been held against every record. */
  function Judged(s: Session): Session {
    Session(s.c.(sourceInvocations := Judge(s.c.sourceInvocations, s.c.sourceViolations)),
            s.p.(quality := SuspectedOf(s.p.quality, s.c.sourceInvocations, s.c.sourceViolations)))
  }

  /** The samples of one valid record; one outside its bounds only counts as a mismatch. */
  function Commit(s: Session, r: SourceInvocation, now: u64, samples: seq<Pending>): Session
    requires r.IsReported()
  {
    if samples == [] then s
    else
      var x := samples[|samples| - 1];
      var t := Commit(s, r, now, samples[..|samples| - 1]);
      if r.Covers(x, now) then Append(t, r.id, x) else t.(p := Mismatch(t.p))
  }

  function ReportOne(s: Session, r: SourceInvocation, now: u64): Session {
    if !r.IsReported() then s
    else
      var t := s.(p := Conclude(s.p, r.Report(now)));
      if r.IsValid(now) then Commit(t, r, now, r.samples)
      else if r.IsComplete() then t.(p := Mismatch(t.p))
      else t
  }

  function ReportAll(s: Session, records: map<u64, SourceInvocation>, ids: seq<u64>, now: u64): Session
    requires forall id | id in ids :: id in records
  {
    if ids == [] then s
    else ReportOne(ReportAll(s, records, ids[..|ids| - 1], now), records[ids[|ids| - 1]], now)
  }

  function AbandonAll(p: Profile, active: map<u32, ActiveInvocation>, order: seq<u32>, now: u64): Profile
    requires forall tid | tid in order :: tid in active
  {
    if order == [] then p
    else Conclude(AbandonAll(p, active, order[..|order| - 1], now), Unfinished(active[order[|order| - 1]], now))
  }

  predicate Ascending(a: u64, b: u64) {
    a <= b
  }

  ghost function SortedIds(ids: set<u64>): (r: seq<u64>)
    ensures forall id :: id in r <==> id in ids
  {
    InOrderMembers(Ascending, ids);
    InOrder(Ascending, ids)
  }

  /** The source half of `Correlator::finish`. */
  ghost function FinishSource(s: Session, now: u64): Session {
    if !s.c.sourceMode then s
    else
      var judged := Judged(s);
      ReportAll(judged, judged.c.sourceInvocations, SortedIds(judged.c.sourceInvocations.Keys), now)
  }

  /** `Correlator::finish`; the hash map of active invocations is read in some order. */
  ghost function Finish(s: Session, now: u64, order: seq<u32>): Profile
    requires forall tid | tid in order :: tid in s.c.active
  {
    var t := FinishSource(s, now);
    AbandonAll(t.p, s.c.active, order, now)
  }

  /** Each active thread once. */
  ghost predicate IsOrderOf(order: seq<u32>, active: map<u32, ActiveInvocation>) {
    Distinct(order) && forall tid :: tid in order <==> tid in active
  }
}
