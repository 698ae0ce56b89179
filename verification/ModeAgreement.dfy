/**
 The two modes of the correlator agree. The same loss-free trace is pushed twice, once with local ids and
 once with transport ids, which may be any renaming of the local ones. A sample may still come after the
 return of its call: the local mode drops it on arrival, the source mode when it holds it against the bounds.
 */
module ModeAgreement {
  import opened Domain
  import opened Sorting
  import opened Collector
  import opened Interning
  import opened SourceMode
  import opened SourceFinish
  import opened CapturedProfile
  import opened Accounting

  ghost predicate Injective(f: u64 -> u64) {
    forall a: u64, b: u64 | f(a) == f(b) :: a == b
  }

  // ---- Loss-free traces ----

  predicate Timed(e: CollectorEvent) {
    e.Entry? || e.Return? || e.Violation? || e.Sampled?
  }

  function TimeOf(e: CollectorEvent): u64
    requires Timed(e)
  {
    if e.Sampled? then e.sample.timestampNs else e.timestampNs
  }

  /** The last finished invocation of a thread. */
  function Latest(invocations: seq<Invocation>, tid: u32): Option<u64> {
    if invocations == [] then None
    else if invocations[|invocations| - 1].tid == tid then Some(invocations[|invocations| - 1].id)
    else Latest(invocations[..|invocations| - 1], tid)
  }

  /**
   The invocation whose name a sample of the thread carries: the active one, or, between the emission of
   the return record and the end of the link, still the one that has just returned.
   */
  function Linked(s: Session, tid: u32): Option<u64> {
    if tid in s.c.active then Some(s.c.active[tid].id) else Latest(s.p.invocations, tid)
  }

  /** What a trace has shown: the last time of each thread, and the samples that came after the return. */
  datatype Log = Log(clocks: map<u32, u64>, late: set<(u64, Pending)>)

  /** The sample comes after the return of the call whose name it carries. */
  predicate IsLate(s: Session, e: CollectorEvent) {
    e.Sampled? && e.sample.tid !in s.c.active && Linked(s, e.sample.tid).Some?
  }

  function Noted(s: Session, log: Log, e: CollectorEvent): Log {
    Log(if Timed(e) then log.clocks[TidOf(e) := TimeOf(e)] else log.clocks,
        if IsLate(s, e) then log.late + {(Linked(s, e.sample.tid).value, e.sample)} else log.late)
  }

  /** The event can come next: its thread's clock does not go back, and it matches what the thread is doing. */
  predicate Fits(s: Session, log: Log, e: CollectorEvent) {
    && IsLocal(e)
    && (Timed(e) && TidOf(e) in log.clocks ==> log.clocks[TidOf(e)] <= TimeOf(e))
    && (e.Entry? ==> e.tid !in s.c.active)
    && (e.Return? ==> e.tid in s.c.active && s.c.active[e.tid].functionId == e.functionId)
    && (e.Sampled? ==> Linked(s, e.sample.tid).Some?)
  }

  function Local(functions: seq<Function>, es: seq<CollectorEvent>): Session {
    PushAll(Blank(functions, NO_QUALITY), es)
  }

  function LogOf(functions: seq<Function>, es: seq<CollectorEvent>): Log {
    if es == [] then Log(map[], {})
    else
      var front := es[..|es| - 1];
      Noted(Local(functions, front), LogOf(functions, front), es[|es| - 1])
  }

  predicate Traced(functions: seq<Function>, es: seq<CollectorEvent>) {
    es == [] ||
    (Traced(functions, es[..|es| - 1])
     && Fits(Local(functions, es[..|es| - 1]), LogOf(functions, es[..|es| - 1]), es[|es| - 1]))
  }

  /** The event as the transport delivers it, under the name of its invocation. */
  function Tagged(s: Session, e: CollectorEvent, f: u64 -> u64): CollectorEvent {
    match e
    case Entry(_, functionId, tid, timestampNs) => Entry(Some(f(s.c.nextInvocationId)), functionId, tid, timestampNs)
    case Return(_, functionId, tid, timestampNs) =>
      if tid in s.c.active then Return(Some(f(s.c.active[tid].id)), functionId, tid, timestampNs) else e
    case Sampled(_, x) => if Linked(s, x.tid).Some? then Sampled(Some(f(Linked(s, x.tid).value)), x) else e
    case _ => e
  }

  function TagAll(functions: seq<Function>, es: seq<CollectorEvent>, f: u64 -> u64): seq<CollectorEvent> {
    if es == [] then []
    else
      var front := es[..|es| - 1];
      TagAll(functions, front, f) + [Tagged(Local(functions, front), es[|es| - 1], f)]
  }

  lemma {:induction false} OneMore(functions: seq<Function>, es: seq<CollectorEvent>, e: CollectorEvent, f: u64 -> u64)
    ensures Local(functions, es + [e]) == Push(Local(functions, es), e)
    ensures Traced(functions, es + [e])
       <==> Traced(functions, es) && Fits(Local(functions, es), LogOf(functions, es), e)
    ensures TagAll(functions, es + [e], f) == TagAll(functions, es, f) + [Tagged(Local(functions, es), e, f)]
    ensures LogOf(functions, es + [e]) == Noted(Local(functions, es), LogOf(functions, es), e)
  {
    assert (es + [e])[..|es|] == es;
  }

  /** A sample after the return record, still under the name of the call that has returned, is such a trace. */
  lemma {:induction false} LateSampleTraced(functions: seq<Function>, x: Pending, f: u64 -> u64)
    requires x.timestampNs > 10
    ensures
      var es := [Entry(None, 0, x.tid, 0), Return(None, 0, x.tid, 10), Sampled(None, x)];
      Traced(functions, es) && Sampled(Some(f(1)), x) in TagAll(functions, es, f)
  {
    var a, b, c := Entry(None, 0, x.tid, 0), Return(None, 0, x.tid, 10), Sampled(None, x);
    OneMore(functions, [], a, f);
    OneMore(functions, [a], b, f);
    OneMore(functions, [a, b], c, f);
    assert [] + [a] == [a] && [a] + [b] == [a, b] && [a, b] + [c] == [a, b, c];
  }

  // ---- How the two sessions correspond ----

  /** The samples of one invocation, in their order. */
  function SamplesWith(kept: seq<Kept>, id: u64): seq<Pending> {
    if kept == [] then []
    else
      var front, k := SamplesWith(kept[..|kept| - 1], id), kept[|kept| - 1];
      if k.invocationId == id then front + [k.sample] else front
  }

  /** The record has seen the entry and, if there is an end, the return; nothing contradicted it. */
  predicate RecordIs(r: SourceInvocation, id: u64, functionId: u32, tid: u32, startNs: u64, endNs: Option<u64>) {
    r == SourceInvocation(id, Some(functionId), tid, Some(startNs), endNs, true, endNs.Some?, true, r.samples)
  }

  ghost predicate Within(samples: seq<Pending>, from: u64, to: u64) {
    forall x | x in samples :: from <= x.timestampNs <= to
  }

  /** The samples that lie within the bounds, in their order. */
  function Inside(samples: seq<Pending>, from: u64, to: u64): seq<Pending> {
    if samples == [] then []
    else
      var front, x := Inside(samples[..|samples| - 1], from, to), samples[|samples| - 1];
      if from <= x.timestampNs <= to then front + [x] else front
  }

  /** While the invocation is valid, the local mode has stored exactly these samples for it. */
  ghost predicate Stored(p: Profile, id: u64, samples: seq<Pending>, valid: bool) {
    valid && |p.stacks| <= U32_MAX ==> SamplesWith(Resolved(p), id) == samples
  }

  ghost predicate ActiveAgrees(s: Session, t: State, log: Log, f: u64 -> u64, tid: u32)
    requires tid in s.c.active
  {
    var a := s.c.active[tid];
    && a.tid == tid && tid in log.clocks && a.startNs <= log.clocks[tid]
    && f(a.id) in t.sourceInvocations
    && var r := t.sourceInvocations[f(a.id)];
    && RecordIs(r, f(a.id), a.functionId, tid, a.startNs, None)
    && (!a.valid ==> Hit(t.sourceViolations, r))
    && (a.valid ==> forall v | v in t.sourceViolations && v.0 == tid :: v.1 <= a.startNs)
    && Within(r.samples, a.startNs, log.clocks[tid])
    && Stored(s.p, a.id, r.samples, a.valid)
    && (forall l | l in log.late :: l.0 != a.id)
  }

  /** The record's samples are those stored, and after them the late ones, none of which lies before the end. */
  ghost predicate Continued(stored: seq<Pending>, all: seq<Pending>, i: Invocation, late: set<(u64, Pending)>) {
    && stored <= all && Within(stored, i.startNs, i.endNs)
    && (forall x | x in all[|stored|..] :: i.endNs <= x.timestampNs)
    && (forall x :: x in all[|stored|..] <==> (i.id, x) in late)
  }

  ghost predicate DoneAgrees(s: Session, t: State, log: Log, f: u64 -> u64, i: Invocation) {
    && i.complete && i.parentId == None && i.tid in log.clocks && i.startNs <= i.endNs <= log.clocks[i.tid]
    && f(i.id) in t.sourceInvocations
    && var r := t.sourceInvocations[f(i.id)];
    && RecordIs(r, f(i.id), i.functionId, i.tid, i.startNs, Some(i.endNs))
    && (!i.valid ==> Hit(t.sourceViolations, r))
    && (i.valid ==> forall v | v in t.sourceViolations && v.0 == i.tid :: v.1 <= i.startNs || i.endNs <= v.1)
    && (i.valid && |s.p.stacks| <= U32_MAX ==>
          Continued(SamplesWith(Resolved(s.p), i.id), r.samples, i, log.late))
  }

  /** The id belongs to an invocation of the local session. */
  ghost predicate Known(s: Session, id: u64) {
    || (exists tid :: tid in s.c.active && s.c.active[tid].id == id)
    || (exists k :: 0 <= k < |s.p.invocations| && s.p.invocations[k].id == id)
  }

  ghost predicate ActivesAgree(s: Session, t: State, log: Log, f: u64 -> u64) {
    forall tid | tid in s.c.active :: ActiveAgrees(s, t, log, f, tid)
  }

  ghost predicate DonesAgree(s: Session, t: State, log: Log, f: u64 -> u64) {
    forall k | 0 <= k < |s.p.invocations| :: DoneAgrees(s, t, log, f, s.p.invocations[k])
  }

  /** There are no records but those of the local invocations. */
  ghost predicate KeysKnown(s: Session, t: State, f: u64 -> u64) {
    forall key | key in t.sourceInvocations :: exists id :: Known(s, id) && key == f(id)
  }

  ghost predicate Past(violations: seq<(u32, u64)>, log: Log) {
    forall k | 0 <= k < |violations| :: violations[k].0 in log.clocks && violations[k].1 <= log.clocks[violations[k].0]
  }

  ghost predicate SamplesNumbered(p: Profile, n: nat) {
    forall k | 0 <= k < |p.samples| :: p.samples[k].invocationId <= n
  }

  ghost predicate LateNumbered(log: Log, n: nat) {
    forall l | l in log.late :: l.0 <= n
  }

  ghost predicate Agree(s: Session, t: State, log: Log, f: u64 -> u64, entries: seq<CollectorEvent>) {
    && Issued(s, entries) && InternedSession(s)
    && ActivesAgree(s, t, log, f) && DonesAgree(s, t, log, f) && KeysKnown(s, t, f)
    && t.sourceViolations == s.c.sourceViolations && Past(t.sourceViolations, log)
    && SamplesNumbered(s.p, |entries|) && LateNumbered(log, |entries|)
  }

  /** The source session after one more event: only records and violations matter here. */
  function Follow(t: State, e: CollectorEvent): State {
    t.(sourceInvocations := Updated(t, e),
       sourceMode := t.sourceMode || IdOf(e).Some?,
       sourceViolations := if e.Violation? then t.sourceViolations + [(e.tid, e.timestampNs)] else t.sourceViolations)
  }

  // ---- What an event of one thread leaves alone ----

  /**
   Only the thread `tid` and its invocation `id` are concerned: its clock rises, its record may change, a
   violation of it may be noted, and no other invocation gets samples.
   */
  ghost predicate Concerns(s: Session, t: State, log: Log, s': Session, t': State, log': Log,
                           f: u64 -> u64, tid: u32, id: u64)
  {
    && (forall other | other in s'.c.active && other != tid ::
          other in s.c.active && s'.c.active[other] == s.c.active[other] && s.c.active[other].id != id)
    && (forall key | key in t.sourceInvocations && key != f(id) ::
          key in t'.sourceInvocations && t'.sourceInvocations[key] == t.sourceInvocations[key])
    && (forall v | v in t'.sourceViolations ::
          v in t.sourceViolations || (v.0 == tid && (tid in log.clocks ==> log.clocks[tid] <= v.1)))
    && (forall v | v in t.sourceViolations :: v in t'.sourceViolations)
    && tid in log'.clocks && (tid in log.clocks ==> log.clocks[tid] <= log'.clocks[tid])
    && (forall other | other in log.clocks && other != tid ::
          other in log'.clocks && log'.clocks[other] == log.clocks[other])
    && log.late <= log'.late && (forall l | l in log'.late :: l in log.late || l.0 == id)
    && |s.p.stacks| <= |s'.p.stacks|
    && (|s'.p.stacks| <= U32_MAX ==>
          forall other: u64 | other != id :: SamplesWith(Resolved(s'.p), other) == SamplesWith(Resolved(s.p), other))
  }

  lemma {:induction false} OtherActives(s: Session, t: State, log: Log, s': Session, t': State, log': Log,
                                        f: u64 -> u64, tid: u32, id: u64)
    requires Injective(f) && Concerns(s, t, log, s', t', log', f, tid, id) && ActivesAgree(s, t, log, f)
    ensures forall other | other in s'.c.active && other != tid :: ActiveAgrees(s', t', log', f, other)
  {
  }

  lemma {:induction false} OtherDone(s: Session, t: State, log: Log, s': Session, t': State, log': Log,
                                     f: u64 -> u64, tid: u32, id: u64, i: Invocation)
    requires Injective(f) && Concerns(s, t, log, s', t', log', f, tid, id) && DoneAgrees(s, t, log, f, i) && i.id != id
    ensures DoneAgrees(s', t', log', f, i)
  {
  }

  lemma {:induction false} OthersStay(s: Session, t: State, log: Log, s': Session, t': State, log': Log,
                                      f: u64 -> u64, tid: u32, id: u64)
    requires Injective(f) && Concerns(s, t, log, s', t', log', f, tid, id)
    requires ActivesAgree(s, t, log, f) && DonesAgree(s, t, log, f)
    ensures forall other | other in s'.c.active && other != tid :: ActiveAgrees(s', t', log', f, other)
    ensures forall k | 0 <= k < |s.p.invocations| && s.p.invocations[k].id != id ::
              DoneAgrees(s', t', log', f, s.p.invocations[k])
  {
    OtherActives(s, t, log, s', t', log', f, tid, id);
    forall k | 0 <= k < |s.p.invocations| && s.p.invocations[k].id != id
      ensures DoneAgrees(s', t', log', f, s.p.invocations[k])
    {
      OtherDone(s, t, log, s', t', log', f, tid, id, s.p.invocations[k]);
    }
  }

  /** If no finished invocation is concerned and the thread's own one agrees, all agree. */
  lemma {:induction false} RestStays(s: Session, t: State, log: Log, s': Session, t': State, log': Log,
                                     f: u64 -> u64, tid: u32, id: u64)
    requires Injective(f) && Concerns(s, t, log, s', t', log', f, tid, id)
    requires ActivesAgree(s, t, log, f) && DonesAgree(s, t, log, f) && s'.p.invocations == s.p.invocations
    requires forall k | 0 <= k < |s.p.invocations| :: s.p.invocations[k].id != id
    requires tid in s'.c.active ==> ActiveAgrees(s', t', log', f, tid)
    ensures ActivesAgree(s', t', log', f) && DonesAgree(s', t', log', f)
  {
    OthersStay(s, t, log, s', t', log', f, tid, id);
  }

  lemma {:induction false} KnownStays(s: Session, s': Session, t: State, t': State, f: u64 -> u64, id: u64)
    requires KeysKnown(s, t, f) && Known(s', id)
    requires forall key | key in t'.sourceInvocations :: key in t.sourceInvocations || key == f(id)
    requires forall other | other in s.c.active && s.c.active[other].id != id ::
               other in s'.c.active && s'.c.active[other].id == s.c.active[other].id
    requires |s.p.invocations| <= |s'.p.invocations|
    requires forall k | 0 <= k < |s.p.invocations| :: s'.p.invocations[k].id == s.p.invocations[k].id
    ensures KeysKnown(s', t', f)
  {
  }

  lemma {:induction false} KnownKept(s: Session, s': Session, t: State, t': State, f: u64 -> u64)
    requires KeysKnown(s, t, f) && t'.sourceInvocations == t.sourceInvocations
    requires s'.p.invocations == s.p.invocations
    requires forall other | other in s.c.active :: other in s'.c.active && s'.c.active[other].id == s.c.active[other].id
    ensures KeysKnown(s', t', f)
  {
  }

  /** Clocks never go back, so what is past stays past. */
  lemma PastStays(s: Session, violations: seq<(u32, u64)>, log: Log, e: CollectorEvent)
    requires Past(violations, log) && (Timed(e) && TidOf(e) in log.clocks ==> log.clocks[TidOf(e)] <= TimeOf(e))
    ensures Past(violations, Noted(s, log, e))
    ensures e.Violation? ==> Past(violations + [(e.tid, e.timestampNs)], Noted(s, log, e))
  {
  }

  // ---- Facts about numbers, samples and hits ----

  lemma {:induction false} SameSamples(s: Session, s': Session)
    requires s'.p.stacks == s.p.stacks && s'.p.samples == s.p.samples
    ensures Resolved(s'.p) == Resolved(s.p)
  {
  }

  lemma {:induction false} NoneWith(kept: seq<Kept>, id: u64)
    requires forall k | 0 <= k < |kept| :: kept[k].invocationId != id
    ensures SamplesWith(kept, id) == []
  {
    if kept != [] { NoneWith(kept[..|kept| - 1], id); }
  }

  lemma {:induction false} OneWith(kept: seq<Kept>, k: Kept, id: u64)
    ensures SamplesWith(kept + [k], id) == SamplesWith(kept, id) + if k.invocationId == id then [k.sample] else []
  {
  }

  /** Ids of different invocations differ. */
  lemma {:induction false} Apart(s: Session, entries: seq<CollectorEvent>, tid: u32)
    requires Issued(s, entries) && tid in s.c.active
    ensures 1 <= s.c.active[tid].id <= |entries|
    ensures forall other | other in s.c.active && other != tid :: s.c.active[other].id != s.c.active[tid].id
    ensures forall k | 0 <= k < |s.p.invocations| :: s.p.invocations[k].id != s.c.active[tid].id
  {
  }

  /** The next id is new on both sides. */
  lemma {:induction false} NextIsNew(s: Session, t: State, f: u64 -> u64, entries: seq<CollectorEvent>)
    requires Injective(f) && Issued(s, entries) && KeysKnown(s, t, f)
    ensures f(s.c.nextInvocationId) !in t.sourceInvocations
    ensures forall tid | tid in s.c.active :: s.c.active[tid].id != s.c.nextInvocationId
    ensures forall k | 0 <= k < |s.p.invocations| :: s.p.invocations[k].id != s.c.nextInvocationId
  {
  }

  lemma HitMore(violations: seq<(u32, u64)>, v: (u32, u64), r: SourceInvocation)
    ensures Hit(violations + [v], r) <==> Hit(violations, r) || Hits(v, r)
  {
    if Hit(violations, r) {
      var k :| 0 <= k < |violations| && Hits(violations[k], r);
      assert (violations + [v])[k] == violations[k];
    }
    assert (violations + [v])[|violations|] == v;
  }

  lemma {:induction false} InsideAll(samples: seq<Pending>, from: u64, to: u64)
    requires Within(samples, from, to)
    ensures Inside(samples, from, to) == samples
  {
    if samples != [] {
      var front := samples[..|samples| - 1];
      assert samples == front + [samples[|samples| - 1]] && forall x | x in front :: x in samples;
      InsideAll(front, from, to);
    }
  }

  lemma {:induction false} InsideConcat(a: seq<Pending>, b: seq<Pending>, from: u64, to: u64)
    ensures Inside(a + b, from, to) == Inside(a, from, to) + Inside(b, from, to)
  {
    if b == [] {
      assert a + b == a;
    } else {
      assert (a + b)[..|a + b| - 1] == a + b[..|b| - 1];
      InsideConcat(a, b[..|b| - 1], from, to);
    }
  }

  lemma {:induction false} InsideEmpty(samples: seq<Pending>, from: u64, to: u64)
    ensures Inside(samples, from, to) == [] <==> forall x | x in samples :: !(from <= x.timestampNs <= to)
  {
    if samples != [] {
      InsideEmpty(samples[..|samples| - 1], from, to);
      assert samples == samples[..|samples| - 1] + [samples[|samples| - 1]];
    }
  }

  /** A late sample goes behind the others. */
  lemma {:induction false} ContinuedMore(stored: seq<Pending>, all: seq<Pending>, x: Pending, i: Invocation,
                                         late: set<(u64, Pending)>)
    requires Continued(stored, all, i, late) && i.endNs <= x.timestampNs
    ensures Continued(stored, all + [x], i, late + {(i.id, x)})
  {
    assert (all + [x])[|stored|..] == all[|stored|..] + [x];
  }

  /** The bounds keep exactly what was stored, unless a late sample has the time of the end. */
  lemma {:induction false} ContinuedInside(stored: seq<Pending>, all: seq<Pending>, i: Invocation,
                                           late: set<(u64, Pending)>)
    requires Continued(stored, all, i, late) && i.startNs <= i.endNs
    ensures Inside(all, i.startNs, i.endNs) == stored <==>
            forall l | l in late && l.0 == i.id :: l.1.timestampNs != i.endNs
  {
    var tail := all[|stored|..];
    assert all == stored + tail;
    InsideConcat(stored, tail, i.startNs, i.endNs);
    InsideAll(stored, i.startNs, i.endNs);
    InsideEmpty(tail, i.startNs, i.endNs);
    forall l | l in late && l.0 == i.id ensures l.1 in tail { assert (i.id, l.1) in late; }
  }

  lemma {:induction false} LatestIs(invocations: seq<Invocation>, tid: u32) returns (k: nat)
    requires Latest(invocations, tid).Some?
    ensures k < |invocations| && invocations[k].tid == tid && invocations[k].id == Latest(invocations, tid).value
  {
    k := |invocations| - 1;
    if invocations[k].tid != tid { k := LatestIs(invocations[..k], tid); }
  }

  // ---- Every event of a trace keeps the agreement ----

  lemma {:induction false} EntryConcerns(s: Session, t: State, log: Log, f: u64 -> u64,
                                         entries: seq<CollectorEvent>, e: CollectorEvent)
    requires Injective(f) && Issued(s, entries) && KeysKnown(s, t, f) && Fits(s, log, e) && e.Entry?
    ensures Concerns(s, t, log, Push(s, e), Follow(t, Tagged(s, e, f)), Noted(s, log, e), f, e.tid,
                     s.c.nextInvocationId)
  {
    var s', t' := Push(s, e), Follow(t, Tagged(s, e, f));
    NextIsNew(s, t, f, entries);
    SameSamples(s, s');
  }

  lemma {:induction false} EntryKnown(s: Session, t: State, log: Log, f: u64 -> u64, e: CollectorEvent)
    requires KeysKnown(s, t, f) && Fits(s, log, e) && e.Entry?
    ensures KeysKnown(Push(s, e), Follow(t, Tagged(s, e, f)), f)
  {
    assert Push(s, e).c.active[e.tid].id == s.c.nextInvocationId;
    assert Known(Push(s, e), s.c.nextInvocationId);
    KnownStays(s, Push(s, e), t, Follow(t, Tagged(s, e, f)), f, s.c.nextInvocationId);
  }

  lemma {:induction false} EntryRest(s: Session, t: State, log: Log, f: u64 -> u64,
                                     entries: seq<CollectorEvent>, e: CollectorEvent)
    requires Injective(f) && Agree(s, t, log, f, entries) && Fits(s, log, e) && e.Entry?
    ensures
      var s', t', log' := Push(s, e), Follow(t, Tagged(s, e, f)), Noted(s, log, e);
      ActivesAgree(s', t', log', f) && DonesAgree(s', t', log', f)
  {
    NextIsNew(s, t, f, entries);
    EntryConcerns(s, t, log, f, entries, e);
    EntryBegins(s, t, log, f, entries, e);
    assert Push(s, e).p.invocations == s.p.invocations;
    RestStays(s, t, log, Push(s, e), Follow(t, Tagged(s, e, f)), Noted(s, log, e), f, e.tid, s.c.nextInvocationId);
  }

  /** A boundary event stores no sample, notes no violation and is not late. */
  lemma {:induction false} BoundaryLeaves(s: Session, t: State, log: Log, f: u64 -> u64, n: nat, e: CollectorEvent)
    requires Boundary(e) && IsLocal(e) && t.sourceViolations == s.c.sourceViolations
    requires SamplesNumbered(s.p, n) && LateNumbered(log, n)
    ensures Follow(t, Tagged(s, e, f)).sourceViolations == Push(s, e).c.sourceViolations == t.sourceViolations
    ensures SamplesNumbered(Push(s, e).p, n) && LateNumbered(Noted(s, log, e), n)
  {
  }

  lemma {:induction false} EntryAgrees(s: Session, t: State, log: Log, f: u64 -> u64,
                                       entries: seq<CollectorEvent>, e: CollectorEvent)
    requires Injective(f) && Agree(s, t, log, f, entries) && Fits(s, log, e) && e.Entry?
    requires |entries| + 1 < U64_MAX
    ensures Agree(Push(s, e), Follow(t, Tagged(s, e, f)), Noted(s, log, e), f, entries + [e])
  {
    PushIssues(s, entries, e);
    PushKeeps(s, e);
    EntryKnown(s, t, log, f, e);
    EntryRest(s, t, log, f, entries, e);
    BoundaryLeaves(s, t, log, f, |entries|, e);
    PastStays(s, t.sourceViolations, log, e);
  }

  /** The new invocation agrees from the start. */
  lemma {:induction false} EntryBegins(s: Session, t: State, log: Log, f: u64 -> u64,
                                       entries: seq<CollectorEvent>, e: CollectorEvent)
    requires Fits(s, log, e) && e.Entry? && f(s.c.nextInvocationId) !in t.sourceInvocations
    requires Past(t.sourceViolations, log) && s.c.nextInvocationId == |entries| + 1
    requires SamplesNumbered(s.p, |entries|) && LateNumbered(log, |entries|)
    ensures e.tid in Push(s, e).c.active
    ensures ActiveAgrees(Push(s, e), Follow(t, Tagged(s, e, f)), Noted(s, log, e), f, e.tid)
  {
    var t' := Follow(t, Tagged(s, e, f));
    SameSamples(s, Push(s, e));
    NoneWith(Resolved(s.p), s.c.nextInvocationId);
  }

  lemma {:induction false} ReturnConcerns(s: Session, t: State, log: Log, f: u64 -> u64,
                                          entries: seq<CollectorEvent>, e: CollectorEvent)
    requires Issued(s, entries) && Fits(s, log, e) && e.Return?
    requires ActiveAgrees(s, t, log, f, e.tid)
    ensures Concerns(s, t, log, Push(s, e), Follow(t, Tagged(s, e, f)), Noted(s, log, e), f, e.tid,
                     s.c.active[e.tid].id)
  {
    var s', t', id := Push(s, e), Follow(t, Tagged(s, e, f)), s.c.active[e.tid].id;
    Apart(s, entries, e.tid);
    SameSamples(s, s');
  }

  lemma {:induction false} ReturnKnown(s: Session, t: State, log: Log, f: u64 -> u64, e: CollectorEvent)
    requires KeysKnown(s, t, f) && Fits(s, log, e) && e.Return? && s.c.active[e.tid].tid == e.tid
    requires forall other | other in s.c.active && other != e.tid :: s.c.active[other].id != s.c.active[e.tid].id
    ensures KeysKnown(Push(s, e), Follow(t, Tagged(s, e, f)), f)
  {
    var s', id := Push(s, e), s.c.active[e.tid].id;
    assert s'.p.invocations[|s.p.invocations|].id == id;
    assert Known(s', id);
    KnownStays(s, s', t, Follow(t, Tagged(s, e, f)), f, id);
  }

  lemma {:induction false} ReturnEnds(s: Session, t: State, log: Log, f: u64 -> u64, e: CollectorEvent)
    requires Fits(s, log, e) && e.Return? && Past(t.sourceViolations, log)
    requires ActiveAgrees(s, t, log, f, e.tid)
    ensures |Push(s, e).p.invocations| == |s.p.invocations| + 1
    ensures Push(s, e).p.invocations[..|s.p.invocations|] == s.p.invocations
    ensures DoneAgrees(Push(s, e), Follow(t, Tagged(s, e, f)), Noted(s, log, e), f,
                       Push(s, e).p.invocations[|s.p.invocations|])
  {
    var a := s.c.active[e.tid];
    var r := t.sourceInvocations[f(a.id)];
    SameSamples(s, Push(s, e));
    assert Within(r.samples, a.startNs, e.timestampNs) && r.samples[|r.samples|..] == [];
  }

  lemma {:induction false} ReturnRest(s: Session, t: State, log: Log, f: u64 -> u64,
                                      entries: seq<CollectorEvent>, e: CollectorEvent)
    requires Injective(f) && Agree(s, t, log, f, entries) && Fits(s, log, e) && e.Return?
    ensures
      var s', t', log' := Push(s, e), Follow(t, Tagged(s, e, f)), Noted(s, log, e);
      ActivesAgree(s', t', log', f) && DonesAgree(s', t', log', f)
  {
    var s', t', log', id := Push(s, e), Follow(t, Tagged(s, e, f)), Noted(s, log, e), s.c.active[e.tid].id;
    assert ActiveAgrees(s, t, log, f, e.tid);
    Apart(s, entries, e.tid);
    ReturnConcerns(s, t, log, f, entries, e);
    OthersStay(s, t, log, s', t', log', f, e.tid, id);
    ReturnEnds(s, t, log, f, e);
    DonesMore(s, s', t', log', f);
  }

  lemma {:induction false} ReturnAgrees(s: Session, t: State, log: Log, f: u64 -> u64,
                                        entries: seq<CollectorEvent>, e: CollectorEvent)
    requires Injective(f) && Agree(s, t, log, f, entries) && Fits(s, log, e) && e.Return?
    requires |entries| + 1 < U64_MAX
    ensures Agree(Push(s, e), Follow(t, Tagged(s, e, f)), Noted(s, log, e), f, entries)
  {
    assert ActiveAgrees(s, t, log, f, e.tid);
    PushIssues(s, entries, e);
    PushKeeps(s, e);
    Apart(s, entries, e.tid);
    ReturnKnown(s, t, log, f, e);
    ReturnRest(s, t, log, f, entries, e);
    BoundaryLeaves(s, t, log, f, |entries|, e);
    PastStays(s, t.sourceViolations, log, e);
  }

  lemma {:induction false} DonesMore(s: Session, s': Session, t': State, log': Log, f: u64 -> u64)
    requires |s'.p.invocations| == |s.p.invocations| + 1 && s'.p.invocations[..|s.p.invocations|] == s.p.invocations
    requires forall k | 0 <= k < |s.p.invocations| :: DoneAgrees(s', t', log', f, s.p.invocations[k])
    requires DoneAgrees(s', t', log', f, s'.p.invocations[|s.p.invocations|])
    ensures DonesAgree(s', t', log', f)
  {
  }

  lemma {:induction false} ViolationConcerns(s: Session, t: State, log: Log, f: u64 -> u64,
                                             entries: seq<CollectorEvent>, e: CollectorEvent, id: u64)
    requires Issued(s, entries) && Fits(s, log, e) && e.Violation?
    requires id == if e.tid in s.c.active then s.c.active[e.tid].id else 0
    ensures Concerns(s, t, log, Push(s, e), Follow(t, Tagged(s, e, f)), Noted(s, log, e), f, e.tid, id)
    ensures forall k | 0 <= k < |s.p.invocations| :: s.p.invocations[k].id != id
  {
    SameSamples(s, Push(s, e));
    forall other | other in s.c.active
      ensures s.c.active[other].id >= 1 && (other != e.tid ==> s.c.active[other].id != id)
    {
      Apart(s, entries, other);
    }
  }

  lemma {:induction false} ViolationKnown(s: Session, t: State, f: u64 -> u64, e: CollectorEvent)
    requires KeysKnown(s, t, f) && e.Violation?
    ensures KeysKnown(Push(s, e), Follow(t, Tagged(s, e, f)), f)
  {
    KnownKept(s, Push(s, e), t, Follow(t, Tagged(s, e, f)), f);
  }

  /** A violation during an active invocation invalidates it in both modes. */
  lemma {:induction false} ViolationHits(s: Session, t: State, log: Log, f: u64 -> u64, e: CollectorEvent)
    requires Fits(s, log, e) && e.Violation? && e.tid in s.c.active && ActiveAgrees(s, t, log, f, e.tid)
    ensures e.tid in Push(s, e).c.active
    ensures ActiveAgrees(Push(s, e), Follow(t, Tagged(s, e, f)), Noted(s, log, e), f, e.tid)
  {
    HitMore(t.sourceViolations, (e.tid, e.timestampNs), t.sourceInvocations[f(s.c.active[e.tid].id)]);
  }

  lemma {:induction false} ViolationOwn(s: Session, t: State, log: Log, f: u64 -> u64, e: CollectorEvent)
    requires Fits(s, log, e) && e.Violation? && ActivesAgree(s, t, log, f)
    ensures Push(s, e).p.invocations == s.p.invocations
    ensures e.tid in Push(s, e).c.active ==>
              ActiveAgrees(Push(s, e), Follow(t, Tagged(s, e, f)), Noted(s, log, e), f, e.tid)
  {
    if e.tid in s.c.active { ViolationHits(s, t, log, f, e); }
  }

  lemma {:induction false} ViolationRest(s: Session, t: State, log: Log, f: u64 -> u64,
                                         entries: seq<CollectorEvent>, e: CollectorEvent)
    requires Injective(f) && Issued(s, entries) && Fits(s, log, e) && e.Violation?
    requires ActivesAgree(s, t, log, f) && DonesAgree(s, t, log, f)
    ensures
      var s', t', log' := Push(s, e), Follow(t, Tagged(s, e, f)), Noted(s, log, e);
      ActivesAgree(s', t', log', f) && DonesAgree(s', t', log', f)
  {
    var id := if e.tid in s.c.active then s.c.active[e.tid].id else 0;
    ViolationConcerns(s, t, log, f, entries, e, id);
    ViolationOwn(s, t, log, f, e);
    RestStays(s, t, log, Push(s, e), Follow(t, Tagged(s, e, f)), Noted(s, log, e), f, e.tid, id);
  }

  lemma {:induction false} ViolationLeaves(s: Session, t: State, log: Log, f: u64 -> u64, n: nat, e: CollectorEvent)
    requires e.Violation? && t.sourceViolations == s.c.sourceViolations
    requires SamplesNumbered(s.p, n) && LateNumbered(log, n)
    ensures Follow(t, Tagged(s, e, f)).sourceViolations == Push(s, e).c.sourceViolations
         == t.sourceViolations + [(e.tid, e.timestampNs)]
    ensures SamplesNumbered(Push(s, e).p, n) && LateNumbered(Noted(s, log, e), n)
  {
  }

  lemma {:induction false} ViolationAgrees(s: Session, t: State, log: Log, f: u64 -> u64,
                                           entries: seq<CollectorEvent>, e: CollectorEvent)
    requires Injective(f) && Agree(s, t, log, f, entries) && Fits(s, log, e) && e.Violation?
    requires |entries| + 1 < U64_MAX
    ensures Agree(Push(s, e), Follow(t, Tagged(s, e, f)), Noted(s, log, e), f, entries)
  {
    PushIssues(s, entries, e);
    PushKeeps(s, e);
    ViolationKnown(s, t, f, e);
    ViolationRest(s, t, log, f, entries, e);
    ViolationLeaves(s, t, log, f, |entries|, e);
    PastStays(s, t.sourceViolations, log, e);
  }

  /** A sample is stored for its own invocation, if that is valid, and for no other. */
  lemma {:induction false} AppendedIs(s: Session, id: u64, x: Pending)
    requires InternedSession(s)
    ensures
      var s' := Append(s, id, x);
      && |s.p.stacks| <= |s'.p.stacks|
      && (|s'.p.stacks| <= U32_MAX ==>
            forall i :: SamplesWith(Resolved(s'.p), i)
                     == SamplesWith(Resolved(s.p), i) + if i == id then [x] else [])
  {
    var s' := Append(s, id, x);
    AppendResolves(s, id, x);
    if |s'.p.stacks| <= U32_MAX {
      forall i ensures SamplesWith(Resolved(s'.p), i) == SamplesWith(Resolved(s.p), i) + if i == id then [x] else [] {
        OneWith(Resolved(s.p), Kept(id, x), i);
      }
    }
  }

  lemma {:induction false} SampleStored(s: Session, e: CollectorEvent)
    requires InternedSession(s) && e.Sampled? && IsLocal(e) && e.sample.tid in s.c.active
    ensures
      var s', a := Push(s, e), s.c.active[e.sample.tid];
      && s'.c.active == s.c.active && s'.p.invocations == s.p.invocations
      && |s.p.stacks| <= |s'.p.stacks|
      && (forall n: nat | a.id <= n && SamplesNumbered(s.p, n) :: SamplesNumbered(s'.p, n))
      && (|s'.p.stacks| <= U32_MAX ==>
            forall id :: SamplesWith(Resolved(s'.p), id)
                      == SamplesWith(Resolved(s.p), id) + if id == a.id && a.valid then [e.sample] else [])
  {
    var a, g := s.c.active[e.sample.tid], s.(p := SampleGenerated(s.p));
    SameSamples(s, g);
    if a.valid {
      assert Push(s, e) == Append(g, a.id, e.sample);
      AppendedIs(g, a.id, e.sample);
    } else {
      SameSamples(s, Push(s, e));
    }
  }

  lemma {:induction false} SampledAgrees(s: Session, t: State, log: Log, f: u64 -> u64, e: CollectorEvent)
    requires InternedSession(s) && Fits(s, log, e) && e.Sampled?
    requires e.sample.tid in s.c.active && ActiveAgrees(s, t, log, f, e.sample.tid)
    ensures e.sample.tid in Push(s, e).c.active
    ensures ActiveAgrees(Push(s, e), Follow(t, Tagged(s, e, f)), Noted(s, log, e), f, e.sample.tid)
  {
    var a := s.c.active[e.sample.tid];
    var r := t.sourceInvocations[f(a.id)];
    var r' := SourceSample(r, e.sample);
    SampleStored(s, e);
    assert forall v :: Hits(v, r') <==> Hits(v, r);
    assert Hit(t.sourceViolations, r') <==> Hit(t.sourceViolations, r);
  }

  lemma {:induction false} SampleConcerns(s: Session, t: State, log: Log, f: u64 -> u64,
                                          entries: seq<CollectorEvent>, e: CollectorEvent)
    requires Issued(s, entries) && InternedSession(s) && Fits(s, log, e) && e.Sampled?
    requires e.sample.tid in s.c.active && ActiveAgrees(s, t, log, f, e.sample.tid)
    ensures Concerns(s, t, log, Push(s, e), Follow(t, Tagged(s, e, f)), Noted(s, log, e), f, e.sample.tid,
                     s.c.active[e.sample.tid].id)
  {
    var s', t', id := Push(s, e), Follow(t, Tagged(s, e, f)), s.c.active[e.sample.tid].id;
    SampleStored(s, e);
    Apart(s, entries, e.sample.tid);
  }

  /** A sample is of a known invocation. */
  lemma {:induction false} SampleKnown(s: Session, t: State, log: Log, f: u64 -> u64, e: CollectorEvent)
    requires KeysKnown(s, t, f) && Fits(s, log, e) && e.Sampled? && Known(s, Linked(s, e.sample.tid).value)
    ensures KeysKnown(Push(s, e), Follow(t, Tagged(s, e, f)), f)
  {
    var s' := Push(s, e);
    assert s'.c.active == s.c.active && s'.p.invocations == s.p.invocations;
    KnownStays(s, s', t, Follow(t, Tagged(s, e, f)), f, Linked(s, e.sample.tid).value);
  }

  lemma {:induction false} SampleNumbered(s: Session, entries: seq<CollectorEvent>, e: CollectorEvent)
    requires Issued(s, entries) && InternedSession(s) && SamplesNumbered(s.p, |entries|)
    requires e.Sampled? && IsLocal(e) && e.sample.tid in s.c.active
    ensures SamplesNumbered(Push(s, e).p, |entries|)
  {
    Apart(s, entries, e.sample.tid);
    SampleStored(s, e);
  }

  lemma {:induction false} SampleRest(s: Session, t: State, log: Log, f: u64 -> u64,
                                      entries: seq<CollectorEvent>, e: CollectorEvent)
    requires Injective(f) && Issued(s, entries) && InternedSession(s) && Fits(s, log, e) && e.Sampled?
    requires ActivesAgree(s, t, log, f) && DonesAgree(s, t, log, f) && e.sample.tid in s.c.active
    ensures
      var s', t', log' := Push(s, e), Follow(t, Tagged(s, e, f)), Noted(s, log, e);
      ActivesAgree(s', t', log', f) && DonesAgree(s', t', log', f)
  {
    var tid := e.sample.tid;
    assert ActiveAgrees(s, t, log, f, tid);
    Apart(s, entries, tid);
    SampleConcerns(s, t, log, f, entries, e);
    SampledAgrees(s, t, log, f, e);
    assert Push(s, e).p.invocations == s.p.invocations;
    RestStays(s, t, log, Push(s, e), Follow(t, Tagged(s, e, f)), Noted(s, log, e), f, tid, s.c.active[tid].id);
  }

  /** What a sample during a call leaves alone. */
  lemma {:induction false} SampleLeaves(s: Session, t: State, log: Log, f: u64 -> u64, n: nat, e: CollectorEvent)
    requires e.Sampled? && IsLocal(e) && e.sample.tid in s.c.active
    requires t.sourceViolations == s.c.sourceViolations && LateNumbered(log, n)
    ensures Follow(t, Tagged(s, e, f)).sourceViolations == Push(s, e).c.sourceViolations == t.sourceViolations
    ensures LateNumbered(Noted(s, log, e), n)
  {
  }

  lemma {:induction false} SampleAgrees(s: Session, t: State, log: Log, f: u64 -> u64,
                                        entries: seq<CollectorEvent>, e: CollectorEvent)
    requires Injective(f) && Agree(s, t, log, f, entries) && Fits(s, log, e) && e.Sampled?
    requires e.sample.tid in s.c.active && |entries| + 1 < U64_MAX
    ensures Agree(Push(s, e), Follow(t, Tagged(s, e, f)), Noted(s, log, e), f, entries)
  {
    PushIssues(s, entries, e);
    PushKeeps(s, e);
    SampleNumbered(s, entries, e);
    assert Known(s, s.c.active[e.sample.tid].id);
    SampleKnown(s, t, log, f, e);
    SampleRest(s, t, log, f, entries, e);
    SampleLeaves(s, t, log, f, |entries|, e);
    PastStays(s, t.sourceViolations, log, e);
  }

  /** The record of a finished invocation gets a sample that lies after its end. */
  lemma {:induction false} LateConcerns(s: Session, t: State, log: Log, f: u64 -> u64, e: CollectorEvent, i: Invocation)
    requires Fits(s, log, e) && e.Sampled? && e.sample.tid !in s.c.active
    requires DoneAgrees(s, t, log, f, i) && i.tid == e.sample.tid && Linked(s, i.tid) == Some(i.id)
    requires forall tid | tid in s.c.active :: s.c.active[tid].id != i.id
    ensures Concerns(s, t, log, Push(s, e), Follow(t, Tagged(s, e, f)), Noted(s, log, e), f, i.tid, i.id)
  {
    var s', t' := Push(s, e), Follow(t, Tagged(s, e, f));
    SameSamples(s, s');
  }

  lemma {:induction false} LateDone(s: Session, t: State, log: Log, f: u64 -> u64, e: CollectorEvent, i: Invocation)
    requires Fits(s, log, e) && e.Sampled? && e.sample.tid !in s.c.active
    requires DoneAgrees(s, t, log, f, i) && i.tid == e.sample.tid && Linked(s, i.tid) == Some(i.id)
        && i in s.p.invocations
    ensures DoneAgrees(Push(s, e), Follow(t, Tagged(s, e, f)), Noted(s, log, e), f, i)
  {
    var r := t.sourceInvocations[f(i.id)];
    var r' := SourceSample(r, e.sample);
    SameSamples(s, Push(s, e));
    if i.valid && |s.p.stacks| <= U32_MAX {
      ContinuedMore(SamplesWith(Resolved(s.p), i.id), r.samples, e.sample, i, log.late);
    }
    assert forall v :: Hits(v, r') <==> Hits(v, r);
    assert Hit(t.sourceViolations, r') <==> Hit(t.sourceViolations, r);
  }

  /** A sample after the return: the local mode drops it, the source mode filters it by the record's bounds. */
  lemma {:induction false} LateAgrees(s: Session, t: State, log: Log, f: u64 -> u64,
                                      entries: seq<CollectorEvent>, e: CollectorEvent)
    requires Injective(f) && Agree(s, t, log, f, entries) && Fits(s, log, e) && e.Sampled?
    requires e.sample.tid !in s.c.active && |entries| + 1 < U64_MAX
    ensures Agree(Push(s, e), Follow(t, Tagged(s, e, f)), Noted(s, log, e), f, entries)
  {
    var s', t', log' := Push(s, e), Follow(t, Tagged(s, e, f)), Noted(s, log, e);
    var n := LatestIs(s.p.invocations, e.sample.tid);
    var i := s.p.invocations[n];
    assert DoneAgrees(s, t, log, f, i);
    PushIssues(s, entries, e);
    PushKeeps(s, e);
    forall tid | tid in s.c.active ensures s.c.active[tid].id != i.id { Apart(s, entries, tid); }
    LateConcerns(s, t, log, f, e, i);
    SampleKnown(s, t, log, f, e);
    OthersStay(s, t, log, s', t', log', f, i.tid, i.id);
    LateDone(s, t, log, f, e, i);
    PastStays(s, t.sourceViolations, log, e);
    DonesAgain(s, s', t', log', f, entries, n);
  }

  lemma {:induction false} DonesAgain(s: Session, s': Session, t': State, log': Log, f: u64 -> u64,
                                      entries: seq<CollectorEvent>, n: nat)
    requires s'.p.invocations == s.p.invocations && n < |s.p.invocations| && NumberedAll(entries, s.p.invocations)
    requires forall k | 0 <= k < |s.p.invocations| && s.p.invocations[k].id != s.p.invocations[n].id ::
               DoneAgrees(s', t', log', f, s.p.invocations[k])
    requires DoneAgrees(s', t', log', f, s.p.invocations[n])
    ensures DonesAgree(s', t', log', f)
  {
    forall k | 0 <= k < |s.p.invocations| ensures DoneAgrees(s', t', log', f, s.p.invocations[k]) {
      if k != n { assert s.p.invocations[k].id != s.p.invocations[n].id; }
    }
  }

  lemma {:induction false} DropAgrees(s: Session, t: State, log: Log, f: u64 -> u64,
                                      entries: seq<CollectorEvent>, e: CollectorEvent)
    requires Agree(s, t, log, f, entries) && !Timed(e)
    ensures Agree(Push(s, e), Follow(t, Tagged(s, e, f)), Noted(s, log, e), f, entries)
  {
    var s', t' := Push(s, e), Follow(t, Tagged(s, e, f));
    SameIssues(s, s', entries);
    PushKeeps(s, e);
    SameSamples(s, s');
    KnownKept(s, s', t, t', f);
    forall tid | tid in s'.c.active ensures ActiveAgrees(s', t', log, f, tid) {
      assert ActiveAgrees(s, t, log, f, tid);
    }
    forall k | 0 <= k < |s'.p.invocations| ensures DoneAgrees(s', t', log, f, s'.p.invocations[k]) {
      assert DoneAgrees(s, t, log, f, s.p.invocations[k]);
    }
  }

  lemma {:induction false} EventAgrees(s: Session, t: State, log: Log, f: u64 -> u64,
                                       entries: seq<CollectorEvent>, e: CollectorEvent)
    requires Injective(f) && Agree(s, t, log, f, entries) && Fits(s, log, e) && |entries| + 1 < U64_MAX
    ensures Agree(Push(s, e), Follow(t, Tagged(s, e, f)), Noted(s, log, e), f,
                  if e.Entry? then entries + [e] else entries)
    ensures Transport(Tagged(s, e, f))
  {
    match e
    case Entry(_, _, _, _) => EntryAgrees(s, t, log, f, entries, e);
    case Return(_, _, _, _) => ReturnAgrees(s, t, log, f, entries, e);
    case Violation(_, _) => ViolationAgrees(s, t, log, f, entries, e);
    case Sampled(_, x) =>
      if x.tid in s.c.active { SampleAgrees(s, t, log, f, entries, e); } else { LateAgrees(s, t, log, f, entries, e); }
    case _ => DropAgrees(s, t, log, f, entries, e);
  }

  function Source(functions: seq<Function>, es: seq<CollectorEvent>, f: u64 -> u64): Session {
    PushAll(Blank(functions, NO_QUALITY), TagAll(functions, es, f))
  }

  lemma {:induction false} TraceAgrees(functions: seq<Function>, es: seq<CollectorEvent>, f: u64 -> u64)
    requires Injective(f) && Traced(functions, es) && |EntriesOf(es)| < U64_MAX - 1
    ensures AllTransport(TagAll(functions, es, f))
    ensures Agree(Local(functions, es), Source(functions, es, f).c, LogOf(functions, es), f, EntriesOf(es))
  {
    if es != [] {
      var front, e := es[..|es| - 1], es[|es| - 1];
      var s, t := Local(functions, front), Source(functions, front, f);
      TraceAgrees(functions, front, f);
      EventAgrees(s, t.c, LogOf(functions, front), f, EntriesOf(front), e);
      SourceFollows(functions, es, f);
    }
  }

  lemma {:induction false} SourceFollows(functions: seq<Function>, es: seq<CollectorEvent>, f: u64 -> u64)
    requires es != [] && AllTransport(TagAll(functions, es[..|es| - 1], f))
    requires Transport(Tagged(Local(functions, es[..|es| - 1]), es[|es| - 1], f))
    ensures AllTransport(TagAll(functions, es, f))
    ensures Source(functions, es, f).c ==
            Follow(Source(functions, es[..|es| - 1], f).c, Tagged(Local(functions, es[..|es| - 1]), es[|es| - 1], f))
  {
    var front := es[..|es| - 1];
    var tags, tag := TagAll(functions, front, f), Tagged(Local(functions, front), es[|es| - 1], f);
    PushAllGathers(functions, NO_QUALITY, tags);
    PushUpdates(Source(functions, front, f), tag);
    assert (tags + [tag])[..|tags|] == tags;
  }

  // ---- What the two modes report at the end ----

  function Renamed(f: u64 -> u64, i: Invocation): Invocation {
    i.(id := f(i.id))
  }

  /** The record of the invocation is reported as that invocation under its new name. */
  predicate ReportedAs(records: map<u64, SourceInvocation>, f: u64 -> u64, i: Invocation, now: u64) {
    f(i.id) in records && records[f(i.id)].IsReported() && records[f(i.id)].Report(now) == Renamed(f, i)
  }

  // ---- Ties in time ----

  /** No noted violation of the thread lies in the span of the invocation, both ends included. */
  ghost predicate Spared(s: Session, i: Invocation) {
    forall v | v in s.c.sourceViolations && v.0 == i.tid :: !(i.startNs <= v.1 <= i.endNs)
  }

  /** No sample that came after the return of the invocation has the time of its end. */
  ghost predicate EndsClear(log: Log, i: Invocation) {
    forall l | l in log.late && l.0 == i.id :: l.1.timestampNs != i.endNs
  }

  /** No call that is valid in the local mode is touched by a violation or by a late sample at its end. */
  ghost predicate Untied(s: Session, log: Log) {
    forall k | 0 <= k < |s.p.invocations| && s.p.invocations[k].valid ::
      Spared(s, s.p.invocations[k]) && EndsClear(log, s.p.invocations[k])
  }

  /** In the source mode an agreed invocation is valid exactly when it is valid locally and spared. */
  lemma {:induction false} Verdict(s: Session, t: State, log: Log, f: u64 -> u64, i: Invocation)
    requires DoneAgrees(s, t, log, f, i) && t.sourceViolations == s.c.sourceViolations
    ensures Judge(t.sourceInvocations, t.sourceViolations)[f(i.id)].valid <==> i.valid && Spared(s, i)
  {
    var r := t.sourceInvocations[f(i.id)];
    HitMember(t.sourceViolations, r);
    assert forall v: (u32, u64) :: Hits(v, r) <==> v.0 == i.tid && i.startNs <= v.1 <= i.endNs;
  }

  lemma {:induction false} DoneReported(s: Session, t: State, log: Log, f: u64 -> u64, i: Invocation, now: u64)
    requires DoneAgrees(s, t, log, f, i) && t.sourceViolations == s.c.sourceViolations && (i.valid ==> Spared(s, i))
    ensures ReportedAs(Judge(t.sourceInvocations, t.sourceViolations), f, i, now)
  {
    Verdict(s, t, log, f, i);
  }

  lemma {:induction false} AbandonedMembers(p: Profile, active: map<u32, ActiveInvocation>, order: seq<u32>, now: u64,
                                            i: Invocation)
    requires forall tid | tid in order :: tid in active
    ensures i in AbandonAll(p, active, order, now).invocations <==>
            i in p.invocations || exists tid :: tid in order && i == Unfinished(active[tid], now)
  {
    if order != [] {
      var n := |order| - 1;
      AbandonedMembers(p, active, order[..n], now, i);
      assert forall tid :: tid in order <==> tid in order[..n] || tid == order[n];
    }
  }

  /** The invocations of one profile are those of the other under their new names. */
  ghost predicate SameInvocations(local: seq<Invocation>, source: seq<Invocation>, f: u64 -> u64) {
    && (forall i | i in local :: Renamed(f, i) in source)
    && (forall j | j in source :: exists i :: i in local && j == Renamed(f, i))
    && (forall i, j | 0 <= i < j < |local| :: local[i].id != local[j].id)
    && (forall i, j | 0 <= i < j < |source| :: source[i].id != source[j].id)
  }

  /** Every local invocation, finished or abandoned, is reported by its record. */
  ghost predicate AllReported(s: Session, records: map<u64, SourceInvocation>, f: u64 -> u64, now: u64) {
    && (forall k | 0 <= k < |s.p.invocations| :: ReportedAs(records, f, s.p.invocations[k], now))
    && (forall tid | tid in s.c.active :: ReportedAs(records, f, Unfinished(s.c.active[tid], now), now))
  }

  lemma {:induction false} AgreeReports(s: Session, t: State, log: Log, f: u64 -> u64, now: u64)
    requires ActivesAgree(s, t, log, f) && DonesAgree(s, t, log, f) && t.sourceViolations == s.c.sourceViolations
    requires Untied(s, log)
    ensures AllReported(s, Judge(t.sourceInvocations, t.sourceViolations), f, now)
  {
    forall k | 0 <= k < |s.p.invocations|
      ensures ReportedAs(Judge(t.sourceInvocations, t.sourceViolations), f, s.p.invocations[k], now)
    {
      DoneReported(s, t, log, f, s.p.invocations[k], now);
    }
  }

  lemma {:induction false} InvocationsAgree(s: Session, records: map<u64, SourceInvocation>, f: u64 -> u64,
                                            entries: seq<CollectorEvent>, order: seq<u32>, now: u64, ids: seq<u64>,
                                            reported: seq<Invocation>)
    requires Issued(s, entries) && AllReported(s, records, f, now) && IsOrderOf(order, s.c.active)
    requires forall key | key in records :: exists id :: Known(s, id) && key == f(id)
    requires Lists(reported, records, ids, now) && forall id :: id in ids <==> id in records
    ensures SameInvocations(AbandonAll(s.p, s.c.active, order, now).invocations, reported, f)
  {
    var local := AbandonAll(s.p, s.c.active, order, now).invocations;
    AbandonIssues(s, entries, order, now);
    forall i | i in local ensures Renamed(f, i) in reported {
      AbandonedMembers(s.p, s.c.active, order, now, i);
      assert ReportedAs(records, f, i, now);
      assert records[f(i.id)].Report(now) in reported;
    }
    forall j | j in reported ensures exists i :: i in local && j == Renamed(f, i) {
      var k :| 0 <= k < |reported| && reported[k] == j;
      assert Reports(records, now, reported[k]);
      var i := SourceReported(s, records, f, order, now, j);
    }
  }

  lemma {:induction false} SourceReported(s: Session, records: map<u64, SourceInvocation>, f: u64 -> u64,
                                          order: seq<u32>, now: u64, j: Invocation)
    returns (i: Invocation)
    requires AllReported(s, records, f, now) && Reports(records, now, j)
    requires forall key | key in records :: exists id :: Known(s, id) && key == f(id)
    requires forall tid :: tid in order <==> tid in s.c.active
    ensures i in AbandonAll(s.p, s.c.active, order, now).invocations && j == Renamed(f, i)
  {
    var id :| Known(s, id) && j.id == f(id);
    if k :| 0 <= k < |s.p.invocations| && s.p.invocations[k].id == id {
      i := s.p.invocations[k];
    } else {
      var tid :| tid in s.c.active && s.c.active[tid].id == id;
      i := Unfinished(s.c.active[tid], now);
      assert tid in order;
    }
    AbandonedMembers(s.p, s.c.active, order, now, i);
  }

  // ---- The samples of complete and valid invocations ----

  lemma {:induction false} WithConcat(a: seq<Kept>, b: seq<Kept>, id: u64)
    ensures SamplesWith(a + b, id) == SamplesWith(a, id) + SamplesWith(b, id)
  {
    if b == [] {
      assert a + b == a;
    } else {
      assert (a + b)[..|a + b| - 1] == a + b[..|b| - 1];
      WithConcat(a, b[..|b| - 1], id);
    }
  }

  lemma {:induction false} KeptWith(r: SourceInvocation, now: u64, samples: seq<Pending>, id: u64)
    requires r.IsReported()
    ensures SamplesWith(KeptOf(r, now, samples), id)
         == if id == r.id then Inside(samples, r.startNs.value, r.End(now)) else []
  {
    if samples != [] {
      var front, x := samples[..|samples| - 1], samples[|samples| - 1];
      KeptWith(r, now, front, id);
      OneWith(KeptOf(r, now, front), Kept(r.id, x), id);
    }
  }

  lemma {:induction false} KeptAllWith(records: map<u64, SourceInvocation>, ids: seq<u64>, now: u64, id: u64)
    requires Keyed(records) && Distinct(ids) && forall key | key in ids :: key in records
    ensures SamplesWith(KeptAll(records, ids, now), id)
         == if id in ids then SamplesWith(Contribution(records[id], now), id) else []
  {
    if ids != [] {
      var front, last := ids[..|ids| - 1], ids[|ids| - 1];
      KeptAllWith(records, front, now, id);
      WithConcat(KeptAll(records, front, now), Contribution(records[last], now), id);
      assert forall key :: key in ids <==> key in front || key == last;
      assert last !in front;
      if id != last && records[last].IsReported() { KeptWith(records[last], now, records[last].samples, id); }
    }
  }

  /** A spared valid invocation has the samples of its record that lie within the bounds. */
  lemma {:induction false} CountedSamples(s: Session, t: State, log: Log, f: u64 -> u64, i: Invocation,
                                          ids: seq<u64>, now: u64)
    requires DoneAgrees(s, t, log, f, i) && t.sourceViolations == s.c.sourceViolations && i.valid && Spared(s, i)
    requires |s.p.stacks| <= U32_MAX
    requires Keyed(t.sourceInvocations) && Distinct(ids) && forall id :: id in ids <==> id in t.sourceInvocations
    ensures
      var kept := KeptAll(Judge(t.sourceInvocations, t.sourceViolations), ids, now);
      SamplesWith(kept, f(i.id)) == SamplesWith(Resolved(s.p), i.id) <==> EndsClear(log, i)
  {
    var records := Judge(t.sourceInvocations, t.sourceViolations);
    var r := records[f(i.id)];
    DoneReported(s, t, log, f, i, now);
    KeptAllWith(records, ids, now, f(i.id));
    KeptWith(r, now, r.samples, f(i.id));
    ContinuedInside(SamplesWith(Resolved(s.p), i.id), r.samples, i, log.late);
  }

  /** Complete valid invocations have the same samples with the same frames, in the same order. */
  ghost predicate SameSampling(invocations: seq<Invocation>, local: seq<Kept>, source: seq<Kept>, f: u64 -> u64) {
    forall i | i in invocations && i.Counted() :: SamplesWith(source, f(i.id)) == SamplesWith(local, i.id)
  }

  lemma {:induction false} SamplesAgree(s: Session, t: State, log: Log, f: u64 -> u64,
                                        order: seq<u32>, ids: seq<u64>, now: u64)
    requires DonesAgree(s, t, log, f) && t.sourceViolations == s.c.sourceViolations && Untied(s, log)
    requires |s.p.stacks| <= U32_MAX
    requires Keyed(t.sourceInvocations) && Distinct(ids) && forall id :: id in ids <==> id in t.sourceInvocations
    requires forall tid | tid in order :: tid in s.c.active
    ensures SameSampling(AbandonAll(s.p, s.c.active, order, now).invocations, Resolved(s.p),
                         KeptAll(Judge(t.sourceInvocations, t.sourceViolations), ids, now), f)
  {
    var kept := KeptAll(Judge(t.sourceInvocations, t.sourceViolations), ids, now);
    forall i | i in AbandonAll(s.p, s.c.active, order, now).invocations && i.Counted()
      ensures SamplesWith(kept, f(i.id)) == SamplesWith(Resolved(s.p), i.id)
    {
      AbandonedMembers(s.p, s.c.active, order, now, i);
      var k :| 0 <= k < |s.p.invocations| && s.p.invocations[k] == i;
      CountedSamples(s, t, log, f, i, ids, now);
    }
  }

  /** The finished profiles of the two modes match up to the renaming. */
  ghost predicate ModesMatch(local: Profile, source: Profile, f: u64 -> u64) {
    && SameInvocations(local.invocations, source.invocations, f)
    && (|local.stacks| <= U32_MAX && |source.stacks| <= U32_MAX ==>
          SameSampling(local.invocations, Resolved(local), Resolved(source), f))
  }

  lemma {:induction false} LocalFinish(s: Session, now: u64, order: seq<u32>)
    requires !s.c.sourceMode && forall tid | tid in order :: tid in s.c.active
    ensures Finish(s, now, order) == AbandonAll(s.p, s.c.active, order, now)
    ensures Finish(s, now, order).stacks == s.p.stacks && Resolved(Finish(s, now, order)) == Resolved(s.p)
  {
    AbandonAllStacks(s.p, s.c.active, order, now);
  }

  /** What the source mode finishes with, in terms of its records. */
  ghost predicate SourceResult(t: State, functions: seq<Function>, source: Profile, q: Quality,
                               ids: seq<u64>, now: u64) {
    && Keyed(t.sourceInvocations) && Distinct(ids)
    && (forall id :: id in ids <==> id in t.sourceInvocations)
    && var records := Judge(t.sourceInvocations, t.sourceViolations);
       Finished(source, functions, q, KeptAll(records, ids, now), Reported(records, ids, now))
  }

  lemma {:induction false} SourceFinished(functions: seq<Function>, tags: seq<CollectorEvent>, now: u64)
    returns (q: Quality, ids: seq<u64>)
    requires AllTransport(tags)
    ensures
      var t := PushAll(Blank(functions, NO_QUALITY), tags);
      SourceResult(t.c, functions, Finish(t, now, []), q, ids, now)
  {
    var t := PushAll(Blank(functions, NO_QUALITY), tags);
    var source := Finish(t, now, []);
    var records := Verdicts(functions, NO_QUALITY, tags);
    ids := SortedIds(records.Keys);
    q := ScoredAll(SuspectedOf(Tallied(NO_QUALITY, tags), t.c.sourceInvocations, ViolationsOf(tags)), records, ids,
                   now);
    FinishForm(functions, NO_QUALITY, tags, now, []);
    PushAllGathers(functions, NO_QUALITY, tags);
    ResultOf(t, functions, tags, source, q, records, now);
  }

  lemma {:induction false} ResultOf(t: Session, functions: seq<Function>, tags: seq<CollectorEvent>, source: Profile,
                                    q: Quality, records: map<u64, SourceInvocation>, now: u64)
    requires Gathered(t, functions, NO_QUALITY, tags) && records == Judge(t.c.sourceInvocations, ViolationsOf(tags))
    requires Finished(source, functions, q, KeptAll(records, SortedIds(records.Keys), now),
                      Reported(records, SortedIds(records.Keys), now))
    ensures SourceResult(t.c, functions, source, q, SortedIds(records.Keys), now)
  {
    InOrderMembers(Ascending, records.Keys);
  }

  lemma {:induction false} FinishesMatch(s: Session, t: State, log: Log, f: u64 -> u64, entries: seq<CollectorEvent>,
                                         order: seq<u32>, now: u64, functions: seq<Function>, source: Profile,
                                         q: Quality, ids: seq<u64>)
    requires Agree(s, t, log, f, entries) && IsOrderOf(order, s.c.active) && Untied(s, log)
    requires SourceResult(t, functions, source, q, ids, now)
    ensures ModesMatch(Finish(s, now, order), source, f)
  {
    var records := Judge(t.sourceInvocations, t.sourceViolations);
    ReportedExactly(records, ids, now);
    AgreeReports(s, t, log, f, now);
    InvocationsAgree(s, records, f, entries, order, now, ids, Reported(records, ids, now));
    LocalFinish(s, now, order);
    if |s.p.stacks| <= U32_MAX { SamplesAgree(s, t, log, f, order, ids, now); }
  }

  /** A tied call is reported invalid by the source mode, or keeps a sample that the local mode has dropped. */
  lemma {:induction false} TiedDiffers(s: Session, t: State, log: Log, f: u64 -> u64, i: Invocation,
                                       ids: seq<u64>, now: u64)
    requires DoneAgrees(s, t, log, f, i) && t.sourceViolations == s.c.sourceViolations && |s.p.stacks| <= U32_MAX
    requires i.valid && !(Spared(s, i) && EndsClear(log, i))
    requires Keyed(t.sourceInvocations) && Distinct(ids) && forall id :: id in ids <==> id in t.sourceInvocations
    ensures
      var records := Judge(t.sourceInvocations, t.sourceViolations);
      || Renamed(f, i) !in Reported(records, ids, now)
      || SamplesWith(KeptAll(records, ids, now), f(i.id)) != SamplesWith(Resolved(s.p), i.id)
  {
    if Spared(s, i) {
      CountedSamples(s, t, log, f, i, ids, now);
    } else {
      Verdict(s, t, log, f, i);
      InvalidUnmatched(Judge(t.sourceInvocations, t.sourceViolations), ids, now, f, i);
    }
  }

  lemma {:induction false} Unmatched(local: Profile, source: Profile, f: u64 -> u64, i: Invocation)
    requires i in local.invocations && i.Counted() && |local.stacks| <= U32_MAX && |source.stacks| <= U32_MAX
    requires Renamed(f, i) !in source.invocations
             || SamplesWith(Resolved(source), f(i.id)) != SamplesWith(Resolved(local), i.id)
    ensures !ModesMatch(local, source, f)
  {
  }

  lemma {:induction false} FinishesDiffer(s: Session, t: State, log: Log, f: u64 -> u64, entries: seq<CollectorEvent>,
                                          order: seq<u32>, now: u64, functions: seq<Function>, source: Profile,
                                          q: Quality, ids: seq<u64>)
    requires Agree(s, t, log, f, entries) && IsOrderOf(order, s.c.active) && !Untied(s, log)
    requires SourceResult(t, functions, source, q, ids, now)
    requires |s.p.stacks| <= U32_MAX && |source.stacks| <= U32_MAX
    ensures !ModesMatch(Finish(s, now, order), source, f)
  {
    var k :| 0 <= k < |s.p.invocations| && s.p.invocations[k].valid
             && !(Spared(s, s.p.invocations[k]) && EndsClear(log, s.p.invocations[k]));
    var i := s.p.invocations[k];
    assert DoneAgrees(s, t, log, f, i);
    TiedDiffers(s, t, log, f, i, ids, now);
    LocalFinish(s, now, order);
    AbandonedMembers(s.p, s.c.active, order, now, i);
    Unmatched(Finish(s, now, order), source, f, i);
  }

  lemma {:induction false} InvalidUnmatched(records: map<u64, SourceInvocation>, ids: seq<u64>, now: u64,
                                            f: u64 -> u64, i: Invocation)
    requires Keyed(records) && Distinct(ids) && forall id | id in ids :: id in records
    requires f(i.id) in records && !records[f(i.id)].valid && i.valid
    ensures Renamed(f, i) !in Reported(records, ids, now)
  {
    ReportedExactly(records, ids, now);
  }

  /**
   For every loss-free trace whose thread clocks never go back and every renaming of ids: if nothing ties,
   both modes finish with the same invocations (thread, start, end, complete, valid) up to the renaming, and,
   while stack ids last, a complete valid invocation has the same samples with the same frames in the same
   order. While stack ids last in both modes, that is so only if nothing ties.
   */
  lemma {:induction false} ModesAgree(functions: seq<Function>, es: seq<CollectorEvent>, f: u64 -> u64, now: u64,
                                      order: seq<u32>)
    requires Injective(f) && Traced(functions, es) && |EntriesOf(es)| < U64_MAX - 1
    requires IsOrderOf(order, Local(functions, es).c.active)
    ensures
      var local, source := Finish(Local(functions, es), now, order), Finish(Source(functions, es, f), now, []);
      && (Untied(Local(functions, es), LogOf(functions, es)) ==> ModesMatch(local, source, f))
      && (|local.stacks| <= U32_MAX && |source.stacks| <= U32_MAX ==>
            (ModesMatch(local, source, f) <==> Untied(Local(functions, es), LogOf(functions, es))))
  {
    var s, t, source := Local(functions, es), Source(functions, es, f), Finish(Source(functions, es, f), now, []);
    TraceAgrees(functions, es, f);
    var q, ids := SourceFinished(functions, TagAll(functions, es, f), now);
    if Untied(s, LogOf(functions, es)) {
      FinishesMatch(s, t.c, LogOf(functions, es), f, EntriesOf(es), order, now, functions, source, q, ids);
    } else if |s.p.stacks| <= U32_MAX && |source.stacks| <= U32_MAX {
      FinishesDiffer(s, t.c, LogOf(functions, es), f, EntriesOf(es), order, now, functions, source, q, ids);
    }
    LocalFinish(s, now, order);
  }

  /** What ties can only tie at an edge: a violation at the start or at the end of the valid call. */
  lemma {:induction false} TiesAtEdges(functions: seq<Function>, es: seq<CollectorEvent>, k: nat, v: (u32, u64))
    requires Traced(functions, es) && |EntriesOf(es)| < U64_MAX - 1
    requires k < |Local(functions, es).p.invocations| && Local(functions, es).p.invocations[k].valid
    requires v in Local(functions, es).c.sourceViolations && v.0 == Local(functions, es).p.invocations[k].tid
    requires Local(functions, es).p.invocations[k].startNs <= v.1 <= Local(functions, es).p.invocations[k].endNs
    ensures v.1 == Local(functions, es).p.invocations[k].startNs || v.1 == Local(functions, es).p.invocations[k].endNs
  {
    var f: u64 -> u64 := (id: u64) => id;
    TraceAgrees(functions, es, f);
    assert DoneAgrees(Local(functions, es), Source(functions, es, f).c, LogOf(functions, es), f,
                      Local(functions, es).p.invocations[k]);
  }

  // ---- The three kinds of ties ----

  lemma {:induction false} SourceMore(functions: seq<Function>, es: seq<CollectorEvent>, e: CollectorEvent,
                                      f: u64 -> u64)
    requires AllTransport(TagAll(functions, es, f)) && Transport(Tagged(Local(functions, es), e, f))
    ensures AllTransport(TagAll(functions, es + [e], f))
    ensures Source(functions, es + [e], f).c == Follow(Source(functions, es, f).c, Tagged(Local(functions, es), e, f))
  {
    assert (es + [e])[..|es|] == es;
    SourceFollows(functions, es + [e], f);
  }

  /** A call of one thread from 0 to 10, in both modes. */
  lemma {:induction false} OneCall(functions: seq<Function>, tid: u32, f: u64 -> u64)
    ensures
      var es := [Entry(None, 0, tid, 0), Return(None, 0, tid, 10)];
      && Local(functions, es).p.invocations == [Invocation(1, 0, None, tid, 0, 10, true, true)]
      && Local(functions, es).c.active == map[] && Local(functions, es).p.samples == []
      && AllTransport(TagAll(functions, es, f))
      && Source(functions, es, f).c.sourceInvocations ==
           map[f(1) := SourceInvocation(f(1), Some(0), tid, Some(0), Some(10), true, true, true, [])]
      && Source(functions, es, f).c.sourceViolations == []
  {
    var a, b := Entry(None, 0, tid, 0), Return(None, 0, tid, 10);
    OneMore(functions, [], a, f);
    OneMore(functions, [a], b, f);
    SourceMore(functions, [], a, f);
    SourceMore(functions, [a], b, f);
    assert [] + [a] == [a] && [a] + [b] == [a, b];
  }

  /** A violation at the time of the end: the call stays valid locally, and is invalid in the source mode. */
  lemma {:induction false} ViolationTieDiffers(functions: seq<Function>, tid: u32, f: u64 -> u64)
    ensures
      var es := [Entry(None, 0, tid, 0), Return(None, 0, tid, 10), Violation(tid, 10)];
      var t := Source(functions, es, f).c;
      && Local(functions, es).p.invocations == [Invocation(1, 0, None, tid, 0, 10, true, true)]
      && f(1) in t.sourceInvocations && !Judge(t.sourceInvocations, t.sourceViolations)[f(1)].valid
  {
    var a, b, v := Entry(None, 0, tid, 0), Return(None, 0, tid, 10), Violation(tid, 10);
    OneCall(functions, tid, f);
    OneMore(functions, [a, b], v, f);
    SourceMore(functions, [a, b], v, f);
    assert [a, b] + [v] == [a, b, v];
    var t := Source(functions, [a, b, v], f).c;
    assert Hits(t.sourceViolations[0], t.sourceInvocations[f(1)]);
  }

  /** A violation at the time of the entry, before it: the source mode counts it against the call. */
  lemma {:induction false} EntryTieDiffers(functions: seq<Function>, tid: u32, f: u64 -> u64)
    ensures
      var es := [Violation(tid, 0), Entry(None, 0, tid, 0), Return(None, 0, tid, 10)];
      var t := Source(functions, es, f).c;
      && Local(functions, es).p.invocations == [Invocation(1, 0, None, tid, 0, 10, true, true)]
      && f(1) in t.sourceInvocations && !Judge(t.sourceInvocations, t.sourceViolations)[f(1)].valid
  {
    var v, a, b := Violation(tid, 0), Entry(None, 0, tid, 0), Return(None, 0, tid, 10);
    OneMore(functions, [], v, f);
    OneMore(functions, [v], a, f);
    OneMore(functions, [v, a], b, f);
    SourceMore(functions, [], v, f);
    SourceMore(functions, [v], a, f);
    SourceMore(functions, [v, a], b, f);
    assert [] + [v] == [v] && [v] + [a] == [v, a] && [v, a] + [b] == [v, a, b];
    var t := Source(functions, [v, a, b], f).c;
    assert Hits(t.sourceViolations[0], t.sourceInvocations[f(1)]);
  }

  lemma {:induction false} SampleTieStates(functions: seq<Function>, x: Pending, f: u64 -> u64)
    requires x.timestampNs == 10
    ensures
      var es := [Entry(None, 0, x.tid, 0), Return(None, 0, x.tid, 10), Sampled(None, x)];
      var t := Source(functions, es, f).c;
      && Local(functions, es).p.samples == []
      && t.sourceMode && t.sourceViolations == []
      && t.sourceInvocations ==
           map[f(1) := SourceInvocation(f(1), Some(0), x.tid, Some(0), Some(10), true, true, true, [x])]
  {
    var a, b, c := Entry(None, 0, x.tid, 0), Return(None, 0, x.tid, 10), Sampled(None, x);
    OneCall(functions, x.tid, f);
    var one, r := Source(functions, [a, b], f).c, Source(functions, [a, b], f).c.sourceInvocations[f(1)];
    assert Linked(Local(functions, [a, b]), x.tid) == Some(1);
    OneMore(functions, [a, b], c, f);
    SourceMore(functions, [a, b], c, f);
    assert [a, b] + [c] == [a, b, c];
    assert Updated(one, Sampled(Some(f(1)), x)) == map[f(1) := SourceSample(r, x)];
    assert SourceSample(r, x).samples == [x];
  }

  /** A session with one complete valid record commits the samples inside its bounds. */
  lemma {:induction false} OneCommits(s: Session, r: SourceInvocation, now: u64)
    requires s.c.sourceMode && s.c.sourceViolations == [] && s.c.sourceInvocations == map[r.id := r]
    requires r.IsReported() && r.IsValid(now)
    ensures SamplesWith(Committed(s, now), r.id) == Inside(r.samples, r.startNs.value, r.End(now))
  {
    var records := Judge(s.c.sourceInvocations, s.c.sourceViolations);
    assert records == map[r.id := r];
    InOrderMembers(Ascending, records.Keys);
    KeptAllWith(records, SortedIds(records.Keys), now, r.id);
    KeptWith(r, now, r.samples, r.id);
  }

  /** A sample at the time of the end, after the return: the local mode drops it, the source mode keeps it. */
  lemma {:induction false} SampleTieDiffers(functions: seq<Function>, x: Pending, f: u64 -> u64, now: u64)
    requires x.timestampNs == 10
    ensures
      var es := [Entry(None, 0, x.tid, 0), Return(None, 0, x.tid, 10), Sampled(None, x)];
      && Resolved(Local(functions, es).p) == []
      && SamplesWith(Committed(Source(functions, es, f), now), f(1)) == [x]
  {
    var es := [Entry(None, 0, x.tid, 0), Return(None, 0, x.tid, 10), Sampled(None, x)];
    SampleTieStates(functions, x, f);
    var r := Source(functions, es, f).c.sourceInvocations[f(1)];
    OneCommits(Source(functions, es, f), r, now);
    assert Inside([x], 0, 10) == [x];
  }
}
