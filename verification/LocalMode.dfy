/** What the local mode makes of any stream of local events, call by call. */
module LocalMode {
  import opened Domain
  import opened Collector
  import opened Interning
  import opened SourceMode
  import opened SourceFinish
  import opened Accounting

  // ---- The calls of a stream ----

  predicate AllLocal(es: seq<CollectorEvent>) {
    forall e | e in es :: IsLocal(e)
  }

  predicate BoundaryOf(e: CollectorEvent, tid: u32) {
    (e.Entry? || e.Return?) && e.tid == tid
  }

  /** The entry of the call that the thread is in after the stream. */
  function OpenAt(es: seq<CollectorEvent>, tid: u32): (r: Option<nat>)
    ensures r.Some? ==> r.value < |es| && es[r.value].Entry? && es[r.value].tid == tid
  {
    if es == [] then None
    else
      var n := |es| - 1;
      if BoundaryOf(es[n], tid) then if es[n].Entry? then Some(n) else None
      else OpenAt(es[..n], tid)
  }

  /** A violation of the thread comes after position `k` and before position `j`. */
  ghost predicate ViolatedBetween(es: seq<CollectorEvent>, k: int, j: int, tid: u32) {
    exists m | k < m < j :: 0 <= m < |es| && es[m].Violation? && es[m].tid == tid
  }

  /** Entries are numbered from one. */
  function Ordinal(es: seq<CollectorEvent>, k: nat): nat
    requires k <= |es|
  {
    |EntriesOf(es[..k])| + 1
  }

  /** The entry at `k` is followed, on its thread, by the boundary at `j` and by none before that. */
  ghost predicate Closes(es: seq<CollectorEvent>, k: nat, j: nat) {
    && k < j < |es| && es[k].Entry? && BoundaryOf(es[j], es[k].tid)
    && forall m | k < m < j :: !BoundaryOf(es[m], es[k].tid)
  }

  /** A number as an id, while ids last. */
  function IdFrom(n: nat): u64 {
    if n <= U64_MAX then n else U64_MAX
  }

  /**
   The call that the boundary ends: a return completes it, and it is valid if no violation came between, the
   function is that of the entry and time did not go back; another entry leaves it incomplete.
   */
  ghost function CallOf(es: seq<CollectorEvent>, k: nat, j: nat): Invocation
    requires Closes(es, k, j)
  {
    var entry, end, id := es[k], es[j], IdFrom(Ordinal(es, k));
    if end.Return? then
      Invocation(id, entry.functionId, None, entry.tid, entry.timestampNs, end.timestampNs, true,
                 !ViolatedBetween(es, k, j, entry.tid) && end.functionId == entry.functionId
                 && entry.timestampNs <= end.timestampNs)
    else
      Invocation(id, entry.functionId, None, entry.tid, entry.timestampNs,
                 if end.timestampNs < entry.timestampNs then entry.timestampNs else end.timestampNs, false, false)
  }

  /** The call that is still open when the capture ends. */
  ghost function LeftOpen(es: seq<CollectorEvent>, k: nat, now: u64): Invocation
    requires k < |es| && es[k].Entry?
  {
    Invocation(IdFrom(Ordinal(es, k)), es[k].functionId, None, es[k].tid, es[k].timestampNs,
               if now < es[k].timestampNs then es[k].timestampNs else now, false, false)
  }

  // ---- The active call ----

  /** What the correlator holds for a thread is what the thread's open entry says. */
  ghost predicate ActiveFrom(c: State, es: seq<CollectorEvent>, tid: u32) {
    match OpenAt(es, tid)
    case None => tid !in c.active
    case Some(k) =>
      tid in c.active && c.active[tid] == ActiveInvocation(IdFrom(Ordinal(es, k)), es[k].functionId, tid,
                                                           es[k].timestampNs, !ViolatedBetween(es, k, |es|, tid))
  }

  lemma {:induction false} OpenMore(es: seq<CollectorEvent>, e: CollectorEvent, tid: u32)
    ensures OpenAt(es + [e], tid) ==
            if BoundaryOf(e, tid) then (if e.Entry? then Some(|es|) else None) else OpenAt(es, tid)
  {
    assert (es + [e])[..|es|] == es;
  }

  lemma {:induction false} OrdinalMore(es: seq<CollectorEvent>, e: CollectorEvent, k: nat)
    requires k <= |es|
    ensures Ordinal(es + [e], k) == Ordinal(es, k)
  {
    assert (es + [e])[..k] == es[..k];
  }

  lemma {:induction false} ViolatedMore(es: seq<CollectorEvent>, e: CollectorEvent, k: nat, tid: u32)
    requires k < |es|
    ensures ViolatedBetween(es + [e], k, |es| + 1, tid)
       <==> ViolatedBetween(es, k, |es|, tid) || (e.Violation? && e.tid == tid)
  {
    var more := es + [e];
    if m :| k < m < |es| + 1 && 0 <= m < |more| && more[m].Violation? && more[m].tid == tid {
      if m < |es| { assert es[m] == more[m]; }
    }
    if m :| k < m < |es| && 0 <= m < |es| && es[m].Violation? && es[m].tid == tid { assert more[m] == es[m]; }
    if e.Violation? && e.tid == tid { assert more[|es|] == e; }
  }

  lemma {:induction false} FreshUnviolated(es: seq<CollectorEvent>, tid: u32)
    ensures !ViolatedBetween(es, |es| - 1, |es|, tid)
  {
  }

  lemma {:induction false} EntryPushed(s: Session, es: seq<CollectorEvent>, e: CollectorEvent, tid: u32)
    requires e.Entry? && IsLocal(e) && s.c.nextInvocationId == IdFrom(|EntriesOf(es)| + 1) && ActiveFrom(s.c, es, tid)
    ensures ActiveFrom(Push(s, e).c, es + [e], tid)
  {
    OpenMore(es, e, tid);
    if e.tid == tid {
      assert (es + [e])[..|es|] == es;
      FreshUnviolated(es + [e], tid);
    } else if OpenAt(es, tid).Some? {
      OrdinalMore(es, e, OpenAt(es, tid).value);
      ViolatedMore(es, e, OpenAt(es, tid).value, tid);
    }
  }

  lemma {:induction false} OtherPushed(s: Session, es: seq<CollectorEvent>, e: CollectorEvent, tid: u32)
    requires !e.Entry? && IsLocal(e) && ActiveFrom(s.c, es, tid)
    ensures ActiveFrom(Push(s, e).c, es + [e], tid)
  {
    OpenMore(es, e, tid);
    if OpenAt(es, tid).Some? {
      OrdinalMore(es, e, OpenAt(es, tid).value);
      ViolatedMore(es, e, OpenAt(es, tid).value, tid);
    }
  }

  lemma {:induction false} AlwaysActiveFrom(functions: seq<Function>, q: Quality, es: seq<CollectorEvent>, tid: u32)
    requires AllLocal(es) && |EntriesOf(es)| < U64_MAX - 1
    ensures ActiveFrom(PushAll(Blank(functions, q), es).c, es, tid)
  {
    if es != [] {
      var front, e := es[..|es| - 1], es[|es| - 1];
      var s := PushAll(Blank(functions, q), front);
      assert front + [e] == es && e in es && forall f | f in front :: f in es;
      AlwaysActiveFrom(functions, q, front, tid);
      PushAllIssues(functions, q, front);
      if e.Entry? { EntryPushed(s, front, e, tid); } else { OtherPushed(s, front, e, tid); }
    }
  }

  // ---- The recorded calls ----

  /** Every call that a boundary has ended is recorded as that boundary says. */
  ghost predicate Recorded(calls: seq<Invocation>, es: seq<CollectorEvent>) {
    forall k, j | Closes(es, k, j) :: CallOf(es, k, j) in calls
  }

  lemma {:induction false} OpenIs(es: seq<CollectorEvent>, tid: u32, k: nat)
    ensures OpenAt(es, tid) == Some(k) <==>
            k < |es| && es[k].Entry? && es[k].tid == tid && forall m | k < m < |es| :: !BoundaryOf(es[m], tid)
  {
    if es != [] {
      var n := |es| - 1;
      OpenIs(es[..n], tid, k);
      if k < n && !BoundaryOf(es[n], tid) {
        assert forall m | k < m < n :: es[..n][m] == es[m];
      }
    }
  }

  lemma {:induction false} ClosedStays(es: seq<CollectorEvent>, e: CollectorEvent, k: nat, j: nat)
    requires j < |es|
    ensures Closes(es + [e], k, j) <==> Closes(es, k, j)
    ensures Closes(es, k, j) ==> CallOf(es + [e], k, j) == CallOf(es, k, j)
  {
    var more := es + [e];
    assert forall m | 0 <= m < |es| :: more[m] == es[m];
    if Closes(es, k, j) {
      OrdinalMore(es, e, k);
      assert ViolatedBetween(more, k, j, es[k].tid) <==> ViolatedBetween(es, k, j, es[k].tid);
    }
  }

  /** What a boundary event on a thread with an open call records. */
  lemma {:induction false} BoundaryRecords(s: Session, es: seq<CollectorEvent>, e: CollectorEvent, k: nat)
    requires Boundary(e) && IsLocal(e) && OpenAt(es, e.tid) == Some(k) && ActiveFrom(s.c, es, e.tid)
    ensures Closes(es + [e], k, |es|)
    ensures Push(s, e).p.invocations == s.p.invocations + [CallOf(es + [e], k, |es|)]
  {
    var more := es + [e];
    OpenIs(es, e.tid, k);
    assert forall m | 0 <= m < |es| :: more[m] == es[m];
    OrdinalMore(es, e, k);
    assert ViolatedBetween(more, k, |es|, e.tid) <==> ViolatedBetween(es, k, |es|, e.tid);
  }

  lemma {:induction false} NothingRecorded(s: Session, es: seq<CollectorEvent>, e: CollectorEvent)
    requires IsLocal(e) && (Boundary(e) ==> OpenAt(es, e.tid) == None && ActiveFrom(s.c, es, e.tid))
    ensures Push(s, e).p.invocations == s.p.invocations
  {
  }

  lemma {:induction false} PushRecords(s: Session, es: seq<CollectorEvent>, e: CollectorEvent)
    requires IsLocal(e) && Recorded(s.p.invocations, es) && (Boundary(e) ==> ActiveFrom(s.c, es, e.tid))
    ensures Recorded(Push(s, e).p.invocations, es + [e])
  {
    var more := es + [e];
    if Boundary(e) && OpenAt(es, e.tid).Some? {
      BoundaryRecords(s, es, e, OpenAt(es, e.tid).value);
    } else {
      NothingRecorded(s, es, e);
    }
    forall k: nat, j: nat | Closes(more, k, j) ensures CallOf(more, k, j) in Push(s, e).p.invocations {
      if j < |es| {
        ClosedStays(es, e, k, j);
      } else {
        assert forall m | 0 <= m < |es| :: more[m] == es[m];
        OpenIs(es, e.tid, k);
      }
    }
  }

  lemma {:induction false} AlwaysRecorded(functions: seq<Function>, q: Quality, es: seq<CollectorEvent>)
    requires AllLocal(es) && |EntriesOf(es)| < U64_MAX - 1
    ensures Recorded(PushAll(Blank(functions, q), es).p.invocations, es)
  {
    if es != [] {
      var front, e := es[..|es| - 1], es[|es| - 1];
      assert front + [e] == es && e in es && forall f | f in front :: f in es;
      AlwaysRecorded(functions, q, front);
      if Boundary(e) { AlwaysActiveFrom(functions, q, front, e.tid); }
      PushRecords(PushAll(Blank(functions, q), front), front, e);
    }
  }

  /** The ended calls, in the order of the boundaries that end them. */
  ghost function EndedCalls(es: seq<CollectorEvent>): seq<Invocation> {
    if es == [] then []
    else
      var n := |es| - 1;
      if Boundary(es[n]) && OpenAt(es[..n], es[n].tid).Some? then
        OpenCloses(es, OpenAt(es[..n], es[n].tid).value);
        EndedCalls(es[..n]) + [CallOf(es, OpenAt(es[..n], es[n].tid).value, n)]
      else EndedCalls(es[..n])
  }

  lemma {:induction false} OpenCloses(es: seq<CollectorEvent>, k: nat)
    requires es != [] && Boundary(es[|es| - 1]) && OpenAt(es[..|es| - 1], es[|es| - 1].tid) == Some(k)
    ensures Closes(es, k, |es| - 1)
  {
    OpenIs(es[..|es| - 1], es[|es| - 1].tid, k);
    assert forall m | 0 <= m < |es| - 1 :: es[..|es| - 1][m] == es[m];
  }

  lemma {:induction false} AlwaysEnded(functions: seq<Function>, q: Quality, es: seq<CollectorEvent>)
    requires AllLocal(es) && |EntriesOf(es)| < U64_MAX - 1
    ensures PushAll(Blank(functions, q), es).p.invocations == EndedCalls(es)
  {
    if es != [] {
      var front, e := es[..|es| - 1], es[|es| - 1];
      var s := PushAll(Blank(functions, q), front);
      assert front + [e] == es && e in es && forall f | f in front :: f in es;
      AlwaysEnded(functions, q, front);
      if Boundary(e) { AlwaysActiveFrom(functions, q, front, e.tid); }
      if Boundary(e) && OpenAt(front, e.tid).Some? {
        BoundaryRecords(s, front, e, OpenAt(front, e.tid).value);
      } else {
        NothingRecorded(s, front, e);
      }
    }
  }

  lemma {:induction false} AbandonKeeps(p: Profile, active: map<u32, ActiveInvocation>, order: seq<u32>, now: u64)
    requires forall tid | tid in order :: tid in active
    ensures p.invocations <= AbandonAll(p, active, order, now).invocations
    ensures forall tid | tid in order :: Unfinished(active[tid], now) in AbandonAll(p, active, order, now).invocations
  {
    if order != [] {
      var front, last := order[..|order| - 1], order[|order| - 1];
      AbandonKeeps(p, active, front, now);
      assert forall tid | tid in order :: tid in front || tid == last;
    }
  }

  /** The calls of the finished profile: one for each entry, as the events after it say. */
  ghost predicate CallsAre(calls: seq<Invocation>, es: seq<CollectorEvent>, now: u64) {
    && |calls| == |EntriesOf(es)|
    && (forall i, j | 0 <= i < j < |calls| :: calls[i].id != calls[j].id)
    && (forall k, j | Closes(es, k, j) :: CallOf(es, k, j) in calls)
    && EndedCalls(es) <= calls
    && (forall k | 0 <= k < |es| && es[k].Entry? && OpenAt(es, es[k].tid) == Some(k) :: LeftOpen(es, k, now) in calls)
  }

  /**
   For any stream of local events and any end: the finished profile has one call for each entry, completed or
   cut off by the next boundary of its thread, valid exactly if that is its return in order and in time with no
   violation between, and left open if there is none.
   */
  lemma {:induction false} LocalCalls(functions: seq<Function>, q: Quality, es: seq<CollectorEvent>, now: u64,
                                      order: seq<u32>)
    requires AllLocal(es) && |EntriesOf(es)| < U64_MAX - 1
    requires IsOrderOf(order, PushAll(Blank(functions, q), es).c.active)
    ensures CallsAre(Finish(PushAll(Blank(functions, q), es), now, order).invocations, es, now)
  {
    var s := PushAll(Blank(functions, q), es);
    LocalEntriesAccounted(functions, q, es, now, order);
    PushAllIssues(functions, q, es);
    AlwaysRecorded(functions, q, es);
    AlwaysEnded(functions, q, es);
    AbandonKeeps(s.p, s.c.active, order, now);
    assert Finish(s, now, order) == AbandonAll(s.p, s.c.active, order, now);
    forall k | 0 <= k < |es| && es[k].Entry? && OpenAt(es, es[k].tid) == Some(k)
      ensures LeftOpen(es, k, now) in Finish(s, now, order).invocations
    {
      AlwaysActiveFrom(functions, q, es, es[k].tid);
      assert es[k].tid in order;
      assert Unfinished(s.c.active[es[k].tid], now) == LeftOpen(es, k, now);
    }
  }

  // ---- The stored samples ----

  /** The samples of a stream that come during a call of their thread that no violation has hit before. */
  ghost function Heard(es: seq<CollectorEvent>): seq<Kept> {
    if es == [] then []
    else
      var front, e := es[..|es| - 1], es[|es| - 1];
      if e.Sampled? && OpenAt(front, e.sample.tid).Some?
         && !ViolatedBetween(front, OpenAt(front, e.sample.tid).value, |front|, e.sample.tid)
      then Heard(front) + [Kept(IdFrom(Ordinal(front, OpenAt(front, e.sample.tid).value)), e.sample)]
      else Heard(front)
  }

  lemma {:induction false} HeardIsStored(functions: seq<Function>, q: Quality, es: seq<CollectorEvent>)
    requires AllLocal(es) && |EntriesOf(es)| < U64_MAX - 1
    ensures StoredBy(Blank(functions, q), es) == Heard(es)
  {
    if es != [] {
      var front, e := es[..|es| - 1], es[|es| - 1];
      assert front + [e] == es && e in es && forall f | f in front :: f in es;
      HeardIsStored(functions, q, front);
      if e.Sampled? { AlwaysActiveFrom(functions, q, front, e.sample.tid); }
    }
  }

  /** For any stream of local events, while stack ids last: exactly these samples are in the profile, in order. */
  lemma {:induction false} LocalSamples(functions: seq<Function>, q: Quality, es: seq<CollectorEvent>, now: u64,
                                        order: seq<u32>)
    requires AllLocal(es) && |EntriesOf(es)| < U64_MAX - 1
    requires forall tid | tid in order :: tid in PushAll(Blank(functions, q), es).c.active
    ensures
      var p := Finish(PushAll(Blank(functions, q), es), now, order);
      |p.stacks| <= U32_MAX ==> Resolved(p) == Heard(es)
  {
    SamplesKeepFrames(functions, q, es, now, order);
    PushAllIssues(functions, q, es);
    HeardIsStored(functions, q, es);
    assert Heard(es) + [] == Heard(es);
  }

  // ---- The counters ----

  /** What the last event of a stream adds to the mismatches. */
  ghost function MismatchOf(es: seq<CollectorEvent>): nat
    requires es != []
  {
    var front, n, e := es[..|es| - 1], |es| - 1, es[|es| - 1];
    match e
    case Entry(_, _, tid, _) => if OpenAt(front, tid).Some? then 1 else 0
    case Return(_, functionId, tid, timestampNs) =>
      (match OpenAt(front, tid)
       case None => 1
       case Some(k) =>
         if !ViolatedBetween(front, k, n, tid) && functionId == es[k].functionId && es[k].timestampNs <= timestampNs
         then 0 else 1)
    case Violation(tid, timestampNs) =>
      (match OpenAt(front, tid)
       case None => 1
       case Some(k) => if timestampNs < es[k].timestampNs then 2 else 1)
    case _ => 0
  }

  /** A second entry and a violation are suspicious during a call. */
  function SuspicionOf(es: seq<CollectorEvent>): nat
    requires es != []
  {
    var front, e := es[..|es| - 1], es[|es| - 1];
    if (e.Entry? || e.Violation?) && OpenAt(front, e.tid).Some? then 1 else 0
  }

  ghost function MismatchesOf(es: seq<CollectorEvent>): nat {
    if es == [] then 0 else MismatchesOf(es[..|es| - 1]) + MismatchOf(es)
  }

  function SuspicionsOf(es: seq<CollectorEvent>): nat {
    if es == [] then 0 else SuspicionsOf(es[..|es| - 1]) + SuspicionOf(es)
  }

  lemma {:induction false} PushCounts(s: Session, es: seq<CollectorEvent>, e: CollectorEvent)
    requires IsLocal(e) && (Boundary(e) || e.Violation? ==> ActiveFrom(s.c, es, e.tid))
    ensures
      var before, after := s.p.quality, Push(s, e).p.quality;
      && after.stackMismatches == Cap(before.stackMismatches + MismatchOf(es + [e]))
      && after.suspectedAsyncViolations == Cap(before.suspectedAsyncViolations + SuspicionOf(es + [e]))
  {
    assert (es + [e])[..|es|] == es;
    match e
    case Entry(_, _, _, _) =>
    case Return(_, _, _, _) =>
    case Violation(_, _) =>
    case _ =>
  }

  lemma {:induction false} FinishLeaves(p: Profile, active: map<u32, ActiveInvocation>, order: seq<u32>, now: u64)
    requires forall tid | tid in order :: tid in active
    ensures
      var r := AbandonAll(p, active, order, now).quality;
      && r.stackMismatches == p.quality.stackMismatches
      && r.suspectedAsyncViolations == p.quality.suspectedAsyncViolations
  {
    if order != [] { FinishLeaves(p, active, order[..|order| - 1], now); }
  }

  lemma {:induction false} StreamCounts(functions: seq<Function>, q: Quality, es: seq<CollectorEvent>)
    requires AllLocal(es) && |EntriesOf(es)| < U64_MAX - 1
    ensures
      var r := PushAll(Blank(functions, q), es).p.quality;
      && r.stackMismatches == Cap(q.stackMismatches + MismatchesOf(es))
      && r.suspectedAsyncViolations == Cap(q.suspectedAsyncViolations + SuspicionsOf(es))
  {
    if es != [] {
      var front, e := es[..|es| - 1], es[|es| - 1];
      assert front + [e] == es && e in es && forall f | f in front :: f in es;
      StreamCounts(functions, q, front);
      if Boundary(e) || e.Violation? { AlwaysActiveFrom(functions, q, front, e.tid); }
      PushCounts(PushAll(Blank(functions, q), front), front, e);
    }
  }

  /** For any stream of local events the finished mismatches and suspicions are the sums over its events, capped. */
  lemma {:induction false} LocalCounters(functions: seq<Function>, q: Quality, es: seq<CollectorEvent>, now: u64,
                                         order: seq<u32>)
    requires AllLocal(es) && |EntriesOf(es)| < U64_MAX - 1
    requires forall tid | tid in order :: tid in PushAll(Blank(functions, q), es).c.active
    ensures
      var r := Finish(PushAll(Blank(functions, q), es), now, order).quality;
      && r.stackMismatches == Cap(q.stackMismatches + MismatchesOf(es))
      && r.suspectedAsyncViolations == Cap(q.suspectedAsyncViolations + SuspicionsOf(es))
  {
    var s := PushAll(Blank(functions, q), es);
    StreamCounts(functions, q, es);
    PushAllIssues(functions, q, es);
    FinishLeaves(s.p, s.c.active, order, now);
  }
}
