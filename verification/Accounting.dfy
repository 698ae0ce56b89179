/** The books of a capture: counters and records agree, and every local entry has its invocation. */
module Accounting {
  import opened Domain
  import opened Sorting
  import opened Collector
  import opened SourceMode
  import V = Validation

  // ---- The invocation counters, for any stream of events ----

  ghost predicate Booked(p: Profile) {
    && p.quality.completeInvocations == Cap(V.CountedIn(p.invocations))
    && p.quality.incompleteInvocations == Cap(|p.invocations| - V.CountedIn(p.invocations))
  }

  lemma {:induction false} ConcludeBooks(p: Profile, i: Invocation)
    requires Booked(p)
    ensures Booked(Conclude(p, i))
  {
  }

  /** Nothing but a concluded invocation touches these books. */
  ghost predicate SameBooks(p: Profile, r: Profile) {
    && p.invocations == r.invocations
    && p.quality.completeInvocations == r.quality.completeInvocations
    && p.quality.incompleteInvocations == r.quality.incompleteInvocations
  }

  lemma {:induction false} PushBooks(s: Session, e: CollectorEvent)
    requires Booked(s.p)
    ensures Booked(Push(s, e).p)
  {
    match e
    case Entry(id, functionId, tid, timestampNs) =>
      if id.None? { EntryBooks(s.(p := Generated(s.p)), functionId, tid, timestampNs); }
    case Return(id, functionId, tid, timestampNs) =>
      if id.None? && tid in s.c.active { ReturnBooks(s.(p := Generated(s.p)), functionId, tid, timestampNs); }
    case _ => assert SameBooks(s.p, Push(s, e).p);
  }

  lemma {:induction false} EntryBooks(s: Session, functionId: u32, tid: u32, timestampNs: u64)
    requires Booked(s.p)
    ensures Booked(LocalEntry(s, functionId, tid, timestampNs).p)
  {
    if tid in s.c.active { ConcludeBooks(s.p, Unfinished(s.c.active[tid].(tid := tid), timestampNs)); }
  }

  lemma {:induction false} ReturnBooks(s: Session, functionId: u32, tid: u32, timestampNs: u64)
    requires Booked(s.p) && tid in s.c.active
    ensures Booked(LocalReturn(s, functionId, tid, timestampNs).p)
  {
  }

  lemma {:induction false} PushAllBooks(s: Session, es: seq<CollectorEvent>)
    requires Booked(s.p)
    ensures Booked(PushAll(s, es).p)
  {
    if es != [] {
      PushAllBooks(s, es[..|es| - 1]);
      PushBooks(PushAll(s, es[..|es| - 1]), es[|es| - 1]);
    }
  }

  lemma {:induction false} CommitBooks(s: Session, r: SourceInvocation, now: u64, samples: seq<Pending>)
    requires r.IsReported()
    ensures SameBooks(s.p, Commit(s, r, now, samples).p)
  {
    if samples != [] { CommitBooks(s, r, now, samples[..|samples| - 1]); }
  }

  lemma {:induction false} ReportAllBooks(s: Session, records: map<u64, SourceInvocation>, ids: seq<u64>, now: u64)
    requires Booked(s.p) && forall id | id in ids :: id in records
    ensures Booked(ReportAll(s, records, ids, now).p)
  {
    if ids != [] {
      var front, r := ids[..|ids| - 1], records[ids[|ids| - 1]];
      var t := ReportAll(s, records, front, now);
      ReportAllBooks(s, records, front, now);
      if r.IsReported() {
        ConcludeBooks(t.p, r.Report(now));
        CommitBooks(t.(p := Conclude(t.p, r.Report(now))), r, now, r.samples);
      }
    }
  }

  lemma {:induction false} AbandonAllBooks(p: Profile, active: map<u32, ActiveInvocation>, order: seq<u32>, now: u64)
    requires Booked(p) && forall tid | tid in order :: tid in active
    ensures Booked(AbandonAll(p, active, order, now))
  {
    if order != [] {
      var front := order[..|order| - 1];
      AbandonAllBooks(p, active, front, now);
      ConcludeBooks(AbandonAll(p, active, front, now), Unfinished(active[order[|order| - 1]], now));
    }
  }

  /**
   For any stream of events of both modes and any end: the two invocation counters are the exact numbers of
   the complete valid and of the other invocations in the profile, cut at the largest u64.
   */
  lemma {:induction false} CountersExact(functions: seq<Function>, es: seq<CollectorEvent>, now: u64, order: seq<u32>)
    requires forall tid | tid in order :: tid in PushAll(Blank(functions, NO_QUALITY), es).c.active
    ensures Booked(Finish(PushAll(Blank(functions, NO_QUALITY), es), now, order))
  {
    var s := PushAll(Blank(functions, NO_QUALITY), es);
    PushAllBooks(Blank(functions, NO_QUALITY), es);
    if s.c.sourceMode {
      var judged := Collector.Judged(s);
      ReportAllBooks(judged, judged.c.sourceInvocations, SortedIds(judged.c.sourceInvocations.Keys), now);
    }
    AbandonAllBooks(FinishSource(s, now).p, s.c.active, order, now);
  }

  // ---- Every local entry has exactly one invocation ----

  predicate IsLocal(e: CollectorEvent) {
    IdOf(e).None?
  }

  function EntriesOf(es: seq<CollectorEvent>): seq<CollectorEvent> {
    if es == [] then []
    else
      var front, e := EntriesOf(es[..|es| - 1]), es[|es| - 1];
      if e.Entry? then front + [e] else front
  }

  /** The invocation is that of the entry whose number is its id. */
  predicate Numbered(entries: seq<CollectorEvent>, id: u64, functionId: u32, tid: u32, startNs: u64) {
    1 <= id <= |entries| && entries[id - 1] == Entry(None, functionId, tid, startNs)
  }

  ghost predicate NumberedAll(entries: seq<CollectorEvent>, invocations: seq<Invocation>) {
    && (forall k | 0 <= k < |invocations| ::
          Numbered(entries, invocations[k].id, invocations[k].functionId, invocations[k].tid, invocations[k].startNs))
    && (forall i, j | 0 <= i < j < |invocations| :: invocations[i].id != invocations[j].id)
  }

  /** The thread's active invocation is numbered too, and not recorded yet. */
  ghost predicate ActiveNumbered(c: State, entries: seq<CollectorEvent>, invocations: seq<Invocation>, tid: u32)
    requires tid in c.active
  {
    var a := c.active[tid];
    && a.tid == tid && Numbered(entries, a.id, a.functionId, tid, a.startNs)
    && forall k | 0 <= k < |invocations| :: invocations[k].id != a.id
  }

  ghost predicate Issued(s: Session, entries: seq<CollectorEvent>) {
    && !s.c.sourceMode
    && s.c.nextInvocationId == |entries| + 1
    && NumberedAll(entries, s.p.invocations)
    && (forall tid | tid in s.c.active :: ActiveNumbered(s.c, entries, s.p.invocations, tid))
    && |s.p.invocations| + |s.c.active| == |entries|
  }

  lemma NumberedMore(entries: seq<CollectorEvent>, invocations: seq<Invocation>, i: Invocation)
    requires NumberedAll(entries, invocations) && Numbered(entries, i.id, i.functionId, i.tid, i.startNs)
    requires forall k | 0 <= k < |invocations| :: invocations[k].id != i.id
    ensures NumberedAll(entries, invocations + [i])
  {
  }

  lemma {:induction false} ConcludeIssues(s: Session, entries: seq<CollectorEvent>, tid: u32, i: Invocation, t: Session)
    requires Issued(s, entries) && tid in s.c.active
    requires i.id == s.c.active[tid].id && i.functionId == s.c.active[tid].functionId
    requires i.tid == tid && i.startNs == s.c.active[tid].startNs
    requires t.p.invocations == s.p.invocations + [i]
    requires t.c == s.c.(active := s.c.active - {tid})
    ensures Issued(t, entries)
  {
  }

  lemma {:induction false} EntryIssues(s: Session, entries: seq<CollectorEvent>, functionId: u32, tid: u32,
                                       timestampNs: u64)
    requires Issued(s, entries) && |entries| + 1 < U64_MAX
    ensures Issued(LocalEntry(s, functionId, tid, timestampNs), entries + [Entry(None, functionId, tid, timestampNs)])
  {
  }

  lemma {:induction false} ReturnIssues(s: Session, entries: seq<CollectorEvent>, functionId: u32, tid: u32,
                                        timestampNs: u64)
    requires Issued(s, entries)
    ensures Issued(LocalReturn(s, functionId, tid, timestampNs), entries)
  {
    if tid in s.c.active {
      var t := LocalReturn(s, functionId, tid, timestampNs);
      ConcludeIssues(s, entries, tid, t.p.invocations[|s.p.invocations|], t);
    }
  }

  /** The session differs in nothing that the numbering looks at. */
  lemma {:induction false} SameIssues(s: Session, t: Session, entries: seq<CollectorEvent>)
    requires Issued(s, entries)
    requires t.p.invocations == s.p.invocations && t.c.active == s.c.active
    requires t.c.nextInvocationId == s.c.nextInvocationId && t.c.sourceMode == s.c.sourceMode
    ensures Issued(t, entries)
  {
  }

  lemma {:induction false} PushIssues(s: Session, entries: seq<CollectorEvent>, e: CollectorEvent)
    requires Issued(s, entries) && IsLocal(e) && |entries| + 1 < U64_MAX
    ensures Issued(Push(s, e), if e.Entry? then entries + [e] else entries)
  {
    match e
    case Entry(_, functionId, tid, timestampNs) =>
      SameIssues(s, s.(p := Generated(s.p)), entries);
      EntryIssues(s.(p := Generated(s.p)), entries, functionId, tid, timestampNs);
    case Return(_, functionId, tid, timestampNs) =>
      SameIssues(s, s.(p := Generated(s.p)), entries);
      ReturnIssues(s.(p := Generated(s.p)), entries, functionId, tid, timestampNs);
    case Violation(tid, _) => ViolateIssues(s, entries, e);
    case _ => SameIssues(s, Push(s, e), entries);
  }

  lemma {:induction false} ViolateIssues(s: Session, entries: seq<CollectorEvent>, e: CollectorEvent)
    requires Issued(s, entries) && e.Violation?
    ensures Issued(Push(s, e), entries)
  {
  }

  lemma {:induction false} PushAllIssues(functions: seq<Function>, q: Quality, es: seq<CollectorEvent>)
    requires (forall e | e in es :: IsLocal(e)) && |EntriesOf(es)| < U64_MAX - 1
    ensures Issued(PushAll(Blank(functions, q), es), EntriesOf(es))
  {
    if es != [] {
      var front, e := es[..|es| - 1], es[|es| - 1];
      assert e in es && forall f | f in front :: f in es;
      PushAllIssues(functions, q, front);
      PushIssues(PushAll(Blank(functions, q), front), EntriesOf(front), e);
    }
  }

  lemma {:induction false} AbandonIssues(s: Session, entries: seq<CollectorEvent>, order: seq<u32>, now: u64)
    requires Issued(s, entries) && Distinct(order) && forall tid | tid in order :: tid in s.c.active
    ensures
      var p := AbandonAll(s.p, s.c.active, order, now);
      && NumberedAll(entries, p.invocations)
      && |p.invocations| == |s.p.invocations| + |order|
      && (forall tid | tid in s.c.active && tid !in order :: ActiveNumbered(s.c, entries, p.invocations, tid))
  {
    if order != [] {
      var front, last := order[..|order| - 1], order[|order| - 1];
      AbandonIssues(s, entries, front, now);
      var p, r := AbandonAll(s.p, s.c.active, front, now), AbandonAll(s.p, s.c.active, order, now);
      assert r.invocations == p.invocations + [Unfinished(s.c.active[last], now)];
      assert last in order && last !in front;
      assert ActiveNumbered(s.c, entries, p.invocations, last);
      NumberedMore(entries, p.invocations, Unfinished(s.c.active[last], now));
      assert forall tid :: tid in order <==> tid in front || tid == last;
      forall tid | tid in s.c.active && tid !in order ensures ActiveNumbered(s.c, entries, r.invocations, tid) {
        assert ActiveNumbered(s.c, entries, p.invocations, tid);
      }
    }
  }

  /**
   For any stream of local events, in any order: the finished profile has exactly one invocation for each
   entry; its id is the number of the entry, whose function, thread and start it has.
   */
  lemma {:induction false} LocalEntriesAccounted(functions: seq<Function>, q: Quality,
                                                 es: seq<CollectorEvent>, now: u64, order: seq<u32>)
    requires (forall e | e in es :: IsLocal(e)) && |EntriesOf(es)| < U64_MAX - 1
    requires IsOrderOf(order, PushAll(Blank(functions, q), es).c.active)
    ensures
      var p := Finish(PushAll(Blank(functions, q), es), now, order);
      |p.invocations| == |EntriesOf(es)| && NumberedAll(EntriesOf(es), p.invocations)
  {
    var s := PushAll(Blank(functions, q), es);
    PushAllIssues(functions, q, es);
    AbandonIssues(s, EntriesOf(es), order, now);
    DistinctMembers(order, s.c.active.Keys);
    assert |order| == |multiset(order)| == |multiset(s.c.active.Keys)| == |s.c.active.Keys|;
  }
}
