/** What `Finish` makes of the records of the source mode, in closed form. */
module SourceFinish {
  import opened Domain
  import opened Sequences
  import opened Collector
  import opened Interning
  import opened SourceMode

  /** The invocations of the records, in the given order of ids. */
  function Reported(records: map<u64, SourceInvocation>, ids: seq<u64>, now: u64): seq<Invocation>
    requires forall id | id in ids :: id in records
  {
    if ids == [] then []
    else
      var front := Reported(records, ids[..|ids| - 1], now);
      var r := records[ids[|ids| - 1]];
      if r.IsReported() then front + [r.Report(now)] else front
  }

  /** The samples of one record that lie within its bounds. */
  function KeptOf(r: SourceInvocation, now: u64, samples: seq<Pending>): seq<Kept>
    requires r.IsReported()
  {
    if samples == [] then []
    else
      var x := samples[|samples| - 1];
      var front := KeptOf(r, now, samples[..|samples| - 1]);
      if r.Covers(x, now) then front + [Kept(r.id, x)] else front
  }

  /** What a record contributes to the profile's samples. */
  function Contribution(r: SourceInvocation, now: u64): seq<Kept> {
    if r.IsReported() && r.IsValid(now) then KeptOf(r, now, r.samples) else []
  }

  function KeptAll(records: map<u64, SourceInvocation>, ids: seq<u64>, now: u64): seq<Kept>
    requires forall id | id in ids :: id in records
  {
    if ids == [] then []
    else KeptAll(records, ids[..|ids| - 1], now) + Contribution(records[ids[|ids| - 1]], now)
  }

  function ValidWeight(records: map<u64, SourceInvocation>, now: u64): u64 -> nat {
    id => if id in records && records[id].IsReported() && records[id].IsValid(now) then 1 else 0
  }

  function InvalidWeight(records: map<u64, SourceInvocation>, now: u64): u64 -> nat {
    id => if id in records && records[id].IsReported() && !records[id].IsValid(now) then 1 else 0
  }

  /** A complete record that is not valid is one mismatch; a valid one has one for each sample out of bounds. */
  function Mismatches(r: SourceInvocation, now: u64): nat {
    if !r.IsReported() then 0
    else if r.IsValid(now) then |SelectOutside(r, now, r.samples)|
    else if r.IsComplete() then 1
    else 0
  }

  function SelectOutside(r: SourceInvocation, now: u64, samples: seq<Pending>): seq<Pending>
    requires r.IsReported()
  {
    if samples == [] then []
    else
      var x := samples[|samples| - 1];
      var front := SelectOutside(r, now, samples[..|samples| - 1]);
      if r.Covers(x, now) then front else front + [x]
  }

  function MismatchWeight(records: map<u64, SourceInvocation>, now: u64): u64 -> nat {
    id => if id in records then Mismatches(records[id], now) else 0
  }

  function FramesIn(kept: seq<Kept>): set<seq<Frame>> {
    set k | k in kept :: k.sample.frames
  }

  /** From `s` to `t` only these invocations were added, and the counters are these. */
  ghost predicate Writes(s: Session, t: Session, invocations: seq<Invocation>, q: Quality) {
    && t.p == s.p.(invocations := s.p.invocations + invocations, stacks := t.p.stacks, samples := t.p.samples,
                   quality := q)
    && t.c == s.c.(nextStackId := t.c.nextStackId, stackIds := t.c.stackIds)
  }

  /** From `s` to `t` exactly these samples were added, with their frames. */
  ghost predicate Keeps(s: Session, t: Session, kept: seq<Kept>) {
    && InternedSession(t)
    && |s.p.stacks| <= |t.p.stacks|
    && t.c.stackIds.Keys == s.c.stackIds.Keys + FramesIn(kept)
    && (|t.p.stacks| <= U32_MAX ==> Resolved(t.p) == Resolved(s.p) + kept)
  }

  ghost predicate Extends(s: Session, t: Session, invocations: seq<Invocation>, kept: seq<Kept>, q: Quality) {
    Writes(s, t, invocations, q) && Keeps(s, t, kept)
  }

  lemma Associative<T>(a: seq<T>, b: seq<T>, c: seq<T>)
    ensures (a + b) + c == a + (b + c)
  {
  }

  lemma WritesFurther(s: Session, t: Session, u: Session, i: seq<Invocation>, j: seq<Invocation>, q: Quality,
                      r: Quality)
    requires Writes(s, t, i, q) && Writes(t, u, j, r)
    ensures Writes(s, u, i + j, r)
  {
  }

  lemma KeepsFurther(s: Session, t: Session, u: Session, a: seq<Kept>, b: seq<Kept>)
    requires Keeps(s, t, a) && Keeps(t, u, b)
    ensures Keeps(s, u, a + b)
  {
    assert FramesIn(a + b) == FramesIn(a) + FramesIn(b);
    Associative(Resolved(s.p), a, b);
  }

  lemma ExtendsFurther(s: Session, t: Session, u: Session, i: seq<Invocation>, j: seq<Invocation>,
                       a: seq<Kept>, b: seq<Kept>, q: Quality, r: Quality)
    requires Extends(s, t, i, a, q) && Extends(t, u, j, b, r)
    ensures Extends(s, u, i + j, a + b, r)
  {
    WritesFurther(s, t, u, i, j, q, r);
    KeepsFurther(s, t, u, a, b);
  }

  lemma AppendExtends(s: Session, id: u64, x: Pending)
    requires InternedSession(s)
    ensures Extends(s, Append(s, id, x), [], [Kept(id, x)], s.p.quality)
  {
    AppendResolves(s, id, x);
    assert s.p.invocations + [] == s.p.invocations;
    assert FramesIn([Kept(id, x)]) == {x.frames};
  }

  lemma QualityExtends(s: Session, t: Session)
    requires InternedSession(s) && t == s.(p := s.p.(quality := t.p.quality))
    ensures Extends(s, t, [], [], t.p.quality)
  {
  }

  lemma {:induction false} CommitForm(s: Session, r: SourceInvocation, now: u64, samples: seq<Pending>)
    requires InternedSession(s) && r.IsReported()
    ensures Extends(s, Collector.Commit(s, r, now, samples), [], KeptOf(r, now, samples),
                    s.p.quality.(stackMismatches :=
                      Cap(s.p.quality.stackMismatches + |SelectOutside(r, now, samples)|)))
  {
    if samples == [] {
      QualityExtends(s, s);
    } else {
      var front, x := samples[..|samples| - 1], samples[|samples| - 1];
      var t := Collector.Commit(s, r, now, front);
      var u := Collector.Commit(s, r, now, samples);
      CommitForm(s, r, now, front);
      if r.Covers(x, now) {
        AppendExtends(t, r.id, x);
        ExtendsFurther(s, t, u, [], [], KeptOf(r, now, front), [Kept(r.id, x)], t.p.quality, u.p.quality);
      } else {
        QualityExtends(t, u);
        ExtendsFurther(s, t, u, [], [], KeptOf(r, now, front), [], t.p.quality, u.p.quality);
        assert KeptOf(r, now, front) + [] == KeptOf(r, now, front);
      }
    }
  }

  /** The counters after one record. */
  function Scored(q: Quality, complete: nat, incomplete: nat, mismatches: nat): Quality {
    q.(completeInvocations := Cap(q.completeInvocations + complete),
       incompleteInvocations := Cap(q.incompleteInvocations + incomplete),
       stackMismatches := Cap(q.stackMismatches + mismatches))
  }

  lemma {:induction false} ReportOneForm(s: Session, r: SourceInvocation, now: u64)
    requires InternedSession(s)
    ensures
      var valid := r.IsReported() && r.IsValid(now);
      Extends(s, ReportOne(s, r, now), if r.IsReported() then [r.Report(now)] else [], Contribution(r, now),
              Scored(s.p.quality, if valid then 1 else 0, if r.IsReported() && !valid then 1 else 0,
                     Mismatches(r, now)))
  {
    if !r.IsReported() {
      QualityExtends(s, s);
      assert Scored(s.p.quality, 0, 0, 0) == s.p.quality;
    } else {
      var t := s.(p := Conclude(s.p, r.Report(now)));
      assert FramesIn([]) == {};
      assert Extends(s, t, [r.Report(now)], [], t.p.quality);
      var u := ReportOne(s, r, now);
      if r.IsValid(now) {
        CommitForm(t, r, now, r.samples);
      } else {
        QualityExtends(t, u);
      }
      ExtendsFurther(s, t, u, [r.Report(now)], [], [], Contribution(r, now), t.p.quality, u.p.quality);
      assert [r.Report(now)] + [] == [r.Report(now)];
      assert [] + Contribution(r, now) == Contribution(r, now);
    }
  }

  /** The counters that a list of records ends with. */
  function ScoredAll(q: Quality, records: map<u64, SourceInvocation>, ids: seq<u64>, now: u64): Quality {
    Scored(q, Sum(ValidWeight(records, now), ids), Sum(InvalidWeight(records, now), ids),
           Sum(MismatchWeight(records, now), ids))
  }

  lemma ScoredFurther(q: Quality, records: map<u64, SourceInvocation>, ids: seq<u64>, now: u64)
    requires ids != [] && ids[|ids| - 1] in records
    ensures
      var r := records[ids[|ids| - 1]];
      var valid := r.IsReported() && r.IsValid(now);
      ScoredAll(q, records, ids, now) ==
      Scored(ScoredAll(q, records, ids[..|ids| - 1], now),
             if valid then 1 else 0, if r.IsReported() && !valid then 1 else 0, Mismatches(r, now))
  {
  }

  lemma {:induction false} ReportAllForm(s: Session, records: map<u64, SourceInvocation>, ids: seq<u64>, now: u64)
    requires InternedSession(s) && forall id | id in ids :: id in records
    ensures Extends(s, ReportAll(s, records, ids, now), Reported(records, ids, now), KeptAll(records, ids, now),
                    ScoredAll(s.p.quality, records, ids, now))
  {
    if ids == [] {
      QualityExtends(s, s);
      assert ScoredAll(s.p.quality, records, [], now) == s.p.quality;
    } else {
      var front, r := ids[..|ids| - 1], records[ids[|ids| - 1]];
      var t := ReportAll(s, records, front, now);
      var u := ReportAll(s, records, ids, now);
      ReportAllForm(s, records, front, now);
      ReportOneForm(t, r, now);
      ScoredFurther(s.p.quality, records, ids, now);
      var one := if r.IsReported() then [r.Report(now)] else [];
      ExtendsFurther(s, t, u, Reported(records, front, now), one,
                     KeptAll(records, front, now), Contribution(r, now), t.p.quality, u.p.quality);
      assert Reported(records, ids, now) == Reported(records, front, now) + one;
    }
  }

  // ---- The finished profile ----

  lemma {:induction false} NoHits(violations: seq<(u32, u64)>)
    ensures Sum(HitCount(map[]), violations) == 0
  {
    if violations != [] { NoHits(violations[..|violations| - 1]); }
  }

  /** Exactly the stacks of the kept samples are stored. */
  lemma {:induction false} StackCount(c: State, stacks: seq<Stack>)
    requires Interned(c, stacks)
    ensures |stacks| == |c.stackIds|
  {
    CountDistinct(stacks);
    var listed := set i | 0 <= i < |stacks| :: stacks[i].frames;
    assert c.stackIds.Keys == listed by {
      forall f | f in c.stackIds ensures f in listed {
        var i :| 0 <= i < |stacks| && stacks[i].frames == f;
      }
    }
  }

  lemma {:induction false} CountDistinct(stacks: seq<Stack>)
    requires forall i, j | 0 <= i < j < |stacks| :: stacks[i].frames != stacks[j].frames
    ensures |set i | 0 <= i < |stacks| :: stacks[i].frames| == |stacks|
  {
    if stacks != [] {
      var n := |stacks| - 1;
      CountDistinct(stacks[..n]);
      var front := set i | 0 <= i < n :: stacks[..n][i].frames;
      assert (set i | 0 <= i < |stacks| :: stacks[i].frames) == front + {stacks[n].frames};
    }
  }

  /** The records that the collector reports, judged by the violations of the stream. */
  function Verdicts(functions: seq<Function>, q: Quality, es: seq<CollectorEvent>): map<u64, SourceInvocation> {
    Judge(PushAll(Blank(functions, q), es).c.sourceInvocations, ViolationsOf(es))
  }

  lemma {:induction false} NothingToReport(s: Session, records: map<u64, SourceInvocation>,
                                           violations: seq<(u32, u64)>, now: u64)
    requires records == map[]
    ensures SuspectedOf(s.p.quality, records, violations) == s.p.quality
    ensures Judge(records, violations) == map[]
    ensures ReportAll(s, map[], SortedIds({}), now) == s
  {
    NoHits(violations);
    Inhabited(SortedIds({}));
  }

  /** The source half of `Finish` only judges and reports the records. */
  lemma {:induction false} FinishSourceForm(s: Session, functions: seq<Function>, q: Quality,
                                            es: seq<CollectorEvent>, now: u64)
    requires Gathered(s, functions, q, es)
    ensures
      var judged := Judged(s);
      FinishSource(s, now)
      == ReportAll(judged, judged.c.sourceInvocations, SortedIds(judged.c.sourceInvocations.Keys), now)
  {
    if !s.c.sourceMode {
      NothingToReport(s, s.c.sourceInvocations, s.c.sourceViolations, now);
      assert Judge(s.c.sourceInvocations, s.c.sourceViolations).Keys == {};
      assert Judged(s) == s;
    }
  }

  /** The finished profile of a consistent stream. */
  ghost predicate Finished(p: Profile, functions: seq<Function>, q: Quality,
                           kept: seq<Kept>, invocations: seq<Invocation>) {
    && p == Profile(1, functions, [], invocations, p.stacks, p.samples, q)
    && |p.stacks| == |FramesIn(kept)|
    && (forall i | 0 <= i < |p.stacks| :: p.stacks[i].id == StackId(i) && p.stacks[i].frames in FramesIn(kept))
    && (|p.stacks| <= U32_MAX ==> Resolved(p) == kept)
  }

  lemma ExtendsBlank(s: Session, t: Session, invocations: seq<Invocation>, kept: seq<Kept>, q: Quality)
    requires Extends(s, t, invocations, kept, q)
    requires s.p == Profile(1, s.p.functions, [], [], [], [], s.p.quality) && s.c.stackIds == map[]
    ensures Finished(t.p, s.p.functions, q, kept, invocations)
  {
    StackCount(t.c, t.p.stacks);
    assert [] + invocations == invocations;
    assert [] + kept == kept;
  }

  lemma {:induction false} FinishForm(functions: seq<Function>, q: Quality, es: seq<CollectorEvent>, now: u64,
                                      order: seq<u32>)
    requires AllTransport(es)
    requires forall tid | tid in order :: tid in PushAll(Blank(functions, q), es).c.active
    ensures
      var s := PushAll(Blank(functions, q), es);
      var records := Verdicts(functions, q, es);
      var ids := SortedIds(records.Keys);
      Finished(Finish(s, now, order), functions,
               ScoredAll(SuspectedOf(Tallied(q, es), s.c.sourceInvocations, ViolationsOf(es)), records, ids, now),
               KeptAll(records, ids, now), Reported(records, ids, now))
  {
    var s := PushAll(Blank(functions, q), es);
    PushAllGathers(functions, q, es);
    Inhabited(order);
    FinishSourceForm(s, functions, q, es, now);
    var records := Verdicts(functions, q, es);
    var ids := SortedIds(records.Keys);
    var s1 := Judged(s);
    ReportAllForm(s1, records, ids, now);
    ExtendsBlank(s1, ReportAll(s1, records, ids, now), Reported(records, ids, now), KeptAll(records, ids, now),
                 ScoredAll(s1.p.quality, records, ids, now));
  }

  lemma {:induction false} KeptCount(r: SourceInvocation, now: u64, samples: seq<Pending>, k: Kept)
    requires r.IsReported()
    ensures multiset(KeptOf(r, now, samples))[k]
         == if k.invocationId == r.id && r.Covers(k.sample, now) then multiset(samples)[k.sample] else 0
  {
    if samples != [] {
      KeptCount(r, now, samples[..|samples| - 1], k);
      assert samples == samples[..|samples| - 1] + [samples[|samples| - 1]];
    }
  }

  lemma {:induction false} KeptLength(r: SourceInvocation, now: u64, samples: seq<Pending>)
    requires r.IsReported()
    ensures |KeptOf(r, now, samples)| + |SelectOutside(r, now, samples)| == |samples|
  {
    if samples != [] { KeptLength(r, now, samples[..|samples| - 1]); }
  }

  /** The samples that `Finish` commits from the records. */
  ghost function Committed(s: Session, now: u64): seq<Kept> {
    if !s.c.sourceMode then []
    else
      var records := Judge(s.c.sourceInvocations, s.c.sourceViolations);
      KeptAll(records, SortedIds(records.Keys), now)
  }

  lemma {:induction false} FinishCommits(s: Session, now: u64, order: seq<u32>)
    requires InternedSession(s) && forall tid | tid in order :: tid in s.c.active
    ensures |s.p.stacks| <= |Finish(s, now, order).stacks|
    ensures |Finish(s, now, order).stacks| <= U32_MAX ==>
              Resolved(Finish(s, now, order)) == Resolved(s.p) + Committed(s, now)
  {
    var t := FinishSource(s, now);
    AbandonAllStacks(t.p, s.c.active, order, now);
    assert Resolved(Finish(s, now, order)) == Resolved(t.p);
    if s.c.sourceMode {
      var judged := Judged(s);
      assert Resolved(judged.p) == Resolved(s.p);
      ReportAllForm(judged, judged.c.sourceInvocations, SortedIds(judged.c.sourceInvocations.Keys), now);
    }
  }

  /**
   For every stream of both modes and every end of capture, while stack ids last: the samples of the
   finished profile are those stored on the way and those committed at the end, each with exactly the
   frames it arrived with, in order.
   */
  lemma {:induction false} SamplesKeepFrames(functions: seq<Function>, q: Quality, es: seq<CollectorEvent>, now: u64,
                                             order: seq<u32>)
    requires forall tid | tid in order :: tid in PushAll(Blank(functions, q), es).c.active
    ensures
      var s := PushAll(Blank(functions, q), es);
      |Finish(s, now, order).stacks| <= U32_MAX ==>
        Resolved(Finish(s, now, order)) == StoredBy(Blank(functions, q), es) + Committed(s, now)
  {
    var s0, s := Blank(functions, q), PushAll(Blank(functions, q), es);
    PushAllResolves(s0, es);
    PushAllKeeps(s0, es);
    FinishCommits(s, now, order);
    assert Resolved(s0.p) + StoredBy(s0, es) == StoredBy(s0, es);
  }
}
