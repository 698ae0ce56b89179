/** The correlator as it is written: fields updated in place, and a profile it appends to. */
module Correlator {
  import opened Domain
  import opened Sequences
  import opened Sorting
  import C = Collector

  /** The vectors and counters of the profile under construction. */
  class Store {
    var functions: seq<Function>
    var threads: seq<Thread>
    var invocations: seq<Invocation>
    var stacks: seq<Stack>
    var samples: seq<Sample>
    var quality: Quality

    constructor (functions: seq<Function>, quality: Quality)
      ensures Value() == Profile(1, functions, [], [], [], [], quality)
    {
      this.functions, this.quality := functions, quality;
      threads, invocations, stacks, samples := [], [], [], [];
    }

    function Value(): Profile
      reads this
    {
      Profile(1, functions, threads, invocations, stacks, samples, quality)
    }

    method CountEvent()
      modifies this`quality
      ensures Value() == C.Generated(old(Value()))
    {
      quality := quality.(eventsGenerated := SatAdd(quality.eventsGenerated, 1));
    }

    method CountMismatch()
      modifies this`quality
      ensures Value() == C.Mismatch(old(Value()))
    {
      quality := quality.(stackMismatches := SatAdd(quality.stackMismatches, 1));
    }

    method CountSuspected()
      modifies this`quality
      ensures Value() == C.Suspect(old(Value()), 1)
    {
      quality := quality.(suspectedAsyncViolations := SatAdd(quality.suspectedAsyncViolations, 1));
    }

    method PushInvocation(i: Invocation)
      modifies this`invocations, this`quality
      ensures Value() == C.Conclude(old(Value()), i)
    {
      invocations := invocations + [i];
      if i.complete && i.valid {
        quality := quality.(completeInvocations := SatAdd(quality.completeInvocations, 1));
      } else {
        quality := quality.(incompleteInvocations := SatAdd(quality.incompleteInvocations, 1));
      }
    }
  }

  class Correlator {
    var nextInvocationId: u64
    var nextStackId: u32
    var active: map<u32, C.ActiveInvocation>
    var stackIds: map<seq<Frame>, u32>
    var sourceInvocations: map<u64, C.SourceInvocation>
    var sourceMode: bool
    var sourceViolations: seq<(u32, u64)>

    constructor ()
      ensures State() == C.DEFAULT
    {
      nextInvocationId, nextStackId, active, stackIds := 1, 1, map[], map[];
      sourceInvocations, sourceMode, sourceViolations := map[], false, [];
    }

    function State(): C.State
      reads this
    {
      C.State(nextInvocationId, nextStackId, active, stackIds, sourceInvocations, sourceMode, sourceViolations)
    }

    ghost function Session(p: Store): C.Session
      reads this, p
    {
      C.Session(State(), p.Value())
    }

    /** Every record is kept under its own id. */
    ghost predicate Valid()
      reads this
    {
      forall id | id in sourceInvocations :: sourceInvocations[id].id == id
    }

    // ---- Source mode ----

    method SourceEntry(invocationId: u64, functionId: u32, tid: u32, timestampNs: u64)
      requires Valid()
      modifies this`sourceInvocations
      ensures Valid()
      ensures sourceInvocations == old(sourceInvocations)[invocationId :=
                C.SourceEntry(C.RecordOf(old(State()), invocationId, tid), functionId, tid, timestampNs)]
    {
      var invocation :=
        if invocationId in sourceInvocations then sourceInvocations[invocationId]
        else C.SourceInvocation(invocationId, Some(functionId), tid, Some(timestampNs), None, false, false, true, []);
      if invocation.sawEntry {
        invocation := invocation.(valid := false);
      } else {
        invocation := invocation.(sawEntry := true, functionId := Some(functionId), tid := tid,
                                  startNs := Some(timestampNs));
        if invocation.endNs.Some? && invocation.endNs.value < timestampNs { invocation := invocation.(valid := false); }
      }
      sourceInvocations := sourceInvocations[invocationId := invocation];
    }

    method SourceReturn(invocationId: u64, functionId: u32, tid: u32, timestampNs: u64)
      requires Valid()
      modifies this`sourceInvocations
      ensures Valid()
      ensures sourceInvocations == old(sourceInvocations)[invocationId :=
                C.SourceReturn(C.RecordOf(old(State()), invocationId, tid), functionId, tid, timestampNs)]
    {
      var invocation :=
        if invocationId in sourceInvocations then sourceInvocations[invocationId]
        else C.SourceInvocation(invocationId, Some(functionId), tid, None, Some(timestampNs), false, false, true, []);
      if invocation.sawReturn { invocation := invocation.(valid := false); }
      invocation := invocation.(sawReturn := true);
      if invocation.functionId.None? { invocation := invocation.(functionId := Some(functionId)); }
      if invocation.functionId != Some(functionId) || invocation.tid != tid {
        invocation := invocation.(valid := false);
      }
      invocation := invocation.(endNs := Some(timestampNs));
      if invocation.startNs.Some? && timestampNs < invocation.startNs.value {
        invocation := invocation.(valid := false);
      }
      sourceInvocations := sourceInvocations[invocationId := invocation];
    }

    method SourceSample(invocationId: u64, x: C.Pending)
      requires Valid()
      modifies this`sourceInvocations
      ensures Valid()
      ensures sourceInvocations == old(sourceInvocations)[invocationId :=
                C.SourceSample(C.RecordOf(old(State()), invocationId, x.tid), x)]
    {
      var invocation :=
        if invocationId in sourceInvocations then sourceInvocations[invocationId]
        else C.SourceInvocation(invocationId, None, x.tid, None, None, false, false, true, []);
      sourceInvocations := sourceInvocations[invocationId := invocation.(samples := invocation.samples + [x])];
    }

    // ---- Samples ----

    method AppendSample(p: Store, invocationId: u64, x: C.Pending)
      modifies this`nextStackId, this`stackIds, p`stacks, p`samples
      ensures Session(p) == C.Append(old(Session(p)), invocationId, x)
    {
      var stackId: u32;
      if x.frames in stackIds {
        stackId := stackIds[x.frames];
      } else {
        stackId := nextStackId;
        nextStackId := if nextStackId < U32_MAX then nextStackId + 1 else nextStackId;
        stackIds := stackIds[x.frames := stackId];
        p.stacks := p.stacks + [Stack(stackId, x.frames)];
      }
      p.samples := p.samples
        + [Sample(x.timestampNs, invocationId, stackId, x.tid, x.cpu, x.state, x.weightNs)];
    }

    // ---- Local mode ----

    method LocalEntry(p: Store, functionId: u32, tid: u32, timestampNs: u64)
      modifies this`active, this`nextInvocationId, p`invocations, p`quality
      ensures Session(p) == C.LocalEntry(old(Session(p)), functionId, tid, timestampNs)
    {
      if tid in active {
        var existing := active[tid];
        p.PushInvocation(Invocation(existing.id, existing.functionId, None, tid, existing.startNs,
                                    Max(timestampNs, existing.startNs), false, false));
        p.CountMismatch();
        p.CountSuspected();
      }
      var id := nextInvocationId;
      nextInvocationId := SatAdd(nextInvocationId, 1);
      active := active[tid := C.ActiveInvocation(id, functionId, tid, timestampNs, true)];
    }

    method LocalReturn(p: Store, functionId: u32, tid: u32, timestampNs: u64)
      modifies this`active, p`invocations, p`quality
      ensures Session(p) == C.LocalReturn(old(Session(p)), functionId, tid, timestampNs)
    {
      if tid !in active {
        p.CountMismatch();
        return;
      }
      var a := active[tid];
      active := active - {tid};
      var valid := a.valid && a.functionId == functionId && timestampNs >= a.startNs;
      if !valid { p.CountMismatch(); }
      p.PushInvocation(Invocation(a.id, a.functionId, None, tid, a.startNs, timestampNs, true, valid));
    }

    method Violate(p: Store, tid: u32, timestampNs: u64)
      modifies this`active, this`sourceViolations, p`quality
      ensures Session(p) == C.Violate(old(Session(p)), tid, timestampNs)
    {
      sourceViolations := sourceViolations + [(tid, timestampNs)];
      if tid !in active {
        p.CountMismatch();
        return;
      }
      active := active[tid := active[tid].(valid := false)];
      p.CountMismatch();
      p.CountSuspected();
      if timestampNs < active[tid].startNs { p.CountMismatch(); }
    }

    /** `Correlator::push`. */
    method Push(p: Store, e: C.CollectorEvent)
      requires Valid()
      modifies this, p
      ensures Valid()
      ensures Session(p) == C.Push(old(Session(p)), e)
    {
      match e
      case Entry(invocationId, functionId, tid, timestampNs) =>
        p.CountEvent();
        if invocationId.Some? {
          sourceMode := true;
          SourceEntry(invocationId.value, functionId, tid, timestampNs);
        } else {
          LocalEntry(p, functionId, tid, timestampNs);
        }
      case Return(invocationId, functionId, tid, timestampNs) =>
        p.CountEvent();
        if invocationId.Some? {
          sourceMode := true;
          SourceReturn(invocationId.value, functionId, tid, timestampNs);
        } else {
          LocalReturn(p, functionId, tid, timestampNs);
        }
      case Violation(tid, timestampNs) =>
        p.CountEvent();
        Violate(p, tid, timestampNs);
      case Sampled(invocationId, x) =>
        p.quality := p.quality.(samplesGenerated := SatAdd(p.quality.samplesGenerated, 1));
        if invocationId.Some? {
          sourceMode := true;
          SourceSample(invocationId.value, x);
        } else if x.tid in active && active[x.tid].valid {
          AppendSample(p, active[x.tid].id, x);
        }
      case DroppedEvents(count) =>
        p.quality := p.quality.(eventsDropped := SatAdd(p.quality.eventsDropped, count));
      case DroppedSamples(count) =>
        p.quality := p.quality.(samplesDropped := SatAdd(p.quality.samplesDropped, count));
    }

    // ---- The end of a capture ----

    /** One violation against every record. */
    method InvalidateHit(p: Store, violation: (u32, u64))
      modifies this`sourceInvocations, p`quality
      ensures sourceInvocations == C.Judge(old(sourceInvocations), [violation])
      ensures p.quality == C.SuspectedOf(old(p.quality), old(sourceInvocations), [violation])
    {
      ghost var was, q := sourceInvocations, p.quality;
      var rest := sourceInvocations.Keys;
      ghost var hits: set<u64> := {};
      while rest != {}
        invariant Marked(was, sourceInvocations, violation, rest, hits)
        invariant p.quality == q.(suspectedAsyncViolations := Cap(q.suspectedAsyncViolations + |hits|))
        decreases |rest|
      {
        var id :| id in rest;
        MarkMore(was, sourceInvocations, violation, rest, hits, id);
        rest := rest - {id};
        if C.Hits(violation, sourceInvocations[id]) {
          sourceInvocations := sourceInvocations[id := sourceInvocations[id].(valid := false)];
          p.CountSuspected();
          hits := hits + {id};
        }
      }
      MarkedAll(was, sourceInvocations, violation, hits);
    }

    method InvalidateHits(p: Store)
      modifies this`sourceInvocations, p`quality
      ensures sourceInvocations == C.Judge(old(sourceInvocations), sourceViolations)
      ensures p.quality == C.SuspectedOf(old(p.quality), old(sourceInvocations), sourceViolations)
    {
      ghost var was, q := sourceInvocations, p.quality;
      NoViolations(was, q);
      for n := 0 to |sourceViolations|
        invariant sourceInvocations == C.Judge(was, sourceViolations[..n])
        invariant p.quality == C.SuspectedOf(q, was, sourceViolations[..n])
      {
        OneMore(was, q, sourceViolations, n);
        InvalidateHit(p, sourceViolations[n]);
      }
      assert sourceViolations[..|sourceViolations|] == sourceViolations;
    }

    method CommitSamples(p: Store, r: C.SourceInvocation, now: u64)
      requires r.IsReported()
      modifies this`nextStackId, this`stackIds, p`stacks, p`samples, p`quality
      ensures Session(p) == C.Commit(old(Session(p)), r, now, r.samples)
    {
      for n := 0 to |r.samples|
        invariant Session(p) == C.Commit(old(Session(p)), r, now, r.samples[..n])
      {
        assert r.samples[..n + 1][..n] == r.samples[..n];
        var x := r.samples[n];
        if x.timestampNs < r.startNs.value || x.timestampNs > r.End(now) {
          p.CountMismatch();
        } else {
          AppendSample(p, r.id, x);
        }
      }
      assert r.samples[..|r.samples|] == r.samples;
    }

    method ReportOne(p: Store, r: C.SourceInvocation, now: u64)
      modifies this`nextStackId, this`stackIds, p`invocations, p`stacks, p`samples, p`quality
      ensures Session(p) == C.ReportOne(old(Session(p)), r, now)
    {
      if r.functionId.None? || r.startNs.None? { return; }
      var end := if r.endNs.Some? then r.endNs.value else Max(now, r.startNs.value);
      var complete := r.sawEntry && r.sawReturn;
      var valid := r.valid && complete && end >= r.startNs.value;
      p.PushInvocation(Invocation(r.id, r.functionId.value, None, r.tid, r.startNs.value, end, complete, valid));
      if valid {
        CommitSamples(p, r, now);
      } else if complete {
        p.CountMismatch();
      }
    }

    method ReportRecords(p: Store, now: u64)
      modifies this`nextStackId, this`stackIds, p`invocations, p`stacks, p`samples, p`quality
      ensures Session(p) == C.ReportAll(old(Session(p)), old(sourceInvocations),
                                        C.SortedIds(old(sourceInvocations).Keys), now)
    {
      AscendingOrders();
      var ids := KeysInOrder(C.Ascending, sourceInvocations.Keys);
      assert ids == C.SortedIds(sourceInvocations.Keys);
      for n := 0 to |ids|
        invariant Session(p) == C.ReportAll(old(Session(p)), old(sourceInvocations), ids[..n], now)
        invariant sourceInvocations == old(sourceInvocations)
      {
        assert ids[..n + 1][..n] == ids[..n];
        assert ids[n] in ids;
        ReportOne(p, sourceInvocations[ids[n]], now);
      }
      assert ids[..|ids|] == ids;
    }

    /** The order is that in which the hash map hands out the active invocations. */
    method AbandonActive(p: Store, now: u64) returns (ghost order: seq<u32>)
      modifies p`invocations, p`quality
      ensures C.IsOrderOf(order, active)
      ensures p.Value() == C.AbandonAll(old(p.Value()), active, order, now)
    {
      var rest := active.Keys;
      order := [];
      while rest != {}
        invariant rest <= active.Keys && Distinct(order)
        invariant forall tid :: tid in order <==> tid in active && tid !in rest
        invariant p.Value() == C.AbandonAll(old(p.Value()), active, order, now)
        decreases |rest|
      {
        var tid :| tid in rest;
        rest := rest - {tid};
        var a := active[tid];
        p.PushInvocation(Invocation(a.id, a.functionId, None, a.tid, a.startNs, Max(now, a.startNs), false, false));
        assert (order + [tid])[..|order|] == order;
        order := order + [tid];
      }
    }

    /** `Correlator::finish`. */
    method Finish(p: Store, now: u64) returns (ghost order: seq<u32>)
      modifies this, p
      ensures C.IsOrderOf(order, old(active))
      ensures p.Value() == C.Finish(old(Session(p)), now, order)
    {
      if sourceMode {
        InvalidateHits(p);
        ReportRecords(p, now);
      }
      order := AbandonActive(p, now);
    }
  }

  // ---- What the loops over the records need ----

  lemma AscendingOrders()
    ensures TotalPreorder(C.Ascending)
    ensures forall x, y | C.Ascending(x, y) && C.Ascending(y, x) :: x == y
  {
  }

  lemma {:induction false} NoViolations(records: map<u64, C.SourceInvocation>, q: Quality)
    ensures C.Judge(records, []) == records && C.SuspectedOf(q, records, []) == q
  {
  }

  /** The records outside `rest` have been held against the violation; those in `hits` were hit. */
  ghost predicate Marked(was: map<u64, C.SourceInvocation>, records: map<u64, C.SourceInvocation>,
                         violation: (u32, u64),
                         rest: set<u64>, hits: set<u64>)
  {
    && rest <= was.Keys && records.Keys == was.Keys && hits <= was.Keys - rest
    && (forall id | id in was && id !in rest :: id in hits <==> C.Hits(violation, was[id]))
    && (forall id | id in was :: records[id] == if id in hits then was[id].(valid := false) else was[id])
  }

  lemma {:induction false} MarkMore(was: map<u64, C.SourceInvocation>, records: map<u64, C.SourceInvocation>,
                                    violation: (u32, u64), rest: set<u64>, hits: set<u64>, id: u64)
    requires Marked(was, records, violation, rest, hits) && id in rest
    ensures records[id] == was[id]
    ensures
      if C.Hits(violation, records[id]) then
        Marked(was, records[id := records[id].(valid := false)], violation, rest - {id}, hits + {id})
        && |hits + {id}| == |hits| + 1
      else Marked(was, records, violation, rest - {id}, hits)
  {
  }

  lemma {:induction false} MarkedAll(was: map<u64, C.SourceInvocation>, records: map<u64, C.SourceInvocation>,
                                     violation: (u32, u64), hits: set<u64>)
    requires Marked(was, records, violation, {}, hits)
    ensures records == C.Judge(was, [violation])
    ensures Sum(C.HitCount(was), [violation]) == |hits|
  {
    assert hits == set id | id in was && C.Hits(violation, was[id]);
    OneViolation(was, violation, hits);
  }

  lemma {:induction false} OneViolation(records: map<u64, C.SourceInvocation>, violation: (u32, u64), hits: set<u64>)
    requires hits == set id | id in records && C.Hits(violation, records[id])
    ensures C.HitCount(records)(violation) == |hits|
    ensures C.Judge(records, [violation]) ==
            map id | id in records :: if id in hits then records[id].(valid := false) else records[id]
    ensures Sum(C.HitCount(records), [violation]) == |hits|
  {
    forall id | id in records ensures C.Hit([violation], records[id]) <==> id in hits {
      assert [violation][0] == violation;
    }
    SumSnoc(C.HitCount(records), [], violation);
    assert [] + [violation] == [violation];
  }

  /** Judging by one more violation is judging what the earlier ones have left. */
  lemma {:induction false} OneMore(records: map<u64, C.SourceInvocation>, q: Quality,
                                   violations: seq<(u32, u64)>, n: nat)
    requires n < |violations|
    ensures
      var before, after := violations[..n], violations[..n + 1];
      && C.Judge(records, after) == C.Judge(C.Judge(records, before), [violations[n]])
      && C.SuspectedOf(q, records, after)
         == C.SuspectedOf(C.SuspectedOf(q, records, before), C.Judge(records, before), [violations[n]])
  {
    var before, v := violations[..n], violations[n];
    assert violations[..n + 1] == before + [v];
    JudgeMore(records, before, v);
    SuspectMore(records, before, v);
  }

  lemma {:induction false} JudgeMore(records: map<u64, C.SourceInvocation>, before: seq<(u32, u64)>, v: (u32, u64))
    ensures C.Judge(records, before + [v]) == C.Judge(C.Judge(records, before), [v])
  {
    var judged := C.Judge(records, before);
    forall id | id in records
      ensures C.Hit(before + [v], records[id]) <==> C.Hit(before, records[id]) || C.Hit([v], judged[id])
    {
      assert (before + [v])[|before|] == v && [v][0] == v;
      assert C.Hits(v, records[id]) <==> C.Hits(v, judged[id]);
      if C.Hit(before, records[id]) {
        var k :| 0 <= k < |before| && C.Hits(before[k], records[id]);
        assert (before + [v])[k] == before[k];
      }
    }
  }

  lemma {:induction false} SuspectMore(records: map<u64, C.SourceInvocation>, before: seq<(u32, u64)>, v: (u32, u64))
    ensures Sum(C.HitCount(records), before + [v])
         == Sum(C.HitCount(records), before) + Sum(C.HitCount(C.Judge(records, before)), [v])
  {
    var judged := C.Judge(records, before);
    var hits := set id | id in records && C.Hits(v, records[id]);
    assert hits == set id | id in judged && C.Hits(v, judged[id]);
    OneViolation(records, v, hits);
    OneViolation(judged, v, hits);
    SumSnoc(C.HitCount(records), before, v);
  }
}
