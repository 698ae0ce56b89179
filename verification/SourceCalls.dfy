/** The calls and the samples of a finished source-mode profile, for any transport stream. */
module SourceCalls {
  import opened Domain
  import opened Sorting
  import opened Collector
  import opened Interning
  import opened SourceMode
  import opened SourceFinish
  import opened SourceRecords
  import opened Counters
  import opened CapturedProfile

  /** Where the call ends: at its last return, or when the capture does, but never before its start. */
  function EndOf(id: u64, es: seq<CollectorEvent>, now: u64): u64
    requires FirstEntry(id, es).Some?
  {
    if LastReturn(id, es).Some? then LastReturn(id, es).value.timestampNs
    else if now < FirstEntry(id, es).value.timestampNs then FirstEntry(id, es).value.timestampNs
    else now
  }

  /** A violation of the thread falls into the call, both ends included. */
  ghost predicate Violated(es: seq<CollectorEvent>, tid: u32, from: u64, to: u64) {
    exists e :: e in es && e.Violation? && e.tid == tid && from <= e.timestampNs <= to
  }

  /** The call of an id whose entry has come: complete with a return, and valid if nothing speaks against it. */
  ghost function CallFrom(id: u64, es: seq<CollectorEvent>, now: u64): Invocation
    requires FirstEntry(id, es).Some?
  {
    var entry, end, complete := FirstEntry(id, es).value, EndOf(id, es, now), LastReturn(id, es).Some?;
    Invocation(id, entry.functionId, None, entry.tid, entry.timestampNs, end, complete,
               complete && Uncontradicted(id, es) && !Violated(es, entry.tid, entry.timestampNs, end))
  }

  lemma {:induction false} ReportIs(es: seq<CollectorEvent>, r: SourceInvocation, id: u64, now: u64)
    requires RecordSays(r, id, es)
    ensures
      var judged := r.(valid := r.valid && !Hit(ViolationsOf(es), r));
      && (judged.IsReported() <==> FirstEntry(id, es).Some?)
      && (judged.IsReported() ==> judged.Report(now) == CallFrom(id, es, now))
  {
    HitIs(es, r);
    if FirstEntry(id, es).Some? && LastReturn(id, es).Some? {
      assert StruckBy(es, r) <==> Violated(es, r.tid, r.startNs.value, r.endNs.value) by {
        if e :| e in es && e.Violation? && Strikes(e.tid, e.timestampNs, r) {
          assert e.tid == r.tid && r.startNs.value <= e.timestampNs <= r.endNs.value;
        }
        if e :| e in es && e.Violation? && e.tid == r.tid && r.startNs.value <= e.timestampNs <= r.endNs.value {
          assert Strikes(e.tid, e.timestampNs, r);
        }
      }
    }
  }

  /** The calls rise in id, and there is exactly the right one for each id whose entry has come. */
  ghost predicate CallsFrom(calls: seq<Invocation>, es: seq<CollectorEvent>, now: u64) {
    && (forall i, j | 0 <= i < j < |calls| :: calls[i].id < calls[j].id)
    && (forall i | i in calls :: FirstEntry(i.id, es).Some? && i == CallFrom(i.id, es, now))
    && (forall id: u64 | FirstEntry(id, es).Some? :: CallFrom(id, es, now) in calls)
  }

  lemma {:induction false} EntryMentioned(id: u64, es: seq<CollectorEvent>)
    requires FirstEntry(id, es).Some?
    ensures Mentioned(id, es)
  {
    var front, e := es[..|es| - 1], es[|es| - 1];
    assert es == front + [e];
    if FirstEntry(id, front).Some? {
      EntryMentioned(id, front);
      var f :| f in front && IdOf(f) == Some(id);
      assert f in es;
    } else {
      assert e in es;
    }
  }

  predicate Rising(ids: seq<u64>) {
    forall i, j | 0 <= i < j < |ids| :: ids[i] < ids[j]
  }

  lemma {:induction false} ReportedRises(records: map<u64, SourceInvocation>, ids: seq<u64>, now: u64)
    requires Keyed(records) && Rising(ids) && forall id | id in ids :: id in records
    ensures forall i, j | 0 <= i < j < |Reported(records, ids, now)| ::
              Reported(records, ids, now)[i].id < Reported(records, ids, now)[j].id
  {
    if ids != [] {
      var front, last := ids[..|ids| - 1], ids[|ids| - 1];
      var r := Reported(records, front, now);
      assert forall id | id in front :: id in ids;
      ReportedRises(records, front, now);
      ReportedExactly(records, front, now);
      forall i | 0 <= i < |r| ensures r[i].id < last {
        assert r[i].id in front;
        var k :| 0 <= k < |front| && front[k] == r[i].id;
        assert ids[k] < ids[|ids| - 1];
      }
    }
  }

  lemma {:induction false} SortedIdsRise(ids: set<u64>)
    ensures Rising(SortedIds(ids))
  {
    InOrderMembers(Ascending, ids);
    var r := SortedIds(ids);
    forall i, j | 0 <= i < j < |r| ensures r[i] < r[j] {
      assert Ascending(r[i], r[j]) && r[i] != r[j];
    }
  }

  /** The record of the id, if there is one, is reported exactly if its entry has come, as that call. */
  ghost predicate VerdictIs(records: map<u64, SourceInvocation>, es: seq<CollectorEvent>, now: u64, id: u64) {
    && (id in records ==> records[id].id == id)
    && (id in records && records[id].IsReported() <==> FirstEntry(id, es).Some?)
    && (id in records && records[id].IsReported() ==> records[id].Report(now) == CallFrom(id, es, now))
  }

  lemma {:induction false} VerdictSays(functions: seq<Function>, q: Quality, es: seq<CollectorEvent>, id: u64, now: u64)
    requires AllTransport(es)
    ensures VerdictIs(Verdicts(functions, q, es), es, now, id)
  {
    RecordsSay(functions, q, es, id);
    var records := PushAll(Blank(functions, q), es).c.sourceInvocations;
    if id in records { ReportIs(es, records[id], id, now); }
    if FirstEntry(id, es).Some? { EntryMentioned(id, es); }
  }

  lemma {:induction false} ReportedCalls(records: map<u64, SourceInvocation>, es: seq<CollectorEvent>, now: u64)
    requires forall id: u64 :: VerdictIs(records, es, now, id)
    ensures CallsFrom(Reported(records, SortedIds(records.Keys), now), es, now)
  {
    var ids := SortedIds(records.Keys);
    var calls := Reported(records, ids, now);
    forall id | id in records ensures records[id].id == id { assert VerdictIs(records, es, now, id); }
    SortedIdsRise(records.Keys);
    ReportedRises(records, ids, now);
    ReportedInOrder(records, now);
    forall i | i in calls ensures FirstEntry(i.id, es).Some? && i == CallFrom(i.id, es, now) {
      var n :| 0 <= n < |calls| && calls[n] == i;
      assert Reports(records, now, calls[n]);
      assert VerdictIs(records, es, now, i.id);
    }
    forall id: u64 | FirstEntry(id, es).Some? ensures CallFrom(id, es, now) in calls {
      assert VerdictIs(records, es, now, id);
      assert records[id].Report(now) in calls;
    }
  }

  /**
   For every transport stream, in any order and with any contradiction, and any end: the finished profile has one
   call for each id whose entry has come, in rising order of ids.
   */
  lemma {:induction false} TransportCalls(functions: seq<Function>, q: Quality, es: seq<CollectorEvent>, now: u64,
                                          order: seq<u32>)
    requires AllTransport(es)
    requires forall tid | tid in order :: tid in PushAll(Blank(functions, q), es).c.active
    ensures CallsFrom(Finish(PushAll(Blank(functions, q), es), now, order).invocations, es, now)
  {
    FinishForm(functions, q, es, now, order);
    forall id: u64 ensures VerdictIs(Verdicts(functions, q, es), es, now, id) {
      VerdictSays(functions, q, es, id, now);
    }
    ReportedCalls(Verdicts(functions, q, es), es, now);
  }

  /** The sample lies within a valid call of its id, both ends included. */
  ghost predicate WithinValid(es: seq<CollectorEvent>, now: u64, k: Kept) {
    && FirstEntry(k.invocationId, es).Some? && CallFrom(k.invocationId, es, now).valid
    && FirstEntry(k.invocationId, es).value.timestampNs <= k.sample.timestampNs <= EndOf(k.invocationId, es, now)
  }

  /**
   For every transport stream, while stack ids last: the finished profile holds a sample, with the frames it came
   with, as often as the stream has it if it lies within a valid call, and not at all otherwise.
   */
  lemma {:induction false} TransportSamples(functions: seq<Function>, q: Quality, es: seq<CollectorEvent>, now: u64,
                                            order: seq<u32>, k: Kept)
    requires AllTransport(es)
    requires forall tid | tid in order :: tid in PushAll(Blank(functions, q), es).c.active
    ensures
      var p := Finish(PushAll(Blank(functions, q), es), now, order);
      |p.stacks| <= U32_MAX ==>
        multiset(Resolved(p))[k]
        == if WithinValid(es, now, k) then multiset(es)[Sampled(Some(k.invocationId), k.sample)] else 0
  {
    FinishForm(functions, q, es, now, order);
    SamplesAccounted(functions, q, es, now, k);
    KeepingSays(functions, q, es, now, k);
  }

  lemma {:induction false} KeepingSays(functions: seq<Function>, q: Quality, es: seq<CollectorEvent>, now: u64, k: Kept)
    requires AllTransport(es)
    ensures Keeping(Verdicts(functions, q, es), k, now) <==> WithinValid(es, now, k)
  {
    VerdictSays(functions, q, es, k.invocationId, now);
  }
}
