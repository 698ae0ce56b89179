/** What a record of the source mode holds after any transport stream, contradictory ones included. */
module SourceRecords {
  import opened Domain
  import opened Sequences
  import opened Collector
  import opened SourceMode

  predicate EntryFor(e: CollectorEvent, id: u64) {
    e.Entry? && e.invocationId == Some(id)
  }

  predicate ReturnFor(e: CollectorEvent, id: u64) {
    e.Return? && e.invocationId == Some(id)
  }

  function EntryCount(id: u64): CollectorEvent -> nat {
    (e: CollectorEvent) => if EntryFor(e, id) then 1 else 0
  }

  function ReturnCount(id: u64): CollectorEvent -> nat {
    (e: CollectorEvent) => if ReturnFor(e, id) then 1 else 0
  }

  /** The first entry of the id. */
  function FirstEntry(id: u64, es: seq<CollectorEvent>): (r: Option<CollectorEvent>)
    ensures r.Some? ==> EntryFor(r.value, id)
    ensures r.None? <==> Sum(EntryCount(id), es) == 0
  {
    if es == [] then None
    else
      var earlier := FirstEntry(id, es[..|es| - 1]);
      if earlier.Some? then earlier else if EntryFor(es[|es| - 1], id) then Some(es[|es| - 1]) else None
  }

  function FirstReturn(id: u64, es: seq<CollectorEvent>): (r: Option<CollectorEvent>)
    ensures r.Some? ==> ReturnFor(r.value, id)
    ensures r.None? <==> Sum(ReturnCount(id), es) == 0
  {
    if es == [] then None
    else
      var earlier := FirstReturn(id, es[..|es| - 1]);
      if earlier.Some? then earlier else if ReturnFor(es[|es| - 1], id) then Some(es[|es| - 1]) else None
  }

  function LastReturn(id: u64, es: seq<CollectorEvent>): (r: Option<CollectorEvent>)
    ensures r.Some? ==> ReturnFor(r.value, id)
    ensures r.None? <==> Sum(ReturnCount(id), es) == 0
  {
    if es == [] then None
    else if ReturnFor(es[|es| - 1], id) then Some(es[|es| - 1])
    else LastReturn(id, es[..|es| - 1])
  }

  /** The thread that the first event of the id names. */
  function FirstTid(id: u64, es: seq<CollectorEvent>): Option<u32> {
    if es == [] then None
    else
      var earlier := FirstTid(id, es[..|es| - 1]);
      if earlier.Some? then earlier
      else if IdOf(es[|es| - 1]) == Some(id) then Some(TidOf(es[|es| - 1])) else None
  }

  /** The thread and the function that are believed: those of the first entry, or else of what came first. */
  function KnownTid(id: u64, es: seq<CollectorEvent>): Option<u32> {
    if FirstEntry(id, es).Some? then Some(FirstEntry(id, es).value.tid) else FirstTid(id, es)
  }

  function KnownFunction(id: u64, es: seq<CollectorEvent>): Option<u32> {
    if FirstEntry(id, es).Some? then Some(FirstEntry(id, es).value.functionId)
    else if FirstReturn(id, es).Some? then Some(FirstReturn(id, es).value.functionId)
    else None
  }

  /** The return contradicts nothing that was believed before it. */
  predicate Agrees(id: u64, before: seq<CollectorEvent>, e: CollectorEvent)
    requires ReturnFor(e, id)
  {
    && (KnownTid(id, before) == None || KnownTid(id, before) == Some(e.tid))
    && (KnownFunction(id, before) == None || KnownFunction(id, before) == Some(e.functionId))
  }

  ghost predicate ReturnsAgree(id: u64, es: seq<CollectorEvent>) {
    forall j | 0 <= j < |es| && ReturnFor(es[j], id) :: Agrees(id, es[..j], es[j])
  }

  /** One entry and one return at most, the return in agreement with what came before, and not before the entry. */
  ghost predicate Uncontradicted(id: u64, es: seq<CollectorEvent>) {
    && Sum(EntryCount(id), es) <= 1 && Sum(ReturnCount(id), es) <= 1 && ReturnsAgree(id, es)
    && (FirstEntry(id, es).Some? && LastReturn(id, es).Some? ==>
          FirstEntry(id, es).value.timestampNs <= LastReturn(id, es).value.timestampNs)
  }

  /** The record in terms of the stream. */
  ghost predicate RecordSays(r: SourceInvocation, id: u64, es: seq<CollectorEvent>) {
    && r.id == id && FirstTid(id, es).Some? && Some(r.tid) == KnownTid(id, es) && r.functionId == KnownFunction(id, es)
    && r.sawEntry == FirstEntry(id, es).Some? && r.sawReturn == FirstReturn(id, es).Some?
    && r.startNs == (if r.sawEntry then Some(FirstEntry(id, es).value.timestampNs) else None)
    && r.endNs == (if r.sawReturn then Some(LastReturn(id, es).value.timestampNs) else None)
    && r.valid == Uncontradicted(id, es)
    && r.samples == SamplesOf(id, es)
  }

  lemma {:induction false} ReturnsAgreeMore(id: u64, es: seq<CollectorEvent>, e: CollectorEvent)
    ensures ReturnsAgree(id, es + [e]) <==> ReturnsAgree(id, es) && (ReturnFor(e, id) ==> Agrees(id, es, e))
  {
    var more := es + [e];
    assert more[..|es|] == es;
    assert forall j | 0 <= j < |es| :: more[j] == es[j] && more[..j] == es[..j];
  }

  /** Nothing of the id has come yet. */
  ghost predicate Untouched(id: u64, es: seq<CollectorEvent>) {
    && FirstTid(id, es).None? && FirstEntry(id, es).None? && FirstReturn(id, es).None? && SamplesOf(id, es) == []
    && Uncontradicted(id, es)
  }

  lemma {:induction false} UnmentionedUntouched(id: u64, es: seq<CollectorEvent>)
    requires !Mentioned(id, es)
    ensures Untouched(id, es)
  {
    if es != [] {
      var front, e := es[..|es| - 1], es[|es| - 1];
      assert e in es && forall f | f in front :: f in es;
      UnmentionedUntouched(id, front);
      assert front + [e] == es;
      ReturnsAgreeMore(id, front, e);
    }
  }

  lemma {:induction false} OtherSays(r: SourceInvocation, id: u64, es: seq<CollectorEvent>, e: CollectorEvent)
    requires RecordSays(r, id, es) && IdOf(e) != Some(id)
    ensures RecordSays(r, id, es + [e])
  {
    assert (es + [e])[..|es|] == es;
    ReturnsAgreeMore(id, es, e);
  }

  /** The record so far, or a fresh one. */
  ghost predicate SoFar(r: SourceInvocation, id: u64, es: seq<CollectorEvent>, tid: u32) {
    RecordSays(r, id, es) || (r == Unseen(id, tid) && Untouched(id, es))
  }

  lemma {:induction false} EntrySays(r: SourceInvocation, id: u64, es: seq<CollectorEvent>, e: CollectorEvent)
    requires SoFar(r, id, es, TidOf(e)) && EntryFor(e, id)
    ensures RecordSays(Collector.SourceEntry(r, e.functionId, e.tid, e.timestampNs), id, es + [e])
  {
    assert (es + [e])[..|es|] == es;
    ReturnsAgreeMore(id, es, e);
  }

  lemma {:induction false} ReturnSays(r: SourceInvocation, id: u64, es: seq<CollectorEvent>, e: CollectorEvent)
    requires SoFar(r, id, es, TidOf(e)) && ReturnFor(e, id)
    ensures RecordSays(Collector.SourceReturn(r, e.functionId, e.tid, e.timestampNs), id, es + [e])
  {
    assert (es + [e])[..|es|] == es;
    ReturnsAgreeMore(id, es, e);
  }

  lemma {:induction false} SampleSays(r: SourceInvocation, id: u64, es: seq<CollectorEvent>, e: CollectorEvent)
    requires SoFar(r, id, es, TidOf(e)) && e.Sampled? && e.invocationId == Some(id)
    ensures RecordSays(Collector.SourceSample(r, e.sample), id, es + [e])
  {
    assert (es + [e])[..|es|] == es;
    ReturnsAgreeMore(id, es, e);
  }

  lemma {:induction false} UpdateSays(c: State, es: seq<CollectorEvent>, e: CollectorEvent, id: u64)
    requires Collected(c.sourceInvocations, es) && id in Updated(c, e)
    requires id in c.sourceInvocations ==> RecordSays(c.sourceInvocations[id], id, es)
    ensures RecordSays(Updated(c, e)[id], id, es + [e])
  {
    if IdOf(e) != Some(id) {
      OtherSays(c.sourceInvocations[id], id, es, e);
    } else {
      var r := RecordOf(c, id, TidOf(e));
      if id !in c.sourceInvocations { UnmentionedUntouched(id, es); }
      match e
      case Entry(_, _, _, _) => EntrySays(r, id, es, e);
      case Return(_, _, _, _) => ReturnSays(r, id, es, e);
      case Sampled(_, _) => SampleSays(r, id, es, e);
    }
  }

  /**
   For every transport stream, in any order and with any contradiction: there is one record for each id that the
   stream mentions; it believes the first entry, ends with the last return, holds the samples in their order, and
   is valid exactly if nothing in the stream contradicts it.
   */
  lemma {:induction false} RecordsSay(functions: seq<Function>, q: Quality, es: seq<CollectorEvent>, id: u64)
    requires AllTransport(es)
    ensures
      var records := PushAll(Blank(functions, q), es).c.sourceInvocations;
      && (id in records <==> Mentioned(id, es))
      && (id in records ==> RecordSays(records[id], id, es))
  {
    PushAllGathers(functions, q, es);
    if es != [] {
      var front, e := es[..|es| - 1], es[|es| - 1];
      var s := PushAll(Blank(functions, q), front);
      assert front + [e] == es && e in es && forall f | f in front :: f in es;
      RecordsSay(functions, q, front, id);
      PushAllGathers(functions, q, front);
      PushUpdates(s, e);
      if id in Updated(s.c, e) { UpdateSays(s.c, front, e, id); }
    }
  }
}
