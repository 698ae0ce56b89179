/**
 From the kernel machine to the finished profile: for every run of the handlers, every part of the
 ring that is delivered and every order of delivery.
 */
module EndToEnd {
  import opened Domain
  import opened Sequences
  import opened Sorting
  import K = Kernel
  import KI = KernelInvariant
  import C = Collector
  import opened SourceMode
  import opened SourceFinish
  import opened Adapter

  /** What was delivered is a part of what the machine emitted, in any order. */
  ghost predicate Delivered(s: K.State, delivered: seq<K.Event>) {
    KI.Inv(s) && multiset(delivered) <= multiset(s.ring)
  }

  lemma SortedPart(s: K.State, delivered: seq<K.Event>)
    requires Delivered(s, delivered)
    ensures multiset(SortEvents(delivered)) == multiset(delivered) <= multiset(s.ring)
    ensures forall e | e in SortEvents(delivered) :: e in delivered && KI.EventOk(s.k, e)
    ensures forall e | e in delivered :: e in SortEvents(delivered)
  {
    SortMembers(EventLe, delivered);
    forall e | e in SortEvents(delivered) ensures e in delivered && KI.EventOk(s.k, e) {
      PartMember(SortEvents(delivered), delivered, e);
      PartMember(delivered, s.ring, e);
      var i :| 0 <= i < |s.ring| && s.ring[i] == e;
      assert KI.EventOk(s.k, s.ring[i]);
    }
    forall e | e in delivered ensures e in SortEvents(delivered) { PartMember(delivered, SortEvents(delivered), e); }
  }

  /** A replayed event stands for a delivered ring record. */
  lemma Origin(r: Request, delivered: seq<K.Event>, c: C.CollectorEvent) returns (e: K.Event)
    requires c in Events(r, delivered)
    ensures e in SortEvents(delivered) && Translate(e, r.function_, r.table) == c
  {
    var i :| 0 <= i < |Events(r, delivered)| && Events(r, delivered)[i] == c;
    e := SortEvents(delivered)[i];
  }

  lemma Replays(r: Request, delivered: seq<K.Event>, e: K.Event)
    requires e in SortEvents(delivered)
    ensures Translate(e, r.function_, r.table) in Events(r, delivered)
  {
    var i :| 0 <= i < |SortEvents(delivered)| && SortEvents(delivered)[i] == e;
    assert Events(r, delivered)[i] == Translate(e, r.function_, r.table);
  }

  /** What a replayed event of an id says is true of that life. */
  ghost predicate Faithful(lives: map<u64, K.Life>, r: Request, id: u64, c: C.CollectorEvent) {
    && id in lives
    && TidOf(c) == lives[id].tid
    && (c.Entry? ==> c.timestampNs == lives[id].startNs && c.functionId == r.function_.id)
    && (c.Return? ==> lives[id].endNs == Some(c.timestampNs) && c.functionId == r.function_.id)
    && (c.Sampled? ==> lives[id].startNs <= c.sample.timestampNs)
  }

  lemma ReplayFaithful(s: K.State, r: Request, delivered: seq<K.Event>, c: C.CollectorEvent)
    requires Delivered(s, delivered) && c in Events(r, delivered) && IdOf(c).Some?
    ensures Faithful(s.k.lives, r, IdOf(c).value, c)
  {
    var e := Origin(r, delivered, c);
    SortedPart(s, delivered);
    assert KI.EventOk(s.k, e);
  }

  /** Replay of any delivered part is consistent, so the closed form of the source mode applies. */
  lemma ReplayConsistent(s: K.State, r: Request, delivered: seq<K.Event>)
    requires Delivered(s, delivered)
    ensures Consistent(Events(r, delivered))
  {
    var sorted, es := SortEvents(delivered), Events(r, delivered);
    SortedPart(s, delivered);
    forall c | c in es ensures Transport(c) { var e := Origin(r, delivered, c); }
    forall i, j | 0 <= i < j < |es| ensures !Repeated(es[i], es[j]) {
      var a, b := Origins(sorted, s.ring, i, j);
      assert if a < b then !KI.SameBoundary(s.ring[a], s.ring[b]) else !KI.SameBoundary(s.ring[b], s.ring[a]);
    }
    forall c, d | c in es && d in es ensures !Clash(c, d) {
      if IdOf(c).Some? && IdOf(c) == IdOf(d) {
        ReplayFaithful(s, r, delivered, c);
        ReplayFaithful(s, r, delivered, d);
      }
    }
  }

  // ---- Which invocations the profile reports, and what it says of them ----

  ghost predicate EntrySeen(delivered: seq<K.Event>, id: u64) {
    exists e :: e in delivered && e.kind == K.ENTRY && e.invocationId == id
  }

  ghost predicate ReturnSeen(delivered: seq<K.Event>, id: u64) {
    exists e :: e in delivered && e.kind == K.RETURN && e.invocationId == id
  }

  /** A delivered violation of the thread falls into the span, both ends included. */
  ghost predicate ViolationSeen(delivered: seq<K.Event>, tid: u32, from: u64, to: u64) {
    exists e :: e in delivered && e.kind == K.VIOLATION && e.tid == tid && from <= e.timestampNs <= to
  }

  lemma BoundariesSeen(s: K.State, r: Request, delivered: seq<K.Event>, id: u64)
    requires Delivered(s, delivered)
    ensures SawEntry(id, Events(r, delivered)) <==> EntrySeen(delivered, id)
    ensures SawReturn(id, Events(r, delivered)) <==> ReturnSeen(delivered, id)
  {
    var es := Events(r, delivered);
    SortedPart(s, delivered);
    if c :| c in es && c.Entry? && c.invocationId == Some(id) {
      var e := Origin(r, delivered, c);
      assert e in delivered && e.kind == K.ENTRY && e.invocationId == id;
    }
    if c :| c in es && c.Return? && c.invocationId == Some(id) {
      var e := Origin(r, delivered, c);
      assert e in delivered && e.kind == K.RETURN && e.invocationId == id;
    }
    if e :| e in delivered && e.kind == K.ENTRY && e.invocationId == id { Replays(r, delivered, e); }
    if e :| e in delivered && e.kind == K.RETURN && e.invocationId == id { Replays(r, delivered, e); }
  }

  lemma {:induction false} ViolationListed(es: seq<C.CollectorEvent>, v: (u32, u64))
    ensures v in ViolationsOf(es) <==> C.Violation(v.0, v.1) in es
  {
    if es != [] {
      ViolationListed(es[..|es| - 1], v);
      assert es == es[..|es| - 1] + [es[|es| - 1]];
    }
  }

  lemma HitSeen(s: K.State, r: Request, delivered: seq<K.Event>, x: C.SourceInvocation)
    requires Delivered(s, delivered) && x.startNs.Some? && x.endNs.Some?
    ensures C.Hit(ViolationsOf(Events(r, delivered)), x)
       <==> ViolationSeen(delivered, x.tid, x.startNs.value, x.endNs.value)
  {
    var es := Events(r, delivered);
    var vs := ViolationsOf(es);
    SortedPart(s, delivered);
    if C.Hit(vs, x) {
      var i :| 0 <= i < |vs| && C.Hits(vs[i], x);
      ViolationListed(es, vs[i]);
      var e := Origin(r, delivered, C.Violation(vs[i].0, vs[i].1));
      assert e in delivered && e.kind == K.VIOLATION;
    }
    if ViolationSeen(delivered, x.tid, x.startNs.value, x.endNs.value) {
      var e :| e in delivered && e.kind == K.VIOLATION && e.tid == x.tid
               && x.startNs.value <= e.timestampNs <= x.endNs.value;
      Replays(r, delivered, e);
      ViolationListed(es, (e.tid, e.timestampNs));
      var i :| 0 <= i < |vs| && vs[i] == (e.tid, e.timestampNs);
      assert C.Hits(vs[i], x);
    }
  }

  function VerdictsOf(r: Request, delivered: seq<K.Event>): map<u64, C.SourceInvocation> {
    Verdicts([r.function_], StartQuality(r), Events(r, delivered))
  }

  /** The verdict on one id, in terms of what was delivered and what really happened. */
  ghost predicate VerdictTrue(lives: map<u64, K.Life>, r: Request, delivered: seq<K.Event>, id: u64,
                              x: C.SourceInvocation) {
    && x.id == id && id in lives && x.tid == lives[id].tid
    && (x.IsReported() <==> EntrySeen(delivered, id))
    && (x.IsComplete() <==> EntrySeen(delivered, id) && ReturnSeen(delivered, id))
    && (x.IsReported() ==>
          && x.startNs == Some(lives[id].startNs)
          && x.functionId == Some(r.function_.id)
          && x.startNs.value <= x.End(r.now)
          && (x.IsComplete() ==> x.endNs.Some? && x.endNs == lives[id].endNs)
          && (x.IsValid(r.now) <==>
                x.IsComplete() && !ViolationSeen(delivered, lives[id].tid, lives[id].startNs, x.End(r.now))))
  }

  lemma {:induction false} VerdictsTrue(s: K.State, r: Request, delivered: seq<K.Event>, id: u64)
    requires Delivered(s, delivered) && id in VerdictsOf(r, delivered)
    ensures VerdictTrue(s.k.lives, r, delivered, id, VerdictsOf(r, delivered)[id])
  {
    var es := Events(r, delivered);
    ReplayConsistent(s, r, delivered);
    PushAllGathers([r.function_], StartQuality(r), es);
    PushAllRecords([r.function_], StartQuality(r), es);
    JudgedTrue(s, r, delivered, id, C.PushAll(Blank([r.function_], StartQuality(r)), es).c.sourceInvocations[id]);
  }

  /** A record that holds what was delivered, once it has been held against the violations. */
  lemma {:induction false} JudgedTrue(s: K.State, r: Request, delivered: seq<K.Event>, id: u64, x: C.SourceInvocation)
    requires Delivered(s, delivered) && RecordOk(x, id, Events(r, delivered)) && Mentioned(id, Events(r, delivered))
    ensures VerdictTrue(s.k.lives, r, delivered, id,
                        x.(valid := x.valid && !C.Hit(ViolationsOf(Events(r, delivered)), x)))
  {
    RecordTrue(s, r, delivered, id, x);
    BoundariesSeen(s, r, delivered, id);
    if x.startNs.Some? && x.endNs.Some? { HitSeen(s, r, delivered, x); }
  }

  lemma {:induction false} RecordTrue(s: K.State, r: Request, delivered: seq<K.Event>, id: u64, x: C.SourceInvocation)
    requires Delivered(s, delivered) && RecordOk(x, id, Events(r, delivered)) && Mentioned(id, Events(r, delivered))
    ensures id in s.k.lives && x.tid == s.k.lives[id].tid
    ensures x.sawEntry ==> x.startNs == Some(s.k.lives[id].startNs)
    ensures x.sawReturn ==> x.endNs.Some? && x.endNs == s.k.lives[id].endNs && s.k.lives[id].startNs <= x.endNs.value
    ensures x.functionId.Some? ==> x.functionId == Some(r.function_.id)
    ensures !Reversed(x)
  {
    var es := Events(r, delivered);
    var c :| c in es && IdOf(c) == Some(id);
    ReplayFaithful(s, r, delivered, c);
    assert Holds(x, c);
    if x.sawEntry {
      var d :| d in es && d.Entry? && d.invocationId == Some(id);
      ReplayFaithful(s, r, delivered, d);
      assert IdOf(d) == Some(id) && Holds(x, d);
    }
    if x.sawReturn {
      var d :| d in es && d.Return? && d.invocationId == Some(id);
      ReplayFaithful(s, r, delivered, d);
      assert IdOf(d) == Some(id) && Holds(x, d);
      assert KI.LifeOk(s.k, id);
    }
  }
}
