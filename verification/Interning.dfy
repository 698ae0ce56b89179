/** Stack interning: one id for one list of frames, and every stored sample finds the frames it came with. */
module Interning {
  import opened Domain
  import opened Collector

  /** A sample of an invocation together with its frames. */
  datatype Kept = Kept(invocationId: u64, sample: Pending)

  /** The frames that a stored sample refers to. */
  function FramesOf(stacks: seq<Stack>, id: u32): seq<Frame> {
    match StackOf(stacks, id)
    case Some(stack) => stack.frames
    case None => []
  }

  function Resolve(stacks: seq<Stack>, x: Sample): Kept {
    Kept(x.invocationId, Pending(x.tid, x.timestampNs, x.cpu, x.state, x.weightNs, FramesOf(stacks, x.stackId)))
  }

  function Resolved(p: Profile): seq<Kept> {
    seq(|p.samples|, i requires 0 <= i < |p.samples| => Resolve(p.stacks, p.samples[i]))
  }

  /** The correlator's index and the profile's stack list describe each other. */
  ghost predicate Interned(c: State, stacks: seq<Stack>) {
    && c.nextStackId == StackId(|stacks|)
    && (forall i | 0 <= i < |stacks| ::
          stacks[i].id == StackId(i) && stacks[i].frames in c.stackIds && c.stackIds[stacks[i].frames] == StackId(i))
    && (forall i, j | 0 <= i < j < |stacks| :: stacks[i].frames != stacks[j].frames)
    && (forall f | f in c.stackIds :: exists i :: 0 <= i < |stacks| && stacks[i].frames == f)
  }

  ghost predicate Referenced(c: State, samples: seq<Sample>) {
    forall i | 0 <= i < |samples| :: samples[i].stackId in c.stackIds.Values
  }

  ghost predicate InternedSession(s: Session) {
    Interned(s.c, s.p.stacks) && Referenced(s.c, s.p.samples)
  }

  /** Ids are positions while they last, so looking an id up gives the stack at that position. */
  lemma {:induction false} Lookup(c: State, stacks: seq<Stack>, frames: seq<Frame>)
    requires Interned(c, stacks) && |stacks| <= U32_MAX && frames in c.stackIds
    ensures FramesOf(stacks, c.stackIds[frames]) == frames
  {
    var i :| 0 <= i < |stacks| && stacks[i].frames == frames;
    LookupAt(stacks, i);
  }

  lemma {:induction false} LookupAt(stacks: seq<Stack>, i: nat)
    requires i < |stacks| && forall k | 0 <= k < |stacks| :: stacks[k].id == k + 1
    ensures StackOf(stacks, stacks[i].id) == Some(stacks[i])
  {
    if i < |stacks| - 1 { LookupAt(stacks[..|stacks| - 1], i); }
  }

  lemma InternKeeps(s: Session, frames: seq<Frame>)
    requires InternedSession(s)
    ensures InternedSession(Intern(s, frames))
    ensures Intern(s, frames).c.stackIds.Keys == s.c.stackIds.Keys + {frames}
    ensures |s.p.stacks| <= |Intern(s, frames).p.stacks|
  {
    var t := Intern(s, frames);
    if frames !in s.c.stackIds {
      NewStack(s.c, t.c, s.p.stacks, frames);
      MoreValues(s.c.stackIds, frames, s.c.nextStackId);
    }
  }

  lemma NewStack(c: State, c': State, stacks: seq<Stack>, frames: seq<Frame>)
    requires Interned(c, stacks) && frames !in c.stackIds && c'.stackIds == c.stackIds[frames := c.nextStackId]
    requires c'.nextStackId == if c.nextStackId < U32_MAX then c.nextStackId + 1 else c.nextStackId
    ensures Interned(c', stacks + [Stack(c.nextStackId, frames)])
  {
    var more := stacks + [Stack(c.nextStackId, frames)];
    forall f | f in c'.stackIds ensures exists i :: 0 <= i < |more| && more[i].frames == f {
      if f == frames {
        assert more[|stacks|].frames == f;
      } else {
        var i :| 0 <= i < |stacks| && stacks[i].frames == f;
        assert more[i].frames == f;
      }
    }
  }

  lemma MoreValues(m: map<seq<Frame>, u32>, frames: seq<Frame>, id: u32)
    requires frames !in m
    ensures m.Values <= m[frames := id].Values
  {
    forall v | v in m.Values ensures v in m[frames := id].Values {
      var f :| f in m && m[f] == v;
      assert f in m[frames := id] && m[frames := id][f] == v;
    }
  }

  /** Interning another stack does not change what an earlier sample refers to. */
  lemma {:induction false} InternResolves(s: Session, frames: seq<Frame>)
    requires InternedSession(s) && |Intern(s, frames).p.stacks| <= U32_MAX
    ensures Resolved(Intern(s, frames).p) == Resolved(s.p)
  {
  }

  /** A stored sample resolves to exactly the frames it arrived with, and the earlier ones still do. */
  lemma {:induction false} AppendResolves(s: Session, id: u64, x: Pending)
    requires InternedSession(s)
    ensures InternedSession(Append(s, id, x))
    ensures Append(s, id, x).c.stackIds.Keys == s.c.stackIds.Keys + {x.frames}
    ensures |s.p.stacks| <= |Append(s, id, x).p.stacks|
    ensures |Append(s, id, x).p.stacks| <= U32_MAX ==> Resolved(Append(s, id, x).p) == Resolved(s.p) + [Kept(id, x)]
  {
    var t := Intern(s, x.frames);
    var u := Append(s, id, x);
    InternKeeps(s, x.frames);
    assert t.c.stackIds[x.frames] in t.c.stackIds.Values;
    if |u.p.stacks| <= U32_MAX {
      InternResolves(s, x.frames);
      Lookup(t.c, t.p.stacks, x.frames);
    }
  }

  // ---- Every session keeps it ----

  /** The event is a local sample that is stored at once. */
  predicate Stores(s: Session, e: CollectorEvent) {
    e.Sampled? && e.invocationId.None? && e.sample.tid in s.c.active && s.c.active[e.sample.tid].valid
  }

  /** No other event touches the stacks or the samples. */
  lemma {:induction false} PushLeaves(s: Session, e: CollectorEvent)
    requires !Stores(s, e)
    ensures Push(s, e).c.stackIds == s.c.stackIds && Push(s, e).c.nextStackId == s.c.nextStackId
    ensures Push(s, e).p.stacks == s.p.stacks && Push(s, e).p.samples == s.p.samples
  {
  }

  lemma {:induction false} PushKeeps(s: Session, e: CollectorEvent)
    requires InternedSession(s)
    ensures InternedSession(Push(s, e))
  {
    if Stores(s, e) {
      var g := s.(p := SampleGenerated(s.p));
      assert InternedSession(g);
      AppendResolves(g, g.c.active[e.sample.tid].id, e.sample);
    } else {
      PushLeaves(s, e);
    }
  }

  lemma {:induction false} PushAllKeeps(s: Session, es: seq<CollectorEvent>)
    requires InternedSession(s)
    ensures InternedSession(PushAll(s, es))
  {
    if es != [] {
      PushAllKeeps(s, es[..|es| - 1]);
      PushKeeps(PushAll(s, es[..|es| - 1]), es[|es| - 1]);
    }
  }

  // ---- What the local mode stores over a stream ----

  /** The sample that an event stores at once. */
  function StoredOne(s: Session, e: CollectorEvent): seq<Kept> {
    if Stores(s, e) then [Kept(s.c.active[e.sample.tid].id, e.sample)] else []
  }

  /** The samples that a stream stores at once, in their order, with the frames they arrive with. */
  function StoredBy(s: Session, es: seq<CollectorEvent>): seq<Kept> {
    if es == [] then []
    else StoredBy(s, es[..|es| - 1]) + StoredOne(PushAll(s, es[..|es| - 1]), es[|es| - 1])
  }

  lemma {:induction false} PushResolves(s: Session, e: CollectorEvent)
    requires InternedSession(s)
    ensures |s.p.stacks| <= |Push(s, e).p.stacks|
    ensures |Push(s, e).p.stacks| <= U32_MAX ==> Resolved(Push(s, e).p) == Resolved(s.p) + StoredOne(s, e)
  {
    if Stores(s, e) {
      var g := s.(p := SampleGenerated(s.p));
      assert InternedSession(g) && Resolved(g.p) == Resolved(s.p);
      AppendResolves(g, g.c.active[e.sample.tid].id, e.sample);
    } else {
      PushLeaves(s, e);
      assert Resolved(Push(s, e).p) == Resolved(s.p);
    }
  }

  /** For every stream of both modes: what was stored resolves to exactly what arrived. */
  lemma {:induction false} PushAllResolves(s: Session, es: seq<CollectorEvent>)
    requires InternedSession(s)
    ensures |s.p.stacks| <= |PushAll(s, es).p.stacks|
    ensures |PushAll(s, es).p.stacks| <= U32_MAX ==> Resolved(PushAll(s, es).p) == Resolved(s.p) + StoredBy(s, es)
  {
    if es != [] {
      var front, e := es[..|es| - 1], es[|es| - 1];
      var t := PushAll(s, front);
      PushAllResolves(s, front);
      PushAllKeeps(s, front);
      PushResolves(t, e);
      var before, stored, one := Resolved(s.p), StoredBy(s, front), StoredOne(t, e);
      assert (before + stored) + one == before + (stored + one);
    }
  }

  lemma {:induction false} CommitKeeps(s: Session, r: SourceInvocation, now: u64, samples: seq<Pending>)
    requires InternedSession(s) && r.IsReported()
    ensures InternedSession(Commit(s, r, now, samples))
  {
    if samples != [] {
      var t := Commit(s, r, now, samples[..|samples| - 1]);
      CommitKeeps(s, r, now, samples[..|samples| - 1]);
      AppendResolves(t, r.id, samples[|samples| - 1]);
    }
  }

  lemma {:induction false} ReportAllKeeps(s: Session, records: map<u64, SourceInvocation>, ids: seq<u64>, now: u64)
    requires InternedSession(s) && forall id | id in ids :: id in records
    ensures InternedSession(ReportAll(s, records, ids, now))
  {
    if ids != [] {
      var t := ReportAll(s, records, ids[..|ids| - 1], now);
      var r := records[ids[|ids| - 1]];
      ReportAllKeeps(s, records, ids[..|ids| - 1], now);
      if r.IsReported() {
        CommitKeeps(t.(p := Conclude(t.p, r.Report(now))), r, now, r.samples);
      }
    }
  }

  lemma {:induction false} AbandonAllStacks(p: Profile, active: map<u32, ActiveInvocation>, order: seq<u32>, now: u64)
    requires forall tid | tid in order :: tid in active
    ensures AbandonAll(p, active, order, now).stacks == p.stacks
    ensures AbandonAll(p, active, order, now).samples == p.samples
  {
    if order != [] { AbandonAllStacks(p, active, order[..|order| - 1], now); }
  }

  /**
   No two stacks share frames; the ids are distinct exactly when there are at most as many as a 32-bit id
   can count, and then run from one upward; every sample refers to a stack.
   */
  ghost predicate StacksProper(p: Profile) {
    && (forall i, j | 0 <= i < j < |p.stacks| :: p.stacks[i].frames != p.stacks[j].frames)
    && ((forall i, j | 0 <= i < j < |p.stacks| :: p.stacks[i].id != p.stacks[j].id) <==> |p.stacks| <= U32_MAX)
    && (|p.stacks| <= U32_MAX ==> forall i | 0 <= i < |p.stacks| :: p.stacks[i].id == i + 1)
    && (forall i | 0 <= i < |p.samples| :: StackOf(p.stacks, p.samples[i].stackId).Some?)
  }

  lemma {:induction false} InternedProper(s: Session)
    requires InternedSession(s)
    ensures StacksProper(s.p)
  {
    var p := s.p;
    if |p.stacks| > U32_MAX {
      assert p.stacks[U32_MAX - 1].id == p.stacks[U32_MAX].id;
    }
    forall i | 0 <= i < |p.samples| ensures StackOf(p.stacks, p.samples[i].stackId).Some? {
      assert p.samples[i].stackId in s.c.stackIds.Values;
      var f :| f in s.c.stackIds && s.c.stackIds[f] == p.samples[i].stackId;
      var k :| 0 <= k < |p.stacks| && p.stacks[k].frames == f;
      Found(p.stacks, k);
    }
  }

  /** For every event stream of both modes and every end of capture. */
  lemma {:induction false} StacksAreInterned(functions: seq<Function>, q: Quality, es: seq<CollectorEvent>, now: u64,
                                             order: seq<u32>)
    requires
      var s := PushAll(Session(DEFAULT, Profile(1, functions, [], [], [], [], q)), es);
      forall tid | tid in order :: tid in s.c.active
    ensures
      var s := PushAll(Session(DEFAULT, Profile(1, functions, [], [], [], [], q)), es);
      StacksProper(Finish(s, now, order))
  {
    var s0 := Session(DEFAULT, Profile(1, functions, [], [], [], [], q));
    PushAllKeeps(s0, es);
    var s := PushAll(s0, es);
    var t := FinishSource(s, now);
    FinishSourceKeeps(s, now);
    InternedProper(t);
    AbandonAllStacks(t.p, s.c.active, order, now);
  }

  lemma {:induction false} Found(stacks: seq<Stack>, k: nat)
    requires k < |stacks|
    ensures StackOf(stacks, stacks[k].id).Some?
  {
    if k < |stacks| - 1 { Found(stacks[..|stacks| - 1], k); }
  }

  lemma {:induction false} FinishSourceKeeps(s: Session, now: u64)
    requires InternedSession(s)
    ensures InternedSession(FinishSource(s, now))
  {
    if s.c.sourceMode {
      var judged := Collector.Judged(s);
      ReportAllKeeps(judged, judged.c.sourceInvocations, SortedIds(judged.c.sourceInvocations.Keys), now);
    }
  }
}
