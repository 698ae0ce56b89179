/** When nothing fails and nothing is lost, the profile holds exactly the time that was spent off the CPU. */
module OffcpuExactness {
  import opened Domain
  import opened Sequences
  import opened Kernel
  import opened KernelInvariant
  import opened SwitchedOut
  import C = Collector
  import opened Interning
  import opened Adapter
  import opened EndToEnd
  import opened CapturedProfile
  import opened CaptureTheorems
  import opened OffcpuTime

  // ---- Between whole handlers nothing of a life is later than its end ----

  ghost predicate EndsLast(s: State) {
    forall k | 0 <= k < |s.ring| :: BeforeEnd(s.k.lives, s.ring[k])
  }

  predicate BeforeEnd(lives: map<u64, Life>, e: Event) {
    e.kind != VIOLATION && e.invocationId in lives && lives[e.invocationId].endNs.Some? ==>
      e.timestampNs <= lives[e.invocationId].endNs.value
  }

  /** At most one event is emitted, and it belongs to a life that has not ended. */
  ghost predicate EmitsCurrent(s: State, s': State) {
    && s'.k.lives == s.k.lives
    && (s'.ring == s.ring || exists e :: s'.ring == s.ring + [e] && BeforeEnd(s.k.lives, e))
  }

  lemma {:induction false} CurrentEndsLast(s: State, s': State)
    requires EndsLast(s) && EmitsCurrent(s, s')
    ensures EndsLast(s')
  {
  }

  /** A new life that has not ended bounds nothing. */
  lemma {:induction false} NewLifeEndsLast(s: State, s': State, id: u64, life: Life, e: Event)
    requires EndsLast(s) && life.endNs.None? && s'.k.lives == s.k.lives[id := life]
    requires s'.ring == s.ring + [e] && e.invocationId == id
    ensures EndsLast(s')
  {
  }

  lemma {:induction false} EnterEndsLast(w: Watched, tid: u32, cpu: u32, trace: u32 -> u32, period: u64)
    requires Between(w.s.k) && EndsLast(w.s) && w.s.k.sequence < U64_MAX
    ensures EndsLast(Handle(w.s, Enter(tid, cpu), trace, period))
  {
    var s, s' := w.s, Handle(w.s, Enter(tid, cpu), trace, period);
    EnterResult(s, tid, cpu, trace, period);
    if tid in s.k.active {
      assert s'.ring == s.ring + [Event(VIOLATION, tid, s.k.clock, 0, -1, cpu, 0)];
      CurrentEndsLast(s, s');
    } else {
      var id := s.k.sequence + 1;
      NewLifeEndsLast(s, s', id, Life(tid, s.k.clock, None), Event(ENTRY, tid, s.k.clock, id, -1, cpu, 0));
    }
  }

  lemma {:induction false} ExitEndsLast(w: Watched, tid: u32, cpu: u32, trace: u32 -> u32, period: u64)
    requires Inv(w.s) && Exact(w, trace) && EndsLast(w.s)
    ensures EndsLast(Handle(w.s, Exit(tid, cpu), trace, period))
  {
    var s, s' := w.s, Handle(w.s, Exit(tid, cpu), trace, period);
    ExitResult(s, tid, cpu, trace, period);
    if tid !in s.k.active {
      CurrentEndsLast(s, s');
    } else {
      EndedEndsLast(s, s', s.k.active[tid].id);
    }
  }

  /** A life that ends now ends after all its events. */
  lemma {:induction false} EndedEndsLast(s: State, s': State, id: u64)
    requires EventsOk(s.k, s.ring) && EndsLast(s) && id in s.k.lives
    requires s'.k.lives == s.k.lives[id := s.k.lives[id].(endNs := Some(s.k.clock))]
    requires |s'.ring| == |s.ring| + 1 && s'.ring[..|s.ring|] == s.ring
    requires s'.ring[|s.ring|].invocationId == id && s'.ring[|s.ring|].timestampNs == s.k.clock
    ensures EndsLast(s')
  {
    forall k | 0 <= k < |s.ring| ensures BeforeEnd(s'.k.lives, s'.ring[k]) {
      assert s'.ring[k] == s.ring[k];
      assert EventOk(s.k, s.ring[k]) && BeforeEnd(s.k.lives, s.ring[k]);
    }
  }

  lemma {:induction false} TakeEmits(s: State, tid: u32, stackId: StackRef, cpu: u32, period: u64)
    requires Between(s.k)
    ensures EmitsCurrent(s, Step(s, PerfSample(tid, stackId, true, cpu), period))
  {
  }

  lemma {:induction false} SwitchInEmits(s: State, nextPid: u32, cpu: u32)
    requires forall t | t in s.k.active :: s.k.active[t].id in s.k.lives && s.k.lives[s.k.active[t].id].endNs.None?
    ensures EmitsCurrent(s, SwitchIn(s, nextPid, true, cpu))
  {
  }

  lemma {:induction false} OtherEndsLast(w: Watched, a: Whole, trace: u32 -> u32, period: u64)
    requires Exact(w, trace) && EndsLast(w.s) && (a.Wait? || a.Take? || a.Switch?)
    ensures EndsLast(Handle(w.s, a, trace, period))
  {
    match a
    case Wait(_) =>
    case Take(tid, stackId, cpu) =>
      TakeEmits(w.s, tid, stackId, cpu, period);
      CurrentEndsLast(w.s, Handle(w.s, a, trace, period));
    case Switch(current, next, stackId, cpu) =>
      var out := SwitchOut(w.s, current, trace(current), stackId, true, true, true);
      assert out.ring == w.s.ring && out.k.lives == w.s.k.lives && out.k.active == w.s.k.active;
      SwitchInEmits(out, trace(next), cpu);
      CurrentEndsLast(out, Handle(w.s, a, trace, period));
  }

  lemma {:induction false} AlwaysEndsLast(actions: seq<Whole>, trace: u32 -> u32, period: u64)
    requires Injective(trace)
    ensures EndsLast(WatchAll(actions, trace, period).s)
  {
    if actions != [] {
      var w, a := WatchAll(actions[..|actions| - 1], trace, period), actions[|actions| - 1];
      AlwaysEndsLast(actions[..|actions| - 1], trace, period);
      AlwaysExact(actions[..|actions| - 1], trace, period);
      if Possible(w, a) {
        match a
        case Enter(tid, cpu) => EnterEndsLast(w, tid, cpu, trace, period);
        case Exit(tid, cpu) => ExitEndsLast(w, tid, cpu, trace, period);
        case _ => OtherEndsLast(w, a, trace, period);
      }
    }
  }

  // ---- Sums over what matters ----

  /** Leaving out what weighs nothing leaves the sum. */
  lemma {:induction false} SumSupport<T(!new)>(f: T -> nat, part: seq<T>, whole: seq<T>)
    requires multiset(part) <= multiset(whole)
    requires forall x | f(x) > 0 :: multiset(part)[x] == multiset(whole)[x]
    ensures Sum(f, part) == Sum(f, whole)
    decreases |whole|
  {
    if multiset(part) == multiset(whole) {
      SumReorder(f, part, whole);
    } else {
      var x :| multiset(part)[x] < multiset(whole)[x];
      assert x in multiset(whole);
      var k :| 0 <= k < |whole| && whole[k] == x;
      var rest := whole[..k] + whole[k + 1..];
      Without(whole, k);
      assert multiset(rest) == multiset(whole) - multiset{x};
      SumSupport(f, part, rest);
      SumRemove(f, whole, k);
    }
  }

  /** Of a valid invocation, the profile keeps every off-CPU sample that the ring held. */
  lemma {:induction false} KeptOffExactly(s: State, r: Request, delivered: seq<Event>, i: Invocation)
    requires Delivered(s, delivered) && EndsLast(s) && Symbolized(r.table)
    requires i in Capture(r, delivered).invocations && i.valid
    ensures Sum(KeptOff(i.id, i.endNs), KeptBy(r, delivered))
         == Sum(KeptOff(i.id, i.endNs), AllSamples(Events(r, delivered)))
  {
    var es, f := Events(r, delivered), KeptOff(i.id, i.endNs);
    var kept, whole := KeptBy(r, delivered), AllSamples(es);
    ReplayConsistent(s, r, delivered);
    KeptPart([r.function_], StartQuality(r), es, r.now);
    forall k: Kept | f(k) > 0 ensures multiset(kept)[k] == multiset(whole)[k] {
      SamplesAccounted([r.function_], StartQuality(r), es, r.now, k);
      AllSamplesCount(es, k);
      if k in multiset(whole) { KeepsOff(s, r, delivered, i, k); }
    }
    SumSupport(f, kept, whole);
  }

  lemma {:induction false} KeepsOff(s: State, r: Request, delivered: seq<Event>, i: Invocation, k: Kept)
    requires Delivered(s, delivered) && EndsLast(s) && Symbolized(r.table)
    requires i in Capture(r, delivered).invocations && i.valid
    requires k.invocationId == i.id && C.Sampled(Some(k.invocationId), k.sample) in Events(r, delivered)
    ensures Keeping(VerdictsOf(r, delivered), k, r.now)
  {
    ValidVerdict(s, r, delivered, i);
    var e := Origin(r, delivered, C.Sampled(Some(k.invocationId), k.sample));
    SortedPart(s, delivered);
    assert EventOk(s.k, e);
    PartMember(delivered, s.ring, e);
    var m :| 0 <= m < |s.ring| && s.ring[m] == e;
    assert BeforeEnd(s.k.lives, s.ring[m]);
  }

  /** The verdict behind a valid invocation covers exactly the span of the life. */
  lemma {:induction false} ValidVerdict(s: State, r: Request, delivered: seq<Event>, i: Invocation)
    requires Delivered(s, delivered) && Symbolized(r.table)
    requires i in Capture(r, delivered).invocations && i.valid
    ensures i.id in VerdictsOf(r, delivered) && i.id in s.k.lives
    ensures
      var x := VerdictsOf(r, delivered)[i.id];
      && x.IsReported() && x.IsValid(r.now)
      && x.startNs == Some(s.k.lives[i.id].startNs) && s.k.lives[i.id].endNs == Some(x.End(r.now))
  {
    CaptureForm(s, r, delivered);
    ReportedVerdicts(s, r, delivered);
    var n :| 0 <= n < |ReportedBy(r, delivered)| && ReportedBy(r, delivered)[n] == i;
    assert Reports(VerdictsOf(r, delivered), r.now, ReportedBy(r, delivered)[n]);
    VerdictsTrue(s, r, delivered, i.id);
  }

  /**
   With whole handlers, one-to-one identities, no failure and no loss, in whatever order the records are
   delivered: the off-CPU weights of every valid invocation of the captured profile add up to exactly the
   time that its thread was switched out between its entry and its return.
   */
  lemma {:induction false} OffcpuTimeExact(actions: seq<Whole>, trace: u32 -> u32, period: u64, r: Request,
                                           delivered: seq<Event>, i: Invocation)
    requires Injective(trace) && Symbolized(r.table)
    requires multiset(delivered) == multiset(WatchAll(actions, trace, period).s.ring)
    requires i in Capture(r, delivered).invocations && i.valid
    ensures
      var w := WatchAll(actions, trace, period);
      i.id in w.away && Sum(SampleOff(i.id), Capture(r, delivered).samples) == w.away[i.id]
  {
    var w := WatchAll(actions, trace, period);
    AlwaysExact(actions, trace, period);
    AlwaysEndsLast(actions, trace, period);
    OffcpuExact(actions, trace, period, i.id);
    var s := w.s;
    SamplesOff(s, r, delivered, i);
    KeptOffExactly(s, r, delivered, i);
    AllSamplesOff(Events(r, delivered), i.id, i.endNs);
    SortedPart(s, delivered);
    ReplayedOffAgrees(r, SortEvents(delivered), i.id, i.endNs);
    SumReorder(OffWeight(i.id, i.endNs), SortEvents(delivered), s.ring);
    LifeEnded(s, r, delivered, i);
    AllBeforeEnd(s, i.id, i.endNs);
  }

  lemma {:induction false} LifeEnded(s: State, r: Request, delivered: seq<Event>, i: Invocation)
    requires Delivered(s, delivered) && Symbolized(r.table) && i in Capture(r, delivered).invocations && i.valid
    ensures i.id in s.k.lives && s.k.lives[i.id].endNs == Some(i.endNs)
  {
    InvocationsSound(s, r, delivered);
    var n :| 0 <= n < |Capture(r, delivered).invocations| && Capture(r, delivered).invocations[n] == i;
    assert Sound(s.k.lives, r, delivered, Capture(r, delivered).invocations[n]);
  }

  lemma {:induction false} AllBeforeEnd(s: State, id: u64, until: u64)
    requires EndsLast(s) && id in s.k.lives && s.k.lives[id].endNs == Some(until)
    ensures Sum(OffWeight(id, until), s.ring) == Sum(OffWeight(id, U64_MAX), s.ring)
  {
    forall k | 0 <= k < |s.ring| ensures OffWeight(id, until)(s.ring[k]) == OffWeight(id, U64_MAX)(s.ring[k]) {
      assert BeforeEnd(s.k.lives, s.ring[k]);
    }
    SumAgree(OffWeight(id, until), s.ring, OffWeight(id, U64_MAX), s.ring);
  }
}
