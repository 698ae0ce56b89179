/** Queries on captured profiles. */
module EndToEndQueries {
  import opened Domain
  import opened Sequences
  import opened Sorting
  import K = Kernel
  import KI = KernelInvariant
  import C = Collector
  import opened Interning
  import opened SourceMode
  import OI = OrderIndependence
  import opened Adapter
  import opened EndToEnd
  import opened CaptureTheorems
  import opened OffcpuTime
  import opened Queries
  import opened QueryTheorems
  import opened QueryIndependence

  // ---- Off-CPU time ----

  function AnyOff(ids: set<u64>): Sample -> nat {
    (x: Sample) => if x.invocationId in ids && x.state.OffCpu? then x.weightNs else 0
  }

  lemma {:induction false} HitsOff(l: Lens, samples: seq<Sample>)
    ensures Sum(OffWeight, Hits(l, samples)) <= Sum(AnyOff(l.ids), samples)
  {
    if samples != [] {
      var front, x := samples[..|samples| - 1], samples[|samples| - 1];
      HitsOff(l, front);
      if HitOf(l, x).Some? { SumSnoc(OffWeight, Hits(l, front), HitOf(l, x).value); }
    }
  }

  /** The off-CPU time of one invocation's samples. */
  function OffOf(samples: seq<Sample>): Invocation -> nat {
    (i: Invocation) => Sum(SampleOff(i.id), samples)
  }

  function DurationOf(i: Invocation): nat {
    i.Duration()
  }

  lemma {:induction false} OffSplits(selected: seq<Invocation>, samples: seq<Sample>)
    ensures Sum(AnyOff(IdSet(selected)), samples) <= Sum(OffOf(samples), selected)
  {
    if selected == [] {
      assert IdSet(selected) == {};
      NoOff(samples);
    } else {
      var front, i := selected[..|selected| - 1], selected[|selected| - 1];
      OffSplits(front, samples);
      forall id | id in IdSet(selected) ensures id in IdSet(front) || id == i.id {
        var k :| 0 <= k < |selected| && selected[k].id == id;
        if k < |front| { assert front[k].id == id; }
      }
      SumBelow(AnyOff(IdSet(selected)), AnyOff(IdSet(front)), SampleOff(i.id), samples);
    }
  }

  lemma {:induction false} NoOff(samples: seq<Sample>)
    ensures Sum(AnyOff({}), samples) == 0
  {
    if samples != [] { NoOff(samples[..|samples| - 1]); }
  }

  lemma {:induction false} SumRises<T>(f: T -> nat, g: T -> nat, s: seq<T>)
    requires forall x | x in s :: f(x) <= g(x)
    ensures Sum(f, s) <= Sum(g, s)
  {
    if s != [] {
      assert s[|s| - 1] in s && forall x | x in s[..|s| - 1] :: x in s;
      SumRises(f, g, s[..|s| - 1]);
    }
  }

  /**
   For every run, every loss, every delivery order and every query: the off-CPU time that the query reports
   is at most the total duration of the invocations it selects.
   */
  lemma {:induction false} QueriedOffcpuBounded(actions: seq<K.Action>, period: u64, r: Request,
                                                delivered: seq<K.Event>, q: Query)
    requires multiset(delivered) <= multiset(K.After(actions, period).ring) && Symbolized(r.table)
    requires q.percentile.Legal()
    ensures
      var p := Capture(r, delivered);
      Report(p, q).offCpuNs <= Sum(DurationOf, Selected(q, p.invocations))
  {
    var p := Capture(r, delivered);
    var selected := Selected(q, p.invocations);
    HitsOff(LensOf(p, q), p.samples);
    OffSplits(selected, p.samples);
    CandidatesAre(q, p.invocations);
    forall i | i in selected ensures OffOf(p.samples)(i) <= DurationOf(i) {
      assert i in Candidates(q, p.invocations);
      OffcpuWithinDuration(actions, period, r, delivered, i);
    }
    SumRises(OffOf(p.samples), DurationOf, selected);
  }

  // ---- Delivery order ----

  function Replaying(r: Request): K.Event -> Option<C.CollectorEvent> {
    (e: K.Event) => Some(Translate(e, r.function_, r.table))
  }

  lemma {:induction false} TranslatePicks(r: Request, events: seq<K.Event>)
    ensures TranslateAll(events, r.function_, r.table) == Pick(Replaying(r), events)
  {
    if events != [] {
      TranslatePicks(r, events[..|events| - 1]);
    }
  }

  lemma {:induction false} EventsReorder(r: Request, a: seq<K.Event>, b: seq<K.Event>)
    requires multiset(a) == multiset(b)
    ensures multiset(Events(r, a)) == multiset(Events(r, b))
  {
    SortMembers(EventLe, a);
    SortMembers(EventLe, b);
    TranslatePicks(r, SortEvents(a));
    TranslatePicks(r, SortEvents(b));
    PickReorder(Replaying(r), SortEvents(a), SortEvents(b));
  }

  lemma {:induction false} CapturesReorder(s: K.State, r: Request, a: seq<K.Event>, b: seq<K.Event>)
    requires Delivered(s, a) && multiset(a) == multiset(b) && Symbolized(r.table)
    ensures Capture(r, a).invocations == Capture(r, b).invocations
    ensures Capture(r, a).quality == Capture(r, b).quality
    ensures multiset(Resolved(Capture(r, a))) == multiset(Resolved(Capture(r, b)))
  {
    ReplayConsistent(s, r, a);
    ReplayConsistent(s, r, b);
    EventsReorder(r, a, b);
    PushAllGathers([r.function_], StartQuality(r), Events(r, a));
    PushAllGathers([r.function_], StartQuality(r), Events(r, b));
    OI.DeliveryOrderIrrelevant([r.function_], StartQuality(r), Events(r, a), Events(r, b), r.now, [], []);
    CaptureForm(s, r, a);
    CaptureForm(s, r, b);
    CaptureResolves(r, a);
    CaptureResolves(r, b);
  }

  /** Naming the threads and raising a counter leave the samples and their stacks alone. */
  lemma {:induction false} CaptureResolves(r: Request, delivered: seq<K.Event>)
    ensures Resolved(Capture(r, delivered)) == Resolved(C.Finish(Replayed(r, delivered), r.now, []))
    ensures Capture(r, delivered).stacks == C.Finish(Replayed(r, delivered), r.now, []).stacks
  {
  }

  /** For every run and every query: the answer on the captured profile does not depend on the delivery order. */
  lemma {:induction false} DeliveryOrderInvisible(actions: seq<K.Action>, period: u64, r: Request,
                                                  a: seq<K.Event>, b: seq<K.Event>, q: Query)
    requires multiset(a) == multiset(b) && multiset(a) <= multiset(K.After(actions, period).ring)
    requires Symbolized(r.table)
    ensures Answer(Capture(r, a), q) == Answer(Capture(r, b), q)
  {
    var s := K.After(actions, period);
    KI.RunsKeep(actions, period);
    CapturesReorder(s, r, a, b);
    CaptureForm(s, r, a);
    CaptureForm(s, r, b);
    NumberingIrrelevant(Capture(r, a), Capture(r, b), q);
  }
}
