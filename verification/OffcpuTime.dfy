/** The off-CPU time of a captured invocation never exceeds its duration. */
module OffcpuTime {
  import opened Domain
  import opened Sequences
  import K = Kernel
  import KI = KernelInvariant
  import SO = SwitchedOut
  import C = Collector
  import opened Interning
  import opened Adapter
  import opened EndToEnd
  import opened CapturedProfile
  import opened CaptureTheorems

  /** The off-CPU time that a stored sample adds to an invocation. */
  function SampleOff(id: u64): Sample -> nat {
    (x: Sample) => if x.invocationId == id && x.state.OffCpu? then x.weightNs else 0
  }

  function KeptOff(id: u64, until: int): Kept -> nat {
    (k: Kept) =>
      if k.invocationId == id && k.sample.state.OffCpu? && k.sample.timestampNs <= until then k.sample.weightNs else 0
  }

  function ReplayedOff(id: u64, until: int): C.CollectorEvent -> nat {
    (c: C.CollectorEvent) =>
      if c.Sampled? && c.invocationId == Some(id) && c.sample.state.OffCpu? && c.sample.timestampNs <= until
      then c.sample.weightNs else 0
  }

  lemma {:induction false} AllSamplesOff(es: seq<C.CollectorEvent>, id: u64, until: int)
    ensures Sum(KeptOff(id, until), AllSamples(es)) == Sum(ReplayedOff(id, until), es)
  {
    if es != [] {
      var front, e := es[..|es| - 1], es[|es| - 1];
      AllSamplesOff(front, id, until);
      if e.Sampled? && e.invocationId.Some? {
        SumSnoc(KeptOff(id, until), AllSamples(front), Kept(e.invocationId.value, e.sample));
      }
    }
  }

  lemma {:induction false} ReplayedOffAgrees(r: Request, sorted: seq<K.Event>, id: u64, until: int)
    requires forall e | e in sorted :: K.ENTRY <= e.kind <= K.OFFCPU
    ensures Sum(ReplayedOff(id, until), TranslateAll(sorted, r.function_, r.table))
         == Sum(SO.OffWeight(id, until), sorted)
  {
    var es := TranslateAll(sorted, r.function_, r.table);
    forall n | 0 <= n < |sorted| ensures ReplayedOff(id, until)(es[n]) == SO.OffWeight(id, until)(sorted[n]) {
      assert sorted[n] in sorted;
      assert es[n] == Translate(sorted[n], r.function_, r.table);
    }
    SumAgree(ReplayedOff(id, until), es, SO.OffWeight(id, until), sorted);
  }

  /** Of the kept samples, no more off-CPU time belongs to a life than its records in the ring allow. */
  lemma {:induction false} KeptOffBound(s: K.State, r: Request, delivered: seq<K.Event>, id: u64, until: int)
    requires Delivered(s, delivered) && id in s.k.lives
    ensures Sum(KeptOff(id, until), KeptBy(r, delivered)) <= Max(0, until - s.k.lives[id].startNs)
  {
    var sorted, es := SortEvents(delivered), Events(r, delivered);
    ReplayConsistent(s, r, delivered);
    KeptPart([r.function_], StartQuality(r), es, r.now);
    SumPart(KeptOff(id, until), KeptBy(r, delivered), AllSamples(es));
    AllSamplesOff(es, id, until);
    SortedPart(s, delivered);
    ReplayedOffAgrees(r, sorted, id, until);
    SO.OffcpuBound(s, sorted, id, until);
  }

  /** The stored samples of a valid invocation all lie before its end. */
  lemma {:induction false} SamplesOff(s: K.State, r: Request, delivered: seq<K.Event>, i: Invocation)
    requires Delivered(s, delivered) && Symbolized(r.table) && i in Capture(r, delivered).invocations
    ensures Sum(SampleOff(i.id), Capture(r, delivered).samples) == Sum(KeptOff(i.id, i.endNs), KeptBy(r, delivered))
  {
    var p, kept := Capture(r, delivered), KeptBy(r, delivered);
    CaptureForm(s, r, delivered);
    forall n | 0 <= n < |p.samples| ensures SampleOff(i.id)(p.samples[n]) == KeptOff(i.id, i.endNs)(kept[n]) {
      assert kept[n] == Resolved(p)[n] == Resolve(p.stacks, p.samples[n]);
      if kept[n].invocationId == i.id { KeptEarly(s, r, delivered, i, kept[n]); }
    }
    SumAgree(SampleOff(i.id), p.samples, KeptOff(i.id, i.endNs), kept);
  }

  lemma {:induction false} KeptEarly(s: K.State, r: Request, delivered: seq<K.Event>, i: Invocation, k: Kept)
    requires Delivered(s, delivered) && Symbolized(r.table) && i in Capture(r, delivered).invocations
    requires k in KeptBy(r, delivered) && k.invocationId == i.id
    ensures k.sample.timestampNs <= i.endNs
  {
    KeptWithin(s, r, delivered, k);
    InvocationsSound(s, r, delivered);
    var p := Capture(r, delivered);
    var n :| 0 <= n < |p.invocations| && KeptIn(k, p.invocations[n]);
    var m :| 0 <= m < |p.invocations| && p.invocations[m] == i;
    assert p.invocations[n].id == p.invocations[m].id;
    assert n == m;
  }

  /**
   In every run, whatever is lost and in whatever order the rest is delivered: the off-CPU weights of an
   invocation of the captured profile add up to at most its duration.
   */
  lemma {:induction false} OffcpuWithinDuration(actions: seq<K.Action>, period: u64, r: Request,
                                                delivered: seq<K.Event>, i: Invocation)
    requires multiset(delivered) <= multiset(K.After(actions, period).ring) && Symbolized(r.table)
    requires i in Capture(r, delivered).invocations
    ensures Sum(SampleOff(i.id), Capture(r, delivered).samples) <= i.Duration()
  {
    var s := K.After(actions, period);
    KI.RunsKeep(actions, period);
    InvocationsSound(s, r, delivered);
    SamplesOff(s, r, delivered, i);
    var n :| 0 <= n < |Capture(r, delivered).invocations| && Capture(r, delivered).invocations[n] == i;
    assert Sound(s.k.lives, r, delivered, Capture(r, delivered).invocations[n]);
    KeptOffBound(s, r, delivered, i.id, i.endNs);
  }
}
