/**
 The state that the viewer's script starts from: a query laid over the bounds of the capture. Missing
 threads and a missing time are filled in, the time is clamped to the bounds, and a time that the clamp
 leaves empty is reset to the whole capture.
 */
module Loading {
  import opened Domain
  import opened Ranks
  import opened LatencyWindow
  import opened Queries
  import opened QueryTheorems
  import opened Viewer
  import V = Validation

  // ---- The initial state ----

  /** The start and the end of every invocation. */
  function CallTimes(calls: seq<Invocation>): seq<u64> {
    if calls == [] then []
    else CallTimes(calls[..|calls| - 1]) + [calls[|calls| - 1].startNs, calls[|calls| - 1].endNs]
  }

  function SampleTimes(samples: seq<Sample>): seq<u64> {
    seq(|samples|, i requires 0 <= i < |samples| => samples[i].timestampNs)
  }

  function CaptureTimes(p: Profile): seq<u64> {
    CallTimes(p.invocations) + SampleTimes(p.samples)
  }

  function CaptureFrom(p: Profile): nat {
    match Least(CaptureTimes(p))
    case None => 0
    case Some(least) => least
  }

  function CaptureTo(p: Profile): nat {
    match Greatest(CaptureTimes(p))
    case None => 1
    case Some(greatest) => greatest
  }

  /** The bounds of the capture; they are never empty. */
  function Bounds(p: Profile): Window {
    Window(CaptureFrom(p), Max(CaptureFrom(p) + 1, CaptureTo(p)))
  }

  function Clamp(bounds: Window, value: nat): nat {
    Max(bounds.from, Min(bounds.to, value))
  }

  /** The time window of a loaded query. */
  function LoadedTime(bounds: Window, time: Option<TimeRange>): Window {
    var initial := if time.Some? then Window(time.value.fromNs, time.value.toNs) else bounds;
    var clamped := Window(Clamp(bounds, initial.from), Clamp(bounds, initial.to));
    if clamped.from >= clamped.to then bounds else clamped
  }

  /** The threads of the capture, or, if it names none, those of its invocations. */
  function AllThreads(p: Profile): set<u32> {
    if p.threads != [] then set i | 0 <= i < |p.threads| :: p.threads[i].tid
    else set i | 0 <= i < |p.invocations| :: p.invocations[i].tid
  }

  /** The view of a freshly loaded query: no latency window has settled yet. */
  function LoadedView(p: Profile, q: Query): View
    requires q.percentile.Legal()
  {
    View(q.functionId, if q.threads.Some? then q.threads.value else AllThreads(p), LoadedTime(Bounds(p), q.time),
         Asked(q.percentile), None, q.metric)
  }

  // ---- What the bounds bound ----

  lemma {:induction false} TimesListed(calls: seq<Invocation>, i: Invocation)
    requires i in calls
    ensures i.startNs in CallTimes(calls) && i.endNs in CallTimes(calls)
  {
    var front, last := calls[..|calls| - 1], calls[|calls| - 1];
    assert calls == front + [last];
    if i != last { TimesListed(front, i); }
  }

  lemma {:induction false} ExtremesBound(ds: seq<u64>, d: u64)
    requires d in ds
    ensures Least(ds).Some? && Least(ds).value <= d
    ensures Greatest(ds).Some? && d <= Greatest(ds).value
  {
    var front, last := ds[..|ds| - 1], ds[|ds| - 1];
    assert ds == front + [last];
    if d in front { ExtremesBound(front, d); }
  }

  /** No invocation starts outside the bounds, the upper one included. */
  lemma {:induction false} StartsWithin(p: Profile, i: Invocation)
    requires i in p.invocations
    ensures Bounds(p).from <= i.startNs <= Bounds(p).to
  {
    TimesListed(p.invocations, i);
    ExtremesBound(CaptureTimes(p), i.startNs);
  }

  /** The time is that of a start, of an end or of a sample. */
  ghost predicate TimeOf(p: Profile, time: nat) {
    || (exists i :: i in p.invocations && (i.startNs == time || i.endNs == time))
    || exists x :: x in p.samples && x.timestampNs == time
  }

  lemma {:induction false} CallTimeOf(calls: seq<Invocation>, time: u64)
    ensures time in CallTimes(calls) <==> exists i :: i in calls && (i.startNs == time || i.endNs == time)
  {
    if calls != [] {
      var front, last := calls[..|calls| - 1], calls[|calls| - 1];
      CallTimeOf(front, time);
      assert calls == front + [last];
    }
  }

  lemma {:induction false} TimesAre(p: Profile, time: u64)
    ensures time in CaptureTimes(p) <==> TimeOf(p, time)
  {
    CallTimeOf(p.invocations, time);
    if time in SampleTimes(p.samples) {
      var n :| 0 <= n < |p.samples| && SampleTimes(p.samples)[n] == time;
      assert p.samples[n] in p.samples;
    }
    if x :| x in p.samples && x.timestampNs == time {
      var n :| 0 <= n < |p.samples| && p.samples[n] == x;
      assert SampleTimes(p.samples)[n] == time;
    }
  }

  /**
   Every start, end and sample time lies within the bounds, the lower one is one of them, and so is the upper
   one unless they are all equal, when it is the next; without any the bounds are 0 and 1.
   */
  lemma {:induction false} BoundsAre(p: Profile)
    ensures forall time: u64 | TimeOf(p, time) :: Bounds(p).from <= time <= Bounds(p).to
    ensures (exists time: u64 :: TimeOf(p, time)) ==>
              TimeOf(p, Bounds(p).from)
              && (TimeOf(p, Bounds(p).to) ||
                  (Bounds(p).to == Bounds(p).from + 1 && forall time: u64 | TimeOf(p, time) :: time == Bounds(p).from))
    ensures (!exists time: u64 :: TimeOf(p, time)) ==> Bounds(p) == Window(0, 1)
  {
    var times := CaptureTimes(p);
    forall time: u64 ensures time in times <==> TimeOf(p, time) { TimesAre(p, time); }
    forall time | time in times ensures CaptureFrom(p) <= time <= CaptureTo(p) { ExtremesBound(times, time); }
    if times != [] {
      ExtremesAttained(times);
      assert times[0] in times;
    }
  }

  lemma {:induction false} ExtremesAttained(ds: seq<u64>)
    requires ds != []
    ensures Least(ds).Some? && Least(ds).value in ds
    ensures Greatest(ds).Some? && Greatest(ds).value in ds
  {
    if |ds| > 1 { ExtremesAttained(ds[..|ds| - 1]); }
  }

  /** The loaded time: the part of the asked time inside the bounds, and all of them if there is none. */
  lemma LoadedTimeIs(bounds: Window, time: Option<TimeRange>)
    requires bounds.from < bounds.to && (time.Some? ==> time.value.fromNs < time.value.toNs)
    ensures
      var loaded := LoadedTime(bounds, time);
      && bounds.from <= loaded.from < loaded.to <= bounds.to
      && (time == None ==> loaded == bounds)
      && (time.Some? && (bounds.to <= time.value.fromNs || time.value.toNs <= bounds.from) ==> loaded == bounds)
      && (time.Some? && time.value.fromNs < bounds.to && bounds.from < time.value.toNs ==>
            && (loaded.from == time.value.fromNs || (time.value.fromNs < bounds.from && loaded.from == bounds.from))
            && (loaded.to == time.value.toNs || (bounds.to < time.value.toNs && loaded.to == bounds.to)))
  {
  }

  // ---- The population ----

  /** The invocation is asked for, whatever its time. */
  predicate Wanted(q: Query, i: Invocation) {
    i.functionId == q.functionId && i.Counted() && (q.threads.Some? ==> i.tid in q.threads.value)
  }

  predicate LegalQuery(q: Query) {
    q.percentile.Legal() && LegalTime(q)
  }

  /** The asked time, if there is one, has a part inside the bounds. */
  predicate Overlaps(bounds: Window, time: Option<TimeRange>) {
    time.Some? ==> time.value.fromNs < bounds.to && bounds.from < time.value.toNs
  }

  /** The asked time admits the end of the capture. */
  predicate ReachesEnd(bounds: Window, time: Option<TimeRange>) {
    time.Some? ==> time.value.fromNs <= bounds.to < time.value.toNs
  }

  lemma {:induction false} ShownIs(p: Profile, q: Query, i: Invocation)
    requires V.WellFormed(p) && q.percentile.Legal() && i in p.invocations
    ensures Shown(LoadedView(p, q), i)
       <==> Wanted(q, i) && LoadedTime(Bounds(p), q.time).from <= i.startNs < LoadedTime(Bounds(p), q.time).to
  {
    ThreadKnown(p, i);
  }

  lemma {:induction false} ThreadKnown(p: Profile, i: Invocation)
    requires V.WellFormed(p) && i in p.invocations
    ensures i.tid in AllThreads(p)
  {
    var k :| 0 <= k < |p.invocations| && p.invocations[k] == i;
    assert V.InvocationOk(p, p.invocations[k]);
    var n :| 0 <= n < |p.threads| && V.ThreadIds(p.threads)[n] == i.tid;
    assert p.threads[n].tid == i.tid;
  }

  /** An overlapping time admits what the query's does, but for the end of the capture. */
  lemma WindowAdmits(bounds: Window, time: Option<TimeRange>, start: u64)
    requires bounds.from < bounds.to && bounds.from <= start <= bounds.to
    requires time.Some? ==> time.value.fromNs < time.value.toNs
    ensures
      var loaded := LoadedTime(bounds, time);
      && (Overlaps(bounds, time) ==>
            (loaded.from <= start < loaded.to <==>
             (time.Some? ==> time.value.ContainsStart(start)) && start != bounds.to))
      && (!Overlaps(bounds, time) ==> (loaded.from <= start < loaded.to <==> start != bounds.to))
      && (!Overlaps(bounds, time) && time.value.ContainsStart(start) ==> start == bounds.to)
  {
  }

  /** If the times overlap, the viewer shows what is eligible and does not start at the end of the capture. */
  lemma {:induction false} ShownOverlapping(p: Profile, q: Query, i: Invocation)
    requires V.WellFormed(p) && LegalQuery(q) && Overlaps(Bounds(p), q.time) && i in p.invocations
    ensures Shown(LoadedView(p, q), i) <==> Eligible(q, i) && i.startNs != Bounds(p).to
  {
    ShownIs(p, q, i);
    StartsWithin(p, i);
    WindowAdmits(Bounds(p), q.time, i.startNs);
  }

  /** Otherwise it shows everything that does not start there, and the query has nothing but what does. */
  lemma {:induction false} ShownApart(p: Profile, q: Query, i: Invocation)
    requires V.WellFormed(p) && LegalQuery(q) && !Overlaps(Bounds(p), q.time) && i in p.invocations
    ensures Shown(LoadedView(p, q), i) <==> Wanted(q, i) && i.startNs != Bounds(p).to
    ensures Eligible(q, i) ==> i.startNs == Bounds(p).to
  {
    ShownIs(p, q, i);
    StartsWithin(p, i);
    WindowAdmits(Bounds(p), q.time, i.startNs);
  }

  /**
   The condition on the asked time and the starts of the asked invocations under which loading keeps the
   population: the asked time overlaps the capture, or nothing that is asked for starts before its end; and
   nothing that is asked for starts at that end, or the asked time does not reach it.
   */
  ghost predicate PopulationKept(p: Profile, q: Query) {
    var bounds := Bounds(p);
    && (Overlaps(bounds, q.time) || forall i | i in p.invocations && Wanted(q, i) :: i.startNs == bounds.to)
    && (!ReachesEnd(bounds, q.time) || forall i | i in p.invocations && Wanted(q, i) :: i.startNs != bounds.to)
  }

  lemma {:induction false} ShownMembers(w: View, calls: seq<Invocation>)
    ensures forall i :: i in ShownOf(w, calls) <==> i in calls && Shown(w, i)
  {
    if calls != [] {
      ShownMembers(w, calls[..|calls| - 1]);
      assert calls == calls[..|calls| - 1] + [calls[|calls| - 1]];
    }
  }

  lemma {:induction false} SameFilter(w: View, q: Query, calls: seq<Invocation>)
    requires forall i | i in calls :: Shown(w, i) <==> Eligible(q, i)
    ensures ShownOf(w, calls) == EligibleOf(q, calls)
  {
    if calls != [] {
      assert calls[|calls| - 1] in calls && forall i | i in calls[..|calls| - 1] :: i in calls;
      SameFilter(w, q, calls[..|calls| - 1]);
    }
  }

  /** One invocation is shown exactly when it is eligible, or the condition fails for it. */
  lemma {:induction false} KeptFor(p: Profile, q: Query, i: Invocation)
    requires V.WellFormed(p) && LegalQuery(q) && i in p.invocations
    ensures
      var bounds := Bounds(p);
      (Shown(LoadedView(p, q), i) <==> Eligible(q, i)) <==>
      (Wanted(q, i) ==>
         && (Overlaps(bounds, q.time) || i.startNs == bounds.to)
         && (!ReachesEnd(bounds, q.time) || i.startNs != bounds.to))
  {
    StartsWithin(p, i);
    if Overlaps(Bounds(p), q.time) { ShownOverlapping(p, q, i); } else { ShownApart(p, q, i); }
  }

  /** The viewer shows exactly the population of the query if and only if the condition holds. */
  lemma {:induction false} LoadingKeepsPopulation(p: Profile, q: Query)
    requires V.WellFormed(p) && LegalQuery(q)
    ensures ShownOf(LoadedView(p, q), p.invocations) == EligibleOf(q, p.invocations) <==> PopulationKept(p, q)
  {
    var w := LoadedView(p, q);
    ShownMembers(w, p.invocations);
    EligibleMembers(q, p.invocations);
    forall i | i in p.invocations
      ensures (Shown(w, i) <==> Eligible(q, i)) <==>
              (Wanted(q, i) ==>
                 && (Overlaps(Bounds(p), q.time) || i.startNs == Bounds(p).to)
                 && (!ReachesEnd(Bounds(p), q.time) || i.startNs != Bounds(p).to))
    {
      KeptFor(p, q, i);
    }
    if PopulationKept(p, q) { SameFilter(w, q, p.invocations); }
  }
}
