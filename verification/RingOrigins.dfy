/** Where every ring record comes from, and what became of those that are missing. */
module RingOrigins {
  import opened Domain
  import opened Kernel
  import opened KernelInvariant

  // ---- The step that emitted a record ----

  /** The action that is taken as number `n` of a run, and the machine at that moment. */
  function At(actions: seq<Action>, n: nat, period: u64): Tracking
    requires n <= |actions|
  {
    After(actions[..n], period).k
  }

  /** The thread was switched out of the life at step `m`, and its stack was walked then. */
  ghost predicate WentOff(actions: seq<Action>, period: u64, m: int, tid: u32, id: u64, timestampNs: int,
                          stackId: StackRef) {
    && 0 <= m < |actions| && actions[m].SchedSwitch? && actions[m].offcpuOk
    && actions[m].current == tid && actions[m].stackId == stackId
    && var k := At(actions, m, period);
       k.clock == timestampNs && tid in k.active && k.active[tid].id == id
  }

  /** The interval of the record was opened at step `m`, in the life that the record names. */
  ghost predicate OpenedAt(actions: seq<Action>, period: u64, m: int, e: Event) {
    WentOff(actions, period, m, e.tid, e.invocationId, e.timestampNs - e.weightNs, e.stackId)
  }

  /** What step `n` did to emit the record. */
  ghost predicate Emitted(actions: seq<Action>, period: u64, n: int, e: Event)
    requires 0 <= n < |actions|
  {
    var a, k := actions[n], At(actions, n, period);
    if e.kind == ENTRY then
      a == EntryEmit(e.tid, true, e.cpu) && e.stackId == -1 && e.weightNs == 0
    else if e.kind == RETURN then
      a == ReturnEmit(e.tid, true, e.cpu) && e.timestampNs == k.clock && e.stackId == -1 && e.weightNs == 0
    else if e.kind == SAMPLE then
      && a == PerfSample(e.tid, e.stackId, true, e.cpu) && e.stackId >= 0 && e.weightNs == period
      && e.timestampNs == k.clock && e.tid in k.active && k.active[e.tid].id == e.invocationId
    else if e.kind == OFFCPU then
      && a.SchedSwitch? && a.ringOk && a.cpu == e.cpu
      && e.timestampNs == k.clock && e.tid in k.active && k.active[e.tid].id == e.invocationId
      && exists m | 0 <= m <= n :: OpenedAt(actions, period, m, e)
    else
      && e.kind == VIOLATION && e.invocationId == 0 && e.stackId == -1 && e.weightNs == 0
      && if a.EntryCommit? then
           a.tid == e.tid && a.ringOk && a.cpu == e.cpu && e.tid in k.active
           && e.tid in k.progress && k.progress[e.tid] == Entering(e.timestampNs)
         else a == ReturnEmit(e.tid, true, e.cpu) && e.tid !in k.active && e.timestampNs == k.clock
  }

  ghost predicate HasOrigin(actions: seq<Action>, period: u64, e: Event) {
    exists n | 0 <= n < |actions| :: Emitted(actions, period, n, e)
  }

  /** Every open interval of a linked thread was opened in the life that the thread is in. */
  ghost predicate Opened(actions: seq<Action>, period: u64) {
    var k := After(actions, period).k;
    forall t | t in k.offcpu && t in k.active ::
      exists m :: WentOff(actions, period, m, t, k.active[t].id, k.offcpu[t].timestampNs, k.offcpu[t].stackId)
  }

  // ---- More actions change nothing about earlier steps ----

  lemma AtFront(actions: seq<Action>, n: nat, period: u64)
    requires actions != [] && n <= |actions| - 1
    ensures At(actions, n, period) == At(actions[..|actions| - 1], n, period)
  {
    assert actions[..|actions| - 1][..n] == actions[..n];
  }

  lemma {:induction false} WentOffFront(actions: seq<Action>, period: u64, m: int, tid: u32, id: u64, ts: int,
                                        stackId: StackRef)
    requires actions != [] && WentOff(actions[..|actions| - 1], period, m, tid, id, ts, stackId)
    ensures WentOff(actions, period, m, tid, id, ts, stackId)
  {
    AtFront(actions, m, period);
  }

  lemma {:induction false} OriginFront(actions: seq<Action>, period: u64, e: Event)
    requires actions != [] && HasOrigin(actions[..|actions| - 1], period, e)
    ensures HasOrigin(actions, period, e)
  {
    var front := actions[..|actions| - 1];
    var n :| 0 <= n < |front| && Emitted(front, period, n, e);
    AtFront(actions, n, period);
    if e.kind == OFFCPU {
      var m :| 0 <= m <= n && OpenedAt(front, period, m, e);
      WentOffFront(actions, period, m, e.tid, e.invocationId, e.timestampNs - e.weightNs, e.stackId);
      assert OpenedAt(actions, period, m, e);
    }
    assert Emitted(actions, period, n, e);
  }

  // ---- Open intervals ----

  /** An interval of a linked thread that is open after a step was open before, in the same life, or opens in it. */
  ghost predicate OpensNow(k: Tracking, a: Action, k': Tracking, t: u32)
    requires t in k'.offcpu && t in k'.active
  {
    || (t in k.offcpu && t in k.active && k.offcpu[t] == k'.offcpu[t] && k.active[t].id == k'.active[t].id)
    || (a.SchedSwitch? && a.offcpuOk && a.current == t && t in k.active && k.active[t].id == k'.active[t].id
        && k'.offcpu[t] == OffStart(k.clock, a.stackId))
  }

  lemma {:induction false} CommitOpens(s: State, tid: u32, mapOk: bool, ringOk: bool, cpu: u32, t: u32)
    requires TrackingOk(s.k) && Enabled(s.k, EntryCommit(tid, mapOk, ringOk, cpu))
    requires
      var k' := Commit(s, tid, mapOk, ringOk, cpu).k;
      t in k'.offcpu && t in k'.active
    ensures
      var k' := Commit(s, tid, mapOk, ringOk, cpu).k;
      t in s.k.offcpu && t in s.k.active && s.k.offcpu[t] == k'.offcpu[t] && s.k.active[t].id == k'.active[t].id
  {
    assert t in s.k.offcpu ==> OffcpuOk(s.k, t);
  }

  lemma {:induction false} SwitchOpens(s: State, a: Action, period: u64, t: u32)
    requires a.SchedSwitch? && t in Step(s, a, period).k.offcpu && t in Step(s, a, period).k.active
    ensures OpensNow(s.k, a, Step(s, a, period).k, t)
  {
    var out := SwitchOut(s, a.current, a.prevPid, a.stackId, a.toBpfOk, a.toTraceOk, a.offcpuOk);
    assert Step(s, a, period) == SwitchIn(out, a.nextPid, a.ringOk, a.cpu);
    InOpens(out, a.nextPid, a.ringOk, a.cpu, t);
    OutOpens(s, a, t);
  }

  lemma {:induction false} InOpens(out: State, nextPid: u32, ringOk: bool, cpu: u32, t: u32)
    requires t in SwitchIn(out, nextPid, ringOk, cpu).k.offcpu && t in SwitchIn(out, nextPid, ringOk, cpu).k.active
    ensures t in out.k.offcpu && out.k.offcpu[t] == SwitchIn(out, nextPid, ringOk, cpu).k.offcpu[t]
    ensures out.k.active == SwitchIn(out, nextPid, ringOk, cpu).k.active
  {
  }

  lemma {:induction false} OutOpens(s: State, a: Action, t: u32)
    requires a.SchedSwitch?
    requires
      var k := SwitchOut(s, a.current, a.prevPid, a.stackId, a.toBpfOk, a.toTraceOk, a.offcpuOk).k;
      t in k.offcpu && t in k.active
    ensures OpensNow(s.k, a, SwitchOut(s, a.current, a.prevPid, a.stackId, a.toBpfOk, a.toTraceOk, a.offcpuOk).k, t)
  {
  }

  lemma {:induction false} StepOpens(s: State, a: Action, period: u64, t: u32)
    requires Inv(s) && t in Step(s, a, period).k.offcpu && t in Step(s, a, period).k.active
    ensures OpensNow(s.k, a, Step(s, a, period).k, t)
  {
    if Enabled(s.k, a) {
      match a
      case EntryCommit(tid, mapOk, ringOk, cpu) => CommitOpens(s, tid, mapOk, ringOk, cpu, t);
      case SchedSwitch(_, _, _, _, _, _, _, _, _) => SwitchOpens(s, a, period, t);
      case _ => OthersOpen(s, a, period, t);
    }
  }

  lemma {:induction false} OthersOpen(s: State, a: Action, period: u64, t: u32)
    requires !a.EntryCommit? && !a.SchedSwitch?
    requires t in Step(s, a, period).k.offcpu && t in Step(s, a, period).k.active
    ensures t in s.k.offcpu && t in s.k.active
    ensures s.k.offcpu[t] == Step(s, a, period).k.offcpu[t] && s.k.active[t] == Step(s, a, period).k.active[t]
  {
  }

  lemma {:induction false} AlwaysOpened(actions: seq<Action>, period: u64)
    ensures Opened(actions, period)
  {
    if actions != [] {
      var n := |actions| - 1;
      var s, a, k' := After(actions[..n], period), actions[n], After(actions, period).k;
      AlwaysOpened(actions[..n], period);
      RunsKeep(actions[..n], period);
      forall t | t in k'.offcpu && t in k'.active
        ensures exists m :: WentOff(actions, period, m, t, k'.active[t].id, k'.offcpu[t].timestampNs,
                                    k'.offcpu[t].stackId)
      {
        StepOpens(s, a, period, t);
        var id, start := k'.active[t].id, k'.offcpu[t];
        if t in s.k.offcpu && t in s.k.active && s.k.offcpu[t] == start && s.k.active[t].id == id {
          var m :| WentOff(actions[..n], period, m, t, id, start.timestampNs, start.stackId);
          WentOffFront(actions, period, m, t, id, start.timestampNs, start.stackId);
        } else {
          assert WentOff(actions, period, n, t, id, start.timestampNs, start.stackId);
        }
      }
    }
  }

  // ---- Every record has its origin ----

  /** Step `n`, the last one, leaves the ring alone or appends a record that it explains. */
  ghost predicate Appends(actions: seq<Action>, period: u64, ring: seq<Event>, ring': seq<Event>)
    requires actions != []
  {
    ring' == ring || exists e :: ring' == ring + [e] && Emitted(actions, period, |actions| - 1, e)
  }

  lemma {:induction false} SwitchAppends(actions: seq<Action>, period: u64, s: State)
    requires actions != [] && s == After(actions[..|actions| - 1], period) && actions[|actions| - 1].SchedSwitch?
    requires Inv(s) && Opened(actions[..|actions| - 1], period)
    ensures Appends(actions, period, s.ring, Step(s, actions[|actions| - 1], period).ring)
  {
    var a := actions[|actions| - 1];
    var out := SwitchOut(s, a.current, a.prevPid, a.stackId, a.toBpfOk, a.toTraceOk, a.offcpuOk);
    assert out.ring == s.ring && out.k.active == s.k.active && out.k.clock == s.k.clock;
    assert Step(s, a, period) == SwitchIn(out, a.nextPid, a.ringOk, a.cpu);
    if a.ringOk && Closes(out, a.nextPid) {
      CloseExplained(actions, period, s, out, out.traceToBpf[a.nextPid]);
    }
  }

  lemma {:induction false} CloseExplained(actions: seq<Action>, period: u64, s: State, out: State, next: u32)
    requires actions != [] && s == After(actions[..|actions| - 1], period) && actions[|actions| - 1].SchedSwitch?
    requires Inv(s) && Opened(actions[..|actions| - 1], period) && actions[|actions| - 1].ringOk
    requires
      var a := actions[|actions| - 1];
      out == SwitchOut(s, a.current, a.prevPid, a.stackId, a.toBpfOk, a.toTraceOk, a.offcpuOk)
    requires next in out.k.active && next in out.k.offcpu
    ensures Emitted(actions, period, |actions| - 1, Interval(out.k, next, actions[|actions| - 1].cpu))
  {
    var a := actions[|actions| - 1];
    var e := Interval(out.k, next, a.cpu);
    OutStarts(s, a, next);
    var m := SwitchOpened(actions, period, s, out, next);
    OffEmitted(actions, period, m, e);
  }

  lemma {:induction false} OffEmitted(actions: seq<Action>, period: u64, m: nat, e: Event)
    requires m < |actions| && e.kind == OFFCPU && OpenedAt(actions, period, m, e)
    requires
      var a, k := actions[|actions| - 1], At(actions, |actions| - 1, period);
      && a.SchedSwitch? && a.ringOk && a.cpu == e.cpu
      && e.timestampNs == k.clock && e.tid in k.active && k.active[e.tid].id == e.invocationId
    ensures Emitted(actions, period, |actions| - 1, e)
  {
  }

  lemma {:induction false} OutStarts(s: State, a: Action, t: u32)
    requires Inv(s) && a.SchedSwitch?
    ensures
      var k := SwitchOut(s, a.current, a.prevPid, a.stackId, a.toBpfOk, a.toTraceOk, a.offcpuOk).k;
      && k.active == s.k.active && k.clock == s.k.clock
      && (t in k.offcpu ==> k.offcpu[t].timestampNs <= k.clock)
  {
    if t in s.k.offcpu { assert OffcpuOk(s.k, t); }
  }

  /** Which step opened the interval that a switch is about to close: an earlier one, or the switch itself. */
  lemma {:induction false} SwitchOpened(actions: seq<Action>, period: u64, s: State, out: State, t: u32)
    returns (m: nat)
    requires actions != [] && s == After(actions[..|actions| - 1], period) && actions[|actions| - 1].SchedSwitch?
    requires Opened(actions[..|actions| - 1], period)
    requires
      var a := actions[|actions| - 1];
      out == SwitchOut(s, a.current, a.prevPid, a.stackId, a.toBpfOk, a.toTraceOk, a.offcpuOk)
    requires t in out.k.offcpu && t in out.k.active
    ensures m < |actions|
    ensures WentOff(actions, period, m, t, out.k.active[t].id, out.k.offcpu[t].timestampNs, out.k.offcpu[t].stackId)
  {
    var n, a := |actions| - 1, actions[|actions| - 1];
    var id, start := s.k.active[t].id, out.k.offcpu[t];
    if t in s.k.offcpu && s.k.offcpu[t] == start {
      m :| WentOff(actions[..n], period, m, t, id, start.timestampNs, start.stackId);
      WentOffFront(actions, period, m, t, id, start.timestampNs, start.stackId);
    } else {
      m := n;
    }
  }

  lemma {:induction false} StepAppends(actions: seq<Action>, period: u64, s: State)
    requires actions != [] && s == After(actions[..|actions| - 1], period)
    requires Inv(s) && Opened(actions[..|actions| - 1], period)
    ensures Appends(actions, period, s.ring, Step(s, actions[|actions| - 1], period).ring)
  {
    var a := actions[|actions| - 1];
    if Enabled(s.k, a) {
      match a
      case EntryCommit(tid, mapOk, ringOk, cpu) => CommitAppends(actions, period, s, tid, mapOk, ringOk, cpu);
      case EntryEmit(tid, ringOk, cpu) => EntryAppends(actions, period, s, tid, ringOk, cpu);
      case ReturnEmit(tid, ringOk, cpu) => LeaveAppends(actions, period, s, tid, ringOk, cpu);
      case PerfSample(tid, stackId, ringOk, cpu) => SampleAppends(actions, period, s, tid, stackId, ringOk, cpu);
      case SchedSwitch(_, _, _, _, _, _, _, _, _) => SwitchAppends(actions, period, s);
      case _ =>
    }
  }

  lemma {:induction false} CommitAppends(actions: seq<Action>, period: u64, s: State,
                                         tid: u32, mapOk: bool, ringOk: bool, cpu: u32)
    requires actions != [] && s == After(actions[..|actions| - 1], period)
    requires actions[|actions| - 1] == EntryCommit(tid, mapOk, ringOk, cpu) && Enabled(s.k, actions[|actions| - 1])
    ensures Appends(actions, period, s.ring, Commit(s, tid, mapOk, ringOk, cpu).ring)
  {
    if tid in s.k.active && ringOk {
      assert Emitted(actions, period, |actions| - 1, Event(VIOLATION, tid, s.k.progress[tid].nowNs, 0, -1, cpu, 0));
    }
  }

  lemma {:induction false} EntryAppends(actions: seq<Action>, period: u64, s: State, tid: u32, ringOk: bool, cpu: u32)
    requires actions != [] && s == After(actions[..|actions| - 1], period)
    requires actions[|actions| - 1] == EntryEmit(tid, ringOk, cpu) && Enabled(s.k, actions[|actions| - 1])
    ensures Appends(actions, period, s.ring, Step(s, EntryEmit(tid, ringOk, cpu), period).ring)
  {
    var e := Event(ENTRY, tid, s.k.active[tid].startNs, s.k.active[tid].id, -1, cpu, 0);
    if ringOk { assert Emitted(actions, period, |actions| - 1, e); }
  }

  lemma {:induction false} SampleAppends(actions: seq<Action>, period: u64, s: State,
                                         tid: u32, stackId: StackRef, ringOk: bool, cpu: u32)
    requires actions != [] && s == After(actions[..|actions| - 1], period)
    requires actions[|actions| - 1] == PerfSample(tid, stackId, ringOk, cpu)
    ensures Appends(actions, period, s.ring, SampleOnCpu(s, tid, stackId, ringOk, cpu, period).ring)
  {
    if tid in s.k.active && stackId >= 0 && ringOk {
      var e := Event(SAMPLE, tid, s.k.clock, s.k.active[tid].id, stackId, cpu, period);
      assert Emitted(actions, period, |actions| - 1, e);
    }
  }

  lemma {:induction false} LeaveAppends(actions: seq<Action>, period: u64, s: State, tid: u32, ringOk: bool, cpu: u32)
    requires actions != [] && s == After(actions[..|actions| - 1], period)
    requires actions[|actions| - 1] == ReturnEmit(tid, ringOk, cpu)
    ensures Appends(actions, period, s.ring, Leave(s, tid, ringOk, cpu).ring)
  {
    var n := |actions| - 1;
    if ringOk && tid in s.k.active {
      assert Emitted(actions, period, n, Event(RETURN, tid, s.k.clock, s.k.active[tid].id, -1, cpu, 0));
    } else if ringOk {
      assert Emitted(actions, period, n, Event(VIOLATION, tid, s.k.clock, 0, -1, cpu, 0));
    }
  }

  /**
   In every run every record of the ring was emitted by a step that explains it: a sample carries the stack
   that its perf interrupt walked and the sampling period as weight; an off-CPU record carries the stack of the
   switch-out, in the same life, that opened its interval, and the time since then as weight.
   */
  lemma {:induction false} EveryRecordHasOrigin(actions: seq<Action>, period: u64)
    ensures forall e | e in After(actions, period).ring :: HasOrigin(actions, period, e)
  {
    if actions != [] {
      var front := actions[..|actions| - 1];
      var s, s' := After(front, period), After(actions, period);
      EveryRecordHasOrigin(front, period);
      AlwaysOpened(front, period);
      RunsKeep(front, period);
      StepAppends(actions, period, s);
      forall e | e in s'.ring ensures HasOrigin(actions, period, e) {
        if e in s.ring { OriginFront(actions, period, e); }
      }
    }
  }

  /** What follows for the two kinds of samples. */
  lemma {:induction false} SamplesHaveOrigin(actions: seq<Action>, period: u64, e: Event)
    requires e in After(actions, period).ring
    ensures e.kind == SAMPLE ==>
              e.weightNs == period && e.stackId >= 0 &&
              exists n :: 0 <= n < |actions| && actions[n] == PerfSample(e.tid, e.stackId, true, e.cpu)
                          && At(actions, n, period).clock == e.timestampNs
    ensures e.kind == OFFCPU ==> exists m :: OpenedAt(actions, period, m, e)
  {
    EveryRecordHasOrigin(actions, period);
    var n :| 0 <= n < |actions| && Emitted(actions, period, n, e);
  }

  // ---- Translations ----

  /** At step `m` the linked thread went out under this scheduler id, and the translation was stored. */
  ghost predicate Learned(actions: seq<Action>, period: u64, m: int, tid: u32, pid: u32, stored: Action -> bool) {
    && 0 <= m < |actions| && actions[m].SchedSwitch? && stored(actions[m])
    && actions[m].current == tid && actions[m].prevPid == pid && tid in At(actions, m, period).active
  }

  function StoresToBpf(): Action -> bool {
    (a: Action) => a.SchedSwitch? && a.toBpfOk
  }

  function StoresToTrace(): Action -> bool {
    (a: Action) => a.SchedSwitch? && a.toTraceOk
  }

  lemma {:induction false} LearnedFront(actions: seq<Action>, period: u64, m: int, tid: u32, pid: u32,
                                        stored: Action -> bool)
    requires actions != [] && Learned(actions[..|actions| - 1], period, m, tid, pid, stored)
    ensures Learned(actions, period, m, tid, pid, stored)
  {
    AtFront(actions, m, period);
  }

  /** What a step can add to the translation maps. */
  ghost predicate Learns(s: State, a: Action, s': State) {
    && (forall x | x in s'.traceToBpf ::
          (x in s.traceToBpf && s'.traceToBpf[x] == s.traceToBpf[x])
          || (a.SchedSwitch? && a.toBpfOk && a.current in s.k.active
              && x == a.prevPid && s'.traceToBpf[x] == a.current))
    && (forall t | t in s'.bpfToTrace ::
          (t in s.bpfToTrace && s'.bpfToTrace[t] == s.bpfToTrace[t])
          || (a.SchedSwitch? && a.toTraceOk && a.current in s.k.active
              && t == a.current && s'.bpfToTrace[t] == a.prevPid))
  }

  lemma {:induction false} SwitchLearns(s: State, a: Action, period: u64)
    requires a.SchedSwitch?
    ensures Learns(s, a, Step(s, a, period))
  {
    var out := SwitchOut(s, a.current, a.prevPid, a.stackId, a.toBpfOk, a.toTraceOk, a.offcpuOk);
    assert Step(s, a, period) == SwitchIn(out, a.nextPid, a.ringOk, a.cpu);
    assert Step(s, a, period).traceToBpf == out.traceToBpf && Step(s, a, period).bpfToTrace == out.bpfToTrace;
  }

  lemma {:induction false} ForgetLearns(s: State, a: Action, period: u64)
    requires !a.SchedSwitch?
    ensures Learns(s, a, Step(s, a, period))
  {
  }

  lemma {:induction false} StepLearns(s: State, a: Action, period: u64)
    ensures Learns(s, a, Step(s, a, period))
  {
    if a.SchedSwitch? { SwitchLearns(s, a, period); } else { ForgetLearns(s, a, period); }
  }

  /** In every run each translation was learned when the thread, then linked, was switched out under that id. */
  lemma {:induction false} TranslationsHaveOrigin(actions: seq<Action>, period: u64)
    ensures forall x | x in After(actions, period).traceToBpf ::
              exists m :: Learned(actions, period, m, After(actions, period).traceToBpf[x], x, StoresToBpf())
    ensures forall t | t in After(actions, period).bpfToTrace ::
              exists m :: Learned(actions, period, m, t, After(actions, period).bpfToTrace[t], StoresToTrace())
  {
    if actions != [] {
      var n := |actions| - 1;
      var front, a := actions[..n], actions[n];
      var s, s' := After(front, period), After(actions, period);
      TranslationsHaveOrigin(front, period);
      StepLearns(s, a, period);
      forall x | x in s'.traceToBpf
        ensures exists m :: Learned(actions, period, m, s'.traceToBpf[x], x, StoresToBpf())
      {
        if x in s.traceToBpf && s'.traceToBpf[x] == s.traceToBpf[x] {
          var m :| Learned(front, period, m, s'.traceToBpf[x], x, StoresToBpf());
          LearnedFront(actions, period, m, s'.traceToBpf[x], x, StoresToBpf());
        } else {
          assert Learned(actions, period, n, s'.traceToBpf[x], x, StoresToBpf());
        }
      }
      forall t | t in s'.bpfToTrace
        ensures exists m :: Learned(actions, period, m, t, s'.bpfToTrace[t], StoresToTrace())
      {
        if t in s.bpfToTrace && s'.bpfToTrace[t] == s.bpfToTrace[t] {
          var m :| Learned(front, period, m, t, s'.bpfToTrace[t], StoresToTrace());
          LearnedFront(actions, period, m, t, s'.bpfToTrace[t], StoresToTrace());
        } else {
          assert Learned(actions, period, n, t, s'.bpfToTrace[t], StoresToTrace());
        }
      }
    }
  }

  /** The thread that the scheduler id of a switch-in stands for, the outgoing one being known already. */
  function Incoming(s: State, a: Action): Option<u32>
    requires a.SchedSwitch?
  {
    if a.current in s.k.active && a.toBpfOk && a.nextPid == a.prevPid then Some(a.current)
    else if a.nextPid in s.traceToBpf then Some(s.traceToBpf[a.nextPid])
    else None
  }

  /** After a switch the incoming thread has no open interval, whether or not it is still linked. */
  lemma {:induction false} IncomingIsClosed(s: State, a: Action, period: u64)
    requires a.SchedSwitch? && Incoming(s, a).Some?
    ensures Incoming(s, a).value !in Step(s, a, period).k.offcpu
  {
    var out := SwitchOut(s, a.current, a.prevPid, a.stackId, a.toBpfOk, a.toTraceOk, a.offcpuOk);
    assert Step(s, a, period) == SwitchIn(out, a.nextPid, a.ringOk, a.cpu);
    assert a.nextPid in out.traceToBpf && out.traceToBpf[a.nextPid] == Incoming(s, a).value;
  }

  // ---- The books of the transport ----

  /** The step emits a record, if the ring has room. */
  predicate Attempts(s: State, a: Action) {
    match a
    case EntryCommit(tid, _, _, _) => Enabled(s.k, a) && tid in s.k.active
    case EntryEmit(_, _, _) => Enabled(s.k, a)
    case ReturnEmit(_, _, _) => Enabled(s.k, a)
    case PerfSample(tid, stackId, _, _) => tid in s.k.active && stackId >= 0
    case SchedSwitch(current, _, _, _, _, _, offcpuOk, _, _) =>
      var next := Incoming(s, a);
      && next.Some? && next.value in s.k.active
      && (next.value in s.k.offcpu || (offcpuOk && next.value == current))
    case _ => false
  }

  predicate HasRoom(a: Action) {
    match a
    case EntryCommit(_, _, ringOk, _) => ringOk
    case EntryEmit(_, ringOk, _) => ringOk
    case ReturnEmit(_, ringOk, _) => ringOk
    case PerfSample(_, _, ringOk, _) => ringOk
    case SchedSwitch(_, _, _, _, _, _, _, ringOk, _) => ringOk
    case _ => true
  }

  /** A stack walk of a linked thread fails in the step. */
  predicate FailsToWalk(s: State, a: Action) {
    || (a.PerfSample? && a.tid in s.k.active && a.stackId < 0)
    || (a.SchedSwitch? && a.current in s.k.active && a.stackId < 0)
  }

  /** An entry that is not nested uses up an id, also when the map update fails. */
  predicate TakesId(s: State, a: Action) {
    a.EntryCommit? && Enabled(s.k, a) && a.tid !in s.k.active
  }

  /** How many steps of a run are of a kind. */
  function Count(actions: seq<Action>, period: u64, kind: (State, Action) -> bool): nat {
    if actions == [] then 0
    else
      var front := actions[..|actions| - 1];
      Count(front, period, kind) + if kind(After(front, period), actions[|actions| - 1]) then 1 else 0
  }

  function Writes(): (State, Action) -> bool {
    (s: State, a: Action) => Attempts(s, a) && HasRoom(a)
  }

  function Drops(): (State, Action) -> bool {
    (s: State, a: Action) => Attempts(s, a) && !HasRoom(a)
  }

  /** The ring and the counters before and after a step. */
  ghost predicate Booked(s: State, a: Action, s': State) {
    && |s'.ring| == |s.ring| + (if Attempts(s, a) && HasRoom(a) then 1 else 0)
    && s'.droppedEvents == (if Attempts(s, a) && !HasRoom(a) then Bump(s.droppedEvents) else s.droppedEvents)
    && s'.droppedSamples == (if FailsToWalk(s, a) then Bump(s.droppedSamples) else s.droppedSamples)
    && s'.k.sequence == s.k.sequence + (if TakesId(s, a) then 1 else 0)
  }

  lemma {:induction false} SwitchOutBooks(s: State, a: Action)
    requires a.SchedSwitch?
    ensures
      var out := SwitchOut(s, a.current, a.prevPid, a.stackId, a.toBpfOk, a.toTraceOk, a.offcpuOk);
      && out.ring == s.ring && out.droppedEvents == s.droppedEvents
      && out.k.active == s.k.active && out.k.sequence == s.k.sequence
      && out.droppedSamples == (if FailsToWalk(s, a) then Bump(s.droppedSamples) else s.droppedSamples)
  {
  }

  lemma {:induction false} SwitchInBooks(s: State, nextPid: u32, ringOk: bool, cpu: u32)
    ensures
      var s', closes := SwitchIn(s, nextPid, ringOk, cpu), Closes(s, nextPid);
      && |s'.ring| == |s.ring| + (if closes && ringOk then 1 else 0)
      && s'.droppedEvents == (if closes && !ringOk then Bump(s.droppedEvents) else s.droppedEvents)
      && s'.droppedSamples == s.droppedSamples && s'.k.sequence == s.k.sequence
  {
  }

  /** The switch-in finds the thread linked and its interval open. */
  predicate Closes(s: State, nextPid: u32) {
    nextPid in s.traceToBpf && s.traceToBpf[nextPid] in s.k.active && s.traceToBpf[nextPid] in s.k.offcpu
  }

  lemma {:induction false} SwitchAttempts(s: State, a: Action)
    requires a.SchedSwitch?
    ensures Attempts(s, a) <==>
              Closes(SwitchOut(s, a.current, a.prevPid, a.stackId, a.toBpfOk, a.toTraceOk, a.offcpuOk), a.nextPid)
  {
  }

  lemma {:induction false} SwitchBooks(s: State, a: Action, period: u64)
    requires a.SchedSwitch?
    ensures Booked(s, a, Step(s, a, period))
  {
    var out := SwitchOut(s, a.current, a.prevPid, a.stackId, a.toBpfOk, a.toTraceOk, a.offcpuOk);
    SwitchAttempts(s, a);
    SwitchOutBooks(s, a);
    SwitchInBooks(out, a.nextPid, a.ringOk, a.cpu);
    assert Step(s, a, period) == SwitchIn(out, a.nextPid, a.ringOk, a.cpu);
  }

  lemma {:induction false} StepBooks(s: State, a: Action, period: u64)
    ensures Booked(s, a, Step(s, a, period))
  {
    if a.SchedSwitch? { SwitchBooks(s, a, period); }
  }

  lemma BumpCounts(n: nat)
    ensures Bump(n % 0x1_0000_0000_0000_0000) == (n + 1) % 0x1_0000_0000_0000_0000
  {
  }

  /** What a run has counted, in terms of its steps. */
  ghost predicate Books(s: State, written: nat, dropped: nat, failed: nat, taken: nat) {
    && |s.ring| == written
    && s.droppedEvents == dropped % 0x1_0000_0000_0000_0000
    && s.droppedSamples == failed % 0x1_0000_0000_0000_0000
    && s.k.sequence == 1 + taken
  }

  lemma {:induction false} BooksFurther(s: State, a: Action, s': State, written: nat, dropped: nat, failed: nat,
                                        taken: nat)
    requires Books(s, written, dropped, failed, taken) && Booked(s, a, s')
    ensures Books(s', written + (if Attempts(s, a) && HasRoom(a) then 1 else 0),
                  dropped + (if Attempts(s, a) && !HasRoom(a) then 1 else 0),
                  failed + (if FailsToWalk(s, a) then 1 else 0), taken + (if TakesId(s, a) then 1 else 0))
  {
    BumpCounts(dropped);
    BumpCounts(failed);
  }

  /**
   The books of every run: the ring holds one record for each emission that found room, the wrapping drop
   counters have counted the emissions that did not and the failed stack walks, and every entry that was not
   nested has used up one id.
   */
  lemma {:induction false} TransportBooks(actions: seq<Action>, period: u64)
    ensures Books(After(actions, period), Count(actions, period, Writes()), Count(actions, period, Drops()),
                  Count(actions, period, FailsToWalk), Count(actions, period, TakesId))
  {
    if actions != [] {
      var front, a := actions[..|actions| - 1], actions[|actions| - 1];
      TransportBooks(front, period);
      StepBooks(After(front, period), a, period);
      BooksFurther(After(front, period), a, After(actions, period), Count(front, period, Writes()),
                   Count(front, period, Drops()), Count(front, period, FailsToWalk), Count(front, period, TakesId));
    }
  }
}
