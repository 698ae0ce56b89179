/** What every run of the kernel machine keeps, whatever is dropped and however the handlers interleave. */
module KernelInvariant {
  import opened Domain
  import opened Kernel

  // ---- What the emitted events say about the lives ----

  /** Two lives on one thread never overlap: the one with the smaller id ends before the other starts. */
  ghost predicate LivesOrdered(lives: map<u64, Life>) {
    forall i, j | i in lives && j in lives && i < j && lives[i].tid == lives[j].tid ::
      lives[i].endNs.Some? && lives[i].endNs.value <= lives[j].startNs
  }

  /** An event reports what happened to the life it names. */
  ghost predicate Truthful(e: Event, lives: map<u64, Life>) {
    && ENTRY <= e.kind <= OFFCPU
    && (e.kind != VIOLATION ==>
          && e.invocationId in lives
          && lives[e.invocationId].tid == e.tid
          && lives[e.invocationId].startNs <= e.timestampNs)
    && (e.kind == ENTRY ==> e.timestampNs == lives[e.invocationId].startNs)
    && (e.kind == RETURN ==> lives[e.invocationId].endNs == Some(e.timestampNs))
    && (e.kind == OFFCPU ==> lives[e.invocationId].startNs <= e.timestampNs - e.weightNs)
  }

  /** An event of a life is not later than the start of any later life of that thread. */
  ghost predicate Timely(e: Event, lives: map<u64, Life>) {
    e.kind != VIOLATION ==>
      forall j | j in lives && lives[j].tid == e.tid && e.invocationId < j :: e.timestampNs <= lives[j].startNs
  }

  /** The two boundary records of a life are emitted at most once each. */
  predicate SameBoundary(e: Event, f: Event) {
    e.kind == f.kind && (e.kind == ENTRY || e.kind == RETURN) && e.invocationId == f.invocationId
  }

  ghost predicate BoundariesOnce(events: seq<Event>) {
    forall i, j | 0 <= i < j < |events| :: !SameBoundary(events[i], events[j])
  }

  /** Of two off-CPU intervals of one life, `e` closes before `f` opens. */
  predicate Precedes(e: Event, f: Event) {
    e.kind == OFFCPU && f.kind == OFFCPU && e.invocationId == f.invocationId ==>
      e.timestampNs <= f.timestampNs - f.weightNs
  }

  ghost predicate IntervalsOrdered(events: seq<Event>) {
    forall i, j | 0 <= i < j < |events| :: Precedes(events[i], events[j])
  }

  // ---- The invariant, object by object ----

  ghost predicate ActiveOk(k: Tracking, t: u32)
    requires t in k.active
  {
    var id := k.active[t].id;
    && id in k.lives
    && k.lives[id].tid == t
    && k.lives[id].startNs == k.active[t].startNs
    && (k.lives[id].endNs.Some? <==> t in k.progress && k.progress[t].Returned?)
  }

  ghost predicate LifeOk(k: Tracking, id: u64)
    requires id in k.lives
  {
    var life := k.lives[id];
    && id <= k.sequence
    && life.startNs <= k.clock
    && (life.endNs.Some? ==> life.startNs <= life.endNs.value <= k.clock)
    && (life.endNs.None? ==> life.tid in k.active && k.active[life.tid].id == id)
    && (life.tid in k.active ==> id <= k.active[life.tid].id)
    && (life.tid in k.progress && k.progress[life.tid].Entering? && life.tid !in k.active ==>
          life.endNs.Some? && life.endNs.value <= k.progress[life.tid].nowNs)
  }

  ghost predicate ProgressOk(k: Tracking, t: u32)
    requires t in k.progress
  {
    match k.progress[t]
    case Entering(nowNs) => nowNs <= k.clock
    case Registered => t in k.active
    case Returned => t in k.active
    case _ => t !in k.active
  }

  ghost predicate OffcpuOk(k: Tracking, t: u32)
    requires t in k.offcpu
  {
    && k.offcpu[t].timestampNs <= k.clock
    && if t in k.active then k.active[t].startNs <= k.offcpu[t].timestampNs
       else t in k.progress && k.progress[t].Unlinked?
  }

  ghost predicate EventOk(k: Tracking, e: Event) {
    && Truthful(e, k.lives)
    && Timely(e, k.lives)
    && e.timestampNs <= k.clock
    && (e.kind == ENTRY && e.tid in k.active && k.active[e.tid].id == e.invocationId ==>
          e.tid !in k.progress || !k.progress[e.tid].Registered?)
    && (e.kind == OFFCPU && e.tid in k.active && k.active[e.tid].id == e.invocationId && e.tid in k.offcpu ==>
          e.timestampNs <= k.offcpu[e.tid].timestampNs)
    && (e.kind != VIOLATION && e.tid in k.progress && k.progress[e.tid].Entering? && e.tid !in k.active ==>
          e.timestampNs <= k.progress[e.tid].nowNs)
  }

  ghost predicate TrackingOk(k: Tracking) {
    && (forall t | t in k.active :: ActiveOk(k, t))
    && (forall id | id in k.lives :: LifeOk(k, id))
    && (forall t | t in k.progress :: ProgressOk(k, t))
    && (forall t | t in k.offcpu :: OffcpuOk(k, t))
    && LivesOrdered(k.lives)
  }

  ghost predicate EventsOk(k: Tracking, ring: seq<Event>) {
    forall i | 0 <= i < |ring| :: EventOk(k, ring[i])
  }

  ghost predicate Inv(s: State) {
    TrackingOk(s.k) && EventsOk(s.k, s.ring) && BoundariesOnce(s.ring) && IntervalsOrdered(s.ring)
  }

  // ---- What a change of the tracking state keeps: (old, new) pairs, one lemma for each ----

  /** Every event that was acceptable still is. */
  ghost predicate StillOk(k: Tracking, k': Tracking) {
    forall e: Event | EventOk(k, e) :: EventOk(k', e)
  }

  /** The thread's last action was an entry read or an entry record; it now runs freely. */
  lemma IdleKeeps(k: Tracking, tid: u32)
    requires TrackingOk(k) && tid in k.progress && !k.progress[tid].Returned? && !k.progress[tid].Unlinked?
    ensures TrackingOk(Idle(k, tid)) && StillOk(k, Idle(k, tid))
  {
  }

  lemma BeginKeeps(k: Tracking, tid: u32)
    requires TrackingOk(k) && tid !in k.progress
    ensures TrackingOk(k.(progress := k.progress[tid := Entering(k.clock)]))
    ensures StillOk(k, k.(progress := k.progress[tid := Entering(k.clock)]))
  {
    var k' := k.(progress := k.progress[tid := Entering(k.clock)]);
    forall id | id in k'.lives ensures LifeOk(k', id) { assert LifeOk(k, id); }
    forall t | t in k'.active ensures ActiveOk(k', t) { assert ActiveOk(k, t); }
    forall t | t in k'.offcpu ensures OffcpuOk(k', t) { assert OffcpuOk(k, t); }
  }

  /** A fresh id: every life and every event of the thread lies before the new one. */
  lemma RegisterKeeps(k: Tracking, tid: u32)
    requires TrackingOk(k) && tid in k.progress && k.progress[tid].Entering? && tid !in k.active && k.sequence < U64_MAX
    ensures TrackingOk(Register(k, tid, k.progress[tid].nowNs))
  {
    var k' := Register(k, tid, k.progress[tid].nowNs);
    var id := k.sequence + 1;
    forall j | j in k.lives ensures j <= k.sequence { assert LifeOk(k, j); }
    forall t | t in k'.progress ensures ProgressOk(k', t) { assert t != tid ==> ProgressOk(k, t); }
    forall t | t in k'.active ensures ActiveOk(k', t) { assert t != tid ==> ActiveOk(k, t); }
    forall t | t in k'.offcpu ensures OffcpuOk(k', t) { assert OffcpuOk(k, t); }
    RegisterLives(k, tid);
  }

  lemma RegisterLives(k: Tracking, tid: u32)
    requires TrackingOk(k) && tid in k.progress && k.progress[tid].Entering? && tid !in k.active && k.sequence < U64_MAX
    ensures forall j | j in Register(k, tid, k.progress[tid].nowNs).lives ::
              LifeOk(Register(k, tid, k.progress[tid].nowNs), j)
    ensures LivesOrdered(Register(k, tid, k.progress[tid].nowNs).lives)
  {
  }

  lemma RegisterStill(k: Tracking, tid: u32)
    requires TrackingOk(k) && tid in k.progress && k.progress[tid].Entering? && tid !in k.active && k.sequence < U64_MAX
    ensures StillOk(k, Register(k, tid, k.progress[tid].nowNs))
  {
  }

  lemma EndKeeps(k: Tracking, tid: u32)
    requires TrackingOk(k) && tid !in k.progress && tid in k.active
    ensures TrackingOk(End(k, tid))
  {
    var k' := End(k, tid);
    var id := k.active[tid].id;
    assert ActiveOk(k, tid);
    forall t | t in k'.active ensures ActiveOk(k', t) { assert ActiveOk(k, t); }
    forall t | t in k'.offcpu ensures OffcpuOk(k', t) { assert OffcpuOk(k, t); }
    EndLives(k, tid);
  }

  lemma EndLives(k: Tracking, tid: u32)
    requires TrackingOk(k) && tid !in k.progress && tid in k.active
    ensures forall j | j in End(k, tid).lives :: LifeOk(End(k, tid), j)
    ensures LivesOrdered(End(k, tid).lives)
  {
  }

  lemma EndStill(k: Tracking, tid: u32)
    requires TrackingOk(k) && tid !in k.progress && tid in k.active
    ensures StillOk(k, End(k, tid))
  {
  }

  lemma UnlinkKeeps(k: Tracking, tid: u32)
    requires TrackingOk(k) && tid in k.progress && k.progress[tid].Returned?
    ensures TrackingOk(Unlink(k, tid))
  {
    var k' := Unlink(k, tid);
    assert ProgressOk(k, tid);
    UnlinkLives(k, tid);
    forall t | t in k'.active ensures ActiveOk(k', t) { assert ActiveOk(k, t); }
    forall t | t in k'.offcpu ensures OffcpuOk(k', t) { assert OffcpuOk(k, t); }
  }

  lemma UnlinkLives(k: Tracking, tid: u32)
    requires TrackingOk(k) && tid in k.progress && k.progress[tid].Returned? && tid in k.active
    ensures forall j | j in k.lives :: LifeOk(Unlink(k, tid), j)
  {
  }

  lemma UnlinkStill(k: Tracking, tid: u32)
    requires tid in k.progress && k.progress[tid].Returned?
    ensures StillOk(k, Unlink(k, tid))
  {
  }

  lemma ClearKeeps(k: Tracking, tid: u32)
    requires TrackingOk(k) && tid in k.progress && k.progress[tid].Unlinked?
    ensures TrackingOk(Clear(k, tid))
  {
    var k' := Clear(k, tid);
    forall j | j in k'.lives ensures LifeOk(k', j) { assert LifeOk(k, j); }
    forall t | t in k'.active ensures ActiveOk(k', t) { assert ActiveOk(k, t); }
    forall t | t in k'.offcpu ensures OffcpuOk(k', t) { assert OffcpuOk(k, t); }
  }

  lemma ClearStill(k: Tracking, tid: u32)
    requires TrackingOk(k) && tid in k.progress && k.progress[tid].Unlinked?
    ensures StillOk(k, Clear(k, tid))
  {
  }

  /** The clock or the id counter moves on. */
  lemma TimeKeeps(k: Tracking, k': Tracking)
    requires TrackingOk(k) && k'.clock >= k.clock && k'.sequence >= k.sequence
    requires k' == k.(clock := k'.clock, sequence := k'.sequence)
    ensures TrackingOk(k') && StillOk(k, k')
  {
    TimeStill(k, k');
    forall id | id in k'.lives ensures LifeOk(k', id) { assert LifeOk(k, id); }
    forall t | t in k'.offcpu ensures OffcpuOk(k', t) { assert OffcpuOk(k, t); }
  }

  lemma TimeStill(k: Tracking, k': Tracking)
    requires k'.clock >= k.clock && k' == k.(clock := k'.clock, sequence := k'.sequence)
    ensures StillOk(k, k')
  {
  }

  /** An off-CPU interval opens for a linked thread. */
  lemma OpenKeeps(k: Tracking, tid: u32, stackId: StackRef)
    requires TrackingOk(k) && tid in k.active
    ensures TrackingOk(k.(offcpu := k.offcpu[tid := OffStart(k.clock, stackId)]))
    ensures StillOk(k, k.(offcpu := k.offcpu[tid := OffStart(k.clock, stackId)]))
  {
  }

  /** An off-CPU interval is closed. */
  lemma CloseKeeps(k: Tracking, tid: u32)
    requires TrackingOk(k)
    ensures TrackingOk(k.(offcpu := k.offcpu - {tid}))
  {
  }

  lemma CloseStill(k: Tracking, tid: u32)
    ensures StillOk(k, k.(offcpu := k.offcpu - {tid}))
  {
  }

  /** An event of a linked thread at the current clock is the latest of its life, and of its thread. */
  lemma CurrentEventOk(k: Tracking, e: Event)
    requires TrackingOk(k) && e.tid in k.active && e.invocationId == k.active[e.tid].id && e.timestampNs == k.clock
    requires e.kind == SAMPLE || (e.kind == OFFCPU && e.tid !in k.offcpu)
    requires e.kind == OFFCPU ==> k.active[e.tid].startNs <= e.timestampNs - e.weightNs
    ensures EventOk(k, e)
  {
  }

  // ---- Preservation by every action ----

  lemma QuietKeeps(s: State, s': State)
    requires Inv(s) && TrackingOk(s'.k) && StillOk(s.k, s'.k) && s'.ring == s.ring
    ensures Inv(s')
  {
  }

  /** Emitting an event that fits what is already in the ring. */
  lemma EmitKeeps(s: State, ringOk: bool, e: Event)
    requires Inv(s) && EventOk(s.k, e)
    requires forall i | 0 <= i < |s.ring| :: !SameBoundary(s.ring[i], e) && Precedes(s.ring[i], e)
    ensures Inv(Emit(s, ringOk, e))
  {
  }

  /** A nested entry is reported and leaves everything else alone. */
  lemma NestedKeeps(s: State, tid: u32, ringOk: bool, cpu: u32)
    requires Inv(s) && tid in s.k.progress && s.k.progress[tid].Entering?
    ensures Inv(Emit(s.(k := Idle(s.k, tid)), ringOk, Event(VIOLATION, tid, s.k.progress[tid].nowNs, 0, -1, cpu, 0)))
  {
    assert ProgressOk(s.k, tid);
    IdleKeeps(s.k, tid);
    QuietKeeps(s, s.(k := Idle(s.k, tid)));
    EmitKeeps(s.(k := Idle(s.k, tid)), ringOk, Event(VIOLATION, tid, s.k.progress[tid].nowNs, 0, -1, cpu, 0));
  }

  lemma CommitKeeps(s: State, tid: u32, mapOk: bool, ringOk: bool, cpu: u32)
    requires Inv(s) && Enabled(s.k, EntryCommit(tid, mapOk, ringOk, cpu))
    ensures Inv(Commit(s, tid, mapOk, ringOk, cpu))
  {
    if tid in s.k.active {
      NestedKeeps(s, tid, ringOk, cpu);
    } else if mapOk {
      RegisterKeeps(s.k, tid);
      RegisterStill(s.k, tid);
      QuietKeeps(s, s.(k := Register(s.k, tid, s.k.progress[tid].nowNs)));
    } else {
      FailedKeeps(s, tid);
    }
  }

  /** The map is full: only the id is used up. */
  lemma FailedKeeps(s: State, tid: u32)
    requires Inv(s) && tid in s.k.progress && s.k.progress[tid].Entering? && s.k.sequence < U64_MAX
    ensures Inv(s.(k := Idle(s.k.(sequence := s.k.sequence + 1), tid)))
  {
    var k' := s.k.(sequence := s.k.sequence + 1);
    TimeKeeps(s.k, k');
    QuietKeeps(s, s.(k := k'));
    IdleKeeps(k', tid);
    QuietKeeps(s.(k := k'), s.(k := Idle(k', tid)));
  }

  lemma EntryEmitKeeps(s: State, tid: u32, ringOk: bool, cpu: u32)
    requires Inv(s) && Enabled(s.k, EntryEmit(tid, ringOk, cpu))
    ensures Inv(Step(s, EntryEmit(tid, ringOk, cpu), 0))
  {
    var e := Event(ENTRY, tid, s.k.active[tid].startNs, s.k.active[tid].id, -1, cpu, 0);
    var k' := Idle(s.k, tid);
    IdleKeeps(s.k, tid);
    QuietKeeps(s, s.(k := k'));
    assert EventOk(k', e) by {
      assert ActiveOk(k', tid);
      assert LifeOk(k', e.invocationId);
      forall j | j in k'.lives && k'.lives[j].tid == tid ensures j <= e.invocationId { assert LifeOk(k', j); }
    }
    forall i | 0 <= i < |s.ring| ensures !SameBoundary(s.ring[i], e) {
      assert EventOk(s.k, s.ring[i]);
      assert ActiveOk(s.k, tid);
    }
    EmitKeeps(s.(k := k'), ringOk, e);
  }

  lemma LeaveKeeps(s: State, tid: u32, ringOk: bool, cpu: u32)
    requires Inv(s) && Enabled(s.k, ReturnEmit(tid, ringOk, cpu))
    ensures Inv(Leave(s, tid, ringOk, cpu))
  {
    if tid !in s.k.active {
      EmitKeeps(s, ringOk, Event(VIOLATION, tid, s.k.clock, 0, -1, cpu, 0));
    } else {
      var k' := End(s.k, tid);
      var e := Event(RETURN, tid, s.k.clock, s.k.active[tid].id, -1, cpu, 0);
      assert ActiveOk(s.k, tid);
      EndKeeps(s.k, tid);
      EndStill(s.k, tid);
      QuietKeeps(s, s.(k := k'));
      assert EventOk(k', e) by {
        assert LifeOk(k', e.invocationId);
        forall j | j in k'.lives && k'.lives[j].tid == tid ensures j <= e.invocationId { assert LifeOk(k', j); }
      }
      forall i | 0 <= i < |s.ring| ensures !SameBoundary(s.ring[i], e) { assert EventOk(s.k, s.ring[i]); }
      EmitKeeps(s.(k := k'), ringOk, e);
    }
  }

  lemma SampleKeeps(s: State, tid: u32, stackId: StackRef, ringOk: bool, cpu: u32, period: u64)
    requires Inv(s)
    ensures Inv(SampleOnCpu(s, tid, stackId, ringOk, cpu, period))
  {
    if tid in s.k.active && stackId >= 0 {
      var e := Event(SAMPLE, tid, s.k.clock, s.k.active[tid].id, stackId, cpu, period);
      CurrentEventOk(s.k, e);
      EmitKeeps(s, ringOk, e);
    }
  }

  lemma SwitchInKeeps(s: State, nextPid: u32, ringOk: bool, cpu: u32)
    requires Inv(s)
    ensures Inv(SwitchIn(s, nextPid, ringOk, cpu))
  {
    if nextPid in s.traceToBpf {
      var next := s.traceToBpf[nextPid];
      var s1 := s.(k := s.k.(offcpu := s.k.offcpu - {next}));
      CloseKeeps(s.k, next);
      CloseStill(s.k, next);
      QuietKeeps(s, s1);
      if next in s.k.active && next in s.k.offcpu {
        var e := Interval(s.k, next, cpu);
        assert OffcpuOk(s.k, next);
        CurrentEventOk(s1.k, e);
        forall i | 0 <= i < |s.ring| ensures Precedes(s.ring[i], e) {
          assert EventOk(s.k, s.ring[i]);
          assert ActiveOk(s.k, next);
        }
        EmitKeeps(s1, ringOk, e);
      }
    }
  }

  lemma StepKeeps(s: State, a: Action, period: u64)
    requires Inv(s)
    ensures Inv(Step(s, a, period))
  {
    if Enabled(s.k, a) {
      var s' := Step(s, a, period);
      match a
      case Tick(delta) => TimeKeeps(s.k, s'.k); QuietKeeps(s, s');
      case EntryRead(tid) => BeginKeeps(s.k, tid); QuietKeeps(s, s');
      case EntryCommit(tid, mapOk, ringOk, cpu) => CommitKeeps(s, tid, mapOk, ringOk, cpu);
      case EntryEmit(tid, ringOk, cpu) => EntryEmitKeeps(s, tid, ringOk, cpu);
      case ReturnEmit(tid, ringOk, cpu) => LeaveKeeps(s, tid, ringOk, cpu);
      case ReturnUnlink(tid) => UnlinkKeeps(s.k, tid); UnlinkStill(s.k, tid); QuietKeeps(s, s');
      case ReturnClear(tid) => ClearKeeps(s.k, tid); ClearStill(s.k, tid); QuietKeeps(s, s');
      case ReturnForget(tid) => IdleKeeps(s.k, tid); QuietKeeps(s, s');
      case PerfSample(tid, stackId, ringOk, cpu) => SampleKeeps(s, tid, stackId, ringOk, cpu, period);
      case SchedSwitch(current, prevPid, nextPid, stackId, toBpfOk, toTraceOk, offcpuOk, ringOk, cpu) =>
        var out := SwitchOut(s, current, prevPid, stackId, toBpfOk, toTraceOk, offcpuOk);
        if current in s.k.active { OpenKeeps(s.k, current, stackId); }
        QuietKeeps(s, out);
        SwitchInKeeps(out, nextPid, ringOk, cpu);
    }
  }

  /** Every reachable state of the machine satisfies the invariant. */
  lemma {:induction false} RunsKeep(actions: seq<Action>, period: u64)
    ensures Inv(After(actions, period))
  {
    if actions != [] {
      RunsKeep(actions[..|actions| - 1], period);
      StepKeeps(After(actions[..|actions| - 1], period), actions[|actions| - 1], period);
    }
  }
}
