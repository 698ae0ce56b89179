/**
 The kernel-side transport as a step machine.

 Four handlers (function entry, function return, perf sample, scheduler switch) run for many threads
 over shared maps and a lossy ring. The entry and return handlers are split wherever another handler can
 fire between two of their effects; every split point is a value of `Progress`. A perf sample and a
 scheduler switch are one step each. Steps happen at a clock that never goes back. Failing map updates,
 failing stack walks and ring drops are choices made by the action.
 */
module Kernel {
  import opened Domain

  const ENTRY: u32 := 1
  const RETURN: u32 := 2
  const SAMPLE: u32 := 3
  const VIOLATION: u32 := 4
  const OFFCPU: u32 := 5

  /** Slots of the kernel's stack map: a successful stack walk answers a smaller index. */
  const STACK_SLOTS: int := 32768

  /** What `bpf_get_stackid` may answer: a slot, or a negative error. */
  type StackRef = x: int | -0x8000_0000 <= x < STACK_SLOTS

  datatype Event = Event(
    kind: u32, tid: u32, timestampNs: u64, invocationId: u64,
    stackId: StackRef, cpu: u32, weightNs: u64)

  datatype Active = Active(id: u64, startNs: u64)

  datatype OffStart = OffStart(timestampNs: u64, stackId: StackRef)

  /** How far a thread is inside its own entry or return handler; absent when it is in neither. */
  datatype Progress =
    | Entering(nowNs: u64)  // clock read, `active_by_tid` not yet consulted
    | Registered            // in `active_by_tid`, ENTRY not yet emitted
    | Returned              // RETURN emitted, still in `active_by_tid`
    | Unlinked              // out of `active_by_tid`, still in `offcpu_by_tid`
    | Cleared               // out of both, translation not yet forgotten

  /** What really happened to one invocation: kept for specification only. */
  datatype Life = Life(tid: u32, startNs: u64, endNs: Option<u64>)

  /** The part of the state that says which thread is where. */
  datatype Tracking = Tracking(
    clock: u64,
    sequence: u64,
    active: map<u32, Active>,
    offcpu: map<u32, OffStart>,
    progress: map<u32, Progress>,
    lives: map<u64, Life>)

  datatype State = State(
    k: Tracking,
    traceToBpf: map<u32, u32>,
    bpfToTrace: map<u32, u32>,
    ring: seq<Event>,
    droppedEvents: u64,
    droppedSamples: u64)

  /** The adapter stores 1 into the id counter before it attaches the probes. */
  const INITIAL := State(Tracking(0, 1, map[], map[], map[], map[]), map[], map[], [], 0, 0)

  datatype Action =
    | Tick(delta: nat)
    | EntryRead(tid: u32)
    | EntryCommit(tid: u32, mapOk: bool, ringOk: bool, cpu: u32)
    | EntryEmit(tid: u32, ringOk: bool, cpu: u32)
    | ReturnEmit(tid: u32, ringOk: bool, cpu: u32)
    | ReturnUnlink(tid: u32)
    | ReturnClear(tid: u32)
    | ReturnForget(tid: u32)
    | PerfSample(tid: u32, stackId: StackRef, ringOk: bool, cpu: u32)
    | SchedSwitch(current: u32, prevPid: u32, nextPid: u32, stackId: StackRef,
                  toBpfOk: bool, toTraceOk: bool, offcpuOk: bool, ringOk: bool, cpu: u32)

  /**
   A thread begins a handler only outside its other handlers, and continues the one it is in. The machine
   stops before the id counter would wrap; the handlers themselves wrap it.
   */
  predicate Enabled(k: Tracking, a: Action) {
    match a
    case Tick(delta) => k.clock + delta <= U64_MAX
    case EntryRead(tid) => tid !in k.progress
    case EntryCommit(tid, _, _, _) => 
      tid in k.progress && k.progress[tid].Entering? && (tid in k.active || k.sequence < U64_MAX)
    case EntryEmit(tid, _, _) => tid in k.progress && k.progress[tid].Registered? && tid in k.active
    case ReturnEmit(tid, _, _) => tid !in k.progress
    case ReturnUnlink(tid) => tid in k.progress && k.progress[tid].Returned?
    case ReturnClear(tid) => tid in k.progress && k.progress[tid].Unlinked?
    case ReturnForget(tid) => tid in k.progress && k.progress[tid].Cleared?
    case PerfSample(_, _, _, _) => true
    case SchedSwitch(_, _, _, _, _, _, _, _, _) => true
  }

  /** `emit`: a full ring only bumps the (wrapping) drop counter. */
  function Emit(s: State, ringOk: bool, e: Event): State {
    if ringOk then s.(ring := s.ring + [e]) else s.(droppedEvents := Bump(s.droppedEvents))
  }

  /** `__sync_fetch_and_add(counter, 1)` on a 64-bit counter. */
  function Bump(counter: u64): u64 {
    if counter == U64_MAX then 0 else counter + 1
  }

  function Idle(k: Tracking, tid: u32): Tracking {
    k.(progress := k.progress - {tid})
  }

  function Register(k: Tracking, tid: u32, nowNs: u64): Tracking {
    var id := Bump(k.sequence);
    k.(sequence := id, active := k.active[tid := Active(id, nowNs)],
       progress := k.progress[tid := Registered], lives := k.lives[id := Life(tid, nowNs, None)])
  }

  /** The rest of `slice_entry` once the clock has been read, up to the ENTRY record. */
  function Commit(s: State, tid: u32, mapOk: bool, ringOk: bool, cpu: u32): State
    requires tid in s.k.progress && s.k.progress[tid].Entering?
  {
    var nowNs := s.k.progress[tid].nowNs;
    if tid in s.k.active then
      Emit(s.(k := Idle(s.k, tid)), ringOk, Event(VIOLATION, tid, nowNs, 0, -1, cpu, 0))
    else if mapOk then
      s.(k := Register(s.k, tid, nowNs))
    else
      s.(k := Idle(s.k.(sequence := Bump(s.k.sequence)), tid))
  }

  /** The life that the thread is in ends now. */
  function End(k: Tracking, tid: u32): Tracking
    requires tid in k.active
  {
    var id := k.active[tid].id;
    k.(progress := k.progress[tid := Returned],
       lives := if id in k.lives then k.lives[id := k.lives[id].(endNs := Some(k.clock))] else k.lives)
  }

  /** `slice_return` up to and including its emitted record. */
  function Leave(s: State, tid: u32, ringOk: bool, cpu: u32): State {
    if tid !in s.k.active then
      Emit(s, ringOk, Event(VIOLATION, tid, s.k.clock, 0, -1, cpu, 0))
    else
      Emit(s.(k := End(s.k, tid)), ringOk, Event(RETURN, tid, s.k.clock, s.k.active[tid].id, -1, cpu, 0))
  }

  function Unlink(k: Tracking, tid: u32): Tracking {
    k.(active := k.active - {tid}, progress := k.progress[tid := Unlinked])
  }

  function Clear(k: Tracking, tid: u32): Tracking {
    k.(offcpu := k.offcpu - {tid}, progress := k.progress[tid := Cleared])
  }

  function Forget(s: State, tid: u32): State {
    if tid in s.bpfToTrace then
      s.(k := Idle(s.k, tid), traceToBpf := s.traceToBpf - {s.bpfToTrace[tid]}, bpfToTrace := s.bpfToTrace - {tid})
    else
      s.(k := Idle(s.k, tid))
  }

  /** `slice_sample`. */
  function SampleOnCpu(s: State, tid: u32, stackId: StackRef, ringOk: bool, cpu: u32, period: u64): State {
    if tid !in s.k.active then s
    else if stackId < 0 then s.(droppedSamples := Bump(s.droppedSamples))
    else Emit(s, ringOk, Event(SAMPLE, tid, s.k.clock, s.k.active[tid].id, stackId, cpu, period))
  }

  /** The outgoing half of `slice_sched_switch`. */
  function SwitchOut(s: State, current: u32, prevPid: u32, stackId: StackRef,
                     toBpfOk: bool, toTraceOk: bool, offcpuOk: bool): State
  {
    if current !in s.k.active then s
    else
      s.(k := if offcpuOk then s.k.(offcpu := s.k.offcpu[current := OffStart(s.k.clock, stackId)]) else s.k,
         traceToBpf := if toBpfOk then s.traceToBpf[prevPid := current] else s.traceToBpf,
         bpfToTrace := if toTraceOk then s.bpfToTrace[current := prevPid] else s.bpfToTrace,
         droppedSamples := if stackId < 0 then Bump(s.droppedSamples) else s.droppedSamples)
  }

  /** The record of a switched-out interval that ends now. */
  function Interval(k: Tracking, tid: u32, cpu: u32): Event
    requires tid in k.active && tid in k.offcpu
  {
    var start := k.offcpu[tid];
    var weight: u64 := if k.clock > start.timestampNs then k.clock - start.timestampNs else 0;
    Event(OFFCPU, tid, k.clock, k.active[tid].id, start.stackId, cpu, weight)
  }

  /** The incoming half of `slice_sched_switch`. */
  function SwitchIn(s: State, nextPid: u32, ringOk: bool, cpu: u32): State {
    if nextPid !in s.traceToBpf then s
    else
      var next := s.traceToBpf[nextPid];
      var closed := s.(k := s.k.(offcpu := s.k.offcpu - {next}));
      if next !in s.k.active then closed
      else if next !in s.k.offcpu then s
      else Emit(closed, ringOk, Interval(s.k, next, cpu))
  }

  /** One step; an action that is not enabled changes nothing. */
  function Step(s: State, a: Action, period: u64): State {
    if !Enabled(s.k, a) then s
    else
      match a
      case Tick(delta) => s.(k := s.k.(clock := s.k.clock + delta))
      case EntryRead(tid) => s.(k := s.k.(progress := s.k.progress[tid := Entering(s.k.clock)]))
      case EntryCommit(tid, mapOk, ringOk, cpu) => Commit(s, tid, mapOk, ringOk, cpu)
      case EntryEmit(tid, ringOk, cpu) =>
        Emit(s.(k := Idle(s.k, tid)), ringOk,
             Event(ENTRY, tid, s.k.active[tid].startNs, s.k.active[tid].id, -1, cpu, 0))
      case ReturnEmit(tid, ringOk, cpu) => Leave(s, tid, ringOk, cpu)
      case ReturnUnlink(tid) => s.(k := Unlink(s.k, tid))
      case ReturnClear(tid) => s.(k := Clear(s.k, tid))
      case ReturnForget(tid) => Forget(s, tid)
      case PerfSample(tid, stackId, ringOk, cpu) => SampleOnCpu(s, tid, stackId, ringOk, cpu, period)
      case SchedSwitch(current, prevPid, nextPid, stackId, toBpfOk, toTraceOk, offcpuOk, ringOk, cpu) =>
        SwitchIn(SwitchOut(s, current, prevPid, stackId, toBpfOk, toTraceOk, offcpuOk), nextPid, ringOk, cpu)
  }

  /** The state after any sequence of actions: every interleaving is one such sequence. */
  function After(actions: seq<Action>, period: u64): State {
    if actions == [] then INITIAL
    else Step(After(actions[..|actions| - 1], period), actions[|actions| - 1], period)
  }
}
