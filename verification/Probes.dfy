/**
 The handlers as they are written, over the shared maps that they update in place. A handler that is not
 interrupted takes the steps of the machine one after the other; `Kernel` says what can happen between.
 */
module Probes {
  import opened Domain
  import K = Kernel

  class Maps {
    var activeByTid: map<u32, K.Active>
    var offcpuByTid: map<u32, K.OffStart>
    var traceTidToBpfTid: map<u32, u32>
    var bpfTidToTraceTid: map<u32, u32>
    var nextInvocationId: u64
    var events: seq<K.Event>
    var droppedEvents: u64
    var droppedSamples: u64
    var clock: u64
    ghost var progress: map<u32, K.Progress>
    ghost var lives: map<u64, K.Life>

    /** Fresh maps; the adapter has stored 1 into the id counter. */
    constructor ()
      ensures State() == K.INITIAL
    {
      activeByTid, offcpuByTid, traceTidToBpfTid, bpfTidToTraceTid := map[], map[], map[], map[];
      nextInvocationId, events, droppedEvents, droppedSamples, clock := 1, [], 0, 0, 0;
      progress, lives := map[], map[];
    }

    ghost function State(): K.State
      reads this
    {
      K.State(K.Tracking(clock, nextInvocationId, activeByTid, offcpuByTid, progress, lives),
              traceTidToBpfTid, bpfTidToTraceTid, events, droppedEvents, droppedSamples)
    }

    method Emit(ringOk: bool, kind: u32, tid: u32, now: u64, invocationId: u64, stackId: K.StackRef, cpu: u32,
                weightNs: u64)
      modifies this`events, this`droppedEvents
      ensures State() == K.Emit(old(State()), ringOk, K.Event(kind, tid, now, invocationId, stackId, cpu, weightNs))
    {
      if !ringOk {
        droppedEvents := if droppedEvents == U64_MAX then 0 else droppedEvents + 1;
        return;
      }
      events := events + [K.Event(kind, tid, now, invocationId, stackId, cpu, weightNs)];
    }

    method CountDroppedSample()
      modifies this`droppedSamples
      ensures droppedSamples == K.Bump(old(droppedSamples))
    {
      droppedSamples := if droppedSamples == U64_MAX then 0 else droppedSamples + 1;
    }

    /** `slice_entry`. */
    method SliceEntry(tid: u32, mapOk: bool, ringOk: bool, cpu: u32)
      requires tid !in progress
      modifies this
      ensures State() == Entered(old(State()), tid, mapOk, ringOk, cpu)
    {
      var now := clock;
      if tid in activeByTid {
        Emit(ringOk, K.VIOLATION, tid, now, 0, -1, cpu, 0);
        return;
      }
      nextInvocationId := if nextInvocationId == U64_MAX then 0 else nextInvocationId + 1;
      var active := K.Active(nextInvocationId, now);
      if !mapOk { return; }
      activeByTid := activeByTid[tid := active];
      lives := lives[active.id := K.Life(tid, now, None)];
      Emit(ringOk, K.ENTRY, tid, now, active.id, -1, cpu, 0);
    }

    /** `slice_return`. */
    method SliceReturn(tid: u32, ringOk: bool, cpu: u32)
      requires tid !in progress
      modifies this
      ensures State() == ReturnSteps(old(State()), tid, ringOk, cpu)
    {
      if tid !in activeByTid {
        UnmatchedReturn(State(), tid, ringOk, cpu);
        Emit(ringOk, K.VIOLATION, tid, clock, 0, -1, cpu, 0);
        return;
      }
      ReturnDeletes(State(), tid, ringOk, cpu);
      var active := activeByTid[tid];
      Emit(ringOk, K.RETURN, tid, clock, active.id, -1, cpu, 0);
      if active.id in lives { lives := lives[active.id := lives[active.id].(endNs := Some(clock))]; }
      assert progress[tid := K.Returned] - {tid} == progress - {tid};
      DeleteThread(tid);
    }

    method DeleteThread(tid: u32)
      requires tid !in progress
      modifies this`activeByTid, this`offcpuByTid, this`traceTidToBpfTid, this`bpfTidToTraceTid
      ensures State() == Deleted(old(State()), tid)
    {
      assert progress - {tid} == progress;
      activeByTid := activeByTid - {tid};
      offcpuByTid := offcpuByTid - {tid};
      if tid in bpfTidToTraceTid {
        traceTidToBpfTid := traceTidToBpfTid - {bpfTidToTraceTid[tid]};
        bpfTidToTraceTid := bpfTidToTraceTid - {tid};
      } else {
        assert bpfTidToTraceTid - {tid} == bpfTidToTraceTid;
      }
    }

    /** `slice_sample`. */
    method SliceSample(tid: u32, stackId: K.StackRef, ringOk: bool, cpu: u32, period: u64)
      modifies this`events, this`droppedEvents, this`droppedSamples
      ensures State() == K.Step(old(State()), K.PerfSample(tid, stackId, ringOk, cpu), period)
    {
      if tid !in activeByTid { return; }
      if stackId < 0 {
        CountDroppedSample();
        return;
      }
      Emit(ringOk, K.SAMPLE, tid, clock, activeByTid[tid].id, stackId, cpu, period);
    }

    /** `slice_sched_switch`. */
    method SliceSchedSwitch(current: u32, prevPid: u32, nextPid: u32, stackId: K.StackRef,
                            toBpfOk: bool, toTraceOk: bool, offcpuOk: bool, ringOk: bool, cpu: u32)
      modifies this
      ensures State() == K.Step(old(State()), K.SchedSwitch(current, prevPid, nextPid, stackId, toBpfOk, toTraceOk,
                                                            offcpuOk, ringOk, cpu), 0)
    {
      if current in activeByTid { StartOffcpu(current, prevPid, stackId, toBpfOk, toTraceOk, offcpuOk); }
      if nextPid !in traceTidToBpfTid { return; }
      EndOffcpu(traceTidToBpfTid[nextPid], nextPid, ringOk, cpu);
    }

    /** The outgoing thread is in a selected call. */
    method StartOffcpu(current: u32, prevPid: u32, stackId: K.StackRef, toBpfOk: bool, toTraceOk: bool, offcpuOk: bool)
      requires current in activeByTid
      modifies this`traceTidToBpfTid, this`bpfTidToTraceTid, this`droppedSamples, this`offcpuByTid
      ensures State() == K.SwitchOut(old(State()), current, prevPid, stackId, toBpfOk, toTraceOk, offcpuOk)
    {
      if toBpfOk { traceTidToBpfTid := traceTidToBpfTid[prevPid := current]; }
      if toTraceOk { bpfTidToTraceTid := bpfTidToTraceTid[current := prevPid]; }
      if stackId < 0 { CountDroppedSample(); }
      if offcpuOk { offcpuByTid := offcpuByTid[current := K.OffStart(clock, stackId)]; }
    }

    /** The incoming thread has been seen going out. */
    method EndOffcpu(next: u32, nextPid: u32, ringOk: bool, cpu: u32)
      requires nextPid in traceTidToBpfTid && traceTidToBpfTid[nextPid] == next
      modifies this`events, this`droppedEvents, this`offcpuByTid
      ensures State() == K.SwitchIn(old(State()), nextPid, ringOk, cpu)
    {
      if next !in offcpuByTid || next !in activeByTid {
        if next !in activeByTid { offcpuByTid := offcpuByTid - {next}; }
        return;
      }
      var start := offcpuByTid[next];
      var weight: u64 := if clock > start.timestampNs then clock - start.timestampNs else 0;
      Emit(ringOk, K.OFFCPU, next, clock, activeByTid[next].id, start.stackId, cpu, weight);
      offcpuByTid := offcpuByTid - {next};
    }
  }

  /** An entry handler that nothing interrupts. */
  function EntrySteps(s: K.State, tid: u32, mapOk: bool, ringOk: bool, cpu: u32): K.State {
    K.Step(K.Step(K.Step(s, K.EntryRead(tid), 0), K.EntryCommit(tid, mapOk, ringOk, cpu), 0),
           K.EntryEmit(tid, ringOk, cpu), 0)
  }

  /** What an uninterrupted entry comes to; the id counter wraps. */
  function Entered(s: K.State, tid: u32, mapOk: bool, ringOk: bool, cpu: u32): K.State {
    var id := K.Bump(s.k.sequence);
    if tid in s.k.active then K.Emit(s, ringOk, K.Event(K.VIOLATION, tid, s.k.clock, 0, -1, cpu, 0))
    else if !mapOk then s.(k := s.k.(sequence := id))
    else
      K.Emit(s.(k := s.k.(sequence := id, active := s.k.active[tid := K.Active(id, s.k.clock)],
                          lives := s.k.lives[id := K.Life(tid, s.k.clock, None)])),
             ringOk, K.Event(K.ENTRY, tid, s.k.clock, id, -1, cpu, 0))
  }

  lemma {:induction false} CommitForm(s: K.State, tid: u32, mapOk: bool, ringOk: bool, cpu: u32)
    requires tid !in s.k.progress && (tid in s.k.active || s.k.sequence < U64_MAX)
    ensures
      var begun := s.(k := s.k.(progress := s.k.progress[tid := K.Entering(s.k.clock)]));
      K.Commit(begun, tid, mapOk, ringOk, cpu)
      == if tid in s.k.active || !mapOk then Entered(s, tid, mapOk, ringOk, cpu)
         else s.(k := K.Register(s.k, tid, s.k.clock))
  {
  }

  lemma {:induction false} EmitForm(s: K.State, tid: u32, ringOk: bool, cpu: u32)
    ensures K.Step(s, K.EntryEmit(tid, ringOk, cpu), 0) ==
            if K.Enabled(s.k, K.EntryEmit(tid, ringOk, cpu)) then
              K.Emit(s.(k := K.Idle(s.k, tid)), ringOk,
                     K.Event(K.ENTRY, tid, s.k.active[tid].startNs, s.k.active[tid].id, -1, cpu, 0))
            else s
  {
  }

  lemma {:induction false} RegisteredForm(s: K.State, tid: u32, ringOk: bool, cpu: u32)
    requires tid !in s.k.progress && tid !in s.k.active && s.k.sequence < U64_MAX
    ensures K.Step(s.(k := K.Register(s.k, tid, s.k.clock)), K.EntryEmit(tid, ringOk, cpu), 0)
         == Entered(s, tid, true, ringOk, cpu)
  {
  }

  lemma {:induction false} BegunForm(s: K.State, tid: u32, mapOk: bool, ringOk: bool, cpu: u32)
    requires tid !in s.k.progress && (tid in s.k.active || s.k.sequence < U64_MAX)
    ensures
      var begun := s.(k := s.k.(progress := s.k.progress[tid := K.Entering(s.k.clock)]));
      && K.Step(s, K.EntryRead(tid), 0) == begun
      && K.Step(begun, K.EntryCommit(tid, mapOk, ringOk, cpu), 0) == K.Commit(begun, tid, mapOk, ringOk, cpu)
  {
  }

  lemma {:induction false} EntryForm(s: K.State, tid: u32, mapOk: bool, ringOk: bool, cpu: u32)
    requires tid !in s.k.progress && (tid in s.k.active || s.k.sequence < U64_MAX)
    ensures EntrySteps(s, tid, mapOk, ringOk, cpu) == Entered(s, tid, mapOk, ringOk, cpu)
  {
    BegunForm(s, tid, mapOk, ringOk, cpu);
    CommitForm(s, tid, mapOk, ringOk, cpu);
    if tid in s.k.active || !mapOk {
      EmitForm(Entered(s, tid, mapOk, ringOk, cpu), tid, ringOk, cpu);
    } else {
      RegisteredForm(s, tid, ringOk, cpu);
    }
  }

  /** A return handler that nothing interrupts. */
  function ReturnSteps(s: K.State, tid: u32, ringOk: bool, cpu: u32): K.State {
    K.Step(K.Step(K.Step(K.Step(s, K.ReturnEmit(tid, ringOk, cpu), 0), K.ReturnUnlink(tid), 0),
                  K.ReturnClear(tid), 0), K.ReturnForget(tid), 0)
  }

  /** The maps once everything about a thread has been deleted. */
  function Deleted(s: K.State, tid: u32): K.State {
    s.(k := s.k.(active := s.k.active - {tid}, offcpu := s.k.offcpu - {tid}, progress := s.k.progress - {tid}),
       traceToBpf := if tid in s.bpfToTrace then s.traceToBpf - {s.bpfToTrace[tid]} else s.traceToBpf,
       bpfToTrace := s.bpfToTrace - {tid})
  }

  lemma {:induction false} LeaveForm(s: K.State, tid: u32, ringOk: bool, cpu: u32)
    requires tid !in s.k.progress && tid in s.k.active
    ensures
      var left := K.Leave(s, tid, ringOk, cpu);
      && K.Step(s, K.ReturnEmit(tid, ringOk, cpu), 0) == left
      && tid in left.k.progress && left.k.progress[tid].Returned?
  {
  }

  lemma {:induction false} UnlinkForm(s: K.State, tid: u32)
    requires tid in s.k.progress && s.k.progress[tid].Returned?
    ensures K.Step(s, K.ReturnUnlink(tid), 0) == s.(k := K.Unlink(s.k, tid))
  {
  }

  lemma {:induction false} ClearForm(s: K.State, tid: u32)
    requires tid in s.k.progress && s.k.progress[tid].Unlinked?
    ensures K.Step(s, K.ReturnClear(tid), 0) == s.(k := K.Clear(s.k, tid))
  {
  }

  lemma {:induction false} ForgetForm(s: K.State, tid: u32)
    requires tid in s.k.progress && s.k.progress[tid].Cleared?
    ensures K.Step(s, K.ReturnForget(tid), 0) == K.Forget(s, tid)
  {
  }

  lemma {:induction false} ForgetDeletes(s: K.State, tid: u32)
    ensures K.Forget(s.(k := K.Clear(K.Unlink(s.k, tid), tid)), tid) == Deleted(s, tid)
  {
    var progress := s.k.progress;
    assert progress[tid := K.Unlinked][tid := K.Cleared] - {tid} == progress - {tid};
    assert tid !in s.bpfToTrace ==> s.bpfToTrace - {tid} == s.bpfToTrace;
  }

  /** After the RETURN record the remaining steps delete, whichever of the maps know the thread. */
  lemma {:induction false} ReturnDeletes(s: K.State, tid: u32, ringOk: bool, cpu: u32)
    requires tid !in s.k.progress && tid in s.k.active
    ensures ReturnSteps(s, tid, ringOk, cpu) == Deleted(K.Leave(s, tid, ringOk, cpu), tid)
  {
    LeaveForm(s, tid, ringOk, cpu);
    var left := K.Leave(s, tid, ringOk, cpu);
    UnlinkForm(left, tid);
    ClearForm(left.(k := K.Unlink(left.k, tid)), tid);
    ForgetForm(left.(k := K.Clear(K.Unlink(left.k, tid), tid)), tid);
    ForgetDeletes(left, tid);
  }

  lemma {:induction false} UnmatchedReturn(s: K.State, tid: u32, ringOk: bool, cpu: u32)
    requires tid !in s.k.progress && tid !in s.k.active
    ensures ReturnSteps(s, tid, ringOk, cpu) == K.Leave(s, tid, ringOk, cpu)
  {
  }
}
