/** A nested entry during a recorded call makes that call invalid, if its violation is delivered. */
module NestedEntries {
  import opened Domain
  import opened Kernel
  import opened KernelInvariant
  import opened Adapter
  import opened CaptureTheorems

  /** A thread that enters while it is linked read its clock after the linked start. */
  ghost predicate EntersLate(k: Tracking) {
    forall t | t in k.progress && k.progress[t].Entering? && t in k.active :: k.active[t].startNs <= k.progress[t].nowNs
  }

  /** No step links a thread that is still entering. */
  ghost predicate LinksOnlyRegistered(k: Tracking, k': Tracking) {
    forall t | t in k'.progress && k'.progress[t].Entering? && t in k'.active ::
      t in k.active && k'.active[t] == k.active[t]
      && ((t in k.progress && k.progress[t] == k'.progress[t]) || k'.progress[t].nowNs == k.clock)
  }

  lemma {:induction false} CommitLinks(s: State, tid: u32, mapOk: bool, ringOk: bool, cpu: u32)
    requires Enabled(s.k, EntryCommit(tid, mapOk, ringOk, cpu))
    ensures LinksOnlyRegistered(s.k, Commit(s, tid, mapOk, ringOk, cpu).k)
  {
  }

  /** The scheduler starts and ends no handler, and neither does the sampler. */
  lemma {:induction false} SwitchLinks(s: State, a: Action, period: u64)
    requires a.SchedSwitch?
    ensures Step(s, a, period).k.active == s.k.active && Step(s, a, period).k.progress == s.k.progress
  {
    var out := SwitchOut(s, a.current, a.prevPid, a.stackId, a.toBpfOk, a.toTraceOk, a.offcpuOk);
    assert out.k.active == s.k.active && out.k.progress == s.k.progress;
    assert Step(s, a, period) == SwitchIn(out, a.nextPid, a.ringOk, a.cpu);
  }

  lemma {:induction false} SampleLinks(s: State, a: Action, period: u64)
    requires a.PerfSample?
    ensures Step(s, a, period).k == s.k
  {
  }

  lemma {:induction false} StepLinks(s: State, a: Action, period: u64)
    ensures LinksOnlyRegistered(s.k, Step(s, a, period).k)
  {
    if Enabled(s.k, a) {
      match a
      case EntryCommit(tid, mapOk, ringOk, cpu) => CommitLinks(s, tid, mapOk, ringOk, cpu);
      case PerfSample(_, _, _, _) => SampleLinks(s, a, period);
      case SchedSwitch(_, _, _, _, _, _, _, _, _) => SwitchLinks(s, a, period);
      case _ =>
    }
  }

  lemma {:induction false} AlwaysEntersLate(actions: seq<Action>, period: u64)
    ensures EntersLate(After(actions, period).k)
  {
    if actions != [] {
      var front, a := actions[..|actions| - 1], actions[|actions| - 1];
      var k, k' := After(front, period).k, After(actions, period).k;
      AlwaysEntersLate(front, period);
      RunsKeep(front, period);
      StepLinks(After(front, period), a, period);
      forall t | t in k'.progress && k'.progress[t].Entering? && t in k'.active
        ensures k'.active[t].startNs <= k'.progress[t].nowNs
      {
        assert ActiveOk(k, t) && LifeOk(k, k.active[t].id);
      }
    }
  }

  /** From `s` on: no life changes but by ending, at the clock or later, and the ring only grows. */
  ghost predicate Continues(s: State, s': State) {
    && s.k.clock <= s'.k.clock
    && (forall id | id in s.k.lives :: id in s'.k.lives && LivesOn(s.k.lives[id], s'.k.lives[id], s.k.clock))
    && (forall e | e in s.ring :: e in s'.ring)
  }

  predicate LivesOn(life: Life, life': Life, clock: u64) {
    && life'.tid == life.tid && life'.startNs == life.startNs
    && (life'.endNs == life.endNs || (life'.endNs.Some? && clock <= life'.endNs.value))
  }

  lemma {:induction false} CommitContinues(s: State, tid: u32, mapOk: bool, ringOk: bool, cpu: u32)
    requires Inv(s) && Enabled(s.k, EntryCommit(tid, mapOk, ringOk, cpu))
    ensures Continues(s, Commit(s, tid, mapOk, ringOk, cpu))
  {
  }

  lemma {:induction false} LeaveContinues(s: State, tid: u32, ringOk: bool, cpu: u32)
    ensures Continues(s, Leave(s, tid, ringOk, cpu))
  {
  }

  /** The step changes no life and emits at most one record. */
  lemma QuietContinues(s: State, s': State)
    requires s'.k.lives == s.k.lives && s.k.clock <= s'.k.clock && s.ring <= s'.ring
    ensures Continues(s, s')
  {
  }

  lemma {:induction false} SwitchContinues(s: State, a: Action, period: u64)
    requires a.SchedSwitch?
    ensures Continues(s, Step(s, a, period))
  {
    var out := SwitchOut(s, a.current, a.prevPid, a.stackId, a.toBpfOk, a.toTraceOk, a.offcpuOk);
    assert out.k.lives == s.k.lives && out.k.clock == s.k.clock && out.ring == s.ring;
    SwitchInContinues(out, a.nextPid, a.ringOk, a.cpu);
  }

  lemma {:induction false} SwitchInContinues(s: State, nextPid: u32, ringOk: bool, cpu: u32)
    ensures Continues(s, SwitchIn(s, nextPid, ringOk, cpu))
  {
  }

  lemma {:induction false} EmitterContinues(s: State, a: Action, period: u64)
    requires (a.PerfSample? || a.EntryEmit?) && Enabled(s.k, a)
    ensures Continues(s, Step(s, a, period))
  {
  }

  lemma {:induction false} StepContinues(s: State, a: Action, period: u64)
    requires Inv(s)
    ensures Continues(s, Step(s, a, period))
  {
    if Enabled(s.k, a) {
      match a
      case EntryCommit(tid, mapOk, ringOk, cpu) => CommitContinues(s, tid, mapOk, ringOk, cpu);
      case ReturnEmit(tid, ringOk, cpu) => LeaveContinues(s, tid, ringOk, cpu);
      case SchedSwitch(_, _, _, _, _, _, _, _, _) => SwitchContinues(s, a, period);
      case PerfSample(_, _, _, _) => EmitterContinues(s, a, period);
      case EntryEmit(_, _, _) => EmitterContinues(s, a, period);
      case _ => QuietContinues(s, Step(s, a, period));
    }
  }

  lemma ContinuesOn(s: State, t: State, u: State)
    requires Continues(s, t) && Continues(t, u)
    ensures Continues(s, u)
  {
    forall id | id in s.k.lives ensures id in u.k.lives && LivesOn(s.k.lives[id], u.k.lives[id], s.k.clock) {
      assert LivesOn(s.k.lives[id], t.k.lives[id], s.k.clock) && LivesOn(t.k.lives[id], u.k.lives[id], t.k.clock);
    }
  }

  lemma {:induction false} AlwaysContinues(before: seq<Action>, after: seq<Action>, period: u64)
    ensures Continues(After(before, period), After(before + after, period))
  {
    if after == [] {
      assert before + after == before;
    } else {
      var front, a := before + after[..|after| - 1], after[|after| - 1];
      assert before + after == front + [a] && (front + [a])[..|front|] == front;
      assert After(before + after, period) == Step(After(front, period), a, period);
      AlwaysContinues(before, after[..|after| - 1], period);
      RunsKeep(front, period);
      StepContinues(After(front, period), a, period);
      ContinuesOn(After(before, period), After(front, period), After(before + after, period));
    }
  }

  /** What the kernel reports when the thread of the action enters again. */
  function NestedRecord(k: Tracking, a: Action): Event
    requires a.EntryCommit? && Enabled(k, a)
  {
    Event(VIOLATION, a.tid, k.progress[a.tid].nowNs, 0, -1, a.cpu, 0)
  }

  /** The record lies within the life that the thread is in, now and for good. */
  lemma {:induction false} NestedWithin(before: seq<Action>, a: Action, after: seq<Action>, period: u64)
    requires a.EntryCommit? && Enabled(After(before, period).k, a) && a.tid in After(before, period).k.active
    ensures
      var k := After(before, period).k;
      var id, s, e := k.active[a.tid].id, After(before + after, period), NestedRecord(k, a);
      && id in s.k.lives && s.k.lives[id].tid == a.tid && s.k.lives[id].startNs <= e.timestampNs
      && (s.k.lives[id].endNs.Some? ==> e.timestampNs <= s.k.lives[id].endNs.value)
  {
    var s := After(before, period);
    RunsKeep(before, period);
    AlwaysEntersLate(before, period);
    assert ActiveOk(s.k, a.tid) && ProgressOk(s.k, a.tid);
    AlwaysContinues(before, after, period);
    assert LivesOn(s.k.lives[s.k.active[a.tid].id], After(before + after, period).k.lives[s.k.active[a.tid].id],
                   s.k.clock);
  }

  /** If the ring has room, the record is emitted and stays. */
  lemma {:induction false} NestedEmitted(before: seq<Action>, a: Action, after: seq<Action>, period: u64)
    requires a.EntryCommit? && a.ringOk && Enabled(After(before, period).k, a)
        && a.tid in After(before, period).k.active
    ensures NestedRecord(After(before, period).k, a) in After(before + [a] + after, period).ring
  {
    var s := After(before, period);
    assert (before + [a])[..|before|] == before && (before + [a])[|before|] == a;
    assert After(before + [a], period).ring == s.ring + [NestedRecord(s.k, a)];
    AlwaysContinues(before + [a], after, period);
  }

  /**
   In every run, under every loss and delivery order: if a thread enters again while a call of it is
   recorded and the kernel's record of that is delivered, the call is not valid in the captured profile.
   */
  lemma {:induction false} NestedEntryInvalidates(before: seq<Action>, a: Action, after: seq<Action>, period: u64,
                                                  r: Request, delivered: seq<Event>, i: Invocation)
    requires a.EntryCommit? && Enabled(After(before, period).k, a) && a.tid in After(before, period).k.active
    requires multiset(delivered) <= multiset(After(before + [a] + after, period).ring) && Symbolized(r.table)
    requires NestedRecord(After(before, period).k, a) in delivered
    requires i in Capture(r, delivered).invocations && i.id == After(before, period).k.active[a.tid].id
    ensures !i.valid
  {
    var s := After(before + [a] + after, period);
    assert before + [a] + after == before + ([a] + after);
    NestedWithin(before, a, [a] + after, period);
    RunsKeep(before + [a] + after, period);
    InvocationsSound(s, r, delivered);
    var n :| 0 <= n < |Capture(r, delivered).invocations| && Capture(r, delivered).invocations[n] == i;
    assert Sound(s.k.lives, r, delivered, Capture(r, delivered).invocations[n]);
  }
}
