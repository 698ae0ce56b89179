/** Off-CPU time: never overstated by any run, and exact when nothing fails. */
module SwitchedOut {
  import opened Domain
  import opened Kernel
  import opened KernelInvariant
  import opened Sequences

  /** The off-CPU weight that an event adds to a life up to a time. */
  function OffWeight(id: u64, until: int): Event -> nat {
    (e: Event) => if e.kind == OFFCPU && e.invocationId == id && e.timestampNs <= until then e.weightNs else 0
  }

  /** Ordered intervals that open at `start` or later fit between `start` and any later time. */
  lemma {:induction false} OrderedFit(events: seq<Event>, id: u64, start: int, until: int)
    requires IntervalsOrdered(events)
    requires forall i | 0 <= i < |events| && events[i].kind == OFFCPU && events[i].invocationId == id ::
               start <= events[i].timestampNs - events[i].weightNs
    ensures Sum(OffWeight(id, until), events) <= Max(0, until - start)
    decreases |events|
  {
    if events != [] {
      var n := |events| - 1;
      var e := events[n];
      if OffWeight(id, until)(e) == 0 {
        OrderedFit(events[..n], id, start, until);
      } else {
        var lo := e.timestampNs - e.weightNs;
        forall i | 0 <= i < n ensures OffWeight(id, until)(events[i]) == OffWeight(id, lo)(events[i]) {
          assert Precedes(events[i], e);
        }
        SumAgree(OffWeight(id, until), events[..n], OffWeight(id, lo), events[..n]);
        OrderedFit(events[..n], id, start, lo);
      }
    }
  }

  /**
   In every run, whatever part of the ring is delivered in whatever order, the off-CPU weights of a
   life up to a time fit between its start and that time.
   */
  lemma OffcpuBound(s: State, delivered: seq<Event>, id: u64, until: int)
    requires Inv(s) && id in s.k.lives
    requires multiset(delivered) <= multiset(s.ring)
    ensures Sum(OffWeight(id, until), delivered) <= Max(0, until - s.k.lives[id].startNs)
  {
    forall i | 0 <= i < |s.ring| && s.ring[i].kind == OFFCPU && s.ring[i].invocationId == id
      ensures s.k.lives[id].startNs <= s.ring[i].timestampNs - s.ring[i].weightNs
    {
      assert EventOk(s.k, s.ring[i]);
    }
    OrderedFit(s.ring, id, s.k.lives[id].startNs, until);
    SumPart(OffWeight(id, until), delivered, s.ring);
  }

  // ---- Exactness: whole handlers, faithful identities, no failure ----

  /** The scheduler's own account next to the machine: who is off since when, and for how long in each life. */
  datatype Watched = Watched(s: State, offSince: map<u32, u64>, away: map<u64, nat>)

  datatype Whole =
    | Wait(delta: nat)
    | Enter(tid: u32, cpu: u32)
    | Exit(tid: u32, cpu: u32)
    | Take(tid: u32, stackId: StackRef, cpu: u32)
    | Switch(current: u32, next: u32, stackId: StackRef, cpu: u32)

  /** A thread runs its own handlers only while it is scheduled; a linked one is switched in and out in turn. */
  predicate Possible(w: Watched, a: Whole) {
    match a
    case Wait(delta) => w.s.k.clock + delta <= U64_MAX
    case Enter(tid, _) => tid !in w.offSince && w.s.k.sequence < U64_MAX
    case Exit(tid, _) => tid !in w.offSince
    case Take(tid, _, _) => tid !in w.offSince
    case Switch(current, next, _, _) =>
      && current != next
      && (current in w.s.k.active ==> current !in w.offSince)
      && (next in w.s.k.active ==> next in w.offSince)
  }

  /** The kernel steps that make up one whole handler when nothing fails. */
  function Handle(s: State, a: Whole, trace: u32 -> u32, period: u64): State {
    match a
    case Wait(delta) => Step(s, Tick(delta), period)
    case Enter(tid, cpu) =>
      Step(Step(Step(s, EntryRead(tid), period), EntryCommit(tid, true, true, cpu), period),
           EntryEmit(tid, true, cpu), period)
    case Exit(tid, cpu) =>
      Step(Step(Step(Step(s, ReturnEmit(tid, true, cpu), period), ReturnUnlink(tid), period),
                ReturnClear(tid), period), ReturnForget(tid), period)
    case Take(tid, stackId, cpu) => Step(s, PerfSample(tid, stackId, true, cpu), period)
    case Switch(current, next, stackId, cpu) =>
      Step(s, SchedSwitch(current, trace(current), trace(next), stackId, true, true, true, true, cpu), period)
  }

  /** The life is under way and its thread is switched out. */
  predicate IsAway(w: Watched, id: u64) {
    id in w.s.k.lives && w.s.k.lives[id].endNs.None? && w.s.k.lives[id].tid in w.offSince
  }

  /** While the clock moves by `delta`, every life whose thread is off is away for `delta`. */
  function Account(w: Watched, a: Whole, s': State): map<u64, nat> {
    map id | id in s'.k.lives ::
      (if id in w.away then w.away[id] else 0) + (if a.Wait? && IsAway(w, id) then a.delta else 0)
  }

  function Watch(w: Watched, a: Whole, trace: u32 -> u32, period: u64): Watched {
    if !Possible(w, a) then w
    else
      var s' := Handle(w.s, a, trace, period);
      var off := if a.Switch? then w.offSince[a.current := w.s.k.clock] - {a.next} else w.offSince;
      Watched(s', off, Account(w, a, s'))
  }

  function WatchAll(actions: seq<Whole>, trace: u32 -> u32, period: u64): Watched {
    if actions == [] then Watched(INITIAL, map[], map[])
    else Watch(WatchAll(actions[..|actions| - 1], trace, period), actions[|actions| - 1], trace, period)
  }

  ghost predicate Injective(trace: u32 -> u32) {
    forall a: u32, b: u32 | trace(a) == trace(b) :: a == b
  }

  /** The two translation maps are each other's inverse. */
  ghost predicate MutuallyInverse(s: State) {
    && (forall t | t in s.bpfToTrace :: s.bpfToTrace[t] in s.traceToBpf && s.traceToBpf[s.bpfToTrace[t]] == t)
    && (forall x | x in s.traceToBpf :: s.traceToBpf[x] in s.bpfToTrace && s.bpfToTrace[s.traceToBpf[x]] == x)
  }

  /** The part of a life's absence that has not been emitted yet. */
  function Pending(w: Watched, id: u64): int {
    if IsAway(w, id) then w.s.k.clock - w.offSince[w.s.k.lives[id].tid] else 0
  }

  ghost predicate Translated(s: State, trace: u32 -> u32) {
    && MutuallyInverse(s)
    && (forall t | t in s.bpfToTrace :: s.bpfToTrace[t] == trace(t) && t in s.k.active)
    && (forall t | t in s.k.offcpu :: t in s.bpfToTrace)
  }

  ghost predicate ThreadsAgree(w: Watched) {
    forall t | t in w.s.k.active ::
      if t in w.offSince then t in w.s.k.offcpu && w.s.k.offcpu[t].timestampNs == w.offSince[t]
      else t !in w.s.k.offcpu
  }

  ghost predicate Accounted(w: Watched) {
    && w.away.Keys == w.s.k.lives.Keys
    && forall id | id in w.away :: Sum(OffWeight(id, U64_MAX), w.s.ring) + Pending(w, id) == w.away[id]
  }

  /** Between handlers, the linked threads and the open lives correspond one to one. */
  ghost predicate Between(k: Tracking) {
    && k.progress == map[]
    && (forall t | t in k.active ::
          && k.active[t].id in k.lives
          && k.lives[k.active[t].id].tid == t
          && k.lives[k.active[t].id].endNs.None?)
    && (forall j | j in k.lives && k.lives[j].endNs.None? ::
          k.lives[j].tid in k.active && k.active[k.lives[j].tid].id == j)
    && (forall t | t in k.offcpu :: t in k.active && k.offcpu[t].timestampNs <= k.clock)
  }

  ghost predicate Exact(w: Watched, trace: u32 -> u32) {
    Between(w.s.k) && Translated(w.s, trace) && ThreadsAgree(w) && Accounted(w)
  }

  lemma HandleKeeps(s: State, a: Whole, trace: u32 -> u32, period: u64)
    requires Inv(s)
    ensures Inv(Handle(s, a, trace, period))
  {
    match a
    case Wait(delta) => StepKeeps(s, Tick(delta), period);
    case Enter(tid, cpu) =>
      var s1 := Step(s, EntryRead(tid), period);
      var s2 := Step(s1, EntryCommit(tid, true, true, cpu), period);
      StepKeeps(s, EntryRead(tid), period);
      StepKeeps(s1, EntryCommit(tid, true, true, cpu), period);
      StepKeeps(s2, EntryEmit(tid, true, cpu), period);
    case Exit(tid, cpu) =>
      var s1 := Step(s, ReturnEmit(tid, true, cpu), period);
      var s2 := Step(s1, ReturnUnlink(tid), period);
      var s3 := Step(s2, ReturnClear(tid), period);
      StepKeeps(s, ReturnEmit(tid, true, cpu), period);
      StepKeeps(s1, ReturnUnlink(tid), period);
      StepKeeps(s2, ReturnClear(tid), period);
      StepKeeps(s3, ReturnForget(tid), period);
    case Take(tid, stackId, cpu) => StepKeeps(s, PerfSample(tid, stackId, true, cpu), period);
    case Switch(current, next, stackId, cpu) =>
      StepKeeps(s, SchedSwitch(current, trace(current), trace(next), stackId, true, true, true, true, cpu), period);
  }

  // ---- What each whole handler does to a machine between handlers ----

  lemma {:induction false} EnterResult(s: State, tid: u32, cpu: u32, trace: u32 -> u32, period: u64)
    requires s.k.progress == map[] && s.k.sequence < U64_MAX
    ensures
      var s' := Handle(s, Enter(tid, cpu), trace, period);
      if tid in s.k.active then
        s' == s.(ring := s.ring + [Event(VIOLATION, tid, s.k.clock, 0, -1, cpu, 0)])
      else
        var id := s.k.sequence + 1;
        s' == s.(k := Tracking(s.k.clock, id, s.k.active[tid := Active(id, s.k.clock)], s.k.offcpu, map[],
                               s.k.lives[id := Life(tid, s.k.clock, None)]),
                 ring := s.ring + [Event(ENTRY, tid, s.k.clock, id, -1, cpu, 0)])
  {
  }

  lemma {:induction false} ExitResult(s: State, tid: u32, cpu: u32, trace: u32 -> u32, period: u64)
    requires s.k.progress == map[]
    requires tid in s.k.active ==> s.k.active[tid].id in s.k.lives
    ensures
      var s' := Handle(s, Exit(tid, cpu), trace, period);
      if tid !in s.k.active then
        s' == s.(ring := s.ring + [Event(VIOLATION, tid, s.k.clock, 0, -1, cpu, 0)])
      else
        var id := s.k.active[tid].id;
        && s'.k == Tracking(s.k.clock, s.k.sequence, s.k.active - {tid}, s.k.offcpu - {tid}, map[],
                            s.k.lives[id := s.k.lives[id].(endNs := Some(s.k.clock))])
        && s'.ring == s.ring + [Event(RETURN, tid, s.k.clock, id, -1, cpu, 0)]
        && s'.bpfToTrace == s.bpfToTrace - {tid}
        && s'.traceToBpf == if tid in s.bpfToTrace then s.traceToBpf - {s.bpfToTrace[tid]} else s.traceToBpf
  {
  }

  // ---- Every whole handler keeps the account exact ----

  lemma {:induction false} WaitExact(w: Watched, delta: nat, trace: u32 -> u32, period: u64)
    requires Exact(w, trace) && Possible(w, Wait(delta))
    ensures Exact(Watch(w, Wait(delta), trace, period), trace)
  {
    var w' := Watch(w, Wait(delta), trace, period);
    WaitResult(w, delta, trace, period);
    WaitLinks(w, w', delta, trace);
    WaitAccounted(w, w', delta);
  }

  lemma {:induction false} WaitResult(w: Watched, delta: nat, trace: u32 -> u32, period: u64)
    requires Possible(w, Wait(delta))
    ensures
      var w' := Watch(w, Wait(delta), trace, period);
      && w'.s == w.s.(k := w.s.k.(clock := w.s.k.clock + delta)) && w'.offSince == w.offSince
      && w'.away == Account(w, Wait(delta), w'.s)
  {
  }

  lemma {:induction false} WaitLinks(w: Watched, w': Watched, delta: nat, trace: u32 -> u32)
    requires Between(w.s.k) && Translated(w.s, trace) && ThreadsAgree(w) && Possible(w, Wait(delta))
    requires w'.s == w.s.(k := w.s.k.(clock := w.s.k.clock + delta)) && w'.offSince == w.offSince
    ensures Between(w'.s.k) && Translated(w'.s, trace) && ThreadsAgree(w')
  {
  }

  lemma {:induction false} WaitAccounted(w: Watched, w': Watched, delta: nat)
    requires Accounted(w) && Possible(w, Wait(delta))
    requires w'.s == w.s.(k := w.s.k.(clock := w.s.k.clock + delta)) && w'.offSince == w.offSince
    requires w'.away == Account(w, Wait(delta), w'.s)
    ensures Accounted(w')
  {
  }

  lemma AccountSame(w: Watched, a: Whole, s': State)
    requires !a.Wait? && w.away.Keys == s'.k.lives.Keys
    ensures Account(w, a, s') == w.away
  {
  }

  lemma AccountFresh(w: Watched, a: Whole, s': State, id: u64)
    requires !a.Wait? && id !in w.away && s'.k.lives.Keys == w.away.Keys + {id}
    ensures Account(w, a, s') == w.away[id := 0]
  {
  }

  /** A violation or perf record changes no account. */
  lemma {:induction false} RecordExact(w: Watched, w': Watched, e: Event, trace: u32 -> u32)
    requires Exact(w, trace) && e.kind != OFFCPU
    requires w' == w.(s := w.s.(ring := w.s.ring + [e]))
    ensures Exact(w', trace)
  {
  }

  lemma {:induction false} EnterExact(w: Watched, tid: u32, cpu: u32, trace: u32 -> u32, period: u64)
    requires Inv(w.s) && Exact(w, trace) && Possible(w, Enter(tid, cpu))
    ensures Exact(Watch(w, Enter(tid, cpu), trace, period), trace)
  {
    var w' := Watch(w, Enter(tid, cpu), trace, period);
    EnterWatched(w, tid, cpu, trace, period);
    if tid in w.s.k.active {
      RecordExact(w, w', Event(VIOLATION, tid, w.s.k.clock, 0, -1, cpu, 0), trace);
    } else {
      FreshExact(w, w'.s, tid, cpu, trace);
    }
  }

  lemma {:induction false} EnterWatched(w: Watched, tid: u32, cpu: u32, trace: u32 -> u32, period: u64)
    requires Possible(w, Enter(tid, cpu)) && w.s.k.progress == map[] && w.away.Keys == w.s.k.lives.Keys
    ensures
      var w' := Watch(w, Enter(tid, cpu), trace, period);
      if tid in w.s.k.active then
        w' == w.(s := w.s.(ring := w.s.ring + [Event(VIOLATION, tid, w.s.k.clock, 0, -1, cpu, 0)]))
      else
        && w' == Watched(w'.s, w.offSince, Account(w, Enter(tid, cpu), w'.s))
        && FreshLife(w.s.k, w'.s.k, tid)
        && w'.s.traceToBpf == w.s.traceToBpf && w'.s.bpfToTrace == w.s.bpfToTrace
        && w'.s.ring == w.s.ring + [Event(ENTRY, tid, w.s.k.clock, w.s.k.sequence + 1, -1, cpu, 0)]
  {
    var s' := Handle(w.s, Enter(tid, cpu), trace, period);
    EnterResult(w.s, tid, cpu, trace, period);
    if tid in w.s.k.active { AccountSame(w, Enter(tid, cpu), s'); }
  }

  lemma {:induction false} FreshExact(w: Watched, s': State, tid: u32, cpu: u32, trace: u32 -> u32)
    requires Inv(w.s) && Exact(w, trace) && tid !in w.offSince && tid !in w.s.k.active
    requires FreshLife(w.s.k, s'.k, tid)
    requires s'.traceToBpf == w.s.traceToBpf && s'.bpfToTrace == w.s.bpfToTrace
    requires s'.ring == w.s.ring + [Event(ENTRY, tid, w.s.k.clock, w.s.k.sequence + 1, -1, cpu, 0)]
    ensures Exact(Watched(s', w.offSince, Account(w, Enter(tid, cpu), s')), trace)
  {
    var w' := Watched(s', w.offSince, Account(w, Enter(tid, cpu), s'));
    UnusedId(w.s, w.s.k.sequence + 1);
    AccountFresh(w, Enter(tid, cpu), s', w.s.k.sequence + 1);
    FreshLinks(w, w', tid, trace);
    FreshAccounted(w, w', tid, cpu);
  }

  /** The next id names no life yet, and no event. */
  lemma {:induction false} UnusedId(s: State, id: u64)
    requires Inv(s) && s.k.sequence < id
    ensures id !in s.k.lives && Sum(OffWeight(id, U64_MAX), s.ring) == 0
  {
    forall j | j in s.k.lives ensures j < id { assert LifeOk(s.k, j); }
    forall i | 0 <= i < |s.ring| ensures OffWeight(id, U64_MAX)(s.ring[i]) == 0 {
      assert EventOk(s.k, s.ring[i]);
    }
    NoWeight(id, s.ring);
  }

  lemma {:induction false} NoWeight(id: u64, events: seq<Event>)
    requires forall i | 0 <= i < |events| :: OffWeight(id, U64_MAX)(events[i]) == 0
    ensures Sum(OffWeight(id, U64_MAX), events) == 0
  {
    if events != [] { NoWeight(id, events[..|events| - 1]); }
  }

  ghost predicate FreshLife(k: Tracking, k': Tracking, tid: u32) {
    && k.sequence < U64_MAX
    && k' == Tracking(k.clock, k.sequence + 1, k.active[tid := Active(k.sequence + 1, k.clock)], k.offcpu, map[],
                      k.lives[k.sequence + 1 := Life(tid, k.clock, None)])
  }

  lemma {:induction false} FreshLinks(w: Watched, w': Watched, tid: u32, trace: u32 -> u32)
    requires Between(w.s.k) && Translated(w.s, trace) && ThreadsAgree(w)
    requires FreshLife(w.s.k, w'.s.k, tid) && tid !in w.offSince && tid !in w.s.k.active
    requires w.s.k.sequence + 1 !in w.s.k.lives
    requires w'.offSince == w.offSince && w'.s.traceToBpf == w.s.traceToBpf && w'.s.bpfToTrace == w.s.bpfToTrace
    ensures Between(w'.s.k) && Translated(w'.s, trace) && ThreadsAgree(w')
  {
  }

  lemma {:induction false} FreshAccounted(w: Watched, w': Watched, tid: u32, cpu: u32)
    requires Between(w.s.k) && Accounted(w) && FreshLife(w.s.k, w'.s.k, tid) && tid !in w.offSince
    requires w'.s.ring == w.s.ring + [Event(ENTRY, tid, w.s.k.clock, w.s.k.sequence + 1, -1, cpu, 0)]
    requires w'.offSince == w.offSince && w'.away == w.away[w.s.k.sequence + 1 := 0]
    requires w.s.k.sequence + 1 !in w.s.k.lives && Sum(OffWeight(w.s.k.sequence + 1, U64_MAX), w.s.ring) == 0
    ensures Accounted(w')
  {
  }

  lemma {:induction false} ExitExact(w: Watched, tid: u32, cpu: u32, trace: u32 -> u32, period: u64)
    requires Exact(w, trace) && Possible(w, Exit(tid, cpu))
    ensures Exact(Watch(w, Exit(tid, cpu), trace, period), trace)
  {
    var w' := Watch(w, Exit(tid, cpu), trace, period);
    ExitResult(w.s, tid, cpu, trace, period);
    AccountSame(w, Exit(tid, cpu), w'.s);
    if tid !in w.s.k.active {
      RecordExact(w, w', Event(VIOLATION, tid, w.s.k.clock, 0, -1, cpu, 0), trace);
    } else {
      EndLinks(w, w', tid, trace);
      EndAccounted(w, w', tid, cpu);
    }
  }

  ghost predicate EndedLife(k: Tracking, k': Tracking, tid: u32) {
    && tid in k.active && k.active[tid].id in k.lives
    && k' == Tracking(k.clock, k.sequence, k.active - {tid}, k.offcpu - {tid}, map[],
                      k.lives[k.active[tid].id := k.lives[k.active[tid].id].(endNs := Some(k.clock))])
  }

  lemma {:induction false} EndLinks(w: Watched, w': Watched, tid: u32, trace: u32 -> u32)
    requires Between(w.s.k) && Translated(w.s, trace) && ThreadsAgree(w)
    requires EndedLife(w.s.k, w'.s.k, tid) && w'.offSince == w.offSince
    requires w'.s.bpfToTrace == w.s.bpfToTrace - {tid}
    requires w'.s.traceToBpf == if tid in w.s.bpfToTrace then w.s.traceToBpf - {w.s.bpfToTrace[tid]} else w.s.traceToBpf
    ensures Between(w'.s.k) && Translated(w'.s, trace) && ThreadsAgree(w')
  {
  }

  lemma {:induction false} EndAccounted(w: Watched, w': Watched, tid: u32, cpu: u32)
    requires Between(w.s.k) && Accounted(w) && EndedLife(w.s.k, w'.s.k, tid) && tid !in w.offSince
    requires w'.s.ring == w.s.ring + [Event(RETURN, tid, w.s.k.clock, w.s.k.active[tid].id, -1, cpu, 0)]
    requires w'.offSince == w.offSince && w'.away == w.away
    ensures Accounted(w')
  {
  }

  lemma {:induction false} TakeExact(w: Watched, tid: u32, stackId: StackRef, cpu: u32, trace: u32 -> u32, period: u64)
    requires Exact(w, trace) && Possible(w, Take(tid, stackId, cpu))
    ensures Exact(Watch(w, Take(tid, stackId, cpu), trace, period), trace)
  {
    var s' := SampleOnCpu(w.s, tid, stackId, true, cpu, period);
    TakeResult(w, tid, stackId, cpu, trace, period);
    if tid in w.s.k.active && stackId >= 0 {
      RecordExact(w, w.(s := s'), Event(SAMPLE, tid, w.s.k.clock, w.s.k.active[tid].id, stackId, cpu, period), trace);
    } else {
      CountedExact(w, w.(s := s'), trace);
    }
  }

  lemma {:induction false} TakeResult(w: Watched, tid: u32, stackId: StackRef, cpu: u32, trace: u32 -> u32, period: u64)
    requires Possible(w, Take(tid, stackId, cpu)) && w.away.Keys == w.s.k.lives.Keys
    ensures Watch(w, Take(tid, stackId, cpu), trace, period)
         == w.(s := SampleOnCpu(w.s, tid, stackId, true, cpu, period))
  {
    AccountSame(w, Take(tid, stackId, cpu), SampleOnCpu(w.s, tid, stackId, true, cpu, period));
  }

  /** A drop counter is in no account. */
  lemma {:induction false} CountedExact(w: Watched, w': Watched, trace: u32 -> u32)
    requires Exact(w, trace) && w' == w.(s := w.s.(droppedSamples := w'.s.droppedSamples))
    ensures Exact(w', trace)
  {
  }

  /** The outgoing thread's absence begins: nothing is emitted and nothing has accrued yet. */
  lemma {:induction false} OutExact(w: Watched, current: u32, stackId: StackRef, trace: u32 -> u32)
    requires Exact(w, trace) && Injective(trace) && (current in w.s.k.active ==> current !in w.offSince)
    ensures
      var s' := SwitchOut(w.s, current, trace(current), stackId, true, true, true);
      Exact(Watched(s', w.offSince[current := w.s.k.clock], w.away), trace)
  {
    var s' := SwitchOut(w.s, current, trace(current), stackId, true, true, true);
    var w' := Watched(s', w.offSince[current := w.s.k.clock], w.away);
    if current in w.s.k.active {
      OutTranslated(w.s, current, stackId, trace);
      OutLinks(w, w', current, stackId);
      OutAccounted(w, w', current);
    } else {
      OutsiderAccounted(w, w', current);
    }
  }

  lemma {:induction false} OutLinks(w: Watched, w': Watched, current: u32, stackId: StackRef)
    requires Between(w.s.k) && ThreadsAgree(w) && current in w.s.k.active
    requires w'.s.k == w.s.k.(offcpu := w.s.k.offcpu[current := OffStart(w.s.k.clock, stackId)])
    requires w'.offSince == w.offSince[current := w.s.k.clock]
    ensures Between(w'.s.k) && ThreadsAgree(w')
  {
  }

  /** A thread outside the population comes and goes without an account. */
  lemma {:induction false} OutsiderAccounted(w: Watched, w': Watched, t: u32)
    requires Between(w.s.k) && Accounted(w) && t !in w.s.k.active
    requires w'.s.ring == w.s.ring && w'.away == w.away && w'.s.k == w.s.k
    requires w'.offSince - {t} == w.offSince - {t}
    ensures Accounted(w')
  {
    forall j | j in w'.away ensures Pending(w', j) == Pending(w, j) {
      var x := w.s.k.lives[j].tid;
      if w.s.k.lives[j].endNs.None? {
        assert x in w'.offSince <==> x in w'.offSince - {t};
        assert x in w.offSince <==> x in w.offSince - {t};
      }
    }
  }

  lemma {:induction false} OutAccounted(w: Watched, w': Watched, current: u32)
    requires Between(w.s.k) && Accounted(w) && current in w.s.k.active && current !in w.offSince
    requires w'.s.ring == w.s.ring && w'.away == w.away && w'.offSince == w.offSince[current := w.s.k.clock]
    requires w'.s.k.lives == w.s.k.lives && w'.s.k.clock == w.s.k.clock
    ensures Accounted(w')
  {
  }

  lemma {:induction false} OutTranslated(s: State, current: u32, stackId: StackRef, trace: u32 -> u32)
    requires Translated(s, trace) && Injective(trace) && current in s.k.active
    ensures Translated(SwitchOut(s, current, trace(current), stackId, true, true, true), trace)
  {
  }

  /** The incoming thread's absence ends: exactly what has accrued is emitted. */
  lemma {:induction false} InExact(w: Watched, next: u32, cpu: u32, trace: u32 -> u32)
    requires Exact(w, trace) && Injective(trace) && (next in w.s.k.active ==> next in w.offSince)
    ensures
      var s' := SwitchIn(w.s, trace(next), true, cpu);
      Exact(Watched(s', w.offSince - {next}, w.away), trace)
  {
    var w' := Watched(SwitchIn(w.s, trace(next), true, cpu), w.offSince - {next}, w.away);
    InResult(w, next, cpu, trace);
    InLinks(w, w', next, trace);
    if next in w.s.k.active {
      InAccounted(w, w', next, cpu);
    } else {
      OutsiderAccounted(w, w', next);
    }
  }

  lemma {:induction false} InResult(w: Watched, next: u32, cpu: u32, trace: u32 -> u32)
    requires Between(w.s.k) && Translated(w.s, trace) && ThreadsAgree(w) && Injective(trace)
    requires next in w.s.k.active ==> next in w.offSince
    ensures
      SwitchIn(w.s, trace(next), true, cpu)
      == if next in w.s.k.active then
           w.s.(k := w.s.k.(offcpu := w.s.k.offcpu - {next}), ring := w.s.ring + [Interval(w.s.k, next, cpu)])
         else w.s
  {
    if next in w.s.k.active {
      assert w.s.traceToBpf[trace(next)] == next;
    } else {
      assert trace(next) !in w.s.traceToBpf;
    }
  }

  lemma {:induction false} InLinks(w: Watched, w': Watched, next: u32, trace: u32 -> u32)
    requires Between(w.s.k) && Translated(w.s, trace) && ThreadsAgree(w)
    requires w'.s.k == (if next in w.s.k.active then w.s.k.(offcpu := w.s.k.offcpu - {next}) else w.s.k)
    requires w'.offSince == w.offSince - {next}
    requires w'.s.traceToBpf == w.s.traceToBpf && w'.s.bpfToTrace == w.s.bpfToTrace
    ensures Between(w'.s.k) && Translated(w'.s, trace) && ThreadsAgree(w')
  {
  }

  lemma {:induction false} InAccounted(w: Watched, w': Watched, next: u32, cpu: u32)
    requires Between(w.s.k) && ThreadsAgree(w) && Accounted(w) && next in w.s.k.active && next in w.offSince
    requires w'.offSince == w.offSince - {next} && w'.away == w.away
    requires w'.s.k == w.s.k.(offcpu := w.s.k.offcpu - {next})
    requires w'.s.ring == w.s.ring + [Interval(w.s.k, next, cpu)]
    ensures Accounted(w')
  {
  }

  lemma {:induction false} SwitchExact(w: Watched, current: u32, next: u32, stackId: StackRef, cpu: u32,
                                       trace: u32 -> u32, period: u64)
    requires Exact(w, trace) && Possible(w, Switch(current, next, stackId, cpu)) && Injective(trace)
    ensures Exact(Watch(w, Switch(current, next, stackId, cpu), trace, period), trace)
  {
    var out := SwitchOut(w.s, current, trace(current), stackId, true, true, true);
    var gone := Watched(out, w.offSince[current := w.s.k.clock], w.away);
    OutExact(w, current, stackId, trace);
    InExact(gone, next, cpu, trace);
    SwitchResult(w, current, next, stackId, cpu, trace, period);
  }

  lemma {:induction false} SwitchResult(w: Watched, current: u32, next: u32, stackId: StackRef, cpu: u32,
                                        trace: u32 -> u32, period: u64)
    requires Possible(w, Switch(current, next, stackId, cpu)) && w.away.Keys == w.s.k.lives.Keys
    ensures
      var out := SwitchOut(w.s, current, trace(current), stackId, true, true, true);
      Watch(w, Switch(current, next, stackId, cpu), trace, period)
      == Watched(SwitchIn(out, trace(next), true, cpu), w.offSince[current := w.s.k.clock] - {next}, w.away)
  {
    var out := SwitchOut(w.s, current, trace(current), stackId, true, true, true);
    AccountSame(w, Switch(current, next, stackId, cpu), SwitchIn(out, trace(next), true, cpu));
  }

  lemma {:induction false} AlwaysExact(actions: seq<Whole>, trace: u32 -> u32, period: u64)
    requires Injective(trace)
    ensures Inv(WatchAll(actions, trace, period).s) && Exact(WatchAll(actions, trace, period), trace)
  {
    if actions != [] {
      var w, a := WatchAll(actions[..|actions| - 1], trace, period), actions[|actions| - 1];
      AlwaysExact(actions[..|actions| - 1], trace, period);
      HandleKeeps(w.s, a, trace, period);
      if Possible(w, a) {
        match a
        case Wait(delta) => WaitExact(w, delta, trace, period);
        case Enter(tid, cpu) => EnterExact(w, tid, cpu, trace, period);
        case Exit(tid, cpu) => ExitExact(w, tid, cpu, trace, period);
        case Take(tid, stackId, cpu) => TakeExact(w, tid, stackId, cpu, trace, period);
        case Switch(current, next, stackId, cpu) => SwitchExact(w, current, next, stackId, cpu, trace, period);
      }
    }
  }

  /**
   With whole handlers, one-to-one identities and no failure: the translation maps stay each other's
   inverse, and the off-CPU weights of every completed life add up to the time its thread was off.
   */
  lemma OffcpuExact(actions: seq<Whole>, trace: u32 -> u32, period: u64, id: u64)
    requires Injective(trace)
    ensures
      var w := WatchAll(actions, trace, period);
      && MutuallyInverse(w.s)
      && (id in w.s.k.lives && w.s.k.lives[id].endNs.Some? ==>
            id in w.away && Sum(OffWeight(id, U64_MAX), w.s.ring) == w.away[id])
  {
    AlwaysExact(actions, trace, period);
  }
}
