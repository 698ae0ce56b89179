/** The Linux adapter between the ring buffer and the collector: sort, translate, replay, name threads. */
module Adapter {
  import opened Domain
  import opened Sorting
  import K = Kernel
  import C = Collector
  import SourceMode

  // ---- Sorting ----

  /** `event_kind_order`. */
  function KindOrder(kind: u32): nat {
    if kind == K.ENTRY then 0
    else if kind == K.SAMPLE || kind == K.OFFCPU then 1
    else if kind == K.RETURN then 2
    else if kind == K.VIOLATION then 3
    else 4
  }

  /** The replay order: time, then thread, then invocation id, then kind. */
  predicate EventLe(a: K.Event, b: K.Event) {
    if a.timestampNs != b.timestampNs then a.timestampNs < b.timestampNs
    else if a.tid != b.tid then a.tid < b.tid
    else if a.invocationId != b.invocationId then a.invocationId < b.invocationId
    else KindOrder(a.kind) <= KindOrder(b.kind)
  }

  predicate EventBefore(a: K.Event, b: K.Event) {
    EventLe(a, b) && !EventLe(b, a)
  }

  /** `sort_events`. */
  function SortEvents(events: seq<K.Event>): seq<K.Event> {
    Sort(EventLe, events)
  }

  // ---- Frames ----

  /** The user frames of each stack slot, root first; the resolver never attaches a function id. */
  type StackTable = map<K.StackRef, seq<Frame>>

  ghost predicate Symbolized(table: StackTable) {
    forall slot | slot in table ::
      0 <= slot && forall i | 0 <= i < |table[slot]| :: table[slot][i].functionId.None?
  }

  /** A slot that was never read back has no frames. */
  function FramesAt(table: StackTable, slot: K.StackRef): seq<Frame> {
    if slot in table then table[slot] else []
  }

  predicate Selects(f: Frame, function_: Function) {
    f.name == function_.demangledName || f.functionId == Some(function_.id)
  }

  /** An off-CPU stack without the selected function gets it as its root frame. */
  function WithFallback(frames: seq<Frame>, function_: Function): seq<Frame> {
    if exists i | 0 <= i < |frames| :: Selects(frames[i], function_) then frames
    else
      [Frame(Some(function_.id), function_.demangledName, Some(function_.moduleName), Some(function_.address))] + frames
  }

  // ---- Replay ----

  /** One arm of the replay loop; a record of another kind only counts as a dropped event. */
  function Translate(e: K.Event, function_: Function, table: StackTable): C.CollectorEvent {
    if e.kind == K.ENTRY then C.Entry(Some(e.invocationId), function_.id, e.tid, e.timestampNs)
    else if e.kind == K.RETURN then C.Return(Some(e.invocationId), function_.id, e.tid, e.timestampNs)
    else if e.kind == K.SAMPLE then
      C.Sampled(Some(e.invocationId),
                C.Pending(e.tid, e.timestampNs, e.cpu, OnCpu, e.weightNs, FramesAt(table, e.stackId)))
    else if e.kind == K.VIOLATION then C.Violation(e.tid, e.timestampNs)
    else if e.kind == K.OFFCPU then
      C.Sampled(Some(e.invocationId),
                C.Pending(e.tid, e.timestampNs, e.cpu, OffCpu, e.weightNs,
                          WithFallback(FramesAt(table, e.stackId), function_)))
    else C.DroppedEvents(1)
  }

  function TranslateAll(events: seq<K.Event>, function_: Function, table: StackTable): seq<C.CollectorEvent> {
    seq(|events|, i requires 0 <= i < |events| => Translate(events[i], function_, table))
  }

  // ---- Threads ----

  predicate TidLe(a: u32, b: u32) {
    a <= b
  }

  function TidsOf(p: Profile): set<u32> {
    (set i | 0 <= i < |p.invocations| :: p.invocations[i].tid) + (set i | 0 <= i < |p.samples| :: p.samples[i].tid)
  }

  function NameOf(names: map<u32, string>, tid: u32): Thread {
    Thread(tid, if tid in names then Some(names[tid]) else None)
  }

  /** `rebuild_threads`: every thread of the records once, in order. */
  ghost function RebuildThreads(p: Profile, names: map<u32, string>): Profile {
    var tids := InOrder(TidLe, TidsOf(p));
    p.(threads := seq(|tids|, i requires 0 <= i < |tids| => NameOf(names, tids[i])))
  }

  // ---- A capture ----

  datatype Request = Request(function_: Function, table: StackTable, names: map<u32, string>,
                             droppedEvents: u64, droppedSamples: u64, now: u64)

  function StartQuality(r: Request): Quality {
    NO_QUALITY.(eventsDropped := r.droppedEvents, samplesDropped := r.droppedSamples)
  }

  function Events(r: Request, delivered: seq<K.Event>): seq<C.CollectorEvent> {
    TranslateAll(SortEvents(delivered), r.function_, r.table)
  }

  function Replayed(r: Request, delivered: seq<K.Event>): C.Session {
    C.PushAll(SourceMode.Blank([r.function_], StartQuality(r)), Events(r, delivered))
  }

  /** The part of `capture_pid` that turns the delivered ring records into a profile. */
  ghost function Capture(r: Request, delivered: seq<K.Event>): Profile {
    var p := RebuildThreads(C.Finish(Replayed(r, delivered), r.now, []), r.names);
    p.(quality := p.quality.(eventsGenerated := Max(p.quality.eventsGenerated, Cap(2 * |p.invocations|))))
  }
}
