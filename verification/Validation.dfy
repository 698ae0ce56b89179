/** `Profile::validate`: a decision procedure for well-formed profiles. */
module Validation {
  import opened Domain
  import opened Sorting

  datatype RecordKind = FunctionRecord | ThreadRecord | InvocationRecord | StackRecord | FrameRecord

  datatype Fault =
    | UnsupportedVersion(version: u16)
    | DuplicateId(kind: RecordKind, id: u64)
    | UnknownFunction(record: RecordKind, functionId: u32)
    | UnknownThread(tid: u32)
    | UnknownInvocation(invocationId: u64)
    | CyclicInvocationParent(invocationId: u64)
    | UnknownStack(stackId: u32)
    | InvalidInvocationBounds(invocationId: u64)
    | SampleThreadMismatch(invocationId: u64, sampleTid: u32, invocationTid: u32)
    | SampleOutsideInvocation(invocationId: u64)
    | QualityCountersInconsistent

  // ---- Well-formed profiles, declared ----

  function FunctionIds(fs: seq<Function>): seq<u64> {
    seq(|fs|, i requires 0 <= i < |fs| => fs[i].id)
  }

  function ThreadIds(ts: seq<Thread>): seq<u64> {
    seq(|ts|, i requires 0 <= i < |ts| => ts[i].tid)
  }

  function InvocationIds(calls: seq<Invocation>): seq<u64> {
    seq(|calls|, i requires 0 <= i < |calls| => calls[i].id)
  }

  function StackIds(ss: seq<Stack>): seq<u64> {
    seq(|ss|, i requires 0 <= i < |ss| => ss[i].id)
  }

  /** The parent that an id-keyed map built from the list answers: that of the last record with the id. */
  function ParentOf(calls: seq<Invocation>, id: u64): Option<u64> {
    if calls == [] then None
    else if calls[|calls| - 1].id == id then calls[|calls| - 1].parentId
    else ParentOf(calls[..|calls| - 1], id)
  }

  /** The `n`-th step of the parent chain of `id`. */
  function Ancestor(calls: seq<Invocation>, id: u64, n: nat): Option<u64> {
    if n == 0 then Some(id)
    else
      match Ancestor(calls, id, n - 1)
      case None => None
      case Some(a) => ParentOf(calls, a)
  }

  /** The parent chain of `id` ends. */
  ghost predicate Grounded(calls: seq<Invocation>, id: u64) {
    exists n: nat :: Ancestor(calls, id, n) == None
  }

  ghost predicate InvocationOk(p: Profile, i: Invocation) {
    && i.functionId in FunctionIds(p.functions)
    && i.tid in ThreadIds(p.threads)
    && i.startNs <= i.endNs
    && (i.parentId.Some? ==> i.parentId.value in InvocationIds(p.invocations))
    && Grounded(p.invocations, i.id)
  }

  ghost predicate FrameOk(p: Profile, f: Frame) {
    f.functionId.Some? ==> f.functionId.value in FunctionIds(p.functions)
  }

  ghost predicate StackOk(p: Profile, s: Stack) {
    forall i | 0 <= i < |s.frames| :: FrameOk(p, s.frames[i])
  }

  /** The sample lies in an invocation of its own thread and refers to a stack. */
  ghost predicate SampleOk(p: Profile, x: Sample) {
    && (exists i :: 0 <= i < |p.invocations| && SampleWithin(x, p.invocations[i]))
    && x.stackId in StackIds(p.stacks)
  }

  predicate SampleWithin(x: Sample, i: Invocation) {
    x.invocationId == i.id && x.tid == i.tid && i.startNs <= x.timestampNs <= i.endNs
  }

  function CountedIn(calls: seq<Invocation>): (n: nat)
    ensures n <= |calls|
  {
    if calls == [] then 0 else CountedIn(calls[..|calls| - 1]) + if calls[|calls| - 1].Counted() then 1 else 0
  }

  ghost predicate CountersOk(p: Profile) {
    && p.quality.completeInvocations <= CountedIn(p.invocations)
    && p.quality.incompleteInvocations <= |p.invocations| - CountedIn(p.invocations)
    && |p.samples| <= p.quality.samplesGenerated
  }

  ghost predicate IdsOk(p: Profile) {
    && Distinct(FunctionIds(p.functions))
    && Distinct(ThreadIds(p.threads))
    && Distinct(InvocationIds(p.invocations))
    && Distinct(StackIds(p.stacks))
  }

  ghost predicate WellFormed(p: Profile) {
    && p.formatVersion == 1
    && IdsOk(p)
    && (forall i | 0 <= i < |p.invocations| :: InvocationOk(p, p.invocations[i]))
    && (forall i | 0 <= i < |p.stacks| :: StackOk(p, p.stacks[i]))
    && (forall i | 0 <= i < |p.samples| :: SampleOk(p, p.samples[i]))
    && CountersOk(p)
  }

  // ---- Parent chains ----

  /** Every step of the parent chain has a next one. */
  ghost predicate Endless(calls: seq<Invocation>, id: u64) {
    forall n: nat :: Ancestor(calls, id, n).Some?
  }

  lemma EndlessExact(calls: seq<Invocation>, id: u64)
    ensures Endless(calls, id) <==> !Grounded(calls, id)
  {
  }

  lemma {:induction false} EndedStays(calls: seq<Invocation>, id: u64, n: nat, m: nat)
    requires n <= m && Ancestor(calls, id, n) == None
    ensures Ancestor(calls, id, m) == None
    decreases m - n
  {
    if n < m { EndedStays(calls, id, n + 1, m); }
  }

  /** A chain that comes back to a step repeats from there on. */
  lemma {:induction false} Repeats(calls: seq<Invocation>, id: u64, i: nat, j: nat, k: nat)
    requires i < j && Ancestor(calls, id, i) == Ancestor(calls, id, j)
    ensures Ancestor(calls, id, i + k) == Ancestor(calls, id, j + k)
  {
    if k > 0 { Repeats(calls, id, i, j, k - 1); }
  }

  /** A chain that visits an id twice never ends. */
  lemma {:induction false} LoopNeverEnds(calls: seq<Invocation>, id: u64, i: nat, j: nat, m: nat)
    requires i < j && Ancestor(calls, id, i) == Ancestor(calls, id, j) && Ancestor(calls, id, j).Some?
    ensures Ancestor(calls, id, m).Some?
    decreases m
  {
    if m <= j {
      if Ancestor(calls, id, m).None? { EndedStays(calls, id, m, j); }
    } else {
      LoopNeverEnds(calls, id, i, j, m - (j - i));
      Repeats(calls, id, i, j, m - j);
    }
  }

  // ---- The first fault, in the order of the checks ----

  /** The first id that repeats an earlier one. */
  function Duplicate(kind: RecordKind, ids: seq<u64>): Option<Fault> {
    if ids == [] then None
    else
      var n := |ids| - 1;
      var earlier := Duplicate(kind, ids[..n]);
      if earlier.Some? then earlier
      else if ids[n] in ids[..n] then Some(DuplicateId(kind, ids[n]))
      else None
  }

  ghost function InvocationFault(p: Profile, i: Invocation): Option<Fault> {
    if i.functionId !in FunctionIds(p.functions) then Some(UnknownFunction(InvocationRecord, i.functionId))
    else if i.tid !in ThreadIds(p.threads) then Some(UnknownThread(i.tid))
    else if i.endNs < i.startNs then Some(InvalidInvocationBounds(i.id))
    else if i.parentId.Some? && i.parentId.value !in InvocationIds(p.invocations) then
      Some(UnknownInvocation(i.parentId.value))
    else if !Grounded(p.invocations, i.id) then Some(CyclicInvocationParent(i.id))
    else None
  }

  function FrameFault(p: Profile, f: Frame): Option<Fault> {
    if f.functionId.Some? && f.functionId.value !in FunctionIds(p.functions) then
      Some(UnknownFunction(FrameRecord, f.functionId.value))
    else None
  }

  function StackFault(p: Profile, frames: seq<Frame>): Option<Fault> {
    if frames == [] then None
    else
      var earlier := StackFault(p, frames[..|frames| - 1]);
      if earlier.Some? then earlier else FrameFault(p, frames[|frames| - 1])
  }

  /** The first invocation with an id. */
  function FindInvocation(calls: seq<Invocation>, id: u64): (r: Option<Invocation>)
    ensures r.Some? <==> id in InvocationIds(calls)
    ensures r.Some? ==> r.value in calls && r.value.id == id
    decreases |calls|
  {
    if calls == [] then None
    else if calls[0].id == id then
      assert InvocationIds(calls)[0] == id;
      Some(calls[0])
    else
      assert InvocationIds(calls) == [calls[0].id as u64] + InvocationIds(calls[1..]);
      FindInvocation(calls[1..], id)
  }

  function SampleFault(p: Profile, x: Sample): Option<Fault> {
    match FindInvocation(p.invocations, x.invocationId)
    case None => Some(UnknownInvocation(x.invocationId))
    case Some(i) =>
      if x.stackId !in StackIds(p.stacks) then Some(UnknownStack(x.stackId))
      else if x.tid != i.tid then Some(SampleThreadMismatch(x.invocationId, x.tid, i.tid))
      else if x.timestampNs < i.startNs || x.timestampNs > i.endNs then Some(SampleOutsideInvocation(x.invocationId))
      else None
  }

  ghost function InvocationsFault(p: Profile, n: nat): Option<Fault>
    requires n <= |p.invocations|
  {
    if n == 0 then None
    else
      var earlier := InvocationsFault(p, n - 1);
      if earlier.Some? then earlier else InvocationFault(p, p.invocations[n - 1])
  }

  function StacksFault(p: Profile, n: nat): Option<Fault>
    requires n <= |p.stacks|
  {
    if n == 0 then None
    else
      var earlier := StacksFault(p, n - 1);
      if earlier.Some? then earlier else StackFault(p, p.stacks[n - 1].frames)
  }

  function SamplesFault(p: Profile, n: nat): Option<Fault>
    requires n <= |p.samples|
  {
    if n == 0 then None
    else
      var earlier := SamplesFault(p, n - 1);
      if earlier.Some? then earlier else SampleFault(p, p.samples[n - 1])
  }

  function CountersFault(p: Profile): Option<Fault> {
    var complete := CountedIn(p.invocations);
    if p.quality.completeInvocations > complete
       || p.quality.incompleteInvocations > |p.invocations| - complete
       || p.quality.samplesGenerated < |p.samples|
    then Some(QualityCountersInconsistent)
    else None
  }

  ghost function FirstFault(p: Profile): Option<Fault> {
    if p.formatVersion != 1 then Some(UnsupportedVersion(p.formatVersion))
    else if Duplicate(FunctionRecord, FunctionIds(p.functions)).Some? then
      Duplicate(FunctionRecord, FunctionIds(p.functions))
    else if Duplicate(ThreadRecord, ThreadIds(p.threads)).Some? then
      Duplicate(ThreadRecord, ThreadIds(p.threads))
    else if Duplicate(InvocationRecord, InvocationIds(p.invocations)).Some? then
      Duplicate(InvocationRecord, InvocationIds(p.invocations))
    else if Duplicate(StackRecord, StackIds(p.stacks)).Some? then
      Duplicate(StackRecord, StackIds(p.stacks))
    else if InvocationsFault(p, |p.invocations|).Some? then InvocationsFault(p, |p.invocations|)
    else if StacksFault(p, |p.stacks|).Some? then StacksFault(p, |p.stacks|)
    else if SamplesFault(p, |p.samples|).Some? then SamplesFault(p, |p.samples|)
    else CountersFault(p)
  }

  // ---- No fault is found exactly in the well-formed profiles ----

  lemma {:induction false} NoDuplicate(kind: RecordKind, ids: seq<u64>)
    ensures Duplicate(kind, ids).None? <==> Distinct(ids)
  {
    if ids != [] {
      var n := |ids| - 1;
      NoDuplicate(kind, ids[..n]);
      assert ids[n] in ids[..n] <==> exists i :: 0 <= i < n && ids[i] == ids[n];
    }
  }

  lemma {:induction false} NoInvocationFault(p: Profile, n: nat)
    requires n <= |p.invocations|
    ensures InvocationsFault(p, n).None? <==> forall i | 0 <= i < n :: InvocationOk(p, p.invocations[i])
  {
    if n > 0 { NoInvocationFault(p, n - 1); }
  }

  lemma {:induction false} NoStackFault(p: Profile, frames: seq<Frame>)
    ensures StackFault(p, frames).None? <==> forall i | 0 <= i < |frames| :: FrameOk(p, frames[i])
  {
    if frames != [] { NoStackFault(p, frames[..|frames| - 1]); }
  }

  lemma {:induction false} NoStacksFault(p: Profile, n: nat)
    requires n <= |p.stacks|
    ensures StacksFault(p, n).None? <==> forall i | 0 <= i < n :: StackOk(p, p.stacks[i])
  {
    if n > 0 {
      NoStacksFault(p, n - 1);
      NoStackFault(p, p.stacks[n - 1].frames);
    }
  }

  /** With unique ids, the first invocation with the id is the only one. */
  lemma NoSampleFault(p: Profile, x: Sample)
    requires Distinct(InvocationIds(p.invocations))
    ensures SampleFault(p, x).None? <==> SampleOk(p, x)
  {
    var found := FindInvocation(p.invocations, x.invocationId);
    if found.Some? {
      var k :| 0 <= k < |p.invocations| && p.invocations[k] == found.value;
      assert InvocationIds(p.invocations)[k] == x.invocationId;
      forall i | 0 <= i < |p.invocations| && SampleWithin(x, p.invocations[i]) ensures i == k {
        assert InvocationIds(p.invocations)[i] == x.invocationId;
      }
      assert SampleOk(p, x) <==> SampleWithin(x, p.invocations[k]) && x.stackId in StackIds(p.stacks);
    } else {
      forall i | 0 <= i < |p.invocations| ensures !SampleWithin(x, p.invocations[i]) {
        assert InvocationIds(p.invocations)[i] in InvocationIds(p.invocations);
      }
    }
  }

  lemma {:induction false} NoSamplesFault(p: Profile, n: nat)
    requires n <= |p.samples| && Distinct(InvocationIds(p.invocations))
    ensures SamplesFault(p, n).None? <==> forall i | 0 <= i < n :: SampleOk(p, p.samples[i])
  {
    if n > 0 {
      NoSamplesFault(p, n - 1);
      NoSampleFault(p, p.samples[n - 1]);
    }
  }

  /** `validate` answers Ok exactly on the well-formed profiles. */
  lemma FirstFaultDecides(p: Profile)
    ensures FirstFault(p).None? <==> WellFormed(p)
  {
    NoDuplicate(FunctionRecord, FunctionIds(p.functions));
    NoDuplicate(ThreadRecord, ThreadIds(p.threads));
    NoDuplicate(InvocationRecord, InvocationIds(p.invocations));
    NoDuplicate(StackRecord, StackIds(p.stacks));
    NoInvocationFault(p, |p.invocations|);
    NoStacksFault(p, |p.stacks|);
    if Distinct(InvocationIds(p.invocations)) { NoSamplesFault(p, |p.samples|); }
  }

  /** The cycle error names an invocation whose parent chain never ends. */
  lemma {:induction false} CycleFault(p: Profile, n: nat, id: u64)
    requires n <= |p.invocations| && InvocationsFault(p, n) == Some(CyclicInvocationParent(id))
    ensures id in InvocationIds(p.invocations) && forall k: nat :: Ancestor(p.invocations, id, k).Some?
  {
    if InvocationsFault(p, n - 1).Some? {
      CycleFault(p, n - 1, id);
    } else {
      assert InvocationIds(p.invocations)[n - 1] == id;
    }
  }

  /** Everything about an invocation but its parent chain. */
  predicate OtherwiseOk(p: Profile, i: Invocation) {
    && i.functionId in FunctionIds(p.functions)
    && i.tid in ThreadIds(p.threads)
    && i.startNs <= i.endNs
    && (i.parentId.Some? ==> i.parentId.value in InvocationIds(p.invocations))
  }

  /** Once the other checks pass, the cycle error is raised exactly when some parent chain never ends. */
  lemma {:induction false} CycleErrorExact(p: Profile, n: nat)
    requires n <= |p.invocations| && forall i | 0 <= i < n :: OtherwiseOk(p, p.invocations[i])
    ensures InvocationsFault(p, n).Some? <==>
            exists i :: 0 <= i < n && Endless(p.invocations, p.invocations[i].id)
    ensures InvocationsFault(p, n).Some? ==> InvocationsFault(p, n).value.CyclicInvocationParent?
  {
    if n > 0 {
      CycleErrorExact(p, n - 1);
      EndlessExact(p.invocations, p.invocations[n - 1].id);
    }
  }

  // ---- The procedure ----

  method UniqueIds(kind: RecordKind, ids: seq<u64>) returns (r: Result<set<u64>, Fault>)
    ensures match Duplicate(kind, ids)
            case None => r.Ok? && forall id :: id in r.value <==> id in ids
            case Some(fault) => r == Err(fault)
  {
    var seen: set<u64> := {};
    for i := 0 to |ids|
      invariant Duplicate(kind, ids[..i]).None?
      invariant forall id :: id in seen <==> id in ids[..i]
    {
      assert ids[..i + 1][..i] == ids[..i];
      if ids[i] in seen {
        DuplicateStays(kind, ids, i + 1);
        return Err(DuplicateId(kind, ids[i]));
      }
      seen := seen + {ids[i]};
    }
    assert ids[..|ids|] == ids;
    r := Ok(seen);
  }

  lemma {:induction false} DuplicateStays(kind: RecordKind, ids: seq<u64>, n: nat)
    requires n <= |ids| && Duplicate(kind, ids[..n]).Some?
    ensures Duplicate(kind, ids) == Duplicate(kind, ids[..n])
    decreases |ids|
  {
    if n < |ids| {
      assert ids[..|ids| - 1][..n] == ids[..n];
      DuplicateStays(kind, ids[..|ids| - 1], n);
    } else {
      assert ids[..n] == ids;
    }
  }

  method ParentMap(calls: seq<Invocation>) returns (parents: map<u64, Option<u64>>)
    ensures forall id :: (if id in parents then parents[id] else None) == ParentOf(calls, id)
  {
    parents := map[];
    for i := 0 to |calls|
      invariant forall id :: (if id in parents then parents[id] else None) == ParentOf(calls[..i], id)
    {
      assert calls[..i + 1][..i] == calls[..i];
      parents := parents[calls[i].id := calls[i].parentId];
    }
    assert calls[..|calls|] == calls;
  }

  /** The ids of the first `n` steps of a parent chain. */
  ghost function Visited(calls: seq<Invocation>, id: u64, n: nat): set<u64> {
    if n == 0 then {}
    else
      match Ancestor(calls, id, n - 1)
      case None => Visited(calls, id, n - 1)
      case Some(a) => Visited(calls, id, n - 1) + {a}
  }

  lemma {:induction false} VisitedAt(calls: seq<Invocation>, id: u64, n: nat, x: u64) returns (j: nat)
    requires x in Visited(calls, id, n)
    ensures j < n && Ancestor(calls, id, j) == Some(x)
  {
    if Ancestor(calls, id, n - 1) == Some(x) { j := n - 1; } else { j := VisitedAt(calls, id, n - 1, x); }
  }

  lemma Revisited(calls: seq<Invocation>, id: u64, n: nat)
    requires Ancestor(calls, id, n).Some? && Ancestor(calls, id, n).value in Visited(calls, id, n)
    ensures !Grounded(calls, id)
  {
    var j := VisitedAt(calls, id, n, Ancestor(calls, id, n).value);
    forall m: nat ensures Ancestor(calls, id, m).Some? { LoopNeverEnds(calls, id, j, n, m); }
  }

  /** The walk up the parent chain, with the set of ids it has passed. */
  method IsCyclic(calls: seq<Invocation>, parents: map<u64, Option<u64>>, id: u64) returns (cyclic: bool)
    requires forall x :: (if x in parents then parents[x] else None) == ParentOf(calls, x)
    ensures cyclic <==> !Grounded(calls, id)
  {
    var ancestry: set<u64> := {};
    var current: Option<u64> := Some(id);
    ghost var n: nat := 0;
    ghost var reachable := {id} + set x | x in parents && parents[x].Some? :: parents[x].value;
    while current.Some?
      invariant current == Ancestor(calls, id, n)
      invariant ancestry == Visited(calls, id, n)
      invariant current.Some? ==> current.value in reachable
      decreases reachable - ancestry, current.Some?
    {
      var x := current.value;
      if x in ancestry {
        Revisited(calls, id, n);
        return true;
      }
      ancestry := ancestry + {x};
      current := if x in parents then parents[x] else None;
      n := n + 1;
    }
    cyclic := false;
  }

  /** `Profile::validate`. */
  method Validate(p: Profile) returns (r: Result<(), Fault>)
    ensures r == match FirstFault(p) case None => Ok(()) case Some(fault) => Err(fault)
    ensures r.Ok? <==> WellFormed(p)
  {
    FirstFaultDecides(p);
    if p.formatVersion != 1 { return Err(UnsupportedVersion(p.formatVersion)); }
    var functionIds := UniqueIds(FunctionRecord, FunctionIds(p.functions));
    if functionIds.Err? { return Err(functionIds.error); }
    var threadIds := UniqueIds(ThreadRecord, ThreadIds(p.threads));
    if threadIds.Err? { return Err(threadIds.error); }
    var invocationIds := UniqueIds(InvocationRecord, InvocationIds(p.invocations));
    if invocationIds.Err? { return Err(invocationIds.error); }
    var stackIds := UniqueIds(StackRecord, StackIds(p.stacks));
    if stackIds.Err? { return Err(stackIds.error); }

    var fault := CheckInvocations(p, functionIds.value, threadIds.value, invocationIds.value);
    if fault.Some? { return Err(fault.value); }
    fault := CheckStacks(p, functionIds.value);
    if fault.Some? { return Err(fault.value); }
    fault := CheckSamples(p, invocationIds.value, stackIds.value);
    if fault.Some? { return Err(fault.value); }
    fault := CheckCounters(p);
    r := if fault.Some? then Err(fault.value) else Ok(());
  }

  ghost predicate Lists(s: set<u64>, ids: seq<u64>) {
    forall id :: id in s <==> id in ids
  }

  lemma {:induction false} InvocationFaultStays(p: Profile, n: nat, m: nat)
    requires n <= m <= |p.invocations| && InvocationsFault(p, n).Some?
    ensures InvocationsFault(p, m) == InvocationsFault(p, n)
  {
    if n < m { InvocationFaultStays(p, n, m - 1); }
  }

  method CheckInvocations(p: Profile, functionIds: set<u64>, threadIds: set<u64>, invocationIds: set<u64>)
    returns (fault: Option<Fault>)
    requires Lists(functionIds, FunctionIds(p.functions)) && Lists(threadIds, ThreadIds(p.threads))
    requires Lists(invocationIds, InvocationIds(p.invocations))
    ensures fault == InvocationsFault(p, |p.invocations|)
  {
    var parents := ParentMap(p.invocations);
    for n := 0 to |p.invocations|
      invariant InvocationsFault(p, n).None?
    {
      var i := p.invocations[n];
      var cyclic := IsCyclic(p.invocations, parents, i.id);
      fault :=
        if i.functionId !in functionIds then Some(UnknownFunction(InvocationRecord, i.functionId))
        else if i.tid !in threadIds then Some(UnknownThread(i.tid))
        else if i.endNs < i.startNs then Some(InvalidInvocationBounds(i.id))
        else if i.parentId.Some? && i.parentId.value !in invocationIds then Some(UnknownInvocation(i.parentId.value))
        else if cyclic then Some(CyclicInvocationParent(i.id))
        else None;
      assert fault == InvocationFault(p, i);
      if fault.Some? {
        InvocationFaultStays(p, n + 1, |p.invocations|);
        return;
      }
    }
    fault := None;
  }

  lemma {:induction false} StackFaultStays(p: Profile, n: nat, m: nat)
    requires n <= m <= |p.stacks| && StacksFault(p, n).Some?
    ensures StacksFault(p, m) == StacksFault(p, n)
  {
    if n < m { StackFaultStays(p, n, m - 1); }
  }

  lemma {:induction false} FrameFaultStays(p: Profile, frames: seq<Frame>, n: nat)
    requires n <= |frames| && StackFault(p, frames[..n]).Some?
    ensures StackFault(p, frames) == StackFault(p, frames[..n])
    decreases |frames|
  {
    if n < |frames| {
      assert frames[..|frames| - 1][..n] == frames[..n];
      FrameFaultStays(p, frames[..|frames| - 1], n);
    } else {
      assert frames[..n] == frames;
    }
  }

  method CheckStacks(p: Profile, functionIds: set<u64>) returns (fault: Option<Fault>)
    requires Lists(functionIds, FunctionIds(p.functions))
    ensures fault == StacksFault(p, |p.stacks|)
  {
    for n := 0 to |p.stacks|
      invariant StacksFault(p, n).None?
    {
      var frames := p.stacks[n].frames;
      for k := 0 to |frames|
        invariant StackFault(p, frames[..k]).None?
      {
        var f := frames[k];
        assert frames[..k + 1][..k] == frames[..k];
        if f.functionId.Some? && f.functionId.value !in functionIds {
          FrameFaultStays(p, frames, k + 1);
          StackFaultStays(p, n + 1, |p.stacks|);
          return Some(UnknownFunction(FrameRecord, f.functionId.value));
        }
      }
      assert frames[..|frames|] == frames;
    }
    fault := None;
  }

  lemma {:induction false} SampleFaultStays(p: Profile, n: nat, m: nat)
    requires n <= m <= |p.samples| && SamplesFault(p, n).Some?
    ensures SamplesFault(p, m) == SamplesFault(p, n)
  {
    if n < m { SampleFaultStays(p, n, m - 1); }
  }

  method CheckSamples(p: Profile, invocationIds: set<u64>, stackIds: set<u64>) returns (fault: Option<Fault>)
    requires Lists(invocationIds, InvocationIds(p.invocations)) && Lists(stackIds, StackIds(p.stacks))
    ensures fault == SamplesFault(p, |p.samples|)
  {
    for n := 0 to |p.samples|
      invariant SamplesFault(p, n).None?
    {
      var x := p.samples[n];
      if x.invocationId !in invocationIds {
        fault := Some(UnknownInvocation(x.invocationId));
      } else if x.stackId !in stackIds {
        fault := Some(UnknownStack(x.stackId));
      } else {
        var i := FindInvocation(p.invocations, x.invocationId).value;
        fault :=
          if x.tid != i.tid then Some(SampleThreadMismatch(x.invocationId, x.tid, i.tid))
          else if x.timestampNs < i.startNs || x.timestampNs > i.endNs then
            Some(SampleOutsideInvocation(x.invocationId))
          else None;
      }
      assert fault == SampleFault(p, x);
      if fault.Some? {
        SampleFaultStays(p, n + 1, |p.samples|);
        return;
      }
    }
    fault := None;
  }

  method CheckCounters(p: Profile) returns (fault: Option<Fault>)
    ensures fault == CountersFault(p)
  {
    var complete, incomplete := 0, 0;
    for n := 0 to |p.invocations|
      invariant complete == CountedIn(p.invocations[..n]) && incomplete == n - complete
    {
      assert p.invocations[..n + 1][..n] == p.invocations[..n];
      if p.invocations[n].Counted() { complete := complete + 1; } else { incomplete := incomplete + 1; }
    }
    assert p.invocations[..|p.invocations|] == p.invocations;
    fault :=
      if p.quality.completeInvocations > complete || p.quality.incompleteInvocations > incomplete
         || p.quality.samplesGenerated < |p.samples|
      then Some(QualityCountersInconsistent)
      else None;
  }
}
