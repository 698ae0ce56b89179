/** Which fault `validate` reports: the first one in the order of its checks, naming what is wrong. */
module ValidationFaults {
  import opened Domain
  import opened Sorting
  import opened Validation

  /** The first id that repeats an earlier one. */
  ghost predicate Repeated(kind: RecordKind, ids: seq<u64>, f: Fault) {
    exists j :: 0 <= j < |ids| && ids[j] in ids[..j] && Distinct(ids[..j]) && f == DuplicateId(kind, ids[j])
  }

  /** The first thing that is wrong with an invocation: function, thread, bounds, parent, parent chain. */
  ghost predicate WrongWith(p: Profile, i: Invocation, f: Fault) {
    if i.functionId as u64 !in FunctionIds(p.functions) then f == UnknownFunction(InvocationRecord, i.functionId)
    else if i.tid as u64 !in ThreadIds(p.threads) then f == UnknownThread(i.tid)
    else if i.endNs < i.startNs then f == InvalidInvocationBounds(i.id)
    else if i.parentId.Some? && i.parentId.value !in InvocationIds(p.invocations) then
      f == UnknownInvocation(i.parentId.value)
    else Endless(p.invocations, i.id) && f == CyclicInvocationParent(i.id)
  }

  ghost predicate FirstBadInvocation(p: Profile, n: int) {
    0 <= n < |p.invocations| && !InvocationOk(p, p.invocations[n])
      && forall m | 0 <= m < n :: InvocationOk(p, p.invocations[m])
  }

  /** The first frame of a stack that names an unknown function. */
  ghost predicate WrongFrame(p: Profile, frames: seq<Frame>, f: Fault) {
    exists k :: 0 <= k < |frames| && !FrameOk(p, frames[k]) && (forall j | 0 <= j < k :: FrameOk(p, frames[j]))
                && f == UnknownFunction(FrameRecord, frames[k].functionId.value)
  }

  ghost predicate FirstBadStack(p: Profile, n: int) {
    0 <= n < |p.stacks| && !StackOk(p, p.stacks[n]) && forall m | 0 <= m < n :: StackOk(p, p.stacks[m])
  }

  /** The first thing that is wrong with a sample: invocation, stack, thread, time. */
  ghost predicate WrongSample(p: Profile, x: Sample, f: Fault) {
    if x.invocationId !in InvocationIds(p.invocations) then f == UnknownInvocation(x.invocationId)
    else if x.stackId as u64 !in StackIds(p.stacks) then f == UnknownStack(x.stackId)
    else
      exists n :: 0 <= n < |p.invocations| && p.invocations[n].id == x.invocationId
                  && (if x.tid != p.invocations[n].tid then
                        f == SampleThreadMismatch(x.invocationId, x.tid, p.invocations[n].tid)
                      else
                        !(p.invocations[n].startNs <= x.timestampNs <= p.invocations[n].endNs)
                        && f == SampleOutsideInvocation(x.invocationId))
  }

  ghost predicate FirstBadSample(p: Profile, n: int) {
    0 <= n < |p.samples| && !SampleOk(p, p.samples[n]) && forall m | 0 <= m < n :: SampleOk(p, p.samples[m])
  }

  /** The fault that a profile that is not well-formed has first. */
  ghost predicate FaultIs(p: Profile, f: Fault) {
    if p.formatVersion != 1 then f == UnsupportedVersion(p.formatVersion)
    else if !Distinct(FunctionIds(p.functions)) then Repeated(FunctionRecord, FunctionIds(p.functions), f)
    else if !Distinct(ThreadIds(p.threads)) then Repeated(ThreadRecord, ThreadIds(p.threads), f)
    else if !Distinct(InvocationIds(p.invocations)) then Repeated(InvocationRecord, InvocationIds(p.invocations), f)
    else if !Distinct(StackIds(p.stacks)) then Repeated(StackRecord, StackIds(p.stacks), f)
    else if exists n :: FirstBadInvocation(p, n) then
      exists n :: FirstBadInvocation(p, n) && WrongWith(p, p.invocations[n], f)
    else if exists n :: FirstBadStack(p, n) then
      exists n :: FirstBadStack(p, n) && WrongFrame(p, p.stacks[n].frames, f)
    else if exists n :: FirstBadSample(p, n) then
      exists n :: FirstBadSample(p, n) && WrongSample(p, p.samples[n], f)
    else f == QualityCountersInconsistent && !CountersOk(p)
  }

  lemma {:induction false} DuplicateIs(kind: RecordKind, ids: seq<u64>)
    ensures Duplicate(kind, ids).Some? <==> !Distinct(ids)
    ensures Duplicate(kind, ids).Some? ==> Repeated(kind, ids, Duplicate(kind, ids).value)
  {
    NoDuplicate(kind, ids);
    if ids != [] {
      var n := |ids| - 1;
      DuplicateIs(kind, ids[..n]);
      NoDuplicate(kind, ids[..n]);
      if Duplicate(kind, ids[..n]).Some? {
        var j :| 0 <= j < n && ids[..n][j] in ids[..n][..j] && Distinct(ids[..n][..j])
                 && Duplicate(kind, ids[..n]).value == DuplicateId(kind, ids[..n][j]);
        assert ids[..n][..j] == ids[..j] && ids[..n][j] == ids[j];
      } else if ids[n] in ids[..n] {
        assert Distinct(ids[..n]);
      }
    }
  }

  lemma {:induction false} InvocationIs(p: Profile, n: nat)
    requires n <= |p.invocations|
    ensures InvocationsFault(p, n).Some? ==>
              exists m :: m < n && FirstBadInvocation(p, m)
                && WrongWith(p, p.invocations[m], InvocationsFault(p, n).value)
  {
    if n > 0 {
      InvocationIs(p, n - 1);
      NoInvocationFault(p, n - 1);
      if InvocationsFault(p, n - 1).None? && InvocationsFault(p, n).Some? {
        EndlessExact(p.invocations, p.invocations[n - 1].id);
        assert FirstBadInvocation(p, n - 1) && WrongWith(p, p.invocations[n - 1], InvocationsFault(p, n).value);
      }
    }
  }

  lemma {:induction false} FrameIs(p: Profile, frames: seq<Frame>)
    ensures StackFault(p, frames).Some? ==> WrongFrame(p, frames, StackFault(p, frames).value)
  {
    if frames != [] {
      var n := |frames| - 1;
      FrameIs(p, frames[..n]);
      NoStackFault(p, frames[..n]);
      if StackFault(p, frames[..n]).Some? {
        var k :| 0 <= k < n && !FrameOk(p, frames[..n][k]) && (forall j | 0 <= j < k :: FrameOk(p, frames[..n][j]))
                 && StackFault(p, frames[..n]).value == UnknownFunction(FrameRecord, frames[..n][k].functionId.value);
        assert forall j | 0 <= j <= k :: frames[..n][j] == frames[j];
      } else if StackFault(p, frames).Some? {
        assert forall j | 0 <= j < n :: frames[..n][j] == frames[j];
      }
    }
  }

  lemma {:induction false} StackIs(p: Profile, n: nat)
    requires n <= |p.stacks|
    ensures StacksFault(p, n).Some? ==>
              exists m :: m < n && FirstBadStack(p, m) && WrongFrame(p, p.stacks[m].frames, StacksFault(p, n).value)
  {
    if n > 0 {
      StackIs(p, n - 1);
      NoStacksFault(p, n - 1);
      NoStackFault(p, p.stacks[n - 1].frames);
      FrameIs(p, p.stacks[n - 1].frames);
      if StacksFault(p, n - 1).None? && StacksFault(p, n).Some? {
        assert FirstBadStack(p, n - 1);
      }
    }
  }

  lemma {:induction false} SampleIs(p: Profile, x: Sample)
    ensures SampleFault(p, x).Some? ==> WrongSample(p, x, SampleFault(p, x).value)
  {
    var found := FindInvocation(p.invocations, x.invocationId);
    if found.Some? {
      var n :| 0 <= n < |p.invocations| && p.invocations[n] == found.value;
      assert p.invocations[n].id == x.invocationId;
    }
  }

  lemma {:induction false} SamplesIs(p: Profile, n: nat)
    requires n <= |p.samples| && Distinct(InvocationIds(p.invocations))
    ensures SamplesFault(p, n).Some? ==>
              exists m :: m < n && FirstBadSample(p, m) && WrongSample(p, p.samples[m], SamplesFault(p, n).value)
  {
    if n > 0 {
      SamplesIs(p, n - 1);
      if SamplesFault(p, n - 1).None? && SamplesFault(p, n).Some? { SampleStep(p, n - 1); }
    }
  }

  lemma {:induction false} SampleStep(p: Profile, n: nat)
    requires n < |p.samples| && Distinct(InvocationIds(p.invocations))
    requires SamplesFault(p, n).None? && SampleFault(p, p.samples[n]).Some?
    ensures FirstBadSample(p, n) && WrongSample(p, p.samples[n], SampleFault(p, p.samples[n]).value)
  {
    NoSamplesFault(p, n);
    NoSampleFault(p, p.samples[n]);
    SampleIs(p, p.samples[n]);
  }

  lemma {:induction false} NoneBad(p: Profile)
    requires Distinct(InvocationIds(p.invocations))
    ensures InvocationsFault(p, |p.invocations|).None? ==> !exists n :: FirstBadInvocation(p, n)
    ensures StacksFault(p, |p.stacks|).None? ==> !exists n :: FirstBadStack(p, n)
    ensures SamplesFault(p, |p.samples|).None? ==> !exists n :: FirstBadSample(p, n)
  {
    NoInvocationFault(p, |p.invocations|);
    NoStacksFault(p, |p.stacks|);
    NoSamplesFault(p, |p.samples|);
  }

  /** The records, once the ids are distinct. */
  lemma {:induction false} RecordFaultIs(p: Profile)
    requires p.formatVersion == 1 && IdsOk(p) && FirstFault(p).Some?
    ensures FaultIs(p, FirstFault(p).value)
  {
    DuplicateIs(FunctionRecord, FunctionIds(p.functions));
    DuplicateIs(ThreadRecord, ThreadIds(p.threads));
    DuplicateIs(InvocationRecord, InvocationIds(p.invocations));
    DuplicateIs(StackRecord, StackIds(p.stacks));
    InvocationIs(p, |p.invocations|);
    StackIs(p, |p.stacks|);
    SamplesIs(p, |p.samples|);
    NoneBad(p);
  }

  /** `validate` reports exactly this fault. */
  lemma {:induction false} FirstFaultIs(p: Profile)
    requires FirstFault(p).Some?
    ensures FaultIs(p, FirstFault(p).value)
  {
    if p.formatVersion == 1 {
      DuplicateIs(FunctionRecord, FunctionIds(p.functions));
      DuplicateIs(ThreadRecord, ThreadIds(p.threads));
      DuplicateIs(InvocationRecord, InvocationIds(p.invocations));
      DuplicateIs(StackRecord, StackIds(p.stacks));
      if IdsOk(p) { RecordFaultIs(p); }
    }
  }
}
