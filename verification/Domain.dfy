/** Machine integers, optional values and the profile records that every layer shares. */
module Domain {

  const U32_MAX: int := 0xFFFF_FFFF
  const U64_MAX: int := 0xFFFF_FFFF_FFFF_FFFF

  type u16 = x: int | 0 <= x <= 0xFFFF
  type u32 = x: int | 0 <= x <= U32_MAX
  type u64 = x: int | 0 <= x <= U64_MAX

  datatype Option<+T> = None | Some(value: T)

  datatype Result<+T, +E> = Ok(value: T) | Err(error: E)

  /** The value of a 64-bit counter that saturates: the exact count, cut at the largest u64. */
  function Cap(n: nat): (r: u64)
    ensures r <= n
  {
    if n <= U64_MAX then n else U64_MAX
  }

  /** `u64::saturating_add`. */
  function SatAdd(a: u64, b: u64): u64 {
    Cap(a + b)
  }

  function Max(a: int, b: int): int {
    if a < b then b else a
  }

  datatype Frame = Frame(functionId: Option<u32>, name: string, moduleName: Option<string>, address: Option<u64>)

  datatype Stack = Stack(id: u32, frames: seq<Frame>)

  datatype Function = Function(id: u32, moduleName: string, address: u64, demangledName: string)

  datatype Thread = Thread(tid: u32, name: Option<string>)

  datatype Invocation = Invocation(
    id: u64, functionId: u32, parentId: Option<u64>, tid: u32,
    startNs: u64, endNs: u64, complete: bool, valid: bool)
  {
    /** The invocation belongs to the population that queries look at. */
    predicate Counted() {
      complete && valid
    }

    /** `Invocation::duration_ns`, a saturating subtraction. */
    function Duration(): u64 {
      if endNs < startNs then 0 else endNs - startNs
    }
  }

  datatype ExecutionState = OnCpu | OffCpu

  datatype Sample = Sample(
    timestampNs: u64, invocationId: u64, stackId: u32, tid: u32,
    cpu: u32, state: ExecutionState, weightNs: u64)

  datatype Quality = Quality(
    eventsGenerated: u64, eventsDropped: u64,
    samplesGenerated: u64, samplesDropped: u64,
    completeInvocations: u64, incompleteInvocations: u64,
    stackMismatches: u64, suspectedAsyncViolations: u64)

  const NO_QUALITY := Quality(0, 0, 0, 0, 0, 0, 0, 0)

  datatype Profile = Profile(
    formatVersion: u16, functions: seq<Function>, threads: seq<Thread>,
    invocations: seq<Invocation>, stacks: seq<Stack>, samples: seq<Sample>,
    quality: Quality)

  /** The stack that an id-keyed map built from the list answers: the last one with that id. */
  function StackOf(stacks: seq<Stack>, id: u32): Option<Stack> {
    if stacks == [] then None
    else if stacks[|stacks| - 1].id == id then Some(stacks[|stacks| - 1])
    else StackOf(stacks[..|stacks| - 1], id)
  }
}
