/** The instruction format of the PCIe-CCL graph compiler: buffers, versioned progress keys,
    instructions of all ranks, and the compile options that change the versioned graph. */
module Ir {

  const MAX_CHUNKS: nat := 128
  const MAX_NUMA_NODES: nat := 8
  const MAX_PROGRESS_VERSIONS: nat := 16
  const MAX_PROGRESS_READERS: nat := 32
  const SLICE_BYTES: nat := 1024 * 1024
  const D2H_LEAD_WINDOW: nat := 4
  const EVENT_RING_CAPACITY: nat := 64

  datatype Option<+T> = None | Some(value: T)

  datatype Result<+T> = Ok(value: T) | Err(error: CompileError)

  datatype CompileError = CrossRankD2D | CrossRankReduce | TooManyReaders

  /** HOST chunks are owned by a NUMA node, device chunks by a rank. */
  datatype Space = Host | Input | Output | Scratch | Internal

  type DeviceSpace = s: Space | s != Host witness Input

  /** A chunk without its version. */
  datatype Base = Base(space: Space, owner: nat, chunk: nat)

  datatype Key = Key(base: Base, version: nat)

  datatype OpCode = Nop | D2D | D2H | H2D | H2H | D2DReduce

  datatype Instruction = Instruction(
    op: OpCode, rank: nat, srcRank: int,
    srcBuf: DeviceSpace, dstBuf: DeviceSpace,
    srcNuma: nat, srcChunk: nat, dstNuma: nat, dstChunk: nat)

  /** `insts` lists the instructions of all ranks, in the order every rank compiles them. */
  datatype Program = Program(inputChunks: nat, outputChunks: nat, insts: seq<Instruction>)

  datatype AliasMode = SameBase | AllGatherAlias

  /** `conservative` is false for the staging policies that write straight over the input. */
  datatype Options = Options(world: nat, inPlace: bool, conservative: bool, alias: AliasMode)

  function Max(a: int, b: int): int {
    if a < b then b else a
  }

  function Min(a: int, b: int): int {
    if a < b then a else b
  }

  /** The rank a device source chunk belongs to: -1 means the executing rank. */
  function SourceRank(inst: Instruction): nat {
    if inst.srcRank >= 0 then inst.srcRank else inst.rank
  }
}
