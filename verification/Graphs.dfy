/** The versioned dataflow graph in closed form.

    Versions, reader ids and guards are given here by counting occurrences in the instruction
    list, with no running state. `Compiler` shows that the one-pass compiler computes exactly
    this graph, and the executor's theorems are proved about it. */
module Graphs {
  import opened Ir

  datatype NodeInput = NodeInput(key: Key, readerId: int)

  datatype Node = Node(
    op: OpCode, rank: nat, inputs: seq<NodeInput>, output: Key,
    guard: Option<Key>, workBytes: nat)

  /** An instruction whose buffers have been resolved to chunks. */
  datatype Low = Low(op: OpCode, rank: nat, src: Base, dst: Base)

  // ---- Staging of in-place outputs ----

  ghost predicate InstReadsInput(p: Program, j: nat, owner: nat, chunk: nat)
    requires j < |p.insts|
  {
    var inst := p.insts[j];
    inst.srcChunk == chunk &&
    match inst.op
    case D2H => inst.rank == owner
    case D2D => inst.srcBuf == Input && SourceRank(inst) == owner
    case D2DReduce => inst.srcBuf == Input && SourceRank(inst) == owner
    case _ => false
  }

  ghost predicate InputRead(p: Program, owner: nat, chunk: nat) {
    exists j :: 0 <= j < |p.insts| && InstReadsInput(p, j, owner, chunk)
  }

  /** Does the output chunk share its bytes with an input chunk that some instruction reads? */
  ghost predicate OverlapsLiveInput(p: Program, o: Options, owner: nat, chunk: nat) {
    match o.alias
    case SameBase => InputRead(p, owner, chunk)
    case AllGatherAlias =>
      var inputChunk := chunk - owner * Max(1, p.inputChunks);
      inputChunk >= 0 && InputRead(p, owner, inputChunk)
  }

  predicate WritesDevice(op: OpCode) {
    op == H2D || op == D2D || op == D2DReduce
  }

  ghost predicate InstWritesOutput(p: Program, j: nat, owner: nat, chunk: nat)
    requires j < |p.insts|
  {
    var inst := p.insts[j];
    WritesDevice(inst.op) && inst.dstBuf == Output && inst.rank == owner && inst.dstChunk == chunk
  }

  ghost predicate Staged(p: Program, o: Options, owner: nat, chunk: nat) {
    && o.inPlace && o.conservative
    && owner < o.world && chunk < p.outputChunks
    && OverlapsLiveInput(p, o, owner, chunk)
    && exists j :: 0 <= j < |p.insts| && InstWritesOutput(p, j, owner, chunk)
  }

  ghost function Visible(p: Program, o: Options, buf: DeviceSpace, owner: nat, chunk: nat): Base {
    if buf == Output && Staged(p, o, owner, chunk) then Base(Internal, owner, chunk)
    else Base(buf, owner, chunk)
  }

  // ---- Lowering ----

  ghost function LowerInst(p: Program, o: Options, inst: Instruction): Low
    requires inst.op != Nop
  {
    var src := if inst.op == H2D || inst.op == H2H then Base(Host, inst.srcNuma, inst.srcChunk)
               else Visible(p, o, inst.srcBuf, inst.rank, inst.srcChunk);
    var dst := if inst.op == D2H || inst.op == H2H then Base(Host, inst.dstNuma, inst.dstChunk)
               else Visible(p, o, inst.dstBuf, inst.rank, inst.dstChunk);
    Low(inst.op, inst.rank, src, dst)
  }

  /** The first `n` instructions, NOPs dropped. */
  ghost function LowerFirst(p: Program, o: Options, n: nat): (ops: seq<Low>)
    requires n <= |p.insts|
    ensures forall i :: 0 <= i < |ops| ==> ops[i].op != Nop
  {
    if n == 0 then []
    else if p.insts[n - 1].op == Nop then LowerFirst(p, o, n - 1)
    else LowerFirst(p, o, n - 1) + [LowerInst(p, o, p.insts[n - 1])]
  }

  ghost function Lower(p: Program, o: Options): seq<Low> {
    LowerFirst(p, o, |p.insts|)
  }

  // ---- Versions by counting ----

  function Writes(ops: seq<Low>, n: nat, b: Base): nat
    requires n <= |ops|
  {
    if n == 0 then 0 else Writes(ops, n - 1, b) + if ops[n - 1].dst == b then 1 else 0
  }

  /** The version instruction `i` sees when it reads `b`: the newest one produced before it.
      A chunk first produced later in the list is seen at its final version. */
  function ReadVersion(ops: seq<Low>, inputs: set<Base>, i: nat, b: Base): nat
    requires i <= |ops|
  {
    if Writes(ops, i, b) > 0 || b in inputs then Writes(ops, i, b) else Writes(ops, |ops|, b)
  }

  function SrcKey(ops: seq<Low>, inputs: set<Base>, i: nat): Key
    requires i < |ops|
  {
    Key(ops[i].src, ReadVersion(ops, inputs, i, ops[i].src))
  }

  function OutKey(ops: seq<Low>, i: nat): Key
    requires i < |ops|
  {
    Key(ops[i].dst, Writes(ops, i, ops[i].dst) + 1)
  }

  function GuardKey(ops: seq<Low>, i: nat): Key
    requires i < |ops|
  {
    Key(ops[i].dst, Writes(ops, i, ops[i].dst))
  }

  /** How many of the first `n` instructions read exactly this version. */
  function Reads(ops: seq<Low>, inputs: set<Base>, n: nat, k: Key): nat
    requires n <= |ops|
  {
    if n == 0 then 0
    else Reads(ops, inputs, n - 1, k) + if SrcKey(ops, inputs, n - 1) == k then 1 else 0
  }

  function NodeAt(ops: seq<Low>, inputs: set<Base>, sizes: Base -> nat, i: nat): Node
    requires i < |ops|
  {
    var src := NodeInput(SrcKey(ops, inputs, i), Reads(ops, inputs, i, SrcKey(ops, inputs, i)));
    var acc := NodeInput(Key(ops[i].dst, ReadVersion(ops, inputs, i, ops[i].dst)), -1);
    Node(ops[i].op, ops[i].rank, if ops[i].op == D2DReduce then [src, acc] else [src],
         OutKey(ops, i), Some(GuardKey(ops, i)), sizes(ops[i].dst))
  }

  // ---- Input chunks ----

  /** Input chunks of `rank`: the declared ones and those a D2D names with this very source rank. */
  function InputCountFirst(p: Program, rank: nat, n: nat): nat
    requires n <= |p.insts|
  {
    if n == 0 then p.inputChunks
    else
      var inst := p.insts[n - 1];
      var count := InputCountFirst(p, rank, n - 1);
      if (inst.op == D2D || inst.op == D2DReduce) && inst.srcBuf == Input && inst.srcRank == rank
      then Max(count, inst.srcChunk + 1) else count
  }

  function InputCount(p: Program, rank: nat): nat {
    InputCountFirst(p, rank, |p.insts|)
  }

  ghost function InputBases(p: Program, world: nat): set<Base> {
    set r: nat, c: nat | r < world && c < InputCount(p, r) :: Base(Input, r, c)
  }

  // ---- Copybacks ----

  function LatestKey(ops: seq<Low>, b: Base): Key {
    Key(b, Writes(ops, |ops|, b))
  }

  /** Brings a staged output chunk back to the user's buffer once its old contents are dead. */
  ghost function CopyBackNode(p: Program, o: Options, sizes: Base -> nat, r: nat, c: nat): Node {
    var ops := Lower(p, o);
    var previous := if o.alias == SameBase && c < InputCount(p, r) then LatestKey(ops, Base(Input, r, c))
               else LatestKey(ops, Base(Output, r, c));
    Node(D2D, r, [NodeInput(LatestKey(ops, Base(Internal, r, c)), -1)],
         Key(Base(Output, r, c), Writes(ops, |ops|, Base(Output, r, c)) + 1), Some(previous), sizes(Base(Output, r, c)))
  }

  /** The copybacks of one rank, for its first `n` output chunks. */
  ghost function CopyBacksOf(p: Program, o: Options, sizes: Base -> nat, r: nat, n: nat): (nodes: seq<Node>) {
    if n == 0 then []
    else CopyBacksOf(p, o, sizes, r, n - 1) +
         if Staged(p, o, r, n - 1) then [CopyBackNode(p, o, sizes, r, n - 1)] else []
  }

  ghost function CopyBacks(p: Program, o: Options, sizes: Base -> nat, ranks: nat): (nodes: seq<Node>) {
    if ranks == 0 then []
    else CopyBacks(p, o, sizes, ranks - 1) + CopyBacksOf(p, o, sizes, ranks - 1, p.outputChunks)
  }

  /** The final version of an output chunk: what the executor of `rank` waits for before it ends. */
  ghost function TerminalKey(p: Program, o: Options, rank: nat, c: nat): Key {
    var version := Writes(Lower(p, o), |Lower(p, o)|, Base(Output, rank, c));
    Key(Base(Output, rank, c), if Staged(p, o, rank, c) then version + 1 else version)
  }

  /** The nodes of all ranks: one for every instruction, then the copybacks. */
  ghost function AllNodes(p: Program, o: Options, sizes: Base -> nat): seq<Node> {
    var ops := Lower(p, o);
    seq(|ops|, i requires 0 <= i < |ops| => NodeAt(ops, InputBases(p, o.world), sizes, i)) +
    CopyBacks(p, o, sizes, o.world)
  }

  /** Registered readers of every version the first `n` instructions read. */
  function ReaderMap(ops: seq<Low>, inputs: set<Base>, n: nat): map<Key, nat>
    requires n <= |ops|
  {
    if n == 0 then map[]
    else ReaderMap(ops, inputs, n - 1)
      [SrcKey(ops, inputs, n - 1) := Reads(ops, inputs, n, SrcKey(ops, inputs, n - 1))]
  }
}
