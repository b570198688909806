/** What a program means, read off the instructions as they are written: each opcode names the chunk
    it reads and the chunk it writes. Lowering, versions, staging and scheduling play no part, and
    runs of the compiled program leave exactly this. */
module Meaning {
  import opened Ir
  import opened Graphs
  import opened Executor
  import opened Safety
  import opened Determinism
  import opened Progress
  import opened Deadlock
  import opened GraphFacts
  import opened Compiled
  import opened Completion
  import opened Terminals
  import opened InPlace
  import opened Staging

  // ---- One instruction after the other ----

  /** The slices of `src` that `dst` has room for. */
  function Copied<V>(src: Base, dst: Base, sizes: Base -> nat, slices: nat, mem: Memory<V>): Memory<V> {
    (b: Base, c: nat) => if b == dst && c < slices && c * SLICE_BYTES < sizes(dst) then mem(src, c) else mem(b, c)
  }

  function Accumulated<V>(src: Base, dst: Base, combine: (V, V) -> V, sizes: Base -> nat, slices: nat,
                          mem: Memory<V>): Memory<V>
  {
    (b: Base, c: nat) =>
      if b == dst && c < slices && c * SLICE_BYTES < sizes(dst) then combine(mem(dst, c), mem(src, c)) else mem(b, c)
  }

  function Perform<V>(inst: Instruction, combine: (V, V) -> V, sizes: Base -> nat, slices: nat,
                      mem: Memory<V>): Memory<V>
  {
    var deviceSrc, deviceDst := Base(inst.srcBuf, inst.rank, inst.srcChunk),
        Base(inst.dstBuf, inst.rank, inst.dstChunk);
    var hostSrc, hostDst := Base(Host, inst.srcNuma, inst.srcChunk), Base(Host, inst.dstNuma, inst.dstChunk);
    match inst.op
    case Nop => mem
    case D2D => Copied(deviceSrc, deviceDst, sizes, slices, mem)
    case D2H => Copied(deviceSrc, hostDst, sizes, slices, mem)
    case H2D => Copied(hostSrc, deviceDst, sizes, slices, mem)
    case H2H => Copied(hostSrc, hostDst, sizes, slices, mem)
    case D2DReduce => Accumulated(deviceSrc, deviceDst, combine, sizes, slices, mem)
  }

  function Run<V>(insts: seq<Instruction>, n: nat, combine: (V, V) -> V, sizes: Base -> nat, slices: nat,
                  mem: Memory<V>): Memory<V>
    requires n <= |insts|
  {
    if n == 0 then mem else Perform(insts[n - 1], combine, sizes, slices,
        Run(insts, n - 1, combine, sizes, slices, mem))
  }

  /** Lowering keeps the meaning of every prefix. */
  lemma {:induction false} RunIsInterpret<V>(p: Program, o: Options, n: nat, combine: (V, V) -> V, sizes: Base -> nat,
                                             slices: nat, mem: Memory<V>, b: Base, c: nat)
    requires !o.inPlace && n <= |p.insts|
    ensures Run(p.insts, n, combine, sizes, slices, mem)(b, c) ==
            Interpret(LowerFirst(p, o, n), |LowerFirst(p, o, n)|, combine, sizes, slices, mem)(b, c)
  {
    if n > 0 {
      var inst := p.insts[n - 1];
      RunIsInterpret(p, o, n - 1, combine, sizes, slices, mem, b, c);
      if inst.op != Nop {
        var front, all := LowerFirst(p, o, n - 1), LowerFirst(p, o, n);
        var low := LowerInst(p, o, inst);
        assert all == front + [low];
        SamePrefix(front, all, |front|, combine, sizes, slices, mem);
        RunIsInterpret(p, o, n - 1, combine, sizes, slices, mem, low.src, c);
        RunIsInterpret(p, o, n - 1, combine, sizes, slices, mem, low.dst, c);
        PerformIsStep(p, o, inst, combine, sizes, slices, Run(p.insts, n - 1, combine, sizes, slices, mem),
            Interpret(front, |front|, combine, sizes, slices, mem), b, c);
      }
    }
  }

  lemma PerformIsStep<V>(p: Program, o: Options, inst: Instruction, combine: (V, V) -> V, sizes: Base -> nat,
                         slices: nat, mem: Memory<V>, mem': Memory<V>, b: Base, c: nat)
    requires !o.inPlace && inst.op != Nop && mem(b, c) == mem'(b, c)
    requires var low := LowerInst(p, o, inst);
      mem(low.src, c) == mem'(low.src, c) && mem(low.dst, c) == mem'(low.dst, c)
    ensures Perform(inst, combine, sizes, slices, mem)(b, c) ==
            Step(LowerInst(p, o, inst), combine, sizes, slices, mem')(b, c)
  {
  }

  /** The node an instruction compiles to reads and writes the chunks the instruction names, staging
      copies standing in for staged output chunks. */
  lemma NodeOfInstruction(p: Program, o: Options, sizes: Base -> nat, j: nat) returns (i: nat)
    requires j < |p.insts| && p.insts[j].op != Nop
    ensures var inst, nodes := p.insts[j], AllNodes(p, o, sizes);
      && i < |nodes| && nodes[i].op == inst.op && nodes[i].rank == inst.rank && |nodes[i].inputs| > 0
      && nodes[i].inputs[0].key.base ==
         (if inst.op == H2D || inst.op == H2H then Base(Host, inst.srcNuma, inst.srcChunk)
          else Redirect(p, o, Base(inst.srcBuf, inst.rank, inst.srcChunk)))
      && nodes[i].output.base ==
         (if inst.op == D2H || inst.op == H2H then Base(Host, inst.dstNuma, inst.dstChunk)
          else Redirect(p, o, Base(inst.dstBuf, inst.rank, inst.dstChunk)))
  {
    i := LowerKeeps(p, o, |p.insts|, j);
    BodyNode(p, o, sizes, i);
  }

  ghost predicate IsWritten(p: Program, r: nat, c: nat) {
    exists j :: 0 <= j < |p.insts| && InstWritesOutput(p, j, r, c)
  }

  lemma WrittenIsLowered(p: Program, o: Options, r: nat, c: nat)
    ensures !Staged(p, o, r, c) ==> (Writes(Lower(p, o), |Lower(p, o)|, Base(Output, r, c)) > 0 <==> IsWritten(p, r, c))
  {
    var ops, b := Lower(p, o), Base(Output, r, c);
    if IsWritten(p, r, c) {
      var j :| 0 <= j < |p.insts| && InstWritesOutput(p, j, r, c);
      var i := LowerKeeps(p, o, |p.insts|, j);
      WritesGrow(ops, i, |ops|, ops[i].dst);
    } else if Writes(ops, |ops|, b) > 0 {
      var i := VersionHasProducer(ops, |ops|, b, 1);
      var j := LoweredAt(p, o, |p.insts|, i);
      assert InstWritesOutput(p, j, r, c);
    }
  }

  /** The condition under which the ranks can leave their loops, in terms of the instructions. */
  lemma OutputWrittenExactly(p: Program, o: Options, r: nat, c: nat)
    ensures OutputWritten(p, o, r, c) <==> IsWritten(p, r, c)
  {
    WrittenIsLowered(p, o, r, c);
  }

  // ---- Runs leave what the instructions mean ----

  /** Out of place, everywhere. */
  lemma FinishedRunMeans<V>(p: Program, o: Options, sizes: Base -> nat, lane: seq<nat>, slices: nat,
                            windowed: set<nat>, combine: (V, V) -> V, s: State, mem: Memory<V>, b: Base, c: nat)
    requires Runnable(p, o, sizes, lane, slices) && !o.inPlace
    requires var pl := CompiledPlan(p, o, sizes, lane, slices, windowed);
      Reachable(pl, s) && Shaped(pl, s) && Finished(pl, s)
    ensures var pl := CompiledPlan(p, o, sizes, lane, slices, windowed);
      && Jobs(pl, s.log)
      && Replay(pl, combine, s.log, mem)(b, c) == Run(p.insts, |p.insts|, combine, sizes, slices, mem)(b, c)
  {
    OutOfPlaceRun(p, o, sizes, lane, slices, windowed, combine, s, mem, b, c);
    RunIsInterpret(p, o, |p.insts|, combine, sizes, slices, mem, b, c);
  }

  /** In place, in every written output chunk of the buffer shared with the input. */
  lemma FinishedInPlaceMeans<V>(p: Program, o: Options, sizes: Base -> nat, lane: seq<nat>, slices: nat,
                                windowed: set<nat>, combine: (V, V) -> V, s: State, mem: Memory<V>, b: Base, c: nat)
    requires Runnable(p, o, sizes, lane, slices) && InPlaceProgram(p, o) && NoClash(p, o)
    requires AllFull(sizes, slices) && b.space == Output && c < slices
    requires IsWritten(p, b.owner, b.chunk)
    requires var pl := CompiledPlan(p, o, sizes, lane, slices, windowed);
      Reachable(pl, s) && Shaped(pl, s) && Finished(pl, s)
    ensures var pl := CompiledPlan(p, o, sizes, lane, slices, windowed);
      && Jobs(pl, s.log)
      && PlacedReplay(pl, combine, s.log, mem)(Place(b), c) ==
          Run(p.insts, |p.insts|, combine, sizes, slices, mem)(b, c)
  {
    WrittenIsLowered(p, Apart(o), b.owner, b.chunk);
    InPlaceMatchesOutOfPlace(p, o, sizes, lane, slices, windowed, combine, s, mem, b, c);
    RunIsInterpret(p, Apart(o), |p.insts|, combine, sizes, slices, mem, b, c);
  }

  lemma SomeRunFinishes(p: Program, o: Options, sizes: Base -> nat, lane: seq<nat>, slices: nat, windowed: set<nat>)
    returns (t: State)
    requires Runnable(p, o, sizes, lane, slices)
    ensures var pl := CompiledPlan(p, o, sizes, lane, slices, windowed);
      Reachable(pl, t) && Shaped(pl, t) && Finished(pl, t)
  {
    var pl := CompiledPlan(p, o, sizes, lane, slices, windowed);
    RunnablePlan(p, o, sizes, lane, slices, windowed);
    assert Reaches(pl, [], Start(pl));
    t := FinishingRun(pl, Upto(|pl.nodes|), [], Start(pl));
  }

  /** A rank that has left its loop holds in every output chunk what the instructions mean, while
      other ranks may still be working. */
  lemma ExitMeans<V>(p: Program, o: Options, sizes: Base -> nat, lane: seq<nat>, slices: nat, windowed: set<nat>,
                     combine: (V, V) -> V, s: State, mem: Memory<V>, r: nat, c: nat, sc: nat)
    requires Runnable(p, o, sizes, lane, slices) && !o.inPlace
    requires r < o.world && c < p.outputChunks && sc < slices
    requires var pl := CompiledPlan(p, o, sizes, lane, slices, windowed);
      Reachable(pl, s) && Shaped(pl, s) && TerminalsComplete(pl, s, r, TerminalKeys(p, o, r))
    ensures var pl := CompiledPlan(p, o, sizes, lane, slices, windowed);
      && Jobs(pl, s.log)
      && Replay(pl, combine, s.log, mem)(Base(Output, r, c), sc) ==
         Run(p.insts, |p.insts|, combine, sizes, slices, mem)(Base(Output, r, c), sc)
  {
    var t := SomeRunFinishes(p, o, sizes, lane, slices, windowed);
    ExitMeansOutput(p, o, sizes, lane, slices, windowed, combine, s, t, mem, r, c, sc);
    FinishedRunMeans(p, o, sizes, lane, slices, windowed, combine, t, mem, Base(Output, r, c), sc);
  }

  /** So does a rank of an in-place collective, in the buffer it shares with the input. */
  lemma ExitMeansInPlace<V>(p: Program, o: Options, sizes: Base -> nat, lane: seq<nat>, slices: nat,
                            windowed: set<nat>, combine: (V, V) -> V, s: State, mem: Memory<V>, r: nat, c: nat, sc: nat)
    requires Runnable(p, o, sizes, lane, slices) && InPlaceProgram(p, o) && NoClash(p, o) && AllFull(sizes, slices)
    requires r < o.world && c < p.outputChunks && sc < slices
    requires var pl := CompiledPlan(p, o, sizes, lane, slices, windowed);
      Reachable(pl, s) && Shaped(pl, s) && TerminalsComplete(pl, s, r, TerminalKeys(p, o, r))
    ensures var pl := CompiledPlan(p, o, sizes, lane, slices, windowed);
      && Jobs(pl, s.log)
      && PlacedReplay(pl, combine, s.log, mem)(Place(Base(Output, r, c)), sc) ==
         Run(p.insts, |p.insts|, combine, sizes, slices, mem)(Base(Output, r, c), sc)
  {
    var pl := CompiledPlan(p, o, sizes, lane, slices, windowed);
    var b := Base(Output, r, c);
    if !OutputWritten(p, o, r, c) {
      UnwrittenOutputNeverCompletes(p, o, sizes, lane, slices, windowed, s, r, c);
    }
    OutputWrittenExactly(p, o, r, c);
    var t := SomeRunFinishes(p, o, sizes, lane, slices, windowed);
    ExitMeansOutput(p, o, sizes, lane, slices, windowed, combine, s, t, mem, r, c, sc);
    FinishedInPlaceMeans(p, o, sizes, lane, slices, windowed, combine, t, mem, b, sc);
    HeldAtExit(p, o, sizes, lane, slices, windowed, combine, s, mem, r, c, sc);
    HeldWhenFinished(p, o, sizes, lane, slices, windowed, combine, t, mem, b, sc);
  }

  lemma HeldAtExit<V>(p: Program, o: Options, sizes: Base -> nat, lane: seq<nat>, slices: nat, windowed: set<nat>,
                      combine: (V, V) -> V, s: State, mem: Memory<V>, r: nat, c: nat, sc: nat)
    requires Runnable(p, o, sizes, lane, slices) && InPlaceProgram(p, o) && AllFull(sizes, slices)
    requires r < o.world && c < p.outputChunks && sc < slices && OutputWritten(p, o, r, c)
    requires var pl := CompiledPlan(p, o, sizes, lane, slices, windowed);
      Reachable(pl, s) && Shaped(pl, s) && TerminalsComplete(pl, s, r, TerminalKeys(p, o, r))
    ensures var pl := CompiledPlan(p, o, sizes, lane, slices, windowed);
      && Jobs(pl, s.log)
      && PlacedReplay(pl, combine, s.log, mem)(Place(Base(Output, r, c)), sc) ==
         Replay(pl, combine, s.log, mem)(Base(Output, r, c), sc)
  {
    var pl := CompiledPlan(p, o, sizes, lane, slices, windowed);
    FinishedFacts(p, o, sizes, lane, slices, windowed, s);
    var j := TerminalNode(p, o, sizes, lane, slices, windowed, r, c);
    ExitMeansTerminal(p, o, sizes, lane, slices, windowed, s, r, c, j, sc);
    var q :| 0 <= q < |s.log| && s.log[q] == Job(j, sc);
    assert WritesSlice(pl, s.log[q], OutputOn(Place(Base(Output, r, c))), sc);
    SharedHoldsOutput(p, o, sizes, lane, slices, windowed, combine, s.log, mem, Base(Output, r, c), sc);
  }

  lemma HeldWhenFinished<V>(p: Program, o: Options, sizes: Base -> nat, lane: seq<nat>, slices: nat,
                            windowed: set<nat>, combine: (V, V) -> V, t: State, mem: Memory<V>, b: Base, c: nat)
    requires Runnable(p, o, sizes, lane, slices) && InPlaceProgram(p, o) && NoClash(p, o) && AllFull(sizes, slices)
    requires b.space == Output && c < slices && IsWritten(p, b.owner, b.chunk)
    requires var pl := CompiledPlan(p, o, sizes, lane, slices, windowed);
      Reachable(pl, t) && Shaped(pl, t) && Finished(pl, t)
    ensures var pl := CompiledPlan(p, o, sizes, lane, slices, windowed);
      && Jobs(pl, t.log)
      && PlacedReplay(pl, combine, t.log, mem)(Place(b), c) == Replay(pl, combine, t.log, mem)(b, c)
  {
    WrittenIsLowered(p, Apart(o), b.owner, b.chunk);
    FinishedFacts(p, o, sizes, lane, slices, windowed, t);
    OutputIsDone(p, o, sizes, lane, slices, windowed, t, b, c);
    SharedHoldsOutput(p, o, sizes, lane, slices, windowed, combine, t.log, mem, b, c);
  }

  // ---- Through the host and back ----

  /** A chunk copied to a host chunk by one rank and from there to a device chunk by another, or the
      same, arrives. */
  lemma HostRoundTrip<V>(p: Program, o: Options, sizes: Base -> nat, lane: seq<nat>, slices: nat, windowed: set<nat>,
                         combine: (V, V) -> V, s: State, mem: Memory<V>, down: Instruction, up: Instruction, c: nat)
    requires p.insts == [down, up] && down.op == D2H && up.op == H2D
    requires down.dstNuma == up.srcNuma && down.dstChunk == up.srcChunk
    requires Runnable(p, o, sizes, lane, slices) && !o.inPlace
    requires var pl := CompiledPlan(p, o, sizes, lane, slices, windowed);
      Reachable(pl, s) && Shaped(pl, s) && Finished(pl, s)
    requires c < slices && c * SLICE_BYTES < sizes(Base(Host, down.dstNuma, down.dstChunk))
    requires c * SLICE_BYTES < sizes(Base(up.dstBuf, up.rank, up.dstChunk))
    ensures var pl := CompiledPlan(p, o, sizes, lane, slices, windowed);
      && Jobs(pl, s.log)
      && Replay(pl, combine, s.log, mem)(Base(up.dstBuf, up.rank, up.dstChunk), c) ==
         mem(Base(down.srcBuf, down.rank, down.srcChunk), c)
  {
    FinishedRunMeans(p, o, sizes, lane, slices, windowed, combine, s, mem, Base(up.dstBuf, up.rank, up.dstChunk), c);
    var after := Run(p.insts, 1, combine, sizes, slices, mem);
    assert Run(p.insts, 0, combine, sizes, slices, mem) == mem;
    assert after == Perform(down, combine, sizes, slices, mem);
    assert Run(p.insts, 2, combine, sizes, slices, mem) == Perform(up, combine, sizes, slices, after);
  }
}
