/** In-place collectives whose output buffer is the input buffer (`SameBase`, with as many output
    as input chunks, so that output chunk c lies on input chunk c). The compiler redirects an
    output that lies on a chunk some instruction reads to a staging copy and brings it back last.
    The result is the one the out-of-place collective computes on separate buffers. */
module InPlace {
  import opened Ir
  import opened Graphs
  import opened Executor
  import opened Safety
  import opened Determinism
  import opened GraphFacts
  import opened Compiled
  import RaceFreedom

  /** Where a chunk's bytes are when the output buffer is the input buffer. */
  function Place(b: Base): Base {
    if b.space == Output then Base(Input, b.owner, b.chunk) else b
  }

  function OutputOn(b: Base): Base {
    Base(Output, b.owner, b.chunk)
  }

  function PlacedResult<V>(nd: Node, combine: (V, V) -> V, mem: Memory<V>, sc: nat): V
    requires |nd.inputs| > 0
  {
    if SliceBytes(nd, sc) == 0 then mem(Place(nd.output.base), sc)
    else if nd.op == D2DReduce then combine(mem(Place(nd.output.base), sc), mem(Place(nd.inputs[0].key.base), sc))
    else mem(Place(nd.inputs[0].key.base), sc)
  }

  /** Memory after the copies of `log` when every access goes to the shared bytes. */
  function PlacedReplay<V>(pl: Plan, combine: (V, V) -> V, log: seq<Job>, mem: Memory<V>): Memory<V>
    requires Jobs(pl, log)
  {
    if |log| == 0 then mem
    else
      var n := |log| - 1;
      var before := PlacedReplay(pl, combine, log[..n], mem);
      var nd := pl.nodes[log[n].node];
      var v := PlacedResult(nd, combine, before, log[n].slice);
      (b: Base, c: nat) => if b == Place(nd.output.base) && c == log[n].slice then v else before(b, c)
  }

  /** What the API layer lets through to a conservative in-place compilation. */
  ghost predicate InPlaceProgram(p: Program, o: Options) {
    && o.inPlace && o.conservative && o.alias == SameBase && p.inputChunks == p.outputChunks
    && (forall j :: 0 <= j < |p.insts| ==> OrdinaryInst(p, o, p.insts[j]))
  }

  predicate OrdinaryInst(p: Program, o: Options, inst: Instruction) {
    && inst.rank < o.world
    && (WritesDevice(inst.op) ==> inst.dstBuf == Output || inst.dstBuf == Internal)
    && (WritesDevice(inst.op) && inst.dstBuf == Output ==> inst.dstChunk < p.outputChunks)
    && (inst.op == D2D || inst.op == D2DReduce ==> SourceRank(inst) == inst.rank)
  }

  // ---- Nobody reads an input chunk after its output has been brought back ----

  lemma NoInputWrites(p: Program, o: Options, i: nat)
    requires InPlaceProgram(p, o) && i < |Lower(p, o)|
    ensures Lower(p, o)[i].dst.space != Input
  {
    var j := LoweredAt(p, o, |p.insts|, i);
    assert OrdinaryInst(p, o, p.insts[j]);
  }

  lemma InputVersionIsZero(p: Program, o: Options, b: Base)
    requires InPlaceProgram(p, o) && b.space == Input
    ensures Writes(Lower(p, o), |Lower(p, o)|, b) == 0
  {
    forall k | 0 <= k < |Lower(p, o)| ensures Lower(p, o)[k].dst != b {
      NoInputWrites(p, o, k);
    }
    NeverWritten(Lower(p, o), |Lower(p, o)|, b);
  }

  /** An instruction that writes a visible output chunk lies on an input chunk nobody reads. */
  lemma VisibleOutputIsDead(p: Program, o: Options, i: nat, j: nat)
    requires InPlaceProgram(p, o) && i < |Lower(p, o)| && j < |Lower(p, o)|
    requires Lower(p, o)[j].dst.space == Output
    ensures Lower(p, o)[i].src != Place(Lower(p, o)[j].dst)
  {
    var jj := LoweredAt(p, o, |p.insts|, j);
    var ii := LoweredAt(p, o, |p.insts|, i);
    var writer, reader := p.insts[jj], p.insts[ii];
    assert OrdinaryInst(p, o, writer) && OrdinaryInst(p, o, reader);
    assert InstWritesOutput(p, jj, writer.rank, writer.dstChunk);
    if Lower(p, o)[i].src == Base(Input, writer.rank, writer.dstChunk) {
      assert InstReadsInput(p, ii, writer.rank, writer.dstChunk);
      assert Staged(p, o, writer.rank, writer.dstChunk);
    }
  }

  /** A copyback waits for every reader of the input chunk it lands on. */
  lemma CopybackWaitsForReaders(p: Program, o: Options, sizes: Base -> nat, lane: seq<nat>, slices: nat,
                                windowed: set<nat>, i: nat, j: nat)
    requires InPlaceProgram(p, o) && Compilable(p, o) && InOrder(p, o)
    requires i < |Lower(p, o)| <= j < |AllNodes(p, o, sizes)|
    requires Lower(p, o)[i].src == Place(AllNodes(p, o, sizes)[j].output.base)
    ensures var pl := CompiledPlan(p, o, sizes, lane, slices, windowed); MustPrecede(pl, pl.nodes[j], i)
  {
    var ops, inputs := Lower(p, o), InputBases(p, o.world);
    BodyNode(p, o, sizes, i);
    TailNode(p, o, sizes, j);
    assert InOrderAt(ops, inputs, i);
    InputVersionIsZero(p, o, ops[i].src);
    WritesGrow(ops, i, |ops|, ops[i].src);
    ReadVersionBound(ops, inputs, i, ops[i].src);
  }

  ghost predicate OutputDone(pl: Plan, log: seq<Job>, b: Base, c: nat)
    requires Jobs(pl, log)
  {
    exists q :: 0 <= q < |log| && WritesSlice(pl, log[q], OutputOn(b), c)
  }

  /** In every order the executors can take, a read of an input slice comes before anything is
      written to the same bytes as output. */
  lemma InputReadBeforeOverwrite(p: Program, o: Options, sizes: Base -> nat, lane: seq<nat>, slices: nat,
                                 windowed: set<nat>, log: seq<Job>, n: nat)
    requires InPlaceProgram(p, o) && Compilable(p, o) && InOrder(p, o)
    requires var pl := CompiledPlan(p, o, sizes, lane, slices, windowed);
      Legal(pl, log) && n < |log| && pl.nodes[log[n].node].inputs[0].key.base.space == Input
    ensures var pl := CompiledPlan(p, o, sizes, lane, slices, windowed);
      Jobs(pl, log[..n]) && !OutputDone(pl, log[..n], pl.nodes[log[n].node].inputs[0].key.base, log[n].slice)
  {
    var pl := CompiledPlan(p, o, sizes, lane, slices, windowed);
    var i := log[n].node;
    var src := pl.nodes[i].inputs[0].key.base;
    if i >= |Lower(p, o)| {
      TailNode(p, o, sizes, i);
    } else {
      BodyNode(p, o, sizes, i);
      forall q | 0 <= q < n ensures !WritesSlice(pl, log[q], OutputOn(src), log[n].slice) {
        var j := log[q].node;
        if WritesSlice(pl, log[q], OutputOn(src), log[n].slice) {
          if j < |Lower(p, o)| {
            BodyNode(p, o, sizes, j);
            VisibleOutputIsDead(p, o, i, j);
          } else {
            CopybackWaitsForReaders(p, o, sizes, lane, slices, windowed, i, j);
            PrecedesInLog(pl, log, q, i, n);
          }
        }
      }
    }
  }

  lemma PrecedesInLog(pl: Plan, log: seq<Job>, q: nat, i: nat, n: nat)
    requires Legal(pl, log) && q < |log| && i < |pl.nodes| && n < |log| && log[n] == Job(i, log[q].slice)
    requires MustPrecede(pl, pl.nodes[log[q].node], i)
    ensures n < q
  {
    assert Ordered(pl, log[..q], log[q]);
    var r :| 0 <= r < q && log[..q][r] == Job(i, log[q].slice);
    assert r == n;
  }

  /** A node that reads a visible output chunk reads what was written there. */
  lemma OutputReadAfterWrite(p: Program, o: Options, sizes: Base -> nat, lane: seq<nat>, slices: nat,
                             windowed: set<nat>, log: seq<Job>, n: nat, k: Key)
    requires InPlaceProgram(p, o) && Compilable(p, o) && InOrder(p, o)
    requires var pl := CompiledPlan(p, o, sizes, lane, slices, windowed);
      && Legal(pl, log) && n < |log| && k.base.space == Output
      && exists x :: 0 <= x < |pl.nodes[log[n].node].inputs| && pl.nodes[log[n].node].inputs[x].key == k
    ensures var pl := CompiledPlan(p, o, sizes, lane, slices, windowed);
      Jobs(pl, log[..n]) && OutputDone(pl, log[..n], k.base, log[n].slice)
  {
    var pl := CompiledPlan(p, o, sizes, lane, slices, windowed);
    var i := log[n].node;
    var x :| 0 <= x < |pl.nodes[i].inputs| && pl.nodes[i].inputs[x].key == k;
    if k.version == 0 {
      ReadsInput(p, o, sizes, i, x);
    } else {
      ReadBodyVersion(p, o, sizes, lane, slices, windowed, i, x);
      var j :| 0 <= j < |pl.nodes| && pl.nodes[j].output == k;
      assert MustPrecede(pl, pl.nodes[i], j);
      assert Ordered(pl, log[..n], log[n]);
      var r :| 0 <= r < n && log[..n][r] == Job(j, log[n].slice);
      assert WritesSlice(pl, log[..n][r], OutputOn(k.base), log[n].slice);
    }
  }

  lemma ReadBodyVersion(p: Program, o: Options, sizes: Base -> nat, lane: seq<nat>, slices: nat, windowed: set<nat>,
                        i: nat, x: nat)
    requires Compilable(p, o) && i < |AllNodes(p, o, sizes)| && x < |AllNodes(p, o, sizes)[i].inputs|
    requires AllNodes(p, o, sizes)[i].inputs[x].key.version > 0
    ensures RaceFreedom.Produced(CompiledPlan(p, o, sizes, lane, slices, windowed),
            AllNodes(p, o, sizes)[i].inputs[x].key)
  {
    if i < |Lower(p, o)| {
      BodyNodeVersioned(p, o, sizes, lane, slices, windowed, i);
    } else {
      TailNodeIsCopyBack(p, o, sizes, lane, slices, windowed, i);
    }
  }

  // ---- Shared bytes hold what separate buffers would ----

  /** The bytes of `b`: its output once written, its own contents before. */
  ghost function Held<V>(pl: Plan, combine: (V, V) -> V, log: seq<Job>, mem: Memory<V>, b: Base, c: nat): V
    requires Jobs(pl, log)
  {
    var apart := Replay(pl, combine, log, mem);
    if b.space == Input && OutputDone(pl, log, b, c) then apart(OutputOn(b), c) else apart(b, c)
  }

  lemma DoneGrows(pl: Plan, front: seq<Job>, job: Job, b: Base, c: nat)
    requires Jobs(pl, front) && job.node < |pl.nodes|
    ensures Jobs(pl, front + [job])
    ensures OutputDone(pl, front + [job], b, c) <==>
            OutputDone(pl, front, b, c) || (pl.nodes[job.node].output.base == OutputOn(b) && job.slice == c)
  {
    var whole := front + [job];
    assert whole[|front|] == job;
    if OutputDone(pl, front, b, c) {
      var q :| 0 <= q < |front| && WritesSlice(pl, front[q], OutputOn(b), c);
      assert WritesSlice(pl, whole[q], OutputOn(b), c);
    }
    if WritesSlice(pl, job, OutputOn(b), c) {
      assert WritesSlice(pl, whole[|front|], OutputOn(b), c);
    }
  }

  lemma OutputSpaces(p: Program, o: Options, sizes: Base -> nat, i: nat)
    requires InPlaceProgram(p, o) && i < |AllNodes(p, o, sizes)|
    ensures AllNodes(p, o, sizes)[i].output.base.space != Input
  {
    if i < |Lower(p, o)| {
      BodyNode(p, o, sizes, i);
      NoInputWrites(p, o, i);
    } else {
      TailNode(p, o, sizes, i);
    }
  }

  /** One slice result stored both ways: at `out` on separate buffers, at its place on shared ones. */
  lemma HeldMerges<V>(b: Base, c: nat, out: Base, sc: nat, done: bool, done': bool, result: V,
                      placed: Memory<V>, placed': Memory<V>, apart: Memory<V>, apart': Memory<V>)
    requires b.space != Output && out.space != Input
    requires done' <==> done || (out == OutputOn(b) && sc == c)
    requires placed'(b, c) == if b == Place(out) && c == sc then result else placed(b, c)
    requires apart'(b, c) == if b == out && c == sc then result else apart(b, c)
    requires apart'(OutputOn(b), c) == if OutputOn(b) == out && c == sc then result else apart(OutputOn(b), c)
    requires placed(b, c) == if b.space == Input && done then apart(OutputOn(b), c) else apart(b, c)
    ensures placed'(b, c) == if b.space == Input && done' then apart'(OutputOn(b), c) else apart'(b, c)
  {
  }

  lemma HeldStep<V>(pl: Plan, combine: (V, V) -> V, front: seq<Job>, job: Job, mem: Memory<V>, b: Base, c: nat)
    requires Jobs(pl, front) && job.node < |pl.nodes| && b.space != Output &&
             pl.nodes[job.node].output.base.space != Input
    requires PlacedReplay(pl, combine, front, mem)(b, c) == Held(pl, combine, front, mem, b, c)
    requires PlacedResult(pl.nodes[job.node], combine, PlacedReplay(pl, combine, front, mem), job.slice) ==
             SliceResult(pl.nodes[job.node], combine, Replay(pl, combine, front, mem), job.slice)
    ensures Jobs(pl, front + [job])
    ensures PlacedReplay(pl, combine, front + [job], mem)(b, c) == Held(pl, combine, front + [job], mem, b, c)
  {
    DoneGrows(pl, front, job, b, c);
    PlacedOne(pl, combine, front, job, mem, b, c);
    ReplayOne(pl, combine, front, job, mem, b, c);
    ReplayOne(pl, combine, front, job, mem, OutputOn(b), c);
    var nd, whole := pl.nodes[job.node], front + [job];
    assert Jobs(pl, whole);
    HeldMerges(b, c, nd.output.base, job.slice, OutputDone(pl, front, b, c), OutputDone(pl, whole, b, c),
               SliceResult(nd, combine, Replay(pl, combine, front, mem), job.slice),
               PlacedReplay(pl, combine, front, mem), PlacedReplay(pl, combine, whole, mem),
               Replay(pl, combine, front, mem), Replay(pl, combine, whole, mem));
  }

  lemma HeldStepAt<V>(pl: Plan, combine: (V, V) -> V, log: seq<Job>, m: nat, n: nat, mem: Memory<V>, b: Base, c: nat)
    requires Jobs(pl, log) && n == m + 1 <= |log| && b.space != Output &&
             pl.nodes[log[m].node].output.base.space != Input
    requires PlacedReplay(pl, combine, log[..m], mem)(b, c) == Held(pl, combine, log[..m], mem, b, c)
    requires PlacedResult(pl.nodes[log[m].node], combine, PlacedReplay(pl, combine, log[..m], mem), log[m].slice) ==
             SliceResult(pl.nodes[log[m].node], combine, Replay(pl, combine, log[..m], mem), log[m].slice)
    ensures Jobs(pl, log[..n])
    ensures PlacedReplay(pl, combine, log[..n], mem)(b, c) == Held(pl, combine, log[..n], mem, b, c)
  {
    HeldStep(pl, combine, log[..m], log[m], mem, b, c);
    assert log[..n] == log[..m] + [log[m]];
  }

  lemma PlacedOne<V>(pl: Plan, combine: (V, V) -> V, front: seq<Job>, job: Job, mem: Memory<V>, b: Base, c: nat)
    requires Jobs(pl, front) && job.node < |pl.nodes|
    ensures Jobs(pl, front + [job])
    ensures PlacedReplay(pl, combine, front + [job], mem)(b, c) ==
            if b == Place(pl.nodes[job.node].output.base) && c == job.slice
            then PlacedResult(pl.nodes[job.node], combine, PlacedReplay(pl, combine, front, mem), job.slice)
            else PlacedReplay(pl, combine, front, mem)(b, c)
  {
    var whole := front + [job];
    assert whole[..|front|] == front && whole[|front|] == job;
  }

  lemma ReplayOne<V>(pl: Plan, combine: (V, V) -> V, front: seq<Job>, job: Job, mem: Memory<V>, b: Base, c: nat)
    requires Jobs(pl, front) && job.node < |pl.nodes|
    ensures Jobs(pl, front + [job])
    ensures Replay(pl, combine, front + [job], mem)(b, c) ==
            if b == pl.nodes[job.node].output.base && c == job.slice
            then SliceResult(pl.nodes[job.node], combine, Replay(pl, combine, front, mem), job.slice)
            else Replay(pl, combine, front, mem)(b, c)
  {
    var whole := front + [job];
    assert whole[..|front|] == front && whole[|front|] == job;
  }

  lemma {:induction false} PlacedIsHeld<V>(p: Program, o: Options, sizes: Base -> nat, lane: seq<nat>, slices: nat,
                                           windowed: set<nat>,
                                           combine: (V, V) -> V, log: seq<Job>, n: nat, mem: Memory<V>, b: Base, c: nat)
    requires InPlaceProgram(p, o) && Compilable(p, o) && InOrder(p, o)
    requires forall b :: sizes(b) > (slices - 1) * SLICE_BYTES
    requires var pl := CompiledPlan(p, o, sizes, lane, slices, windowed);
      WellFormed(pl) && Legal(pl, log) && n <= |log| && forall q :: 0 <= q < |log| ==> log[q].slice < slices
    requires b.space != Output
    ensures var pl := CompiledPlan(p, o, sizes, lane, slices, windowed);
      Jobs(pl, log[..n]) && PlacedReplay(pl, combine, log[..n], mem)(b, c) == Held(pl, combine, log[..n], mem, b, c)
    decreases n, 0
  {
    var pl := CompiledPlan(p, o, sizes, lane, slices, windowed);
    if n > 0 {
      var m := n - 1;
      OutputSpaces(p, o, sizes, log[m].node);
      PlacedIsHeld(p, o, sizes, lane, slices, windowed, combine, log, m, mem, b, c);
      SamePlacedResult(p, o, sizes, lane, slices, windowed, combine, log, m, mem);
      HeldStepAt(pl, combine, log, m, n, mem, b, c);
    }
  }

  lemma SliceNotEmpty(nd: Node, sc: nat, slices: nat)
    requires nd.workBytes > (slices - 1) * SLICE_BYTES && sc < slices
    ensures SliceBytes(nd, sc) > 0
  {
    assert sc * SLICE_BYTES <= (slices - 1) * SLICE_BYTES;
  }

  lemma {:induction false} SamePlacedResult<V>(p: Program, o: Options, sizes: Base -> nat, lane: seq<nat>,
                                               slices: nat, windowed: set<nat>,
                                               combine: (V, V) -> V, log: seq<Job>, m: nat, mem: Memory<V>)
    requires InPlaceProgram(p, o) && Compilable(p, o) && InOrder(p, o)
    requires forall b :: sizes(b) > (slices - 1) * SLICE_BYTES
    requires var pl := CompiledPlan(p, o, sizes, lane, slices, windowed);
      WellFormed(pl) && Legal(pl, log) && m < |log| && forall q :: 0 <= q < |log| ==> log[q].slice < slices
    ensures var pl := CompiledPlan(p, o, sizes, lane, slices, windowed);
      var nd := pl.nodes[log[m].node];
      && Jobs(pl, log[..m])
      && PlacedResult(nd, combine, PlacedReplay(pl, combine, log[..m], mem), log[m].slice) ==
         SliceResult(nd, combine, Replay(pl, combine, log[..m], mem), log[m].slice)
    decreases m, 2
  {
    var nd := CompiledPlan(p, o, sizes, lane, slices, windowed).nodes[log[m].node];
    WorkBytes(p, o, sizes, log[m].node);
    SliceNotEmpty(nd, log[m].slice, slices);
    SameSource(p, o, sizes, lane, slices, windowed, combine, log, m, mem);
    if nd.op == D2DReduce {
      SameDestination(p, o, sizes, lane, slices, windowed, combine, log, m, mem);
    }
  }

  lemma {:induction false} SameSource<V>(p: Program, o: Options, sizes: Base -> nat, lane: seq<nat>, slices: nat,
                                         windowed: set<nat>,
                                         combine: (V, V) -> V, log: seq<Job>, m: nat, mem: Memory<V>)
    requires InPlaceProgram(p, o) && Compilable(p, o) && InOrder(p, o)
    requires forall b :: sizes(b) > (slices - 1) * SLICE_BYTES
    requires var pl := CompiledPlan(p, o, sizes, lane, slices, windowed);
      WellFormed(pl) && Legal(pl, log) && m < |log| && forall q :: 0 <= q < |log| ==> log[q].slice < slices
    ensures var pl := CompiledPlan(p, o, sizes, lane, slices, windowed);
      var src := pl.nodes[log[m].node].inputs[0].key.base;
      && Jobs(pl, log[..m])
      && PlacedReplay(pl, combine, log[..m], mem)(Place(src), log[m].slice) ==
          Replay(pl, combine, log[..m], mem)(src, log[m].slice)
    decreases m, 1
  {
    var pl := CompiledPlan(p, o, sizes, lane, slices, windowed);
    var src := pl.nodes[log[m].node].inputs[0].key;
    PlacedIsHeld(p, o, sizes, lane, slices, windowed, combine, log, m, mem, Place(src.base), log[m].slice);
    if src.base.space == Input {
      InputReadBeforeOverwrite(p, o, sizes, lane, slices, windowed, log, m);
    } else if src.base.space == Output {
      OutputReadAfterWrite(p, o, sizes, lane, slices, windowed, log, m, src);
      SameDone(pl, log[..m], src.base, log[m].slice);
    }
  }

  lemma {:induction false} SameDestination<V>(p: Program, o: Options, sizes: Base -> nat, lane: seq<nat>, slices: nat,
                                              windowed: set<nat>,
                                              combine: (V, V) -> V, log: seq<Job>, m: nat, mem: Memory<V>)
    requires InPlaceProgram(p, o) && Compilable(p, o) && InOrder(p, o)
    requires forall b :: sizes(b) > (slices - 1) * SLICE_BYTES
    requires var pl := CompiledPlan(p, o, sizes, lane, slices, windowed);
      && WellFormed(pl) && Legal(pl, log) && m < |log| && (forall q :: 0 <= q < |log| ==> log[q].slice < slices)
      && pl.nodes[log[m].node].op == D2DReduce
    ensures var pl := CompiledPlan(p, o, sizes, lane, slices, windowed);
      var dst := pl.nodes[log[m].node].output.base;
      && Jobs(pl, log[..m])
      && PlacedReplay(pl, combine, log[..m], mem)(Place(dst), log[m].slice) ==
          Replay(pl, combine, log[..m], mem)(dst, log[m].slice)
    decreases m, 1
  {
    var pl := CompiledPlan(p, o, sizes, lane, slices, windowed);
    var nd := pl.nodes[log[m].node];
    ReduceDestination(p, o, sizes, log[m].node);
    OutputSpaces(p, o, sizes, log[m].node);
    PlacedIsHeld(p, o, sizes, lane, slices, windowed, combine, log, m, mem, Place(nd.output.base), log[m].slice);
    if nd.output.base.space == Output {
      OutputReadAfterWrite(p, o, sizes, lane, slices, windowed, log, m, nd.inputs[1].key);
      SameDone(pl, log[..m], nd.output.base, log[m].slice);
    }
  }

  lemma SameDone(pl: Plan, log: seq<Job>, b: Base, c: nat)
    requires Jobs(pl, log)
    ensures OutputDone(pl, log, b, c) <==> OutputDone(pl, log, Place(b), c)
  {
    assert OutputOn(b) == OutputOn(Place(b));
  }

  lemma ReduceDestination(p: Program, o: Options, sizes: Base -> nat, i: nat)
    requires i < |AllNodes(p, o, sizes)| && AllNodes(p, o, sizes)[i].op == D2DReduce
    ensures |AllNodes(p, o, sizes)[i].inputs| == 2
    ensures AllNodes(p, o, sizes)[i].inputs[1].key.base == AllNodes(p, o, sizes)[i].output.base
  {
    if i < |Lower(p, o)| {
      BodyNode(p, o, sizes, i);
    } else {
      TailNode(p, o, sizes, i);
    }
  }

  /** In every reachable state, no slice has been handed to a copyback before every reader of the
      input chunk it lands on has released that slice. */
  lemma CopybackAfterReaders(p: Program, o: Options, sizes: Base -> nat, lane: seq<nat>, slices: nat,
                             windowed: set<nat>,
                             s: State, i: nat, j: nat)
    requires InPlaceProgram(p, o) && Compilable(p, o) && InOrder(p, o)
    requires |lane| == |AllNodes(p, o, sizes)| && slices > 0
    requires forall b :: sizes(b) == 0 || sizes(b) > (slices - 1) * SLICE_BYTES
    requires Reachable(CompiledPlan(p, o, sizes, lane, slices, windowed), s)
    requires i < |Lower(p, o)| <= j < |AllNodes(p, o, sizes)|
    requires Lower(p, o)[i].src == Place(AllNodes(p, o, sizes)[j].output.base)
    ensures Shaped(CompiledPlan(p, o, sizes, lane, slices, windowed), s)
    ensures s.next[j] <= s.completed[i]
  {
    var pl := CompiledPlan(p, o, sizes, lane, slices, windowed);
    CompiledInv(p, o, sizes, lane, slices, windowed, s);
    BodyNodeOk(p, o, sizes, lane, slices, windowed, i);
    GuardIsSourceKey(p, o, sizes, i, j);
    BodyNode(p, o, sizes, i);
    GuardedBy(pl, s, i, j);
  }

  lemma GuardIsSourceKey(p: Program, o: Options, sizes: Base -> nat, i: nat, j: nat)
    requires InPlaceProgram(p, o) && InOrder(p, o)
    requires i < |Lower(p, o)| <= j < |AllNodes(p, o, sizes)|
    requires Lower(p, o)[i].src == Place(AllNodes(p, o, sizes)[j].output.base)
    ensures AllNodes(p, o, sizes)[j].guard == Some(SrcKey(Lower(p, o), InputBases(p, o.world), i))
  {
    TailNode(p, o, sizes, j);
    InputVersionIsZero(p, o, Lower(p, o)[i].src);
    assert InOrderAt(Lower(p, o), InputBases(p, o.world), i);
    WritesGrow(Lower(p, o), i, |Lower(p, o)|, Lower(p, o)[i].src);
    ReadVersionBound(Lower(p, o), InputBases(p, o.world), i, Lower(p, o)[i].src);
  }

  lemma GuardedBy(pl: Plan, s: State, i: nat, j: nat)
    requires Shaped(pl, s) && RdOk(pl, s) && WaitsOk(pl, s) && i < |pl.nodes| && j < |pl.nodes|
    requires Registered(pl, i) && NodeOk(pl, i) && pl.nodes[j].guard == Some(pl.nodes[i].inputs[0].key)
    ensures s.next[j] <= s.completed[i]
  {
    assert NodeWaits(pl, s, j);
    var inp := pl.nodes[i].inputs[0];
    assert s.next[j] <= Rd(s, inp.key, inp.readerId);
  }
}
