/** In-place all-gathers: rank r's input is segment r of its output buffer, so that output chunk
    r * n + i lies on input chunk i when n chunks are gathered from each rank. Output that lies on
    input some instruction reads is staged and copied back as in `InPlace`, but here the compiler does
    not make the copyback wait for the readers of that input. It need not, because what an all-gather
    brings back to a rank's own segment is the input itself; for other programs it goes wrong. */
module InPlaceGather {
  import opened Ir
  import opened Graphs
  import opened Executor
  import opened Safety
  import opened Determinism
  import opened GraphFacts
  import opened Compiled
  import opened Staging
  import opened Meaning
  import Deadlock
  import EmptySlices
  import InPlace
  import Progress
  import RaceFreedom

  /** Where a chunk's bytes are when `n` chunks are gathered from each rank. */
  function At(n: nat, b: Base): Base {
    if b.space == Output && b.owner * n <= b.chunk < b.owner * n + n then Base(Input, b.owner, b.chunk - b.owner * n)
        else b
  }

  /** The output chunk that lies on an input chunk. */
  function Over(n: nat, b: Base): Base {
    Base(Output, b.owner, b.owner * n + b.chunk)
  }

  predicate Segment(n: nat, b: Base) {
    b.space == Input && b.chunk < n
  }

  lemma AtIs(n: nat, b: Base, d: Base)
    ensures Segment(n, b) ==> At(n, Over(n, b)) == b && At(n, b) == b
    ensures d.space != Input ==> (At(n, d) == b && Segment(n, b) <==> Segment(n, b) && d == Over(n, b))
    ensures !Segment(n, b) && At(n, d) == b ==> d == b
    ensures At(n, d) == d || Segment(n, At(n, d))
  {
  }

  function SharedResult<V>(n: nat, nd: Node, combine: (V, V) -> V, mem: Memory<V>, sc: nat): V
    requires |nd.inputs| > 0
  {
    if SliceBytes(nd, sc) == 0 then mem(At(n, nd.output.base), sc)
    else if nd.op == D2DReduce then combine(mem(At(n, nd.output.base), sc), mem(At(n, nd.inputs[0].key.base), sc))
    else mem(At(n, nd.inputs[0].key.base), sc)
  }

  /** Memory after the copies of `log` when every access goes to the shared bytes. */
  function SharedReplay<V>(pl: Plan, n: nat, combine: (V, V) -> V, log: seq<Job>, mem: Memory<V>): Memory<V>
    requires Jobs(pl, log)
  {
    if |log| == 0 then mem
    else
      var last := |log| - 1;
      var before := SharedReplay(pl, n, combine, log[..last], mem);
      var nd := pl.nodes[log[last].node];
      var v := SharedResult(n, nd, combine, before, log[last].slice);
      (b: Base, c: nat) => if b == At(n, nd.output.base) && c == log[last].slice then v else before(b, c)
  }

  /** What the API layer lets through to a conservative in-place all-gather. */
  ghost predicate GatherProgram(p: Program, o: Options) {
    && o.inPlace && o.conservative && o.alias == AllGatherAlias && p.inputChunks > 0
    && (forall j :: 0 <= j < |p.insts| ==> InPlace.OrdinaryInst(p, o, p.insts[j]) && ReadsDeclared(p, p.insts[j]))
  }

  predicate ReadsDeclared(p: Program, inst: Instruction) {
    inst.op in {D2H, D2D, D2DReduce} && inst.srcBuf == Input ==> inst.srcChunk < p.inputChunks
  }

  // ---- Who reads and writes the shared segments ----

  /** Nobody writes input chunks, and input chunks that are read belong to the segment. */
  lemma BodySpaces(p: Program, o: Options, i: nat)
    requires GatherProgram(p, o) && i < |Lower(p, o)|
    ensures Lower(p, o)[i].dst.space != Input
    ensures Lower(p, o)[i].src.space == Input ==> Segment(p.inputChunks, Lower(p, o)[i].src)
  {
    var j := LoweredAt(p, o, |p.insts|, i);
    assert InPlace.OrdinaryInst(p, o, p.insts[j]) && ReadsDeclared(p, p.insts[j]);
  }

  lemma NodeSpaces(p: Program, o: Options, sizes: Base -> nat, i: nat)
    requires GatherProgram(p, o) && i < |AllNodes(p, o, sizes)|
    ensures var nd := AllNodes(p, o, sizes)[i];
      && |nd.inputs| > 0 && nd.output.base.space != Input
      && (nd.inputs[0].key.base.space == Input ==> Segment(p.inputChunks, nd.inputs[0].key.base) && i < |Lower(p, o)|)
  {
    if i < |Lower(p, o)| {
      BodyNode(p, o, sizes, i);
      BodySpaces(p, o, i);
    } else {
      TailNode(p, o, sizes, i);
    }
  }

  /** A segment chunk that some instruction reads is only ever overwritten by a copyback. */
  lemma ReadMeansStaged(p: Program, o: Options, i: nat, j: nat)
    requires GatherProgram(p, o) && i < |Lower(p, o)| && j < |Lower(p, o)|
    requires Lower(p, o)[i].src.space == Input
    ensures Lower(p, o)[j].dst != Over(p.inputChunks, Lower(p, o)[i].src)
  {
    BodySpaces(p, o, i);
    var jj := LoweredAt(p, o, |p.insts|, j);
    var ii := LoweredAt(p, o, |p.insts|, i);
    var writer, reader := p.insts[jj], p.insts[ii];
    assert InPlace.OrdinaryInst(p, o, writer) && InPlace.OrdinaryInst(p, o, reader);
    var b := Lower(p, o)[i].src;
    assert InstReadsInput(p, ii, b.owner, b.chunk);
    assert writer.dstBuf == Output && WritesDevice(writer.op) ==> InstWritesOutput(p, jj, writer.rank, writer.dstChunk);
  }

  ghost predicate IsStagedOver(p: Program, o: Options, b: Base) {
    Staged(p, o, b.owner, b.owner * p.inputChunks + b.chunk)
  }

  ghost predicate Done(pl: Plan, log: seq<Job>, b: Base, c: nat)
    requires Jobs(pl, log)
  {
    exists q :: 0 <= q < |log| && WritesSlice(pl, log[q], b, c)
  }

  /** Staged chunks are written by their copyback only, the others never by one. */
  lemma WhoWrites(p: Program, o: Options, sizes: Base -> nat, i: nat, b: Base)
    requires i < |AllNodes(p, o, sizes)| && AllNodes(p, o, sizes)[i].output.base == b && b.space == Output
    ensures i < |Lower(p, o)| <==> !Staged(p, o, b.owner, b.chunk)
  {
    if i < |Lower(p, o)| {
      BodyNode(p, o, sizes, i);
      if Staged(p, o, b.owner, b.chunk) {
        StagedUntouched(p, o, b.owner, b.chunk, i);
      }
    } else {
      TailNode(p, o, sizes, i);
    }
  }

  // ---- What the shared bytes hold ----

  /** A segment chunk holds its output once that has been written there directly, and the input at
      any other time; every other chunk what it holds on separate buffers. */
  ghost function Held<V>(p: Program, o: Options, pl: Plan, combine: (V, V) -> V, log: seq<Job>, mem: Memory<V>,
                         b: Base, c: nat): V
    requires Jobs(pl, log)
  {
    if !Segment(p.inputChunks, b) then Replay(pl, combine, log, mem)(b, c)
    else if !IsStagedOver(p, o, b) && Done(pl, log, Over(p.inputChunks, b), c)
    then Replay(pl, combine, log, mem)(Over(p.inputChunks, b), c)
    else mem(b, c)
  }

  /** Every copyback of the order brings back what the segment held in the first place. */
  ghost predicate CopybacksRepeat<V>(p: Program, o: Options, sizes: Base -> nat, pl: Plan, combine: (V, V) -> V,
                                     log: seq<Job>, mem: Memory<V>)
    requires Jobs(pl, log) && pl.nodes == AllNodes(p, o, sizes)
  {
    forall q :: 0 <= q < |log| && log[q].node >= |Lower(p, o)| ==> RepeatsAt(p, pl, combine, log, mem, q)
  }

  ghost predicate RepeatsAt<V>(p: Program, pl: Plan, combine: (V, V) -> V, log: seq<Job>, mem: Memory<V>, q: nat)
    requires Jobs(pl, log) && q < |log|
  {
    var at := At(p.inputChunks, pl.nodes[log[q].node].output.base);
    Segment(p.inputChunks, at) ==> Value(pl, combine, log, mem, q) == mem(at, log[q].slice)
  }

  lemma DoneGrows(pl: Plan, log: seq<Job>, m: nat, b: Base, c: nat)
    requires Jobs(pl, log) && m < |log|
    ensures Jobs(pl, log[..m]) && Jobs(pl, log[..m + 1])
    ensures Done(pl, log[..m + 1], b, c) <==> Done(pl, log[..m], b, c) || WritesSlice(pl, log[m], b, c)
  {
    var front, whole := log[..m], log[..m + 1];
    assert whole[m] == log[m];
    if Done(pl, front, b, c) {
      var q :| 0 <= q < |front| && WritesSlice(pl, front[q], b, c);
      assert WritesSlice(pl, whole[q], b, c);
    }
    if WritesSlice(pl, log[m], b, c) {
      assert WritesSlice(pl, whole[m], b, c);
    }
    if Done(pl, whole, b, c) {
      var q :| 0 <= q < |whole| && WritesSlice(pl, whole[q], b, c);
      assert q < m ==> WritesSlice(pl, front[q], b, c);
    }
  }

  lemma SharedOne<V>(pl: Plan, n: nat, combine: (V, V) -> V, log: seq<Job>, m: nat, mem: Memory<V>, b: Base, c: nat)
    requires Jobs(pl, log) && m < |log|
    ensures Jobs(pl, log[..m]) && Jobs(pl, log[..m + 1])
    ensures SharedReplay(pl, n, combine, log[..m + 1], mem)(b, c) ==
            if b == At(n, pl.nodes[log[m].node].output.base) && c == log[m].slice
            then SharedResult(n, pl.nodes[log[m].node], combine, SharedReplay(pl, n, combine, log[..m], mem),
                log[m].slice)
            else SharedReplay(pl, n, combine, log[..m], mem)(b, c)
  {
    var whole := log[..m + 1];
    assert whole[..m] == log[..m] && whole[m] == log[m];
  }

  lemma ApartOne<V>(pl: Plan, combine: (V, V) -> V, log: seq<Job>, m: nat, mem: Memory<V>, b: Base, c: nat)
    requires Jobs(pl, log) && m < |log|
    ensures Jobs(pl, log[..m]) && Jobs(pl, log[..m + 1])
    ensures Replay(pl, combine, log[..m + 1], mem)(b, c) ==
            if WritesSlice(pl, log[m], b, c) then Value(pl, combine, log, mem, m)
            else Replay(pl, combine, log[..m], mem)(b, c)
  {
    var whole := log[..m + 1];
    assert whole[..m] == log[..m] && whole[m] == log[m];
  }

  /** What a copy leaves in a segment chunk: `hit` says that it lands there. */
  lemma SegmentMerges<V>(staged: bool, hit: bool, done: bool, done': bool, result: V, input: V, shared: V, shared': V,
                         over: V, over': V)
    requires shared == if !staged && done then over else input
    requires shared' == if hit then result else shared
    requires over' == if hit then result else over
    requires (done' <==> done || hit) && (staged && hit ==> result == input)
    ensures shared' == if !staged && done' then over' else input
  {
  }

  /** A copy into the output chunk over a staged segment chunk brings the input back. */
  lemma HitRepeats<V>(p: Program, o: Options, sizes: Base -> nat, pl: Plan, combine: (V, V) -> V, log: seq<Job>, m: nat,
                      mem: Memory<V>, b: Base, c: nat)
    requires pl.nodes == AllNodes(p, o, sizes) && Jobs(pl, log) && m < |log|
    requires CopybacksRepeat(p, o, sizes, pl, combine, log, mem) && Segment(p.inputChunks, b)
    requires IsStagedOver(p, o, b) && WritesSlice(pl, log[m], Over(p.inputChunks, b), c)
    ensures Value(pl, combine, log, mem, m) == mem(b, c)
  {
    WhoWrites(p, o, sizes, log[m].node, Over(p.inputChunks, b));
    AtIs(p.inputChunks, b, Over(p.inputChunks, b));
  }

  lemma SegmentStep<V>(p: Program, o: Options, sizes: Base -> nat, pl: Plan, combine: (V, V) -> V, log: seq<Job>,
                       m: nat, next: nat, mem: Memory<V>, b: Base, c: nat)
    requires GatherProgram(p, o) && pl.nodes == AllNodes(p, o, sizes) && Jobs(pl, log) && next == m + 1 <= |log|
    requires CopybacksRepeat(p, o, sizes, pl, combine, log, mem) && Segment(p.inputChunks, b)
    requires SharedReplay(pl, p.inputChunks, combine, log[..m], mem)(b, c) ==
             Held(p, o, pl, combine, log[..m], mem, b, c)
    requires SharedResult(p.inputChunks, pl.nodes[log[m].node], combine,
                          SharedReplay(pl, p.inputChunks, combine, log[..m], mem), log[m].slice) ==
             Value(pl, combine, log, mem, m)
    ensures Jobs(pl, log[..next])
    ensures SharedReplay(pl, p.inputChunks, combine, log[..next], mem)(b, c) ==
            Held(p, o, pl, combine, log[..next], mem, b, c)
  {
    var n, y := p.inputChunks, Over(p.inputChunks, b);
    SharedOne(pl, n, combine, log, m, mem, b, c);
    ApartOne(pl, combine, log, m, mem, y, c);
    DoneGrows(pl, log, m, y, c);
    NodeSpaces(p, o, sizes, log[m].node);
    AtIs(n, b, pl.nodes[log[m].node].output.base);
    var hit := WritesSlice(pl, log[m], y, c);
    if IsStagedOver(p, o, b) && hit {
      HitRepeats(p, o, sizes, pl, combine, log, m, mem, b, c);
    }
    SegmentMerges(IsStagedOver(p, o, b), hit, Done(pl, log[..m], y, c), Done(pl, log[..next], y, c),
        Value(pl, combine, log, mem, m), mem(b, c), SharedReplay(pl, n, combine, log[..m], mem)(b, c),
        SharedReplay(pl, n, combine, log[..next], mem)(b, c), Replay(pl, combine, log[..m], mem)(y, c),
        Replay(pl, combine, log[..next], mem)(y, c));
  }

  lemma OtherStep<V>(p: Program, o: Options, sizes: Base -> nat, pl: Plan, combine: (V, V) -> V, log: seq<Job>,
                     m: nat, next: nat, mem: Memory<V>, b: Base, c: nat)
    requires GatherProgram(p, o) && pl.nodes == AllNodes(p, o, sizes) && Jobs(pl, log) && next == m + 1 <= |log|
    requires !Segment(p.inputChunks, b) && At(p.inputChunks, b) == b
    requires SharedReplay(pl, p.inputChunks, combine, log[..m], mem)(b, c) == Replay(pl, combine, log[..m], mem)(b, c)
    requires SharedResult(p.inputChunks, pl.nodes[log[m].node], combine,
                          SharedReplay(pl, p.inputChunks, combine, log[..m], mem), log[m].slice) ==
             Value(pl, combine, log, mem, m)
    ensures Jobs(pl, log[..next])
    ensures SharedReplay(pl, p.inputChunks, combine, log[..next], mem)(b, c) ==
            Replay(pl, combine, log[..next], mem)(b, c)
  {
    SharedOne(pl, p.inputChunks, combine, log, m, mem, b, c);
    ApartOne(pl, combine, log, m, mem, b, c);
    AtIs(p.inputChunks, b, pl.nodes[log[m].node].output.base);
  }

  lemma HeldStep<V>(p: Program, o: Options, sizes: Base -> nat, pl: Plan, combine: (V, V) -> V, log: seq<Job>,
                    m: nat, next: nat, mem: Memory<V>, b: Base, c: nat)
    requires GatherProgram(p, o) && pl.nodes == AllNodes(p, o, sizes) && Jobs(pl, log) && next == m + 1 <= |log|
    requires CopybacksRepeat(p, o, sizes, pl, combine, log, mem) && At(p.inputChunks, b) == b
    requires SharedReplay(pl, p.inputChunks, combine, log[..m], mem)(b, c) ==
             Held(p, o, pl, combine, log[..m], mem, b, c)
    requires SharedResult(p.inputChunks, pl.nodes[log[m].node], combine,
                          SharedReplay(pl, p.inputChunks, combine, log[..m], mem), log[m].slice) ==
             Value(pl, combine, log, mem, m)
    ensures Jobs(pl, log[..next])
    ensures SharedReplay(pl, p.inputChunks, combine, log[..next], mem)(b, c) ==
            Held(p, o, pl, combine, log[..next], mem, b, c)
  {
    if Segment(p.inputChunks, b) {
      SegmentStep(p, o, sizes, pl, combine, log, m, next, mem, b, c);
    } else {
      OtherStep(p, o, sizes, pl, combine, log, m, next, mem, b, c);
    }
  }

  lemma HeldAtStart<V>(p: Program, o: Options, pl: Plan, combine: (V, V) -> V, log: seq<Job>, mem: Memory<V>,
                       b: Base, c: nat)
    requires Jobs(pl, log) && log == []
    ensures SharedReplay(pl, p.inputChunks, combine, log, mem)(b, c) == Held(p, o, pl, combine, log, mem, b, c)
  {
  }

  lemma InputsKeep<V>(p: Program, o: Options, sizes: Base -> nat, pl: Plan, combine: (V, V) -> V, log: seq<Job>, m: nat,
                      mem: Memory<V>, b: Base, c: nat)
    requires GatherProgram(p, o) && pl.nodes == AllNodes(p, o, sizes) && Jobs(pl, log) && m <= |log| && b.space == Input
    ensures Jobs(pl, log[..m]) && Replay(pl, combine, log[..m], mem)(b, c) == mem(b, c)
  {
    forall q | 0 <= q < m ensures !WritesSlice(pl, log[q], b, c) {
      NodeSpaces(p, o, sizes, log[q].node);
    }
    Untouched(pl, combine, log, mem, b, c, 0, m);
  }

  /** A node that reads an output chunk reads what has been written there. */
  lemma OutputReadAfterWrite(p: Program, o: Options, sizes: Base -> nat, lane: seq<nat>, slices: nat,
                             windowed: set<nat>, log: seq<Job>, m: nat, x: nat)
    requires Compilable(p, o) && InOrder(p, o)
    requires var pl := CompiledPlan(p, o, sizes, lane, slices, windowed);
      Legal(pl, log) && m < |log| && x < |pl.nodes[log[m].node].inputs|
      && pl.nodes[log[m].node].inputs[x].key.base.space == Output
    ensures var pl := CompiledPlan(p, o, sizes, lane, slices, windowed);
      && Jobs(pl, log[..m]) && Done(pl, log[..m], pl.nodes[log[m].node].inputs[x].key.base, log[m].slice)
      && log[m].node < |Lower(p, o)|
      && !Staged(p, o, pl.nodes[log[m].node].inputs[x].key.base.owner, pl.nodes[log[m].node].inputs[x].key.base.chunk)
  {
    var pl := CompiledPlan(p, o, sizes, lane, slices, windowed);
    var i := log[m].node;
    var k := pl.nodes[i].inputs[x].key;
    ReadsUnstaged(p, o, sizes, i, x);
    if k.version == 0 {
      ReadsInput(p, o, sizes, i, x);
    } else {
      InPlace.ReadBodyVersion(p, o, sizes, lane, slices, windowed, i, x);
      var j :| 0 <= j < |pl.nodes| && pl.nodes[j].output == k;
      assert MustPrecede(pl, pl.nodes[i], j);
      assert Ordered(pl, log[..m], log[m]);
      var r :| 0 <= r < m && log[..m][r] == Job(j, log[m].slice);
      assert WritesSlice(pl, log[..m][r], k.base, log[m].slice);
    }
  }

  lemma ReadsUnstaged(p: Program, o: Options, sizes: Base -> nat, i: nat, x: nat)
    requires i < |AllNodes(p, o, sizes)| && x < |AllNodes(p, o, sizes)[i].inputs|
    requires AllNodes(p, o, sizes)[i].inputs[x].key.base.space == Output
    ensures var b := AllNodes(p, o, sizes)[i].inputs[x].key.base; i < |Lower(p, o)| && !Staged(p, o, b.owner, b.chunk)
  {
    var b := AllNodes(p, o, sizes)[i].inputs[x].key.base;
    if i < |Lower(p, o)| {
      BodyNode(p, o, sizes, i);
      if Staged(p, o, b.owner, b.chunk) {
        StagedUntouched(p, o, b.owner, b.chunk, i);
      }
    } else {
      TailNode(p, o, sizes, i);
    }
  }

  /** What a node reads from the shared bytes is what it reads on separate buffers. */
  lemma SameRead<V>(p: Program, o: Options, sizes: Base -> nat, lane: seq<nat>, slices: nat, windowed: set<nat>,
                    combine: (V, V) -> V, log: seq<Job>, m: nat, mem: Memory<V>, x: nat)
    requires GatherProgram(p, o) && Compilable(p, o) && InOrder(p, o)
    requires var pl := CompiledPlan(p, o, sizes, lane, slices, windowed);
      && Legal(pl, log) && m < |log| && x < |pl.nodes[log[m].node].inputs|
      && (x > 0 ==> pl.nodes[log[m].node].inputs[x].key.base == pl.nodes[log[m].node].output.base)
    ensures var pl := CompiledPlan(p, o, sizes, lane, slices, windowed);
      var b := pl.nodes[log[m].node].inputs[x].key.base;
      && Jobs(pl, log[..m])
      && Held(p, o, pl, combine, log[..m], mem, At(p.inputChunks, b), log[m].slice) ==
         Replay(pl, combine, log[..m], mem)(b, log[m].slice)
  {
    var pl := CompiledPlan(p, o, sizes, lane, slices, windowed);
    var b := pl.nodes[log[m].node].inputs[x].key.base;
    NodeSpaces(p, o, sizes, log[m].node);
    if b.space == Input {
      SameReadOfInput(p, o, sizes, lane, slices, windowed, combine, log, m, mem, b);
    } else if b.space == Output {
      OutputReadAfterWrite(p, o, sizes, lane, slices, windowed, log, m, x);
      SameReadOfOutput(p, o, pl, combine, log[..m], mem, b, log[m].slice);
    } else {
      AtIs(p.inputChunks, b, b);
    }
  }

  lemma SameReadOfInput<V>(p: Program, o: Options, sizes: Base -> nat, lane: seq<nat>, slices: nat, windowed: set<nat>,
                           combine: (V, V) -> V, log: seq<Job>, m: nat, mem: Memory<V>, b: Base)
    requires GatherProgram(p, o) && Segment(p.inputChunks, b)
    requires var pl := CompiledPlan(p, o, sizes, lane, slices, windowed);
      Jobs(pl, log) && m < |log| && pl.nodes[log[m].node].inputs[0].key.base == b
    ensures var pl := CompiledPlan(p, o, sizes, lane, slices, windowed);
      && Jobs(pl, log[..m])
      && Held(p, o, pl, combine, log[..m], mem, At(p.inputChunks, b), log[m].slice) ==
         Replay(pl, combine, log[..m], mem)(b, log[m].slice)
  {
    var pl := CompiledPlan(p, o, sizes, lane, slices, windowed);
    AtIs(p.inputChunks, b, b);
    InputsKeep(p, o, sizes, pl, combine, log, m, mem, b, log[m].slice);
    if !IsStagedOver(p, o, b) {
      NeverOver(p, o, sizes, lane, slices, windowed, log, m, b);
    }
  }

  lemma SameReadOfOutput<V>(p: Program, o: Options, pl: Plan, combine: (V, V) -> V, log: seq<Job>, mem: Memory<V>,
                            b: Base, c: nat)
    requires Jobs(pl, log) && b.space == Output && Done(pl, log, b, c) && !Staged(p, o, b.owner, b.chunk)
    ensures Held(p, o, pl, combine, log, mem, At(p.inputChunks, b), c) == Replay(pl, combine, log, mem)(b, c)
  {
    AtIs(p.inputChunks, At(p.inputChunks, b), b);
  }

  /** Nothing is written over an unstaged segment chunk that a node reads. */
  lemma NeverOver(p: Program, o: Options, sizes: Base -> nat, lane: seq<nat>, slices: nat, windowed: set<nat>,
                  log: seq<Job>, m: nat, b: Base)
    requires GatherProgram(p, o) && b.space == Input && !IsStagedOver(p, o, b)
    requires var pl := CompiledPlan(p, o, sizes, lane, slices, windowed);
      Jobs(pl, log) && m < |log| && pl.nodes[log[m].node].inputs[0].key.base == b
    ensures var pl := CompiledPlan(p, o, sizes, lane, slices, windowed);
      Jobs(pl, log[..m]) && !Done(pl, log[..m], Over(p.inputChunks, b), log[m].slice)
  {
    var pl := CompiledPlan(p, o, sizes, lane, slices, windowed);
    var i := log[m].node;
    NodeSpaces(p, o, sizes, i);
    BodyNode(p, o, sizes, i);
    forall q | 0 <= q < m ensures !WritesSlice(pl, log[q], Over(p.inputChunks, b), log[m].slice) {
      var j := log[q].node;
      if pl.nodes[j].output.base == Over(p.inputChunks, b) {
        WhoWrites(p, o, sizes, j, Over(p.inputChunks, b));
        BodyNode(p, o, sizes, j);
        ReadMeansStaged(p, o, i, j);
      }
    }
  }

  /** An order the executors can take of an in-place all-gather whose copybacks bring back the input. */
  ghost predicate Setting<V>(p: Program, o: Options, sizes: Base -> nat, lane: seq<nat>, slices: nat,
                             windowed: set<nat>,
                             combine: (V, V) -> V, log: seq<Job>, mem: Memory<V>)
  {
    var pl := CompiledPlan(p, o, sizes, lane, slices, windowed);
    && GatherProgram(p, o) && Compilable(p, o) && InOrder(p, o) && AllFull(sizes, slices)
    && Legal(pl, log) && (forall q :: 0 <= q < |log| ==> log[q].slice < slices)
    && CopybacksRepeat(p, o, sizes, pl, combine, log, mem)
  }

  /** So every copy computes the same value, and the shared bytes are as described at every point. */
  lemma {:induction false} SharedIsHeld<V>(p: Program, o: Options, sizes: Base -> nat, lane: seq<nat>, slices: nat,
                                           windowed: set<nat>, combine: (V, V) -> V, log: seq<Job>, m: nat,
                                           mem: Memory<V>, b: Base, c: nat)
    requires Setting(p, o, sizes, lane, slices, windowed, combine, log, mem) && m <= |log|
    requires At(p.inputChunks, b) == b
    ensures var pl := CompiledPlan(p, o, sizes, lane, slices, windowed);
      && Jobs(pl, log[..m])
      && SharedReplay(pl, p.inputChunks, combine, log[..m], mem)(b, c) == Held(p, o, pl, combine, log[..m], mem, b, c)
    decreases m, 0
  {
    var pl := CompiledPlan(p, o, sizes, lane, slices, windowed);
    if m == 0 {
      HeldAtStart(p, o, pl, combine, log[..m], mem, b, c);
    } else {
      SharedIsHeld(p, o, sizes, lane, slices, windowed, combine, log, m - 1, mem, b, c);
      SameResult(p, o, sizes, lane, slices, windowed, combine, log, m - 1, mem);
      HeldStep(p, o, sizes, pl, combine, log, m - 1, m, mem, b, c);
    }
  }

  lemma {:induction false} SameResult<V>(p: Program, o: Options, sizes: Base -> nat, lane: seq<nat>, slices: nat,
                                         windowed: set<nat>, combine: (V, V) -> V, log: seq<Job>, m: nat,
                                             mem: Memory<V>)
    requires Setting(p, o, sizes, lane, slices, windowed, combine, log, mem) && m < |log|
    ensures var pl := CompiledPlan(p, o, sizes, lane, slices, windowed);
      && Jobs(pl, log[..m])
      && SharedResult(p.inputChunks, pl.nodes[log[m].node], combine,
                      SharedReplay(pl, p.inputChunks, combine, log[..m], mem), log[m].slice) ==
         Value(pl, combine, log, mem, m)
    decreases m, 2
  {
    var nd := CompiledPlan(p, o, sizes, lane, slices, windowed).nodes[log[m].node];
    WorkBytes(p, o, sizes, log[m].node);
    InPlace.SliceNotEmpty(nd, log[m].slice, slices);
    SharedRead(p, o, sizes, lane, slices, windowed, combine, log, m, mem, 0);
    if nd.op == D2DReduce {
      InPlace.ReduceDestination(p, o, sizes, log[m].node);
      SharedRead(p, o, sizes, lane, slices, windowed, combine, log, m, mem, 1);
    }
  }

  lemma {:induction false} SharedRead<V>(p: Program, o: Options, sizes: Base -> nat, lane: seq<nat>, slices: nat,
                                         windowed: set<nat>, combine: (V, V) -> V, log: seq<Job>, m: nat,
                                         mem: Memory<V>, x: nat)
    requires Setting(p, o, sizes, lane, slices, windowed, combine, log, mem) && m < |log|
    requires var pl := CompiledPlan(p, o, sizes, lane, slices, windowed);
      && x < |pl.nodes[log[m].node].inputs|
      && (x > 0 ==> pl.nodes[log[m].node].inputs[x].key.base == pl.nodes[log[m].node].output.base)
    ensures var pl := CompiledPlan(p, o, sizes, lane, slices, windowed);
      var b := pl.nodes[log[m].node].inputs[x].key.base;
      && Jobs(pl, log[..m])
      && SharedReplay(pl, p.inputChunks, combine, log[..m], mem)(At(p.inputChunks, b), log[m].slice) ==
         Replay(pl, combine, log[..m], mem)(b, log[m].slice)
    decreases m, 1
  {
    var b := CompiledPlan(p, o, sizes, lane, slices, windowed).nodes[log[m].node].inputs[x].key.base;
    AtIs(p.inputChunks, At(p.inputChunks, b), b);
    SharedIsHeld(p, o, sizes, lane, slices, windowed, combine, log, m, mem, At(p.inputChunks, b), log[m].slice);
    SameRead(p, o, sizes, lane, slices, windowed, combine, log, m, mem, x);
  }

  // ---- Main result ----

  /** The program is an all-gather as far as staged chunks go: what the instructions leave in a rank's
      own segment of the output is its input. */
  ghost predicate Gathers<V>(p: Program, o: Options, combine: (V, V) -> V, sizes: Base -> nat, slices: nat,
                             mem: Memory<V>)
  {
    forall b, c: nat :: Segment(p.inputChunks, b) && IsStagedOver(p, o, b) && c < slices ==>
      Run(p.insts, |p.insts|, combine, sizes, slices, mem)(Over(p.inputChunks, b), c) == mem(b, c)
  }

  /** On separate buffers the staged program leaves what the instructions mean. */
  lemma ApartMeans<V>(p: Program, o: Options, sizes: Base -> nat, lane: seq<nat>, slices: nat, windowed: set<nat>,
                      combine: (V, V) -> V, s: State, mem: Memory<V>, b: Base, c: nat)
    requires Runnable(p, o, sizes, lane, slices) && NoClash(p, o) && AllFull(sizes, slices)
    requires b.space == Output && c < slices && IsWritten(p, b.owner, b.chunk)
    requires var pl := CompiledPlan(p, o, sizes, lane, slices, windowed);
      Reachable(pl, s) && Shaped(pl, s) && Finished(pl, s)
    ensures var pl := CompiledPlan(p, o, sizes, lane, slices, windowed);
      && Jobs(pl, s.log)
      && Replay(pl, combine, s.log, mem)(b, c) == Run(p.insts, |p.insts|, combine, sizes, slices, mem)(b, c)
  {
    WrittenIsLowered(p, Apart(o), b.owner, b.chunk);
    RunIsListing(p, o, sizes, lane, slices, windowed, combine, s, mem, b, c);
    CopyBacksRestore(p, o, sizes, lane, slices, windowed, combine, mem, b, c);
    SameUpToStaging(p, o, |Lower(p, Apart(o))|, combine, sizes, slices, mem, b, c);
    LowerRedirects(p, o, |p.insts|);
    RunIsInterpret(p, Apart(o), |p.insts|, combine, sizes, slices, mem, b, c);
  }

  /** A staged chunk keeps what its copyback brought. */
  lemma CopybackStays<V>(p: Program, o: Options, sizes: Base -> nat, pl: Plan, combine: (V, V) -> V, log: seq<Job>,
                         mem: Memory<V>, q: nat)
    requires pl.nodes == AllNodes(p, o, sizes) && Legal(pl, log) && q < |log| && log[q].node >= |Lower(p, o)|
    ensures Replay(pl, combine, log, mem)(pl.nodes[log[q].node].output.base, log[q].slice) ==
            Value(pl, combine, log, mem, q)
  {
    var b, sc := pl.nodes[log[q].node].output.base, log[q].slice;
    forall r | q < r < |log| ensures !WritesSlice(pl, log[r], b, sc) {
      OneCopyback(p, o, sizes, log[q].node, log[r].node);
    }
    Untouched(pl, combine, log, mem, b, sc, q + 1, |log|);
    assert log[..|log|] == log;
    ApartOne(pl, combine, log, q, mem, b, sc);
  }

  lemma OneCopyback(p: Program, o: Options, sizes: Base -> nat, i: nat, j: nat)
    requires |Lower(p, o)| <= i < |AllNodes(p, o, sizes)| && j < |AllNodes(p, o, sizes)|
    ensures AllNodes(p, o, sizes)[i].output.base == AllNodes(p, o, sizes)[j].output.base ==> i == j
  {
    if i < j {
      DistinctOutputs(p, o, sizes, i, j);
    } else if j < i {
      DistinctOutputs(p, o, sizes, j, i);
    }
  }

  lemma StagedIsWrittenTo(p: Program, o: Options, r: nat, c: nat)
    requires Staged(p, o, r, c)
    ensures IsWritten(p, r, c)
  {
  }

  lemma GatherRepeats<V>(p: Program, o: Options, sizes: Base -> nat, lane: seq<nat>, slices: nat, windowed: set<nat>,
                         combine: (V, V) -> V, s: State, mem: Memory<V>)
    requires Runnable(p, o, sizes, lane, slices) && NoClash(p, o) && AllFull(sizes, slices)
    requires Gathers(p, o, combine, sizes, slices, mem)
    requires var pl := CompiledPlan(p, o, sizes, lane, slices, windowed);
      Reachable(pl, s) && Shaped(pl, s) && Finished(pl, s)
    ensures var pl := CompiledPlan(p, o, sizes, lane, slices, windowed);
      Jobs(pl, s.log) && CopybacksRepeat(p, o, sizes, pl, combine, s.log, mem)
  {
    FinishedFacts(p, o, sizes, lane, slices, windowed, s);
    forall q | 0 <= q < |s.log| && s.log[q].node >= |Lower(p, o)|
      ensures RepeatsAt(p, CompiledPlan(p, o, sizes, lane, slices, windowed), combine, s.log, mem, q)
    {
      CopybackRepeats(p, o, sizes, lane, slices, windowed, combine, s, mem, q);
    }
  }

  lemma CopybackRepeats<V>(p: Program, o: Options, sizes: Base -> nat, lane: seq<nat>, slices: nat, windowed: set<nat>,
                           combine: (V, V) -> V, s: State, mem: Memory<V>, q: nat)
    requires Runnable(p, o, sizes, lane, slices) && NoClash(p, o) && AllFull(sizes, slices)
    requires Gathers(p, o, combine, sizes, slices, mem)
    requires var pl := CompiledPlan(p, o, sizes, lane, slices, windowed);
      && Reachable(pl, s) && Shaped(pl, s) && Finished(pl, s) && Legal(pl, s.log)
      && q < |s.log| && s.log[q].node >= |Lower(p, o)| && s.log[q].slice < slices
    ensures var pl := CompiledPlan(p, o, sizes, lane, slices, windowed);
      Jobs(pl, s.log) && RepeatsAt(p, pl, combine, s.log, mem, q)
  {
    var pl := CompiledPlan(p, o, sizes, lane, slices, windowed);
    var b, sc := pl.nodes[s.log[q].node].output.base, s.log[q].slice;
    TailNode(p, o, sizes, s.log[q].node);
    CopybackStays(p, o, sizes, pl, combine, s.log, mem, q);
    StagedIsWrittenTo(p, o, b.owner, b.chunk);
    ApartMeans(p, o, sizes, lane, slices, windowed, combine, s, mem, b, sc);
    GathersAt(p, o, combine, sizes, slices, mem, b, sc);
  }

  lemma GathersAt<V>(p: Program, o: Options, combine: (V, V) -> V, sizes: Base -> nat, slices: nat, mem: Memory<V>,
                     b: Base, c: nat)
    requires Gathers(p, o, combine, sizes, slices, mem) && b.space == Output && Staged(p, o, b.owner, b.chunk) &&
             c < slices
    ensures var at := At(p.inputChunks, b);
      Segment(p.inputChunks, at) ==> Run(p.insts, |p.insts|, combine, sizes, slices, mem)(b, c) == mem(at, c)
  {
    AtIs(p.inputChunks, At(p.inputChunks, b), b);
  }

  /** Every finished run of an in-place all-gather leaves in the shared buffer, in every written output
      chunk, what the instructions mean on separate buffers, although copybacks do not wait for the
      readers of the input they land on. */
  lemma FinishedGatherMeans<V>(p: Program, o: Options, sizes: Base -> nat, lane: seq<nat>, slices: nat,
                               windowed: set<nat>, combine: (V, V) -> V, s: State, mem: Memory<V>, b: Base, c: nat)
    requires Runnable(p, o, sizes, lane, slices) && GatherProgram(p, o) && NoClash(p, o) && AllFull(sizes, slices)
    requires Gathers(p, o, combine, sizes, slices, mem)
    requires b.space == Output && c < slices && IsWritten(p, b.owner, b.chunk)
    requires var pl := CompiledPlan(p, o, sizes, lane, slices, windowed);
      Reachable(pl, s) && Shaped(pl, s) && Finished(pl, s)
    ensures var pl := CompiledPlan(p, o, sizes, lane, slices, windowed);
      && Jobs(pl, s.log)
      && SharedReplay(pl, p.inputChunks, combine, s.log, mem)(At(p.inputChunks, b), c) ==
         Run(p.insts, |p.insts|, combine, sizes, slices, mem)(b, c)
  {
    var pl := CompiledPlan(p, o, sizes, lane, slices, windowed);
    SharedInTheEnd(p, o, sizes, lane, slices, windowed, combine, s, mem, b, c);
    ApartMeans(p, o, sizes, lane, slices, windowed, combine, s, mem, b, c);
    WrittenIsDone(p, o, sizes, lane, slices, windowed, s, b, c);
    if Staged(p, o, b.owner, b.chunk) {
      GathersAt(p, o, combine, sizes, slices, mem, b, c);
    }
    HeldInTheEnd(p, o, pl, combine, s.log, mem, b, c, Run(p.insts, |p.insts|, combine, sizes, slices, mem)(b, c));
  }

  lemma FinishedSetting<V>(p: Program, o: Options, sizes: Base -> nat, lane: seq<nat>, slices: nat, windowed: set<nat>,
                           combine: (V, V) -> V, s: State, mem: Memory<V>)
    requires Runnable(p, o, sizes, lane, slices) && GatherProgram(p, o) && NoClash(p, o) && AllFull(sizes, slices)
    requires Gathers(p, o, combine, sizes, slices, mem)
    requires var pl := CompiledPlan(p, o, sizes, lane, slices, windowed);
      Reachable(pl, s) && Shaped(pl, s) && Finished(pl, s)
    ensures Setting(p, o, sizes, lane, slices, windowed, combine, s.log, mem)
  {
    FinishedFacts(p, o, sizes, lane, slices, windowed, s);
    GatherRepeats(p, o, sizes, lane, slices, windowed, combine, s, mem);
  }

  lemma SharedInTheEnd<V>(p: Program, o: Options, sizes: Base -> nat, lane: seq<nat>, slices: nat, windowed: set<nat>,
                          combine: (V, V) -> V, s: State, mem: Memory<V>, b: Base, c: nat)
    requires Runnable(p, o, sizes, lane, slices) && GatherProgram(p, o) && NoClash(p, o) && AllFull(sizes, slices)
    requires Gathers(p, o, combine, sizes, slices, mem)
    requires var pl := CompiledPlan(p, o, sizes, lane, slices, windowed);
      Reachable(pl, s) && Shaped(pl, s) && Finished(pl, s)
    ensures var pl := CompiledPlan(p, o, sizes, lane, slices, windowed);
      && Jobs(pl, s.log)
      && SharedReplay(pl, p.inputChunks, combine, s.log, mem)(At(p.inputChunks, b), c) ==
         Held(p, o, pl, combine, s.log, mem, At(p.inputChunks, b), c)
  {
    FinishedSetting(p, o, sizes, lane, slices, windowed, combine, s, mem);
    AtIs(p.inputChunks, At(p.inputChunks, b), b);
    SharedIsHeld(p, o, sizes, lane, slices, windowed, combine, s.log, |s.log|, mem, At(p.inputChunks, b), c);
    assert s.log[..|s.log|] == s.log;
  }

  lemma HeldInTheEnd<V>(p: Program, o: Options, pl: Plan, combine: (V, V) -> V, log: seq<Job>, mem: Memory<V>, b: Base,
                        c: nat, meant: V)
    requires Jobs(pl, log) && b.space == Output && Done(pl, log, b, c)
    requires Replay(pl, combine, log, mem)(b, c) == meant
    requires Staged(p, o, b.owner, b.chunk) && Segment(p.inputChunks, At(p.inputChunks, b)) ==>
      meant == mem(At(p.inputChunks, b), c)
    ensures Held(p, o, pl, combine, log, mem, At(p.inputChunks, b), c) == meant
  {
    AtIs(p.inputChunks, At(p.inputChunks, b), b);
  }

  lemma WrittenIsDone(p: Program, o: Options, sizes: Base -> nat, lane: seq<nat>, slices: nat, windowed: set<nat>,
                      s: State, b: Base, c: nat)
    requires Runnable(p, o, sizes, lane, slices) && NoClash(p, o)
    requires b.space == Output && c < slices && IsWritten(p, b.owner, b.chunk)
    requires var pl := CompiledPlan(p, o, sizes, lane, slices, windowed);
      Reachable(pl, s) && Shaped(pl, s) && Finished(pl, s)
    ensures var pl := CompiledPlan(p, o, sizes, lane, slices, windowed); Jobs(pl, s.log) && Done(pl, s.log, b, c)
  {
    var pl := CompiledPlan(p, o, sizes, lane, slices, windowed);
    FinishedFacts(p, o, sizes, lane, slices, windowed, s);
    WrittenIsLowered(p, Apart(o), b.owner, b.chunk);
    var j := OutputHasNode(p, o, sizes, b);
    FinishedIsComplete(pl, s);
    assert Contains(s.log, Job(j, c));
    var q :| 0 <= q < |s.log| && s.log[q] == Job(j, c);
    assert WritesSlice(pl, s.log[q], b, c);
  }

  // ---- A program that is no all-gather ----

  const GATHER: Options := Options(1, true, true, AllGatherAlias)
  const FIRST: Base := Base(Input, 0, 0)
  const SECOND: Base := Base(Input, 0, 1)
  const VIA: Base := Base(Host, 0, 0)

  /** One rank swaps its two chunks: the second directly, the first through the host. */
  function Swap(): Program {
    Program(2, 2, [Instruction(D2D, 0, -1, Input, Output, 0, 1, 0, 0),
                   Instruction(D2H, 0, -1, Input, Output, 0, 0, 0, 0),
                   Instruction(H2D, 0, -1, Input, Output, 0, 0, 0, 1)])
  }

  lemma SwapStages()
    ensures Staged(Swap(), GATHER, 0, 0) && Staged(Swap(), GATHER, 0, 1)
  {
    var p := Swap();
    assert InstWritesOutput(p, 0, 0, 0) && InstReadsInput(p, 1, 0, 0);
    assert InstWritesOutput(p, 2, 0, 1) && InstReadsInput(p, 0, 0, 1);
  }

  lemma SwapLowered()
    ensures Lower(Swap(), GATHER) == [Low(D2D, 0, SECOND, Base(Internal, 0, 0)), Low(D2H, 0, FIRST, VIA),
                                      Low(H2D, 0, VIA, Base(Internal, 0, 1))]
  {
    SwapStages();
    var p := Swap();
    assert LowerFirst(p, GATHER, 1) == [Low(D2D, 0, SECOND, Base(Internal, 0, 0))];
    assert LowerFirst(p, GATHER, 2) == [Low(D2D, 0, SECOND, Base(Internal, 0, 0)), Low(D2H, 0, FIRST, VIA)];
  }

  lemma SwapInputs()
    ensures forall b :: b in InputBases(Swap(), 1) <==> b == FIRST || b == SECOND
  {
    var p := Swap();
    assert InputCountFirst(p, 0, 1) == 2 && InputCountFirst(p, 0, 2) == 2 && InputCount(p, 0) == 2;
  }

  lemma SwapIsCompilable()
    ensures Compilable(Swap(), GATHER) && InOrder(Swap(), GATHER) && GatherProgram(Swap(), GATHER)
  {
    SwapLowered();
    SwapInputs();
    var ops := Lower(Swap(), GATHER);
    forall b ensures Writes(ops, |ops|, b) <= 3 {
      assert Writes(ops, 3, b) <= Writes(ops, 2, b) + 1 <= Writes(ops, 1, b) + 2 <= Writes(ops, 0, b) + 3;
    }
    assert Writes(ops, 2, VIA) > 0;
    forall i | 0 <= i < |ops| ensures InOrderAt(ops, InputBases(Swap(), 1), i) {
    }
  }

  lemma SwapNodes(sizes: Base -> nat)
    ensures var nodes := AllNodes(Swap(), GATHER, sizes);
      && |nodes| == 5
      && nodes[3] == CopyBackNode(Swap(), GATHER, sizes, 0, 0) && nodes[4] == CopyBackNode(Swap(), GATHER, sizes, 0, 1)
  {
    SwapStages();
    SwapLowered();
    var p := Swap();
    assert CopyBacksOf(p, GATHER, sizes, 0, 0) == [];
    assert CopyBacksOf(p, GATHER, sizes, 0, 1) == [CopyBackNode(p, GATHER, sizes, 0, 0)];
    assert CopyBacksOf(p, GATHER, sizes, 0, 2) ==
           [CopyBackNode(p, GATHER, sizes, 0, 0), CopyBackNode(p, GATHER, sizes, 0, 1)];
    assert CopyBacks(p, GATHER, sizes, 0) == [];
    assert CopyBacks(p, GATHER, sizes, 1) == CopyBacksOf(p, GATHER, sizes, 0, 2);
  }

  lemma SwapMeans<V>(combine: (V, V) -> V, sizes: Base -> nat, mem: Memory<V>)
    requires AllFull(sizes, 1)
    ensures Run(Swap().insts, 3, combine, sizes, 1, mem)(Base(Output, 0, 1), 0) == mem(FIRST, 0)
  {
    var insts := Swap().insts;
    assert Run(insts, 1, combine, sizes, 1, mem)(FIRST, 0) == mem(FIRST, 0);
    assert Run(insts, 2, combine, sizes, 1, mem)(VIA, 0) == mem(FIRST, 0);
  }

  predicate Moves(nd: Node, src: Base, dst: Base) {
    nd.op != D2DReduce && |nd.inputs| == 1 && nd.inputs[0].key.base == src && nd.output.base == dst
  }

  /** What the swap compiles to: two staged copies, one of them by way of the host, and two copybacks. */
  predicate Swaps(nodes: seq<Node>) {
    && |nodes| == 5
    && Moves(nodes[0], SECOND, Base(Internal, 0, 0)) && Moves(nodes[1], FIRST, VIA)
    && Moves(nodes[2], VIA, Base(Internal, 0, 1))
    && Moves(nodes[3], Base(Internal, 0, 0), Base(Output, 0, 0)) &&
        Moves(nodes[4], Base(Internal, 0, 1), Base(Output, 0, 1))
    && (nodes[3].guard.Some? ==> nodes[3].guard.value.base == Base(Output, 0, 0))
  }

  lemma SwapSwaps(sizes: Base -> nat)
    ensures Swaps(AllNodes(Swap(), GATHER, sizes))
  {
    SwapNodes(sizes);
    SwapLowered();
    BodyNode(Swap(), GATHER, sizes, 0);
    BodyNode(Swap(), GATHER, sizes, 1);
    BodyNode(Swap(), GATHER, sizes, 2);
  }

  /** Places in an order for the nodes. */
  ghost predicate Respects(p: Program, o: Options, sizes: Base -> nat, lane: seq<nat>, slices: nat, windowed: set<nat>,
                           rank: seq<nat>) {
    var pl := CompiledPlan(p, o, sizes, lane, slices, windowed);
    && |rank| == |pl.nodes| && (forall i :: 0 <= i < |rank| ==> rank[i] < |rank|)
    && (forall i, j :: 0 <= i < |rank| && 0 <= j < |rank| && MustPrecede(pl, pl.nodes[i], j) ==> rank[j] < rank[i])
  }

  lemma RespectedPlaces(p: Program, o: Options, sizes: Base -> nat, lane: seq<nat>, slices: nat, windowed: set<nat>,
                        rank: seq<nat>)
    requires Runnable(p, o, sizes, lane, slices) && Respects(p, o, sizes, lane, slices, windowed, rank)
    ensures var pl := CompiledPlan(p, o, sizes, lane, slices, windowed); WellFormed(pl) && Progress.Acyclic(pl, rank)
  {
    var pl, n := CompiledPlan(p, o, sizes, lane, slices, windowed), |rank|;
    ExecutablePlan(p, o, sizes, lane, slices, windowed);
    forall i | 0 <= i < n
      ensures Deadlock.AfterAll(pl, rank, Progress.Below(n), i) && !Deadlock.Starved(pl, i)
    {
      NothingStarves(p, o, sizes, lane, slices, windowed, i);
    }
    Deadlock.OrderIsAcyclic(pl, rank);
  }

  /** The first copyback waits neither for the D2H of the input it lands on nor for the H2D. */
  lemma CopybackDoesNotWait(p: Program, o: Options, sizes: Base -> nat, lane: seq<nat>, j: nat)
    requires Swaps(AllNodes(p, o, sizes)) && (j == 1 || j == 2)
    ensures var pl := CompiledPlan(p, o, sizes, lane, 1, {}); !MustPrecede(pl, pl.nodes[3], j)
  {
  }

  /** An order that moves nodes of a program in order forward, past nodes they do not wait for only. */
  lemma MovedForward(p: Program, o: Options, sizes: Base -> nat, lane: seq<nat>, slices: nat, windowed: set<nat>,
                     rank: seq<nat>)
    requires InOrder(p, o) && |rank| == |AllNodes(p, o, sizes)| && (forall i :: 0 <= i < |rank| ==> rank[i] < |rank|)
    requires var pl := CompiledPlan(p, o, sizes, lane, slices, windowed);
      forall i, j :: 0 <= j < i < |rank| && rank[i] <= rank[j] ==> !MustPrecede(pl, pl.nodes[i], j)
    ensures Respects(p, o, sizes, lane, slices, windowed, rank)
  {
    var pl := CompiledPlan(p, o, sizes, lane, slices, windowed);
    forall i, j | 0 <= i < |rank| && 0 <= j < |rank| && MustPrecede(pl, pl.nodes[i], j) ensures rank[j] < rank[i] {
      EdgesGoForward(p, o, sizes, lane, slices, windowed, i, j);
    }
  }

  const ORDER: seq<nat> := [0, 3, 1, 2, 4]
  const PLACES: seq<nat> := [0, 2, 3, 1, 4]

  predicate OneMovedForward(rank: seq<nat>) {
    && |rank| == 5 && (forall i :: 0 <= i < 5 ==> rank[i] < 5)
    && (forall i, j :: 0 <= j < i < 5 && rank[i] <= rank[j] ==> i == 3 && (j == 1 || j == 2))
  }

  lemma EarlyCopyback(p: Program, o: Options, sizes: Base -> nat, lane: seq<nat>, rank: seq<nat>)
    requires InOrder(p, o) && Swaps(AllNodes(p, o, sizes)) && OneMovedForward(rank)
    ensures Respects(p, o, sizes, lane, 1, {}, rank)
  {
    CopybackDoesNotWait(p, o, sizes, lane, 1);
    CopybackDoesNotWait(p, o, sizes, lane, 2);
    MovedForward(p, o, sizes, lane, 1, {}, rank);
  }

  predicate CopybackFirst(order: seq<nat>) {
    && |order| == 5 && (forall q :: 0 <= q < 5 ==> order[q] < 5) && (forall i :: 0 <= i < 5 ==> i in order)
    && order[0] == 0 && order[1] == 3 && order[2] == 1 && order[3] == 2 && order[4] == 4
  }

  lemma OrderHasPlaces()
    ensures CopybackFirst(ORDER) && OneMovedForward(PLACES)
    ensures forall q :: 0 <= q < 5 ==> PLACES[ORDER[q]] == q
  {
  }

  lemma SwappedRun(p: Program, o: Options, sizes: Base -> nat, lane: seq<nat>, rank: seq<nat>, order: seq<nat>)
    returns (s: State)
    requires Runnable(p, o, sizes, lane, 1) && Respects(p, o, sizes, lane, 1, {}, rank)
    requires |order| == |rank| && (forall q :: 0 <= q < |rank| ==> order[q] < |rank| && rank[order[q]] == q)
    requires forall i: nat :: i < |rank| ==> i in order
    ensures var pl := CompiledPlan(p, o, sizes, lane, 1, {});
      && Reachable(pl, s) && Shaped(pl, s) && Finished(pl, s) && Jobs(pl, s.log) && |s.log| == |order|
      && forall q :: 0 <= q < |order| ==> s.log[q] == Job(order[q], 0)
  {
    var pl := CompiledPlan(p, o, sizes, lane, 1, {});
    RespectedPlaces(p, o, sizes, lane, 1, {}, rank);
    s := EmptySlices.EveryOrderIsARun(pl, rank, order);
    FinishedFacts(p, o, sizes, lane, 1, {}, s);
  }

  /** What the shared bytes hold after the first `m` copies. */
  ghost predicate Holds<V>(pl: Plan, n: nat, combine: (V, V) -> V, log: seq<Job>, m: nat, mem: Memory<V>, b: Base,
                           v: V) {
    m <= |log| && Jobs(pl, log[..m]) && SharedReplay(pl, n, combine, log[..m], mem)(b, 0) == v
  }

  lemma SharedMove<V>(pl: Plan, n: nat, combine: (V, V) -> V, log: seq<Job>, m: nat, mem: Memory<V>, src: Base,
                      dst: Base, from: Base, to: Base, v: V)
    requires Jobs(pl, log) && m < |log| && log[m].slice == 0 && Moves(pl.nodes[log[m].node], src, dst)
    requires SliceBytes(pl.nodes[log[m].node], 0) > 0 && from == At(n, src) && to == At(n, dst)
    requires Holds(pl, n, combine, log, m, mem, from, v)
    ensures Holds(pl, n, combine, log, m + 1, mem, to, v)
  {
    SharedOne(pl, n, combine, log, m, mem, to, 0);
  }

  ghost predicate SwapLog(pl: Plan, log: seq<Job>) {
    && |pl.nodes| == 5 && Jobs(pl, log) && |log| == 5
    && (forall i :: 0 <= i < 5 ==> SliceBytes(pl.nodes[i], 0) > 0 && log[i].slice == 0)
    && log[0].node == 0 && log[1].node == 3 && log[2].node == 1 && log[3].node == 2 && log[4].node == 4
  }

  /** The first copyback overwrites the first chunk before it has gone to the host. */
  lemma FirstOverwritten<V>(pl: Plan, combine: (V, V) -> V, log: seq<Job>, mem: Memory<V>)
    requires Swaps(pl.nodes) && SwapLog(pl, log)
    ensures Holds(pl, 2, combine, log, 2, mem, FIRST, mem(SECOND, 0))
  {
    var staging, x := Base(Internal, 0, 0), mem(SECOND, 0);
    assert Holds(pl, 2, combine, log, 0, mem, SECOND, x);
    SharedMove(pl, 2, combine, log, 0, mem, SECOND, staging, SECOND, staging, x);
    SharedMove(pl, 2, combine, log, 1, mem, staging, Base(Output, 0, 0), staging, FIRST, x);
  }

  /** So what goes through the host is the second chunk. */
  lemma SentViaHost<V>(pl: Plan, combine: (V, V) -> V, log: seq<Job>, mem: Memory<V>, v: V)
    requires Swaps(pl.nodes) && SwapLog(pl, log) && Holds(pl, 2, combine, log, 2, mem, FIRST, v)
    ensures Holds(pl, 2, combine, log, 4, mem, Base(Internal, 0, 1), v)
  {
    SharedMove(pl, 2, combine, log, 2, mem, FIRST, VIA, FIRST, VIA, v);
    SharedMove(pl, 2, combine, log, 3, mem, VIA, Base(Internal, 0, 1), VIA, Base(Internal, 0, 1), v);
  }

  lemma BroughtBack<V>(pl: Plan, combine: (V, V) -> V, log: seq<Job>, mem: Memory<V>, m: nat, v: V)
    requires Swaps(pl.nodes) && SwapLog(pl, log) && m == 4 &&
             Holds(pl, 2, combine, log, m, mem, Base(Internal, 0, 1), v)
    ensures SharedReplay(pl, 2, combine, log, mem)(SECOND, 0) == v
  {
    var staging := Base(Internal, 0, 1);
    SharedMove(pl, 2, combine, log, m, mem, staging, Base(Output, 0, 1), staging, SECOND, v);
    assert log[..m + 1] == log;
  }

  lemma SwappedBytes<V>(pl: Plan, combine: (V, V) -> V, log: seq<Job>, mem: Memory<V>, order: seq<nat>)
    requires Swaps(pl.nodes) && Jobs(pl, log) && CopybackFirst(order) && |log| == 5
    requires forall i :: 0 <= i < 5 ==> SliceBytes(pl.nodes[i], 0) > 0 && log[i] == Job(order[i], 0)
    ensures SharedReplay(pl, 2, combine, log, mem)(SECOND, 0) == mem(SECOND, 0)
  {
    FirstOverwritten(pl, combine, log, mem);
    SentViaHost(pl, combine, log, mem, mem(SECOND, 0));
    BroughtBack(pl, combine, log, mem, 4, mem(SECOND, 0));
  }

  lemma NothingEmpty(p: Program, o: Options, sizes: Base -> nat)
    requires AllFull(sizes, 1)
    ensures forall i :: 0 <= i < |AllNodes(p, o, sizes)| ==> SliceBytes(AllNodes(p, o, sizes)[i], 0) > 0
  {
    forall i | 0 <= i < |AllNodes(p, o, sizes)| ensures SliceBytes(AllNodes(p, o, sizes)[i], 0) > 0 {
      WorkBytes(p, o, sizes, i);
    }
  }

  /** A run in which the copyback comes early. */
  lemma SwappedEarly<V>(p: Program, o: Options, sizes: Base -> nat, lane: seq<nat>, combine: (V, V) -> V,
                        mem: Memory<V>, rank: seq<nat>, order: seq<nat>)
    returns (s: State)
    requires Runnable(p, o, sizes, lane, 1) && AllFull(sizes, 1) && Swaps(AllNodes(p, o, sizes)) &&
             OneMovedForward(rank)
    requires CopybackFirst(order) && forall q :: 0 <= q < 5 ==> rank[order[q]] == q
    ensures var pl := CompiledPlan(p, o, sizes, lane, 1, {});
      && Reachable(pl, s) && Shaped(pl, s) && Finished(pl, s) && Jobs(pl, s.log)
      && SharedReplay(pl, 2, combine, s.log, mem)(SECOND, 0) == mem(SECOND, 0)
  {
    EarlyCopyback(p, o, sizes, lane, rank);
    s := SwappedRun(p, o, sizes, lane, rank, order);
    NothingEmpty(p, o, sizes);
    SwappedBytes(CompiledPlan(p, o, sizes, lane, 1, {}), combine, s.log, mem, order);
  }

  lemma SwapDoesNotClash()
    ensures NoClash(Swap(), GATHER)
  {
    var p := Swap();
    forall i | 0 <= i < |Lower(p, Apart(GATHER))|
      ensures Lower(p, Apart(GATHER))[i].src.space != Internal && Lower(p, Apart(GATHER))[i].dst.space != Internal
    {
      var j := LoweredAt(p, Apart(GATHER), 3, i);
    }
  }

  /** So a program that is no all-gather can leave something else than its instructions mean: here a
      run of a swap leaves the second chunk in both places. */
  lemma SwapGoesWrong<V>(sizes: Base -> nat, lane: seq<nat>, combine: (V, V) -> V, mem: Memory<V>) returns (s: State)
    requires AllFull(sizes, 1) && |lane| == 5 && mem(FIRST, 0) != mem(SECOND, 0)
    ensures Runnable(Swap(), GATHER, sizes, lane, 1) && GatherProgram(Swap(), GATHER) && NoClash(Swap(), GATHER)
    ensures var pl, b := CompiledPlan(Swap(), GATHER, sizes, lane, 1, {}), Base(Output, 0, 1);
      && Reachable(pl, s) && Shaped(pl, s) && Finished(pl, s) && Jobs(pl, s.log)
      && SharedReplay(pl, 2, combine, s.log, mem)(At(2, b), 0) != Run(Swap().insts, 3, combine, sizes, 1, mem)(b, 0)
  {
    SwapIsCompilable();
    SwapDoesNotClash();
    SwapSwaps(sizes);
    SwapMeans(combine, sizes, mem);
    OrderHasPlaces();
    s := SwappedEarly(Swap(), GATHER, sizes, lane, combine, mem, PLACES, ORDER);
  }
}
