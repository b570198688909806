/** What the executor's theorems ask of a plan, shown of every compiled program. */
module GraphFacts {
  import opened Ir
  import opened Graphs
  import opened Executor
  import opened Safety
  import RaceFreedom

  ghost function CompiledPlan(p: Program, o: Options, sizes: Base -> nat, lane: seq<nat>, slices: nat,
                              windowed: set<nat>): Plan {
    var ops := Lower(p, o);
    var inputs := InputBases(p, o.world);
    Plan(o.world, AllNodes(p, o, sizes), lane, ReaderMap(ops, inputs, |ops|), inputs, slices, windowed)
  }

  // ---- Counting ----

  lemma {:induction false} WritesGrow(ops: seq<Low>, i: nat, j: nat, b: Base)
    requires i <= j <= |ops|
    ensures Writes(ops, i, b) <= Writes(ops, j, b)
    ensures i < j && ops[i].dst == b ==> Writes(ops, i, b) < Writes(ops, j, b)
    decreases j
  {
    if i < j {
      WritesGrow(ops, i, j - 1, b);
    }
  }

  /** Every version up to the newest one was produced by one instruction. */
  lemma {:induction false} VersionHasProducer(ops: seq<Low>, n: nat, b: Base, v: nat) returns (j: nat)
    requires n <= |ops| && 0 < v <= Writes(ops, n, b)
    ensures j < n && OutKey(ops, j) == Key(b, v)
  {
    if Writes(ops, n - 1, b) >= v {
      j := VersionHasProducer(ops, n - 1, b, v);
    } else {
      j := n - 1;
    }
  }

  lemma {:induction false} ReadsGrow(ops: seq<Low>, inputs: set<Base>, i: nat, j: nat, k: Key)
    requires i <= j <= |ops|
    ensures Reads(ops, inputs, i, k) <= Reads(ops, inputs, j, k)
    ensures i < j && SrcKey(ops, inputs, i) == k ==> Reads(ops, inputs, i, k) < Reads(ops, inputs, j, k)
    decreases j
  {
    if i < j {
      ReadsGrow(ops, inputs, i, j - 1, k);
    }
  }

  lemma {:induction false} ReaderIdHasReader(ops: seq<Low>, inputs: set<Base>, n: nat, k: Key, r: nat) returns (j: nat)
    requires n <= |ops| && r < Reads(ops, inputs, n, k)
    ensures j < n && SrcKey(ops, inputs, j) == k && Reads(ops, inputs, j, k) == r
  {
    if Reads(ops, inputs, n - 1, k) > r {
      j := ReaderIdHasReader(ops, inputs, n - 1, k, r);
    } else {
      j := n - 1;
    }
  }

  lemma {:induction false} ReaderMapCounts(ops: seq<Low>, inputs: set<Base>, n: nat, k: Key)
    requires n <= |ops|
    ensures (if k in ReaderMap(ops, inputs, n) then ReaderMap(ops, inputs, n)[k] else 0) == Reads(ops, inputs, n, k)
  {
    if n > 0 {
      ReaderMapCounts(ops, inputs, n - 1, k);
    }
  }

  lemma ReadVersionBound(ops: seq<Low>, inputs: set<Base>, i: nat, b: Base)
    requires i <= |ops|
    ensures Writes(ops, i, b) <= ReadVersion(ops, inputs, i, b) <= Writes(ops, |ops|, b)
  {
    WritesGrow(ops, i, |ops|, b);
  }

  // ---- Input chunks ----

  /** A D2D copy or reduction that names an input chunk of `rank` by its rank. */
  predicate NamesInput(inst: Instruction, rank: nat) {
    inst.op in {D2D, D2DReduce} && inst.srcBuf == Input && inst.srcRank == rank
  }

  /** The input chunks of a rank are the declared ones and up to the highest one named: no fewer and
      no more. */
  lemma {:induction false} InputCountIsLeast(p: Program, rank: nat, n: nat)
    requires n <= |p.insts|
    ensures InputCountFirst(p, rank, n) >= p.inputChunks
    ensures forall j :: 0 <= j < n && NamesInput(p.insts[j], rank) ==>
      p.insts[j].srcChunk < InputCountFirst(p, rank, n)
    ensures InputCountFirst(p, rank, n) > p.inputChunks ==>
      exists j :: 0 <= j < n && NamesInput(p.insts[j], rank) && p.insts[j].srcChunk + 1 == InputCountFirst(p, rank, n)
  {
    if n > 0 {
      InputCountIsLeast(p, rank, n - 1);
    }
  }

  // ---- Staged chunks ----

  /** Position of an instruction in the lowered list. */
  lemma {:induction false} LoweredAt(p: Program, o: Options, n: nat, i: nat) returns (j: nat)
    requires n <= |p.insts| && i < |LowerFirst(p, o, n)|
    ensures j < n && p.insts[j].op != Nop && LowerFirst(p, o, n)[i] == LowerInst(p, o, p.insts[j])
  {
    if p.insts[n - 1].op != Nop && i == |LowerFirst(p, o, n - 1)| {
      j := n - 1;
    } else {
      j := LoweredAt(p, o, n - 1, i);
    }
  }

  lemma {:induction false} LowerKeeps(p: Program, o: Options, n: nat, j: nat) returns (i: nat)
    requires j < n <= |p.insts| && p.insts[j].op != Nop
    ensures i < |LowerFirst(p, o, n)| && LowerFirst(p, o, n)[i] == LowerInst(p, o, p.insts[j])
  {
    if j == n - 1 {
      i := |LowerFirst(p, o, n - 1)|;
    } else {
      i := LowerKeeps(p, o, n - 1, j);
    }
  }

  /** No instruction touches the visible bytes of a staged chunk: all go to its staging copy. */
  lemma StagedUntouched(p: Program, o: Options, r: nat, c: nat, i: nat)
    requires Staged(p, o, r, c) && i < |Lower(p, o)|
    ensures Lower(p, o)[i].dst != Base(Output, r, c) && Lower(p, o)[i].src != Base(Output, r, c)
  {
    var j := LoweredAt(p, o, |p.insts|, i);
  }

  lemma StagedIsWritten(p: Program, o: Options, r: nat, c: nat)
    requires Staged(p, o, r, c)
    ensures Writes(Lower(p, o), |Lower(p, o)|, Base(Internal, r, c)) > 0
    ensures Writes(Lower(p, o), |Lower(p, o)|, Base(Output, r, c)) == 0
  {
    var ops := Lower(p, o);
    var j :| 0 <= j < |p.insts| && InstWritesOutput(p, j, r, c);
    var i := LowerKeeps(p, o, |p.insts|, j);
    WritesGrow(ops, i, |ops|, Base(Internal, r, c));
    forall k | 0 <= k < |ops| ensures ops[k].dst != Base(Output, r, c) {
      StagedUntouched(p, o, r, c, k);
    }
    NeverWritten(ops, |ops|, Base(Output, r, c));
  }

  lemma {:induction false} NeverWritten(ops: seq<Low>, n: nat, b: Base)
    requires n <= |ops| && forall k :: 0 <= k < |ops| ==> ops[k].dst != b
    ensures Writes(ops, n, b) == 0
  {
    if n > 0 {
      NeverWritten(ops, n - 1, b);
    }
  }

  /** Entry `i` of the copybacks belongs to the staged chunk it writes. */
  ghost predicate IsCopyBack(p: Program, o: Options, sizes: Base -> nat, nd: Node) {
    var b := nd.output.base;
    b.space == Output && b.owner < o.world && Staged(p, o, b.owner, b.chunk)
    && nd == CopyBackNode(p, o, sizes, b.owner, b.chunk)
  }

  ghost predicate AreCopyBacks(p: Program, o: Options, sizes: Base -> nat, nodes: seq<Node>) {
    && (forall i :: 0 <= i < |nodes| ==> IsCopyBack(p, o, sizes, nodes[i]))
    && (forall i, j :: 0 <= i < j < |nodes| ==> nodes[i].output.base != nodes[j].output.base)
  }

  lemma {:induction false} CopyBacksOfFacts(p: Program, o: Options, sizes: Base -> nat, r: nat, n: nat)
    returns (nodes: seq<Node>)
    requires r < o.world && n <= p.outputChunks
    ensures nodes == CopyBacksOf(p, o, sizes, r, n) && AreCopyBacks(p, o, sizes, nodes)
    ensures forall i :: 0 <= i < |nodes| ==> nodes[i].output.base.owner == r && nodes[i].output.base.chunk < n
    ensures forall c: nat :: c < n && Staged(p, o, r, c) ==> CopyBackNode(p, o, sizes, r, c) in nodes
  {
    nodes := [];
    if n > 0 {
      var front := CopyBacksOfFacts(p, o, sizes, r, n - 1);
      nodes := front + if Staged(p, o, r, n - 1) then [CopyBackNode(p, o, sizes, r, n - 1)] else [];
    }
  }

  lemma {:induction false} CopyBacksFacts(p: Program, o: Options, sizes: Base -> nat, w: nat) returns (nodes: seq<Node>)
    requires w <= o.world
    ensures nodes == CopyBacks(p, o, sizes, w) && AreCopyBacks(p, o, sizes, nodes)
    ensures forall i :: 0 <= i < |nodes| ==> nodes[i].output.base.owner < w
    ensures forall r: nat, c: nat :: r < w && c < p.outputChunks && Staged(p, o, r, c) ==>
            CopyBackNode(p, o, sizes, r, c) in nodes
  {
    nodes := [];
    if w > 0 {
      var front := CopyBacksFacts(p, o, sizes, w - 1);
      var back := CopyBacksOfFacts(p, o, sizes, w - 1, p.outputChunks);
      nodes := front + back;
    }
  }

  // ---- Hypotheses on the program ----

  /** Ranks exist and no chunk is written more often than there are version slots. */
  ghost predicate Compilable(p: Program, o: Options) {
    var ops := Lower(p, o);
    && (forall i :: 0 <= i < |ops| ==> ops[i].rank < o.world)
    && (forall i :: 0 <= i < |ops| ==> Writes(ops, |ops|, ops[i].dst) < MAX_PROGRESS_VERSIONS)
  }

  lemma {:induction false} FewWrites(ops: seq<Low>, n: nat, b: Base)
    requires n <= |ops|
    requires forall i :: 0 <= i < |ops| ==> Writes(ops, |ops|, ops[i].dst) < MAX_PROGRESS_VERSIONS
    ensures Writes(ops, n, b) < MAX_PROGRESS_VERSIONS
  {
    if n > 0 {
      if ops[n - 1].dst == b {
        WritesGrow(ops, n, |ops|, b);
      } else {
        FewWrites(ops, n - 1, b);
      }
    }
  }

  lemma BodyNode(p: Program, o: Options, sizes: Base -> nat, i: nat)
    requires i < |Lower(p, o)|
    ensures i < |AllNodes(p, o, sizes)|
    ensures AllNodes(p, o, sizes)[i] == NodeAt(Lower(p, o), InputBases(p, o.world), sizes, i)
  {
  }

  lemma TailNode(p: Program, o: Options, sizes: Base -> nat, i: nat)
    requires |Lower(p, o)| <= i < |AllNodes(p, o, sizes)|
    ensures IsCopyBack(p, o, sizes, AllNodes(p, o, sizes)[i])
  {
    var tail := CopyBacksFacts(p, o, sizes, o.world);
    assert AllNodes(p, o, sizes)[i] == tail[i - |Lower(p, o)|];
  }

  // ---- WellFormed ----

  lemma BodyNodeOk(p: Program, o: Options, sizes: Base -> nat, lane: seq<nat>, slices: nat, windowed: set<nat>, i: nat)
    requires Compilable(p, o) && i < |Lower(p, o)|
    ensures NodeOk(CompiledPlan(p, o, sizes, lane, slices, windowed), i)
  {
    var ops, inputs := Lower(p, o), InputBases(p, o.world);
    var k := SrcKey(ops, inputs, i);
    BodyNode(p, o, sizes, i);
    FewWrites(ops, |ops|, ops[i].dst);
    FewWrites(ops, |ops|, ops[i].src);
    WritesGrow(ops, i, |ops|, ops[i].dst);
    ReadVersionBound(ops, inputs, i, ops[i].src);
    ReadVersionBound(ops, inputs, i, ops[i].dst);
    ReaderMapCounts(ops, inputs, |ops|, k);
    ReadsGrow(ops, inputs, i, |ops|, k);
  }

  lemma TailNodeOk(p: Program, o: Options, sizes: Base -> nat, lane: seq<nat>, slices: nat, windowed: set<nat>, i: nat)
    requires Compilable(p, o) && |Lower(p, o)| <= i < |AllNodes(p, o, sizes)|
    ensures NodeOk(CompiledPlan(p, o, sizes, lane, slices, windowed), i)
    ensures AllNodes(p, o, sizes)[i].output.version == 1
  {
    var ops := Lower(p, o);
    TailNode(p, o, sizes, i);
    var b := AllNodes(p, o, sizes)[i].output.base;
    StagedIsWritten(p, o, b.owner, b.chunk);
    FewWrites(ops, |ops|, Base(Internal, b.owner, b.chunk));
    FewWrites(ops, |ops|, Base(Input, b.owner, b.chunk));
  }

  lemma DistinctOutputs(p: Program, o: Options, sizes: Base -> nat, i: nat, j: nat)
    requires i < j < |AllNodes(p, o, sizes)|
    ensures AllNodes(p, o, sizes)[i].output != AllNodes(p, o, sizes)[j].output
    ensures j >= |Lower(p, o)| ==> AllNodes(p, o, sizes)[i].output.base != AllNodes(p, o, sizes)[j].output.base
  {
    var ops := Lower(p, o);
    if j < |ops| {
      BodyNode(p, o, sizes, i);
      BodyNode(p, o, sizes, j);
      WritesGrow(ops, i, j, ops[i].dst);
    } else {
      TailNode(p, o, sizes, j);
      var b := AllNodes(p, o, sizes)[j].output.base;
      if i < |ops| {
        BodyNode(p, o, sizes, i);
        StagedUntouched(p, o, b.owner, b.chunk, i);
      } else {
        var tail := CopyBacksFacts(p, o, sizes, o.world);
        assert tail[i - |ops|].output.base != tail[j - |ops|].output.base;
      }
    }
  }

  lemma DistinctReaders(p: Program, o: Options, sizes: Base -> nat, i: nat, j: nat)
    requires i < j < |AllNodes(p, o, sizes)|
    requires |AllNodes(p, o, sizes)[i].inputs| > 0 && AllNodes(p, o, sizes)[i].inputs[0].readerId >= 0
    requires |AllNodes(p, o, sizes)[j].inputs| > 0 && AllNodes(p, o, sizes)[j].inputs[0].readerId >= 0
    ensures AllNodes(p, o, sizes)[i].inputs[0] != AllNodes(p, o, sizes)[j].inputs[0]
  {
    var ops, inputs := Lower(p, o), InputBases(p, o.world);
    if j < |ops| {
      BodyNode(p, o, sizes, i);
      BodyNode(p, o, sizes, j);
      ReadsGrow(ops, inputs, i, j, SrcKey(ops, inputs, i));
    } else {
      TailNode(p, o, sizes, j);
    }
  }

  lemma CompiledIsWellFormed(p: Program, o: Options, sizes: Base -> nat, lane: seq<nat>, slices: nat,
                             windowed: set<nat>)
    requires Compilable(p, o) && |lane| == |AllNodes(p, o, sizes)| && slices > 0
    ensures WellFormed(CompiledPlan(p, o, sizes, lane, slices, windowed))
  {
    var pl := CompiledPlan(p, o, sizes, lane, slices, windowed);
    forall i | 0 <= i < |pl.nodes| ensures NodeOk(pl, i) {
      if i < |Lower(p, o)| {
        BodyNodeOk(p, o, sizes, lane, slices, windowed, i);
      } else {
        TailNodeOk(p, o, sizes, lane, slices, windowed, i);
      }
    }
    forall i, j | 0 <= i < j < |pl.nodes| ensures pl.nodes[i].output != pl.nodes[j].output {
      DistinctOutputs(p, o, sizes, i, j);
    }
    forall i, j | 0 <= i < j < |pl.nodes| && Registered(pl, i) && Registered(pl, j)
      ensures pl.nodes[i].inputs[0] != pl.nodes[j].inputs[0]
    {
      DistinctReaders(p, o, sizes, i, j);
    }
  }

  // ---- Versioned ----

  lemma ProducedInPlan(p: Program, o: Options, sizes: Base -> nat, lane: seq<nat>, slices: nat, windowed: set<nat>,
                       b: Base, v: nat)
    requires 0 < v <= Writes(Lower(p, o), |Lower(p, o)|, b)
    ensures RaceFreedom.Produced(CompiledPlan(p, o, sizes, lane, slices, windowed), Key(b, v))
  {
    var j := VersionHasProducer(Lower(p, o), |Lower(p, o)|, b, v);
    BodyNode(p, o, sizes, j);
  }

  lemma BodyNodeVersioned(p: Program, o: Options, sizes: Base -> nat, lane: seq<nat>, slices: nat, windowed: set<nat>,
                          i: nat)
    requires Compilable(p, o) && i < |Lower(p, o)|
    ensures i < |AllNodes(p, o, sizes)|
    ensures RaceFreedom.VersionedNode(CompiledPlan(p, o, sizes, lane, slices, windowed), i)
  {
    var pl := CompiledPlan(p, o, sizes, lane, slices, windowed);
    var ops, inputs := Lower(p, o), InputBases(p, o.world);
    BodyNode(p, o, sizes, i);
    var nd := pl.nodes[i];
    WritesGrow(ops, i, |ops|, ops[i].dst);
    if nd.output.version > 1 {
      ProducedInPlan(p, o, sizes, lane, slices, windowed, ops[i].dst, Writes(ops, i, ops[i].dst));
    }
    forall q | 0 <= q < |nd.inputs| && nd.inputs[q].key.version > 0 ensures RaceFreedom.Produced(pl, nd.inputs[q].key) {
      var k := nd.inputs[q].key;
      ReadVersionBound(ops, inputs, i, k.base);
      ProducedInPlan(p, o, sizes, lane, slices, windowed, k.base, k.version);
    }
  }

  lemma NeverReadInPlan(p: Program, o: Options, sizes: Base -> nat, r: nat, c: nat, j: nat)
    requires Staged(p, o, r, c) && j < |AllNodes(p, o, sizes)|
    ensures !RaceFreedom.Reads(AllNodes(p, o, sizes)[j], Base(Output, r, c))
  {
    if j < |Lower(p, o)| {
      BodyNode(p, o, sizes, j);
      StagedUntouched(p, o, r, c, j);
    } else {
      TailNode(p, o, sizes, j);
    }
  }

  lemma LatestIsNewest(p: Program, o: Options, sizes: Base -> nat, b: Base, j: nat)
    requires j < |AllNodes(p, o, sizes)| && AllNodes(p, o, sizes)[j].output.base == b && b.space != Output
    ensures AllNodes(p, o, sizes)[j].output.version <= Writes(Lower(p, o), |Lower(p, o)|, b)
  {
    if j < |Lower(p, o)| {
      BodyNode(p, o, sizes, j);
      WritesGrow(Lower(p, o), j, |Lower(p, o)|, b);
    } else {
      TailNode(p, o, sizes, j);
    }
  }

  lemma TailNodeIsCopyBack(p: Program, o: Options, sizes: Base -> nat, lane: seq<nat>, slices: nat,
                           windowed: set<nat>, i: nat)
    requires Compilable(p, o) && |Lower(p, o)| <= i < |AllNodes(p, o, sizes)|
    ensures RaceFreedom.CopyBack(CompiledPlan(p, o, sizes, lane, slices, windowed), i)
  {
    var pl := CompiledPlan(p, o, sizes, lane, slices, windowed);
    TailNode(p, o, sizes, i);
    var nd := pl.nodes[i];
    var r, c := nd.output.base.owner, nd.output.base.chunk;
    StagedIsWritten(p, o, r, c);
    ProducedInPlan(p, o, sizes, lane, slices, windowed, nd.inputs[0].key.base, nd.inputs[0].key.version);
    if nd.guard.value.version > 0 {
      ProducedInPlan(p, o, sizes, lane, slices, windowed, nd.guard.value.base, nd.guard.value.version);
    }
    forall j | 0 <= j < |pl.nodes| && pl.nodes[j].output.base == nd.inputs[0].key.base
      ensures pl.nodes[j].output.version <= nd.inputs[0].key.version
    {
      LatestIsNewest(p, o, sizes, nd.inputs[0].key.base, j);
    }
    forall j | 0 <= j < |pl.nodes| && j != i ensures pl.nodes[j].output.base != nd.output.base {
      if j < i {
        DistinctOutputs(p, o, sizes, j, i);
      } else {
        DistinctOutputs(p, o, sizes, i, j);
      }
    }
    forall j | 0 <= j < |pl.nodes| ensures !RaceFreedom.Reads(pl.nodes[j], nd.output.base) {
      NeverReadInPlan(p, o, sizes, r, c, j);
    }
  }

  lemma CompiledIsVersioned(p: Program, o: Options, sizes: Base -> nat, lane: seq<nat>, slices: nat, windowed: set<nat>)
    requires Compilable(p, o) && |lane| == |AllNodes(p, o, sizes)|
    ensures RaceFreedom.Versioned(CompiledPlan(p, o, sizes, lane, slices, windowed))
  {
    var pl := CompiledPlan(p, o, sizes, lane, slices, windowed);
    forall i | 0 <= i < |pl.nodes| ensures RaceFreedom.VersionedNode(pl, i) || RaceFreedom.CopyBack(pl, i) {
      if i < |Lower(p, o)| {
        BodyNodeVersioned(p, o, sizes, lane, slices, windowed, i);
      } else {
        TailNodeIsCopyBack(p, o, sizes, lane, slices, windowed, i);
      }
    }
  }
}
