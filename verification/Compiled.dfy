/** The whole pipeline: a program compiled by every rank and run by all executors does what its
    instruction list says, executed one instruction at a time. */
module Compiled {
  import opened Ir
  import opened Graphs
  import opened Executor
  import opened Safety
  import opened Determinism
  import opened Progress
  import opened Deadlock
  import opened GraphFacts
  import RaceFreedom
  import Terminals

  // ---- Meaning of an instruction list ----

  /** One instruction on whole chunks; versions, guards and counters play no part. */
  function Step<V>(op: Low, combine: (V, V) -> V, sizes: Base -> nat, slices: nat, mem: Memory<V>): Memory<V> {
    (b: Base, c: nat) =>
      if b == op.dst && c < slices && c * SLICE_BYTES < sizes(b) then
        if op.op == D2DReduce then combine(mem(op.dst, c), mem(op.src, c)) else mem(op.src, c)
      else mem(b, c)
  }

  function Interpret<V>(ops: seq<Low>, n: nat, combine: (V, V) -> V, sizes: Base -> nat, slices: nat,
                        mem: Memory<V>): Memory<V>
    requires n <= |ops|
  {
    if n == 0 then mem else Step(ops[n - 1], combine, sizes, slices, Interpret(ops, n - 1, combine, sizes, slices, mem))
  }

  // ---- Every reader a guard counts exists ----

  lemma CompiledReadersExist(p: Program, o: Options, sizes: Base -> nat, lane: seq<nat>, slices: nat,
                             windowed: set<nat>)
    ensures AllReadersExist(CompiledPlan(p, o, sizes, lane, slices, windowed))
  {
    var pl := CompiledPlan(p, o, sizes, lane, slices, windowed);
    var ops, inputs := Lower(p, o), InputBases(p, o.world);
    forall k, r: nat | r < NumReaders(pl, k) ensures HasReader(pl, k, r) {
      ReaderMapCounts(ops, inputs, |ops|, k);
      var j := ReaderIdHasReader(ops, inputs, |ops|, k, r);
      BodyNode(p, o, sizes, j);
    }
  }

  // ---- Programs whose list order already respects the dataflow ----

  /** A reduction finds a value to reduce into. */
  predicate ReducesIntoValue(ops: seq<Low>, inputs: set<Base>, i: nat)
    requires i < |ops|
  {
    ops[i].op == D2DReduce ==> Writes(ops, i, ops[i].dst) > 0 || ops[i].dst in inputs
  }

  predicate InOrderAt(ops: seq<Low>, inputs: set<Base>, i: nat)
    requires i < |ops|
  {
    && ops[i].src != ops[i].dst
    && (Writes(ops, i, ops[i].src) > 0 || ops[i].src in inputs)
    && ReducesIntoValue(ops, inputs, i)
  }

  /** Every instruction reads a chunk that is an input or was written earlier in the list. */
  ghost predicate InOrder(p: Program, o: Options) {
    forall i :: 0 <= i < |Lower(p, o)| ==> InOrderAt(Lower(p, o), InputBases(p, o.world), i)
  }

  function Upto(n: nat): (order: seq<nat>)
    ensures |order| == n && forall i :: 0 <= i < n ==> order[i] == i
  {
    seq(n, i => i)
  }

  lemma BodyPredecessors(p: Program, o: Options, sizes: Base -> nat, i: nat, j: nat)
    requires InOrder(p, o) && i < |Lower(p, o)| && j < |Lower(p, o)|
    requires var ops, inputs := Lower(p, o), InputBases(p, o.world);
      || SrcKey(ops, inputs, i) == OutKey(ops, j)
      || GuardKey(ops, i) == OutKey(ops, j)
      || SrcKey(ops, inputs, j) == GuardKey(ops, i)
      || (ops[i].op == D2DReduce && Key(ops[i].dst, ReadVersion(ops, inputs, i, ops[i].dst)) == OutKey(ops, j))
    ensures j < i
  {
    var ops, inputs := Lower(p, o), InputBases(p, o.world);
    assert InOrderAt(ops, inputs, i) && InOrderAt(ops, inputs, j);
    if i <= j {
      WritesGrow(ops, i, j, ops[j].dst);
      WritesGrow(ops, i, j, ops[i].dst);
    }
  }

  lemma EdgesGoForward(p: Program, o: Options, sizes: Base -> nat, lane: seq<nat>, slices: nat, windowed: set<nat>,
                       i: nat, j: nat)
    requires InOrder(p, o) && i < |AllNodes(p, o, sizes)| && j < |AllNodes(p, o, sizes)|
    requires var pl := CompiledPlan(p, o, sizes, lane, slices, windowed); MustPrecede(pl, pl.nodes[i], j)
    ensures j < i
  {
    var pl := CompiledPlan(p, o, sizes, lane, slices, windowed);
    var ops := Lower(p, o);
    if j < |ops| {
      BodyNode(p, o, sizes, j);
      if i < |ops| {
        BodyNode(p, o, sizes, i);
        BodyPredecessors(p, o, sizes, i, j);
      }
    } else {
      TailNode(p, o, sizes, j);
      TailIsNeverRead(p, o, sizes, i, j);
    }
  }

  /** Nothing waits for a copyback. */
  lemma TailIsNeverRead(p: Program, o: Options, sizes: Base -> nat, i: nat, j: nat)
    requires i < |AllNodes(p, o, sizes)| && |Lower(p, o)| <= j < |AllNodes(p, o, sizes)|
    ensures var nodes := AllNodes(p, o, sizes);
      && (forall q :: 0 <= q < |nodes[i].inputs| ==> nodes[i].inputs[q].key != nodes[j].output)
      && nodes[i].guard != Some(nodes[j].output)
      && |nodes[j].inputs| > 0 && nodes[j].inputs[0].readerId < 0
  {
    TailNode(p, o, sizes, j);
    var nodes := AllNodes(p, o, sizes);
    var b := nodes[j].output.base;
    StagedIsWritten(p, o, b.owner, b.chunk);
    NeverReadInPlan(p, o, sizes, b.owner, b.chunk, i);
    if i < |Lower(p, o)| {
      BodyNode(p, o, sizes, i);
      StagedUntouched(p, o, b.owner, b.chunk, i);
    } else {
      TailNode(p, o, sizes, i);
      var e := nodes[i].output.base;
      StagedIsWritten(p, o, e.owner, e.chunk);
    }
  }

  lemma NothingStarves(p: Program, o: Options, sizes: Base -> nat, lane: seq<nat>, slices: nat, windowed: set<nat>,
                       i: nat)
    requires InOrder(p, o) && Compilable(p, o) && |lane| == |AllNodes(p, o, sizes)| && i < |AllNodes(p, o, sizes)|
    ensures !Starved(CompiledPlan(p, o, sizes, lane, slices, windowed), i)
  {
    var pl := CompiledPlan(p, o, sizes, lane, slices, windowed);
    var nd := pl.nodes[i];
    CompiledIsVersioned(p, o, sizes, lane, slices, windowed);
    assert RaceFreedom.VersionedNode(pl, i) || RaceFreedom.CopyBack(pl, i);
    forall q | 0 <= q < |nd.inputs| ensures Terminals.HasWriter(pl, nd.inputs[q].key) {
      if nd.inputs[q].key.version == 0 {
        ReadsInput(p, o, sizes, i, q);
      }
    }
  }

  lemma ReadsInput(p: Program, o: Options, sizes: Base -> nat, i: nat, q: nat)
    requires InOrder(p, o) && i < |AllNodes(p, o, sizes)| && q < |AllNodes(p, o, sizes)[i].inputs|
    requires AllNodes(p, o, sizes)[i].inputs[q].key.version == 0
    ensures var b := AllNodes(p, o, sizes)[i].inputs[q].key.base; b in InputBases(p, o.world) && b.owner < o.world
  {
    var ops, inputs := Lower(p, o), InputBases(p, o.world);
    if i < |ops| {
      BodyNode(p, o, sizes, i);
      assert InOrderAt(ops, inputs, i);
    } else {
      TailNode(p, o, sizes, i);
      var b := AllNodes(p, o, sizes)[i].output.base;
      StagedIsWritten(p, o, b.owner, b.chunk);
    }
  }

  lemma CompiledIsAcyclic(p: Program, o: Options, sizes: Base -> nat, lane: seq<nat>, slices: nat, windowed: set<nat>)
    requires Compilable(p, o) && InOrder(p, o) && |lane| == |AllNodes(p, o, sizes)|
    ensures Acyclic(CompiledPlan(p, o, sizes, lane, slices, windowed), Upto(|AllNodes(p, o, sizes)|))
  {
    var pl := CompiledPlan(p, o, sizes, lane, slices, windowed);
    CompiledReadersExist(p, o, sizes, lane, slices, windowed);
    forall i | 0 <= i < |pl.nodes| ensures !Starved(pl, i) {
      NothingStarves(p, o, sizes, lane, slices, windowed, i);
    }
    forall i, j | 0 <= i < |pl.nodes| && 0 <= j < |pl.nodes| && MustPrecede(pl, pl.nodes[i], j) ensures j < i {
      EdgesGoForward(p, o, sizes, lane, slices, windowed, i, j);
    }
    ListOrder(pl);
    OrderIsAcyclic(pl, Upto(|pl.nodes|));
  }

  lemma ListOrder(pl: Plan)
    requires forall i :: 0 <= i < |pl.nodes| ==> !Starved(pl, i)
    requires forall i, j :: 0 <= i < |pl.nodes| && 0 <= j < |pl.nodes| && MustPrecede(pl, pl.nodes[i], j) ==> j < i
    ensures OrderedIn(pl, Upto(|pl.nodes|), Below(|pl.nodes|))
  {
    var rank, all := Upto(|pl.nodes|), Below(|pl.nodes|);
    forall i | i in all ensures AfterAll(pl, rank, all, i) {
    }
  }

  // ---- Runs of compiled programs ----

  /** What a caller can check of a program before compiling it: few enough writes, and no chunk cut
      so short that it has an empty slice. */
  ghost predicate Executable(p: Program, o: Options, sizes: Base -> nat, lane: seq<nat>, slices: nat) {
    && Compilable(p, o) && slices > 0 && |lane| == |AllNodes(p, o, sizes)|
    && (forall b :: sizes(b) == 0 || sizes(b) > (slices - 1) * SLICE_BYTES)
  }

  ghost predicate Runnable(p: Program, o: Options, sizes: Base -> nat, lane: seq<nat>, slices: nat) {
    Executable(p, o, sizes, lane, slices) && InOrder(p, o)
  }

  lemma ExecutablePlan(p: Program, o: Options, sizes: Base -> nat, lane: seq<nat>, slices: nat, windowed: set<nat>)
    requires Executable(p, o, sizes, lane, slices)
    ensures var pl := CompiledPlan(p, o, sizes, lane, slices, windowed);
      WellFormed(pl) && WellSliced(pl) && RaceFreedom.Versioned(pl) && AllReadersExist(pl)
  {
    CompiledIsWellFormed(p, o, sizes, lane, slices, windowed);
    CompiledIsVersioned(p, o, sizes, lane, slices, windowed);
    CompiledReadersExist(p, o, sizes, lane, slices, windowed);
    CompiledIsWellSliced(p, o, sizes, lane, slices, windowed);
  }

  lemma RunnablePlan(p: Program, o: Options, sizes: Base -> nat, lane: seq<nat>, slices: nat, windowed: set<nat>)
    requires Runnable(p, o, sizes, lane, slices)
    ensures var pl := CompiledPlan(p, o, sizes, lane, slices, windowed);
      WellFormed(pl) && WellSliced(pl) && RaceFreedom.Versioned(pl) && Acyclic(pl, Upto(|pl.nodes|))
  {
    ExecutablePlan(p, o, sizes, lane, slices, windowed);
    CompiledIsAcyclic(p, o, sizes, lane, slices, windowed);
  }

  lemma CompiledIsWellSliced(p: Program, o: Options, sizes: Base -> nat, lane: seq<nat>, slices: nat,
                             windowed: set<nat>)
    requires forall b :: sizes(b) == 0 || sizes(b) > (slices - 1) * SLICE_BYTES
    ensures WellSliced(CompiledPlan(p, o, sizes, lane, slices, windowed))
  {
    var pl := CompiledPlan(p, o, sizes, lane, slices, windowed);
    forall i | 0 <= i < |pl.nodes| ensures pl.nodes[i].workBytes == sizes(pl.nodes[i].output.base) {
      WorkBytes(p, o, sizes, i);
    }
  }

  lemma CompiledInv(p: Program, o: Options, sizes: Base -> nat, lane: seq<nat>, slices: nat, windowed: set<nat>,
                    s: State)
    requires Executable(p, o, sizes, lane, slices)
    requires Reachable(CompiledPlan(p, o, sizes, lane, slices, windowed), s)
    ensures Inv(CompiledPlan(p, o, sizes, lane, slices, windowed), s)
  {
    var pl := CompiledPlan(p, o, sizes, lane, slices, windowed);
    ExecutablePlan(p, o, sizes, lane, slices, windowed);
    var steps :| Reaches(pl, steps, s);
    ReachesInv(pl, steps, s);
  }

  lemma WorkBytes(p: Program, o: Options, sizes: Base -> nat, i: nat)
    requires i < |AllNodes(p, o, sizes)|
    ensures AllNodes(p, o, sizes)[i].workBytes == sizes(AllNodes(p, o, sizes)[i].output.base)
    ensures |AllNodes(p, o, sizes)[i].inputs| > 0
  {
    if i < |Lower(p, o)| {
      BodyNode(p, o, sizes, i);
    } else {
      TailNode(p, o, sizes, i);
    }
  }

  /** The nodes of a plan as instructions. */
  function Listing(pl: Plan): (ops: seq<Low>)
    requires forall i :: 0 <= i < |pl.nodes| ==> |pl.nodes[i].inputs| > 0
    ensures |ops| == |pl.nodes|
  {
    seq(|pl.nodes|, i requires 0 <= i < |pl.nodes| =>
      Low(pl.nodes[i].op, pl.nodes[i].rank, pl.nodes[i].inputs[0].key.base, pl.nodes[i].output.base))
  }

  lemma {:induction false} ExecuteIsInterpret<V>(pl: Plan, combine: (V, V) -> V, sizes: Base -> nat, n: nat,
                                                 mem: Memory<V>, b: Base, c: nat)
    requires n <= |pl.nodes|
    requires forall i :: 0 <= i < |pl.nodes| ==>
             |pl.nodes[i].inputs| > 0 && pl.nodes[i].workBytes == sizes(pl.nodes[i].output.base)
    ensures ExecuteAll(pl, combine, Upto(n), mem)(b, c) ==
            Interpret(Listing(pl), n, combine, sizes, pl.slices, mem)(b, c)
  {
    if n > 0 {
      var nd := pl.nodes[n - 1];
      ExecuteIsInterpret(pl, combine, sizes, n - 1, mem, b, c);
      ExecuteIsInterpret(pl, combine, sizes, n - 1, mem, nd.output.base, c);
      ExecuteIsInterpret(pl, combine, sizes, n - 1, mem, nd.inputs[0].key.base, c);
      assert Upto(n)[..n - 1] == Upto(n - 1);
    }
  }

  lemma ListOrderIsSchedule(p: Program, o: Options, sizes: Base -> nat, lane: seq<nat>, slices: nat, windowed: set<nat>)
    requires InOrder(p, o)
    ensures Schedule(CompiledPlan(p, o, sizes, lane, slices, windowed), Upto(|AllNodes(p, o, sizes)|))
  {
    var pl := CompiledPlan(p, o, sizes, lane, slices, windowed);
    var order := Upto(|pl.nodes|);
    forall i | 0 <= i < |pl.nodes| ensures i in order {
      assert order[i] == i;
    }
    forall a, j | 0 <= a < |order| && 0 <= j < |pl.nodes| && MustPrecede(pl, pl.nodes[order[a]], j)
      ensures j in order[..a]
    {
      EdgesGoForward(p, o, sizes, lane, slices, windowed, a, j);
      assert order[..a][j] == j;
    }
  }

  /** A finished run of all executors leaves what interpreting the compiled nodes in list order
      leaves. */
  lemma RunIsListing<V>(p: Program, o: Options, sizes: Base -> nat, lane: seq<nat>, slices: nat, windowed: set<nat>,
                        combine: (V, V) -> V, s: State, mem: Memory<V>, b: Base, c: nat)
    requires Runnable(p, o, sizes, lane, slices)
    requires var pl := CompiledPlan(p, o, sizes, lane, slices, windowed);
      Reachable(pl, s) && Shaped(pl, s) && Finished(pl, s)
    ensures var pl := CompiledPlan(p, o, sizes, lane, slices, windowed);
      && (forall i :: 0 <= i < |pl.nodes| ==> |pl.nodes[i].inputs| > 0)
      && Jobs(pl, s.log)
      && Replay(pl, combine, s.log, mem)(b, c) ==
         Interpret(Listing(pl), |pl.nodes|, combine, sizes, slices, mem)(b, c)
  {
    var pl := CompiledPlan(p, o, sizes, lane, slices, windowed);
    RunnablePlan(p, o, sizes, lane, slices, windowed);
    ListOrderIsSchedule(p, o, sizes, lane, slices, windowed);
    RunIsSequential(pl, combine, s, Upto(|pl.nodes|), mem, b, c);
    forall i | 0 <= i < |pl.nodes| ensures pl.nodes[i].workBytes == sizes(pl.nodes[i].output.base) {
      WorkBytes(p, o, sizes, i);
    }
    ExecuteIsInterpret(pl, combine, sizes, |pl.nodes|, mem, b, c);
  }

  /** Out of place, that is the meaning of the instruction list itself. */
  lemma OutOfPlaceRun<V>(p: Program, o: Options, sizes: Base -> nat, lane: seq<nat>, slices: nat, windowed: set<nat>,
                         combine: (V, V) -> V, s: State, mem: Memory<V>, b: Base, c: nat)
    requires Runnable(p, o, sizes, lane, slices) && !o.inPlace
    requires var pl := CompiledPlan(p, o, sizes, lane, slices, windowed);
      Reachable(pl, s) && Shaped(pl, s) && Finished(pl, s)
    ensures var pl := CompiledPlan(p, o, sizes, lane, slices, windowed);
      && (forall i :: 0 <= i < |pl.nodes| ==> |pl.nodes[i].inputs| > 0)
      && Jobs(pl, s.log)
      && Replay(pl, combine, s.log, mem)(b, c) ==
         Interpret(Lower(p, o), |Lower(p, o)|, combine, sizes, slices, mem)(b, c)
  {
    var pl := CompiledPlan(p, o, sizes, lane, slices, windowed);
    RunIsListing(p, o, sizes, lane, slices, windowed, combine, s, mem, b, c);
    ListingIsBodyFirst(p, o, sizes, lane, slices, windowed);
    if |pl.nodes| > |Lower(p, o)| {
      TailNode(p, o, sizes, |Lower(p, o)|);
    }
    assert Listing(pl) == Lower(p, o);
  }

  lemma ListingIsBodyFirst(p: Program, o: Options, sizes: Base -> nat, lane: seq<nat>, slices: nat, windowed: set<nat>)
    requires forall i :: 0 <= i < |AllNodes(p, o, sizes)| ==> |AllNodes(p, o, sizes)[i].inputs| > 0
    ensures var pl := CompiledPlan(p, o, sizes, lane, slices, windowed);
      |Lower(p, o)| <= |pl.nodes| && Listing(pl)[..|Lower(p, o)|] == Lower(p, o)
  {
    var pl := CompiledPlan(p, o, sizes, lane, slices, windowed);
    forall i | 0 <= i < |Lower(p, o)| ensures Listing(pl)[i] == Lower(p, o)[i] {
      BodyNode(p, o, sizes, i);
    }
  }

  /** The executors of a compiled program never have two conflicting copies in flight. Forward
      references, copies onto themselves and reductions into nothing are all allowed. */
  lemma CompiledRunsAreRaceFree(p: Program, o: Options, sizes: Base -> nat, lane: seq<nat>, slices: nat,
                                windowed: set<nat>,
                                s: State, i: nat, j: nat, sc: nat)
    requires Executable(p, o, sizes, lane, slices)
    requires Reachable(CompiledPlan(p, o, sizes, lane, slices, windowed), s)
    requires i < |AllNodes(p, o, sizes)| && j < |AllNodes(p, o, sizes)| && i != j
    requires RaceFreedom.Conflict(CompiledPlan(p, o, sizes, lane, slices, windowed), i, j)
    ensures var pl := CompiledPlan(p, o, sizes, lane, slices, windowed);
      Shaped(pl, s) && !(RaceFreedom.InFlight(pl, s, i, sc) && RaceFreedom.InFlight(pl, s, j, sc))
  {
    ExecutablePlan(p, o, sizes, lane, slices, windowed);
    RaceFreedom.RaceFree(CompiledPlan(p, o, sizes, lane, slices, windowed), s, i, j, sc);
  }

  /** An in-order program never gets stuck, with or without the lead window. */
  lemma CompiledRunsGoOn(p: Program, o: Options, sizes: Base -> nat, lane: seq<nat>, slices: nat, windowed: set<nat>,
                         s: State)
    returns (a: Action)
    requires Runnable(p, o, sizes, lane, slices)
    requires var pl := CompiledPlan(p, o, sizes, lane, slices, windowed);
      Reachable(pl, s) && Shaped(pl, s) && !Finished(pl, s)
    ensures Enabled(CompiledPlan(p, o, sizes, lane, slices, windowed), s, a)
  {
    RunnablePlan(p, o, sizes, lane, slices, windowed);
    a := NeverStuck(CompiledPlan(p, o, sizes, lane, slices, windowed), Upto(|AllNodes(p, o, sizes)|), s);
  }
}
