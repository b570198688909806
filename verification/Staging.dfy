/** The staged in-place program means what the program means on separate buffers. */
module Staging {
  import opened Ir
  import opened Graphs
  import opened Executor
  import opened Safety
  import opened Determinism
  import opened GraphFacts
  import opened Compiled
  import opened InPlace

  function Apart(o: Options): Options {
    o.(inPlace := false)
  }

  ghost predicate IsStaged(p: Program, o: Options, b: Base) {
    b.space == Output && Staged(p, o, b.owner, b.chunk)
  }

  ghost function Redirect(p: Program, o: Options, b: Base): Base {
    if IsStaged(p, o, b) then Base(Internal, b.owner, b.chunk) else b
  }

  /** `b` is not itself a staging copy. */
  ghost predicate Free(p: Program, o: Options, b: Base) {
    b.space == Internal ==> !Staged(p, o, b.owner, b.chunk)
  }

  /** Instructions do not name the staging copies of staged chunks. */
  ghost predicate NoClash(p: Program, o: Options) {
    var ops := Lower(p, Apart(o));
    forall i :: 0 <= i < |ops| ==> Free(p, o, ops[i].src) && Free(p, o, ops[i].dst)
  }

  lemma {:induction false} LowerRedirects(p: Program, o: Options, n: nat)
    requires n <= |p.insts|
    ensures |LowerFirst(p, o, n)| == |LowerFirst(p, Apart(o), n)|
    ensures forall i :: 0 <= i < |LowerFirst(p, o, n)| ==>
      var staged, plain := LowerFirst(p, o, n)[i], LowerFirst(p, Apart(o), n)[i];
      staged == Low(plain.op, plain.rank, Redirect(p, o, plain.src), Redirect(p, o, plain.dst))
  {
    if n > 0 {
      LowerRedirects(p, o, n - 1);
    }
  }

  lemma {:induction false} WritesRedirect(p: Program, o: Options, n: nat, b: Base)
    requires NoClash(p, o) && Free(p, o, b) && n <= |Lower(p, Apart(o))|
    ensures n <= |Lower(p, o)| && Writes(Lower(p, o), n, Redirect(p, o, b)) == Writes(Lower(p, Apart(o)), n, b)
  {
    LowerRedirects(p, o, |p.insts|);
    if n > 0 {
      WritesRedirect(p, o, n - 1, b);
      assert Free(p, o, Lower(p, Apart(o))[n - 1].dst);
    }
  }

  ghost predicate AllFull(sizes: Base -> nat, slices: nat) {
    forall b :: sizes(b) > (slices - 1) * SLICE_BYTES
  }

  /** What the last of the first `n` instructions leaves in slice `c`, no slice being empty. */
  lemma LastStep<V>(ops: seq<Low>, n: nat, combine: (V, V) -> V, sizes: Base -> nat, slices: nat, mem: Memory<V>,
                    b: Base, c: nat)
    requires 0 < n <= |ops| && c < slices && sizes(b) > (slices - 1) * SLICE_BYTES
    ensures var before := Interpret(ops, n - 1, combine, sizes, slices, mem);
      var op := ops[n - 1];
      Interpret(ops, n, combine, sizes, slices, mem)(b, c) ==
      if b != op.dst then before(b, c)
      else if op.op == D2DReduce then combine(before(b, c), before(op.src, c)) else before(op.src, c)
  {
    assert c * SLICE_BYTES <= (slices - 1) * SLICE_BYTES;
  }

  lemma SameLength(p: Program, o: Options)
    ensures |Lower(p, o)| == |Lower(p, Apart(o))|
  {
    LowerRedirects(p, o, |p.insts|);
  }

  lemma StepRedirects(p: Program, o: Options, i: nat, b: Base)
    requires NoClash(p, o) && Free(p, o, b) && i < |Lower(p, Apart(o))|
    ensures i < |Lower(p, o)|
    ensures var staged, plain := Lower(p, o)[i], Lower(p, Apart(o))[i];
      && Free(p, o, plain.src) && Free(p, o, plain.dst)
      && staged == Low(plain.op, plain.rank, Redirect(p, o, plain.src), Redirect(p, o, plain.dst))
      && (staged.dst == Redirect(p, o, b) <==> plain.dst == b)
  {
    LowerRedirects(p, o, |p.insts|);
  }

  /** After any prefix, the staged program holds in a chunk's staging copy what the plain program
      holds in the chunk, as soon as the chunk has been written at all. */
  lemma {:induction false} SameUpToStaging<V>(p: Program, o: Options, n: nat, combine: (V, V) -> V,
                                              sizes: Base -> nat, slices: nat,
                                              mem: Memory<V>, b: Base, c: nat)
    requires NoClash(p, o) && InOrder(p, o) && Free(p, o, b) && n <= |Lower(p, Apart(o))| && c < slices &&
             AllFull(sizes, slices)
    requires IsStaged(p, o, b) ==> Writes(Lower(p, Apart(o)), n, b) > 0
    ensures n <= |Lower(p, o)|
    ensures Interpret(Lower(p, o), n, combine, sizes, slices, mem)(Redirect(p, o, b), c) ==
            Interpret(Lower(p, Apart(o)), n, combine, sizes, slices, mem)(b, c)
  {
    SameLength(p, o);
    if n > 0 {
      var plain := Lower(p, Apart(o))[n - 1];
      StepRedirects(p, o, n - 1, b);
      LastStep(Lower(p, o), n, combine, sizes, slices, mem, Redirect(p, o, b), c);
      LastStep(Lower(p, Apart(o)), n, combine, sizes, slices, mem, b, c);
      if plain.dst == b {
        ReadsDefined(p, o, n - 1);
        SameUpToStaging(p, o, n - 1, combine, sizes, slices, mem, plain.src, c);
        if plain.op == D2DReduce {
          SameUpToStaging(p, o, n - 1, combine, sizes, slices, mem, b, c);
        }
      } else {
        SameUpToStaging(p, o, n - 1, combine, sizes, slices, mem, b, c);
      }
    }
  }

  /** An in-order program reads a staged chunk only after it has been written. */
  lemma ReadsDefined(p: Program, o: Options, i: nat)
    requires NoClash(p, o) && InOrder(p, o) && i < |Lower(p, Apart(o))|
    ensures var plain := Lower(p, Apart(o))[i];
      && (IsStaged(p, o, plain.src) ==> Writes(Lower(p, Apart(o)), i, plain.src) > 0)
      && (plain.op == D2DReduce && IsStaged(p, o, plain.dst) ==> Writes(Lower(p, Apart(o)), i, plain.dst) > 0)
  {
    var plain := Lower(p, Apart(o))[i];
    LowerRedirects(p, o, |p.insts|);
    assert Free(p, o, plain.src) && Free(p, o, plain.dst);
    assert InOrderAt(Lower(p, o), InputBases(p, o.world), i);
    WritesRedirect(p, o, i, plain.src);
    WritesRedirect(p, o, i, plain.dst);
  }

  // ---- The copybacks ----

  lemma {:induction false} SamePrefix<V>(xs: seq<Low>, ys: seq<Low>, n: nat, combine: (V, V) -> V, sizes: Base -> nat,
                                         slices: nat, mem: Memory<V>)
    requires n <= |xs| && n <= |ys| && forall i :: 0 <= i < n ==> xs[i] == ys[i]
    ensures Interpret(xs, n, combine, sizes, slices, mem) == Interpret(ys, n, combine, sizes, slices, mem)
  {
    if n > 0 {
      SamePrefix(xs, ys, n - 1, combine, sizes, slices, mem);
    }
  }

  lemma {:induction false} NotWrittenBetween<V>(ops: seq<Low>, lo: nat, hi: nat, combine: (V, V) -> V,
                                                sizes: Base -> nat, slices: nat,
                                                mem: Memory<V>, b: Base, c: nat)
    requires lo <= hi <= |ops| && forall i :: lo <= i < hi ==> ops[i].dst != b
    ensures Interpret(ops, hi, combine, sizes, slices, mem)(b, c) ==
            Interpret(ops, lo, combine, sizes, slices, mem)(b, c)
  {
    if lo < hi {
      NotWrittenBetween(ops, lo, hi - 1, combine, sizes, slices, mem, b, c);
    }
  }

  lemma CopyBackOf(p: Program, o: Options, sizes: Base -> nat, b: Base) returns (j: nat)
    requires IsStaged(p, o, b)
    ensures |Lower(p, o)| <= j < |AllNodes(p, o, sizes)|
    ensures AllNodes(p, o, sizes)[j].output.base == b && AllNodes(p, o, sizes)[j].op == D2D
    ensures |AllNodes(p, o, sizes)[j].inputs| > 0
    ensures AllNodes(p, o, sizes)[j].inputs[0].key.base == Base(Internal, b.owner, b.chunk)
  {
    var tail := CopyBacksFacts(p, o, sizes, o.world);
    var q :| 0 <= q < |tail| && tail[q] == CopyBackNode(p, o, sizes, b.owner, b.chunk);
    j := |Lower(p, o)| + q;
  }

  lemma TailWritesStaged(p: Program, o: Options, sizes: Base -> nat, i: nat, b: Base)
    requires |Lower(p, o)| <= i < |AllNodes(p, o, sizes)| && !IsStaged(p, o, b)
    ensures AllNodes(p, o, sizes)[i].output.base != b
  {
    TailNode(p, o, sizes, i);
  }

  /** The copybacks leave alone what they do not write. */
  lemma TailKeeps<V>(p: Program, o: Options, sizes: Base -> nat, list: seq<Low>, n: nat, combine: (V, V) -> V,
                     slices: nat,
                     mem: Memory<V>, b: Base, c: nat)
    requires |Lower(p, o)| <= n <= |list| == |AllNodes(p, o, sizes)| && !IsStaged(p, o, b)
    requires forall i :: 0 <= i < |list| ==> list[i].dst == AllNodes(p, o, sizes)[i].output.base
    ensures Interpret(list, n, combine, sizes, slices, mem)(b, c) ==
            Interpret(list, |Lower(p, o)|, combine, sizes, slices, mem)(b, c)
  {
    forall i | |Lower(p, o)| <= i < n ensures list[i].dst != b {
      TailWritesStaged(p, o, sizes, i, b);
    }
    NotWrittenBetween(list, |Lower(p, o)|, n, combine, sizes, slices, mem, b, c);
  }

  lemma WrittenOnceAfter(p: Program, o: Options, sizes: Base -> nat, list: seq<Low>, j: nat, b: Base)
    requires |Lower(p, o)| <= j < |list| == |AllNodes(p, o, sizes)| && list[j].dst == b
    requires forall i :: 0 <= i < |list| ==> list[i].dst == AllNodes(p, o, sizes)[i].output.base
    ensures forall i :: j < i < |list| ==> list[i].dst != b
  {
    forall i | j < i < |list| ensures list[i].dst != b {
      DistinctOutputs(p, o, sizes, j, i);
    }
  }

  lemma StagedComesBack<V>(p: Program, o: Options, sizes: Base -> nat, list: seq<Low>, j: nat, combine: (V, V) -> V,
                           slices: nat,
                           mem: Memory<V>, b: Base, c: nat)
    requires |Lower(p, o)| <= j < |list| == |AllNodes(p, o, sizes)| && c < slices &&
             sizes(b) > (slices - 1) * SLICE_BYTES
    requires forall i :: 0 <= i < |list| ==> list[i].dst == AllNodes(p, o, sizes)[i].output.base
    requires list[j].dst == b && list[j].op == D2D && list[j].src == Base(Internal, b.owner, b.chunk)
    ensures Interpret(list, |list|, combine, sizes, slices, mem)(b, c) ==
            Interpret(list, |Lower(p, o)|, combine, sizes, slices, mem)(Base(Internal, b.owner, b.chunk), c)
  {
    var staged := Base(Internal, b.owner, b.chunk);
    assert Interpret(list, |list|, combine, sizes, slices, mem)(b, c) ==
           Interpret(list, j + 1, combine, sizes, slices, mem)(b, c) by
    {
      WrittenOnceAfter(p, o, sizes, list, j, b);
      NotWrittenBetween(list, j + 1, |list|, combine, sizes, slices, mem, b, c);
    }
    assert Interpret(list, j + 1, combine, sizes, slices, mem)(b, c) ==
           Interpret(list, j, combine, sizes, slices, mem)(staged, c) by
    {
      LastStep(list, j + 1, combine, sizes, slices, mem, b, c);
    }
    TailKeeps(p, o, sizes, list, j, combine, slices, mem, staged, c);
  }

  lemma ListingEntries(p: Program, o: Options, sizes: Base -> nat, lane: seq<nat>, slices: nat, windowed: set<nat>)
    requires forall i :: 0 <= i < |AllNodes(p, o, sizes)| ==> |AllNodes(p, o, sizes)[i].inputs| > 0
    ensures var list := Listing(CompiledPlan(p, o, sizes, lane, slices, windowed));
      && |Lower(p, o)| <= |list| == |AllNodes(p, o, sizes)|
      && (forall i :: 0 <= i < |list| ==> list[i].dst == AllNodes(p, o, sizes)[i].output.base)
      && (forall i :: 0 <= i < |Lower(p, o)| ==> list[i] == Lower(p, o)[i])
  {
    var list := Listing(CompiledPlan(p, o, sizes, lane, slices, windowed));
    ListingIsBodyFirst(p, o, sizes, lane, slices, windowed);
    assert forall i :: 0 <= i < |Lower(p, o)| ==> list[..|Lower(p, o)|][i] == list[i];
  }

  /** After the copybacks every output chunk is where the user expects it. */
  lemma CopyBacksRestore<V>(p: Program, o: Options, sizes: Base -> nat, lane: seq<nat>, slices: nat, windowed: set<nat>,
                            combine: (V, V) -> V, mem: Memory<V>, b: Base, c: nat)
    requires b.space == Output && c < slices && AllFull(sizes, slices)
    requires forall i :: 0 <= i < |AllNodes(p, o, sizes)| ==> |AllNodes(p, o, sizes)[i].inputs| > 0
    ensures var list := Listing(CompiledPlan(p, o, sizes, lane, slices, windowed));
      Interpret(list, |list|, combine, sizes, slices, mem)(b, c) ==
      Interpret(Lower(p, o), |Lower(p, o)|, combine, sizes, slices, mem)(Redirect(p, o, b), c)
  {
    var list := Listing(CompiledPlan(p, o, sizes, lane, slices, windowed));
    ListingEntries(p, o, sizes, lane, slices, windowed);
    SamePrefix(list, Lower(p, o), |Lower(p, o)|, combine, sizes, slices, mem);
    if IsStaged(p, o, b) {
      var j := CopyBackOf(p, o, sizes, b);
      StagedComesBack(p, o, sizes, list, j, combine, slices, mem, b, c);
    } else {
      TailKeeps(p, o, sizes, list, |list|, combine, slices, mem, b, c);
    }
  }

  // ---- In place is out of place ----

  /** Some node writes the visible chunk. */
  lemma OutputHasNode(p: Program, o: Options, sizes: Base -> nat, b: Base) returns (j: nat)
    requires b.space == Output && NoClash(p, o) && Writes(Lower(p, Apart(o)), |Lower(p, Apart(o))|, b) > 0
    ensures j < |AllNodes(p, o, sizes)| && AllNodes(p, o, sizes)[j].output.base == b
  {
    if IsStaged(p, o, b) {
      j := CopyBackOf(p, o, sizes, b);
    } else {
      LowerRedirects(p, o, |p.insts|);
      WritesRedirect(p, o, |Lower(p, Apart(o))|, b);
      j := VersionHasProducer(Lower(p, o), |Lower(p, o)|, b, 1);
      BodyNode(p, o, sizes, j);
    }
  }

  lemma LogIsInRange(pl: Plan, s: State)
    requires Shaped(pl, s) && OrderOk(pl, s) && LoggedOk(pl, s)
    ensures forall q :: 0 <= q < |s.log| ==> s.log[q].slice < pl.slices
  {
    forall q | 0 <= q < |s.log| ensures s.log[q].slice < pl.slices {
      assert s.next[s.log[q].node] <= pl.slices;
    }
  }

  lemma OutputIsDone(p: Program, o: Options, sizes: Base -> nat, lane: seq<nat>, slices: nat, windowed: set<nat>,
                     s: State, b: Base, c: nat)
    requires b.space == Output && c < slices && NoClash(p, o) && Writes(Lower(p, Apart(o)), |Lower(p, Apart(o))|, b) > 0
    requires var pl := CompiledPlan(p, o, sizes, lane, slices, windowed);
      WellFormed(pl) && Inv(pl, s) && Finished(pl, s) && Jobs(pl, s.log)
    ensures OutputDone(CompiledPlan(p, o, sizes, lane, slices, windowed), s.log, Place(b), c)
  {
    var pl := CompiledPlan(p, o, sizes, lane, slices, windowed);
    var j := OutputHasNode(p, o, sizes, b);
    FinishedIsComplete(pl, s);
    assert Contains(s.log, Job(j, c));
    var q :| 0 <= q < |s.log| && s.log[q] == Job(j, c);
    assert WritesSlice(pl, s.log[q], OutputOn(Place(b)), c);
  }

  lemma FinishedFacts(p: Program, o: Options, sizes: Base -> nat, lane: seq<nat>, slices: nat, windowed: set<nat>,
                      s: State)
    requires Runnable(p, o, sizes, lane, slices)
    requires Reachable(CompiledPlan(p, o, sizes, lane, slices, windowed), s)
    ensures var pl := CompiledPlan(p, o, sizes, lane, slices, windowed);
      WellFormed(pl) && Inv(pl, s) && Legal(pl, s.log) && forall q :: 0 <= q < |s.log| ==> s.log[q].slice < slices
  {
    var pl := CompiledPlan(p, o, sizes, lane, slices, windowed);
    RunnablePlan(p, o, sizes, lane, slices, windowed);
    var steps :| Reaches(pl, steps, s);
    ReachesInv(pl, steps, s);
    RunsAreLegal(pl, steps, s);
    LogIsInRange(pl, s);
  }

  /** Once written, an output chunk is what the shared buffer holds. */
  lemma SharedHoldsOutput<V>(p: Program, o: Options, sizes: Base -> nat, lane: seq<nat>, slices: nat,
                             windowed: set<nat>,
                             combine: (V, V) -> V, log: seq<Job>, mem: Memory<V>, b: Base, c: nat)
    requires Compilable(p, o) && InOrder(p, o) && InPlaceProgram(p, o) && AllFull(sizes, slices) && b.space == Output
    requires var pl := CompiledPlan(p, o, sizes, lane, slices, windowed);
      && WellFormed(pl) && Legal(pl, log) && (forall q :: 0 <= q < |log| ==> log[q].slice < slices)
      && OutputDone(pl, log, Place(b), c)
    ensures var pl := CompiledPlan(p, o, sizes, lane, slices, windowed);
      PlacedReplay(pl, combine, log, mem)(Place(b), c) == Replay(pl, combine, log, mem)(b, c)
  {
    PlacedIsHeld(p, o, sizes, lane, slices, windowed, combine, log, |log|, mem, Place(b), c);
    assert log[..|log|] == log;
    assert OutputOn(Place(b)) == b;
  }

  /** Every finished run of the in-place collective, whatever the interleaving, leaves in the
      shared buffer the output that the instruction list computes on separate buffers. */
  lemma InPlaceMatchesOutOfPlace<V>(p: Program, o: Options, sizes: Base -> nat, lane: seq<nat>, slices: nat,
                                    windowed: set<nat>,
                                    combine: (V, V) -> V, s: State, mem: Memory<V>, b: Base, c: nat)
    requires Runnable(p, o, sizes, lane, slices) && InPlaceProgram(p, o) && NoClash(p, o)
    requires AllFull(sizes, slices) && b.space == Output && c < slices
    requires Writes(Lower(p, Apart(o)), |Lower(p, Apart(o))|, b) > 0
    requires var pl := CompiledPlan(p, o, sizes, lane, slices, windowed);
      Reachable(pl, s) && Shaped(pl, s) && Finished(pl, s)
    ensures var pl := CompiledPlan(p, o, sizes, lane, slices, windowed);
      && Jobs(pl, s.log)
      && PlacedReplay(pl, combine, s.log, mem)(Place(b), c) ==
         Interpret(Lower(p, Apart(o)), |Lower(p, Apart(o))|, combine, sizes, slices, mem)(b, c)
  {
    FinishedFacts(p, o, sizes, lane, slices, windowed, s);
    OutputIsDone(p, o, sizes, lane, slices, windowed, s, b, c);
    SharedHoldsOutput(p, o, sizes, lane, slices, windowed, combine, s.log, mem, b, c);
    RunIsListing(p, o, sizes, lane, slices, windowed, combine, s, mem, b, c);
    CopyBacksRestore(p, o, sizes, lane, slices, windowed, combine, mem, b, c);
    SameUpToStaging(p, o, |Lower(p, Apart(o))|, combine, sizes, slices, mem, b, c);
    LowerRedirects(p, o, |p.insts|);
  }
}
