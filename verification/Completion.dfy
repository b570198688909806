/** When the runs of a compiled program complete: every rank's executor leaves its loop once all
    output chunks of its terminal keys are written, for exactly which programs that can happen,
    and what the memory then holds when the list order does not respect the dataflow. */
module Completion {
  import opened Ir
  import opened Graphs
  import opened Executor
  import opened Safety
  import opened Determinism
  import opened Progress
  import opened Deadlock
  import opened GraphFacts
  import opened Compiled
  import opened Terminals
  import RaceFreedom

  // ---- All outputs written, all ranks done ----

  /** The keys compilation hands to the executor of `rank` as its terminals. */
  ghost function TerminalKeys(p: Program, o: Options, rank: nat): (keys: seq<Key>)
    ensures |keys| == p.outputChunks
  {
    seq(p.outputChunks, c requires 0 <= c < p.outputChunks => TerminalKey(p, o, rank, c))
  }

  ghost predicate OutputWritten(p: Program, o: Options, rank: nat, c: nat) {
    Staged(p, o, rank, c) || Writes(Lower(p, o), |Lower(p, o)|, Base(Output, rank, c)) > 0
  }

  ghost predicate OutputsWritten(p: Program, o: Options) {
    forall r: nat, c: nat :: r < o.world && c < p.outputChunks ==> OutputWritten(p, o, r, c)
  }

  /** A terminal key has a writer exactly when its chunk is written, directly or by a copyback. */
  lemma TerminalHasWriter(p: Program, o: Options, sizes: Base -> nat, lane: seq<nat>, slices: nat, windowed: set<nat>,
                          r: nat, c: nat)
    requires Compilable(p, o) && r < o.world && c < p.outputChunks
    ensures TerminalKey(p, o, r, c).version < MAX_PROGRESS_VERSIONS
    ensures HasWriter(CompiledPlan(p, o, sizes, lane, slices, windowed), TerminalKey(p, o, r, c)) <==>
            OutputWritten(p, o, r, c)
  {
    var pl := CompiledPlan(p, o, sizes, lane, slices, windowed);
    var ops, b := Lower(p, o), Base(Output, r, c);
    FewWrites(ops, |ops|, b);
    if Staged(p, o, r, c) {
      StagedIsWritten(p, o, r, c);
      CopyBackInPlan(p, o, sizes, r, c);
    } else if Writes(ops, |ops|, b) > 0 {
      ProducedInPlan(p, o, sizes, lane, slices, windowed, b, Writes(ops, |ops|, b));
    } else {
      forall i | 0 <= i < |pl.nodes| ensures pl.nodes[i].output != TerminalKey(p, o, r, c) {
        OutputVersionPositive(p, o, sizes, i);
      }
    }
  }

  lemma CopyBackInPlan(p: Program, o: Options, sizes: Base -> nat, r: nat, c: nat)
    requires Staged(p, o, r, c)
    ensures CopyBackNode(p, o, sizes, r, c) in AllNodes(p, o, sizes)
  {
    var tail := CopyBacksFacts(p, o, sizes, o.world);
    assert CopyBackNode(p, o, sizes, r, c) in tail;
  }

  lemma OutputVersionPositive(p: Program, o: Options, sizes: Base -> nat, i: nat)
    requires i < |AllNodes(p, o, sizes)|
    ensures AllNodes(p, o, sizes)[i].output.version > 0
  {
    if i < |Lower(p, o)| {
      BodyNode(p, o, sizes, i);
    } else {
      TailNode(p, o, sizes, i);
    }
  }

  ghost predicate AllComplete(p: Program, o: Options, pl: Plan, s: State)
    requires Shaped(pl, s)
  {
    forall r: nat :: r < pl.world ==> TerminalsComplete(pl, s, r, TerminalKeys(p, o, r))
  }

  /** A run of a program that writes all its outputs goes on until every rank has left its loop. */
  lemma RunsUntilOutputs(p: Program, o: Options, sizes: Base -> nat, lane: seq<nat>, slices: nat, windowed: set<nat>,
                         s: State)
    returns (a: Action)
    requires Runnable(p, o, sizes, lane, slices) && OutputsWritten(p, o)
    requires var pl := CompiledPlan(p, o, sizes, lane, slices, windowed);
      Reachable(pl, s) && Shaped(pl, s) && !AllComplete(p, o, pl, s)
    ensures Enabled(CompiledPlan(p, o, sizes, lane, slices, windowed), s, a)
  {
    var pl := CompiledPlan(p, o, sizes, lane, slices, windowed);
    RunnablePlan(p, o, sizes, lane, slices, windowed);
    var terminals: seq<seq<Key>> := seq(o.world, r requires 0 <= r < o.world => TerminalKeys(p, o, r));
    forall r: nat, t: nat | r < pl.world && t < |terminals[r]|
      ensures terminals[r][t].version < MAX_PROGRESS_VERSIONS && HasWriter(pl, terminals[r][t])
    {
      assert OutputWritten(p, o, r, t);
      TerminalHasWriter(p, o, sizes, lane, slices, windowed, r, t);
    }
    var r: nat :| r < pl.world && !TerminalsComplete(pl, s, r, TerminalKeys(p, o, r));
    assert terminals[r] == TerminalKeys(p, o, r);
    a := RunsUntilComplete(pl, Upto(|pl.nodes|), s, terminals);
  }

  /** An output chunk nobody writes keeps its rank in the loop in every reachable state. */
  lemma UnwrittenOutputNeverCompletes(p: Program, o: Options, sizes: Base -> nat, lane: seq<nat>, slices: nat,
                                      windowed: set<nat>, s: State, r: nat, c: nat)
    requires Executable(p, o, sizes, lane, slices) && r < o.world && c < p.outputChunks && !OutputWritten(p, o, r, c)
    requires Reachable(CompiledPlan(p, o, sizes, lane, slices, windowed), s)
    ensures var pl := CompiledPlan(p, o, sizes, lane, slices, windowed);
      Shaped(pl, s) && !TerminalsComplete(pl, s, r, TerminalKeys(p, o, r))
  {
    ExecutablePlan(p, o, sizes, lane, slices, windowed);
    TerminalHasWriter(p, o, sizes, lane, slices, windowed, r, c);
    UnwrittenTerminalNeverCompletes(CompiledPlan(p, o, sizes, lane, slices, windowed), s, r, TerminalKeys(p, o, r), c);
  }

  lemma {:induction false} CompletingRun(p: Program, o: Options, sizes: Base -> nat, lane: seq<nat>, slices: nat,
                                         windowed: set<nat>, steps: seq<Action>, s: State) returns (s': State)
    requires Runnable(p, o, sizes, lane, slices) && OutputsWritten(p, o)
    requires var pl := CompiledPlan(p, o, sizes, lane, slices, windowed); Reaches(pl, steps, s) && Shaped(pl, s)
    ensures var pl := CompiledPlan(p, o, sizes, lane, slices, windowed);
      Reachable(pl, s') && Shaped(pl, s') && AllComplete(p, o, pl, s')
    decreases 3 * o.world + 6 * (|AllNodes(p, o, sizes)| * slices) - |steps|
  {
    var pl := CompiledPlan(p, o, sizes, lane, slices, windowed);
    if AllComplete(p, o, pl, s) {
      s' := s;
    } else {
      var a := RunsUntilOutputs(p, o, sizes, lane, slices, windowed, s);
      var s1 := Next(pl, s, a);
      assert (steps + [a])[..|steps|] == steps;
      assert Reaches(pl, steps + [a], s1);
      ExecutablePlan(p, o, sizes, lane, slices, windowed);
      RunsEnd(pl, steps + [a], s1);
      s' := CompletingRun(p, o, sizes, lane, slices, windowed, steps + [a], s1);
    }
  }

  ghost predicate CanComplete(p: Program, o: Options, pl: Plan)
    requires |pl.lane| == |pl.nodes|
  {
    exists s :: Reachable(pl, s) && Shaped(pl, s) && AllComplete(p, o, pl, s)
  }

  /** All ranks of an in-order program can leave their loops if and only if every output chunk of
      every rank is written by some instruction or staged. */
  lemma CompletesExactlyWhenWritten(p: Program, o: Options, sizes: Base -> nat, lane: seq<nat>, slices: nat,
                                    windowed: set<nat>)
    requires Runnable(p, o, sizes, lane, slices)
    ensures CanComplete(p, o, CompiledPlan(p, o, sizes, lane, slices, windowed)) <==> OutputsWritten(p, o)
  {
    var pl := CompiledPlan(p, o, sizes, lane, slices, windowed);
    if OutputsWritten(p, o) {
      assert Reaches(pl, [], Start(pl));
      var s := CompletingRun(p, o, sizes, lane, slices, windowed, [], Start(pl));
    } else {
      var r: nat, c: nat :| r < o.world && c < p.outputChunks && !OutputWritten(p, o, r, c);
      forall s | Reachable(pl, s) && Shaped(pl, s) ensures !AllComplete(p, o, pl, s) {
        UnwrittenOutputNeverCompletes(p, o, sizes, lane, slices, windowed, s, r, c);
      }
    }
  }

  // ---- What a rank that has left its loop can rely on ----

  /** When a rank's exit test holds, every slice of every node of it is in memory. */
  lemma ExitMeansCopied(p: Program, o: Options, sizes: Base -> nat, lane: seq<nat>, slices: nat, windowed: set<nat>,
                        s: State, r: nat, i: nat, sc: nat)
    requires Executable(p, o, sizes, lane, slices)
    requires var pl := CompiledPlan(p, o, sizes, lane, slices, windowed);
      && Reachable(pl, s) && Shaped(pl, s) && TerminalsComplete(pl, s, r, TerminalKeys(p, o, r))
      && i < |pl.nodes| && pl.nodes[i].rank == r && sc < slices
    ensures Contains(s.log, Job(i, sc))
  {
    var pl := CompiledPlan(p, o, sizes, lane, slices, windowed);
    CompiledInv(p, o, sizes, lane, slices, windowed, s);
    assert sc < Written(pl, s, i);
  }

  /** All ranks have left their loops only when the whole work is done. */
  lemma AllExitsMeanFinished(p: Program, o: Options, sizes: Base -> nat, lane: seq<nat>, slices: nat,
                             windowed: set<nat>, s: State)
    requires Executable(p, o, sizes, lane, slices)
    requires var pl := CompiledPlan(p, o, sizes, lane, slices, windowed);
      Reachable(pl, s) && Shaped(pl, s) && AllComplete(p, o, pl, s)
    ensures Finished(CompiledPlan(p, o, sizes, lane, slices, windowed), s)
  {
    var pl := CompiledPlan(p, o, sizes, lane, slices, windowed);
    CompiledIsWellFormed(p, o, sizes, lane, slices, windowed);
    CompiledInv(p, o, sizes, lane, slices, windowed, s);
    forall i | 0 <= i < |pl.nodes| ensures s.completed[i] >= slices {
      assert NodeOk(pl, i);
      assert TerminalsComplete(pl, s, pl.nodes[i].rank, TerminalKeys(p, o, pl.nodes[i].rank));
    }
    DoneEverywhere(pl, s);
  }

  lemma DoneEverywhere(pl: Plan, s: State)
    requires Shaped(pl, s) && OrderOk(pl, s) && OwingOk(pl, s)
    requires forall i :: 0 <= i < |pl.nodes| ==> s.completed[i] >= pl.slices
    ensures Finished(pl, s)
  {
    forall i | 0 <= i < |pl.nodes| ensures s.completed[i] == s.next[i] == pl.slices {
    }
    if r :| r in s.owing {
      assert false;
    }
  }

  /** The node whose output is the terminal key writes the newest version of the chunk. */
  lemma TerminalNode(p: Program, o: Options, sizes: Base -> nat, lane: seq<nat>, slices: nat, windowed: set<nat>,
                     r: nat, c: nat) returns (j: nat)
    requires Compilable(p, o) && r < o.world && c < p.outputChunks && OutputWritten(p, o, r, c)
    ensures var nodes := AllNodes(p, o, sizes);
      && j < |nodes| && nodes[j].output == TerminalKey(p, o, r, c)
      && forall i :: 0 <= i < |nodes| && nodes[i].output.base == nodes[j].output.base ==>
           nodes[i].output.version <= nodes[j].output.version
  {
    var pl := CompiledPlan(p, o, sizes, lane, slices, windowed);
    TerminalHasWriter(p, o, sizes, lane, slices, windowed, r, c);
    j :| 0 <= j < |pl.nodes| && pl.nodes[j].output == TerminalKey(p, o, r, c);
    forall i | 0 <= i < |pl.nodes| && pl.nodes[i].output.base == pl.nodes[j].output.base
      ensures pl.nodes[i].output.version <= pl.nodes[j].output.version
    {
      TerminalIsNewest(p, o, sizes, r, c, i);
    }
  }

  lemma TerminalIsNewest(p: Program, o: Options, sizes: Base -> nat, r: nat, c: nat, i: nat)
    requires i < |AllNodes(p, o, sizes)| && AllNodes(p, o, sizes)[i].output.base == Base(Output, r, c)
    ensures AllNodes(p, o, sizes)[i].output.version <= TerminalKey(p, o, r, c).version
  {
    if i < |Lower(p, o)| {
      BodyNode(p, o, sizes, i);
      WritesGrow(Lower(p, o), i, |Lower(p, o)|, Base(Output, r, c));
    } else {
      TailNode(p, o, sizes, i);
    }
  }

  /** The newest writer of a chunk decides its contents in every order that contains it. */
  lemma NewestDecides<V>(pl: Plan, combine: (V, V) -> V, a: seq<Job>, b: seq<Job>, mem: Memory<V>, j: nat, sc: nat)
    requires WellFormed(pl) && RaceFreedom.Versioned(pl) && Legal(pl, a) && Legal(pl, b) && j < |pl.nodes|
    requires forall i :: 0 <= i < |pl.nodes| && pl.nodes[i].output.base == pl.nodes[j].output.base ==>
               pl.nodes[i].output.version <= pl.nodes[j].output.version
    requires Contains(a, Job(j, sc)) && Contains(b, Job(j, sc))
    ensures Replay(pl, combine, a, mem)(pl.nodes[j].output.base, sc) ==
            Replay(pl, combine, b, mem)(pl.nodes[j].output.base, sc)
  {
    var x :| 0 <= x < |a| && a[x] == Job(j, sc);
    var y :| 0 <= y < |b| && b[y] == Job(j, sc);
    LastWriter(pl, combine, a, mem, x, |a|);
    LastWriter(pl, combine, b, mem, y, |b|);
    assert a[..|a|] == a && b[..|b|] == b;
    SameValue(pl, combine, a, b, mem, x, y);
  }

  lemma LogIsLegal(p: Program, o: Options, sizes: Base -> nat, lane: seq<nat>, slices: nat, windowed: set<nat>,
                   s: State)
    requires Executable(p, o, sizes, lane, slices)
    requires Reachable(CompiledPlan(p, o, sizes, lane, slices, windowed), s)
    ensures Legal(CompiledPlan(p, o, sizes, lane, slices, windowed), s.log)
  {
    ExecutablePlan(p, o, sizes, lane, slices, windowed);
    var pl := CompiledPlan(p, o, sizes, lane, slices, windowed);
    var steps :| Reaches(pl, steps, s);
    RunsAreLegal(pl, steps, s);
  }

  /** The slice of the terminal key's node is in memory when the exit test holds. */
  lemma ExitMeansTerminal(p: Program, o: Options, sizes: Base -> nat, lane: seq<nat>, slices: nat, windowed: set<nat>,
                          s: State, r: nat, c: nat, j: nat, sc: nat)
    requires Executable(p, o, sizes, lane, slices) && c < p.outputChunks && sc < slices
    requires var pl := CompiledPlan(p, o, sizes, lane, slices, windowed);
      && Reachable(pl, s) && Shaped(pl, s) && TerminalsComplete(pl, s, r, TerminalKeys(p, o, r))
      && j < |pl.nodes| && pl.nodes[j].output == TerminalKey(p, o, r, c)
    ensures Contains(s.log, Job(j, sc))
  {
    var pl := CompiledPlan(p, o, sizes, lane, slices, windowed);
    CompiledInv(p, o, sizes, lane, slices, windowed, s);
    assert Wp(s, TerminalKeys(p, o, r)[c]) >= slices;
    assert sc < Written(pl, s, j);
  }

  /** When a rank has left its loop, every output chunk of it holds in every slice what any finished
      run leaves there, however far the other ranks are. */
  lemma ExitMeansOutput<V>(p: Program, o: Options, sizes: Base -> nat, lane: seq<nat>, slices: nat, windowed: set<nat>,
                           combine: (V, V) -> V, s: State, t: State, mem: Memory<V>, r: nat, c: nat, sc: nat)
    requires Executable(p, o, sizes, lane, slices) && r < o.world && c < p.outputChunks && sc < slices
    requires var pl := CompiledPlan(p, o, sizes, lane, slices, windowed);
      && Reachable(pl, s) && Shaped(pl, s) && TerminalsComplete(pl, s, r, TerminalKeys(p, o, r))
      && Reachable(pl, t) && Shaped(pl, t) && Finished(pl, t)
    ensures var pl := CompiledPlan(p, o, sizes, lane, slices, windowed);
      && Jobs(pl, s.log) && Jobs(pl, t.log)
      && Replay(pl, combine, s.log, mem)(Base(Output, r, c), sc) ==
          Replay(pl, combine, t.log, mem)(Base(Output, r, c), sc)
  {
    var pl := CompiledPlan(p, o, sizes, lane, slices, windowed);
    if !OutputWritten(p, o, r, c) {
      UnwrittenOutputNeverCompletes(p, o, sizes, lane, slices, windowed, s, r, c);
    }
    var j := TerminalNode(p, o, sizes, lane, slices, windowed, r, c);
    ExitMeansTerminal(p, o, sizes, lane, slices, windowed, s, r, c, j, sc);
    ExecutablePlan(p, o, sizes, lane, slices, windowed);
    CompiledInv(p, o, sizes, lane, slices, windowed, t);
    FinishedIsComplete(pl, t);
    LogIsLegal(p, o, sizes, lane, slices, windowed, s);
    LogIsLegal(p, o, sizes, lane, slices, windowed, t);
    NewestDecides(pl, combine, s.log, t.log, mem, j, sc);
  }

  // ---- Programs that wait for themselves ----

  /** The instructions from the first writer of a chunk on that write it. */
  function WritersFrom(ops: seq<Low>, i: nat): (c: set<nat>)
    requires i < |ops|
    ensures forall j :: j in c <==> i <= j < |ops| && ops[j].dst == ops[i].dst
  {
    set j: nat | i <= j < |ops| && ops[j].dst == ops[i].dst
  }

  predicate ReadsItsFirstWrite(ops: seq<Low>, inputs: set<Base>, i: nat)
    requires i < |ops|
  {
    && Writes(ops, i, ops[i].dst) == 0 && ops[i].dst !in inputs
    && (ops[i].op == D2DReduce || ops[i].src == ops[i].dst)
  }

  /** The node the chunk's `j`-th instruction waits for: for the first writer the last one, for the
      others the one before. */
  lemma WaitsForWriter(ops: seq<Low>, inputs: set<Base>, i: nat, j: nat) returns (m: nat)
    requires i < |ops| && ReadsItsFirstWrite(ops, inputs, i) && j in WritersFrom(ops, i)
    ensures m in WritersFrom(ops, i)
    ensures OutKey(ops, m) == if j == i then Key(ops[i].dst, ReadVersion(ops, inputs, i, ops[i].dst))
            else GuardKey(ops, j)
  {
    var dst := ops[i].dst;
    WritesGrow(ops, i, j, dst);
    WritesGrow(ops, j, |ops|, dst);
    m := VersionHasProducer(ops, |ops|, dst, if j == i then Writes(ops, |ops|, dst) else Writes(ops, j, dst));
    if m < i {
      WritesGrow(ops, m, i, dst);
    }
  }

  /** The first writer of a chunk that also reads it, as source or to reduce into it, was compiled
      to read the final version, and all later writers wait for one another down to it. */
  lemma FirstWriterIsStuck(p: Program, o: Options, sizes: Base -> nat, lane: seq<nat>, slices: nat,
                           windowed: set<nat>, i: nat)
    requires i < |Lower(p, o)| && ReadsItsFirstWrite(Lower(p, o), InputBases(p, o.world), i)
    ensures StuckSet(CompiledPlan(p, o, sizes, lane, slices, windowed), WritersFrom(Lower(p, o), i))
  {
    var pl := CompiledPlan(p, o, sizes, lane, slices, windowed);
    var ops := Lower(p, o);
    var c := WritersFrom(ops, i);
    assert i in c;
    forall j | j in c ensures j < |pl.nodes| && WaitsWithin(pl, j, c) {
      var m := WaitsForWriter(ops, InputBases(p, o.world), i, j);
      WriterEdge(p, o, sizes, lane, slices, windowed, i, j, m);
    }
  }

  lemma WriterEdge(p: Program, o: Options, sizes: Base -> nat, lane: seq<nat>, slices: nat, windowed: set<nat>,
                   i: nat, j: nat, m: nat)
    requires var ops, inputs := Lower(p, o), InputBases(p, o.world);
      && i < |ops| && j < |ops| && m < |ops| && ReadsItsFirstWrite(ops, inputs, i)
      && OutKey(ops, m) == if j == i then Key(ops[i].dst, ReadVersion(ops, inputs, i, ops[i].dst)) else GuardKey(ops, j)
    ensures var pl := CompiledPlan(p, o, sizes, lane, slices, windowed);
      j < |pl.nodes| && m < |pl.nodes| && MustPrecede(pl, pl.nodes[j], m)
  {
    var pl := CompiledPlan(p, o, sizes, lane, slices, windowed);
    BodyNode(p, o, sizes, j);
    BodyNode(p, o, sizes, m);
    if j == i {
      var q := if pl.nodes[j].op == D2DReduce then 1 else 0;
      assert pl.nodes[j].inputs[q].key == pl.nodes[m].output;
    }
  }

  /** A copy onto itself of an input or of a chunk written before waits for its own read. */
  lemma CopyOntoItselfIsStuck(p: Program, o: Options, sizes: Base -> nat, lane: seq<nat>, slices: nat,
                              windowed: set<nat>, i: nat)
    requires var ops, inputs := Lower(p, o), InputBases(p, o.world);
      i < |ops| && ops[i].src == ops[i].dst && (Writes(ops, i, ops[i].dst) > 0 || ops[i].dst in inputs)
    ensures StuckSet(CompiledPlan(p, o, sizes, lane, slices, windowed), {i})
  {
    BodyNode(p, o, sizes, i);
    SelfCopyIsStuck(CompiledPlan(p, o, sizes, lane, slices, windowed), i);
  }

  /** Reading a chunk that is no input and that nobody writes. */
  lemma ReadOfNothingIsStuck(p: Program, o: Options, sizes: Base -> nat, lane: seq<nat>, slices: nat,
                             windowed: set<nat>, i: nat)
    requires var ops, inputs := Lower(p, o), InputBases(p, o.world);
      i < |ops| && Writes(ops, |ops|, ops[i].src) == 0 && ops[i].src !in inputs
    ensures StuckSet(CompiledPlan(p, o, sizes, lane, slices, windowed), {i})
  {
    var pl := CompiledPlan(p, o, sizes, lane, slices, windowed);
    var ops := Lower(p, o);
    BodyNode(p, o, sizes, i);
    WritesGrow(ops, i, |ops|, ops[i].src);
    assert pl.nodes[i].inputs[0].key == Key(ops[i].src, 0);
    forall j | 0 <= j < |pl.nodes| ensures pl.nodes[j].output != Key(ops[i].src, 0) {
      OutputVersionPositive(p, o, sizes, j);
    }
    assert Starved(pl, i);
  }

  /** Instruction `i` reads a chunk that only a later instruction writes. */
  predicate ForwardRead(ops: seq<Low>, inputs: set<Base>, i: nat)
    requires i < |ops|
  {
    && ops[i].src != ops[i].dst && ops[i].src !in inputs
    && Writes(ops, i, ops[i].src) == 0 && Writes(ops, |ops|, ops[i].src) > 0
  }

  /** An instruction out of order that is no forward read waits for itself. */
  lemma OutOfOrderIsStuck(p: Program, o: Options, sizes: Base -> nat, lane: seq<nat>, slices: nat, windowed: set<nat>,
                          i: nat)
    returns (c: set<nat>)
    requires var ops, inputs := Lower(p, o), InputBases(p, o.world);
      i < |ops| && !InOrderAt(ops, inputs, i) && !ForwardRead(ops, inputs, i)
    ensures StuckSet(CompiledPlan(p, o, sizes, lane, slices, windowed), c)
  {
    var ops, inputs := Lower(p, o), InputBases(p, o.world);
    if ReadsItsFirstWrite(ops, inputs, i) {
      c := WritersFrom(ops, i);
      FirstWriterIsStuck(p, o, sizes, lane, slices, windowed, i);
    } else if ops[i].src == ops[i].dst {
      c := {i};
      CopyOntoItselfIsStuck(p, o, sizes, lane, slices, windowed, i);
    } else {
      c := {i};
      WritesGrow(ops, i, |ops|, ops[i].src);
      ReadOfNothingIsStuck(p, o, sizes, lane, slices, windowed, i);
    }
  }

  /** Without forward reads, some run finishes if and only if the program is in order: no copy of a
      chunk onto itself, no reduction into nothing, no read of nothing. */
  lemma FinishesExactlyWhenInOrder(p: Program, o: Options, sizes: Base -> nat, lane: seq<nat>, slices: nat,
                                   windowed: set<nat>)
    requires Executable(p, o, sizes, lane, slices)
    requires forall i :: 0 <= i < |Lower(p, o)| ==> !ForwardRead(Lower(p, o), InputBases(p, o.world), i)
    ensures CanFinish(CompiledPlan(p, o, sizes, lane, slices, windowed)) <==> InOrder(p, o)
  {
    var pl := CompiledPlan(p, o, sizes, lane, slices, windowed);
    ExecutablePlan(p, o, sizes, lane, slices, windowed);
    if InOrder(p, o) {
      RunnablePlan(p, o, sizes, lane, slices, windowed);
      assert Reaches(pl, [], Start(pl));
      var s := FinishingRun(pl, Upto(|pl.nodes|), [], Start(pl));
    } else {
      var i :| 0 <= i < |Lower(p, o)| && !InOrderAt(Lower(p, o), InputBases(p, o.world), i);
      var c := OutOfOrderIsStuck(p, o, sizes, lane, slices, windowed, i);
      FinishesExactlyWhenAcyclic(pl);
    }
  }

  const ONE_RANK: Options := Options(1, false, true, SameBase)

  /** Two real ones: a D2D of input chunk 0 onto itself, and a reduction of input chunk 0 into an
      output chunk that only a later copy writes. */
  lemma CopyOntoItselfHangs(sizes: Base -> nat, lane: seq<nat>, slices: nat, windowed: set<nat>)
    ensures var p := Program(1, 1, [Instruction(D2D, 0, -1, Input, Input, 0, 0, 0, 0)]);
      Compilable(p, ONE_RANK) && StuckSet(CompiledPlan(p, ONE_RANK, sizes, lane, slices, windowed), {0})
  {
    var p := Program(1, 1, [Instruction(D2D, 0, -1, Input, Input, 0, 0, 0, 0)]);
    assert Lower(p, ONE_RANK) == [Low(D2D, 0, Base(Input, 0, 0), Base(Input, 0, 0))];
    CopyOntoItselfIsStuck(p, ONE_RANK, sizes, lane, slices, windowed, 0);
  }

  lemma ReduceIntoNothingHangs(sizes: Base -> nat, lane: seq<nat>, slices: nat, windowed: set<nat>)
    ensures var p := Program(1, 1, [Instruction(D2DReduce, 0, -1, Input, Output, 0, 0, 0, 0),
                                    Instruction(D2D, 0, -1, Input, Output, 0, 0, 0, 0)]);
      Compilable(p, ONE_RANK) && StuckSet(CompiledPlan(p, ONE_RANK, sizes, lane, slices, windowed), {0, 1})
  {
    var p := Program(1, 1, [Instruction(D2DReduce, 0, -1, Input, Output, 0, 0, 0, 0),
                            Instruction(D2D, 0, -1, Input, Output, 0, 0, 0, 0)]);
    ReduceThenCopyLowered(p);
    FirstWriterIsStuck(p, ONE_RANK, sizes, lane, slices, windowed, 0);
  }

  lemma ReduceThenCopyLowered(p: Program)
    requires p == Program(1, 1, [Instruction(D2DReduce, 0, -1, Input, Output, 0, 0, 0, 0),
                                 Instruction(D2D, 0, -1, Input, Output, 0, 0, 0, 0)])
    ensures Compilable(p, ONE_RANK) && |Lower(p, ONE_RANK)| == 2
    ensures ReadsItsFirstWrite(Lower(p, ONE_RANK), InputBases(p, 1), 0) && WritersFrom(Lower(p, ONE_RANK), 0) == {0, 1}
  {
    var read, written := Base(Input, 0, 0), Base(Output, 0, 0);
    assert LowerFirst(p, ONE_RANK, 1) == [Low(D2DReduce, 0, read, written)];
    assert Lower(p, ONE_RANK) == [Low(D2DReduce, 0, read, written), Low(D2D, 0, read, written)];
    assert WritersFrom(Lower(p, ONE_RANK), 0) == {0, 1};
  }

  // ---- What finished runs leave, forward reads included ----

  /** Any two finished runs of a compiled program leave the same memory. */
  lemma CompiledRunsAgree<V>(p: Program, o: Options, sizes: Base -> nat, lane: seq<nat>, slices: nat,
                             windowed: set<nat>,
                             combine: (V, V) -> V, s: State, t: State, mem: Memory<V>, b: Base, c: nat)
    requires Executable(p, o, sizes, lane, slices)
    requires var pl := CompiledPlan(p, o, sizes, lane, slices, windowed);
      && Reachable(pl, s) && Shaped(pl, s) && Finished(pl, s)
      && Reachable(pl, t) && Shaped(pl, t) && Finished(pl, t)
    ensures var pl := CompiledPlan(p, o, sizes, lane, slices, windowed);
      && Jobs(pl, s.log) && Jobs(pl, t.log)
      && Replay(pl, combine, s.log, mem)(b, c) == Replay(pl, combine, t.log, mem)(b, c)
  {
    ExecutablePlan(p, o, sizes, lane, slices, windowed);
    RunsAgree(CompiledPlan(p, o, sizes, lane, slices, windowed), combine, s, t, mem, b, c);
  }

  /** And that is what executing the instructions one after the other leaves, in any order in which
      each comes after what it waits for. */
  lemma CompiledRunIsSchedule<V>(p: Program, o: Options, sizes: Base -> nat, lane: seq<nat>, slices: nat,
                                 windowed: set<nat>,
                                 combine: (V, V) -> V, s: State, order: seq<nat>, mem: Memory<V>, b: Base, c: nat)
    requires Executable(p, o, sizes, lane, slices)
    requires var pl := CompiledPlan(p, o, sizes, lane, slices, windowed);
      Reachable(pl, s) && Shaped(pl, s) && Finished(pl, s) && Schedule(pl, order)
    ensures var pl := CompiledPlan(p, o, sizes, lane, slices, windowed);
      && (forall i :: 0 <= i < |pl.nodes| ==> |pl.nodes[i].inputs| > 0)
      && Jobs(pl, s.log)
      && Replay(pl, combine, s.log, mem)(b, c) == ExecuteAll(pl, combine, order, mem)(b, c)
  {
    ExecutablePlan(p, o, sizes, lane, slices, windowed);
    RunIsSequential(CompiledPlan(p, o, sizes, lane, slices, windowed), combine, s, order, mem, b, c);
  }

  /** There is such an order whenever some run finishes. */
  lemma FinishedRunHasSchedule(p: Program, o: Options, sizes: Base -> nat, lane: seq<nat>, slices: nat,
                               windowed: set<nat>,
                               s: State) returns (order: seq<nat>)
    requires Executable(p, o, sizes, lane, slices)
    requires var pl := CompiledPlan(p, o, sizes, lane, slices, windowed);
      Reachable(pl, s) && Shaped(pl, s) && Finished(pl, s)
    ensures Schedule(CompiledPlan(p, o, sizes, lane, slices, windowed), order)
  {
    var pl := CompiledPlan(p, o, sizes, lane, slices, windowed);
    ExecutablePlan(p, o, sizes, lane, slices, windowed);
    FinishesExactlyWhenAcyclic(pl);
    order := ScheduleFrom(pl, []);
  }
}
