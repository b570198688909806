/** `Compiler::compileGraph` for one rank: the one-pass compiler with its running maps computes
    exactly the closed-form graph of `Graphs`, and every rank computes the same one. */
module Compiler {
  import opened Ir
  import opened Graphs
  import opened GraphFacts

  datatype Graph = Graph(nodes: seq<Node>, readers: map<Key, nat>, terminals: seq<Key>, ready: seq<Key>)

  // ---- Input chunk counts ----

  method MaxInputChunkCount(p: Program, rank: nat) returns (count: nat)
    ensures count == InputCount(p, rank)
  {
    count := p.inputChunks;
    for j := 0 to |p.insts|
      invariant count == InputCountFirst(p, rank, j)
    {
      var inst := p.insts[j];
      if (inst.op == D2D || inst.op == D2DReduce) && inst.srcBuf == Input && inst.srcRank == rank {
        count := Max(count, inst.srcChunk + 1);
      }
    }
  }

  // ---- Staging decisions ----

  ghost predicate ReadBefore(p: Program, n: nat, owner: nat, chunk: nat)
    requires n <= |p.insts|
  {
    exists i :: 0 <= i < n && InstReadsInput(p, i, owner, chunk)
  }

  /** Owners and chunks of the input chunks that instructions read. */
  method MarkInputReads(p: Program) returns (read: set<(nat, nat)>)
    ensures forall owner: nat, chunk: nat :: (owner, chunk) in read <==> InputRead(p, owner, chunk)
  {
    read := {};
    for j := 0 to |p.insts|
      invariant forall owner: nat, chunk: nat :: (owner, chunk) in read <==> ReadBefore(p, j, owner, chunk)
    {
      var inst := p.insts[j];
      ghost var before := read;
      match inst.op {
        case D2H => read := read + {(inst.rank, inst.srcChunk)};
        case D2D | D2DReduce =>
          if inst.srcBuf == Input { read := read + {(SourceRank(inst), inst.srcChunk)}; }
        case _ =>
      }
      forall owner: nat, chunk: nat ensures (owner, chunk) in read <==> ReadBefore(p, j + 1, owner, chunk) {
        assert (owner, chunk) in read <==> (owner, chunk) in before || InstReadsInput(p, j, owner, chunk);
      }
    }
  }

  method StagedChunks(p: Program, o: Options) returns (staged: set<(nat, nat)>)
    ensures forall r: nat, c: nat :: (r, c) in staged <==> Staged(p, o, r, c)
  {
    staged := {};
    if !o.inPlace || !o.conservative { return; }
    var read := MarkInputReads(p);
    for j := 0 to |p.insts|
      invariant forall r: nat, c: nat :: (r, c) in staged <==>
        r < o.world && c < p.outputChunks && OverlapsLiveInput(p, o, r, c)
        && exists i :: 0 <= i < j && InstWritesOutput(p, i, r, c)
    {
      var inst := p.insts[j];
      var alias := if o.alias == AllGatherAlias then inst.dstChunk - inst.rank * Max(1, p.inputChunks)
          else inst.dstChunk;
      if WritesDevice(inst.op) && inst.dstBuf == Output && inst.rank < o.world && inst.dstChunk < p.outputChunks
         && alias >= 0 && (inst.rank, alias as nat) in read {
        staged := staged + {(inst.rank, inst.dstChunk)};
        assert InstWritesOutput(p, j, inst.rank, inst.dstChunk);
      }
    }
  }

  function VisibleWith(staged: set<(nat, nat)>, buf: DeviceSpace, owner: nat, chunk: nat): Base {
    if buf == Output && (owner, chunk) in staged then Base(Internal, owner, chunk) else Base(buf, owner, chunk)
  }

  function LowerWith(staged: set<(nat, nat)>, inst: Instruction): Low {
    var src := if inst.op == H2D || inst.op == H2H then Base(Host, inst.srcNuma, inst.srcChunk)
               else VisibleWith(staged, inst.srcBuf, inst.rank, inst.srcChunk);
    var dst := if inst.op == D2H || inst.op == H2H then Base(Host, inst.dstNuma, inst.dstChunk)
               else VisibleWith(staged, inst.dstBuf, inst.rank, inst.dstChunk);
    Low(inst.op, inst.rank, src, dst)
  }

  // ---- The running version maps ----

  /** `latest` is right about chunk `b` after the first `n` instructions. */
  ghost predicate TracksBase(latest: map<Base, nat>, ops: seq<Low>, inputs: set<Base>, n: nat, b: Base)
    requires n <= |ops|
  {
    && (b in latest ==> latest[b] == Writes(ops, n, b))
    && (Writes(ops, n, b) > 0 || b in inputs ==> b in latest)
    && (b in latest && Writes(ops, n, b) == 0 && b !in inputs ==> Writes(ops, |ops|, b) == 0)
  }

  /** `latest_by_base` and `final_produced_by_base`. */
  class Versions {
    var latest: map<Base, nat>
    var final: map<Base, nat>

    constructor ()
      ensures latest == map[] && final == map[]
    {
      latest, final := map[], map[];
    }

    /** After the first `n` instructions, and after the copybacks of `copied`. */
    ghost predicate Tracks(ops: seq<Low>, inputs: set<Base>, n: nat, copied: set<Base>)
      requires n <= |ops|
      reads this
    {
      && FinalOk(ops)
      && forall b :: b !in copied ==> TracksBase(latest, ops, inputs, n, b)
    }

    ghost predicate FinalOk(ops: seq<Low>)
      reads this
    {
      forall b :: if b in final then final[b] == Writes(ops, |ops|, b) > 0 else Writes(ops, |ops|, b) == 0
    }

    /** The version a read sees; a chunk produced only later is seen at its final version. */
    method Latest(b: Base, ghost ops: seq<Low>, ghost inputs: set<Base>, ghost n: nat, ghost copied: set<Base>)
      returns (k: Key)
      requires n <= |ops| && Tracks(ops, inputs, n, copied) && b !in copied
      modifies this`latest
      ensures Tracks(ops, inputs, n, copied) && k == Key(b, ReadVersion(ops, inputs, n, b))
      ensures forall x :: x in copied ==> (x in latest <==> x in old(latest))
      ensures forall x :: x in copied && x in latest ==> latest[x] == old(latest)[x]
    {
      assert TracksBase(latest, ops, inputs, n, b);
      if b in latest {
        k := Key(b, latest[b]);
      } else if b in final {
        k := Key(b, final[b]);
      } else {
        latest := latest[b := 0];
        k := Key(b, 0);
        WritesGrow(ops, n, |ops|, b);
        assert forall x :: x !in copied && TracksBase(old(latest), ops, inputs, n, x) ==>
            TracksBase(latest, ops, inputs, n, x);
      }
    }

    method LatestExisting(b: Base, ghost ops: seq<Low>, ghost inputs: set<Base>, ghost n: nat) returns (k: Key)
      requires n <= |ops| && Tracks(ops, inputs, n, {})
      ensures k == Key(b, Writes(ops, n, b))
    {
      assert TracksBase(latest, ops, inputs, n, b);
      k := Key(b, if b in latest then latest[b] else 0);
    }

    method Produce(b: Base) returns (k: Key)
      modifies this`latest
      ensures k == Key(b, (if b in old(latest) then old(latest)[b] else 0) + 1)
      ensures latest == old(latest)[b := k.version]
    {
      k := Key(b, if b in latest then latest[b] + 1 else 1);
      latest := latest[b := k.version];
    }
  }

  // ---- Errors ----

  /** The error compiling instruction `j` raises when the ones before it raised none. */
  ghost function ErrorAt(p: Program, o: Options, j: nat): Option<CompileError>
    requires j < |p.insts|
  {
    var inst := p.insts[j];
    var i := |LowerFirst(p, o, j)|;
    var ops, inputs := LowerFirst(p, o, |p.insts|), InputBases(p, o.world);
    if inst.op == D2D && SourceRank(inst) != inst.rank then Some(CrossRankD2D)
    else if inst.op == D2DReduce && SourceRank(inst) != inst.rank then Some(CrossRankReduce)
    else if inst.op != Nop && i < |ops| && Reads(ops, inputs, i, SrcKey(ops, inputs, i)) >= MAX_PROGRESS_READERS
    then Some(TooManyReaders)
    else None
  }

  ghost function FirstError(p: Program, o: Options, n: nat): Option<CompileError>
    requires n <= |p.insts|
  {
    if n == 0 then None
    else if FirstError(p, o, n - 1).Some? then FirstError(p, o, n - 1)
    else ErrorAt(p, o, n - 1)
  }

  lemma {:induction false} ErrorStays(p: Program, o: Options, j: nat, n: nat)
    requires j <= n <= |p.insts| && FirstError(p, o, j).Some?
    ensures FirstError(p, o, n) == FirstError(p, o, j)
    decreases n
  {
    if j < n {
      ErrorStays(p, o, j, n - 1);
    }
  }

  // ---- The result ----

  function OfRank(nodes: seq<Node>, rank: nat): (own: seq<Node>) {
    if |nodes| == 0 then []
    else OfRank(nodes[..|nodes| - 1], rank) + if nodes[|nodes| - 1].rank == rank then [nodes[|nodes| - 1]] else []
  }

  ghost predicate IsGraphOf(g: Graph, p: Program, o: Options, sizes: Base -> nat, rank: nat) {
    && g.nodes == OfRank(AllNodes(p, o, sizes), rank)
    && g.readers == ReaderMap(Lower(p, o), InputBases(p, o.world), |Lower(p, o)|)
    && |g.terminals| == p.outputChunks
    && (forall c :: 0 <= c < p.outputChunks ==> g.terminals[c] == TerminalKey(p, o, rank, c))
    && |g.ready| == InputCount(p, rank)
    && (forall c :: 0 <= c < |g.ready| ==> g.ready[c] == Key(Base(Input, rank, c), 0))
  }

  // ---- Passes ----

  lemma {:induction false} LowerPosition(p: Program, o: Options, j: nat, n: nat)
    requires j < n <= |p.insts|
    ensures LowerFirst(p, o, j) <= LowerFirst(p, o, n)
    ensures p.insts[j].op != Nop ==>
      |LowerFirst(p, o, j)| < |LowerFirst(p, o, n)|
      && LowerFirst(p, o, n)[|LowerFirst(p, o, j)|] == LowerInst(p, o, p.insts[j])
    ensures p.insts[j].op == Nop ==> LowerFirst(p, o, j + 1) == LowerFirst(p, o, j)
    decreases n
  {
    if j < n - 1 {
      LowerPosition(p, o, j, n - 1);
    }
  }

  lemma {:induction false} WritesPrefix(xs: seq<Low>, ys: seq<Low>, n: nat, b: Base)
    requires n <= |xs| && n <= |ys| && xs[..n] == ys[..n]
    ensures Writes(xs, n, b) == Writes(ys, n, b)
  {
    if n > 0 {
      assert xs[n - 1] == xs[..n][n - 1] == ys[..n][n - 1];
      assert xs[..n - 1] == xs[..n][..n - 1] == ys[..n - 1];
      WritesPrefix(xs, ys, n - 1, b);
    }
  }

  /** The pre-pass: how often every chunk is produced in the whole list. */
  method CountProduced(p: Program, o: Options, staged: set<(nat, nat)>, v: Versions)
    requires v.final == map[] && forall r: nat, c: nat :: (r, c) in staged <==> Staged(p, o, r, c)
    modifies v`final
    ensures v.FinalOk(Lower(p, o))
  {
    for j := 0 to |p.insts|
      invariant v.FinalOk(LowerFirst(p, o, j))
    {
      if p.insts[j].op != Nop {
        var op := LowerWith(staged, p.insts[j]);
        CountOne(op, v, LowerFirst(p, o, j));
        assert LowerFirst(p, o, j + 1) == LowerFirst(p, o, j) + [op];
      }
    }
  }

  method CountOne(op: Low, v: Versions, ghost done: seq<Low>)
    requires v.FinalOk(done)
    modifies v`final
    ensures v.FinalOk(done + [op])
  {
    ghost var before := v.final;
    var b := op.dst;
    v.final := v.final[b := (if b in v.final then v.final[b] else 0) + 1];
    forall x ensures if x in v.final then v.final[x] == Writes(done + [op], |done + [op]|, x) > 0
                     else Writes(done + [op], |done + [op]|, x) == 0 {
      WritesAppend(done, op, x);
      assert if x in before then before[x] == Writes(done, |done|, x) > 0 else Writes(done, |done|, x) == 0;
    }
  }

  lemma WritesAppend(done: seq<Low>, op: Low, b: Base)
    ensures Writes(done + [op], |done + [op]|, b) == Writes(done, |done|, b) + if op.dst == b then 1 else 0
  {
    var all := done + [op];
    assert all[..|done|] == done[..|done|];
    WritesPrefix(all, done, |done|, b);
  }

  /** Version 0 of every rank's input chunks exists from the start. */
  method SeedInputs(p: Program, o: Options, rank: nat, v: Versions) returns (ready: seq<Key>)
    requires rank < o.world && v.latest == map[] && v.FinalOk(Lower(p, o))
    modifies v`latest
    ensures v.Tracks(Lower(p, o), InputBases(p, o.world), 0, {})
    ensures |ready| == InputCount(p, rank) && forall c :: 0 <= c < |ready| ==> ready[c] == Key(Base(Input, rank, c), 0)
  {
    var own := MaxInputChunkCount(p, rank);
    ready := [];
    for c := 0 to own
      invariant |ready| == c && forall i :: 0 <= i < c ==> ready[i] == Key(Base(Input, rank, i), 0)
      invariant forall b :: b in v.latest <==> b.space == Input && b.owner == rank && b.chunk < c
      invariant forall b :: b in v.latest ==> v.latest[b] == 0
    {
      v.latest := v.latest[Base(Input, rank, c) := 0];
      ready := ready + [Key(Base(Input, rank, c), 0)];
    }
    for r := 0 to o.world
      invariant forall b :: b in v.latest <==>
        b.space == Input && (b.owner < r || b.owner == rank) && b.chunk < InputCount(p, b.owner)
      invariant forall b :: b in v.latest ==> v.latest[b] == 0
    {
      var count := MaxInputChunkCount(p, r);
      ghost var before := v.latest;
      for c := 0 to count
        invariant forall b :: b in v.latest <==> b in before || (b.space == Input && b.owner == r && b.chunk < c)
        invariant forall b :: b in v.latest ==> v.latest[b] == 0
      {
        if Base(Input, r, c) !in v.latest {
          v.latest := v.latest[Base(Input, r, c) := 0];
        }
      }
    }
    forall b ensures b in v.latest <==> b in InputBases(p, o.world) {
      assert b == Base(b.space, b.owner, b.chunk);
    }
  }

  lemma {:induction false} OfRankAppend(nodes: seq<Node>, nd: Node, rank: nat)
    ensures OfRank(nodes + [nd], rank) == OfRank(nodes, rank) + if nd.rank == rank then [nd] else []
  {
    assert (nodes + [nd])[..|nodes|] == nodes;
  }

  ghost function Body(p: Program, o: Options, sizes: Base -> nat, n: nat): (nodes: seq<Node>)
    requires n <= |Lower(p, o)|
    ensures |nodes| == n
  {
    var ops := Lower(p, o);
    seq(n, i requires 0 <= i < n => NodeAt(ops, InputBases(p, o.world), sizes, i))
  }

  lemma BodyStep(p: Program, o: Options, sizes: Base -> nat, n: nat, rank: nat)
    requires n < |Lower(p, o)|
    ensures var nd := NodeAt(Lower(p, o), InputBases(p, o.world), sizes, n);
      OfRank(Body(p, o, sizes, n + 1), rank) ==
      OfRank(Body(p, o, sizes, n), rank) + if nd.rank == rank then [nd] else []
  {
    var nd := NodeAt(Lower(p, o), InputBases(p, o.world), sizes, n);
    assert Body(p, o, sizes, n + 1) == Body(p, o, sizes, n) + [nd];
    OfRankAppend(Body(p, o, sizes, n), nd, rank);
  }

  lemma ProduceTracks(latest: map<Base, nat>, ops: seq<Low>, inputs: set<Base>, n: nat, m: nat)
    requires n < |ops| && m == n + 1 && forall x :: TracksBase(latest, ops, inputs, n, x)
    ensures var latest' := latest[ops[n].dst := Writes(ops, n, ops[n].dst) + 1];
      forall x :: TracksBase(latest', ops, inputs, m, x)
  {
    var latest' := latest[ops[n].dst := Writes(ops, n, ops[n].dst) + 1];
    forall x ensures TracksBase(latest', ops, inputs, m, x) {
      assert TracksBase(latest, ops, inputs, n, x);
      assert Writes(ops, m, x) == Writes(ops, n, x) + if ops[n].dst == x then 1 else 0;
    }
  }

  /** The keys an instruction reads, guards and writes; the running maps move on by its write. */
  method ResolveKeys(op: Low, v: Versions, ghost ops: seq<Low>, ghost inputs: set<Base>, ghost n: nat)
    returns (src: Key, acc: Key, previous: Key, output: Key)
    requires n < |ops| && op == ops[n] && v.Tracks(ops, inputs, n, {})
    modifies v`latest
    ensures v.Tracks(ops, inputs, n + 1, {})
    ensures src == SrcKey(ops, inputs, n) && previous == GuardKey(ops, n) && output == OutKey(ops, n)
    ensures acc == if op.op == D2DReduce then Key(op.dst, ReadVersion(ops, inputs, n, op.dst)) else src
  {
    src := v.Latest(op.src, ops, inputs, n, {});
    acc := src;
    if op.op == D2DReduce {
      acc := v.Latest(op.dst, ops, inputs, n, {});
    }
    previous := v.LatestExisting(op.dst, ops, inputs, n);
    output := ProduceNext(op.dst, v, ops, inputs, n);
  }

  method ProduceNext(b: Base, v: Versions, ghost ops: seq<Low>, ghost inputs: set<Base>, ghost n: nat)
    returns (output: Key)
    requires n < |ops| && b == ops[n].dst && v.Tracks(ops, inputs, n, {})
    modifies v`latest
    ensures v.Tracks(ops, inputs, n + 1, {}) && output == OutKey(ops, n)
  {
    assert TracksBase(v.latest, ops, inputs, n, b);
    assert forall x :: TracksBase(v.latest, ops, inputs, n, x);
    ProduceTracks(v.latest, ops, inputs, n, n + 1);
    output := v.Produce(b);
    assert output.version == Writes(ops, n, b) + 1;
  }

  /** One instruction of the main pass: its keys, its reader id, and the new running state. */
  method AssignKeys(op: Low, v: Versions, counts: map<Key, nat>, workBytes: nat,
                    ghost ops: seq<Low>, ghost inputs: set<Base>, ghost n: nat, ghost sizes: Base -> nat)
    returns (r: Result<(Node, map<Key, nat>)>)
    requires n < |ops| && op == ops[n] && v.Tracks(ops, inputs, n, {}) && counts == ReaderMap(ops, inputs, n)
    requires workBytes == sizes(op.dst)
    modifies v`latest
    ensures match r
      case Err(e) => e == TooManyReaders && Reads(ops, inputs, n, SrcKey(ops, inputs, n)) >= MAX_PROGRESS_READERS
      case Ok((nd, counts')) =>
        && Reads(ops, inputs, n, SrcKey(ops, inputs, n)) < MAX_PROGRESS_READERS
        && nd == NodeAt(ops, inputs, sizes, n) && counts' == ReaderMap(ops, inputs, n + 1)
        && v.Tracks(ops, inputs, n + 1, {})
  {
    var src, acc, previous, output := ResolveKeys(op, v, ops, inputs, n);
    var id := if src in counts then counts[src] else 0;
    ReaderMapCounts(ops, inputs, n, src);
    if id >= MAX_PROGRESS_READERS {
      return Err(TooManyReaders);
    }
    var node := Node(op.op, op.rank,
                     if op.op == D2DReduce then [NodeInput(src, id), NodeInput(acc, -1)] else [NodeInput(src, id)],
                     output, Some(previous), workBytes);
    r := Ok((node, counts[src := id + 1]));
  }

  lemma LowerWithIs(p: Program, o: Options, staged: set<(nat, nat)>, inst: Instruction)
    requires inst.op != Nop && forall r: nat, c: nat :: (r, c) in staged <==> Staged(p, o, r, c)
    ensures LowerWith(staged, inst) == LowerInst(p, o, inst)
  {
  }

  lemma StepPosition(p: Program, o: Options, j: nat)
    requires j < |p.insts|
    ensures |LowerFirst(p, o, j + 1)| <= |Lower(p, o)|
    ensures if p.insts[j].op == Nop then LowerFirst(p, o, j + 1) == LowerFirst(p, o, j)
            else |LowerFirst(p, o, j + 1)| == |LowerFirst(p, o, j)| + 1
                 && Lower(p, o)[|LowerFirst(p, o, j)|] == LowerInst(p, o, p.insts[j])
  {
    LowerPosition(p, o, j, |p.insts|);
  }

  /** Instruction `j` of the main pass: an error, nothing for a NOP, or its node. */
  method CompileOne(p: Program, o: Options, j: nat, staged: set<(nat, nat)>, v: Versions, counts: map<Key, nat>,
                    sizes: Base -> nat)
    returns (r: Result<(Option<Node>, map<Key, nat>)>)
    requires j < |p.insts| && forall r: nat, c: nat :: (r, c) in staged <==> Staged(p, o, r, c)
    requires |LowerFirst(p, o, j)| <= |Lower(p, o)|
    requires v.Tracks(Lower(p, o), InputBases(p, o.world), |LowerFirst(p, o, j)|, {})
    requires counts == ReaderMap(Lower(p, o), InputBases(p, o.world), |LowerFirst(p, o, j)|)
    modifies v`latest
    ensures |LowerFirst(p, o, j + 1)| <= |Lower(p, o)|
    ensures match r
      case Err(e) => ErrorAt(p, o, j) == Some(e)
      case Ok((made, counts')) =>
        var n, n' := |LowerFirst(p, o, j)|, |LowerFirst(p, o, j + 1)|;
        && ErrorAt(p, o, j) == None && n' <= |Lower(p, o)|
        && counts' == ReaderMap(Lower(p, o), InputBases(p, o.world), n')
        && v.Tracks(Lower(p, o), InputBases(p, o.world), n', {})
        && (made == None ==> n' == n)
        && (made.Some? ==> n' == n + 1 && made.value == NodeAt(Lower(p, o), InputBases(p, o.world), sizes, n))
  {
    var inst := p.insts[j];
    StepPosition(p, o, j);
    if inst.op == D2D && SourceRank(inst) != inst.rank {
      return Err(CrossRankD2D);
    }
    if inst.op == D2DReduce && SourceRank(inst) != inst.rank {
      return Err(CrossRankReduce);
    }
    if inst.op == Nop {
      return Ok((None, counts));
    }
    var op := LowerWith(staged, inst);
    LowerWithIs(p, o, staged, inst);
    var step := AssignKeys(op, v, counts, sizes(op.dst), Lower(p, o), InputBases(p, o.world), |LowerFirst(p, o, j)|,
        sizes);
    match step {
      case Err(e) => r := Err(e);
      case Ok((node, counts')) => r := Ok((Some(node), counts'));
    }
  }

  /** State of the main pass before instruction `j`. */
  ghost predicate PassAt(p: Program, o: Options, sizes: Base -> nat, rank: nat, j: nat, nodes: seq<Node>,
                         counts: map<Key, nat>, v: Versions)
    requires j <= |p.insts|
    reads v
  {
    var n := |LowerFirst(p, o, j)|;
    && n <= |Lower(p, o)|
    && v.Tracks(Lower(p, o), InputBases(p, o.world), n, {})
    && nodes == OfRank(Body(p, o, sizes, n), rank)
    && counts == ReaderMap(Lower(p, o), InputBases(p, o.world), n)
  }

  method PassStep(p: Program, o: Options, sizes: Base -> nat, rank: nat, j: nat, staged: set<(nat, nat)>,
                  nodes: seq<Node>, counts: map<Key, nat>, v: Versions)
    returns (r: Result<(seq<Node>, map<Key, nat>)>)
    requires j < |p.insts| && forall r: nat, c: nat :: (r, c) in staged <==> Staged(p, o, r, c)
    requires PassAt(p, o, sizes, rank, j, nodes, counts, v)
    modifies v`latest
    ensures match r
      case Err(e) => ErrorAt(p, o, j) == Some(e)
      case Ok((nodes', counts')) => ErrorAt(p, o, j) == None && PassAt(p, o, sizes, rank, j + 1, nodes', counts', v)
  {
    var step := CompileOne(p, o, j, staged, v, counts, sizes);
    match step {
      case Err(e) => r := Err(e);
      case Ok((made, counts')) =>
        if made == None {
          r := Ok((nodes, counts'));
        } else {
          BodyStep(p, o, sizes, |LowerFirst(p, o, j)|, rank);
          r := Ok((if made.value.rank == rank then nodes + [made.value] else nodes, counts'));
        }
    }
  }

  method MainPass(p: Program, o: Options, sizes: Base -> nat, rank: nat, staged: set<(nat, nat)>, v: Versions)
    returns (r: Result<(seq<Node>, map<Key, nat>)>)
    requires forall r: nat, c: nat :: (r, c) in staged <==> Staged(p, o, r, c)
    requires v.Tracks(Lower(p, o), InputBases(p, o.world), 0, {})
    modifies v`latest
    ensures match r
      case Err(e) => FirstError(p, o, |p.insts|) == Some(e)
      case Ok((nodes, counts)) =>
        FirstError(p, o, |p.insts|) == None && PassAt(p, o, sizes, rank, |p.insts|, nodes, counts, v)
  {
    var nodes: seq<Node>, counts: map<Key, nat> := [], map[];
    var j := 0;
    while j < |p.insts|
      invariant 0 <= j <= |p.insts| && FirstError(p, o, j) == None
      invariant PassAt(p, o, sizes, rank, j, nodes, counts, v)
    {
      var step := PassStep(p, o, sizes, rank, j, staged, nodes, counts, v);
      j := j + 1;
      if step.Err? {
        ErrorStays(p, o, j, |p.insts|);
        return Err(step.error);
      }
      nodes, counts := step.value.0, step.value.1;
    }
    r := Ok((nodes, counts));
  }

  // ---- Copybacks and terminals ----

  ghost function OutputsBelow(rank: nat, n: nat): (done: set<Base>)
    ensures forall b :: b in done <==> b.space == Output && b.owner == rank && b.chunk < n
  {
    if n == 0 then {} else OutputsBelow(rank, n - 1) + {Base(Output, rank, n - 1)}
  }

  /** The terminal key of output chunk `c`, and the copyback that produces it if it is staged. */
  method FinishChunk(p: Program, o: Options, sizes: Base -> nat, rank: nat, c: nat, isStaged: bool, inputCount: nat,
                     v: Versions)
    returns (terminal: Key, copyback: Option<Node>)
    requires isStaged <==> Staged(p, o, rank, c)
    requires inputCount == InputCount(p, rank)
    requires v.Tracks(Lower(p, o), InputBases(p, o.world), |Lower(p, o)|, OutputsBelow(rank, c))
    modifies v`latest
    ensures v.Tracks(Lower(p, o), InputBases(p, o.world), |Lower(p, o)|, OutputsBelow(rank, c + 1))
    ensures terminal == TerminalKey(p, o, rank, c)
    ensures copyback == if Staged(p, o, rank, c) then Some(CopyBackNode(p, o, sizes, rank, c)) else None
  {
    ghost var ops, inputs, done := Lower(p, o), InputBases(p, o.world), OutputsBelow(rank, c);
    var visible := v.Latest(Base(Output, rank, c), ops, inputs, |ops|, done);
    if !isStaged {
      WidenCopied(v, ops, inputs, done, OutputsBelow(rank, c + 1));
      return visible, None;
    }
    var staged, previous := CopyBackKeys(rank, c, visible, o.alias == SameBase && c < inputCount, v, ops, inputs, done);
    terminal := ProduceCopy(Base(Output, rank, c), v, ops, inputs, done, OutputsBelow(rank, c + 1));
    copyback := Some(Node(D2D, rank, [NodeInput(staged, -1)], terminal, Some(previous), sizes(Base(Output, rank, c))));
  }

  /** The staged copy's key and the guard of its copyback: the input chunk under the output, if
      there is one. */
  method CopyBackKeys(rank: nat, c: nat, visible: Key, overInput: bool, v: Versions, ghost ops: seq<Low>,
                      ghost inputs: set<Base>, ghost done: set<Base>)
    returns (staged: Key, previous: Key)
    requires v.Tracks(ops, inputs, |ops|, done) && Base(Internal, rank, c) !in done && Base(Input, rank, c) !in done
    modifies v`latest
    ensures v.Tracks(ops, inputs, |ops|, done)
    ensures staged == LatestKey(ops, Base(Internal, rank, c))
    ensures previous == if overInput then LatestKey(ops, Base(Input, rank, c)) else visible
  {
    staged := v.Latest(Base(Internal, rank, c), ops, inputs, |ops|, done);
    previous := visible;
    if overInput {
      previous := v.Latest(Base(Input, rank, c), ops, inputs, |ops|, done);
    }
  }

  lemma WidenCopied(v: Versions, ops: seq<Low>, inputs: set<Base>, done: set<Base>, wider: set<Base>)
    requires v.Tracks(ops, inputs, |ops|, done) && done <= wider
    ensures v.Tracks(ops, inputs, |ops|, wider)
  {
  }

  /** The copyback of a chunk produces one more version of it; the chunk is not looked up again. */
  method ProduceCopy(b: Base, v: Versions, ghost ops: seq<Low>, ghost inputs: set<Base>, ghost done: set<Base>,
                     ghost wider: set<Base>) returns (k: Key)
    requires v.Tracks(ops, inputs, |ops|, done) && b !in done && wider == done + {b}
    modifies v`latest
    ensures v.Tracks(ops, inputs, |ops|, wider) && k == Key(b, Writes(ops, |ops|, b) + 1)
  {
    assert TracksBase(v.latest, ops, inputs, |ops|, b);
    ghost var before := v.latest;
    k := v.Produce(b);
    forall x | x !in wider ensures TracksBase(v.latest, ops, inputs, |ops|, x) {
      assert TracksBase(before, ops, inputs, |ops|, x);
    }
  }

  method CopyBackPass(p: Program, o: Options, sizes: Base -> nat, rank: nat, staged: set<(nat, nat)>, inputCount: nat,
                      v: Versions)
    returns (nodes: seq<Node>, terminals: seq<Key>)
    requires forall r: nat, c: nat :: (r, c) in staged <==> Staged(p, o, r, c)
    requires inputCount == InputCount(p, rank)
    requires v.Tracks(Lower(p, o), InputBases(p, o.world), |Lower(p, o)|, {})
    modifies v`latest
    ensures nodes == CopyBacksOf(p, o, sizes, rank, p.outputChunks)
    ensures |terminals| == p.outputChunks && forall c :: 0 <= c < |terminals| ==>
            terminals[c] == TerminalKey(p, o, rank, c)
  {
    nodes, terminals := [], [];
    for c := 0 to p.outputChunks
      invariant v.Tracks(Lower(p, o), InputBases(p, o.world), |Lower(p, o)|, OutputsBelow(rank, c))
      invariant nodes == CopyBacksOf(p, o, sizes, rank, c)
      invariant |terminals| == c && forall i :: 0 <= i < c ==> terminals[i] == TerminalKey(p, o, rank, i)
    {
      var terminal, copyback := FinishChunk(p, o, sizes, rank, c, (rank, c) in staged, inputCount, v);
      terminals := terminals + [terminal];
      if copyback.Some? {
        nodes := nodes + [copyback.value];
      }
    }
  }

  // ---- The whole compiler ----

  lemma {:induction false} OfRankConcat(xs: seq<Node>, ys: seq<Node>, rank: nat)
    ensures OfRank(xs + ys, rank) == OfRank(xs, rank) + OfRank(ys, rank)
  {
    if |ys| == 0 {
      assert xs + ys == xs;
    } else {
      var n := |ys| - 1;
      assert (xs + ys)[..|xs + ys| - 1] == xs + ys[..n];
      OfRankConcat(xs, ys[..n], rank);
    }
  }

  lemma {:induction false} OfRankUniform(nodes: seq<Node>, owner: nat, rank: nat)
    requires forall i :: 0 <= i < |nodes| ==> nodes[i].rank == owner
    ensures OfRank(nodes, rank) == if owner == rank then nodes else []
  {
    if |nodes| > 0 {
      OfRankUniform(nodes[..|nodes| - 1], owner, rank);
    }
  }

  lemma OfRankCopyBacksOf(p: Program, o: Options, sizes: Base -> nat, owner: nat, rank: nat)
    requires owner < o.world
    ensures var own := CopyBacksOf(p, o, sizes, owner, p.outputChunks);
      OfRank(own, rank) == if owner == rank then own else []
  {
    var own := CopyBacksOfFacts(p, o, sizes, owner, p.outputChunks);
    OfRankUniform(own, owner, rank);
  }

  lemma {:induction false} OfRankCopyBacks(p: Program, o: Options, sizes: Base -> nat, ranks: nat, rank: nat,
                                           mine: seq<Node>)
    requires ranks <= o.world && mine == CopyBacksOf(p, o, sizes, rank, p.outputChunks)
    ensures OfRank(CopyBacks(p, o, sizes, ranks), rank) == if rank < ranks then mine else []
  {
    if ranks > 0 {
      OfRankCopyBacks(p, o, sizes, ranks - 1, rank, mine);
      OfRankCopyBacksOf(p, o, sizes, ranks - 1, rank);
      OfRankJoin(CopyBacks(p, o, sizes, ranks - 1), CopyBacksOf(p, o, sizes, ranks - 1, p.outputChunks), mine,
                 ranks - 1, rank);
    }
  }

  lemma OfRankJoin(front: seq<Node>, own: seq<Node>, mine: seq<Node>, owner: nat, rank: nat)
    requires OfRank(front, rank) == if rank < owner then mine else []
    requires OfRank(own, rank) == if owner == rank then own else []
    requires rank == owner ==> own == mine
    ensures OfRank(front + own, rank) == if rank < owner + 1 then mine else []
  {
    OfRankConcat(front, own, rank);
  }

  lemma OfRankAllNodes(p: Program, o: Options, sizes: Base -> nat, rank: nat)
    requires rank < o.world
    ensures OfRank(AllNodes(p, o, sizes), rank) ==
            OfRank(Body(p, o, sizes, |Lower(p, o)|), rank) + CopyBacksOf(p, o, sizes, rank, p.outputChunks)
  {
    OfRankCopyBacks(p, o, sizes, o.world, rank, CopyBacksOf(p, o, sizes, rank, p.outputChunks));
    OfRankConcat(Body(p, o, sizes, |Lower(p, o)|), CopyBacks(p, o, sizes, o.world), rank);
    assert AllNodes(p, o, sizes) == Body(p, o, sizes, |Lower(p, o)|) + CopyBacks(p, o, sizes, o.world);
  }

  /** Compiles the program for one rank. */
  method CompileGraph(p: Program, o: Options, sizes: Base -> nat, rank: nat) returns (r: Result<Graph>)
    requires rank < o.world
    ensures r.Err? ==> FirstError(p, o, |p.insts|) == Some(r.error)
    ensures r.Ok? ==> FirstError(p, o, |p.insts|) == None && IsGraphOf(r.value, p, o, sizes, rank)
  {
    var staged := StagedChunks(p, o);
    var inputCount := MaxInputChunkCount(p, rank);
    var v := new Versions();
    CountProduced(p, o, staged, v);
    var ready := SeedInputs(p, o, rank, v);
    assert Body(p, o, sizes, 0) == [];
    var main := MainPass(p, o, sizes, rank, staged, v);
    match main {
      case Err(e) => r := Err(e);
      case Ok((nodes, counts)) =>
        var copybacks, terminals := CopyBackPass(p, o, sizes, rank, staged, inputCount, v);
        OfRankAllNodes(p, o, sizes, rank);
        r := Ok(Graph(nodes + copybacks, counts, terminals, ready));
    }
  }

  /** Two ranks that compile the same program either both fail, with the same error, or end with
      the same reader counts and with their shares of one and the same list of nodes: every
      instruction gets the same input keys, output version, guard and reader id everywhere. */
  method CompileOnTwoRanks(p: Program, o: Options, sizes: Base -> nat, r1: nat, r2: nat)
    returns (a: Result<Graph>, b: Result<Graph>)
    requires r1 < o.world && r2 < o.world
    ensures a.Err? <==> b.Err?
    ensures a.Err? ==> a == b
    ensures a.Ok? ==> a.value.readers == b.value.readers
    ensures a.Ok? ==> a.value.nodes == OfRank(AllNodes(p, o, sizes), r1)
    ensures a.Ok? ==> b.value.nodes == OfRank(AllNodes(p, o, sizes), r2)
  {
    a := CompileGraph(p, o, sizes, r1);
    b := CompileGraph(p, o, sizes, r2);
  }

  // ---- What compiling without an error guarantees ----

  ghost predicate FewReaders(ops: seq<Low>, inputs: set<Base>, n: nat)
    requires n <= |ops|
  {
    forall k :: Reads(ops, inputs, n, k) <= MAX_PROGRESS_READERS
  }

  ghost predicate StaysLocal(p: Program, n: nat)
    requires n <= |p.insts|
  {
    forall j :: 0 <= j < n && (p.insts[j].op == D2D || p.insts[j].op == D2DReduce) ==>
      SourceRank(p.insts[j]) == p.insts[j].rank
  }

  lemma LowerFits(p: Program, o: Options, n: nat)
    requires n <= |p.insts|
    ensures |LowerFirst(p, o, n)| <= |Lower(p, o)|
  {
    if n < |p.insts| {
      LowerPosition(p, o, n, |p.insts|);
    }
  }

  lemma ReadersOfStep(ops: seq<Low>, inputs: set<Base>, i: nat, m: nat)
    requires i < |ops| && m == i + 1
    ensures FewReaders(ops, inputs, m) <==>
            FewReaders(ops, inputs, i) && Reads(ops, inputs, i, SrcKey(ops, inputs, i)) < MAX_PROGRESS_READERS
  {
    forall k
      ensures Reads(ops, inputs, m, k) == Reads(ops, inputs, i, k) + if SrcKey(ops, inputs, i) == k then 1 else 0
    {
    }
    if FewReaders(ops, inputs, m) {
      forall k ensures Reads(ops, inputs, i, k) <= MAX_PROGRESS_READERS {
        assert Reads(ops, inputs, i, k) <= Reads(ops, inputs, m, k);
      }
      assert Reads(ops, inputs, m, SrcKey(ops, inputs, i)) <= MAX_PROGRESS_READERS;
    }
  }

  /** Success means exactly that every copy and reduction stays on its rank and no version has
      more readers than there are reader slots. */
  lemma {:induction false} NoErrorMeans(p: Program, o: Options, n: nat)
    requires n <= |p.insts|
    ensures |LowerFirst(p, o, n)| <= |Lower(p, o)|
    ensures FirstError(p, o, n) == None <==>
      StaysLocal(p, n) && FewReaders(Lower(p, o), InputBases(p, o.world), |LowerFirst(p, o, n)|)
  {
    LowerFits(p, o, n);
    if n > 0 {
      NoErrorMeans(p, o, n - 1);
      LocalStep(p, n);
      ReadersStep(p, o, n);
    }
  }

  ghost predicate LocalAt(p: Program, j: nat)
    requires j < |p.insts|
  {
    p.insts[j].op == D2D || p.insts[j].op == D2DReduce ==> SourceRank(p.insts[j]) == p.insts[j].rank
  }

  lemma LocalStep(p: Program, n: nat)
    requires 0 < n <= |p.insts|
    ensures StaysLocal(p, n) <==> StaysLocal(p, n - 1) && LocalAt(p, n - 1)
  {
  }

  lemma ReadersStep(p: Program, o: Options, n: nat)
    requires 0 < n <= |p.insts|
    ensures |LowerFirst(p, o, n - 1)| <= |LowerFirst(p, o, n)| <= |Lower(p, o)|
    ensures var ops, inputs := Lower(p, o), InputBases(p, o.world);
      LocalAt(p, n - 1) ==>
        (FewReaders(ops, inputs, |LowerFirst(p, o, n)|) <==>
         FewReaders(ops, inputs, |LowerFirst(p, o, n - 1)|) && ErrorAt(p, o, n - 1) == None)
    ensures !LocalAt(p, n - 1) ==> ErrorAt(p, o, n - 1).Some?
  {
    LowerFits(p, o, n);
    LowerPosition(p, o, n - 1, |p.insts|);
    if p.insts[n - 1].op != Nop {
      ReadersOfStep(Lower(p, o), InputBases(p, o.world), |LowerFirst(p, o, n - 1)|, |LowerFirst(p, o, n)|);
    }
  }
}
