/** Counters exist for 16 versions of a chunk and the compiler does not limit the number of versions:
    versions 16 apart share their counters. With 17 writes of a chunk this goes wrong. */
module VersionWrap {
  import opened Ir
  import opened Graphs
  import opened Executor
  import opened GraphFacts
  import opened Compiled
  import EmptySlices

  const PLAIN: Options := Options(1, false, false, SameBase)
  const SOURCE: Base := Base(Input, 0, 0)
  const VIA: Base := Base(Host, 0, 0)
  const TARGET: Base := Base(Output, 0, 0)

  /** One rank copies its input to the host `n` times, and then from there to its output. */
  function Relay(n: nat): Program {
    Program(1, 1, seq(n, i => Instruction(D2H, 0, -1, Input, Output, 0, 0, 0, 0)) +
                  [Instruction(H2D, 0, -1, Input, Output, 0, 0, 0, 0)])
  }

  function RelayOp(n: nat, i: nat): Low {
    if i < n then Low(D2H, 0, SOURCE, VIA) else Low(H2D, 0, VIA, TARGET)
  }

  lemma {:induction false} RelayLowered(n: nat, k: nat)
    requires k <= n + 1
    ensures |LowerFirst(Relay(n), PLAIN, k)| == k
    ensures forall i :: 0 <= i < k ==> LowerFirst(Relay(n), PLAIN, k)[i] == RelayOp(n, i)
  {
    if k > 0 {
      RelayLowered(n, k - 1);
    }
  }

  lemma {:induction false} RelayWrites(ops: seq<Low>, n: nat, k: nat)
    requires |ops| == n + 1 && k <= n && forall i :: 0 <= i <= n ==> ops[i] == RelayOp(n, i)
    ensures Writes(ops, k, VIA) == k && Writes(ops, k, TARGET) == 0 == Writes(ops, k, SOURCE)
  {
    if k > 0 {
      RelayWrites(ops, n, k - 1);
    }
  }

  lemma {:induction false} NoReaders(ops: seq<Low>, inputs: set<Base>, n: nat, k: nat, key: Key)
    requires |ops| == n + 1 && k <= n + 1 && forall i :: 0 <= i <= n ==> ops[i] == RelayOp(n, i)
    requires key.version == 0 && n > 0 && (key.base == VIA || key.base == TARGET)
    ensures key !in ReaderMap(ops, inputs, k)
  {
    if k > 0 {
      NoReaders(ops, inputs, n, k - 1, key);
      if k == n + 1 {
        RelayWrites(ops, n, n);
      }
    }
  }

  /** What matters of the plan: the first D2H writes version 1 of the host chunk, the last one version
      n, and the H2D reads version n. */
  ghost predicate Relays(pl: Plan, n: nat) {
    && |pl.nodes| == |pl.lane| == n + 1 && pl.world == 1 && SOURCE in pl.inputs
    && (forall i :: 0 <= i <= n ==> |pl.nodes[i].inputs| == 1 && pl.nodes[i].rank == 0)
    && (forall i :: 0 <= i < n ==> pl.nodes[i].op == D2H && pl.nodes[i].output == Key(VIA, i + 1))
    && pl.nodes[0].inputs[0].key == Key(SOURCE, 0) && pl.nodes[0].guard == Some(Key(VIA, 0))
    && pl.nodes[n].inputs[0].key == Key(VIA, n) && pl.nodes[n].op == H2D && pl.nodes[n].guard == Some(Key(TARGET, 0))
    && NumReaders(pl, Key(VIA, 0)) == 0 == NumReaders(pl, Key(TARGET, 0))
  }

  lemma RelayPlan(n: nat, sizes: Base -> nat, lane: seq<nat>, slices: nat)
    requires n > 0 && |lane| == n + 1
    ensures Relays(CompiledPlan(Relay(n), PLAIN, sizes, lane, slices, {}), n)
  {
    var p := Relay(n);
    var ops, inputs := Lower(p, PLAIN), InputBases(p, 1);
    RelayLowered(n, n + 1);
    assert CopyBacksOf(p, PLAIN, sizes, 0, 0) == [] == CopyBacks(p, PLAIN, sizes, 0);
    assert CopyBacksOf(p, PLAIN, sizes, 0, 1) == [] == CopyBacks(p, PLAIN, sizes, 1);
    RelayInputs(n, n + 1);
    NoReaders(ops, inputs, n, n + 1, Key(VIA, 0));
    NoReaders(ops, inputs, n, n + 1, Key(TARGET, 0));
    RelayWrites(ops, n, 0);
    RelayWrites(ops, n, n);
    forall i | 0 <= i < n ensures Writes(ops, i, VIA) == i {
      RelayWrites(ops, n, i);
    }
  }

  lemma {:induction false} RelayInputs(n: nat, k: nat)
    requires k <= n + 1
    ensures InputCountFirst(Relay(n), 0, k) == 1
  {
    if k > 0 {
      RelayInputs(n, k - 1);
    }
  }

  ghost predicate NoneEmpty(pl: Plan) {
    forall i :: 0 <= i < |pl.nodes| ==> SliceBytes(pl.nodes[i], 0) > 0
  }

  /** After the rank's inputs are published and before any node is submitted. */
  lemma Published(pl: Plan, n: nat) returns (s: State)
    requires Relays(pl, n) && pl.slices > 0
    ensures Reachable(pl, s) && Shaped(pl, s) && 0 in s.published && s.owing == map[] && s.log == []
    ensures s.next == s.completed == seq(n + 1, i => 0) && s.lanes == map[] && s.pending == {}
    ensures Wp(s, Key(SOURCE, 0)) == pl.slices
  {
    var s0 := Start(pl);
    assert Reaches(pl, [], s0);
    Extend(pl, s0, PublishInputs(0));
    s := Next(pl, s0, PublishInputs(0));
  }

  lemma FirstIsReady(pl: Plan, n: nat, s: State)
    requires Relays(pl, n) && n > 0 && pl.slices > 0 && pl.windowed == {} && NoneEmpty(pl)
    requires Shaped(pl, s) && 0 in s.published && s.owing == map[] && s.next[0] == 0 && s.lanes == map[]
    requires Wp(s, Key(SOURCE, 0)) == pl.slices
    ensures CanSubmit(pl, s, 0) && RouteOf(pl, s, 0, 0) == ToLane
  {
  }

  lemma Advanced(s: State, s': State, k: Key, v: nat)
    requires s'.wp == AdvanceWrite(s, k, v).wp
    ensures Wp(s', k) >= v
  {
  }

  lemma FirstCopied(pl: Plan, n: nat) returns (s: State)
    requires Relays(pl, n) && n > 0 && pl.slices > 0 && pl.windowed == {} && NoneEmpty(pl)
    ensures Reachable(pl, s) && Shaped(pl, s) && 0 in s.published && s.owing == map[0 := Job(0, 0)]
    ensures s.log == [Job(0, 0)] && Wp(s, Key(VIA, 1)) >= 1 && s.next[n] == 0
    ensures s.completed == seq(n + 1, i => 0) && forall l :: Lane(s, l) == []
  {
    var s1 := Published(pl, n);
    FirstIsReady(pl, n, s1);
    s := EmptySlices.ViaLane(pl, s1, 0);
    Advanced(s1, s, Key(VIA, 1), 1);
  }

  /** Once the first D2H is done the H2D starts, if the version it reads shares its counters. */
  lemma StartsEarly(pl: Plan, n: nat) returns (s: State)
    requires Relays(pl, n) && n % 16 == 1 && pl.slices > 0 && pl.windowed == {} && NoneEmpty(pl)
    ensures Reachable(pl, s) && Shaped(pl, s) && s.next[n] == 1 && s.completed[n] == 0 && s.log == [Job(0, 0)]
  {
    var s2 := FirstCopied(pl, n);
    EmptySlices.ReleaseShape(pl, s2, s2.completed, 0);
    Extend(pl, s2, PublishRead(0));
    var s3 := Next(pl, s2, PublishRead(0));
    ReadsTheSame(pl, n, s2, s3);
    Extend(pl, s3, Submit(n));
    s := Next(pl, s3, Submit(n));
  }

  lemma ReadsTheSame(pl: Plan, n: nat, s2: State, s3: State)
    requires Relays(pl, n) && n % 16 == 1 && pl.slices > 0 && pl.windowed == {} && NoneEmpty(pl)
    requires Shaped(pl, s2) && 0 in s2.published && Wp(s2, Key(VIA, 1)) >= 1 && s2.next[n] == 0
    requires s3 == s2.(rd := s3.rd, owing := map[], completed := s3.completed) && |s3.completed| == n + 1
    requires forall l :: Lane(s2, l) == []
    ensures CanSubmit(pl, s3, n) && RouteOf(pl, s3, n, 0) == ToLane
  {
    assert Slot(Key(VIA, n)) == Slot(Key(VIA, 1));
    assert Lane(s3, pl.lane[n]) == Lane(s2, pl.lane[n]);
  }

  /** A run in which the H2D is in flight although the version it was compiled to read, the
      seventeenth, is not written. */
  lemma ReadTooEarly(n: nat, sizes: Base -> nat, lane: seq<nat>, slices: nat) returns (s: State)
    requires 1 < n <= MAX_PROGRESS_READERS && n % MAX_PROGRESS_VERSIONS == 1
    requires (forall b :: sizes(b) > 0) && |lane| == n + 1 && slices > 0
    ensures var pl := CompiledPlan(Relay(n), PLAIN, sizes, lane, slices, {});
      && |pl.nodes| == n + 1 && Reachable(pl, s) && Shaped(pl, s) && s.completed[n] < s.next[n]
      && |pl.nodes[n].inputs| > 0 && pl.nodes[n].inputs[0].key == pl.nodes[n - 1].output
      && !Contains(s.log, Job(n - 1, 0))
  {
    var pl := CompiledPlan(Relay(n), PLAIN, sizes, lane, slices, {});
    RelayPlan(n, sizes, lane, slices);
    forall i | 0 <= i <= n ensures SliceBytes(pl.nodes[i], 0) > 0 {
      WorkBytes(Relay(n), PLAIN, sizes, i);
    }
    s := StartsEarly(pl, n);
  }
}
