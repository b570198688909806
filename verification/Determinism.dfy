/** Every complete run leaves the memory that executing the instructions one at a time leaves. */
module Determinism {
  import opened Ir
  import opened Graphs
  import opened Executor
  import opened Safety
  import opened RaceFreedom

  /** Contents of every slice of every chunk. Copies and reductions do not look at versions. */
  type Memory<V> = (Base, nat) -> V

  function SliceResult<V>(nd: Node, combine: (V, V) -> V, mem: Memory<V>, sc: nat): V
    requires |nd.inputs| > 0
  {
    if SliceBytes(nd, sc) == 0 then mem(nd.output.base, sc)
    else if nd.op == D2DReduce then combine(mem(nd.output.base, sc), mem(nd.inputs[0].key.base, sc))
    else mem(nd.inputs[0].key.base, sc)
  }

  function Apply<V>(nd: Node, combine: (V, V) -> V, mem: Memory<V>, sc: nat): Memory<V>
    requires |nd.inputs| > 0
  {
    var v := SliceResult(nd, combine, mem, sc);
    (b: Base, c: nat) => if b == nd.output.base && c == sc then v else mem(b, c)
  }

  ghost predicate Jobs(pl: Plan, log: seq<Job>) {
    && (forall i :: 0 <= i < |pl.nodes| ==> |pl.nodes[i].inputs| > 0)
    && (forall p :: 0 <= p < |log| ==> log[p].node < |pl.nodes|)
  }

  /** Memory after the copies of `log`, in that order. */
  function Replay<V>(pl: Plan, combine: (V, V) -> V, log: seq<Job>, mem: Memory<V>): Memory<V>
    requires Jobs(pl, log)
  {
    if |log| == 0 then mem
    else
      var n := |log| - 1;
      Apply(pl.nodes[log[n].node], combine, Replay(pl, combine, log[..n], mem), log[n].slice)
  }

  // ---- Orders that respect the dataflow ----

  /** Everything slice `job` waits for is in `before`. */
  ghost predicate Ordered(pl: Plan, before: seq<Job>, job: Job)
    requires job.node < |pl.nodes|
  {
    var nd := pl.nodes[job.node];
    forall j :: 0 <= j < |pl.nodes| && MustPrecede(pl, nd, j) ==> Contains(before, Job(j, job.slice))
  }

  /** `j` produces an input or the overwritten version of `nd`, or reads the overwritten version. */
  ghost predicate MustPrecede(pl: Plan, nd: Node, j: nat)
    requires j < |pl.nodes|
  {
    || (exists q :: 0 <= q < |nd.inputs| && nd.inputs[q].key == pl.nodes[j].output)
    || nd.guard == Some(pl.nodes[j].output)
    || (Registered(pl, j) && nd.guard == Some(pl.nodes[j].inputs[0].key))
  }

  ghost predicate Legal(pl: Plan, log: seq<Job>) {
    && Jobs(pl, log)
    && (forall p, q :: 0 <= p < q < |log| ==> log[p] != log[q])
    && (forall p :: 0 <= p < |log| ==> Ordered(pl, log[..p], log[p]))
  }

  ghost predicate Complete(pl: Plan, log: seq<Job>) {
    && (forall i, sc: nat :: 0 <= i < |pl.nodes| && sc < pl.slices ==> Contains(log, Job(i, sc)))
    && (forall p :: 0 <= p < |log| ==> log[p].node < |pl.nodes| && log[p].slice < pl.slices)
  }

  /** The two orders perform the same copies. */
  ghost predicate SameJobs(a: seq<Job>, b: seq<Job>) {
    forall job :: Contains(a, job) <==> Contains(b, job)
  }

  lemma TakeLegal(pl: Plan, log: seq<Job>, n: nat)
    requires Legal(pl, log) && n <= |log|
    ensures Legal(pl, log[..n])
  {
    forall p | 0 <= p < n ensures Ordered(pl, log[..n][..p], log[..n][p]) {
      assert log[..n][..p] == log[..p];
    }
  }

  lemma {:induction false} OlderVersionsFirst(pl: Plan, log: seq<Job>, q: nat, i: nat)
    requires WellFormed(pl) && Versioned(pl) && Legal(pl, log) && q < |log| && i < |pl.nodes|
    requires pl.nodes[i].output.base == pl.nodes[log[q].node].output.base
    requires pl.nodes[i].output.version < pl.nodes[log[q].node].output.version
    ensures Contains(log[..q], Job(i, log[q].slice))
    decreases pl.nodes[log[q].node].output.version
  {
    var j := log[q].node;
    SharedIsVersioned(pl, j, i);
    assert NodeOk(pl, i);
    var before := pl.nodes[j].guard.value;
    if before == pl.nodes[i].output {
      assert MustPrecede(pl, pl.nodes[j], i);
    } else {
      var m :| 0 <= m < |pl.nodes| && pl.nodes[m].output == before;
      assert MustPrecede(pl, pl.nodes[j], m);
      var p :| 0 <= p < q && log[..q][p] == Job(m, log[q].slice);
      OlderVersionsFirst(pl, log, p, i);
      var r :| 0 <= r < p && log[..p][r] == Job(i, log[q].slice);
      assert log[..q][r] == Job(i, log[q].slice);
    }
  }

  lemma {:induction false} ReadersFirst(pl: Plan, log: seq<Job>, q: nat, i: nat)
    requires Versioned(pl) && Legal(pl, log) && q < |log| && i < |pl.nodes|
    requires pl.nodes[i].inputs[0].key.base == pl.nodes[log[q].node].output.base
    requires pl.nodes[i].inputs[0].key.version < pl.nodes[log[q].node].output.version
    ensures Contains(log[..q], Job(i, log[q].slice))
    decreases pl.nodes[log[q].node].output.version
  {
    var j := log[q].node;
    ReaderOfVersion(pl, i, j);
    var before := pl.nodes[j].guard.value;
    if before == pl.nodes[i].inputs[0].key {
      assert MustPrecede(pl, pl.nodes[j], i);
    } else {
      var m :| 0 <= m < |pl.nodes| && pl.nodes[m].output == before;
      assert MustPrecede(pl, pl.nodes[j], m);
      var p :| 0 <= p < q && log[..q][p] == Job(m, log[q].slice);
      ReadersFirst(pl, log, p, i);
      var r :| 0 <= r < p && log[..p][r] == Job(i, log[q].slice);
      assert log[..q][r] == Job(i, log[q].slice);
    }
  }

  // ---- What a read returns ----

  function Value<V>(pl: Plan, combine: (V, V) -> V, log: seq<Job>, mem: Memory<V>, p: nat): V
    requires Jobs(pl, log) && p < |log|
  {
    SliceResult(pl.nodes[log[p].node], combine, Replay(pl, combine, log[..p], mem), log[p].slice)
  }

  ghost predicate WritesSlice(pl: Plan, job: Job, b: Base, sc: nat)
    requires job.node < |pl.nodes|
  {
    pl.nodes[job.node].output.base == b && job.slice == sc
  }

  lemma {:induction false} Untouched<V>(pl: Plan, combine: (V, V) -> V, log: seq<Job>, mem: Memory<V>, b: Base,
                                        sc: nat, q: nat, n: nat)
    requires Jobs(pl, log) && q <= n <= |log|
    requires forall p :: q <= p < n ==> !WritesSlice(pl, log[p], b, sc)
    ensures Replay(pl, combine, log[..n], mem)(b, sc) == Replay(pl, combine, log[..q], mem)(b, sc)
    decreases n
  {
    if n > q {
      Untouched(pl, combine, log, mem, b, sc, q, n - 1);
      assert log[..n][..n - 1] == log[..n - 1];
      assert log[..n][n - 1] == log[n - 1];
      assert !WritesSlice(pl, log[n - 1], b, sc);
    }
  }

  /** Writers of one slice appear in the order of the versions they write. */
  lemma WritersInLogOrder(pl: Plan, log: seq<Job>, p: nat, q: nat)
    requires WellFormed(pl) && Versioned(pl) && Legal(pl, log) && p < |log| && q < |log|
    requires WritesSlice(pl, log[p], pl.nodes[log[q].node].output.base, log[q].slice)
    ensures p < q <==> pl.nodes[log[p].node].output.version < pl.nodes[log[q].node].output.version
    ensures p == q <==> pl.nodes[log[p].node].output.version == pl.nodes[log[q].node].output.version
  {
    var i, j := log[p].node, log[q].node;
    if pl.nodes[i].output.version < pl.nodes[j].output.version {
      OlderVersionsFirst(pl, log, q, i);
      var r :| 0 <= r < q && log[..q][r] == Job(i, log[q].slice);
      assert r == p;
    } else if pl.nodes[i].output.version > pl.nodes[j].output.version {
      OlderVersionsFirst(pl, log, p, j);
      var r :| 0 <= r < p && log[..p][r] == Job(j, log[p].slice);
      assert r == q;
    } else {
      assert i == j by { assert !(i < j) && !(j < i); }
      assert log[p] == log[q];
    }
  }

  lemma ReaderInLogOrder(pl: Plan, log: seq<Job>, p: nat, q: nat)
    requires Versioned(pl) && Legal(pl, log) && p < |log| && q < |log|
    requires WritesSlice(pl, log[q], pl.nodes[log[p].node].inputs[0].key.base, log[p].slice)
    requires pl.nodes[log[p].node].inputs[0].key.version < pl.nodes[log[q].node].output.version
    ensures p < q
  {
    ReadersFirst(pl, log, q, log[p].node);
    var r :| 0 <= r < q && log[..q][r] == Job(log[p].node, log[q].slice);
    assert r == p;
  }

  /** If no later version of the slice has been written, memory holds what `log[q]` wrote. */
  lemma LastWriter<V>(pl: Plan, combine: (V, V) -> V, log: seq<Job>, mem: Memory<V>, q: nat, n: nat)
    requires WellFormed(pl) && Versioned(pl) && Legal(pl, log) && q < n <= |log|
    requires forall p :: 0 <= p < n && WritesSlice(pl, log[p], pl.nodes[log[q].node].output.base, log[q].slice) ==>
               pl.nodes[log[p].node].output.version <= pl.nodes[log[q].node].output.version
    ensures Replay(pl, combine, log[..n], mem)(pl.nodes[log[q].node].output.base, log[q].slice) ==
            Value(pl, combine, log, mem, q)
  {
    var b, sc := pl.nodes[log[q].node].output.base, log[q].slice;
    forall p | q < p < n ensures !WritesSlice(pl, log[p], b, sc) {
      if WritesSlice(pl, log[p], b, sc) {
        WritersInLogOrder(pl, log, p, q);
      }
    }
    Untouched(pl, combine, log, mem, b, sc, q + 1, n);
    assert log[..q + 1][..q] == log[..q];
  }

  /** The version a node overwrites. */
  function Before(k: Key): Key {
    if k.version > 0 then Key(k.base, k.version - 1) else k
  }

  /** The version a node sees of the chunk it reads, or of the chunk it overwrites. */
  predicate Sees(pl: Plan, i: nat, k: Key)
    requires i < |pl.nodes| && |pl.nodes[i].inputs| > 0
  {
    k == pl.nodes[i].inputs[0].key || k == Before(pl.nodes[i].output)
  }

  lemma NoLaterVersionYet(pl: Plan, log: seq<Job>, p: nat, k: Key, q: nat)
    requires WellFormed(pl) && Versioned(pl) && Legal(pl, log) && q < p < |log|
    requires Sees(pl, log[p].node, k) && WritesSlice(pl, log[q], k.base, log[p].slice)
    ensures pl.nodes[log[q].node].output.version <= k.version
  {
    var i, j := log[p].node, log[q].node;
    assert NodeOk(pl, i) && NodeOk(pl, j);
    if k == pl.nodes[i].inputs[0].key && pl.nodes[j].output.version > k.version {
      ReaderInLogOrder(pl, log, p, q);
    } else if pl.nodes[j].output.version > k.version {
      WritersInLogOrder(pl, log, p, q);
    }
  }

  lemma ProducerOfSeen(pl: Plan, i: nat, k: Key) returns (j: nat)
    requires WellFormed(pl) && Versioned(pl) && i < |pl.nodes| && |pl.nodes[i].inputs| > 0 && Sees(pl, i, k) &&
             k.version > 0
    ensures j < |pl.nodes| && pl.nodes[j].output == k && MustPrecede(pl, pl.nodes[i], j)
  {
    assert VersionedNode(pl, i) || CopyBack(pl, i);
    j :| 0 <= j < |pl.nodes| && pl.nodes[j].output == k;
  }

  /** The slice a node sees is the one its producer wrote, or the initial contents. */
  lemma ReadsProducer<V>(pl: Plan, combine: (V, V) -> V, log: seq<Job>, mem: Memory<V>, p: nat, k: Key)
    returns (q: nat)
    requires WellFormed(pl) && Versioned(pl) && Legal(pl, log) && p < |log|
    requires Sees(pl, log[p].node, k)
    ensures var seen := Replay(pl, combine, log[..p], mem)(k.base, log[p].slice);
      if k.version == 0 then seen == mem(k.base, log[p].slice)
      else q < p && pl.nodes[log[q].node].output == k && log[q].slice == log[p].slice
           && seen == Value(pl, combine, log, mem, q)
  {
    var i, sc := log[p].node, log[p].slice;
    q := 0;
    forall r | 0 <= r < p && WritesSlice(pl, log[r], k.base, sc)
      ensures pl.nodes[log[r].node].output.version <= k.version
    {
      NoLaterVersionYet(pl, log, p, k, r);
    }
    if k.version == 0 {
      forall r | 0 <= r < p ensures !WritesSlice(pl, log[r], k.base, sc) {
        assert NodeOk(pl, log[r].node);
      }
      Untouched(pl, combine, log, mem, k.base, sc, 0, p);
    } else {
      var j := ProducerOfSeen(pl, i, k);
      q :| 0 <= q < p && log[..p][q] == Job(j, sc);
      LastWriter(pl, combine, log, mem, q, p);
    }
  }

  // ---- Confluence ----

  /** A slice is computed to the same value in every order. */
  lemma {:induction false} SameValue<V>(pl: Plan, combine: (V, V) -> V, a: seq<Job>, b: seq<Job>, mem: Memory<V>,
                                        p: nat, q: nat)
    requires WellFormed(pl) && Versioned(pl) && Legal(pl, a) && Legal(pl, b)
    requires p < |a| && q < |b| && a[p] == b[q]
    ensures Value(pl, combine, a, mem, p) == Value(pl, combine, b, mem, q)
    decreases p, 1
  {
    var nd := pl.nodes[a[p].node];
    assert NodeOk(pl, a[p].node);
    SameSeen(pl, combine, a, b, mem, p, q, nd.inputs[0].key);
    SameSeen(pl, combine, a, b, mem, p, q, Before(nd.output));
  }

  lemma {:induction false} SameSeen<V>(pl: Plan, combine: (V, V) -> V, a: seq<Job>, b: seq<Job>, mem: Memory<V>,
                                       p: nat, q: nat, k: Key)
    requires WellFormed(pl) && Versioned(pl) && Legal(pl, a) && Legal(pl, b)
    requires p < |a| && q < |b| && a[p] == b[q] && Sees(pl, a[p].node, k)
    ensures Replay(pl, combine, a[..p], mem)(k.base, a[p].slice) == Replay(pl, combine, b[..q], mem)(k.base, a[p].slice)
    decreases p, 0
  {
    var pa := ReadsProducer(pl, combine, a, mem, p, k);
    var qb := ReadsProducer(pl, combine, b, mem, q, k);
    if k.version > 0 {
      var i, j := a[pa].node, b[qb].node;
      assert !(i < j) && !(j < i);
      SameValue(pl, combine, a, b, mem, pa, qb);
    }
  }

  lemma {:induction false} LastWrite(pl: Plan, log: seq<Job>, b: Base, sc: nat, n: nat) returns (p: int)
    requires Jobs(pl, log) && n <= |log|
    ensures -1 <= p < n
    ensures p >= 0 ==> WritesSlice(pl, log[p], b, sc)
    ensures forall q :: p < q < n ==> !WritesSlice(pl, log[q], b, sc)
  {
    if n == 0 {
      p := -1;
    } else if WritesSlice(pl, log[n - 1], b, sc) {
      p := n - 1;
    } else {
      p := LastWrite(pl, log, b, sc, n - 1);
    }
  }

  lemma LatestIsLatest(pl: Plan, a: seq<Job>, b: seq<Job>, p: nat, r: nat)
    requires WellFormed(pl) && Versioned(pl) && Legal(pl, a) && Legal(pl, b) && SameJobs(a, b)
    requires p < |a| && r < |b|
    requires WritesSlice(pl, b[r], pl.nodes[a[p].node].output.base, a[p].slice)
    requires forall q :: p < q < |a| ==> !WritesSlice(pl, a[q], pl.nodes[a[p].node].output.base, a[p].slice)
    ensures pl.nodes[b[r].node].output.version <= pl.nodes[a[p].node].output.version
  {
    assert Contains(b, b[r]);
    var q :| 0 <= q < |a| && a[q] == b[r];
    assert q <= p;
    WritersInLogOrder(pl, a, q, p);
  }

  /** Any two orders of the same copies that respect the dataflow leave the same memory. */
  lemma Confluence<V>(pl: Plan, combine: (V, V) -> V, a: seq<Job>, b: seq<Job>, mem: Memory<V>, base: Base, sc: nat)
    requires WellFormed(pl) && Versioned(pl) && Legal(pl, a) && Legal(pl, b) && SameJobs(a, b)
    ensures Replay(pl, combine, a, mem)(base, sc) == Replay(pl, combine, b, mem)(base, sc)
  {
    var p := LastWrite(pl, a, base, sc, |a|);
    assert a[..|a|] == a && b[..|b|] == b;
    if p < 0 {
      forall r | 0 <= r < |b| ensures !WritesSlice(pl, b[r], base, sc) {
        assert Contains(b, b[r]);
        var q :| 0 <= q < |a| && a[q] == b[r];
      }
      Untouched(pl, combine, a, mem, base, sc, 0, |a|);
      Untouched(pl, combine, b, mem, base, sc, 0, |b|);
    } else {
      assert Contains(a, a[p]);
      var q :| 0 <= q < |b| && b[q] == a[p];
      forall r | 0 <= r < |a| && WritesSlice(pl, a[r], base, sc)
        ensures pl.nodes[a[r].node].output.version <= pl.nodes[a[p].node].output.version
      {
        assert Contains(a, a[r]);
        LatestIsLatest(pl, a, a, p, r);
      }
      forall r | 0 <= r < |b| && WritesSlice(pl, b[r], base, sc)
        ensures pl.nodes[b[r].node].output.version <= pl.nodes[b[q].node].output.version
      {
        LatestIsLatest(pl, a, b, p, r);
      }
      LastWriter(pl, combine, a, mem, p, |a|);
      LastWriter(pl, combine, b, mem, q, |b|);
      SameValue(pl, combine, a, b, mem, p, q);
    }
  }

  // ---- Asynchronous runs are such orders ----

  /** The counters `n` slices of node `i` wait for have been reached. */
  ghost predicate WaitsMet(pl: Plan, s: State, i: nat, n: nat)
    requires Shaped(pl, s) && i < |pl.nodes|
  {
    var nd := pl.nodes[i];
    && (forall j :: 0 <= j < |nd.inputs| ==> n <= Wp(s, nd.inputs[j].key))
    && (nd.guard.Some? && nd.guard.value.version > 0 ==> n <= Wp(s, nd.guard.value))
    && (nd.guard.Some? ==>
          forall r: nat :: r < NumReaders(pl, nd.guard.value) ==> n <= Rd(s, nd.guard.value, r))
  }

  lemma PerformsWhenReady(pl: Plan, s: State, a: Action)
    requires WellFormed(pl) && WellSliced(pl) && Inv(pl, s) && Enabled(pl, s, a) && Performed(pl, s, a).Some?
    ensures var job := Performed(pl, s, a).value;
      job.node < |pl.nodes| && WaitsMet(pl, s, job.node, job.slice + 1) && !Contains(s.log, job)
  {
    match a {
      case Execute(job) =>
        ExecutesMovingSlices(pl, s, job);
        assert NodeWaits(pl, s, job.node);
      case Submit(i) =>
        var guard := pl.nodes[i].guard;
        if guard.Some? && NumReaders(pl, guard.value) > 0 {
          MinRdIsLeast(s, guard.value, NumReaders(pl, guard.value));
        }
        ExecutedOnceSubmitted(pl, s, i, s.next[i]);
    }
  }

  /** A slice that is ready finds everything it waits for in memory. */
  lemma PerformedOrdered(pl: Plan, s: State, job: Job)
    requires WellFormed(pl) && Inv(pl, s) && job.node < |pl.nodes| && WaitsMet(pl, s, job.node, job.slice + 1)
    ensures Ordered(pl, s.log, job)
  {
    var nd := pl.nodes[job.node];
    forall j | 0 <= j < |pl.nodes| && MustPrecede(pl, nd, j) ensures Contains(s.log, Job(j, job.slice)) {
      assert NodeOk(pl, j) && NodeOk(pl, job.node);
      if nd.guard == Some(pl.nodes[j].inputs[0].key) && Registered(pl, j) {
        assert job.slice < Rd(s, nd.guard.value, pl.nodes[j].inputs[0].readerId);
      }
      assert job.slice < Written(pl, s, j);
    }
  }

  lemma {:induction false} RunsAreLegal(pl: Plan, steps: seq<Action>, s: State)
    requires WellFormed(pl) && WellSliced(pl) && Reaches(pl, steps, s)
    ensures Legal(pl, s.log)
    decreases |steps|
  {
    forall i | 0 <= i < |pl.nodes| ensures |pl.nodes[i].inputs| > 0 {
      assert NodeOk(pl, i);
    }
    if |steps| > 0 {
      var n := |steps| - 1;
      var s0 :| Reaches(pl, steps[..n], s0) && Shaped(pl, s0)
        && Enabled(pl, s0, steps[n]) && s == Next(pl, s0, steps[n]);
      RunsAreLegal(pl, steps[..n], s0);
      LogIs(pl, s0, steps[n]);
      if Performed(pl, s0, steps[n]).Some? {
        var job := Performed(pl, s0, steps[n]).value;
        ReachesInv(pl, steps[..n], s0);
        PerformsWhenReady(pl, s0, steps[n]);
        PerformedOrdered(pl, s0, job);
        AppendLegal(pl, s0.log, job);
      } else {
        assert s.log == s0.log;
      }
    }
  }

  lemma AppendLegal(pl: Plan, log: seq<Job>, job: Job)
    requires Legal(pl, log) && job.node < |pl.nodes| && !Contains(log, job) && Ordered(pl, log, job)
    ensures Legal(pl, log + [job])
  {
    var log' := log + [job];
    forall p | 0 <= p < |log'| ensures Ordered(pl, log'[..p], log'[p]) {
      assert log'[..p] == log[..p];
      if p == |log| { assert log[..p] == log; }
    }
  }

  lemma FinishedIsComplete(pl: Plan, s: State)
    requires WellFormed(pl) && Inv(pl, s) && Finished(pl, s)
    ensures Complete(pl, s.log)
  {
    forall i, sc: nat | 0 <= i < |pl.nodes| && sc < pl.slices ensures Contains(s.log, Job(i, sc)) {
      assert sc < Written(pl, s, i);
    }
  }

  lemma CompleteIsSame(pl: Plan, a: seq<Job>, b: seq<Job>)
    requires Complete(pl, a) && Complete(pl, b)
    ensures SameJobs(a, b)
  {
    forall job ensures Contains(a, job) <==> Contains(b, job) {
      assert job == Job(job.node, job.slice);
    }
  }

  /** Whatever the interleaving of ranks, lanes and host copies, two finished runs agree on memory. */
  lemma RunsAgree<V>(pl: Plan, combine: (V, V) -> V, s: State, t: State, mem: Memory<V>, b: Base, sc: nat)
    requires WellFormed(pl) && WellSliced(pl) && Versioned(pl)
    requires Reachable(pl, s) && Reachable(pl, t)
    requires Shaped(pl, s) && Shaped(pl, t) && Finished(pl, s) && Finished(pl, t)
    ensures Jobs(pl, s.log) && Jobs(pl, t.log)
    ensures Replay(pl, combine, s.log, mem)(b, sc) == Replay(pl, combine, t.log, mem)(b, sc)
  {
    var steps :| Reaches(pl, steps, s);
    var steps' :| Reaches(pl, steps', t);
    ReachesInv(pl, steps, s);
    ReachesInv(pl, steps', t);
    RunsAreLegal(pl, steps, s);
    RunsAreLegal(pl, steps', t);
    FinishedIsComplete(pl, s);
    FinishedIsComplete(pl, t);
    CompleteIsSame(pl, s.log, t.log);
    Confluence(pl, combine, s.log, t.log, mem, b, sc);
  }

  // ---- One instruction at a time ----

  /** One instruction on whole chunks: all slices at once, no versions, no counters. */
  function ExecuteNode<V>(nd: Node, combine: (V, V) -> V, slices: nat, mem: Memory<V>): Memory<V>
    requires |nd.inputs| > 0
  {
    (b: Base, c: nat) => if b == nd.output.base && c < slices then SliceResult(nd, combine, mem, c) else mem(b, c)
  }

  function ExecuteAll<V>(pl: Plan, combine: (V, V) -> V, order: seq<nat>, mem: Memory<V>): Memory<V>
    requires forall i :: 0 <= i < |pl.nodes| ==> |pl.nodes[i].inputs| > 0
    requires forall p :: 0 <= p < |order| ==> order[p] < |pl.nodes|
  {
    if |order| == 0 then mem
    else
      ExecuteNode(pl.nodes[order[|order| - 1]], combine, pl.slices,
                  ExecuteAll(pl, combine, order[..|order| - 1], mem))
  }

  /** Every node once, each after everything it waits for. */
  ghost predicate Schedule(pl: Plan, order: seq<nat>) {
    && (forall p :: 0 <= p < |order| ==> order[p] < |pl.nodes|)
    && (forall p, q :: 0 <= p < q < |order| ==> order[p] != order[q])
    && (forall i :: 0 <= i < |pl.nodes| ==> i in order)
    && (forall p, j :: 0 <= p < |order| && 0 <= j < |pl.nodes| && MustPrecede(pl, pl.nodes[order[p]], j) ==>
          j in order[..p])
  }

  function SlicesOf(i: nat, n: nat): (jobs: seq<Job>)
    ensures |jobs| == n && forall k :: 0 <= k < n ==> jobs[k] == Job(i, k)
  {
    seq(n, k requires 0 <= k => Job(i, k))
  }

  function JobsOf(order: seq<nat>, slices: nat): (jobs: seq<Job>)
    ensures |jobs| == |order| * slices
  {
    if |order| == 0 then [] else JobsOf(order[..|order| - 1], slices) + SlicesOf(order[|order| - 1], slices)
  }

  lemma {:induction false} JobsOfContains(order: seq<nat>, slices: nat, job: Job)
    ensures Contains(JobsOf(order, slices), job) <==> job.node in order && job.slice < slices
  {
    if |order| > 0 {
      var n := |order| - 1;
      JobsOfContains(order[..n], slices, job);
      assert order == order[..n] + [order[n]];
      var front, back := JobsOf(order[..n], slices), SlicesOf(order[n], slices);
      ConcatContains(front, back, job);
      if job.node == order[n] && job.slice < slices {
        assert back[job.slice] == job;
      }
    }
  }

  lemma ConcatContains(a: seq<Job>, b: seq<Job>, job: Job)
    ensures Contains(a + b, job) <==> Contains(a, job) || Contains(b, job)
  {
    if Contains(a, job) {
      var p :| 0 <= p < |a| && a[p] == job;
      assert (a + b)[p] == job;
    }
    if Contains(b, job) {
      var p :| 0 <= p < |b| && b[p] == job;
      assert (a + b)[|a| + p] == job;
    }
  }

  lemma {:induction false} SlicesLegal(pl: Plan, log: seq<Job>, i: nat, n: nat)
    requires Legal(pl, log) && i < |pl.nodes|
    requires forall sc: nat :: !Contains(log, Job(i, sc))
    requires forall sc: nat :: sc < n ==> Ordered(pl, log, Job(i, sc))
    ensures Legal(pl, log + SlicesOf(i, n))
    decreases n
  {
    if n == 0 {
      assert log + SlicesOf(i, 0) == log;
    } else {
      var front := log + SlicesOf(i, n - 1);
      SlicesLegal(pl, log, i, n - 1);
      ConcatContains(log, SlicesOf(i, n - 1), Job(i, n - 1));
      forall j | 0 <= j < |pl.nodes| && MustPrecede(pl, pl.nodes[i], j) ensures Contains(front, Job(j, n - 1)) {
        assert Ordered(pl, log, Job(i, n - 1));
        ConcatContains(log, SlicesOf(i, n - 1), Job(j, n - 1));
      }
      AppendLegal(pl, front, Job(i, n - 1));
      assert log + SlicesOf(i, n) == front + [Job(i, n - 1)];
    }
  }

  lemma {:induction false} ScheduleLegal(pl: Plan, order: seq<nat>, n: nat)
    requires WellFormed(pl) && Schedule(pl, order) && n <= |order|
    ensures Legal(pl, JobsOf(order[..n], pl.slices))
  {
    forall i | 0 <= i < |pl.nodes| ensures |pl.nodes[i].inputs| > 0 {
      assert NodeOk(pl, i);
    }
    if n > 0 {
      ScheduleLegal(pl, order, n - 1);
      assert order[..n][..n - 1] == order[..n - 1];
      var log := JobsOf(order[..n - 1], pl.slices);
      var i := order[n - 1];
      forall sc: nat ensures !Contains(log, Job(i, sc)) {
        JobsOfContains(order[..n - 1], pl.slices, Job(i, sc));
      }
      forall sc: nat | sc < pl.slices ensures Ordered(pl, log, Job(i, sc)) {
        forall j | 0 <= j < |pl.nodes| && MustPrecede(pl, pl.nodes[i], j) ensures Contains(log, Job(j, sc)) {
          JobsOfContains(order[..n - 1], pl.slices, Job(j, sc));
        }
      }
      SlicesLegal(pl, log, i, pl.slices);
    }
  }

  lemma ResultIsLocal<V>(nd: Node, combine: (V, V) -> V, mem: Memory<V>, mem': Memory<V>, sc: nat)
    requires |nd.inputs| > 0
    requires mem(nd.output.base, sc) == mem'(nd.output.base, sc)
    requires mem(nd.inputs[0].key.base, sc) == mem'(nd.inputs[0].key.base, sc)
    ensures SliceResult(nd, combine, mem, sc) == SliceResult(nd, combine, mem', sc)
  {
  }

  lemma OneMoreSlice<V>(nd: Node, combine: (V, V) -> V, before: Memory<V>, front: Memory<V>, after: Memory<V>, n: nat,
                        b: Base, c: nat)
    requires |nd.inputs| > 0 && n > 0
    requires front(b, c) ==
             if b == nd.output.base && c < n - 1 then SliceResult(nd, combine, before, c) else before(b, c)
    requires front(nd.output.base, n - 1) == before(nd.output.base, n - 1)
    requires front(nd.inputs[0].key.base, n - 1) == before(nd.inputs[0].key.base, n - 1)
    requires after(b, c) ==
             if b == nd.output.base && c == n - 1 then SliceResult(nd, combine, front, n - 1) else front(b, c)
    ensures after(b, c) == if b == nd.output.base && c < n then SliceResult(nd, combine, before, c) else before(b, c)
  {
    ResultIsLocal(nd, combine, front, before, n - 1);
  }

  lemma {:induction false} ReplaySlices<V>(pl: Plan, combine: (V, V) -> V, log: seq<Job>, mem: Memory<V>, i: nat,
                                           n: nat, b: Base, c: nat)
    requires Jobs(pl, log) && i < |pl.nodes|
    ensures Jobs(pl, log + SlicesOf(i, n))
    ensures var before := Replay(pl, combine, log, mem);
      Replay(pl, combine, log + SlicesOf(i, n), mem)(b, c) ==
      if b == pl.nodes[i].output.base && c < n then SliceResult(pl.nodes[i], combine, before, c) else before(b, c)
    decreases n
  {
    if n == 0 {
      assert log + SlicesOf(i, 0) == log;
    } else {
      var front := log + SlicesOf(i, n - 1);
      var nd := pl.nodes[i];
      ReplaySlices(pl, combine, log, mem, i, n - 1, b, c);
      ReplaySlices(pl, combine, log, mem, i, n - 1, nd.output.base, n - 1);
      ReplaySlices(pl, combine, log, mem, i, n - 1, nd.inputs[0].key.base, n - 1);
      ReplayLast(pl, combine, log, mem, i, n, b, c);
      OneMoreSlice(nd, combine, Replay(pl, combine, log, mem), Replay(pl, combine, front, mem),
                   Replay(pl, combine, log + SlicesOf(i, n), mem), n, b, c);
    }
  }

  lemma ReplayLast<V>(pl: Plan, combine: (V, V) -> V, log: seq<Job>, mem: Memory<V>, i: nat, n: nat, b: Base, c: nat)
    requires Jobs(pl, log) && i < |pl.nodes| && n > 0
    ensures Jobs(pl, log + SlicesOf(i, n - 1)) && Jobs(pl, log + SlicesOf(i, n))
    ensures var front := Replay(pl, combine, log + SlicesOf(i, n - 1), mem);
      Replay(pl, combine, log + SlicesOf(i, n), mem)(b, c) ==
      if b == pl.nodes[i].output.base && c == n - 1 then SliceResult(pl.nodes[i], combine, front, n - 1)
      else front(b, c)
  {
    var whole := log + SlicesOf(i, n);
    assert whole[..|whole| - 1] == log + SlicesOf(i, n - 1) && whole[|whole| - 1] == Job(i, n - 1);
  }

  /** Slice-by-slice execution of a list of nodes is whole-chunk execution of it. */
  lemma {:induction false} SlicedIsWhole<V>(pl: Plan, combine: (V, V) -> V, order: seq<nat>, mem: Memory<V>, b: Base,
                                            c: nat)
    requires forall i :: 0 <= i < |pl.nodes| ==> |pl.nodes[i].inputs| > 0
    requires forall p :: 0 <= p < |order| ==> order[p] < |pl.nodes|
    ensures Jobs(pl, JobsOf(order, pl.slices))
    ensures Replay(pl, combine, JobsOf(order, pl.slices), mem)(b, c) == ExecuteAll(pl, combine, order, mem)(b, c)
    decreases |order|
  {
    if |order| > 0 {
      var n := |order| - 1;
      var nd := pl.nodes[order[n]];
      SlicedIsWhole(pl, combine, order[..n], mem, b, c);
      SlicedIsWhole(pl, combine, order[..n], mem, nd.output.base, c);
      SlicedIsWhole(pl, combine, order[..n], mem, nd.inputs[0].key.base, c);
      ReplaySlices(pl, combine, JobsOf(order[..n], pl.slices), mem, order[n], pl.slices, b, c);
    }
  }

  /** Every finished run of the executors leaves exactly the memory that executing the
      instructions one at a time, on whole chunks, in any dataflow-respecting order, leaves. */
  lemma RunIsSequential<V>(pl: Plan, combine: (V, V) -> V, s: State, order: seq<nat>, mem: Memory<V>, b: Base, sc: nat)
    requires WellFormed(pl) && WellSliced(pl) && Versioned(pl)
    requires Reachable(pl, s) && Shaped(pl, s) && Finished(pl, s) && Schedule(pl, order)
    ensures forall i :: 0 <= i < |pl.nodes| ==> |pl.nodes[i].inputs| > 0
    ensures Jobs(pl, s.log)
    ensures Replay(pl, combine, s.log, mem)(b, sc) == ExecuteAll(pl, combine, order, mem)(b, sc)
  {
    var steps :| Reaches(pl, steps, s);
    ReachesInv(pl, steps, s);
    RunsAreLegal(pl, steps, s);
    FinishedIsComplete(pl, s);
    ScheduleLegal(pl, order, |order|);
    assert order[..|order|] == order;
    var jobs := JobsOf(order, pl.slices);
    forall i, k: nat | 0 <= i < |pl.nodes| && k < pl.slices ensures Contains(jobs, Job(i, k)) {
      JobsOfContains(order, pl.slices, Job(i, k));
    }
    forall p | 0 <= p < |jobs| ensures jobs[p].node < |pl.nodes| && jobs[p].slice < pl.slices {
      assert Contains(jobs, jobs[p]);
      JobsOfContains(order, pl.slices, jobs[p]);
    }
    CompleteIsSame(pl, s.log, jobs);
    Confluence(pl, combine, s.log, jobs, mem, b, sc);
    SlicedIsWhole(pl, combine, order, mem, b, sc);
  }
}
