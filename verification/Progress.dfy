/** No reachable state of the executors is stuck, and no run goes on for ever. */
module Progress {
  import opened Ir
  import opened Graphs
  import opened Executor
  import opened Safety
  import opened RaceFreedom

  /** `rank[i]` puts every node after the producers of what it reads and overwrites and after the
      readers of what it overwrites; whatever it reads is produced or is an input chunk. */
  ghost predicate Acyclic(pl: Plan, rank: seq<nat>) {
    && |rank| == |pl.nodes|
    && (forall i :: 0 <= i < |pl.nodes| ==> Supplied(pl, rank, i))
    && (forall k, r: nat :: r < NumReaders(pl, k) ==> HasReader(pl, k, r))
  }

  ghost predicate HasReader(pl: Plan, k: Key, r: nat) {
    exists j :: 0 <= j < |pl.nodes| && |pl.nodes[j].inputs| > 0 && pl.nodes[j].inputs[0] == NodeInput(k, r)
  }

  ghost predicate ProducedBefore(pl: Plan, rank: seq<nat>, k: Key, i: nat)
    requires |rank| == |pl.nodes| && i < |pl.nodes|
  {
    exists p :: 0 <= p < |pl.nodes| && pl.nodes[p].output == k && rank[p] < rank[i]
  }

  ghost predicate Supplied(pl: Plan, rank: seq<nat>, i: nat)
    requires |rank| == |pl.nodes| && i < |pl.nodes|
  {
    var nd := pl.nodes[i];
    && (forall q :: 0 <= q < |nd.inputs| ==>
          (nd.inputs[q].key.version == 0 && nd.inputs[q].key.base in pl.inputs &&
              nd.inputs[q].key.base.owner < pl.world)
          || ProducedBefore(pl, rank, nd.inputs[q].key, i))
    && (nd.guard.Some? ==>
         && (nd.guard.value.version > 0 ==> ProducedBefore(pl, rank, nd.guard.value, i))
         && (forall j :: 0 <= j < |pl.nodes| && Registered(pl, j) && pl.nodes[j].inputs[0].key == nd.guard.value ==>
               rank[j] < rank[i]))
  }

  // ---- Deadlock freedom ----

  /** The unfinished node with the fewest submitted slices, earliest in the order among those. */
  lemma {:induction false} LeastUnfinished(pl: Plan, s: State, rank: seq<nat>, n: nat) returns (m: int)
    requires Shaped(pl, s) && |rank| == |pl.nodes| && n <= |pl.nodes|
    ensures m == -1 ==> forall i :: 0 <= i < n ==> s.next[i] >= pl.slices
    ensures m != -1 ==> 0 <= m < n && s.next[m] < pl.slices
    ensures m != -1 ==> forall i :: 0 <= i < n && s.next[i] < pl.slices ==>
              s.next[m] < s.next[i] || (s.next[m] == s.next[i] && rank[m] <= rank[i])
  {
    if n == 0 {
      m := -1;
    } else {
      m := LeastUnfinished(pl, s, rank, n - 1);
      var i := n - 1;
      if s.next[i] < pl.slices &&
         (m == -1 || s.next[i] < s.next[m] || (s.next[i] == s.next[m] && rank[i] < rank[m])) {
        m := i;
      }
    }
  }

  /** Nothing is in flight and every rank's inputs are published. */
  ghost predicate Quiet(pl: Plan, s: State)
    requires Shaped(pl, s)
  {
    && s.owing == map[]
    && (forall r: nat :: r < pl.world ==> r in s.published)
    && (forall i :: 0 <= i < |pl.nodes| ==> s.next[i] == s.completed[i])
  }

  lemma ReaderCaughtUp(pl: Plan, s: State, k: Key, n: nat)
    requires Shaped(pl, s) && RdOk(pl, s) && NumReaders(pl, k) > 0
    requires forall r: nat :: r < NumReaders(pl, k) ==> HasReader(pl, k, r)
    requires forall j :: 0 <= j < |pl.nodes| && Registered(pl, j) && pl.nodes[j].inputs[0].key == k ==>
             s.completed[j] >= n
    ensures Consumed(pl, s, k) >= n
  {
    MinRdIsLeast(s, k, NumReaders(pl, k));
    var r: nat :| r < NumReaders(pl, k) && MinRd(s, k, NumReaders(pl, k)) == Rd(s, k, r);
    assert HasReader(pl, k, r);
    var j :| 0 <= j < |pl.nodes| && |pl.nodes[j].inputs| > 0 && pl.nodes[j].inputs[0] == NodeInput(k, r);
    assert Registered(pl, j);
  }

  lemma QuietInputsReady(pl: Plan, s: State, rank: seq<nat>, m: nat)
    requires Shaped(pl, s) && WpOk(pl, s) && Acyclic(pl, rank) && Quiet(pl, s) && m < |pl.nodes|
    requires s.next[m] < pl.slices
    requires forall i :: 0 <= i < |pl.nodes| && rank[i] < rank[m] ==> s.next[i] > s.next[m]
    ensures InputsReady(s, pl.nodes[m], s.next[m])
  {
    assert Supplied(pl, rank, m);
    var nd := pl.nodes[m];
    forall q | 0 <= q < |nd.inputs| ensures Wp(s, nd.inputs[q].key) >= s.next[m] + 1 {
      var k := nd.inputs[q].key;
      if ProducedBefore(pl, rank, k, m) {
        var p :| 0 <= p < |pl.nodes| && pl.nodes[p].output == k && rank[p] < rank[m];
        assert Wp(s, k) == Written(pl, s, p);
      } else {
        assert k == Key(k.base, 0);
      }
    }
  }

  lemma QuietOverwriteReady(pl: Plan, s: State, rank: seq<nat>, m: nat)
    requires Shaped(pl, s) && WpOk(pl, s) && RdOk(pl, s) && Acyclic(pl, rank) && Quiet(pl, s) && m < |pl.nodes|
    requires forall i :: 0 <= i < |pl.nodes| && rank[i] < rank[m] ==> s.next[i] > s.next[m]
    ensures OverwriteReady(pl, s, pl.nodes[m], s.next[m])
  {
    assert Supplied(pl, rank, m);
    var guard := pl.nodes[m].guard;
    if guard.Some? {
      var k := guard.value;
      if k.version > 0 {
        var p :| 0 <= p < |pl.nodes| && pl.nodes[p].output == k && rank[p] < rank[m];
        assert Wp(s, k) == Written(pl, s, p);
      }
      if NumReaders(pl, k) > 0 {
        ReaderCaughtUp(pl, s, k, s.next[m] + 1);
      }
    }
  }

  lemma QuietRouteOpen(pl: Plan, s: State, rank: seq<nat>, m: nat)
    requires WellFormed(pl) && Inv(pl, s) && Acyclic(pl, rank) && Quiet(pl, s) && m < |pl.nodes|
    requires s.next[m] < pl.slices
    requires forall i :: 0 <= i < |pl.nodes| ==> s.next[i] >= s.next[m]
    ensures RouteOf(pl, s, m, s.next[m]) != Blocked
  {
    var nd := pl.nodes[m];
    if NumReaders(pl, nd.output) > 0 {
      ReaderCaughtUp(pl, s, nd.output, s.next[m]);
    }
    QueuedIsInFlight(pl, s, pl.lane[m]);
  }

  lemma QueuedIsInFlight(pl: Plan, s: State, l: nat)
    requires Shaped(pl, s) && QueuesOk(pl, s)
    ensures |Lane(s, l)| > 0 ==>
      var i := Lane(s, l)[0].node;
      i < |pl.nodes| && s.completed[i] <= Written(pl, s, i) < s.next[i]
  {
    if |Lane(s, l)| > 0 {
      assert QueuedOk(pl, s, l, Lane(s, l)[0]);
    }
  }

  lemma QuietCanSubmit(pl: Plan, s: State, rank: seq<nat>, m: nat)
    requires WellFormed(pl) && Inv(pl, s) && Acyclic(pl, rank) && Quiet(pl, s) && m < |pl.nodes|
    requires s.next[m] < pl.slices
    requires forall i :: 0 <= i < |pl.nodes| ==> s.next[i] >= s.next[m]
    requires forall i :: 0 <= i < |pl.nodes| && rank[i] < rank[m] ==> s.next[i] > s.next[m]
    ensures CanSubmit(pl, s, m)
  {
    assert NodeOk(pl, m);
    QuietInputsReady(pl, s, rank, m);
    QuietOverwriteReady(pl, s, rank, m);
    QuietRouteOpen(pl, s, rank, m);
  }

  lemma DrainsDma(pl: Plan, s: State, i: nat) returns (a: Action)
    requires Inv(pl, s) && i < |pl.nodes| && s.completed[i] < s.next[i] && pl.nodes[i].op != H2H && s.owing == map[]
    ensures Enabled(pl, s, a)
  {
    var l := pl.lane[i];
    assert Contains(Lane(s, l), Job(i, s.completed[i]));
    var job := Lane(s, l)[0];
    assert QueuedOk(pl, s, l, job);
    if Contains(s.log, job) {
      a := PollDma(l);
    } else {
      a := Execute(job);
      assert RunsNext(s, l, job);
    }
  }

  lemma DrainsH2H(pl: Plan, s: State, i: nat) returns (a: Action)
    requires WellSliced(pl) && Inv(pl, s) && i < |pl.nodes| && s.completed[i] < s.next[i] && pl.nodes[i].op == H2H &&
             s.owing == map[]
    ensures Enabled(pl, s, a)
  {
    var job := Job(i, s.completed[i]);
    if job in s.pending {
      a := PublishH2H(i);
    } else if Contains(s.log, job) {
      a := MarkH2H(job);
    } else {
      CopiesEverySlice(pl, i, job.slice);
      a := Execute(job);
    }
  }

  /** Until every slice of every node is done, some rank or copy can take a step. */
  lemma NeverStuck(pl: Plan, rank: seq<nat>, s: State) returns (a: Action)
    requires WellFormed(pl) && WellSliced(pl) && Acyclic(pl, rank)
    requires Reachable(pl, s) && Shaped(pl, s) && !Finished(pl, s)
    ensures Enabled(pl, s, a)
  {
    var steps :| Reaches(pl, steps, s);
    ReachesInv(pl, steps, s);
    if r :| r in s.owing {
      a := PublishRead(r);
    } else if r: nat :| r < pl.world && r !in s.published {
      a := PublishInputs(r);
    } else if i: nat :| i < |pl.nodes| && s.completed[i] < s.next[i] {
      if pl.nodes[i].op == H2H {
        a := DrainsH2H(pl, s, i);
      } else {
        a := DrainsDma(pl, s, i);
      }
    } else {
      assert s.owing == map[];
      forall i | 0 <= i < |pl.nodes| ensures s.next[i] == s.completed[i] {
        assert Written(pl, s, i) <= s.next[i];
      }
      var m := LeastUnfinished(pl, s, rank, |pl.nodes|);
      QuietCanSubmit(pl, s, rank, m);
      a := Submit(m);
    }
  }

  // ---- Every run ends ----

  function Sum(a: seq<nat>): nat {
    if |a| == 0 then 0 else Sum(a[..|a| - 1]) + a[|a| - 1]
  }

  lemma {:induction false} SumUpdate(a: seq<nat>, i: nat, v: nat)
    requires i < |a|
    ensures Sum(a[i := v]) == Sum(a) - a[i] + v
  {
    var n := |a| - 1;
    if i < n {
      assert a[i := v][..n] == a[..n][i := v];
      SumUpdate(a[..n], i, v);
    } else {
      assert a[i := v][..n] == a[..n];
    }
  }

  lemma {:induction false} SumBound(a: seq<nat>, v: nat)
    requires forall i :: 0 <= i < |a| ==> a[i] <= v
    ensures Sum(a) <= |a| * v
  {
    if |a| > 0 {
      SumBound(a[..|a| - 1], v);
    }
  }

  /** Work done so far; every step adds to it. */
  ghost function Work(s: State): int {
    |s.published| + Sum(s.next) + |s.log| + |s.pending| + 3 * Sum(s.completed) + 2 * |s.owing|
  }

  lemma PublishWork(pl: Plan, s: State, job: Job)
    requires job.node < |pl.nodes| && pl.nodes[job.node].rank !in s.owing
    ensures Work(PublishWrite(pl, s, job)) == Work(s) + 2
  {
    var r := pl.nodes[job.node].rank;
    assert s.owing[r := job].Keys == s.owing.Keys + {r};
    assert |s.owing[r := job].Keys| == |s.owing.Keys| + 1;
  }

  lemma ImmediateWork(pl: Plan, s: State, i: nat)
    requires Shaped(pl, s) && Enabled(pl, s, Submit(i)) && RouteOf(pl, s, i, s.next[i]) == Immediate
    ensures Work(Next(pl, s, Submit(i))) > Work(s)
  {
    var job := Job(i, s.next[i]);
    var s1 := s.(next := s.next[i := s.next[i] + 1], log := s.log + [job]);
    HandedWork(s, i);
    PublishWork(pl, s1, job);
    assert Next(pl, s, Submit(i)) == PublishWrite(pl, s1, job);
  }

  lemma SubmitWork(pl: Plan, s: State, i: nat)
    requires Shaped(pl, s) && Enabled(pl, s, Submit(i))
    ensures Work(Next(pl, s, Submit(i))) > Work(s)
  {
    if RouteOf(pl, s, i, s.next[i]) == Immediate {
      ImmediateWork(pl, s, i);
    } else {
      var s1 := Next(pl, s, Submit(i));
      HandedWork(s, i);
      assert s1 == s.(next := s.next[i := s.next[i] + 1], lanes := s1.lanes);
    }
  }

  lemma HandedWork(s: State, i: nat)
    requires i < |s.next|
    ensures Work(s.(next := s.next[i := s.next[i] + 1])) == Work(s) + 1
  {
    SumUpdate(s.next, i, s.next[i] + 1);
  }

  lemma PollWork(pl: Plan, s: State, l: nat)
    requires Shaped(pl, s) && Enabled(pl, s, PollDma(l))
    ensures Work(Next(pl, s, PollDma(l))) > Work(s)
  {
    PublishWork(pl, s.(lanes := s.lanes[l := Lane(s, l)[1..]]), Lane(s, l)[0]);
  }

  lemma PublishH2HWork(pl: Plan, s: State, i: nat)
    requires Shaped(pl, s) && Enabled(pl, s, PublishH2H(i))
    ensures Work(Next(pl, s, PublishH2H(i))) > Work(s)
  {
    PublishWork(pl, s.(pending := s.pending - {Job(i, s.completed[i])}), Job(i, s.completed[i]));
  }

  lemma PublishReadWork(pl: Plan, s: State, r: nat)
    requires Shaped(pl, s) && Enabled(pl, s, PublishRead(r))
    ensures Work(Next(pl, s, PublishRead(r))) > Work(s)
  {
    SumUpdate(s.completed, s.owing[r].node, s.completed[s.owing[r].node] + 1);
    assert s.owing.Keys == (s.owing - {r}).Keys + {r};
    assert |s.owing.Keys| == |(s.owing - {r}).Keys| + 1;
  }

  lemma OtherWork(pl: Plan, s: State, a: Action)
    requires Shaped(pl, s) && Enabled(pl, s, a) && (a.PublishInputs? || a.Execute? || a.MarkH2H?)
    ensures Work(Next(pl, s, a)) > Work(s)
  {
  }

  lemma StepsWork(pl: Plan, s: State, a: Action)
    requires Shaped(pl, s) && Enabled(pl, s, a)
    ensures Work(Next(pl, s, a)) > Work(s)
  {
    match a {
      case Submit(i) => SubmitWork(pl, s, i);
      case PollDma(l) => PollWork(pl, s, l);
      case PublishH2H(i) => PublishH2HWork(pl, s, i);
      case PublishRead(r) => PublishReadWork(pl, s, r);
      case _ => OtherWork(pl, s, a);
    }
  }

  function RowOf(i: nat, n: nat): (row: set<Job>)
    ensures |row| == n && forall job :: job in row <==> job.node == i && job.slice < n
  {
    if n == 0 then {} else RowOf(i, n - 1) + {Job(i, n - 1)}
  }

  function AllJobs(n: nat, slices: nat): (all: set<Job>)
    ensures |all| == n * slices && forall job :: job in all <==> job.node < n && job.slice < slices
  {
    if n == 0 then {} else AllJobs(n - 1, slices) + RowOf(n - 1, slices)
  }

  function Below(n: nat): (all: set<nat>)
    ensures |all| == n && forall r: nat :: r in all <==> r < n
  {
    if n == 0 then {} else Below(n - 1) + {n - 1}
  }

  lemma {:induction false} DistinctBound(log: seq<Job>, all: set<Job>)
    requires forall p :: 0 <= p < |log| ==> log[p] in all
    requires forall p, q :: 0 <= p < q < |log| ==> log[p] != log[q]
    ensures |log| <= |all|
  {
    if |log| > 0 {
      var n := |log| - 1;
      DistinctBound(log[..n], all - {log[n]});
    }
  }

  lemma SubsetSize<T>(a: set<T>, b: set<T>)
    requires a <= b
    ensures |a| <= |b|
  {
    assert b == a + (b - a);
  }

  lemma {:induction false} RunsWork(pl: Plan, steps: seq<Action>, s: State)
    requires WellFormed(pl) && WellSliced(pl) && Reaches(pl, steps, s)
    ensures |steps| <= Work(s)
    ensures forall p, q :: 0 <= p < q < |s.log| ==> s.log[p] != s.log[q]
    ensures forall r :: r in s.published ==> r < pl.world
    decreases |steps|
  {
    if |steps| > 0 {
      var n := |steps| - 1;
      var s0 :| Reaches(pl, steps[..n], s0) && Shaped(pl, s0)
        && Enabled(pl, s0, steps[n]) && s == Next(pl, s0, steps[n]);
      RunsWork(pl, steps[..n], s0);
      ReachesInv(pl, steps[..n], s0);
      StepsWork(pl, s0, steps[n]);
      OncePerJob(pl, s0, steps[n]);
      PublishedRanks(pl, s0, steps[n]);
    }
  }

  lemma OncePerJob(pl: Plan, s: State, a: Action)
    requires WellFormed(pl) && WellSliced(pl) && Inv(pl, s) && Enabled(pl, s, a)
    requires forall p, q :: 0 <= p < q < |s.log| ==> s.log[p] != s.log[q]
    ensures var log' := Next(pl, s, a).log;
      forall p, q :: 0 <= p < q < |log'| ==> log'[p] != log'[q]
  {
    LogIs(pl, s, a);
    if Performed(pl, s, a).Some? {
      NotPerformedYet(pl, s, a);
    }
  }

  lemma NotPerformedYet(pl: Plan, s: State, a: Action)
    requires Shaped(pl, s) && LoggedOk(pl, s) && Enabled(pl, s, a) && Performed(pl, s, a).Some?
    ensures !Contains(s.log, Performed(pl, s, a).value)
  {
    forall p | 0 <= p < |s.log| ensures s.log[p] != Performed(pl, s, a).value {
    }
  }

  lemma PublishedRanks(pl: Plan, s: State, a: Action)
    requires Shaped(pl, s) && Enabled(pl, s, a) && forall r :: r in s.published ==> r < pl.world
    ensures forall r :: r in Next(pl, s, a).published ==> r < pl.world
  {
  }

  lemma LogBound(pl: Plan, s: State)
    requires Shaped(pl, s) && OrderOk(pl, s) && LoggedOk(pl, s)
    requires forall p, q :: 0 <= p < q < |s.log| ==> s.log[p] != s.log[q]
    ensures |s.log| <= |pl.nodes| * pl.slices
  {
    var all := AllJobs(|pl.nodes|, pl.slices);
    forall p | 0 <= p < |s.log| ensures s.log[p] in all {
      assert s.next[s.log[p].node] <= pl.slices;
    }
    DistinctBound(s.log, all);
  }

  lemma PendingBound(pl: Plan, s: State)
    requires Shaped(pl, s) && OrderOk(pl, s) && LoggedOk(pl, s)
    ensures |s.pending| <= |pl.nodes| * pl.slices
  {
    var all := AllJobs(|pl.nodes|, pl.slices);
    forall job | job in s.pending ensures job in all {
      var p :| 0 <= p < |s.log| && s.log[p] == job;
      assert s.next[job.node] <= pl.slices;
    }
    SubsetSize(s.pending, all);
  }

  lemma RanksBound(pl: Plan, s: State)
    requires WellFormed(pl) && Shaped(pl, s) && OwingOk(pl, s)
    requires forall r :: r in s.published ==> r < pl.world
    ensures |s.published| <= pl.world && |s.owing| <= pl.world
  {
    SubsetSize(s.published, Below(pl.world));
    forall r | r in s.owing ensures r < pl.world {
      assert NodeOk(pl, s.owing[r].node);
    }
    SubsetSize(s.owing.Keys, Below(pl.world));
  }

  lemma SlicesBound(pl: Plan, s: State)
    requires Shaped(pl, s) && OrderOk(pl, s)
    ensures Sum(s.next) <= |pl.nodes| * pl.slices && Sum(s.completed) <= |pl.nodes| * pl.slices
  {
    forall i | 0 <= i < |pl.nodes| ensures s.completed[i] <= pl.slices && s.next[i] <= pl.slices {
      assert Written(pl, s, i) <= s.next[i] <= pl.slices;
    }
    SumBound(s.next, pl.slices);
    SumBound(s.completed, pl.slices);
  }

  /** Runs have bounded length; with `NeverStuck`, a run that cannot be extended is finished. */
  lemma RunsEnd(pl: Plan, steps: seq<Action>, s: State)
    requires WellFormed(pl) && WellSliced(pl) && Reaches(pl, steps, s)
    ensures |steps| <= 3 * pl.world + 6 * (|pl.nodes| * pl.slices)
  {
    RunsWork(pl, steps, s);
    ReachesInv(pl, steps, s);
    LogBound(pl, s);
    PendingBound(pl, s);
    RanksBound(pl, s);
    SlicesBound(pl, s);
  }

  // ---- When a ready slice is held back ----

  /** A lane never holds more copies than its event ring has slots. */
  lemma {:induction false} LaneFitsRing(pl: Plan, steps: seq<Action>, s: State, l: nat)
    requires |pl.lane| == |pl.nodes| && Reaches(pl, steps, s)
    ensures |Lane(s, l)| <= 64
    decreases |steps|
  {
    if |steps| > 0 {
      var n := |steps| - 1;
      var s0 :| Reaches(pl, steps[..n], s0) && Shaped(pl, s0) && Enabled(pl, s0, steps[n]) &&
          s == Next(pl, s0, steps[n]);
      LaneFitsRing(pl, steps[..n], s0, l);
      LaneStaysInRing(pl, s0, steps[n], l);
    }
  }

  lemma LaneStaysInRing(pl: Plan, s: State, a: Action, l: nat)
    requires Shaped(pl, s) && Enabled(pl, s, a) && |Lane(s, l)| <= 64
    ensures |Lane(Next(pl, s, a), l)| <= 64
  {
    QueueIs(pl, s, a, l);
  }

  /** Some registered reader of the version is `window` or more slices behind. */
  predicate SomeReaderBehind(pl: Plan, s: State, k: Key, sc: nat, window: nat) {
    exists r: nat :: r < NumReaders(pl, k) && Rd(s, k, r) + window <= sc
  }

  lemma BehindExactly(pl: Plan, s: State, k: Key, sc: nat, window: nat)
    requires NumReaders(pl, k) > 0
    ensures sc >= Consumed(pl, s, k) + window <==> SomeReaderBehind(pl, s, k, sc, window)
  {
    MinRdIsLeast(s, k, NumReaders(pl, k));
  }

  /** In a reachable state a non-empty slice is held back exactly when its lane's ring of 64 is full,
      or when it goes to the host with a lead window and a reader is four slices behind. */
  lemma HeldBackExactly(pl: Plan, steps: seq<Action>, s: State, i: nat, sc: nat)
    requires |pl.lane| == |pl.nodes| && Reaches(pl, steps, s) && i < |pl.nodes| && SliceBytes(pl.nodes[i], sc) > 0
    ensures var nd := pl.nodes[i];
      RouteOf(pl, s, i, sc) == Blocked <==>
      || (nd.op != H2H && |Lane(s, pl.lane[i])| == 64)
      || (nd.op == D2H && nd.rank in pl.windowed && SomeReaderBehind(pl, s, nd.output, sc, 4))
  {
    LaneFitsRing(pl, steps, s, pl.lane[i]);
    if NumReaders(pl, pl.nodes[i].output) > 0 {
      BehindExactly(pl, s, pl.nodes[i].output, sc, 4);
    }
  }
}
