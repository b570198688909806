/** What every reachable state of the executors keeps, and that no two copies in flight conflict. */
module Safety {
  import opened Ir
  import opened Graphs
  import opened Executor

  // ---- Plans the compiler produces ----

  predicate NodeOk(pl: Plan, i: nat)
    requires i < |pl.nodes|
  {
    var nd := pl.nodes[i];
    && nd.rank < pl.world
    && 1 <= |nd.inputs| <= 2
    && (|nd.inputs| == 2 <==> nd.op == D2DReduce)
    && (|nd.inputs| == 2 ==> nd.inputs[1].readerId == -1)
    && (forall j :: 0 <= j < |nd.inputs| ==> nd.inputs[j].key.version < MAX_PROGRESS_VERSIONS)
    && 1 <= nd.output.version < MAX_PROGRESS_VERSIONS
    && (nd.guard.Some? ==> nd.guard.value.version < MAX_PROGRESS_VERSIONS)
    && nd.inputs[0].readerId < NumReaders(pl, nd.inputs[0].key)
  }

  /** One producer per version, one reader per reader id, fewer than 16 versions. */
  ghost predicate WellFormed(pl: Plan) {
    && |pl.lane| == |pl.nodes| && pl.slices > 0
    && (forall i :: 0 <= i < |pl.nodes| ==> NodeOk(pl, i))
    && (forall i, j :: 0 <= i < j < |pl.nodes| ==> pl.nodes[i].output != pl.nodes[j].output)
    && (forall i, j :: 0 <= i < j < |pl.nodes| && Registered(pl, i) && Registered(pl, j) ==>
          pl.nodes[i].inputs[0] != pl.nodes[j].inputs[0])
  }

  predicate Registered(pl: Plan, i: nat)
    requires i < |pl.nodes|
  {
    |pl.nodes[i].inputs| > 0 && pl.nodes[i].inputs[0].readerId >= 0
  }

  /** Nodes whose slices are published without a copy: empty chunks and copies onto themselves. */
  predicate Moves(nd: Node) {
    nd.workBytes > 0 && !(SameChunk(nd) && (nd.op == H2H || nd.op == D2D))
  }

  /** No slice of a node that copies is empty. */
  predicate WellSliced(pl: Plan) {
    forall i :: 0 <= i < |pl.nodes| && Moves(pl.nodes[i]) && pl.slices > 0 ==>
      pl.nodes[i].workBytes > (pl.slices - 1) * SLICE_BYTES
  }

  lemma CopiesEverySlice(pl: Plan, i: nat, sc: nat)
    requires WellSliced(pl) && i < |pl.nodes| && sc < pl.slices
    ensures RouteIsCopy(pl.nodes[i], sc) <==> Moves(pl.nodes[i])
  {
    if Moves(pl.nodes[i]) {
      assert sc * SLICE_BYTES <= (pl.slices - 1) * SLICE_BYTES;
    }
  }

  // ---- The invariant ----

  ghost predicate OwingOk(pl: Plan, s: State)
    requires Shaped(pl, s)
  {
    forall r :: r in s.owing ==>
      && s.owing[r].node < |pl.nodes| && pl.nodes[s.owing[r].node].rank == r
      && s.owing[r].slice == s.completed[s.owing[r].node] < s.next[s.owing[r].node]
  }

  ghost predicate OrderOk(pl: Plan, s: State)
    requires Shaped(pl, s)
  {
    forall i :: 0 <= i < |pl.nodes| ==>
      && Written(pl, s, i) <= s.next[i] <= pl.slices
      && (!Moves(pl.nodes[i]) ==> s.next[i] == Written(pl, s, i))
  }

  ghost predicate WpOk(pl: Plan, s: State)
    requires Shaped(pl, s)
  {
    && (forall i :: 0 <= i < |pl.nodes| ==> Wp(s, pl.nodes[i].output) == Written(pl, s, i))
    && (forall b :: b in pl.inputs ==> Wp(s, Key(b, 0)) == if b.owner in s.published then pl.slices else 0)
  }

  ghost predicate RdOk(pl: Plan, s: State)
    requires Shaped(pl, s)
  {
    forall i :: 0 <= i < |pl.nodes| && Registered(pl, i) ==>
      Rd(s, pl.nodes[i].inputs[0].key, pl.nodes[i].inputs[0].readerId) == s.completed[i]
  }

  ghost predicate NodeWaits(pl: Plan, s: State, i: nat)
    requires Shaped(pl, s) && i < |pl.nodes|
  {
    var nd := pl.nodes[i];
    && (forall j :: 0 <= j < |nd.inputs| ==> s.next[i] <= Wp(s, nd.inputs[j].key))
    && (nd.guard.Some? && nd.guard.value.version > 0 ==> s.next[i] <= Wp(s, nd.guard.value))
    && (nd.guard.Some? ==>
          forall r: nat :: r < NumReaders(pl, nd.guard.value) ==> s.next[i] <= Rd(s, nd.guard.value, r))
  }

  ghost predicate WaitsOk(pl: Plan, s: State)
    requires Shaped(pl, s)
  {
    forall i :: 0 <= i < |pl.nodes| ==> NodeWaits(pl, s, i)
  }

  ghost predicate NodeInWindow(pl: Plan, s: State, i: nat)
    requires Shaped(pl, s) && i < |pl.nodes|
  {
    var nd := pl.nodes[i];
    nd.rank in pl.windowed && nd.op == D2H && Moves(nd) ==>
      forall r: nat :: r < NumReaders(pl, nd.output) ==> s.next[i] <= Rd(s, nd.output, r) + D2H_LEAD_WINDOW
  }

  ghost predicate WindowOk(pl: Plan, s: State)
    requires Shaped(pl, s)
  {
    forall i :: 0 <= i < |pl.nodes| ==> NodeInWindow(pl, s, i)
  }

  ghost predicate QueuedOk(pl: Plan, s: State, l: nat, job: Job)
    requires Shaped(pl, s)
  {
    && job.node < |pl.nodes| && pl.lane[job.node] == l
    && pl.nodes[job.node].op != H2H && Moves(pl.nodes[job.node])
    && Written(pl, s, job.node) <= job.slice < s.next[job.node]
  }

  /** Lanes hold exactly the DMA slices in flight, each node's in slice order. */
  ghost predicate QueuesOk(pl: Plan, s: State)
    requires Shaped(pl, s)
  {
    && (forall l, p :: 0 <= p < |Lane(s, l)| ==> QueuedOk(pl, s, l, Lane(s, l)[p]))
    && (forall l, p, q :: 0 <= p < q < |Lane(s, l)| && Lane(s, l)[p].node == Lane(s, l)[q].node ==>
          Lane(s, l)[p].slice < Lane(s, l)[q].slice)
    && (forall i, sc: nat :: 0 <= i < |pl.nodes| && pl.nodes[i].op != H2H && Written(pl, s, i) <= sc < s.next[i] ==>
          Contains(Lane(s, pl.lane[i]), Job(i, sc)))
  }

  ghost predicate LoggedOk(pl: Plan, s: State)
    requires Shaped(pl, s)
  {
    && (forall p :: 0 <= p < |s.log| ==>
          s.log[p].node < |pl.nodes| && s.log[p].slice < s.next[s.log[p].node])
    && (forall i, sc: nat :: 0 <= i < |pl.nodes| && sc < Written(pl, s, i) ==>
          Contains(s.log, Job(i, sc)))
    && (forall job :: job in s.pending ==>
          job.node < |pl.nodes| && Contains(s.log, job) && Written(pl, s, job.node) <= job.slice
          && pl.nodes[job.node].op == H2H)
  }

  ghost predicate Inv(pl: Plan, s: State) {
    && Shaped(pl, s)
    && OwingOk(pl, s) && OrderOk(pl, s) && WpOk(pl, s) && RdOk(pl, s)
    && WaitsOk(pl, s) && WindowOk(pl, s) && QueuesOk(pl, s) && LoggedOk(pl, s)
  }

  // ---- Counters only grow ----

  ghost predicate Grows(s: State, s': State) {
    && (forall k :: Wp(s, k) <= Wp(s', k))
    && (forall k, r: nat :: Rd(s, k, r) <= Rd(s', k, r))
  }

  lemma AdvanceReadersEffect(s: State, inputs: seq<NodeInput>, v: nat, k: Key, r: nat)
    requires 1 <= |inputs| <= 2 && (|inputs| == 2 ==> inputs[1].readerId < 0)
    ensures Rd(AdvanceReaders(s, inputs, v), k, r) ==
            if inputs[0].readerId == r && Slot(inputs[0].key) == Slot(k) then Max(Rd(s, k, r), v) else Rd(s, k, r)
  {
    var one := AdvanceReader(AdvanceReaders(s, [], v), inputs[0].key, inputs[0].readerId, v);
    assert inputs[..1] == [inputs[0]] && [inputs[0]][..0] == [];
    assert AdvanceReaders(s, [inputs[0]], v) == one;
    if |inputs| == 2 {
      assert AdvanceReaders(s, inputs, v) == one;
    } else {
      assert inputs == [inputs[0]];
    }
  }

  lemma PublishInputsGrows(pl: Plan, s: State, r: nat)
    requires Shaped(pl, s) && WpOk(pl, s) && Enabled(pl, s, PublishInputs(r))
    ensures Grows(s, Next(pl, s, PublishInputs(r)))
  {
    var s' := Next(pl, s, PublishInputs(r));
    forall k ensures Wp(s, k) <= Wp(s', k) {
      if Slot(k).base in pl.inputs && Slot(k).version == 0 {
        assert Wp(s, k) == Wp(s, Key(Slot(k).base, 0));
      }
    }
  }

  lemma PublishReadGrows(pl: Plan, s: State, r: nat)
    requires Shaped(pl, s) && OwingOk(pl, s) && Enabled(pl, s, PublishRead(r)) && NodeOk(pl, s.owing[r].node)
    ensures Grows(s, Next(pl, s, PublishRead(r)))
  {
    var s' := Next(pl, s, PublishRead(r));
    forall k, q: nat ensures Rd(s, k, q) <= Rd(s', k, q) {
      AdvanceReadersEffect(s, pl.nodes[s.owing[r].node].inputs, s.owing[r].slice + 1, k, q);
    }
  }

  lemma PublishWriteEffect(pl: Plan, s: State, job: Job, k: Key)
    requires job.node < |pl.nodes|
    ensures Wp(PublishWrite(pl, s, job), k) ==
            if Slot(k) == Slot(pl.nodes[job.node].output) then Max(Wp(s, k), job.slice + 1) else Wp(s, k)
    ensures forall q: nat :: Rd(PublishWrite(pl, s, job), k, q) == Rd(s, k, q)
  {
  }

  lemma OtherStepsGrow(pl: Plan, s: State, a: Action)
    requires Shaped(pl, s) && Enabled(pl, s, a) && !a.PublishInputs? && !a.PublishRead?
    ensures Grows(s, Next(pl, s, a))
  {
  }

  lemma CountersGrow(pl: Plan, s: State, a: Action)
    requires WellFormed(pl) && Inv(pl, s) && Enabled(pl, s, a)
    ensures Grows(s, Next(pl, s, a))
  {
    if a.PublishInputs? {
      PublishInputsGrows(pl, s, a.rank);
    } else if a.PublishRead? {
      PublishReadGrows(pl, s, a.rank);
    } else {
      OtherStepsGrow(pl, s, a);
    }
  }

  /** A slice found ready stays ready under every step of every rank, so reading the counters one
      by one is as good as reading them at once. */
  lemma ReadyIsStable(pl: Plan, s: State, a: Action, i: nat, sc: nat)
    requires WellFormed(pl) && Inv(pl, s) && Enabled(pl, s, a) && i < |pl.nodes|
    ensures InputsReady(s, pl.nodes[i], sc) ==> InputsReady(Next(pl, s, a), pl.nodes[i], sc)
    ensures OverwriteReady(pl, s, pl.nodes[i], sc) ==> OverwriteReady(pl, Next(pl, s, a), pl.nodes[i], sc)
  {
    CountersGrow(pl, s, a);
    var nd := pl.nodes[i];
    var s' := Next(pl, s, a);
    if nd.guard.Some? && NumReaders(pl, nd.guard.value) > 0 {
      MinRdIsLeast(s, nd.guard.value, NumReaders(pl, nd.guard.value));
      MinRdIsLeast(s', nd.guard.value, NumReaders(pl, nd.guard.value));
    }
  }

  lemma {:induction false} MinRdIsLeast(s: State, k: Key, n: nat)
    requires n > 0
    ensures forall r: nat :: r < n ==> MinRd(s, k, n) <= Rd(s, k, r)
    ensures exists r: nat :: r < n && MinRd(s, k, n) == Rd(s, k, r)
  {
    if n == 1 {
      assert MinRd(s, k, 1) == Rd(s, k, 0);
    } else {
      MinRdIsLeast(s, k, n - 1);
      assert MinRd(s, k, n) == MinRd(s, k, n - 1) || MinRd(s, k, n) == Rd(s, k, n - 1);
    }
  }

  // ---- Each step keeps the invariant ----

  /** The slice a step publishes, if it publishes one. */
  function Published(pl: Plan, s: State, a: Action): Option<Job>
    requires Shaped(pl, s) && Enabled(pl, s, a)
  {
    match a
    case Submit(i) => if RouteOf(pl, s, i, s.next[i]) == Immediate then Some(Job(i, s.next[i])) else None
    case PollDma(l) => Some(Lane(s, l)[0])
    case PublishH2H(i) => Some(Job(i, s.completed[i]))
    case _ => None
  }

  /** The slice whose effect on memory a step completes, if any. */
  function Performed(pl: Plan, s: State, a: Action): Option<Job>
    requires Shaped(pl, s) && Enabled(pl, s, a)
  {
    match a
    case Submit(i) => if RouteOf(pl, s, i, s.next[i]) == Immediate then Some(Job(i, s.next[i])) else None
    case Execute(job) => Some(job)
    case _ => None
  }

  function NextAfter(s: State, a: Action, i: nat): nat
    requires i < |s.next|
  {
    s.next[i] + if a == Submit(i) then 1 else 0
  }

  lemma SubmittedNext(pl: Plan, s: State, i: nat)
    requires Shaped(pl, s) && i < |pl.nodes| && s.next[i] < pl.slices
    ensures Submitted(pl, s, i).next == s.next[i := s.next[i] + 1]
  {
  }

  lemma NextIs(pl: Plan, s: State, a: Action, i: nat)
    requires Shaped(pl, s) && Enabled(pl, s, a) && i < |pl.nodes|
    ensures Next(pl, s, a).next[i] == NextAfter(s, a, i)
  {
    if a.Submit? {
      SubmittedNext(pl, s, a.node);
    } else {
      assert Next(pl, s, a).next == s.next;
    }
  }

  function WrittenAfter(pl: Plan, s: State, a: Action, i: nat): nat
    requires Shaped(pl, s) && Enabled(pl, s, a) && i < |pl.nodes|
  {
    Written(pl, s, i) + match Published(pl, s, a) case Some(job) => (if job.node == i then 1 else 0) case None => 0
  }

  lemma CompletedIs(pl: Plan, s: State, a: Action, i: nat)
    requires Shaped(pl, s) && Enabled(pl, s, a) && i < |pl.nodes|
    ensures Next(pl, s, a).completed[i] == s.completed[i] + if a.PublishRead? && s.owing[a.rank].node == i then 1 else 0
  {
  }

  /** A step that publishes makes its rank owe, and only publishing the read pays. */
  lemma OwingAfter(pl: Plan, s: State, a: Action)
    requires Shaped(pl, s) && Enabled(pl, s, a)
    requires Published(pl, s, a).Some? ==> Published(pl, s, a).value.node < |pl.nodes|
    ensures Next(pl, s, a).owing ==
      match Published(pl, s, a)
      case Some(job) => s.owing[pl.nodes[job.node].rank := job]
      case None => if a.PublishRead? then s.owing - {a.rank} else s.owing
  {
  }

  lemma PublisherOwesNothing(pl: Plan, s: State, a: Action)
    requires Shaped(pl, s) && Enabled(pl, s, a) && Published(pl, s, a).Some?
    ensures Published(pl, s, a).value.node < |pl.nodes| && pl.nodes[Published(pl, s, a).value.node].rank !in s.owing
  {
  }

  lemma WrittenIs(pl: Plan, s: State, a: Action, i: nat)
    requires Shaped(pl, s) && OwingOk(pl, s) && Enabled(pl, s, a) && i < |pl.nodes|
    ensures Written(pl, Next(pl, s, a), i) == WrittenAfter(pl, s, a, i)
  {
    if Published(pl, s, a).Some? { PublisherOwesNothing(pl, s, a); }
    CompletedIs(pl, s, a, i);
    OwingAfter(pl, s, a);
  }

  lemma HeadIsNext(pl: Plan, s: State, l: nat)
    requires Shaped(pl, s) && QueuesOk(pl, s) && |Lane(s, l)| > 0
    ensures Lane(s, l)[0].node < |pl.nodes| && Lane(s, l)[0].slice == Written(pl, s, Lane(s, l)[0].node)
  {
    var job := Lane(s, l)[0];
    assert QueuedOk(pl, s, l, job);
    assert Contains(Lane(s, l), Job(job.node, Written(pl, s, job.node)));
  }

  /** A published slice is always the node's first unpublished one. */
  lemma PublishesInOrder(pl: Plan, s: State, a: Action)
    requires Shaped(pl, s) && OwingOk(pl, s) && OrderOk(pl, s) && QueuesOk(pl, s) && LoggedOk(pl, s)
    requires WellSliced(pl) && Enabled(pl, s, a) && Published(pl, s, a).Some?
    ensures var job := Published(pl, s, a).value;
      && job.node < |pl.nodes| && job.slice == Written(pl, s, job.node) == s.completed[job.node]
      && job.slice < NextAfter(s, a, job.node) && pl.nodes[job.node].rank !in s.owing
      && (Contains(s.log, job) || Performed(pl, s, a) == Some(job))
  {
    match a {
      case Submit(i) =>
        CopiesEverySlice(pl, i, s.next[i]);
      case PollDma(l) =>
        HeadIsNext(pl, s, l);
        assert QueuedOk(pl, s, l, Lane(s, l)[0]);
      case PublishH2H(i) =>
        assert Job(i, s.completed[i]) in s.pending;
        var p :| 0 <= p < |s.log| && s.log[p] == Job(i, s.completed[i]);
    }
  }

  lemma KeepsOwing(pl: Plan, s: State, a: Action)
    requires Shaped(pl, s) && OwingOk(pl, s) && OrderOk(pl, s) && Enabled(pl, s, a)
    requires Published(pl, s, a).Some? ==>
      var job := Published(pl, s, a).value;
      job.node < |pl.nodes| && job.slice == s.completed[job.node] < NextAfter(s, a, job.node)
    ensures OwingOk(pl, Next(pl, s, a))
  {
    var s' := Next(pl, s, a);
    forall r | r in s'.owing
      ensures s'.owing[r].node < |pl.nodes| && pl.nodes[s'.owing[r].node].rank == r
      ensures s'.owing[r].slice == s'.completed[s'.owing[r].node] < s'.next[s'.owing[r].node]
    {
      OwingIs(pl, s, a, r);
      NextIs(pl, s, a, s'.owing[r].node);
    }
  }

  lemma OwingIs(pl: Plan, s: State, a: Action, r: nat)
    requires Shaped(pl, s) && OwingOk(pl, s) && Enabled(pl, s, a) && r in Next(pl, s, a).owing
    requires Published(pl, s, a).Some? ==> Published(pl, s, a).value.node < |pl.nodes|
    ensures var job := Next(pl, s, a).owing[r];
      if Published(pl, s, a) == Some(job) then pl.nodes[job.node].rank == r
      else r in s.owing && s.owing[r] == job
    ensures var job := Next(pl, s, a).owing[r];
      job.node < |pl.nodes| && Next(pl, s, a).completed[job.node] == s.completed[job.node]
  {
    OwingAfter(pl, s, a);
    CompletedIs(pl, s, a, Next(pl, s, a).owing[r].node);
  }

  lemma KeepsOrder(pl: Plan, s: State, a: Action)
    requires Shaped(pl, s) && OwingOk(pl, s) && OrderOk(pl, s) && WellSliced(pl) && Enabled(pl, s, a)
    requires Published(pl, s, a).Some? ==>
      var job := Published(pl, s, a).value;
      job.node < |pl.nodes| && job.slice == Written(pl, s, job.node) < NextAfter(s, a, job.node)
    ensures OrderOk(pl, Next(pl, s, a))
  {
    var s' := Next(pl, s, a);
    forall i | 0 <= i < |pl.nodes|
      ensures Written(pl, s', i) <= s'.next[i] <= pl.slices
      ensures !Moves(pl.nodes[i]) ==> s'.next[i] == Written(pl, s', i)
    {
      NextIs(pl, s, a, i);
      WrittenIs(pl, s, a, i);
      if a == Submit(i) {
        CopiesEverySlice(pl, i, s.next[i]);
      }
    }
  }

  lemma WpIs(pl: Plan, s: State, a: Action, k: Key)
    requires Shaped(pl, s) && Enabled(pl, s, a) && !a.PublishInputs?
    requires Published(pl, s, a).Some? ==> Published(pl, s, a).value.node < |pl.nodes|
    ensures Wp(Next(pl, s, a), k) ==
      match Published(pl, s, a)
      case Some(job) => (if Slot(k) == Slot(pl.nodes[job.node].output) then Max(Wp(s, k), job.slice + 1) else Wp(s, k))
      case None => Wp(s, k)
  {
  }

  lemma InputsPublished(pl: Plan, s: State, r: nat, k: Key)
    requires Shaped(pl, s) && Enabled(pl, s, PublishInputs(r))
    ensures Wp(Next(pl, s, PublishInputs(r)), k) ==
      if Slot(k).base in pl.inputs && Slot(k).base.owner == r && Slot(k).version == 0 then pl.slices else Wp(s, k)
  {
  }

  lemma SlotIs(k: Key)
    requires k.version < MAX_PROGRESS_VERSIONS
    ensures Slot(k) == k
  {
  }

  lemma KeepsWpOutput(pl: Plan, s: State, a: Action, i: nat)
    requires Shaped(pl, s) && OwingOk(pl, s) && Enabled(pl, s, a) && i < |pl.nodes| && NodeOk(pl, i)
    requires Wp(s, pl.nodes[i].output) == Written(pl, s, i)
    requires Published(pl, s, a).Some? ==>
      var job := Published(pl, s, a).value;
      job.node < |pl.nodes| && job.slice == Written(pl, s, job.node) && NodeOk(pl, job.node)
      && (job.node != i ==> pl.nodes[job.node].output != pl.nodes[i].output)
    ensures Wp(Next(pl, s, a), pl.nodes[i].output) == Written(pl, Next(pl, s, a), i)
  {
    var out := pl.nodes[i].output;
    WrittenIs(pl, s, a, i);
    SlotIs(out);
    if a.PublishInputs? {
      InputsPublished(pl, s, a.rank, out);
    } else {
      WpIs(pl, s, a, out);
      if Published(pl, s, a).Some? {
        SlotIs(pl.nodes[Published(pl, s, a).value.node].output);
      }
    }
  }

  lemma KeepsWpInput(pl: Plan, s: State, a: Action, b: Base)
    requires Shaped(pl, s) && Enabled(pl, s, a) && b in pl.inputs
    requires Wp(s, Key(b, 0)) == if b.owner in s.published then pl.slices else 0
    requires Published(pl, s, a).Some? ==>
      Published(pl, s, a).value.node < |pl.nodes| && NodeOk(pl, Published(pl, s, a).value.node)
    ensures Wp(Next(pl, s, a), Key(b, 0)) == if b.owner in Next(pl, s, a).published then pl.slices else 0
  {
    if a.PublishInputs? {
      InputsPublished(pl, s, a.rank, Key(b, 0));
    } else {
      WpIs(pl, s, a, Key(b, 0));
      if Published(pl, s, a).Some? {
        SlotIs(pl.nodes[Published(pl, s, a).value.node].output);
      }
    }
  }

  lemma KeepsWp(pl: Plan, s: State, a: Action)
    requires WellFormed(pl) && Shaped(pl, s) && OwingOk(pl, s) && WpOk(pl, s) && Enabled(pl, s, a)
    requires Published(pl, s, a).Some? ==>
      var job := Published(pl, s, a).value;
      job.node < |pl.nodes| && job.slice == Written(pl, s, job.node)
    ensures WpOk(pl, Next(pl, s, a))
  {
    var s' := Next(pl, s, a);
    var from := match Published(pl, s, a) case Some(job) => job.node case None => |pl.nodes|;
    forall i | 0 <= i < |pl.nodes| ensures Wp(s', pl.nodes[i].output) == Written(pl, s', i) {
      assert NodeOk(pl, i) && (from < |pl.nodes| ==> NodeOk(pl, from));
      assert i < from < |pl.nodes| || from < i ==> pl.nodes[i].output != pl.nodes[from].output;
      KeepsWpOutput(pl, s, a, i);
    }
    forall b | b in pl.inputs ensures Wp(s', Key(b, 0)) == if b.owner in s'.published then pl.slices else 0 {
      assert from < |pl.nodes| ==> NodeOk(pl, from);
      KeepsWpInput(pl, s, a, b);
    }
  }

  lemma KeepsRdOf(pl: Plan, s: State, r: nat, i: nat)
    requires Shaped(pl, s) && OwingOk(pl, s) && Enabled(pl, s, PublishRead(r)) && i < |pl.nodes| && Registered(pl, i)
    requires NodeOk(pl, i) && NodeOk(pl, s.owing[r].node)
    requires i != s.owing[r].node && Registered(pl, s.owing[r].node) ==>
             pl.nodes[i].inputs[0] != pl.nodes[s.owing[r].node].inputs[0]
    requires Rd(s, pl.nodes[i].inputs[0].key, pl.nodes[i].inputs[0].readerId) == s.completed[i]
    ensures var s' := Next(pl, s, PublishRead(r));
      Rd(s', pl.nodes[i].inputs[0].key, pl.nodes[i].inputs[0].readerId) == s'.completed[i]
  {
    var inp, j := pl.nodes[i].inputs[0], s.owing[r].node;
    SlotIs(inp.key);
    SlotIs(pl.nodes[j].inputs[0].key);
    AdvanceReadersEffect(s, pl.nodes[j].inputs, s.owing[r].slice + 1, inp.key, inp.readerId);
  }

  lemma KeepsRd(pl: Plan, s: State, a: Action)
    requires WellFormed(pl) && Shaped(pl, s) && OwingOk(pl, s) && RdOk(pl, s) && Enabled(pl, s, a)
    ensures RdOk(pl, Next(pl, s, a))
  {
    var s' := Next(pl, s, a);
    forall i | 0 <= i < |pl.nodes| && Registered(pl, i)
      ensures Rd(s', pl.nodes[i].inputs[0].key, pl.nodes[i].inputs[0].readerId) == s'.completed[i]
    {
      var inp := pl.nodes[i].inputs[0];
      if a.PublishRead? {
        var j := s.owing[a.rank].node;
        assert NodeOk(pl, i) && NodeOk(pl, j);
        assert i < j || j < i ==> !Registered(pl, j) || pl.nodes[i].inputs[0] != pl.nodes[j].inputs[0];
        KeepsRdOf(pl, s, a.rank, i);
      } else {
        RdUnchanged(pl, s, a, inp.key, inp.readerId, i);
      }
    }
  }

  lemma RdUnchanged(pl: Plan, s: State, a: Action, k: Key, q: nat, i: nat)
    requires Shaped(pl, s) && Enabled(pl, s, a) && !a.PublishRead? && i < |pl.nodes|
    ensures Rd(Next(pl, s, a), k, q) == Rd(s, k, q) && Next(pl, s, a).completed[i] == s.completed[i]
  {
  }

  lemma KeepsWaits(pl: Plan, s: State, a: Action)
    requires Shaped(pl, s) && WaitsOk(pl, s) && Enabled(pl, s, a) && Grows(s, Next(pl, s, a))
    ensures WaitsOk(pl, Next(pl, s, a))
  {
    var s' := Next(pl, s, a);
    forall i | 0 <= i < |pl.nodes| ensures NodeWaits(pl, s', i) {
      assert NodeWaits(pl, s, i);
      NextIs(pl, s, a, i);
      if a == Submit(i) {
        var guard := pl.nodes[i].guard;
        if guard.Some? && NumReaders(pl, guard.value) > 0 {
          MinRdIsLeast(s, guard.value, NumReaders(pl, guard.value));
        }
      }
    }
  }

  lemma KeepsWindow(pl: Plan, s: State, a: Action)
    requires Shaped(pl, s) && WindowOk(pl, s) && Enabled(pl, s, a) && Grows(s, Next(pl, s, a)) && WellSliced(pl)
    ensures WindowOk(pl, Next(pl, s, a))
  {
    var s' := Next(pl, s, a);
    forall i | 0 <= i < |pl.nodes| ensures NodeInWindow(pl, s', i) {
      assert NodeInWindow(pl, s, i);
      NextIs(pl, s, a, i);
      if a == Submit(i) {
        var nd := pl.nodes[i];
        CopiesEverySlice(pl, i, s.next[i]);
        if NumReaders(pl, nd.output) > 0 {
          MinRdIsLeast(s, nd.output, NumReaders(pl, nd.output));
        }
      }
    }
  }

  /** How a step changes lane `l`. */
  function QueueAfter(pl: Plan, s: State, a: Action, l: nat): seq<Job>
    requires Shaped(pl, s) && Enabled(pl, s, a)
  {
    if a.Submit? && RouteOf(pl, s, a.node, s.next[a.node]) == ToLane && pl.lane[a.node] == l then
      Lane(s, l) + [Job(a.node, s.next[a.node])]
    else if a == PollDma(l) then Lane(s, l)[1..]
    else Lane(s, l)
  }

  lemma QueueIs(pl: Plan, s: State, a: Action, l: nat)
    requires Shaped(pl, s) && Enabled(pl, s, a)
    ensures Lane(Next(pl, s, a), l) == QueueAfter(pl, s, a, l)
  {
  }

  /** A node is published by polling its lane exactly when its copies go through that lane. */
  lemma OnlyPollsPublishLanes(pl: Plan, s: State, a: Action)
    requires Shaped(pl, s) && OwingOk(pl, s) && OrderOk(pl, s) && QueuesOk(pl, s) && LoggedOk(pl, s)
    requires WellSliced(pl) && Enabled(pl, s, a) && Published(pl, s, a).Some?
    ensures var i := Published(pl, s, a).value.node;
      && i < |pl.nodes|
      && (Moves(pl.nodes[i]) && pl.nodes[i].op != H2H ==> a == PollDma(pl.lane[i]))
  {
    match a {
      case Submit(i) => CopiesEverySlice(pl, i, s.next[i]);
      case PollDma(l) => assert QueuedOk(pl, s, l, Lane(s, l)[0]);
      case PublishH2H(i) => assert Job(i, s.completed[i]) in s.pending;
    }
  }

  /** `QueuedOk` after the step. */
  ghost predicate QueuedNext(pl: Plan, s: State, a: Action, l: nat, job: Job)
    requires Shaped(pl, s) && Enabled(pl, s, a)
  {
    && job.node < |pl.nodes| && pl.lane[job.node] == l && pl.nodes[job.node].op != H2H && Moves(pl.nodes[job.node])
    && WrittenAfter(pl, s, a, job.node) <= job.slice < NextAfter(s, a, job.node)
  }

  lemma StaysQueued(pl: Plan, s: State, a: Action, l: nat, job: Job)
    requires Shaped(pl, s) && OwingOk(pl, s) && OrderOk(pl, s) && QueuesOk(pl, s) && LoggedOk(pl, s)
    requires WellSliced(pl) && Enabled(pl, s, a) && QueuedOk(pl, s, l, job) && a != PollDma(l)
    ensures QueuedNext(pl, s, a, l, job)
  {
    if Published(pl, s, a).Some? {
      OnlyPollsPublishLanes(pl, s, a);
    }
  }

  lemma StaysQueuedBehind(pl: Plan, s: State, l: nat, job: Job, p: nat)
    requires Shaped(pl, s) && QueuesOk(pl, s) && Enabled(pl, s, PollDma(l))
    requires p + 1 < |Lane(s, l)| && Lane(s, l)[p + 1] == job
    ensures QueuedNext(pl, s, PollDma(l), l, job)
  {
    assert QueuedOk(pl, s, l, Lane(s, l)[p + 1]);
    HeadIsNext(pl, s, l);
  }

  lemma JustQueued(pl: Plan, s: State, i: nat)
    requires Shaped(pl, s) && OrderOk(pl, s) && WellSliced(pl) && Enabled(pl, s, Submit(i))
    requires RouteOf(pl, s, i, s.next[i]) == ToLane
    ensures QueuedNext(pl, s, Submit(i), pl.lane[i], Job(i, s.next[i]))
  {
    CopiesEverySlice(pl, i, s.next[i]);
  }

  lemma QueuedAfter(pl: Plan, s: State, a: Action, l: nat, p: nat)
    requires Shaped(pl, s) && OwingOk(pl, s) && OrderOk(pl, s) && QueuesOk(pl, s) && LoggedOk(pl, s)
    requires WellSliced(pl) && Enabled(pl, s, a) && p < |QueueAfter(pl, s, a, l)|
    ensures QueuedNext(pl, s, a, l, QueueAfter(pl, s, a, l)[p])
  {
    var before, job := Lane(s, l), QueueAfter(pl, s, a, l)[p];
    if a == PollDma(l) {
      StaysQueuedBehind(pl, s, l, job, p);
    } else if a.Submit? && p == |before| {
      JustQueued(pl, s, a.node);
    } else {
      assert QueuedOk(pl, s, l, before[p]);
      StaysQueued(pl, s, a, l, job);
    }
  }

  lemma KeepsQueued(pl: Plan, s: State, a: Action, l: nat, p: nat)
    requires Shaped(pl, s) && OwingOk(pl, s) && OrderOk(pl, s) && QueuesOk(pl, s) && LoggedOk(pl, s)
    requires WellSliced(pl) && Enabled(pl, s, a) && p < |Lane(Next(pl, s, a), l)|
    ensures QueuedOk(pl, Next(pl, s, a), l, Lane(Next(pl, s, a), l)[p])
  {
    QueueIs(pl, s, a, l);
    QueuedAfter(pl, s, a, l, p);
    var job := Lane(Next(pl, s, a), l)[p];
    NextIs(pl, s, a, job.node);
    WrittenIs(pl, s, a, job.node);
  }

  lemma OrderAfter(pl: Plan, s: State, a: Action, l: nat, p: nat, q: nat)
    requires Shaped(pl, s) && QueuesOk(pl, s) && Enabled(pl, s, a)
    requires p < q < |QueueAfter(pl, s, a, l)| && QueueAfter(pl, s, a, l)[p].node == QueueAfter(pl, s, a, l)[q].node
    ensures QueueAfter(pl, s, a, l)[p].slice < QueueAfter(pl, s, a, l)[q].slice
  {
    var before, after := Lane(s, l), QueueAfter(pl, s, a, l);
    if a == PollDma(l) {
      assert after[p] == before[p + 1] && after[q] == before[q + 1];
    } else {
      assert after[p] == before[p] && QueuedOk(pl, s, l, before[p]);
    }
  }

  lemma KeepsLaneOrder(pl: Plan, s: State, a: Action, l: nat, p: nat, q: nat)
    requires Shaped(pl, s) && QueuesOk(pl, s) && Enabled(pl, s, a)
    requires p < q < |Lane(Next(pl, s, a), l)|
    requires Lane(Next(pl, s, a), l)[p].node == Lane(Next(pl, s, a), l)[q].node
    ensures Lane(Next(pl, s, a), l)[p].slice < Lane(Next(pl, s, a), l)[q].slice
  {
    QueueIs(pl, s, a, l);
    OrderAfter(pl, s, a, l, p, q);
  }

  lemma InFlightAfter(pl: Plan, s: State, a: Action, i: nat, sc: nat)
    requires Shaped(pl, s) && OwingOk(pl, s) && OrderOk(pl, s) && QueuesOk(pl, s) && LoggedOk(pl, s)
    requires WellSliced(pl) && Enabled(pl, s, a) && i < |pl.nodes| && pl.nodes[i].op != H2H
    requires WrittenAfter(pl, s, a, i) <= sc < NextAfter(s, a, i)
    ensures Contains(QueueAfter(pl, s, a, pl.lane[i]), Job(i, sc))
  {
    var l := pl.lane[i];
    var before, after := Lane(s, l), QueueAfter(pl, s, a, l);
    if a == Submit(i) && sc == s.next[i] {
      CopiesEverySlice(pl, i, sc);
      assert after[|before|] == Job(i, sc);
    } else {
      assert Contains(before, Job(i, sc));
      var p :| 0 <= p < |before| && before[p] == Job(i, sc);
      if a == PollDma(l) {
        HeadIsNext(pl, s, l);
        assert after[p - 1] == Job(i, sc);
      } else {
        assert after[p] == Job(i, sc);
      }
    }
  }

  lemma KeepsInFlightQueued(pl: Plan, s: State, a: Action, i: nat, sc: nat)
    requires Shaped(pl, s) && OwingOk(pl, s) && OrderOk(pl, s) && QueuesOk(pl, s) && LoggedOk(pl, s)
    requires WellSliced(pl) && Enabled(pl, s, a) && i < |pl.nodes| && pl.nodes[i].op != H2H
    requires Written(pl, Next(pl, s, a), i) <= sc < Next(pl, s, a).next[i]
    ensures Contains(Lane(Next(pl, s, a), pl.lane[i]), Job(i, sc))
  {
    QueueIs(pl, s, a, pl.lane[i]);
    NextIs(pl, s, a, i);
    WrittenIs(pl, s, a, i);
    InFlightAfter(pl, s, a, i, sc);
  }

  lemma KeepsQueues(pl: Plan, s: State, a: Action)
    requires Shaped(pl, s) && OwingOk(pl, s) && OrderOk(pl, s) && QueuesOk(pl, s) && LoggedOk(pl, s)
    requires WellSliced(pl) && Enabled(pl, s, a)
    ensures QueuesOk(pl, Next(pl, s, a))
  {
    var s' := Next(pl, s, a);
    forall l, p | 0 <= p < |Lane(s', l)| ensures QueuedOk(pl, s', l, Lane(s', l)[p]) {
      KeepsQueued(pl, s, a, l, p);
    }
    forall l, p, q | 0 <= p < q < |Lane(s', l)| && Lane(s', l)[p].node == Lane(s', l)[q].node
      ensures Lane(s', l)[p].slice < Lane(s', l)[q].slice
    {
      KeepsLaneOrder(pl, s, a, l, p, q);
    }
    forall i, sc: nat | 0 <= i < |pl.nodes| && pl.nodes[i].op != H2H && Written(pl, s', i) <= sc < s'.next[i]
      ensures Contains(Lane(s', pl.lane[i]), Job(i, sc))
    {
      KeepsInFlightQueued(pl, s, a, i, sc);
    }
  }

  lemma LogIs(pl: Plan, s: State, a: Action)
    requires Shaped(pl, s) && Enabled(pl, s, a)
    ensures Next(pl, s, a).log == s.log + match Performed(pl, s, a) case Some(job) => [job] case None => []
  {
  }

  lemma LogHolds(pl: Plan, s: State, a: Action, job: Job)
    requires Shaped(pl, s) && Enabled(pl, s, a)
    ensures Contains(Next(pl, s, a).log, job) <==> Contains(s.log, job) || Performed(pl, s, a) == Some(job)
  {
    LogIs(pl, s, a);
    var log' := Next(pl, s, a).log;
    if Performed(pl, s, a) == Some(job) {
      assert log'[|s.log|] == job;
    } else if Contains(s.log, job) {
      var p :| 0 <= p < |s.log| && s.log[p] == job;
      assert log'[p] == job;
    }
  }

  lemma KeepsLogEntries(pl: Plan, s: State, a: Action, p: nat)
    requires Shaped(pl, s) && OrderOk(pl, s) && QueuesOk(pl, s) && LoggedOk(pl, s)
    requires WellSliced(pl) && Enabled(pl, s, a) && p < |Next(pl, s, a).log|
    ensures var s' := Next(pl, s, a);
      s'.log[p].node < |pl.nodes| && s'.log[p].slice < s'.next[s'.log[p].node]
  {
    var s' := Next(pl, s, a);
    LogIs(pl, s, a);
    var i := s'.log[p].node;
    if p < |s.log| {
      assert s.log[p] == s'.log[p];
    } else if a.Execute? {
      ExecutesMovingSlices(pl, s, a.job);
    }
    NextIs(pl, s, a, i);
  }

  lemma PendingIs(pl: Plan, s: State, a: Action, job: Job)
    requires Shaped(pl, s) && Enabled(pl, s, a) && job in Next(pl, s, a).pending
    ensures job in s.pending || a == MarkH2H(job)
    ensures a.PublishH2H? ==> job != Job(a.node, s.completed[a.node])
  {
  }

  lemma PublishedPast(pl: Plan, s: State, a: Action, job: Job)
    requires Shaped(pl, s) && OwingOk(pl, s) && OrderOk(pl, s) && QueuesOk(pl, s) && LoggedOk(pl, s)
    requires WellSliced(pl) && Enabled(pl, s, a) && job in s.pending && Published(pl, s, a).Some?
    requires a.PublishH2H? ==> job != Job(a.node, s.completed[a.node])
    ensures Published(pl, s, a).value != job
  {
    var q :| 0 <= q < |s.log| && s.log[q] == job;
    PublishesInOrder(pl, s, a);
    PublishedH2H(pl, s, a);
  }

  lemma PendingAfter(pl: Plan, s: State, a: Action, job: Job)
    requires Shaped(pl, s) && OwingOk(pl, s) && OrderOk(pl, s) && QueuesOk(pl, s) && LoggedOk(pl, s)
    requires WellSliced(pl) && Enabled(pl, s, a) && job in s.pending
    requires a.PublishH2H? ==> job != Job(a.node, s.completed[a.node])
    ensures job.node < |pl.nodes| && WrittenAfter(pl, s, a, job.node) <= job.slice
  {
    if Published(pl, s, a).Some? {
      PublishedPast(pl, s, a, job);
      PublishesInOrder(pl, s, a);
    }
  }

  lemma KeepsPending(pl: Plan, s: State, a: Action, job: Job)
    requires Shaped(pl, s) && OwingOk(pl, s) && OrderOk(pl, s) && QueuesOk(pl, s) && LoggedOk(pl, s)
    requires WellSliced(pl) && Enabled(pl, s, a) && job in Next(pl, s, a).pending
    ensures var s' := Next(pl, s, a);
      job.node < |pl.nodes| && Contains(s'.log, job) && Written(pl, s', job.node) <= job.slice
      && pl.nodes[job.node].op == H2H
  {
    PendingIs(pl, s, a, job);
    LogHolds(pl, s, a, job);
    WrittenIs(pl, s, a, job.node);
    if a != MarkH2H(job) {
      PendingAfter(pl, s, a, job);
    }
  }

  lemma LoggedAfter(pl: Plan, s: State, a: Action, i: nat, sc: nat)
    requires Shaped(pl, s) && OwingOk(pl, s) && OrderOk(pl, s) && QueuesOk(pl, s) && LoggedOk(pl, s)
    requires WellSliced(pl) && Enabled(pl, s, a) && i < |pl.nodes| && sc < WrittenAfter(pl, s, a, i)
    ensures Contains(s.log, Job(i, sc)) || Performed(pl, s, a) == Some(Job(i, sc))
  {
    if Published(pl, s, a).Some? {
      PublishesInOrder(pl, s, a);
    }
  }

  lemma KeepsLogged(pl: Plan, s: State, a: Action)
    requires Shaped(pl, s) && OwingOk(pl, s) && OrderOk(pl, s) && QueuesOk(pl, s) && LoggedOk(pl, s)
    requires WellSliced(pl) && Enabled(pl, s, a)
    ensures LoggedOk(pl, Next(pl, s, a))
  {
    var s' := Next(pl, s, a);
    forall p | 0 <= p < |s'.log|
      ensures s'.log[p].node < |pl.nodes| && s'.log[p].slice < s'.next[s'.log[p].node]
    {
      KeepsLogEntries(pl, s, a, p);
    }
    forall i, sc: nat | 0 <= i < |pl.nodes| && sc < Written(pl, s', i)
      ensures Contains(s'.log, Job(i, sc))
    {
      WrittenIs(pl, s, a, i);
      LoggedAfter(pl, s, a, i, sc);
      LogHolds(pl, s, a, Job(i, sc));
    }
    forall job | job in s'.pending
      ensures job.node < |pl.nodes| && Contains(s'.log, job) && Written(pl, s', job.node) <= job.slice
      ensures pl.nodes[job.node].op == H2H
    {
      KeepsPending(pl, s, a, job);
    }
  }

  lemma PublishedH2H(pl: Plan, s: State, a: Action)
    requires Shaped(pl, s) && QueuesOk(pl, s) && WellSliced(pl) && Enabled(pl, s, a) && Published(pl, s, a).Some?
    requires Published(pl, s, a).value.node < |pl.nodes|
    ensures var job := Published(pl, s, a).value;
      Moves(pl.nodes[job.node]) && pl.nodes[job.node].op == H2H ==>
        a == PublishH2H(job.node) && job !in Next(pl, s, a).pending
  {
    match a {
      case Submit(i) => CopiesEverySlice(pl, i, s.next[i]);
      case PollDma(l) => assert QueuedOk(pl, s, l, Lane(s, l)[0]);
      case PublishH2H(i) =>
    }
  }

  lemma ExecutesMovingSlices(pl: Plan, s: State, job: Job)
    requires Shaped(pl, s) && OrderOk(pl, s) && QueuesOk(pl, s) && WellSliced(pl) && CanExecute(pl, s, job)
    ensures Moves(pl.nodes[job.node]) && Written(pl, s, job.node) <= job.slice < s.next[job.node]
  {
    if pl.nodes[job.node].op == H2H {
      CopiesEverySlice(pl, job.node, job.slice);
    } else {
      var l := pl.lane[job.node];
      var p :| 0 <= p < |Lane(s, l)| && Lane(s, l)[p] == job;
      assert QueuedOk(pl, s, l, Lane(s, l)[p]);
    }
  }

  lemma KeepsInv(pl: Plan, s: State, a: Action)
    requires WellFormed(pl) && WellSliced(pl) && Inv(pl, s) && Enabled(pl, s, a)
    ensures Inv(pl, Next(pl, s, a))
  {
    if Published(pl, s, a).Some? { PublishesInOrder(pl, s, a); }
    CountersGrow(pl, s, a);
    KeepsOwing(pl, s, a);
    KeepsOrder(pl, s, a);
    KeepsWp(pl, s, a);
    KeepsRd(pl, s, a);
    KeepsWaits(pl, s, a);
    KeepsWindow(pl, s, a);
    KeepsQueues(pl, s, a);
    KeepsLogged(pl, s, a);
  }

  lemma {:induction false} ReachesInv(pl: Plan, steps: seq<Action>, s: State)
    requires WellFormed(pl) && WellSliced(pl) && Reaches(pl, steps, s)
    ensures Inv(pl, s)
    decreases |steps|
  {
    if |steps| > 0 {
      var n := |steps| - 1;
      var s0 :| Reaches(pl, steps[..n], s0) && Shaped(pl, s0)
        && Enabled(pl, s0, steps[n]) && s == Next(pl, s0, steps[n]);
      ReachesInv(pl, steps[..n], s0);
      KeepsInv(pl, s0, steps[n]);
    }
  }
}
