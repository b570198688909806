/** One rank's executor as the object it is: it reads and advances the shared counters, keeps its
    nodes' positions, its lanes and its out-of-order completions, and every call of it amounts to
    steps of the step system in `Executor`. */
module RankExecutor {
  import opened Ir
  import opened Graphs
  import opened Executor
  import opened Safety

  // ---- What a call amounts to ----

  /** The write of `job` is published, then its read is released. */
  function Released(pl: Plan, s: State, job: Job): State
    requires Shaped(pl, s) && job.node < |pl.nodes|
  {
    AdvanceReaders(AdvanceWrite(s, pl.nodes[job.node].output, job.slice + 1), pl.nodes[job.node].inputs, job.slice + 1)
      .(completed := s.completed[job.node := s.completed[job.node] + 1])
  }

  lemma {:induction false} ReadersIgnoreOwing(s: State, inputs: seq<NodeInput>, v: nat, owing: map<nat, Job>)
    ensures AdvanceReaders(s.(owing := owing), inputs, v) == AdvanceReaders(s, inputs, v).(owing := owing)
  {
    if |inputs| > 0 {
      ReadersIgnoreOwing(s, inputs[..|inputs| - 1], v, owing);
    }
  }

  lemma ReleasedIsTwoSteps(pl: Plan, s: State, job: Job)
    requires Shaped(pl, s) && job.node < |pl.nodes| && pl.nodes[job.node].rank !in s.owing
    ensures var r := pl.nodes[job.node].rank;
      var published := PublishWrite(pl, s, job);
      Enabled(pl, published, PublishRead(r)) && Next(pl, published, PublishRead(r)) == Released(pl, s, job)
  {
    var r := pl.nodes[job.node].rank;
    var nd := pl.nodes[job.node];
    var written := AdvanceWrite(s, nd.output, job.slice + 1);
    ReadersIgnoreOwing(written, nd.inputs, job.slice + 1, s.owing[r := job]);
    assert s.owing[r := job] - {r} == s.owing;
  }

  /** Submitting node `i`; a slice with nothing to move is released at once. */
  function AfterSubmit(pl: Plan, s: State, i: nat): State
    requires Shaped(pl, s) && CanSubmit(pl, s, i)
  {
    var job := Job(i, s.next[i]);
    if RouteOf(pl, s, i, s.next[i]) == Immediate
    then Released(pl, s.(next := s.next[i := s.next[i] + 1], log := s.log + [job]), job)
    else Next(pl, s, Submit(i))
  }

  lemma ImmediateIsPublish(pl: Plan, s: State, i: nat)
    requires Shaped(pl, s) && CanSubmit(pl, s, i) && RouteOf(pl, s, i, s.next[i]) == Immediate
    ensures var job := Job(i, s.next[i]);
      Next(pl, s, Submit(i)) == PublishWrite(pl, s.(next := s.next[i := s.next[i] + 1], log := s.log + [job]), job)
  {
  }

  lemma SubmitIsSteps(pl: Plan, s: State, i: nat)
    requires |pl.lane| == |pl.nodes| && Shaped(pl, s) && CanSubmit(pl, s, i) && Reachable(pl, s)
    ensures Reachable(pl, AfterSubmit(pl, s, i))
  {
    Extend(pl, s, Submit(i));
    if RouteOf(pl, s, i, s.next[i]) == Immediate {
      ImmediateIsPublish(pl, s, i);
      ThenRelease(pl, s.(next := s.next[i := s.next[i] + 1], log := s.log + [Job(i, s.next[i])]), Job(i, s.next[i]));
    }
  }

  lemma ThenRelease(pl: Plan, s: State, job: Job)
    requires |pl.lane| == |pl.nodes| && Shaped(pl, s) && job.node < |pl.nodes| && pl.nodes[job.node].rank !in s.owing
    requires Reachable(pl, PublishWrite(pl, s, job))
    ensures Reachable(pl, Released(pl, s, job))
  {
    ReleasedIsTwoSteps(pl, s, job);
    Extend(pl, PublishWrite(pl, s, job), PublishRead(pl.nodes[job.node].rank));
  }

  function AfterPoll(pl: Plan, s: State, l: nat): State
    requires Shaped(pl, s) && CanPollDma(pl, s, l)
  {
    Released(pl, s.(lanes := s.lanes[l := Lane(s, l)[1..]]), Lane(s, l)[0])
  }

  lemma PollIsSteps(pl: Plan, s: State, l: nat)
    requires |pl.lane| == |pl.nodes| && Shaped(pl, s) && CanPollDma(pl, s, l) && Reachable(pl, s)
    ensures Reachable(pl, AfterPoll(pl, s, l))
  {
    Extend(pl, s, PollDma(l));
    ReleasedIsTwoSteps(pl, s.(lanes := s.lanes[l := Lane(s, l)[1..]]), Lane(s, l)[0]);
    Extend(pl, Next(pl, s, PollDma(l)), PublishRead(pl.nodes[Lane(s, l)[0].node].rank));
  }

  /** Polling a lane until its oldest copy is still under way. */
  function DrainLane(pl: Plan, s: State, l: nat): (s': State)
    requires Shaped(pl, s)
    ensures Shaped(pl, s')
    decreases |Lane(s, l)|
  {
    if CanPollDma(pl, s, l) then DrainLane(pl, AfterPoll(pl, s, l), l) else s
  }

  function AfterH2H(pl: Plan, s: State, i: nat): State
    requires Shaped(pl, s) && i < |pl.nodes|
  {
    var job := Job(i, s.completed[i]);
    Released(pl, s.(pending := s.pending - {job}), job)
  }

  /** Publishing the contiguous run of finished slices of `i`. */
  function DrainH2H(pl: Plan, s: State, i: nat): (s': State)
    requires Shaped(pl, s) && i < |pl.nodes|
    ensures Shaped(pl, s')
    decreases |s.pending|
  {
    if Job(i, s.completed[i]) in s.pending then DrainH2H(pl, AfterH2H(pl, s, i), i) else s
  }

  lemma H2HIsSteps(pl: Plan, s: State, i: nat)
    requires |pl.lane| == |pl.nodes| && Shaped(pl, s) && i < |pl.nodes| && Job(i, s.completed[i]) in s.pending
    requires pl.nodes[i].rank !in s.owing && Reachable(pl, s)
    ensures Reachable(pl, AfterH2H(pl, s, i))
  {
    var job := Job(i, s.completed[i]);
    Extend(pl, s, PublishH2H(i));
    ReleasedIsTwoSteps(pl, s.(pending := s.pending - {job}), job);
    Extend(pl, Next(pl, s, PublishH2H(i)), PublishRead(pl.nodes[i].rank));
  }

  /** Whatever a poll of a lane or a batch of completions publishes is a run of the step system. */
  lemma {:induction false} DrainLaneIsSteps(pl: Plan, s: State, l: nat)
    requires |pl.lane| == |pl.nodes| && Shaped(pl, s) && Reachable(pl, s)
    ensures Reachable(pl, DrainLane(pl, s, l))
    decreases |Lane(s, l)|
  {
    if CanPollDma(pl, s, l) {
      PollIsSteps(pl, s, l);
      DrainLaneIsSteps(pl, AfterPoll(pl, s, l), l);
    }
  }

  lemma {:induction false} DrainH2HIsSteps(pl: Plan, s: State, i: nat)
    requires |pl.lane| == |pl.nodes| && Shaped(pl, s) && i < |pl.nodes| && Reachable(pl, s)
    requires pl.nodes[i].rank !in s.owing
    ensures Reachable(pl, DrainH2H(pl, s, i))
    decreases |s.pending|
  {
    if Job(i, s.completed[i]) in s.pending {
      H2HIsSteps(pl, s, i);
      DrainH2HIsSteps(pl, AfterH2H(pl, s, i), i);
    }
  }

  /** Marking a finished host-to-host copy, then publishing the run it completes. */
  function AfterCompletion(pl: Plan, s: State, job: Job): State
    requires Shaped(pl, s) && Enabled(pl, s, MarkH2H(job))
  {
    DrainH2H(pl, Next(pl, s, MarkH2H(job)), job.node)
  }

  lemma CompletionIsSteps(pl: Plan, s: State, job: Job)
    requires |pl.lane| == |pl.nodes| && Shaped(pl, s) && Reachable(pl, s) && Enabled(pl, s, MarkH2H(job))
    ensures Reachable(pl, AfterCompletion(pl, s, job))
  {
    Extend(pl, s, MarkH2H(job));
    DrainH2HIsSteps(pl, Next(pl, s, MarkH2H(job)), job.node);
  }

  // ---- Steps of the other ranks and of the hardware ----

  /** Whose step it is; copies are performed by the hardware. */
  function Actor(pl: Plan, s: State, a: Action): Option<nat>
    requires Shaped(pl, s) && Enabled(pl, s, a)
  {
    match a
    case PublishInputs(r) => Some(r)
    case Submit(i) => Some(pl.nodes[i].rank)
    case Execute(_) => None
    case PollDma(l) => Some(pl.nodes[Lane(s, l)[0].node].rank)
    case MarkH2H(job) => Some(pl.nodes[job.node].rank)
    case PublishH2H(i) => Some(pl.nodes[i].rank)
    case PublishRead(r) => Some(r)
  }

  /** No node of another rank uses this lane. */
  predicate LaneOf(pl: Plan, l: nat, rank: nat) {
    forall j :: 0 <= j < |pl.nodes| && j < |pl.lane| && pl.lane[j] == l ==> pl.nodes[j].rank == rank
  }

  // What a rank knows of its own lanes and nodes is not touched by anyone else.

  lemma OthersKeepLane(pl: Plan, s: State, a: Action, rank: nat, l: nat)
    requires Shaped(pl, s) && QueuesOk(pl, s) && Enabled(pl, s, a) && Actor(pl, s, a) != Some(rank)
    requires LaneOf(pl, l, rank)
    ensures Lane(Next(pl, s, a), l) == Lane(s, l)
  {
    QueueIs(pl, s, a, l);
  }

  lemma OthersKeepCounts(pl: Plan, s: State, a: Action, rank: nat, i: nat)
    requires Shaped(pl, s) && OwingOk(pl, s) && Enabled(pl, s, a) && Actor(pl, s, a) != Some(rank)
    requires i < |pl.nodes| && pl.nodes[i].rank == rank
    ensures Next(pl, s, a).next[i] == s.next[i] && Next(pl, s, a).completed[i] == s.completed[i]
  {
    NextIs(pl, s, a, i);
    CompletedIs(pl, s, a, i);
  }

  lemma OthersKeepLanes(pl: Plan, s: State, a: Action, rank: nat)
    requires Shaped(pl, s) && QueuesOk(pl, s) && Enabled(pl, s, a) && Actor(pl, s, a) != Some(rank)
    ensures forall l :: LaneOf(pl, l, rank) ==> Lane(Next(pl, s, a), l) == Lane(s, l)
  {
    forall l | LaneOf(pl, l, rank) ensures Lane(Next(pl, s, a), l) == Lane(s, l) {
      OthersKeepLane(pl, s, a, rank, l);
    }
  }

  /** So a rank's own counts still agree with the world's. */
  lemma OthersKeepAllCounts(pl: Plan, s: State, s': State, a: Action, rank: nat, next: seq<nat>, completed: seq<nat>)
    requires Shaped(pl, s) && OwingOk(pl, s) && Enabled(pl, s, a) && Actor(pl, s, a) != Some(rank)
    requires s' == Next(pl, s, a) && Shaped(pl, s') && |next| == |completed| == |pl.nodes|
    requires forall i :: 0 <= i < |pl.nodes| && pl.nodes[i].rank == rank ==>
      next[i] == s.next[i] && completed[i] == s.completed[i]
    ensures forall i :: 0 <= i < |pl.nodes| && pl.nodes[i].rank == rank ==>
      next[i] == s'.next[i] && completed[i] == s'.completed[i]
  {
    forall i | 0 <= i < |pl.nodes| && pl.nodes[i].rank == rank
      ensures s'.next[i] == s.next[i] && s'.completed[i] == s.completed[i]
    {
      OthersKeepCounts(pl, s, a, rank, i);
    }
  }

  lemma OthersKeepPending(pl: Plan, s: State, a: Action, rank: nat)
    requires Shaped(pl, s) && Enabled(pl, s, a) && Actor(pl, s, a) != Some(rank)
    ensures forall i, sc: nat :: 0 <= i < |pl.nodes| && pl.nodes[i].rank == rank ==>
      (Job(i, sc) in Next(pl, s, a).pending <==> Job(i, sc) in s.pending)
  {
  }

  lemma OthersKeepTurn(pl: Plan, s: State, a: Action, rank: nat)
    requires Shaped(pl, s) && Enabled(pl, s, a) && Actor(pl, s, a) != Some(rank)
    requires rank in s.published && rank !in s.owing
    ensures rank in Next(pl, s, a).published && rank !in Next(pl, s, a).owing
  {
  }

  // ---- The shared counters ----

  class SharedState {
    var wp: map<Key, nat>
    var rd: map<(Key, nat), nat>

    constructor ()
      ensures wp == map[] && rd == map[]
    {
      wp, rd := map[], map[];
    }

    ghost predicate Holds(s: State)
      reads this
    {
      wp == s.wp && rd == s.rd
    }

    /** The input chunks of one rank are complete from the start. */
    method PublishInitial(ready: seq<Key>, slices: nat)
      requires forall k :: k in ready ==> k.version == 0
      modifies this`wp
      ensures forall k :: k in wp <==> k in old(wp) || k in ready
      ensures forall k :: k in wp ==> wp[k] == if k in ready then slices else old(wp)[k]
    {
      for c := 0 to |ready|
        invariant forall k :: k in wp <==> k in old(wp) || k in ready[..c]
        invariant forall k :: k in wp ==> wp[k] == if k in ready[..c] then slices else old(wp)[k]
      {
        assert ready[c] in ready && Slot(ready[c]) == ready[c];
        wp := wp[Slot(ready[c]) := slices];
      }
      assert ready[..|ready|] == ready;
    }

    method GetWriteProgress(k: Key, ghost s: State) returns (v: nat)
      requires Holds(s)
      ensures v == Wp(s, k)
    {
      v := if Slot(k) in wp then wp[Slot(k)] else 0;
    }

    method GetReaderDone(k: Key, reader: nat, ghost s: State) returns (v: nat)
      requires Holds(s)
      ensures v == Rd(s, k, reader)
    {
      v := if (Slot(k), reader) in rd then rd[(Slot(k), reader)] else 0;
    }

    /** The slowest of `n` readers. */
    method GetConsumeProgress(k: Key, n: nat, ghost s: State) returns (v: nat)
      requires Holds(s) && n > 0
      ensures v == MinRd(s, k, n)
    {
      v := GetReaderDone(k, 0, s);
      var r := 1;
      while r < n
        invariant 1 <= r <= n && v == MinRd(s, k, r)
      {
        var done := GetReaderDone(k, r, s);
        v := Min(v, done);
        r := r + 1;
      }
    }

    method AdvanceWriteProgress(k: Key, v: nat, ghost s: State)
      requires Holds(s)
      modifies this`wp
      ensures Holds(AdvanceWrite(s, k, v))
    {
      var before := GetWriteProgress(k, s);
      wp := wp[Slot(k) := Max(before, v)];
    }

    method AdvanceReaderDone(k: Key, reader: nat, v: nat, ghost s: State)
      requires Holds(s)
      modifies this`rd
      ensures Holds(AdvanceReader(s, k, reader, v))
    {
      var before := GetReaderDone(k, reader, s);
      rd := rd[(Slot(k), reader) := Max(before, v)];
    }
  }

  // ---- The executor ----

  lemma InitialCounters(pl: Plan, w: State, rank: nat, ready: seq<Key>, wp: map<Key, nat>)
    requires Shaped(pl, w) && Enabled(pl, w, PublishInputs(rank))
    requires forall k :: k in ready <==> k.version == 0 && k.base in pl.inputs && k.base.owner == rank
    requires forall k :: k in wp <==> k in w.wp || k in ready
    requires forall k :: k in wp ==> wp[k] == if k in ready then pl.slices else w.wp[k]
    ensures wp == Next(pl, w, PublishInputs(rank)).wp
  {
    forall k ensures k in Next(pl, w, PublishInputs(rank)).wp <==> k in w.wp || k in ready {
      assert k == Key(k.base, k.version);
    }
  }

  class GraphExecutor {
    const pl: Plan
    const rank: nat
    const shared: SharedState
    const next: array<nat>
    const completed: array<nat>
    var lanes: map<nat, seq<Job>>
    var pending: set<Job>
    /** What all ranks and the copy hardware have done so far. */
    ghost var world: State

    /** Lanes belong to one rank each. */
    ghost predicate OwnLane(l: nat) {
      LaneOf(pl, l, rank)
    }

    ghost predicate LanesHold()
      reads this
    {
      && (forall i :: 0 <= i < |pl.nodes| && i < |pl.lane| && pl.nodes[i].rank == rank ==>
            OwnLane(pl.lane[i]) && Queue(pl.lane[i]) == Lane(world, pl.lane[i]))
      && (forall i, sc: nat :: 0 <= i < |pl.nodes| && pl.nodes[i].rank == rank ==>
            (Job(i, sc) in pending <==> Job(i, sc) in world.pending))
    }

    ghost predicate Valid()
      reads this, shared, next, completed
    {
      && next != completed && Shaped(pl, world) && shared.Holds(world)
      && next.Length == completed.Length == |pl.nodes|
      && (forall i :: 0 <= i < |pl.nodes| && pl.nodes[i].rank == rank ==>
            next[i] == world.next[i] && completed[i] == world.completed[i])
      && LanesHold()
      && rank in world.published && rank !in world.owing
    }

    /** Starts a work: publishes the rank's input chunks, whole, and has submitted nothing yet. */
    constructor (pl: Plan, rank: nat, shared: SharedState, ready: seq<Key>, ghost w: State)
      requires Shaped(pl, w) && shared.Holds(w) && Enabled(pl, w, PublishInputs(rank)) && rank !in w.owing
      requires forall k :: k in ready <==> k.version == 0 && k.base in pl.inputs && k.base.owner == rank
      requires forall i :: 0 <= i < |pl.nodes| && pl.nodes[i].rank == rank ==> w.next[i] == 0 == w.completed[i]
      requires forall i :: 0 <= i < |pl.nodes| && pl.nodes[i].rank == rank ==> Lane(w, pl.lane[i]) == []
      requires forall i, sc: nat :: 0 <= i < |pl.nodes| && pl.nodes[i].rank == rank ==> Job(i, sc) !in w.pending
      requires forall i, j ::
               0 <= i < |pl.nodes| && 0 <= j < |pl.nodes| && pl.nodes[i].rank == rank && pl.lane[i] == pl.lane[j] ==>
                 pl.nodes[j].rank == rank
      modifies shared
      ensures Valid() && this.pl == pl && this.rank == rank && this.shared == shared
      ensures world == Next(pl, w, PublishInputs(rank))
      ensures fresh(next) && fresh(completed)
    {
      this.pl, this.rank, this.shared := pl, rank, shared;
      next := new nat[|pl.nodes|](i => 0);
      completed := new nat[|pl.nodes|](i => 0);
      lanes, pending := map[], {};
      world := Next(pl, w, PublishInputs(rank));
      new;
      shared.PublishInitial(ready, pl.slices);
      InitialCounters(pl, w, rank, ready, shared.wp);
    }

    function Queue(l: nat): seq<Job>
      reads this
    {
      if l in lanes then lanes[l] else []
    }

    predicate Own(i: nat) {
      i < |pl.nodes| && pl.nodes[i].rank == rank
    }

    method InputsReady(i: nat, sc: nat) returns (ready: bool)
      requires Valid() && Own(i)
      ensures ready == Executor.InputsReady(world, pl.nodes[i], sc)
    {
      var inputs := pl.nodes[i].inputs;
      for q := 0 to |inputs|
        invariant forall j :: 0 <= j < q ==> Wp(world, inputs[j].key) >= sc + 1
      {
        var write := shared.GetWriteProgress(inputs[q].key, world);
        if write < sc + 1 { return false; }
      }
      return true;
    }

    method OverwriteReady(i: nat, sc: nat) returns (ready: bool)
      requires Valid() && Own(i)
      ensures ready == Executor.OverwriteReady(pl, world, pl.nodes[i], sc)
    {
      match pl.nodes[i].guard {
        case None => return true;
        case Some(g) =>
          if g.version > 0 {
            var write := shared.GetWriteProgress(g, world);
            if write < sc + 1 { return false; }
          }
          var readers := NumReaders(pl, g);
          if readers == 0 { return true; }
          var consumed := shared.GetConsumeProgress(g, readers, world);
          return consumed >= sc + 1;
      }
    }

    method LeadBlocked(i: nat, sc: nat) returns (blocked: bool)
      requires Valid() && Own(i)
      ensures blocked == Executor.LeadBlocked(pl, world, pl.nodes[i], sc)
    {
      var nd := pl.nodes[i];
      if rank !in pl.windowed || nd.op != D2H || NumReaders(pl, nd.output) == 0 { return false; }
      var consumed := shared.GetConsumeProgress(nd.output, NumReaders(pl, nd.output), world);
      return sc >= consumed + D2H_LEAD_WINDOW;
    }

    /** Publishes that slice `sc` of `i` is written, then that its inputs have been read. */
    method Publish(i: nat, sc: nat, ghost s: State)
      requires Own(i) && Shaped(pl, s) && shared.Holds(s)
      requires completed.Length == |pl.nodes| && completed[i] == s.completed[i]
      modifies shared, completed
      ensures shared.Holds(Released(pl, s, Job(i, sc)))
      ensures forall j :: 0 <= j < |pl.nodes| && j != i ==> completed[j] == old(completed[j])
      ensures completed[i] == s.completed[i] + 1
    {
      var nd := pl.nodes[i];
      shared.AdvanceWriteProgress(nd.output, sc + 1, s);
      ghost var written := AdvanceWrite(s, nd.output, sc + 1);
      assert nd.inputs[..0] == [];
      for q := 0 to |nd.inputs|
        invariant shared.Holds(AdvanceReaders(written, nd.inputs[..q], sc + 1))
        invariant completed[..] == old(completed[..])
      {
        assert nd.inputs[..q + 1][..q] == nd.inputs[..q];
        if nd.inputs[q].readerId >= 0 {
          shared.AdvanceReaderDone(nd.inputs[q].key, nd.inputs[q].readerId, sc + 1,
                                   AdvanceReaders(written, nd.inputs[..q], sc + 1));
        }
      }
      assert nd.inputs[..|nd.inputs|] == nd.inputs;
      completed[i] := completed[i] + 1;
    }

    /** What becomes of a ready slice. */
    method Route(i: nat, sc: nat) returns (route: Executor.Route)
      requires Valid() && Own(i)
      ensures route == RouteOf(pl, world, i, sc)
    {
      var nd := pl.nodes[i];
      if SliceBytes(nd, sc) == 0 { return Immediate; }
      var blocked := LeadBlocked(i, sc);
      if blocked { return Blocked; }
      if nd.op == H2H { return if SameChunk(nd) then Immediate else ToEngine; }
      assert Queue(pl.lane[i]) == Lane(world, pl.lane[i]);
      if |Queue(pl.lane[i])| >= EVENT_RING_CAPACITY { return Blocked; }
      return if nd.op == D2D && SameChunk(nd) then Immediate else ToLane;
    }

    /** Hands the slice to the copy engine or queues it on its lane. */
    method HandOver(i: nat, sc: nat, route: Executor.Route)
      requires Valid() && Own(i) && sc == next[i] && CanSubmit(pl, world, i)
      requires route == RouteOf(pl, world, i, sc) && route in {ToEngine, ToLane}
      modifies this`lanes, this`world, next
      ensures Valid() && world == AfterSubmit(pl, old(world), i)
    {
      if route == ToLane {
        var l := pl.lane[i];
        lanes := lanes[l := Queue(l) + [Job(i, sc)]];
      }
      next[i] := sc + 1;
      world := Next(pl, world, Submit(i));
    }

    /** Tries to submit the next slice of node `i`. It is submitted exactly when the step system
        allows it, and then the world takes exactly that step. */
    method TrySubmitNode(i: nat) returns (submitted: bool)
      requires Valid() && Own(i)
      modifies this`lanes, this`world, shared, next, completed
      ensures Valid()
      ensures submitted == old(CanSubmit(pl, world, i))
      ensures world == if submitted then AfterSubmit(pl, old(world), i) else old(world)
    {
      if next[i] >= pl.slices { return false; }
      var sc := next[i];
      var inputs := InputsReady(i, sc);
      if !inputs { return false; }
      var overwrite := OverwriteReady(i, sc);
      if !overwrite { return false; }
      var route := Route(i, sc);
      if route == Blocked { return false; }
      if route == Immediate {
        SubmitImmediate(i, sc);
      } else {
        HandOver(i, sc, route);
      }
      return true;
    }

    /** Nothing to move: publish and release at once. */
    method SubmitImmediate(i: nat, sc: nat)
      requires Valid() && Own(i) && sc == next[i] && CanSubmit(pl, world, i) && RouteOf(pl, world, i, sc) == Immediate
      modifies this`world, shared, next, completed
      ensures Valid() && world == AfterSubmit(pl, old(world), i)
    {
      ghost var job := Job(i, sc);
      ghost var handed := world.(next := world.next[i := sc + 1], log := world.log + [job]);
      Publish(i, sc, handed);
      next[i] := sc + 1;
      world := Released(pl, handed, job);
    }

    /** Retires finished copies of a lane, oldest first, until one is still under way. `finished`
        answers the event queries. */
    method PollDeviceLane(l: nat, finished: Job -> bool)
      requires Valid() && OwnLane(l) && (exists i :: 0 <= i < |pl.nodes| && Own(i) && pl.lane[i] == l)
      requires forall job :: finished(job) <==> Contains(world.log, job)
      requires forall p :: 0 <= p < |Lane(world, l)| ==> Own(Lane(world, l)[p].node)
      modifies this`lanes, this`world, shared, completed
      ensures Valid() && world == DrainLane(pl, old(world), l)
    {
      while |Queue(l)| > 0
        invariant Valid() && DrainLane(pl, world, l) == DrainLane(pl, old(world), l)
        invariant Queue(l) == Lane(world, l)
        invariant world.log == old(world).log && next[..] == old(next[..])
        invariant forall p :: 0 <= p < |Lane(world, l)| ==> Own(Lane(world, l)[p].node)
        decreases |Queue(l)|
      {
        var job := Queue(l)[0];
        if !finished(job) { break; }
        Retire(l, job);
      }
    }

    method Retire(l: nat, job: Job)
      requires Valid() && OwnLane(l) && Queue(l) == Lane(world, l) && |Queue(l)| > 0 && job == Queue(l)[0]
      requires Own(job.node) && CanPollDma(pl, world, l)
      modifies this`lanes, this`world, shared, completed
      ensures Valid() && world == AfterPoll(pl, old(world), l) && Queue(l) == Lane(world, l) == old(Queue(l))[1..]
    {
      ghost var popped := world.(lanes := world.lanes[l := Lane(world, l)[1..]]);
      lanes := lanes[l := Queue(l)[1..]];
      Publish(job.node, job.slice, popped);
      world := Released(pl, popped, job);
    }

    /** Takes in the report of a host-to-host copy that is done and publishes the contiguous run it
        makes possible. */
    method TakeCompletion(job: Job)
      requires Valid() && Own(job.node) && Enabled(pl, world, MarkH2H(job))
      modifies this`pending, this`world, shared, completed
      ensures Valid() && world == AfterCompletion(pl, old(world), job)
    {
      pending := pending + {job};
      world := Next(pl, world, MarkH2H(job));
      ghost var marked := world;
      var i := job.node;
      while Job(i, completed[i]) in pending
        invariant Valid() && DrainH2H(pl, world, i) == DrainH2H(pl, marked, i)
        invariant next[..] == old(next[..])
        decreases |world.pending|
      {
        ghost var oldPending := world.pending;
        PublishOldest(i);
        assert world.pending < oldPending;
      }
    }

    method PublishOldest(i: nat)
      requires Valid() && Own(i) && Job(i, completed[i]) in pending
      modifies this`pending, this`world, shared, completed
      ensures Valid() && world == AfterH2H(pl, old(world), i)
      ensures world.pending == old(world).pending - {Job(i, old(completed[i]))}
      ensures Job(i, old(completed[i])) in old(world).pending
    {
      var done := Job(i, completed[i]);
      pending := pending - {done};
      ghost var taken := world.(pending := world.pending - {done});
      Publish(i, done.slice, taken);
      world := Released(pl, taken, done);
    }

    /** Between its calls the other ranks and the hardware go on, and the executor stays valid: its
        own fields need not change. */
    twostate lemma OthersKeepValid(a: Action)
      requires old(Valid()) && Inv(pl, old(world))
      requires Enabled(pl, old(world), a) && Actor(pl, old(world), a) != Some(rank)
      requires world == Next(pl, old(world), a) && shared.Holds(world)
      requires lanes == old(lanes) && pending == old(pending)
      requires next[..] == old(next[..]) && completed[..] == old(completed[..])
      ensures Valid()
    {
      OthersKeepTurn(pl, old(world), a, rank);
      OthersKeepAllCounts(pl, old(world), world, a, rank, next[..], completed[..]);
      OthersKeepLanes(pl, old(world), a, rank);
      OthersKeepPending(pl, old(world), a, rank);
    }
  }
}
