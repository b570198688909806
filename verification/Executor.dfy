/** The executors of all ranks as one step system over the shared progress counters.

    Every rank owns the nodes whose `rank` it is. The shared write and reader counters are read
    and published one slice at a time; a rank's executor thread is busy between publishing a
    slice's write and publishing that it has read its input (`owing`), while other ranks and the
    copy hardware go on. DMA copies run in the FIFO order of their lane; host-to-host copies
    finish in any order. */
module Executor {
  import opened Ir
  import opened Graphs
  import opened Slices

  datatype Plan = Plan(
    world: nat, nodes: seq<Node>, lane: seq<nat>, readers: map<Key, nat>,
    inputs: set<Base>, slices: nat, windowed: set<nat>)

  /** One slice of one node. */
  datatype Job = Job(node: nat, slice: nat)

  datatype State = State(
    published: set<nat>,
    wp: map<Key, nat>, rd: map<(Key, nat), nat>,
    next: seq<nat>, completed: seq<nat>,
    lanes: map<nat, seq<Job>>, pending: set<Job>, owing: map<nat, Job>,
    log: seq<Job>)

  // ---- Shared counters ----

  /** Counters exist for `MAX_PROGRESS_VERSIONS` versions of a chunk. */
  function Slot(k: Key): Key {
    Key(k.base, k.version % MAX_PROGRESS_VERSIONS)
  }

  function Wp(s: State, k: Key): nat {
    if Slot(k) in s.wp then s.wp[Slot(k)] else 0
  }

  function Rd(s: State, k: Key, reader: nat): nat {
    if (Slot(k), reader) in s.rd then s.rd[(Slot(k), reader)] else 0
  }

  function NumReaders(pl: Plan, k: Key): nat {
    if k in pl.readers then pl.readers[k] else 0
  }

  function MinRd(s: State, k: Key, n: nat): nat
    requires n > 0
  {
    if n == 1 then Rd(s, k, 0) else Min(MinRd(s, k, n - 1), Rd(s, k, n - 1))
  }

  /** Consume progress: the slowest registered reader. */
  function Consumed(pl: Plan, s: State, k: Key): nat
    requires NumReaders(pl, k) > 0
  {
    MinRd(s, k, NumReaders(pl, k))
  }

  function AdvanceWrite(s: State, k: Key, v: nat): State {
    s.(wp := s.wp[Slot(k) := Max(Wp(s, k), v)])
  }

  function AdvanceReader(s: State, k: Key, reader: int, v: nat): State {
    if reader < 0 then s else s.(rd := s.rd[(Slot(k), reader) := Max(Rd(s, k, reader), v)])
  }

  function AdvanceReaders(s: State, inputs: seq<NodeInput>, v: nat): (s': State)
    ensures s' == s.(rd := s'.rd)
  {
    if |inputs| == 0 then s
    else
      var last := inputs[|inputs| - 1];
      AdvanceReader(AdvanceReaders(s, inputs[..|inputs| - 1], v), last.key, last.readerId, v)
  }

  // ---- Readiness ----

  function SliceBytes(nd: Node, sc: nat): nat {
    SliceSize(nd.workBytes, sc)
  }

  predicate InputsReady(s: State, nd: Node, sc: nat) {
    forall j :: 0 <= j < |nd.inputs| ==> Wp(s, nd.inputs[j].key) >= sc + 1
  }

  predicate OverwriteReady(pl: Plan, s: State, nd: Node, sc: nat) {
    match nd.guard
    case None => true
    case Some(g) =>
      && (g.version > 0 ==> Wp(s, g) >= sc + 1)
      && (NumReaders(pl, g) > 0 ==> Consumed(pl, s, g) >= sc + 1)
  }

  predicate SameChunk(nd: Node) {
    |nd.inputs| > 0 && nd.inputs[0].key.base == nd.output.base
  }

  function Lane(s: State, l: nat): seq<Job> {
    if l in s.lanes then s.lanes[l] else []
  }

  predicate LeadBlocked(pl: Plan, s: State, nd: Node, sc: nat) {
    && nd.rank in pl.windowed && nd.op == D2H && NumReaders(pl, nd.output) > 0
    && sc >= Consumed(pl, s, nd.output) + D2H_LEAD_WINDOW
  }

  datatype Route = Blocked | Immediate | ToEngine | ToLane

  /** What `trySubmitNode` does with a ready slice. */
  function RouteOf(pl: Plan, s: State, i: nat, sc: nat): Route
    requires i < |pl.nodes| == |pl.lane|
  {
    var nd := pl.nodes[i];
    if SliceBytes(nd, sc) == 0 then Immediate
    else if LeadBlocked(pl, s, nd, sc) then Blocked
    else if nd.op == H2H then (if SameChunk(nd) then Immediate else ToEngine)
    else if |Lane(s, pl.lane[i])| >= EVENT_RING_CAPACITY then Blocked
    else if nd.op == D2D && SameChunk(nd) then Immediate
    else ToLane
  }

  // ---- Steps ----

  // `log` lists the slices whose effect on memory is done, in the order it happened. A slice with
  // nothing to move is done as soon as it is submitted.

  datatype Action =
    | PublishInputs(rank: nat)
    | Submit(node: nat)
    | Execute(job: Job)
    | PollDma(lane: nat)
    | MarkH2H(job: Job)
    | PublishH2H(node: nat)
    | PublishRead(rank: nat)

  predicate Shaped(pl: Plan, s: State) {
    |pl.lane| == |pl.nodes| == |s.next| == |s.completed|
  }

  /** Slices of `i` whose write has been published in order. */
  function Written(pl: Plan, s: State, i: nat): nat
    requires Shaped(pl, s) && i < |pl.nodes|
  {
    var r := pl.nodes[i].rank;
    s.completed[i] + if r in s.owing && s.owing[r].node == i then 1 else 0
  }

  predicate CanSubmit(pl: Plan, s: State, i: nat)
    requires Shaped(pl, s)
  {
    && i < |pl.nodes|
    && var nd := pl.nodes[i];
    && nd.rank in s.published && nd.rank !in s.owing
    && s.next[i] < pl.slices
    && InputsReady(s, nd, s.next[i]) && OverwriteReady(pl, s, nd, s.next[i])
    && RouteOf(pl, s, i, s.next[i]) != Blocked
  }

  predicate Contains(q: seq<Job>, j: Job) {
    exists p :: 0 <= p < |q| && q[p] == j
  }

  /** `job` is queued in lane `l` and every copy queued before it has been executed. */
  predicate RunsNext(s: State, l: nat, job: Job) {
    exists p :: 0 <= p < |Lane(s, l)| && Lane(s, l)[p] == job &&
      forall q :: 0 <= q < p ==> Contains(s.log, Lane(s, l)[q])
  }

  /** The copy hardware or a host worker may now perform the slice's copy. */
  predicate CanExecute(pl: Plan, s: State, job: Job)
    requires Shaped(pl, s)
  {
    && job.node < |pl.nodes| && !Contains(s.log, job)
    && if pl.nodes[job.node].op == H2H
       then Written(pl, s, job.node) <= job.slice < s.next[job.node]
            && RouteIsCopy(pl.nodes[job.node], job.slice)
       else RunsNext(s, pl.lane[job.node], job)
  }

  predicate RouteIsCopy(nd: Node, sc: nat) {
    SliceBytes(nd, sc) > 0 && !(SameChunk(nd) && (nd.op == H2H || nd.op == D2D))
  }

  predicate CanPollDma(pl: Plan, s: State, l: nat)
    requires Shaped(pl, s)
  {
    && |Lane(s, l)| > 0 && Lane(s, l)[0].node < |pl.nodes|
    && Contains(s.log, Lane(s, l)[0])
    && pl.nodes[Lane(s, l)[0].node].rank !in s.owing
  }

  predicate Enabled(pl: Plan, s: State, a: Action)
    requires Shaped(pl, s)
  {
    match a
    case PublishInputs(r) => r < pl.world && r !in s.published
    case Submit(i) => CanSubmit(pl, s, i)
    case Execute(job) => CanExecute(pl, s, job)
    case PollDma(l) => CanPollDma(pl, s, l)
    case MarkH2H(job) =>
      && job.node < |pl.nodes| && pl.nodes[job.node].op == H2H
      && Contains(s.log, job) && job !in s.pending && Written(pl, s, job.node) <= job.slice
      && pl.nodes[job.node].rank !in s.owing
    case PublishH2H(i) =>
      && i < |pl.nodes| && pl.nodes[i].rank !in s.owing
      && Job(i, s.completed[i]) in s.pending
    case PublishRead(r) => r in s.owing && s.owing[r].node < |pl.nodes|
  }

  function PublishWrite(pl: Plan, s: State, job: Job): State
    requires job.node < |pl.nodes|
  {
    var nd := pl.nodes[job.node];
    AdvanceWrite(s, nd.output, job.slice + 1).(owing := s.owing[nd.rank := job])
  }

  function Submitted(pl: Plan, s: State, i: nat): State
    requires Shaped(pl, s) && i < |pl.nodes| && s.next[i] < pl.slices
  {
    var job := Job(i, s.next[i]);
    var l := pl.lane[i];
    var s' := s.(next := s.next[i := s.next[i] + 1]);
    match RouteOf(pl, s, i, s.next[i])
    case Immediate => PublishWrite(pl, s'.(log := s.log + [job]), job)
    case ToLane => s'.(lanes := s.lanes[l := Lane(s, l) + [job]])
    case _ => s'
  }

  function Next(pl: Plan, s: State, a: Action): (s': State)
    requires Shaped(pl, s) && Enabled(pl, s, a)
    ensures Shaped(pl, s')
  {
    match a
    case PublishInputs(r) =>
      s.(published := s.published + {r},
         wp := s.wp + map b | b in pl.inputs && b.owner == r :: Key(b, 0) := pl.slices)
    case Submit(i) => Submitted(pl, s, i)
    case Execute(job) => s.(log := s.log + [job])
    case PollDma(l) => PublishWrite(pl, s.(lanes := s.lanes[l := Lane(s, l)[1..]]), Lane(s, l)[0])
    case MarkH2H(job) => s.(pending := s.pending + {job})
    case PublishH2H(i) =>
      var job := Job(i, s.completed[i]);
      PublishWrite(pl, s.(pending := s.pending - {job}), job)
    case PublishRead(r) =>
      var job := s.owing[r];
      AdvanceReaders(s, pl.nodes[job.node].inputs, job.slice + 1)
        .(owing := s.owing - {r}, completed := s.completed[job.node := s.completed[job.node] + 1])
  }

  // ---- Runs ----

  function Start(pl: Plan): State {
    var zeros := seq(|pl.nodes|, i => 0);
    State({}, map[], map[], zeros, zeros, map[], {}, map[], [])
  }

  /** `steps` can be taken one after the other from the start, and ends in `s`. */
  ghost predicate Reaches(pl: Plan, steps: seq<Action>, s: State)
    requires |pl.lane| == |pl.nodes|
    decreases |steps|
  {
    if |steps| == 0 then s == Start(pl)
    else exists s0 ::
      && Reaches(pl, steps[..|steps| - 1], s0) && Shaped(pl, s0)
      && Enabled(pl, s0, steps[|steps| - 1]) && s == Next(pl, s0, steps[|steps| - 1])
  }

  ghost predicate Reachable(pl: Plan, s: State)
    requires |pl.lane| == |pl.nodes|
  {
    exists steps :: Reaches(pl, steps, s)
  }

  /** One more step. */
  lemma Extend(pl: Plan, s: State, a: Action)
    requires |pl.lane| == |pl.nodes| && Reachable(pl, s) && Shaped(pl, s) && Enabled(pl, s, a)
    ensures Reachable(pl, Next(pl, s, a))
  {
    var steps :| Reaches(pl, steps, s);
    assert (steps + [a])[..|steps|] == steps;
    assert Reaches(pl, steps + [a], Next(pl, s, a));
  }

  /** Every slice of every node has been submitted, published and released. */
  predicate Finished(pl: Plan, s: State)
    requires Shaped(pl, s)
  {
    && s.owing == map[]
    && forall i :: 0 <= i < |pl.nodes| ==> s.completed[i] == s.next[i] == pl.slices
  }
}
