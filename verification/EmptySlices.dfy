/** The executor publishes an empty trailing slice at once, even while earlier slices of the same
    node are still being copied. Published progress then counts slices that are not in memory.
    This module shows exactly which plans are free of that. */
module EmptySlices {
  import opened Ir
  import opened Graphs
  import opened Executor
  import opened Safety
  import opened RaceFreedom
  import opened Progress

  /** Whatever write progress is published, the slices it counts are in memory. */
  ghost predicate PublishedIsWritten(pl: Plan, s: State)
    requires |pl.lane| == |pl.nodes|
  {
    Reachable(pl, s) ==>
      forall i, sc: nat :: 0 <= i < |pl.nodes| && sc < Wp(s, pl.nodes[i].output) ==> Contains(s.log, Job(i, sc))
  }

  // ---- A run that finishes every slice before it starts the next one of the same node ----

  ghost predicate LogExact(pl: Plan, s: State, counts: seq<nat>)
    requires |counts| == |pl.nodes|
  {
    forall job :: Contains(s.log, job) <==> job.node < |pl.nodes| && job.slice < counts[job.node]
  }

  /** Nothing is in flight, and node `i` has done its first `counts[i]` slices. */
  ghost predicate Tidy(pl: Plan, s: State, counts: seq<nat>)
    requires |counts| == |pl.nodes|
  {
    && Shaped(pl, s) && Quiet(pl, s) && s.next == counts
    && (forall l :: Lane(s, l) == []) && s.pending == {}
    && WpOk(pl, s) && RdOk(pl, s) && LogExact(pl, s, counts)
  }

  /** As `Tidy`, but one more slice of `i` is in memory and published, and its read is not. */
  ghost predicate Owed(pl: Plan, s: State, counts: seq<nat>, i: nat)
    requires |counts| == |pl.nodes| && i < |pl.nodes|
  {
    && Shaped(pl, s) && s.owing == map[pl.nodes[i].rank := Job(i, counts[i])]
    && (forall r: nat :: r < pl.world ==> r in s.published)
    && s.completed == counts && s.next == counts[i := counts[i] + 1]
    && (forall l :: Lane(s, l) == []) && s.pending == {}
    && WpOk(pl, s) && RdOk(pl, s) && LogExact(pl, s, s.next)
  }

  lemma AppendExact(pl: Plan, log: seq<Job>, counts: seq<nat>, i: nat, job: Job)
    requires |counts| == |pl.nodes| && i < |pl.nodes|
    requires Contains(log, job) <==> job.node < |pl.nodes| && job.slice < counts[job.node]
    ensures var more := counts[i := counts[i] + 1];
      Contains(log + [Job(i, counts[i])], job) <==> job.node < |pl.nodes| && job.slice < more[job.node]
  {
    var log' := log + [Job(i, counts[i])];
    assert log'[|log|] == Job(i, counts[i]);
    if Contains(log, job) {
      var p :| 0 <= p < |log| && log[p] == job;
      assert log'[p] == job;
    }
  }

  lemma LogsOneMore(pl: Plan, s: State, s': State, counts: seq<nat>, i: nat)
    requires |counts| == |pl.nodes| && i < |pl.nodes| && LogExact(pl, s, counts)
    requires s'.log == s.log + [Job(i, counts[i])]
    ensures LogExact(pl, s', counts[i := counts[i] + 1])
  {
    forall job
      ensures Contains(s'.log, job) <==> job.node < |pl.nodes| && job.slice < counts[i := counts[i] + 1][job.node]
    {
      AppendExact(pl, s.log, counts, i, job);
    }
  }

  /** `s'` is `s` after slice `counts[i]` of node `i` has been performed and its write published. */
  ghost predicate Performs(pl: Plan, s: State, s': State, i: nat)
    requires Shaped(pl, s) && i < |pl.nodes|
  {
    var job := Job(i, s.next[i]);
    && s'.published == s.published && s'.wp == AdvanceWrite(s, pl.nodes[i].output, job.slice + 1).wp && s'.rd == s.rd
    && s'.next == s.next[i := s.next[i] + 1] && s'.completed == s.completed
    && (forall l :: Lane(s', l) == []) && s'.pending == {}
    && s'.owing == map[pl.nodes[i].rank := job] && s'.log == s.log + [job]
  }

  lemma PerformsWp(pl: Plan, s: State, s': State, counts: seq<nat>, i: nat)
    requires WellFormed(pl) && |counts| == |pl.nodes| && i < |pl.nodes|
    requires Shaped(pl, s) && Quiet(pl, s) && s.next == counts && WpOk(pl, s) && Performs(pl, s, s', i)
    ensures WpOk(pl, s')
  {
    assert NodeOk(pl, i);
    forall j | 0 <= j < |pl.nodes| ensures Wp(s', pl.nodes[j].output) == Written(pl, s', j) {
      assert NodeOk(pl, j);
      assert i < j || j < i || i == j;
    }
  }

  lemma PerformsOwed(pl: Plan, s: State, s': State, counts: seq<nat>, i: nat)
    requires WellFormed(pl) && |counts| == |pl.nodes| && i < |pl.nodes| && Tidy(pl, s, counts) && Performs(pl, s, s', i)
    ensures Owed(pl, s', counts, i)
  {
    PerformsWp(pl, s, s', counts, i);
    LogsOneMore(pl, s, s', counts, i);
    assert s'.completed == counts;
  }

  function Handed(s: State, i: nat): State
    requires i < |s.next|
  {
    s.(next := s.next[i := s.next[i] + 1])
  }

  lemma SubmitShape(pl: Plan, s: State, i: nat)
    requires Shaped(pl, s) && Enabled(pl, s, Submit(i))
    ensures var s' := Next(pl, s, Submit(i));
      var job := Job(i, s.next[i]);
      var l := pl.lane[i];
      match RouteOf(pl, s, i, s.next[i])
      case ToLane => s' == Handed(s, i).(lanes := s.lanes[l := Lane(s, l) + [job]])
      case ToEngine => s' == Handed(s, i)
      case Immediate =>
        s' == Handed(s, i).(log := s.log + [job], owing := s.owing[pl.nodes[i].rank := job],
                            wp := AdvanceWrite(s, pl.nodes[i].output, s.next[i] + 1).wp)
      case Blocked => true
  {
  }

  lemma ImmediateShape(pl: Plan, s: State, i: nat)
    requires Shaped(pl, s) && Enabled(pl, s, Submit(i)) && RouteOf(pl, s, i, s.next[i]) == Immediate
    requires s.owing == map[] && s.pending == {} && forall l :: Lane(s, l) == []
    ensures Performs(pl, s, Next(pl, s, Submit(i)), i)
  {
    SubmitShape(pl, s, i);
    SameLanes(s, Next(pl, s, Submit(i)));
  }

  lemma ViaImmediate(pl: Plan, s: State, i: nat) returns (s': State)
    requires |pl.lane| == |pl.nodes| && Shaped(pl, s) && CanSubmit(pl, s, i) && Reachable(pl, s)
    requires s.owing == map[] && s.pending == {} && forall l :: Lane(s, l) == []
    requires RouteOf(pl, s, i, s.next[i]) == Immediate
    ensures Reachable(pl, s') && Performs(pl, s, s', i)
  {
    ImmediateShape(pl, s, i);
    Extend(pl, s, Submit(i));
    s' := Next(pl, s, Submit(i));
  }

  lemma SameLanes(s: State, s': State)
    requires s'.lanes == s.lanes && forall l :: Lane(s, l) == []
    ensures forall l :: Lane(s', l) == []
  {
    forall l ensures Lane(s', l) == [] {
      assert Lane(s', l) == Lane(s, l);
    }
  }

  lemma LaneExecutes(pl: Plan, s1: State, s2: State, job: Job)
    requires Shaped(pl, s1) && job.node < |pl.nodes| && pl.nodes[job.node].op != H2H && !Contains(s1.log, job)
    requires Lane(s1, pl.lane[job.node]) == [job] && s2 == s1.(log := s1.log + [job])
    ensures Enabled(pl, s1, Execute(job)) && Next(pl, s1, Execute(job)) == s2
    ensures Contains(s2.log, job) && Lane(s2, pl.lane[job.node]) == [job]
  {
    assert Lane(s1, pl.lane[job.node])[0] == job && RunsNext(s1, pl.lane[job.node], job);
    assert s2.log[|s1.log|] == job;
  }

  lemma LanePolls(pl: Plan, s2: State, job: Job)
    requires Shaped(pl, s2) && job.node < |pl.nodes| && Contains(s2.log, job) && s2.owing == map[]
    requires Lane(s2, pl.lane[job.node]) == [job] && forall k :: k != pl.lane[job.node] ==> Lane(s2, k) == []
    ensures Enabled(pl, s2, PollDma(pl.lane[job.node]))
    ensures var s3 := Next(pl, s2, PollDma(pl.lane[job.node]));
      && s3 == s2.(lanes := s3.lanes, wp := AdvanceWrite(s2, pl.nodes[job.node].output, job.slice + 1).wp,
                   owing := map[pl.nodes[job.node].rank := job])
      && forall k :: Lane(s3, k) == []
  {
    var l := pl.lane[job.node];
    var s3 := Next(pl, s2, PollDma(l));
    assert s3.lanes == s2.lanes[l := []];
    forall k ensures Lane(s3, k) == [] {
      assert k != l ==> Lane(s3, k) == Lane(s2, k);
    }
  }

  lemma OneInLane(s: State, s1: State, l: nat, job: Job)
    requires s1.lanes == s.lanes[l := Lane(s, l) + [job]] && forall k :: Lane(s, k) == []
    ensures Lane(s1, l) == [job] && forall k :: k != l ==> Lane(s1, k) == []
  {
    forall k | k != l ensures Lane(s1, k) == [] {
      assert Lane(s1, k) == Lane(s, k);
    }
  }

  lemma LanePerforms(pl: Plan, s: State, s2: State, s3: State, i: nat)
    requires Shaped(pl, s) && i < |pl.nodes| && s.owing == map[] && s.pending == {}
    requires s2 == Handed(s, i).(lanes := s2.lanes, log := s.log + [Job(i, s.next[i])])
    requires s3 == s2.(lanes := s3.lanes, wp := AdvanceWrite(s2, pl.nodes[i].output, s.next[i] + 1).wp,
                       owing := map[pl.nodes[i].rank := Job(i, s.next[i])])
    requires forall k :: Lane(s3, k) == []
    ensures Performs(pl, s, s3, i)
  {
    assert Wp(s2, pl.nodes[i].output) == Wp(s, pl.nodes[i].output);
  }

  lemma QueuedExecutes(pl: Plan, s: State, s1: State, i: nat)
    requires Shaped(pl, s) && i < |pl.nodes| && pl.nodes[i].op != H2H && !Contains(s.log, Job(i, s.next[i]))
    requires forall l :: Lane(s, l) == []
    requires s1 == Handed(s, i).(lanes := s.lanes[pl.lane[i] := Lane(s, pl.lane[i]) + [Job(i, s.next[i])]])
    ensures Enabled(pl, s1, Execute(Job(i, s.next[i])))
  {
    var job := Job(i, s.next[i]);
    OneInLane(s, s1, pl.lane[i], job);
    LaneExecutes(pl, s1, s1.(log := s1.log + [job]), job);
  }

  lemma QueuedPolls(pl: Plan, s: State, s2: State, i: nat)
    requires Shaped(pl, s) && i < |pl.nodes| && s.owing == map[] && s.pending == {} && forall l :: Lane(s, l) == []
    requires s2 == Handed(s, i).(lanes := s.lanes[pl.lane[i] := Lane(s, pl.lane[i]) + [Job(i, s.next[i])]],
                                 log := s.log + [Job(i, s.next[i])])
    ensures Enabled(pl, s2, PollDma(pl.lane[i])) && Performs(pl, s, Next(pl, s2, PollDma(pl.lane[i])), i)
  {
    var job := Job(i, s.next[i]);
    assert s2.log[|s.log|] == job;
    OneInLane(s, s2, pl.lane[i], job);
    LanePolls(pl, s2, job);
    LanePerforms(pl, s, s2, Next(pl, s2, PollDma(pl.lane[i])), i);
  }

  lemma ViaLane(pl: Plan, s: State, i: nat) returns (s': State)
    requires |pl.lane| == |pl.nodes| && Shaped(pl, s) && CanSubmit(pl, s, i) && Reachable(pl, s)
    requires s.owing == map[] && s.pending == {} && forall l :: Lane(s, l) == []
    requires RouteOf(pl, s, i, s.next[i]) == ToLane && !Contains(s.log, Job(i, s.next[i]))
    ensures Reachable(pl, s') && Performs(pl, s, s', i)
  {
    var job := Job(i, s.next[i]);
    Extend(pl, s, Submit(i));
    SubmitShape(pl, s, i);
    var s1 := Next(pl, s, Submit(i));
    QueuedExecutes(pl, s, s1, i);
    Extend(pl, s1, Execute(job));
    var s2 := s1.(log := s1.log + [job]);
    QueuedPolls(pl, s, s2, i);
    Extend(pl, s2, PollDma(pl.lane[i]));
    s' := Next(pl, s2, PollDma(pl.lane[i]));
  }

  lemma EngineShape(pl: Plan, s: State, s1: State, s2: State, s3: State, i: nat)
    requires Shaped(pl, s) && i < |pl.nodes| && pl.nodes[i].op == H2H && !Contains(s.log, Job(i, s.next[i]))
    requires RouteIsCopy(pl.nodes[i], s.next[i])
    requires s.owing == map[] && s.pending == {} && s.completed == s.next && forall l :: Lane(s, l) == []
    requires s1 == Handed(s, i)
    requires s2 == s1.(log := s1.log + [Job(i, s.next[i])])
    requires s3 == s2.(pending := {Job(i, s.next[i])})
    ensures Enabled(pl, s1, Execute(Job(i, s.next[i]))) && Next(pl, s1, Execute(Job(i, s.next[i]))) == s2
    ensures Enabled(pl, s2, MarkH2H(Job(i, s.next[i]))) && Next(pl, s2, MarkH2H(Job(i, s.next[i]))) == s3
    ensures Enabled(pl, s3, PublishH2H(i)) && Performs(pl, s, Next(pl, s3, PublishH2H(i)), i)
  {
    var job := Job(i, s.next[i]);
    assert s2.log[|s1.log|] == job;
    assert s2.pending + {job} == {job};
    assert s3.pending - {job} == {};
    SameLanes(s, Next(pl, s3, PublishH2H(i)));
  }

  lemma ViaEngine(pl: Plan, s: State, i: nat) returns (s': State)
    requires |pl.lane| == |pl.nodes| && Shaped(pl, s) && CanSubmit(pl, s, i) && Reachable(pl, s)
    requires s.owing == map[] && s.pending == {} && s.completed == s.next && forall l :: Lane(s, l) == []
    requires RouteOf(pl, s, i, s.next[i]) == ToEngine && !Contains(s.log, Job(i, s.next[i]))
    ensures Reachable(pl, s') && Performs(pl, s, s', i)
  {
    var job := Job(i, s.next[i]);
    Extend(pl, s, Submit(i));
    SubmitShape(pl, s, i);
    var s1 := Next(pl, s, Submit(i));
    var s2 := s1.(log := s1.log + [job]);
    var s3 := s2.(pending := {job});
    EngineShape(pl, s, s1, s2, s3, i);
    Extend(pl, s1, Execute(job));
    Extend(pl, s2, MarkH2H(job));
    Extend(pl, s3, PublishH2H(i));
    s' := Next(pl, s3, PublishH2H(i));
  }

  lemma ReleaseShape(pl: Plan, s: State, counts: seq<nat>, i: nat)
    requires |counts| == |pl.nodes| && i < |pl.nodes| && Shaped(pl, s)
    requires s.owing == map[pl.nodes[i].rank := Job(i, counts[i])] && s.completed == counts
    ensures Enabled(pl, s, PublishRead(pl.nodes[i].rank))
    ensures var s' := Next(pl, s, PublishRead(pl.nodes[i].rank));
      s' == s.(rd := s'.rd, owing := map[], completed := counts[i := counts[i] + 1])
  {
  }

  lemma Release(pl: Plan, s: State, counts: seq<nat>, i: nat) returns (s': State)
    requires WellFormed(pl) && |counts| == |pl.nodes| && i < |pl.nodes| && Owed(pl, s, counts, i) && Reachable(pl, s)
    ensures Reachable(pl, s') && Tidy(pl, s', counts[i := counts[i] + 1]) && s'.log == s.log
  {
    var a := PublishRead(pl.nodes[i].rank);
    ReleaseShape(pl, s, counts, i);
    Extend(pl, s, a);
    s' := Next(pl, s, a);
    ReleaseCounters(pl, s, counts, i);
    assert forall l :: Lane(s', l) == Lane(s, l);
    assert s'.log == s.log;
  }

  lemma ReleaseCounters(pl: Plan, s: State, counts: seq<nat>, i: nat)
    requires WellFormed(pl) && |counts| == |pl.nodes| && i < |pl.nodes| && Shaped(pl, s) && WpOk(pl, s) && RdOk(pl, s)
    requires s.owing == map[pl.nodes[i].rank := Job(i, counts[i])] && s.completed == counts
    requires s.next == counts[i := counts[i] + 1]
    ensures Enabled(pl, s, PublishRead(pl.nodes[i].rank))
    ensures var s' := Next(pl, s, PublishRead(pl.nodes[i].rank)); WpOk(pl, s') && RdOk(pl, s')
  {
    KeepsWp(pl, s, PublishRead(pl.nodes[i].rank));
    KeepsRd(pl, s, PublishRead(pl.nodes[i].rank));
  }

  /** One ready slice of `i`, from submission to release, with nothing else in flight. */
  lemma OneSlice(pl: Plan, s: State, counts: seq<nat>, i: nat) returns (s': State)
    requires WellFormed(pl) && |counts| == |pl.nodes| && i < |pl.nodes| && Tidy(pl, s, counts) && Reachable(pl, s)
    requires CanSubmit(pl, s, i)
    ensures Reachable(pl, s') && Tidy(pl, s', counts[i := counts[i] + 1]) && s'.log == s.log + [Job(i, counts[i])]
  {
    var s1;
    match RouteOf(pl, s, i, counts[i]) {
      case Immediate => s1 := ViaImmediate(pl, s, i);
      case ToLane => s1 := ViaLane(pl, s, i);
      case ToEngine => s1 := ViaEngine(pl, s, i);
    }
    PerformsOwed(pl, s, s1, counts, i);
    s' := Release(pl, s1, counts, i);
  }

  /** The first `n` ranks have published their inputs and nothing else has happened. */
  ghost predicate InputsOut(pl: Plan, s: State, n: nat)
    requires |pl.lane| == |pl.nodes|
  {
    && Shaped(pl, s) && s == Start(pl).(published := s.published, wp := s.wp) && WpOk(pl, s)
    && forall r: nat :: r in s.published <==> r < n
  }

  lemma StartIsReachable(pl: Plan)
    requires WellFormed(pl)
    ensures Reachable(pl, Start(pl)) && InputsOut(pl, Start(pl), 0)
  {
    assert Reaches(pl, [], Start(pl));
  }

  lemma PublishShape(pl: Plan, s0: State, r: nat)
    requires WellFormed(pl) && InputsOut(pl, s0, r) && r < pl.world
    ensures Enabled(pl, s0, PublishInputs(r)) && InputsOut(pl, Next(pl, s0, PublishInputs(r)), r + 1)
  {
    KeepsWp(pl, s0, PublishInputs(r));
  }

  lemma {:induction false} PublishAll(pl: Plan, n: nat) returns (s: State)
    requires WellFormed(pl) && n <= pl.world
    ensures Reachable(pl, s) && InputsOut(pl, s, n)
  {
    if n == 0 {
      StartIsReachable(pl);
      s := Start(pl);
    } else {
      var s0 := PublishAll(pl, n - 1);
      PublishShape(pl, s0, n - 1);
      Extend(pl, s0, PublishInputs(n - 1));
      s := Next(pl, s0, PublishInputs(n - 1));
    }
  }

  lemma TidyStart(pl: Plan) returns (s: State)
    requires WellFormed(pl)
    ensures Reachable(pl, s) && Tidy(pl, s, seq(|pl.nodes|, i => 0))
  {
    s := PublishAll(pl, pl.world);
  }

  // ---- Reaching given slice counts ----

  /** Earlier nodes are asked for at least as many slices, and no node runs far ahead. */
  ghost predicate Reasonable(pl: Plan, rank: seq<nat>, goal: seq<nat>) {
    && |goal| == |rank| == |pl.nodes|
    && (forall i :: 0 <= i < |goal| ==> goal[i] <= pl.slices)
    && (forall i, j :: 0 <= i < |goal| && 0 <= j < |goal| ==> goal[i] <= goal[j] + D2H_LEAD_WINDOW)
    && (forall i, j :: 0 <= i < |goal| && 0 <= j < |goal| && rank[i] < rank[j] ==> goal[i] >= goal[j])
  }

  ghost predicate Within(counts: seq<nat>, goal: seq<nat>) {
    |counts| == |goal| && forall i :: 0 <= i < |goal| ==> counts[i] <= goal[i]
  }

  lemma {:induction false} LeastBelow(counts: seq<nat>, goal: seq<nat>, rank: seq<nat>, n: nat) returns (m: int)
    requires |counts| == |goal| == |rank| && n <= |goal| && Within(counts, goal)
    ensures m == -1 ==> forall i :: 0 <= i < n ==> counts[i] == goal[i]
    ensures m != -1 ==> 0 <= m < n && counts[m] < goal[m]
    ensures m != -1 ==> forall i :: 0 <= i < n && counts[i] < goal[i] ==>
              counts[m] < counts[i] || (counts[m] == counts[i] && rank[m] <= rank[i])
  {
    if n == 0 {
      m := -1;
    } else {
      m := LeastBelow(counts, goal, rank, n - 1);
      var i := n - 1;
      if counts[i] < goal[i] &&
         (m == -1 || counts[i] < counts[m] || (counts[i] == counts[m] && rank[i] < rank[m])) {
        m := i;
      }
    }
  }

  lemma TidyRouteOpen(pl: Plan, s: State, rank: seq<nat>, counts: seq<nat>, m: nat)
    requires |counts| == |pl.nodes| == |pl.lane| && m < |pl.nodes| && Tidy(pl, s, counts) && Acyclic(pl, rank)
    requires forall j :: 0 <= j < |pl.nodes| ==> counts[m] < counts[j] + D2H_LEAD_WINDOW
    ensures RouteOf(pl, s, m, counts[m]) != Blocked
  {
    var out := pl.nodes[m].output;
    if NumReaders(pl, out) > 0 {
      ReaderCaughtUp(pl, s, out, Max(0, counts[m] - D2H_LEAD_WINDOW + 1));
    }
  }

  lemma TidyCanSubmit(pl: Plan, s: State, rank: seq<nat>, counts: seq<nat>, m: nat)
    requires WellFormed(pl) && |counts| == |pl.nodes| && m < |pl.nodes| && Tidy(pl, s, counts) && Acyclic(pl, rank)
    requires counts[m] < pl.slices
    requires forall j :: 0 <= j < |pl.nodes| ==> counts[m] < counts[j] + D2H_LEAD_WINDOW
    requires forall i :: 0 <= i < |pl.nodes| && rank[i] < rank[m] ==> counts[i] > counts[m]
    ensures CanSubmit(pl, s, m)
  {
    assert NodeOk(pl, m);
    QuietInputsReady(pl, s, rank, m);
    QuietOverwriteReady(pl, s, rank, m);
    TidyRouteOpen(pl, s, rank, counts, m);
  }

  /** The furthest-behind node, the earliest of them, takes one more slice. */
  lemma StepTowards(pl: Plan, rank: seq<nat>, s: State, counts: seq<nat>, goal: seq<nat>, m: nat) returns (s': State)
    requires WellFormed(pl) && Acyclic(pl, rank) && Reasonable(pl, rank, goal) && Within(counts, goal)
    requires Tidy(pl, s, counts) && Reachable(pl, s) && m < |goal| && counts[m] < goal[m]
    requires forall i :: 0 <= i < |goal| && counts[i] < goal[i] ==>
               counts[m] < counts[i] || (counts[m] == counts[i] && rank[m] <= rank[i])
    ensures Reachable(pl, s') && Tidy(pl, s', counts[m := counts[m] + 1])
  {
    TidyCanSubmit(pl, s, rank, counts, m);
    s' := OneSlice(pl, s, counts, m);
  }

  lemma OneCloser(counts: seq<nat>, goal: seq<nat>, m: nat)
    requires Within(counts, goal) && m < |goal| && counts[m] < goal[m]
    ensures var more := counts[m := counts[m] + 1]; Within(more, goal) && Sum(counts) < Sum(more) <= Sum(goal)
  {
    SumUpdate(counts, m, counts[m] + 1);
    SumWithin(counts[m := counts[m] + 1], goal);
  }

  lemma {:induction false} ReachGoal(pl: Plan, rank: seq<nat>, s: State, counts: seq<nat>, goal: seq<nat>)
    returns (s': State)
    requires WellFormed(pl) && Acyclic(pl, rank) && Reasonable(pl, rank, goal) && Within(counts, goal)
    requires Tidy(pl, s, counts) && Reachable(pl, s)
    ensures Reachable(pl, s') && Tidy(pl, s', goal)
    decreases Sum(goal) - Sum(counts)
  {
    var m := LeastBelow(counts, goal, rank, |goal|);
    if m == -1 {
      assert counts == goal;
      s' := s;
    } else {
      var s1 := StepTowards(pl, rank, s, counts, goal, m);
      OneCloser(counts, goal, m);
      s' := ReachGoal(pl, rank, s1, counts[m := counts[m] + 1], goal);
    }
  }

  lemma {:induction false} SumWithin(a: seq<nat>, b: seq<nat>)
    requires Within(a, b)
    ensures Sum(a) <= Sum(b)
  {
    if |a| > 0 {
      SumWithin(a[..|a| - 1], b[..|b| - 1]);
    }
  }

  // ---- The exact condition ----

  /** The first empty slice of a node that moves bytes but not enough for all slices. */
  function FirstEmpty(nd: Node): (n: nat)
    requires nd.workBytes > 0
    ensures n > 0 && SliceBytes(nd, n) == 0 && SliceBytes(nd, n - 1) > 0
  {
    (nd.workBytes - 1) / SLICE_BYTES + 1
  }

  lemma FirstEmptyFits(nd: Node, slices: nat)
    requires 0 < nd.workBytes <= (slices - 1) * SLICE_BYTES
    ensures FirstEmpty(nd) < slices
  {
  }

  lemma SupplyAhead(pl: Plan, rank: seq<nat>, s: State, m: nat, n: nat)
    requires Shaped(pl, s) && WpOk(pl, s) && RdOk(pl, s) && Acyclic(pl, rank) && Quiet(pl, s) && m < |pl.nodes|
    requires n < pl.slices && s.next[m] <= n
    requires forall i :: 0 <= i < |pl.nodes| && rank[i] < rank[m] ==> s.next[i] > n
    ensures InputsReady(s, pl.nodes[m], n) && OverwriteReady(pl, s, pl.nodes[m], n)
  {
    assert Supplied(pl, rank, m);
    var nd := pl.nodes[m];
    forall q | 0 <= q < |nd.inputs| ensures Wp(s, nd.inputs[q].key) >= n + 1 {
      var k := nd.inputs[q].key;
      if ProducedBefore(pl, rank, k, m) {
        var p :| 0 <= p < |pl.nodes| && pl.nodes[p].output == k && rank[p] < rank[m];
        assert Wp(s, k) == Written(pl, s, p);
      } else {
        assert k == Key(k.base, 0);
      }
    }
    if nd.guard.Some? {
      var k := nd.guard.value;
      if k.version > 0 {
        var p :| 0 <= p < |pl.nodes| && pl.nodes[p].output == k && rank[p] < rank[m];
        assert Wp(s, k) == Written(pl, s, p);
      }
      if NumReaders(pl, k) > 0 {
        ReaderCaughtUp(pl, s, k, n + 1);
      }
    }
  }

  /** A slice that copies is handed over and nothing is published yet. */
  lemma HandedOver(pl: Plan, s: State, m: nat)
    requires Shaped(pl, s) && CanSubmit(pl, s, m) && Moves(pl.nodes[m]) && SliceBytes(pl.nodes[m], s.next[m]) > 0
    ensures var s' := Next(pl, s, Submit(m)); s' == Handed(s, m).(lanes := s'.lanes)
  {
    SubmitShape(pl, s, m);
  }

  lemma EmptyPublished(pl: Plan, s: State, m: nat)
    requires Shaped(pl, s) && CanSubmit(pl, s, m) && SliceBytes(pl.nodes[m], s.next[m]) == 0
    ensures var s' := Next(pl, s, Submit(m));
      s'.log == s.log + [Job(m, s.next[m])] && Wp(s', pl.nodes[m].output) >= s.next[m] + 1
  {
    SubmitShape(pl, s, m);
  }

  /** Submit the last non-empty slice of `m` without waiting for its copy, then the empty one. */
  lemma SubmitTwice(pl: Plan, s: State, m: nat, n: nat) returns (s2: State)
    requires |pl.lane| == |pl.nodes| && Shaped(pl, s) && Reachable(pl, s) && CanSubmit(pl, s, m)
    requires 0 < n < pl.slices && s.next[m] == n - 1 && Moves(pl.nodes[m])
    requires SliceBytes(pl.nodes[m], n) == 0 && SliceBytes(pl.nodes[m], n - 1) > 0
    requires InputsReady(s, pl.nodes[m], n) && OverwriteReady(pl, s, pl.nodes[m], n)
    ensures Reachable(pl, s2) && s2.log == s.log + [Job(m, n)] && Wp(s2, pl.nodes[m].output) >= n + 1
  {
    Extend(pl, s, Submit(m));
    HandedOver(pl, s, m);
    var s1 := Next(pl, s, Submit(m));
    SameCounters(pl, s, s1, m, n);
    EmptyPublished(pl, s1, m);
    Extend(pl, s1, Submit(m));
    s2 := Next(pl, s1, Submit(m));
  }

  lemma {:induction false} SameMin(s: State, s': State, k: Key, n: nat)
    requires n > 0 && s'.rd == s.rd
    ensures MinRd(s', k, n) == MinRd(s, k, n)
  {
    if n > 1 {
      SameMin(s, s', k, n - 1);
    }
  }

  lemma SameCounters(pl: Plan, s: State, s': State, m: nat, n: nat)
    requires m < |pl.nodes| && s'.wp == s.wp && s'.rd == s.rd
    requires InputsReady(s, pl.nodes[m], n) && OverwriteReady(pl, s, pl.nodes[m], n)
    ensures InputsReady(s', pl.nodes[m], n) && OverwriteReady(pl, s', pl.nodes[m], n)
  {
    var guard := pl.nodes[m].guard;
    if guard.Some? && NumReaders(pl, guard.value) > 0 {
      SameMin(s, s', guard.value, NumReaders(pl, guard.value));
    }
  }

  lemma NotCopied(pl: Plan, s1: State, s: State, counts: seq<nat>, m: nat, n: nat)
    requires |pl.lane| == |pl.nodes| == |counts| && m < |pl.nodes| && n > 0 && counts[m] == n - 1
    requires LogExact(pl, s1, counts) && Reachable(pl, s)
    requires s.log == s1.log + [Job(m, n)] && Wp(s, pl.nodes[m].output) >= n + 1
    ensures !PublishedIsWritten(pl, s)
  {
    var job := Job(m, n - 1);
    assert !Contains(s1.log, job);
    forall p | 0 <= p < |s.log| ensures s.log[p] != job {
      if p < |s1.log| {
        assert s.log[p] == s1.log[p];
      }
    }
    assert n - 1 < Wp(s, pl.nodes[m].output) && !Contains(s.log, Job(m, n - 1));
  }

  function OvertakingCounts(rank: seq<nat>, m: nat, n: nat): (goal: seq<nat>)
    requires m < |rank| && n > 0
    ensures |goal| == |rank|
    ensures forall i :: 0 <= i < |rank| ==> goal[i] == if rank[i] < rank[m] then n + 1 else n - 1
  {
    seq(|rank|, i requires 0 <= i < |rank| => if rank[i] < rank[m] then n + 1 else n - 1)
  }

  lemma GoalIsReasonable(pl: Plan, rank: seq<nat>, m: nat, n: nat)
    requires |rank| == |pl.nodes| && m < |rank| && 0 < n < pl.slices
    ensures Reasonable(pl, rank, OvertakingCounts(rank, m, n))
    ensures Within(seq(|pl.nodes|, i => 0), OvertakingCounts(rank, m, n))
  {
  }

  lemma Overtakes(pl: Plan, rank: seq<nat>, m: nat) returns (s: State)
    requires WellFormed(pl) && Acyclic(pl, rank) && m < |pl.nodes|
    requires Moves(pl.nodes[m]) && pl.nodes[m].workBytes <= (pl.slices - 1) * SLICE_BYTES
    ensures !PublishedIsWritten(pl, s)
  {
    var n := FirstEmpty(pl.nodes[m]);
    FirstEmptyFits(pl.nodes[m], pl.slices);
    var goal := OvertakingCounts(rank, m, n);
    var s0 := TidyStart(pl);
    GoalIsReasonable(pl, rank, m, n);
    var s1 := ReachGoal(pl, rank, s0, seq(|pl.nodes|, i => 0), goal);
    TidyCanSubmit(pl, s1, rank, goal, m);
    SupplyAhead(pl, rank, s1, m, n);
    s := SubmitTwice(pl, s1, m, n);
    NotCopied(pl, s1, s, goal, m, n);
  }

  /** Published slices are always in memory if and only if no copying node has an empty slice. */
  lemma SafeExactlyWhenWellSliced(pl: Plan, rank: seq<nat>)
    requires WellFormed(pl) && Acyclic(pl, rank)
    ensures (forall s :: PublishedIsWritten(pl, s)) <==> WellSliced(pl)
  {
    if WellSliced(pl) {
      forall s ensures PublishedIsWritten(pl, s) {
        if Reachable(pl, s) {
          var steps :| Reaches(pl, steps, s);
          ReachesInv(pl, steps, s);
        }
      }
    } else {
      var m :| 0 <= m < |pl.nodes| && Moves(pl.nodes[m]) && pl.nodes[m].workBytes <= (pl.slices - 1) * SLICE_BYTES;
      var s := Overtakes(pl, rank, m);
    }
  }

  // ---- One-slice works can be done in any order that respects the waits ----

  function Upto(order: seq<nat>, k: nat, n: nat): (counts: seq<nat>)
    requires k <= |order|
    ensures |counts| == n && forall i :: 0 <= i < n ==> counts[i] == if i in order[..k] then 1 else 0
  {
    seq(n, i => if i in order[..k] then 1 else 0)
  }

  ghost predicate Sorted(pl: Plan, rank: seq<nat>, order: seq<nat>) {
    && |rank| == |pl.nodes| && (forall p :: 0 <= p < |order| ==> order[p] < |pl.nodes|)
    && (forall p, q :: 0 <= p < q < |order| ==> rank[order[p]] < rank[order[q]])
    && (forall i :: 0 <= i < |pl.nodes| ==> i in order)
  }

  /** The nodes in order, one slice each. */
  function JobsUpto(order: seq<nat>, k: nat): (jobs: seq<Job>)
    requires k <= |order|
    ensures |jobs| == k && forall p :: 0 <= p < k ==> jobs[p] == Job(order[p], 0)
  {
    seq(k, p requires 0 <= p < k && k <= |order| => Job(order[p], 0))
  }

  lemma NextInOrder(pl: Plan, rank: seq<nat>, order: seq<nat>, k: nat)
    requires Sorted(pl, rank, order) && k < |order|
    ensures order[k] !in order[..k]
    ensures forall i :: 0 <= i < |pl.nodes| && rank[i] < rank[order[k]] ==> i in order[..k]
    ensures Upto(order, k + 1, |pl.nodes|) == Upto(order, k, |pl.nodes|)[order[k] := 1]
  {
    forall i | 0 <= i < |pl.nodes| && rank[i] < rank[order[k]] ensures i in order[..k] {
      assert i in order;
      var p :| 0 <= p < |order| && order[p] == i;
      assert p < k;
      assert order[..k][p] == i;
    }
    assert order[..k + 1] == order[..k] + [order[k]];
  }

  lemma {:induction false} InOrderRun(pl: Plan, rank: seq<nat>, order: seq<nat>, k: nat) returns (s: State)
    requires WellFormed(pl) && Acyclic(pl, rank) && pl.slices == 1 && Sorted(pl, rank, order) && k <= |order|
    ensures Reachable(pl, s) && Tidy(pl, s, Upto(order, k, |pl.nodes|)) && s.log == JobsUpto(order, k)
  {
    if k == 0 {
      s := TidyStart(pl);
      assert Upto(order, 0, |pl.nodes|) == seq(|pl.nodes|, i => 0);
      if |s.log| > 0 {
        assert Contains(s.log, s.log[0]);
      }
    } else {
      var s0 := InOrderRun(pl, rank, order, k - 1);
      var counts, m := Upto(order, k - 1, |pl.nodes|), order[k - 1];
      NextInOrder(pl, rank, order, k - 1);
      TidyCanSubmit(pl, s0, rank, counts, m);
      s := OneSlice(pl, s0, counts, m);
      assert JobsUpto(order, k) == JobsUpto(order, k - 1) + [Job(m, 0)];
    }
  }

  /** For every order in which each node comes after what it waits for there is a run of all executors
      that copies the nodes in that order and finishes. */
  lemma EveryOrderIsARun(pl: Plan, rank: seq<nat>, order: seq<nat>) returns (s: State)
    requires WellFormed(pl) && Acyclic(pl, rank) && pl.slices == 1 && Sorted(pl, rank, order)
    ensures Reachable(pl, s) && Shaped(pl, s) && Finished(pl, s) && s.log == JobsUpto(order, |order|)
  {
    s := InOrderRun(pl, rank, order, |order|);
    assert order[..|order|] == order;
  }
}
