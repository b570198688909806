/** Exactly which plans run to the end: those in which no set of nodes waits for itself. */
module Deadlock {
  import opened Ir
  import opened Graphs
  import opened Executor
  import opened Safety
  import opened RaceFreedom
  import opened Progress
  import opened Terminals
  import opened Determinism

  ghost predicate AllReadersExist(pl: Plan) {
    forall k, r: nat :: r < NumReaders(pl, k) ==> HasReader(pl, k, r)
  }

  /** Node `i` reads or overwrites a version that nothing ever writes. */
  ghost predicate Starved(pl: Plan, i: nat)
    requires i < |pl.nodes|
  {
    var nd := pl.nodes[i];
    || (exists q :: 0 <= q < |nd.inputs| && !HasWriter(pl, nd.inputs[q].key))
    || (nd.guard.Some? && nd.guard.value.version > 0 && !Produced(pl, nd.guard.value))
  }

  ghost predicate WaitsWithin(pl: Plan, i: nat, c: set<nat>)
    requires i < |pl.nodes|
  {
    exists j :: j in c && j < |pl.nodes| && MustPrecede(pl, pl.nodes[i], j)
  }

  /** Every node of `c` is starved or waits for a node of `c`. */
  ghost predicate StuckSet(pl: Plan, c: set<nat>) {
    && c != {}
    && (forall i :: i in c ==> i < |pl.nodes| && (Starved(pl, i) || WaitsWithin(pl, i, c)))
  }

  // ---- A stuck set never starts ----

  lemma StarvedNotReady(pl: Plan, s: State, i: nat, sc: nat)
    requires WellFormed(pl) && Shaped(pl, s) && NoStray(pl, s) && i < |pl.nodes| && NodeOk(pl, i) && Starved(pl, i)
    ensures !(InputsReady(s, pl.nodes[i], sc) && OverwriteReady(pl, s, pl.nodes[i], sc))
  {
    var nd := pl.nodes[i];
    if q :| 0 <= q < |nd.inputs| && !HasWriter(pl, nd.inputs[q].key) {
      UnwrittenStaysZero(pl, s, nd.inputs[q].key);
      assert Wp(s, nd.inputs[q].key) < sc + 1;
    } else {
      UnwrittenStaysZero(pl, s, nd.guard.value);
    }
  }

  lemma WaitingNotReady(pl: Plan, s: State, i: nat, j: nat, sc: nat)
    requires WellFormed(pl) && Shaped(pl, s) && WpOk(pl, s) && RdOk(pl, s) && OrderOk(pl, s)
    requires i < |pl.nodes| && j < |pl.nodes| && MustPrecede(pl, pl.nodes[i], j) && s.next[j] == 0
    ensures !(InputsReady(s, pl.nodes[i], sc) && OverwriteReady(pl, s, pl.nodes[i], sc))
  {
    var nd := pl.nodes[i];
    assert Wp(s, pl.nodes[j].output) == Written(pl, s, j) == 0;
    assert s.completed[j] == 0 && NodeOk(pl, j);
    if q :| 0 <= q < |nd.inputs| && nd.inputs[q].key == pl.nodes[j].output {
      assert Wp(s, nd.inputs[q].key) < sc + 1;
    } else if nd.guard != Some(pl.nodes[j].output) {
      var inp := pl.nodes[j].inputs[0];
      assert Rd(s, inp.key, inp.readerId) == 0;
      MinRdIsLeast(s, inp.key, NumReaders(pl, inp.key));
    }
  }

  lemma StuckStep(pl: Plan, s: State, a: Action, c: set<nat>)
    requires WellFormed(pl) && Inv(pl, s) && NoStray(pl, s) && StuckSet(pl, c) && Enabled(pl, s, a)
    requires forall i :: i in c ==> s.next[i] == 0
    ensures Shaped(pl, Next(pl, s, a)) && forall i :: i in c ==> Next(pl, s, a).next[i] == 0
  {
    forall i | i in c ensures Next(pl, s, a).next[i] == 0 {
      NextIs(pl, s, a, i);
      StuckNodeNotReady(pl, s, c, i);
      OnlySubmitAdvances(pl, s, a, i);
    }
  }

  lemma OnlySubmitAdvances(pl: Plan, s: State, a: Action, i: nat)
    requires Shaped(pl, s) && Enabled(pl, s, a) && !CanSubmit(pl, s, i)
    ensures a != Submit(i)
  {
  }

  lemma {:induction false} StuckSetNeverStarts(pl: Plan, steps: seq<Action>, s: State, c: set<nat>)
    requires WellFormed(pl) && WellSliced(pl) && Reaches(pl, steps, s) && StuckSet(pl, c)
    ensures Shaped(pl, s) && forall i :: i in c ==> s.next[i] == 0
    decreases |steps|
  {
    if |steps| > 0 {
      var n := |steps| - 1;
      var a := steps[n];
      var s0 :| Reaches(pl, steps[..n], s0) && Shaped(pl, s0) && Enabled(pl, s0, a) && s == Next(pl, s0, a);
      StuckSetNeverStarts(pl, steps[..n], s0, c);
      ReachesInv(pl, steps[..n], s0);
      ReachesNoStray(pl, steps[..n], s0);
      StuckStep(pl, s0, a, c);
    }
  }

  lemma StuckNodeNotReady(pl: Plan, s: State, c: set<nat>, i: nat)
    requires WellFormed(pl) && Inv(pl, s) && NoStray(pl, s) && StuckSet(pl, c) && i in c
    requires forall j :: j in c ==> s.next[j] == 0
    ensures !CanSubmit(pl, s, i)
  {
    assert NodeOk(pl, i);
    if Starved(pl, i) {
      StarvedNotReady(pl, s, i, s.next[i]);
    } else {
      var j :| j in c && j < |pl.nodes| && MustPrecede(pl, pl.nodes[i], j);
      WaitingNotReady(pl, s, i, j, s.next[i]);
    }
  }

  // ---- Without a stuck set the nodes can be put in order ----

  ghost predicate OrderedIn(pl: Plan, rank: seq<nat>, done: set<nat>) {
    && |rank| == |pl.nodes|
    && (forall i :: i in done ==> i < |pl.nodes| && rank[i] < |done| && !Starved(pl, i))
    && (forall i :: i in done ==> AfterAll(pl, rank, done, i))
  }

  /** Everything that must precede `i` has an earlier place in the order. */
  ghost predicate AfterAll(pl: Plan, rank: seq<nat>, done: set<nat>, i: nat)
    requires |rank| == |pl.nodes| && i < |pl.nodes|
  {
    forall j :: 0 <= j < |pl.nodes| && MustPrecede(pl, pl.nodes[i], j) ==> j in done && rank[j] < rank[i]
  }

  lemma StaysAfterAll(pl: Plan, rank: seq<nat>, done: set<nat>, i: nat, k: nat)
    requires |rank| == |pl.nodes| && i < |pl.nodes| && i !in done && k in done && k < |pl.nodes| &&
             AfterAll(pl, rank, done, k)
    ensures AfterAll(pl, rank[i := |done|], done + {i}, k)
  {
  }

  lemma PeeledAfterAll(pl: Plan, rank: seq<nat>, done: set<nat>, i: nat)
    requires |rank| == |pl.nodes| && i < |pl.nodes| && i !in done
    requires forall j :: j in done ==> j < |pl.nodes| && rank[j] < |done|
    requires forall j :: 0 <= j < |pl.nodes| && MustPrecede(pl, pl.nodes[i], j) ==> j in done
    ensures AfterAll(pl, rank[i := |done|], done + {i}, i)
  {
  }

  lemma PeelOne(pl: Plan, rank: seq<nat>, done: set<nat>, i: nat)
    requires OrderedIn(pl, rank, done) && i < |pl.nodes| && i !in done && !Starved(pl, i)
    requires forall j :: 0 <= j < |pl.nodes| && MustPrecede(pl, pl.nodes[i], j) ==> j in done
    ensures OrderedIn(pl, rank[i := |done|], done + {i})
  {
    var rank', more := rank[i := |done|], done + {i};
    assert |more| == |done| + 1;
    forall k | k in more ensures AfterAll(pl, rank', more, k) {
      if k == i {
        PeeledAfterAll(pl, rank, done, i);
      } else {
        StaysAfterAll(pl, rank, done, i, k);
      }
    }
  }

  lemma NextToPeel(pl: Plan, done: set<nat>, rest: set<nat>) returns (i: nat)
    requires !StuckSet(pl, rest) && rest != {} && forall i :: 0 <= i < |pl.nodes| ==> i in done || i in rest
    requires forall i :: i in rest ==> i < |pl.nodes|
    ensures i in rest && i < |pl.nodes| && !Starved(pl, i)
    ensures forall j :: 0 <= j < |pl.nodes| && MustPrecede(pl, pl.nodes[i], j) ==> j in done
  {
    i :| i in rest && !Starved(pl, i) && !WaitsWithin(pl, i, rest);
    forall j | 0 <= j < |pl.nodes| && MustPrecede(pl, pl.nodes[i], j) ensures j in done {
      assert j !in rest;
    }
  }

  lemma {:induction false} Peel(pl: Plan, rank: seq<nat>, done: set<nat>) returns (rank': seq<nat>)
    requires OrderedIn(pl, rank, done) && !(exists c :: StuckSet(pl, c))
    ensures OrderedIn(pl, rank', Below(|pl.nodes|))
    decreases |Below(|pl.nodes|) - done|
  {
    var all := Below(|pl.nodes|);
    var rest := all - done;
    if rest == {} {
      assert done == all;
      rank' := rank;
    } else {
      assert !StuckSet(pl, rest);
      var i := NextToPeel(pl, done, rest);
      assert all - (done + {i}) == rest - {i};
      PeelOne(pl, rank, done, i);
      rank' := Peel(pl, rank[i := |done|], done + {i});
    }
  }

  lemma OrderIsAcyclic(pl: Plan, rank: seq<nat>)
    requires OrderedIn(pl, rank, Below(|pl.nodes|)) && AllReadersExist(pl)
    ensures Acyclic(pl, rank)
  {
    forall i | 0 <= i < |pl.nodes| ensures Supplied(pl, rank, i) {
      var nd := pl.nodes[i];
      assert i in Below(|pl.nodes|) && !Starved(pl, i);
      forall k | Produced(pl, k) && ((exists q :: 0 <= q < |nd.inputs| && nd.inputs[q].key == k) || nd.guard == Some(k))
        ensures ProducedBefore(pl, rank, k, i)
      {
        var p :| 0 <= p < |pl.nodes| && pl.nodes[p].output == k;
        assert MustPrecede(pl, nd, p);
      }
    }
  }

  /** `order` lists some nodes, each after everything it waits for. */
  ghost predicate Begins(pl: Plan, order: seq<nat>) {
    && (forall p :: 0 <= p < |order| ==> order[p] < |pl.nodes|)
    && (forall p, q :: 0 <= p < q < |order| ==> order[p] != order[q])
    && (forall p, j :: 0 <= p < |order| && 0 <= j < |pl.nodes| && MustPrecede(pl, pl.nodes[order[p]], j) ==>
          j in order[..p])
  }

  lemma OneMore(pl: Plan, order: seq<nat>, i: nat)
    requires Begins(pl, order) && i < |pl.nodes| && i !in order
    requires forall j :: 0 <= j < |pl.nodes| && MustPrecede(pl, pl.nodes[i], j) ==> j in order
    ensures Begins(pl, order + [i])
  {
    var more := order + [i];
    forall p, j | 0 <= p < |more| && 0 <= j < |pl.nodes| && MustPrecede(pl, pl.nodes[more[p]], j)
      ensures j in more[..p]
    {
      assert more[..p] == order[..p];
      assert p == |order| ==> order[..p] == order;
    }
  }

  lemma {:induction false} ScheduleFrom(pl: Plan, order: seq<nat>) returns (whole: seq<nat>)
    requires Begins(pl, order) && !(exists c :: StuckSet(pl, c))
    ensures Schedule(pl, whole)
    decreases |Below(|pl.nodes|) - (set i | i in order)|
  {
    var all, done := Below(|pl.nodes|), set i | i in order;
    var rest := all - done;
    if rest == {} {
      forall i | 0 <= i < |pl.nodes| ensures i in order {
        assert i in all;
      }
      whole := order;
    } else {
      assert !StuckSet(pl, rest);
      var i := NextToPeel(pl, done, rest);
      OneMore(pl, order, i);
      assert all - (set j | j in order + [i]) == rest - {i};
      whole := ScheduleFrom(pl, order + [i]);
    }
  }

  // ---- Runs that end ----

  lemma {:induction false} FinishingRun(pl: Plan, rank: seq<nat>, steps: seq<Action>, s: State) returns (s': State)
    requires WellFormed(pl) && WellSliced(pl) && Acyclic(pl, rank) && Reaches(pl, steps, s) && Shaped(pl, s)
    ensures Reachable(pl, s') && Shaped(pl, s') && Finished(pl, s')
    decreases 3 * pl.world + 6 * (|pl.nodes| * pl.slices) - |steps|
  {
    if Finished(pl, s) {
      s' := s;
    } else {
      var a := NeverStuck(pl, rank, s);
      var s1 := Next(pl, s, a);
      assert (steps + [a])[..|steps|] == steps;
      assert Reaches(pl, steps + [a], s1);
      RunsEnd(pl, steps + [a], s1);
      s' := FinishingRun(pl, rank, steps + [a], s1);
    }
  }

  ghost predicate CanFinish(pl: Plan)
    requires |pl.lane| == |pl.nodes|
  {
    exists s :: Reachable(pl, s) && Shaped(pl, s) && Finished(pl, s)
  }

  /** Some run finishes if and only if no set of nodes waits for itself; and then (`NeverStuck`,
      `RunsEnd`) every run finishes. */
  lemma FinishesExactlyWhenAcyclic(pl: Plan)
    requires WellFormed(pl) && WellSliced(pl) && AllReadersExist(pl)
    ensures CanFinish(pl) <==> !(exists c :: StuckSet(pl, c))
  {
    if c :| StuckSet(pl, c) {
      forall s | Reachable(pl, s) && Shaped(pl, s) ensures !Finished(pl, s) {
        var steps :| Reaches(pl, steps, s);
        StuckSetNeverStarts(pl, steps, s, c);
        var i :| i in c;
        assert s.next[i] == 0;
      }
    } else {
      var rank := Peel(pl, seq(|pl.nodes|, i => 0), {});
      OrderIsAcyclic(pl, rank);
      assert Reaches(pl, [], Start(pl));
      var s := FinishingRun(pl, rank, [], Start(pl));
    }
  }

  /** A copy of a chunk onto itself waits for its own read of the version it overwrites. */
  lemma SelfCopyIsStuck(pl: Plan, i: nat)
    requires i < |pl.nodes| && Registered(pl, i) && pl.nodes[i].guard == Some(pl.nodes[i].inputs[0].key)
    ensures StuckSet(pl, {i})
  {
    assert MustPrecede(pl, pl.nodes[i], i);
    assert WaitsWithin(pl, i, {i});
  }

  /** So does a node that reads its own output: what a reduction compiles to that is the only writer
      of its destination. `Completion` has the general case. */
  lemma FirstReduceIsStuck(pl: Plan, i: nat, q: nat)
    requires i < |pl.nodes| && q < |pl.nodes[i].inputs| && pl.nodes[i].inputs[q].key == pl.nodes[i].output
    ensures StuckSet(pl, {i})
  {
    assert MustPrecede(pl, pl.nodes[i], i);
    assert WaitsWithin(pl, i, {i});
  }
}
