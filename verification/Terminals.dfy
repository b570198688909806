/** When a rank's executor loop ends: `terminalsComplete`. */
module Terminals {
  import opened Ir
  import opened Graphs
  import opened Executor
  import opened Safety
  import opened RaceFreedom
  import opened Progress

  /** The exit test of a rank's loop: its own nodes are done and its terminal keys are written. */
  predicate TerminalsComplete(pl: Plan, s: State, rank: nat, terminals: seq<Key>)
    requires Shaped(pl, s)
  {
    && (forall i :: 0 <= i < |pl.nodes| && pl.nodes[i].rank == rank ==> s.completed[i] >= pl.slices)
    && (forall t :: 0 <= t < |terminals| ==> Wp(s, terminals[t]) >= pl.slices)
  }

  ghost predicate HasWriter(pl: Plan, k: Key) {
    Produced(pl, k) || (k.version == 0 && k.base in pl.inputs && k.base.owner < pl.world)
  }

  /** Counters are only ever written for compiled output keys and for input chunks. */
  ghost predicate NoStray(pl: Plan, s: State) {
    forall k :: k in s.wp ==> HasWriter(pl, k)
  }

  lemma StepKeepsNoStray(pl: Plan, s: State, a: Action)
    requires WellFormed(pl) && WellSliced(pl) && Inv(pl, s) && Enabled(pl, s, a) && NoStray(pl, s)
    ensures NoStray(pl, Next(pl, s, a))
  {
    var s' := Next(pl, s, a);
    if Published(pl, s, a).Some? {
      PublishesInOrder(pl, s, a);
      OwnKeyHasWriter(pl, Published(pl, s, a).value.node);
    }
    forall k | k in s'.wp ensures HasWriter(pl, k) {
      WpDomain(pl, s, a, k);
    }
  }

  lemma OwnKeyHasWriter(pl: Plan, i: nat)
    requires WellFormed(pl) && i < |pl.nodes|
    ensures HasWriter(pl, Slot(pl.nodes[i].output))
  {
    assert NodeOk(pl, i);
    assert pl.nodes[i].output == Slot(pl.nodes[i].output);
  }

  lemma WpDomain(pl: Plan, s: State, a: Action, k: Key)
    requires Shaped(pl, s) && Enabled(pl, s, a) && k in Next(pl, s, a).wp
    requires Published(pl, s, a).Some? ==> Published(pl, s, a).value.node < |pl.nodes|
    ensures || k in s.wp
            || (k.version == 0 && k.base in pl.inputs && k.base.owner < pl.world)
            || (Published(pl, s, a).Some? && k == Slot(pl.nodes[Published(pl, s, a).value.node].output))
  {
  }

  lemma {:induction false} ReachesNoStray(pl: Plan, steps: seq<Action>, s: State)
    requires WellFormed(pl) && WellSliced(pl) && Reaches(pl, steps, s)
    ensures NoStray(pl, s)
    decreases |steps|
  {
    if |steps| > 0 {
      var n := |steps| - 1;
      var s0 :| Reaches(pl, steps[..n], s0) && Shaped(pl, s0)
        && Enabled(pl, s0, steps[n]) && s == Next(pl, s0, steps[n]);
      ReachesNoStray(pl, steps[..n], s0);
      ReachesInv(pl, steps[..n], s0);
      StepKeepsNoStray(pl, s0, steps[n]);
    }
  }

  lemma ProducedWhenFinished(pl: Plan, s: State, k: Key)
    requires Shaped(pl, s) && WpOk(pl, s) && Finished(pl, s) && Produced(pl, k)
    ensures Wp(s, k) >= pl.slices
  {
    var i :| 0 <= i < |pl.nodes| && pl.nodes[i].output == k;
    assert Wp(s, k) == Written(pl, s, i);
  }

  lemma InputsWhenPublished(pl: Plan, s: State, k: Key)
    requires Shaped(pl, s) && WpOk(pl, s) && k.version == 0 && k.base in pl.inputs && k.base.owner in s.published
    ensures Wp(s, k) >= pl.slices
  {
    assert k == Key(k.base, 0);
  }

  lemma UnwrittenStaysZero(pl: Plan, s: State, k: Key)
    requires NoStray(pl, s) && k.version < MAX_PROGRESS_VERSIONS && !HasWriter(pl, k)
    ensures Wp(s, k) == 0
  {
    assert Slot(k) == k;
  }

  /** Once every slice is done, a terminal key is complete exactly when some node of some rank
      produces it, or it is an input chunk. */
  lemma FinishedTerminal(pl: Plan, s: State, k: Key)
    requires WellFormed(pl) && WellSliced(pl) && Reachable(pl, s) && k.version < MAX_PROGRESS_VERSIONS
    requires Shaped(pl, s) && Finished(pl, s)
    requires forall r: nat :: r < pl.world ==> r in s.published
    ensures Wp(s, k) >= pl.slices <==> HasWriter(pl, k)
  {
    var steps :| Reaches(pl, steps, s);
    ReachesInv(pl, steps, s);
    ReachesNoStray(pl, steps, s);
    if Produced(pl, k) {
      ProducedWhenFinished(pl, s, k);
    } else if HasWriter(pl, k) {
      InputsWhenPublished(pl, s, k);
    } else {
      UnwrittenStaysZero(pl, s, k);
    }
  }

  /** Executors go on until every rank has left its loop, provided each rank's terminal chunks
      are written by some instruction: a run that cannot be extended has completed everywhere. */
  lemma RunsUntilComplete(pl: Plan, rank: seq<nat>, s: State, terminals: seq<seq<Key>>) returns (a: Action)
    requires WellFormed(pl) && WellSliced(pl) && Acyclic(pl, rank)
    requires Reachable(pl, s) && Shaped(pl, s) && |terminals| == pl.world
    requires forall r, t :: 0 <= r < pl.world && 0 <= t < |terminals[r]| ==>
               terminals[r][t].version < MAX_PROGRESS_VERSIONS && HasWriter(pl, terminals[r][t])
    requires exists r :: 0 <= r < pl.world && !TerminalsComplete(pl, s, r, terminals[r])
    ensures Enabled(pl, s, a)
  {
    if !Finished(pl, s) {
      a := NeverStuck(pl, rank, s);
    } else if r: nat :| r < pl.world && r !in s.published {
      a := PublishInputs(r);
    } else {
      var r :| 0 <= r < pl.world && !TerminalsComplete(pl, s, r, terminals[r]);
      forall t | 0 <= t < |terminals[r]| ensures Wp(s, terminals[r][t]) >= pl.slices {
        FinishedTerminal(pl, s, terminals[r][t]);
      }
      assert false;
    }
  }

  /** A terminal chunk no instruction writes keeps its rank in the loop for ever. */
  lemma UnwrittenTerminalNeverCompletes(pl: Plan, s: State, rank: nat, terminals: seq<Key>, t: nat)
    requires WellFormed(pl) && WellSliced(pl) && Reachable(pl, s) && t < |terminals|
    requires terminals[t].version < MAX_PROGRESS_VERSIONS && !HasWriter(pl, terminals[t])
    ensures Shaped(pl, s) && !TerminalsComplete(pl, s, rank, terminals)
  {
    var steps :| Reaches(pl, steps, s);
    ReachesInv(pl, steps, s);
    ReachesNoStray(pl, steps, s);
    UnwrittenStaysZero(pl, s, terminals[t]);
  }
}
