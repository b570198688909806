/** Overwrite guards and input waits order every pair of conflicting copies. */
module RaceFreedom {
  import opened Ir
  import opened Graphs
  import opened Executor
  import opened Safety

  ghost predicate Produced(pl: Plan, k: Key) {
    exists j :: 0 <= j < |pl.nodes| && pl.nodes[j].output == k
  }

  /** A reduction accumulates into the version its guard protects; if there is none, it was compiled
      to read its own or a later version. */
  predicate Accumulates(nd: Node) {
    |nd.inputs| == 2 ==>
      && nd.inputs[1].key.base == nd.output.base
      && (Some(nd.inputs[1].key) == nd.guard || nd.inputs[1].key.version >= nd.output.version)
  }

  ghost predicate VersionedNode(pl: Plan, i: nat)
    requires i < |pl.nodes|
  {
    var nd := pl.nodes[i];
    && Registered(pl, i) && nd.output.version > 0
    && nd.guard == Some(Key(nd.output.base, nd.output.version - 1))
    && Accumulates(nd)
    && (nd.output.version > 1 ==> Produced(pl, nd.guard.value))
    && (forall q :: 0 <= q < |nd.inputs| && nd.inputs[q].key.version > 0 ==> Produced(pl, nd.inputs[q].key))
  }

  /** A copyback of an in-place collective: it reads the last version of a chunk, as an
      unregistered reader, and is the only node to touch the chunk it writes. */
  ghost predicate CopyBack(pl: Plan, i: nat)
    requires i < |pl.nodes|
  {
    var nd := pl.nodes[i];
    && |nd.inputs| == 1 && nd.inputs[0].readerId == -1 && nd.output.version == 1
    && nd.inputs[0].key.version > 0 && Produced(pl, nd.inputs[0].key)
    && (forall j :: 0 <= j < |pl.nodes| && pl.nodes[j].output.base == nd.inputs[0].key.base ==>
          pl.nodes[j].output.version <= nd.inputs[0].key.version)
    && (forall j :: 0 <= j < |pl.nodes| && j != i ==> pl.nodes[j].output.base != nd.output.base)
    && (forall j :: 0 <= j < |pl.nodes| ==> !Reads(pl.nodes[j], nd.output.base))
    && nd.guard.Some? && (nd.guard.value.version > 0 ==> Produced(pl, nd.guard.value))
  }

  /** Every chunk is written one version after the other, and the guard of a version is the
      version before it. Holds of every compilation (`GraphFacts`). */
  ghost predicate Versioned(pl: Plan) {
    forall i :: 0 <= i < |pl.nodes| ==> VersionedNode(pl, i) || CopyBack(pl, i)
  }

  /** A node that shares the chunk it writes with another writer, or with a reader, is no copyback. */
  lemma SharedIsVersioned(pl: Plan, i: nat, j: nat)
    requires Versioned(pl) && i < |pl.nodes| && j < |pl.nodes|
    requires (i != j && pl.nodes[j].output.base == pl.nodes[i].output.base) ||
             Reads(pl.nodes[j], pl.nodes[i].output.base)
    ensures VersionedNode(pl, i)
  {
  }

  lemma ReaderOfVersion(pl: Plan, i: nat, j: nat)
    requires Versioned(pl) && i < |pl.nodes| && j < |pl.nodes| && |pl.nodes[i].inputs| > 0
    requires pl.nodes[j].output.base == pl.nodes[i].inputs[0].key.base
    requires pl.nodes[i].inputs[0].key.version < pl.nodes[j].output.version
    ensures VersionedNode(pl, i) && VersionedNode(pl, j)
  {
    assert Reads(pl.nodes[i], pl.nodes[j].output.base);
    SharedIsVersioned(pl, j, i);
  }

  lemma ReadsProduced(pl: Plan, i: nat, q: nat)
    requires WellFormed(pl) && Versioned(pl) && i < |pl.nodes| && q < |pl.nodes[i].inputs|
    requires pl.nodes[i].inputs[q].key.version > 0
    ensures Produced(pl, pl.nodes[i].inputs[q].key)
  {
    assert VersionedNode(pl, i) || CopyBack(pl, i);
  }

  /** The copy of slice `sc` has been handed out and its result is not yet published. */
  predicate InFlight(pl: Plan, s: State, i: nat, sc: nat)
    requires Shaped(pl, s) && i < |pl.nodes|
  {
    Written(pl, s, i) <= sc < s.next[i]
  }

  predicate Reads(nd: Node, b: Base) {
    exists q :: 0 <= q < |nd.inputs| && nd.inputs[q].key.base == b
  }

  /** `i` writes a chunk that `j` reads or writes. */
  predicate Conflict(pl: Plan, i: nat, j: nat)
    requires i < |pl.nodes| && j < |pl.nodes|
  {
    pl.nodes[i].output.base == pl.nodes[j].output.base || Reads(pl.nodes[j], pl.nodes[i].output.base)
  }

  lemma {:induction false} WritersInVersionOrder(pl: Plan, s: State, i: nat, j: nat)
    requires WellFormed(pl) && Versioned(pl) && Inv(pl, s) && i < |pl.nodes| && j < |pl.nodes|
    requires pl.nodes[i].output.base == pl.nodes[j].output.base
    requires pl.nodes[i].output.version < pl.nodes[j].output.version
    ensures s.next[j] <= Written(pl, s, i)
    decreases pl.nodes[j].output.version
  {
    SharedIsVersioned(pl, j, i);
    assert NodeOk(pl, i) && NodeWaits(pl, s, j) && VersionedNode(pl, j);
    var before := pl.nodes[j].guard.value;
    if before != pl.nodes[i].output {
      var m :| 0 <= m < |pl.nodes| && pl.nodes[m].output == before;
      WritersInVersionOrder(pl, s, i, m);
    }
  }

  lemma {:induction false} ReadersBeforeOverwrite(pl: Plan, s: State, i: nat, j: nat)
    requires WellFormed(pl) && Versioned(pl) && Inv(pl, s) && i < |pl.nodes| && j < |pl.nodes|
    requires |pl.nodes[i].inputs| > 0 && pl.nodes[i].inputs[0].key.base == pl.nodes[j].output.base
    requires pl.nodes[i].inputs[0].key.version < pl.nodes[j].output.version
    ensures s.next[j] <= s.completed[i]
    decreases pl.nodes[j].output.version
  {
    ReaderOfVersion(pl, i, j);
    assert NodeOk(pl, i) && NodeWaits(pl, s, j);
    var inp := pl.nodes[i].inputs[0];
    var before := pl.nodes[j].guard.value;
    if before == inp.key {
      assert s.next[j] <= Rd(s, before, inp.readerId);
    } else {
      var m :| 0 <= m < |pl.nodes| && pl.nodes[m].output == before;
      ReadersBeforeOverwrite(pl, s, i, m);
    }
  }

  lemma ReadAfterWrite(pl: Plan, s: State, i: nat, q: nat, p: nat)
    requires WellFormed(pl) && Inv(pl, s) && i < |pl.nodes| && q < |pl.nodes[i].inputs| && p < |pl.nodes|
    requires pl.nodes[p].output == pl.nodes[i].inputs[q].key
    ensures s.next[i] <= Written(pl, s, p)
  {
    assert NodeWaits(pl, s, i);
  }

  lemma WriterConflict(pl: Plan, s: State, i: nat, j: nat, sc: nat)
    requires WellFormed(pl) && Versioned(pl) && Inv(pl, s) && i < |pl.nodes| && j < |pl.nodes| && i != j
    requires pl.nodes[i].output.base == pl.nodes[j].output.base
    ensures !(InFlight(pl, s, i, sc) && InFlight(pl, s, j, sc))
  {
    assert i < j || j < i;
    assert pl.nodes[i].output != pl.nodes[j].output;
    if pl.nodes[i].output.version < pl.nodes[j].output.version {
      WritersInVersionOrder(pl, s, i, j);
    } else {
      WritersInVersionOrder(pl, s, j, i);
    }
  }

  lemma ReaderConflict(pl: Plan, s: State, i: nat, j: nat, sc: nat)
    requires WellFormed(pl) && Versioned(pl) && Inv(pl, s) && i < |pl.nodes| && j < |pl.nodes| && i != j
    requires |pl.nodes[j].inputs| > 0 && pl.nodes[j].inputs[0].key.base == pl.nodes[i].output.base
    ensures !(InFlight(pl, s, i, sc) && InFlight(pl, s, j, sc))
  {
    assert NodeOk(pl, j) && NodeOk(pl, i);
    var k := pl.nodes[j].inputs[0].key;
    if k.version < pl.nodes[i].output.version {
      ReadersBeforeOverwrite(pl, s, j, i);
    } else {
      ReadsProduced(pl, j, 0);
      var p :| 0 <= p < |pl.nodes| && pl.nodes[p].output == k;
      ReadAfterWrite(pl, s, j, 0, p);
      if p != i {
        assert p < i || i < p;
        assert pl.nodes[p].output != pl.nodes[i].output;
        WritersInVersionOrder(pl, s, i, p);
      }
    }
  }

  lemma ReadsItsSource(pl: Plan, j: nat, b: Base)
    requires Versioned(pl) && j < |pl.nodes| && NodeOk(pl, j) && Reads(pl.nodes[j], b) && b != pl.nodes[j].output.base
    ensures |pl.nodes[j].inputs| > 0 && pl.nodes[j].inputs[0].key.base == b
  {
    assert VersionedNode(pl, j) || CopyBack(pl, j);
    var q :| 0 <= q < |pl.nodes[j].inputs| && pl.nodes[j].inputs[q].key.base == b;
  }

  /** In every reachable state of all ranks, two copies in flight on the same slice never conflict. */
  lemma RaceFree(pl: Plan, s: State, i: nat, j: nat, sc: nat)
    requires WellFormed(pl) && WellSliced(pl) && Versioned(pl) && Reachable(pl, s)
    requires i < |pl.nodes| && j < |pl.nodes| && i != j && Conflict(pl, i, j)
    ensures Shaped(pl, s)
    ensures !(InFlight(pl, s, i, sc) && InFlight(pl, s, j, sc))
  {
    var steps :| Reaches(pl, steps, s);
    ReachesInv(pl, steps, s);
    if pl.nodes[i].output.base == pl.nodes[j].output.base {
      WriterConflict(pl, s, i, j, sc);
    } else {
      ReadsItsSource(pl, j, pl.nodes[i].output.base);
      ReaderConflict(pl, s, i, j, sc);
    }
  }

  /** A slice is read only when the version the reader was compiled for is in memory: the slice of
      that version has been copied, and no later version of it has been. */
  lemma ReadsItsVersion(pl: Plan, s: State, i: nat, q: nat, sc: nat, j: nat)
    requires WellFormed(pl) && WellSliced(pl) && Versioned(pl) && Reachable(pl, s)
    requires i < |pl.nodes| && q < |pl.nodes[i].inputs| && j < |pl.nodes| && i != j
    requires pl.nodes[j].output.base == pl.nodes[i].inputs[q].key.base
    ensures Shaped(pl, s)
    ensures InFlight(pl, s, i, sc) && pl.nodes[j].output.version <= pl.nodes[i].inputs[q].key.version ==>
              Contains(s.log, Job(j, sc))
    ensures InFlight(pl, s, i, sc) && pl.nodes[j].output.version > pl.nodes[i].inputs[q].key.version ==>
              !Contains(s.log, Job(j, sc))
  {
    var steps :| Reaches(pl, steps, s);
    ReachesInv(pl, steps, s);
    if InFlight(pl, s, i, sc) {
      if pl.nodes[j].output.version <= pl.nodes[i].inputs[q].key.version {
        VersionInMemory(pl, s, i, q, j);
      } else {
        NotYetOverwritten(pl, s, i, q, j);
        ExecutedOnceSubmitted(pl, s, j, sc);
      }
    }
  }

  lemma ExecutedOnceSubmitted(pl: Plan, s: State, j: nat, sc: nat)
    requires Inv(pl, s) && j < |pl.nodes|
    ensures Contains(s.log, Job(j, sc)) ==> sc < s.next[j]
  {
    if Contains(s.log, Job(j, sc)) {
      var p :| 0 <= p < |s.log| && s.log[p] == Job(j, sc);
    }
  }

  lemma VersionInMemory(pl: Plan, s: State, i: nat, q: nat, j: nat)
    requires WellFormed(pl) && Versioned(pl) && Inv(pl, s)
    requires i < |pl.nodes| && q < |pl.nodes[i].inputs| && j < |pl.nodes|
    requires pl.nodes[j].output.base == pl.nodes[i].inputs[q].key.base
    requires pl.nodes[j].output.version <= pl.nodes[i].inputs[q].key.version
    ensures s.next[i] <= Written(pl, s, j)
  {
    var k := pl.nodes[i].inputs[q].key;
    assert NodeOk(pl, j);
    ReadsProduced(pl, i, q);
    var p :| 0 <= p < |pl.nodes| && pl.nodes[p].output == k;
    ReadAfterWrite(pl, s, i, q, p);
    if pl.nodes[j].output.version < k.version {
      WritersInVersionOrder(pl, s, j, p);
    } else {
      assert j == p by {
        assert !(j < p) && !(p < j);
      }
    }
  }

  lemma NotYetOverwritten(pl: Plan, s: State, i: nat, q: nat, j: nat)
    requires WellFormed(pl) && Versioned(pl) && Inv(pl, s) && i != j
    requires i < |pl.nodes| && q < |pl.nodes[i].inputs| && j < |pl.nodes|
    requires pl.nodes[j].output.base == pl.nodes[i].inputs[q].key.base
    requires pl.nodes[j].output.version > pl.nodes[i].inputs[q].key.version
    ensures s.next[j] <= Written(pl, s, i)
  {
    assert NodeOk(pl, i) && (VersionedNode(pl, i) || CopyBack(pl, i));
    if q == 0 {
      ReadersBeforeOverwrite(pl, s, i, j);
    } else {
      assert pl.nodes[j].output.version != pl.nodes[i].output.version by {
        assert i < j || j < i;
        assert pl.nodes[i].output != pl.nodes[j].output;
      }
      WritersInVersionOrder(pl, s, i, j);
    }
  }

  /** A windowed D2H never runs more than four slices ahead of its slowest reader. */
  lemma LeadWindow(pl: Plan, s: State, i: nat, r: nat)
    requires WellFormed(pl) && WellSliced(pl) && Reachable(pl, s)
    requires i < |pl.nodes| && pl.nodes[i].op == D2H && pl.nodes[i].rank in pl.windowed
    requires pl.nodes[i].workBytes > 0 && r < NumReaders(pl, pl.nodes[i].output)
    ensures Shaped(pl, s) && s.next[i] <= Rd(s, pl.nodes[i].output, r) + D2H_LEAD_WINDOW
  {
    var steps :| Reaches(pl, steps, s);
    ReachesInv(pl, steps, s);
    assert NodeInWindow(pl, s, i);
  }
}
