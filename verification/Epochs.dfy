/** Consecutive works on one communicator's shared counters. Progress counters are kept per epoch
    parity and reader counts are not; both are reused by every work. Each rank clears and sets the
    reader counts of its keys, resets their progress, and only then meets the others at the start
    barrier; a second barrier closes the work. Barriers are the ones proved in `Barrier`: nobody
    passes before everybody has arrived. */
module Epochs {
  import opened Ir

  /** `active[r]` are the keys of rank r's graph; every rank's graph carries all reader counts. */
  datatype Work = Work(active: seq<set<Key>>, readers: map<Key, nat>)

  datatype Phase = Clearing | Setting | Resetting | AtStart | Running | AtEnd

  /** `done` are the keys the rank's current loop has handled. */
  datatype Place = Place(work: nat, phase: Phase, done: set<Key>)

  datatype State = State(place: seq<Place>, readers: map<Key, nat>, progress: map<(Key, nat), nat>)

  function Order(f: Phase): nat {
    match f
    case Clearing => 0
    case Setting => 1
    case Resetting => 2
    case AtStart => 3
    case Running => 4
    case AtEnd => 5
  }

  /** Position on the common time line of works and phases. */
  function At(p: Place): nat { 6 * p.work + Order(p.phase) }

  function Readers(s: State, k: Key): nat { if k in s.readers then s.readers[k] else 0 }

  function Progress(s: State, k: Key, epoch: nat): nat {
    if (k, epoch % 2) in s.progress then s.progress[(k, epoch % 2)] else 0
  }

  datatype Action =
    | Clear(rank: nat, key: Key)
    | SetReaders(rank: nat, key: Key)
    | Reset(rank: nat, key: Key)
    | Publish(rank: nat, key: Key, value: nat)
    | Advance(rank: nat)

  predicate Enabled(works: nat -> Work, s: State, a: Action) {
    && a.rank < |s.place| == |works(s.place[a.rank].work).active|
    && var p := s.place[a.rank];
    && var wk := works(p.work);
    && match a
       case Clear(r, k) => p.phase == Clearing && k in wk.active[r]
       case SetReaders(r, k) => p.phase == Setting && k in wk.readers
       case Reset(r, k) => p.phase == Resetting && k in wk.active[r]
       case Publish(r, k, v) => p.phase == Running && k in wk.active[r]
       case Advance(r) => CanAdvance(wk, s, r)
  }

  /** Loops run to their end; a barrier opens when all ranks have arrived at it. */
  predicate CanAdvance(wk: Work, s: State, r: nat)
    requires r < |s.place| == |wk.active|
  {
    var p := s.place[r];
    match p.phase
    case Clearing => p.done == wk.active[r]
    case Setting => p.done == wk.readers.Keys
    case Resetting => p.done == wk.active[r]
    case Running => true
    case _ => forall q :: 0 <= q < |s.place| ==> At(s.place[q]) >= At(p)
  }

  function After(p: Place): Place {
    match p.phase
    case Clearing => Place(p.work, Setting, {})
    case Setting => Place(p.work, Resetting, {})
    case Resetting => Place(p.work, AtStart, {})
    case AtStart => Place(p.work, Running, {})
    case Running => Place(p.work, AtEnd, {})
    case AtEnd => Place(p.work + 1, Clearing, {})
  }

  function Next(works: nat -> Work, s: State, a: Action): State
    requires Enabled(works, s, a)
  {
    var p := s.place[a.rank];
    match a
    case Clear(r, k) => s.(readers := s.readers[k := 0], place := s.place[r := p.(done := p.done + {k})])
    case SetReaders(r, k) =>
      s.(readers := s.readers[k := works(p.work).readers[k]], place := s.place[r := p.(done := p.done + {k})])
    case Reset(r, k) =>
      s.(progress := s.progress[(k, p.work % 2) := 0], place := s.place[r := p.(done := p.done + {k})])
    case Publish(r, k, v) =>
      s.(progress := s.progress[(k, p.work % 2) := Max(Progress(s, k, p.work), v)])
    case Advance(r) => s.(place := s.place[r := After(p)])
  }

  ghost predicate Takes(works: nat -> Work, s: State, a: Action, s': State) {
    Enabled(works, s, a) && s' == Next(works, s, a)
  }

  /** Runs from the first work, whatever the counters hold then. */
  ghost predicate Reaches(works: nat -> Work, n: nat, steps: seq<Action>, s: State) {
    if |steps| == 0 then s.place == seq(n, i => Place(0, Clearing, {}))
    else
      var front, last := steps[..|steps| - 1], steps[|steps| - 1];
      exists s0 :: Reaches(works, n, front, s0) && Takes(works, s0, last, s)
  }

  // ---- Ranks stay together ----

  /** Nobody is past a barrier that somebody has not reached. */
  predicate Apart(p: Place, q: Place, w: nat) {
    (At(p) >= 6 * w + 4 && At(q) < 6 * w + 3) || (At(p) >= 6 * w + 6 && At(q) < 6 * w + 5)
  }

  ghost predicate Together(s: State) {
    forall p, q, w: nat :: 0 <= p < |s.place| && 0 <= q < |s.place| ==> !Apart(s.place[p], s.place[q], w)
  }

  lemma AtMoves(works: nat -> Work, s: State, a: Action, q: nat)
    requires Enabled(works, s, a) && q < |s.place|
    ensures |Next(works, s, a).place| == |s.place|
    ensures At(Next(works, s, a).place[q]) == At(s.place[q]) + if a == Advance(q) then 1 else 0
  {
  }

  lemma KeepsTogether(works: nat -> Work, s: State, a: Action)
    requires Together(s) && Enabled(works, s, a)
    ensures Together(Next(works, s, a))
  {
    var s' := Next(works, s, a);
    forall p, q, w: nat | 0 <= p < |s'.place| && 0 <= q < |s'.place| ensures !Apart(s'.place[p], s'.place[q], w) {
      AtMoves(works, s, a, p);
      AtMoves(works, s, a, q);
      assert !Apart(s.place[p], s.place[q], w);
      if a == Advance(p) {
        BarrierHolds(works, s, p, q, w);
      }
    }
  }

  lemma BarrierHolds(works: nat -> Work, s: State, p: nat, q: nat, w: nat)
    requires Enabled(works, s, Advance(p)) && q < |s.place|
    ensures At(s.place[p]) == 6 * w + 3 || At(s.place[p]) == 6 * w + 5 ==> At(s.place[q]) >= At(s.place[p])
  {
  }

  // ---- Reader counts and fresh counters ----

  /** Rank `r` has set the count of `k` for work `w` and will not touch it again in this work. */
  predicate Settled(p: Place, w: nat, k: Key) {
    At(p) >= 6 * w + 2 || (p.work == w && p.phase == Setting && k in p.done)
  }

  predicate Cleared(p: Place, w: nat, k: Key) {
    At(p) >= 6 * w + 1 || (p.work == w && p.phase == Clearing && k in p.done)
  }

  predicate WasReset(p: Place, w: nat, k: Key) {
    At(p) >= 6 * w + 3 || (p.work == w && p.phase == Resetting && k in p.done)
  }

  /** Everyone is in work `w` or waits at the end of the work before it. */
  ghost predicate InWork(s: State, w: nat) {
    && (forall q :: 0 <= q < |s.place| ==> 6 * w - 1 <= At(s.place[q]) < 6 * w + 6)
    && (exists q :: 0 <= q < |s.place| && At(s.place[q]) >= 6 * w)
  }

  ghost predicate CountOk(works: nat -> Work, s: State, w: nat, k: Key)
    requires |works(w).active| == |s.place|
  {
    if k in works(w).readers then
      Readers(s, k) == works(w).readers[k] || exists r :: 0 <= r < |s.place| && !Settled(s.place[r], w, k)
    else
      forall r :: 0 <= r < |s.place| && k in works(w).active[r] && Cleared(s.place[r], w, k) ==> Readers(s, k) == 0
  }

  ghost predicate SomeoneRuns(s: State, w: nat) {
    exists q :: 0 <= q < |s.place| && At(s.place[q]) >= 6 * w + 4
  }

  ghost predicate FreshOk(works: nat -> Work, s: State, w: nat, k: Key)
    requires |works(w).active| == |s.place|
  {
    forall r :: 0 <= r < |s.place| && k in works(w).active[r] && WasReset(s.place[r], w, k) && !SomeoneRuns(s, w) ==>
      Progress(s, k, w) == 0
  }

  ghost predicate Sized(works: nat -> Work, n: nat) {
    forall w :: |works(w).active| == n
  }

  ghost predicate Inv(works: nat -> Work, n: nat, s: State) {
    && Sized(works, n) && |s.place| == n && Together(s)
    && forall w: nat, k :: InWork(s, w) ==> CountOk(works, s, w, k) && FreshOk(works, s, w, k)
  }

  /** A work is entered by one rank while all others wait at the end of the previous one. */
  lemma EntersTogether(works: nat -> Work, s: State, a: Action, w: nat)
    requires Together(s) && Enabled(works, s, a) && InWork(Next(works, s, a), w) && !InWork(s, w)
    ensures forall q :: 0 <= q < |s.place| ==> At(s.place[q]) < 6 * w
  {
    var s' := Next(works, s, a);
    AtMoves(works, s, a, a.rank);
    if p :| 0 <= p < |s.place| && At(s.place[p]) >= 6 * w {
      AtMoves(works, s, a, p);
      assert w == 0 || !Apart(s.place[p], s.place[a.rank], w - 1);
      forall q | 0 <= q < |s.place| ensures 6 * w - 1 <= At(s.place[q]) < 6 * w + 6 {
        AtMoves(works, s, a, q);
      }
    }
  }

  lemma EntryOk(works: nat -> Work, s: State, a: Action, w: nat, k: Key)
    requires |works(w).active| == |s.place| && Enabled(works, s, a)
    requires forall q :: 0 <= q < |s.place| ==> At(s.place[q]) < 6 * w
    ensures CountOk(works, Next(works, s, a), w, k) && FreshOk(works, Next(works, s, a), w, k)
  {
    var s' := Next(works, s, a);
    forall q | 0 <= q < |s.place|
      ensures !Settled(s'.place[q], w, k) && !Cleared(s'.place[q], w, k) && !WasReset(s'.place[q], w, k)
    {
      AtMoves(works, s, a, q);
    }
    assert !Settled(s'.place[a.rank], w, k);
  }

  lemma ClearingInWork(works: nat -> Work, s: State, a: Action, w: nat)
    requires Enabled(works, s, a) && InWork(s, w) && (a.Clear? || a.SetReaders? || a.Reset? || a.Publish?)
    ensures s.place[a.rank].work == w
  {
    assert 6 * w - 1 <= At(s.place[a.rank]) < 6 * w + 6;
  }

  lemma KeepsCount(works: nat -> Work, s: State, a: Action, w: nat, k: Key)
    requires |works(w).active| == |s.place| && InWork(s, w)
    requires Enabled(works, s, a) && CountOk(works, s, w, k)
    ensures CountOk(works, Next(works, s, a), w, k)
  {
    var s' := Next(works, s, a);
    var r := a.rank;
    if !a.Advance? { ClearingInWork(works, s, a, w); }
    AtMoves(works, s, a, r);
    if k in works(w).readers {
      if a == Clear(r, k) {
        assert !Settled(s'.place[r], w, k);
      } else if Readers(s', k) != works(w).readers[k] {
        var q :| 0 <= q < |s.place| && !Settled(s.place[q], w, k);
        assert !Settled(s'.place[q], w, k) by {
          AtMoves(works, s, a, q);
        }
      }
    } else {
      forall q | 0 <= q < |s'.place| && k in works(w).active[q] && Cleared(s'.place[q], w, k)
        ensures Readers(s', k) == 0
      {
        AtMoves(works, s, a, q);
        if a != Clear(q, k) {
          assert Cleared(s.place[q], w, k);
        }
      }
    }
  }

  lemma KeepsFresh(works: nat -> Work, s: State, a: Action, w: nat, k: Key)
    requires |works(w).active| == |s.place| && InWork(s, w)
    requires Enabled(works, s, a) && FreshOk(works, s, w, k)
    ensures FreshOk(works, Next(works, s, a), w, k)
  {
    var s' := Next(works, s, a);
    if !a.Advance? { ClearingInWork(works, s, a, w); }
    forall q | 0 <= q < |s'.place| && k in works(w).active[q] && WasReset(s'.place[q], w, k) && !SomeoneRuns(s', w)
      ensures Progress(s', k, w) == 0
    {
      forall p | 0 <= p < |s.place| ensures At(s.place[p]) < 6 * w + 4 {
        AtMoves(works, s, a, p);
        assert At(s'.place[p]) < 6 * w + 4;
      }
      AtMoves(works, s, a, q);
      if a != Reset(q, k) {
        assert WasReset(s.place[q], w, k);
      }
    }
  }

  lemma KeepsInv(works: nat -> Work, n: nat, s: State, a: Action)
    requires Inv(works, n, s) && Enabled(works, s, a)
    ensures Inv(works, n, Next(works, s, a))
  {
    var s' := Next(works, s, a);
    KeepsTogether(works, s, a);
    forall w: nat, k | InWork(s', w) ensures CountOk(works, s', w, k) && FreshOk(works, s', w, k) {
      if InWork(s, w) {
        KeepsCount(works, s, a, w, k);
        KeepsFresh(works, s, a, w, k);
      } else {
        EntersTogether(works, s, a, w);
        EntryOk(works, s, a, w, k);
      }
    }
  }

  lemma {:induction false} ReachesInv(works: nat -> Work, n: nat, steps: seq<Action>, s: State)
    requires Sized(works, n) && Reaches(works, n, steps, s)
    ensures Inv(works, n, s)
    decreases |steps|
  {
    if |steps| > 0 {
      var m := |steps| - 1;
      var s0 :| Reaches(works, n, steps[..m], s0) && Takes(works, s0, steps[m], s);
      ReachesInv(works, n, steps[..m], s0);
      KeepsInv(works, n, s0, steps[m]);
    }
  }

  // ---- Main results ----

  lemma RunningIsInWork(s: State, r: nat)
    requires Together(s) && r < |s.place| && s.place[r].phase == Running
    ensures forall q :: 0 <= q < |s.place| ==> s.place[q].work == s.place[r].work && Order(s.place[q].phase) >= 3
    ensures InWork(s, s.place[r].work)
  {
    var w := s.place[r].work;
    forall q | 0 <= q < |s.place| ensures 6 * w + 3 <= At(s.place[q]) < 6 * w + 6 {
      assert !Apart(s.place[r], s.place[q], w) && !Apart(s.place[q], s.place[r], w);
    }
    assert At(s.place[r]) >= 6 * w;
  }

  /** While any rank runs a work, no rank can clear a count or reset a counter, in either parity:
      nothing published for the work is erased before every rank has finished it. */
  lemma NothingErasedWhileRunning(works: nat -> Work, n: nat, steps: seq<Action>, s: State, r: nat, a: Action)
    requires Sized(works, n) && Reaches(works, n, steps, s) && r < |s.place| && s.place[r].phase == Running
    requires Enabled(works, s, a)
    ensures !a.Clear? && !a.SetReaders? && !a.Reset?
    ensures forall k: Key, e: nat :: Progress(Next(works, s, a), k, e) >= Progress(s, k, e)
    ensures forall k: Key :: Readers(Next(works, s, a), k) == Readers(s, k)
  {
    ReachesInv(works, n, steps, s);
    RunningIsInWork(s, r);
    assert s.place[a.rank].work == s.place[r].work;
  }

  /** From the start barrier on, every key of every rank's graph, and every key with readers, has
      exactly the reader count of the plan. */
  lemma CountsMatchPlan(works: nat -> Work, n: nat, steps: seq<Action>, s: State, r: nat, k: Key)
    requires Sized(works, n) && Reaches(works, n, steps, s) && r < |s.place| && s.place[r].phase == Running
    requires k in works(s.place[r].work).readers || exists q :: 0 <= q < n && k in works(s.place[r].work).active[q]
    ensures Readers(s, k) == if k in works(s.place[r].work).readers then works(s.place[r].work).readers[k] else 0
  {
    var w := s.place[r].work;
    ReachesInv(works, n, steps, s);
    RunningIsInWork(s, r);
    assert CountOk(works, s, w, k);
    forall q | 0 <= q < n ensures Settled(s.place[q], w, k) && Cleared(s.place[q], w, k) {
      assert s.place[q].work == w;
    }
  }

  /** When the last rank arrives at the start barrier, every key of the work counts from zero. */
  lemma FreshAtStart(works: nat -> Work, n: nat, steps: seq<Action>, s: State, w: nat, r: nat, k: Key)
    requires Sized(works, n) && Reaches(works, n, steps, s) && r < n
    requires forall q :: 0 <= q < |s.place| ==> s.place[q].work == w && s.place[q].phase == AtStart
    requires k in works(w).active[r]
    ensures Progress(s, k, w) == 0
  {
    ReachesInv(works, n, steps, s);
    assert At(s.place[r]) >= 6 * w;
    assert InWork(s, w);
    assert WasReset(s.place[r], w, k);
    assert FreshOk(works, s, w, k);
  }

  // ---- Somebody can always go on ----

  /** Loops handle keys of their lists only. */
  ghost predicate LoopOk(works: nat -> Work, s: State, r: nat)
    requires r < |s.place| == |works(s.place[r].work).active|
  {
    var p := s.place[r];
    && (p.phase in {Clearing, Resetting} ==> p.done <= works(p.work).active[r])
    && (p.phase == Setting ==> p.done <= works(p.work).readers.Keys)
  }

  lemma {:induction false} ReachesLoops(works: nat -> Work, n: nat, steps: seq<Action>, s: State, r: nat)
    requires Sized(works, n) && Reaches(works, n, steps, s) && r < n
    ensures |s.place| == n && |works(s.place[r].work).active| == n && LoopOk(works, s, r)
    decreases |steps|
  {
    if |steps| == 0 {
      assert |works(0).active| == n;
    } else {
      var m := |steps| - 1;
      var s0 :| Reaches(works, n, steps[..m], s0) && Takes(works, s0, steps[m], s);
      ReachesLoops(works, n, steps[..m], s0, r);
      KeepsLoop(works, n, s0, steps[m], r);
    }
  }

  lemma KeepsLoop(works: nat -> Work, n: nat, s: State, a: Action, r: nat)
    requires Sized(works, n) && Enabled(works, s, a) && r < n == |s.place|
    requires |works(s.place[r].work).active| == n && LoopOk(works, s, r)
    ensures var s' := Next(works, s, a);
      |s'.place| == n && |works(s'.place[r].work).active| == n && LoopOk(works, s', r)
  {
    assert |works(Next(works, s, a).place[r].work).active| == n;
  }

  /** A step that handles a new key or moves a rank on. */
  predicate MovesOn(s: State, a: Action)
    requires a.rank < |s.place|
  {
    match a
    case Clear(r, k) => k !in s.place[r].done
    case SetReaders(r, k) => k !in s.place[r].done
    case Reset(r, k) => k !in s.place[r].done
    case Publish(_, _, _) => false
    case Advance(_) => true
  }

  lemma {:induction false} Hindmost(s: State, k: nat) returns (r: nat)
    requires 0 < k <= |s.place|
    ensures r < k && forall q :: 0 <= q < k ==> At(s.place[q]) >= At(s.place[r])
  {
    if k == 1 {
      r := 0;
    } else {
      r := Hindmost(s, k - 1);
      if At(s.place[k - 1]) < At(s.place[r]) {
        r := k - 1;
      }
    }
  }

  /** Over any sequence of works the ranks never block each other: in every reachable state some rank
      can handle one more key or move on. */
  lemma NeverStuck(works: nat -> Work, n: nat, steps: seq<Action>, s: State) returns (a: Action)
    requires n > 0 && Sized(works, n) && Reaches(works, n, steps, s)
    ensures |s.place| == n && a.rank < n && Enabled(works, s, a) && MovesOn(s, a)
  {
    ReachesLoops(works, n, steps, s, 0);
    var r := Hindmost(s, n);
    ReachesLoops(works, n, steps, s, r);
    var p := s.place[r];
    var wk := works(p.work);
    a := Advance(r);
    if p.phase == Clearing && p.done != wk.active[r] {
      var k :| k in wk.active[r] && k !in p.done;
      a := Clear(r, k);
    } else if p.phase == Setting && p.done != wk.readers.Keys {
      var k :| k in wk.readers.Keys && k !in p.done;
      a := SetReaders(r, k);
    } else if p.phase == Resetting && p.done != wk.active[r] {
      var k :| k in wk.active[r] && k !in p.done;
      a := Reset(r, k);
    }
  }
}
