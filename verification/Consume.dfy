/** `advanceReaderDone` as the separate atomic steps it takes: raise one's own reader counter, scan
    all of them, raise the consume counter to the minimum seen. Several readers do this at once
    without a lock. The step system of `Executor` uses the exact minimum; this module shows when
    the shared counter is that. */
module Consume {
  import opened Ir

  /** `least` is the minimum of the caller's value and the counters scanned so far. */
  datatype Call = Idle | Scanning(least: nat, next: nat)

  datatype State = State(done: seq<nat>, consumed: nat, call: seq<Call>)

  datatype Action = Raise(reader: nat, value: nat) | Scan(reader: nat) | Finish(reader: nat)

  predicate Enabled(s: State, a: Action) {
    && |s.done| == |s.call| && a.reader < |s.call|
    && match a
       case Raise(r, _) => s.call[r].Idle?
       case Scan(r) => s.call[r].Scanning? && s.call[r].next < |s.done|
       case Finish(r) => s.call[r].Scanning? && s.call[r].next == |s.done|
  }

  function Next(s: State, a: Action): State
    requires Enabled(s, a)
  {
    var r := a.reader;
    match a
    case Raise(_, v) => s.(done := s.done[r := Max(s.done[r], v)], call := s.call[r := Scanning(v, 0)])
    case Scan(_) =>
      s.(call := s.call[r := Scanning(Min(s.call[r].least, s.done[s.call[r].next]), s.call[r].next + 1)])
    case Finish(_) => s.(consumed := Max(s.consumed, s.call[r].least), call := s.call[r := Idle])
  }

  ghost predicate Takes(s: State, a: Action, s': State) {
    Enabled(s, a) && s' == Next(s, a)
  }

  ghost predicate Reaches(n: nat, steps: seq<Action>, s: State) {
    if |steps| == 0 then s == State(seq(n, i => 0), 0, seq(n, i => Idle))
    else
      var front, last := steps[..|steps| - 1], steps[|steps| - 1];
      exists s0 :: Reaches(n, front, s0) && Takes(s0, last, s)
  }

  /** The slowest reader. */
  function Slowest(done: seq<nat>): (m: nat)
    requires |done| > 0
    ensures forall i :: 0 <= i < |done| ==> m <= done[i]
    ensures exists i :: 0 <= i < |done| && m == done[i]
  {
    if |done| == 1 then done[0]
    else
      var rest := Slowest(done[..|done| - 1]);
      assert forall i :: 0 <= i < |done| - 1 ==> done[i] == done[..|done| - 1][i];
      Min(rest, done[|done| - 1])
  }

  ghost predicate CallsOk(s: State) {
    && |s.done| == |s.call|
    && (forall r :: 0 <= r < |s.call| && s.call[r].Scanning? ==> s.call[r].next <= |s.done|)
    && (forall r, i :: 0 <= r < |s.call| && s.call[r].Scanning? && 0 <= i < s.call[r].next ==>
          s.call[r].least <= s.done[i])
    && (forall i :: 0 <= i < |s.done| ==> s.consumed <= s.done[i])
  }

  /** Some call in progress will raise the counter to the current minimum. */
  ghost predicate OnTheWay(s: State)
    requires |s.done| == |s.call| && |s.done| > 0
  {
    exists r :: 0 <= r < |s.call| && s.call[r].Scanning? && s.call[r].least >= Slowest(s.done)
  }

  lemma RaiseKeeps(s: State, r: nat, v: nat)
    requires CallsOk(s) && |s.done| > 0 && Enabled(s, Raise(r, v))
    requires s.consumed >= Slowest(s.done) || OnTheWay(s)
    ensures var s' := Next(s, Raise(r, v)); CallsOk(s') && (s'.consumed >= Slowest(s'.done) || OnTheWay(s'))
  {
    var s' := Next(s, Raise(r, v));
    var m, m' := Slowest(s.done), Slowest(s'.done);
    assert s'.call[r].least == v && m' <= s'.done[r];
    if m' <= m {
      if OnTheWay(s) {
        var q :| 0 <= q < |s.call| && s.call[q].Scanning? && s.call[q].least >= m;
        assert s'.call[q] == s.call[q];
      }
    } else {
      var i :| 0 <= i < |s.done| && m == s.done[i];
      assert m' <= s'.done[i];
      assert i == r && m' <= v;
    }
  }

  lemma ScanKeepsCalls(s: State, r: nat)
    requires CallsOk(s) && Enabled(s, Scan(r))
    ensures CallsOk(Next(s, Scan(r)))
  {
    var s' := Next(s, Scan(r));
    forall q, i | 0 <= q < |s'.call| && s'.call[q].Scanning? && 0 <= i < s'.call[q].next
      ensures s'.call[q].least <= s'.done[i]
    {
      assert q != r ==> s'.call[q] == s.call[q];
      assert i < s.call[q].next ==> s.call[q].least <= s.done[i];
    }
  }

  lemma ScanKeeps(s: State, r: nat)
    requires CallsOk(s) && |s.done| > 0 && Enabled(s, Scan(r))
    requires s.consumed >= Slowest(s.done) || OnTheWay(s)
    ensures var s' := Next(s, Scan(r)); CallsOk(s') && (s'.consumed >= Slowest(s'.done) || OnTheWay(s'))
  {
    var s' := Next(s, Scan(r));
    ScanKeepsCalls(s, r);
    assert Slowest(s.done) <= s.done[s.call[r].next];
    if OnTheWay(s) {
      var q :| 0 <= q < |s.call| && s.call[q].Scanning? && s.call[q].least >= Slowest(s.done);
      assert s'.call[q].Scanning? && s'.call[q].least >= Slowest(s.done);
    }
  }

  lemma FinishKeeps(s: State, r: nat)
    requires CallsOk(s) && |s.done| > 0 && Enabled(s, Finish(r))
    requires s.consumed >= Slowest(s.done) || OnTheWay(s)
    ensures var s' := Next(s, Finish(r)); CallsOk(s') && (s'.consumed >= Slowest(s'.done) || OnTheWay(s'))
  {
    var s' := Next(s, Finish(r));
    if OnTheWay(s) {
      var q :| 0 <= q < |s.call| && s.call[q].Scanning? && s.call[q].least >= Slowest(s.done);
      assert q != r ==> s'.call[q] == s.call[q];
    }
  }

  lemma {:induction false} ReachesOk(n: nat, steps: seq<Action>, s: State)
    requires n > 0 && Reaches(n, steps, s)
    ensures |s.done| == n && CallsOk(s) && (s.consumed >= Slowest(s.done) || OnTheWay(s))
    decreases |steps|
  {
    if |steps| == 0 {
      assert Slowest(s.done) == 0;
    } else {
      var m := |steps| - 1;
      var s0 :| Reaches(n, steps[..m], s0) && Takes(s0, steps[m], s);
      ReachesOk(n, steps[..m], s0);
      match steps[m] {
        case Raise(r, v) => RaiseKeeps(s0, r, v);
        case Scan(r) => ScanKeeps(s0, r);
        case Finish(r) => FinishKeeps(s0, r);
      }
    }
  }

  /** The consume counter never runs ahead of any reader, whatever calls overlap. */
  lemma NeverAhead(n: nat, steps: seq<Action>, s: State, i: nat)
    requires n > 0 && Reaches(n, steps, s) && i < n
    ensures |s.done| == n && s.consumed <= s.done[i]
  {
    ReachesOk(n, steps, s);
  }

  /** No update is lost: when no call is in progress the counter is exactly the slowest reader. */
  lemma ExactAtRest(n: nat, steps: seq<Action>, s: State)
    requires n > 0 && Reaches(n, steps, s) && forall r :: 0 <= r < |s.call| ==> s.call[r].Idle?
    ensures |s.done| == n && s.consumed == Slowest(s.done)
  {
    ReachesOk(n, steps, s);
    var i :| 0 <= i < |s.done| && Slowest(s.done) == s.done[i];
    assert s.consumed <= s.done[i];
  }

  /** A call in progress can always take its next step: nobody waits for anybody. */
  lemma CallsGoOn(n: nat, steps: seq<Action>, s: State, r: nat)
    requires n > 0 && Reaches(n, steps, s) && r < |s.call|
    ensures if s.call[r].Idle? then Enabled(s, Raise(r, 0)) else Enabled(s, Scan(r)) || Enabled(s, Finish(r))
  {
    ReachesOk(n, steps, s);
  }
}
