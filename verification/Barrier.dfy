/** The two reusable barriers, as separate atomic steps of each party, over any number of rounds:
    the generation barrier of the PCIe-CCL shared state, and the orchestrator's sense-reversing
    barrier as a refinement of it that keeps only the generation's parity. */
module Barrier {

  /** Where a party is inside the barrier call; `gen` is the generation it loaded on entry. */
  datatype Pc = Idle | Loaded(gen: nat) | Last(gen: nat) | Publishing(gen: nat) | Spinning(gen: nat)

  /** `left[p]` counts the barrier calls party `p` has returned from. */
  datatype State = State(count: nat, gen: nat, pc: seq<Pc>, left: seq<nat>)

  datatype Action = Load(p: nat) | Add(p: nat) | ResetCount(p: nat) | Publish(p: nat) | Check(p: nat)

  predicate Enabled(s: State, a: Action) {
    && |s.left| == |s.pc| && a.p < |s.pc|
    && match a
       case Load(p) => s.pc[p].Idle?
       case Add(p) => s.pc[p].Loaded?
       case ResetCount(p) => s.pc[p].Last?
       case Publish(p) => s.pc[p].Publishing?
       case Check(p) => s.pc[p].Spinning? && s.gen > s.pc[p].gen
  }

  function Next(s: State, a: Action): State
    requires Enabled(s, a)
  {
    var p := a.p;
    match a
    case Load(_) => s.(pc := s.pc[p := Loaded(s.gen)])
    case Add(_) =>
      s.(count := s.count + 1,
         pc := s.pc[p := if s.count + 1 == |s.pc| then Last(s.pc[p].gen) else Spinning(s.pc[p].gen)])
    case ResetCount(_) => s.(count := 0, pc := s.pc[p := Publishing(s.pc[p].gen)])
    case Publish(_) => s.(gen := s.pc[p].gen + 1, pc := s.pc[p := Idle], left := s.left[p := s.left[p] + 1])
    case Check(_) => s.(pc := s.pc[p := Idle], left := s.left[p := s.left[p] + 1])
  }

  ghost predicate Reaches(n: nat, steps: seq<Action>, s: State) {
    if |steps| == 0 then s == State(0, 0, seq(n, i => Idle), seq(n, i => 0))
    else
      var front, last := steps[..|steps| - 1], steps[|steps| - 1];
      exists s0 :: Reaches(n, front, s0) && Takes(s0, last, s)
  }

  ghost predicate Takes(s: State, a: Action, s': State) {
    Enabled(s, a) && s' == Next(s, a)
  }

  /** Calls in which `p` has added itself to the count. */
  function Arrivals(s: State, p: nat): nat
    requires p < |s.pc| == |s.left|
  {
    s.left[p] + if s.pc[p].Last? || s.pc[p].Publishing? || s.pc[p].Spinning? then 1 else 0
  }

  // ---- Invariant ----

  /** Parties below `k` that have added themselves in the current round. */
  function Added(s: State, k: nat): nat
    requires k <= |s.pc| == |s.left|
  {
    if k == 0 then 0 else Added(s, k - 1) + if Arrivals(s, k - 1) == s.gen + 1 then 1 else 0
  }

  predicate PartyOk(s: State, p: nat)
    requires p < |s.pc| == |s.left|
  {
    match s.pc[p]
    case Idle => s.left[p] == s.gen
    case Spinning(g) => g == s.left[p] && s.gen - 1 <= g <= s.gen
    case _ => s.pc[p].gen == s.left[p] == s.gen
  }

  /** The last party of a round, until it has published the next generation. */
  predicate Finishing(s: State, p: nat)
    requires p < |s.pc|
  {
    s.pc[p].Last? || s.pc[p].Publishing?
  }

  ghost predicate PartiesOk(s: State) {
    && |s.left| == |s.pc|
    && (forall p :: 0 <= p < |s.pc| ==> PartyOk(s, p))
    && (forall p, q :: 0 <= p < |s.pc| && 0 <= q < |s.pc| && p != q && Finishing(s, p) ==> s.pc[q] == Spinning(s.gen))
  }

  ghost predicate SomeoneFinishes(s: State) {
    exists p :: 0 <= p < |s.pc| && Finishing(s, p)
  }

  /** Outside the last party's reset the count is the number of parties added in this round; and
      when all have been added, one of them is the last. */
  ghost predicate CountOk(s: State)
    requires |s.left| == |s.pc|
  {
    && (!SomeoneFinishes(s) ==> s.count == Added(s, |s.pc|) && (s.count < |s.pc| || |s.pc| == 0))
    && (forall p :: 0 <= p < |s.pc| && Finishing(s, p) ==> s.count == if s.pc[p].Last? then |s.pc| else 0)
  }

  ghost predicate Inv(s: State) {
    PartiesOk(s) && CountOk(s)
  }

  /** A party that neither waits nor finishes shows that nobody finishes. */
  lemma NobodyFinishes(s: State, p: nat)
    requires PartiesOk(s) && p < |s.pc| && !Finishing(s, p) && s.pc[p] != Spinning(s.gen)
    ensures forall q :: 0 <= q < |s.pc| ==> !Finishing(s, q)
    ensures !SomeoneFinishes(s)
  {
  }

  lemma {:induction false} AddedChange(s: State, s': State, p: nat, k: nat)
    requires |s.pc| == |s.left| == |s'.pc| == |s'.left| && k <= |s.pc| && p < |s.pc| && s.gen == s'.gen
    requires forall q :: 0 <= q < |s.pc| && q != p ==> Arrivals(s, q) == Arrivals(s', q)
    ensures Added(s', k) == Added(s, k) +
            if p < k
            then (if Arrivals(s', p) == s.gen + 1 then 1 else 0) - (if Arrivals(s, p) == s.gen + 1 then 1 else 0)
            else 0
  {
    if k > 0 {
      AddedChange(s, s', p, k - 1);
    }
  }

  lemma {:induction false} AddedNone(s: State, k: nat)
    requires k <= |s.pc| == |s.left| && forall q :: 0 <= q < k ==> Arrivals(s, q) != s.gen + 1
    ensures Added(s, k) == 0
  {
    if k > 0 {
      AddedNone(s, k - 1);
    }
  }

  lemma {:induction false} AddedBound(s: State, k: nat)
    requires k <= |s.pc| == |s.left|
    ensures Added(s, k) <= k
    ensures Added(s, k) == k ==> forall q :: 0 <= q < k ==> Arrivals(s, q) == s.gen + 1
  {
    if k > 0 {
      AddedBound(s, k - 1);
    }
  }

  /** Whoever brings the count to the number of parties finds all others waiting. */
  lemma {:induction false} OthersWait(s: State, p: nat, k: nat)
    requires p < k <= |s.pc| == |s.left| && Arrivals(s, p) != s.gen + 1 && Added(s, k) == k - 1
    ensures forall q :: 0 <= q < k && q != p ==> Arrivals(s, q) == s.gen + 1
  {
    AddedBound(s, k - 1);
    if p < k - 1 {
      OthersWait(s, p, k - 1);
    }
  }

  lemma KeepsAdd(s: State, p: nat)
    requires Inv(s) && Enabled(s, Add(p))
    ensures Inv(Next(s, Add(p)))
  {
    var s' := Next(s, Add(p));
    assert PartyOk(s, p);
    NobodyFinishes(s, p);
    AddedChange(s, s', p, |s.pc|);
    forall q | 0 <= q < |s.pc| ensures PartyOk(s', q) {
      assert PartyOk(s, q);
    }
    if s.count + 1 == |s.pc| {
      OthersWait(s, p, |s.pc|);
      forall q | 0 <= q < |s.pc| && q != p ensures s'.pc[q] == Spinning(s.gen) && !Finishing(s', q) {
        assert PartyOk(s, q) && !Finishing(s, q) && Arrivals(s, q) == s.gen + 1;
      }
      assert Finishing(s', p);
    } else {
      forall q | 0 <= q < |s.pc| ensures !Finishing(s', q) {
        assert !Finishing(s, q);
      }
    }
  }

  lemma KeepsPublish(s: State, p: nat)
    requires Inv(s) && Enabled(s, Publish(p))
    ensures Inv(Next(s, Publish(p)))
  {
    var s' := Next(s, Publish(p));
    assert PartyOk(s, p) && Finishing(s, p);
    forall q | 0 <= q < |s.pc| ensures PartyOk(s', q) && Arrivals(s', q) != s'.gen + 1 && !Finishing(s', q) {
      assert PartyOk(s, q);
    }
    AddedNone(s', |s'.pc|);
  }

  lemma KeepsCheck(s: State, p: nat)
    requires Inv(s) && Enabled(s, Check(p))
    ensures Inv(Next(s, Check(p)))
  {
    var s' := Next(s, Check(p));
    assert PartyOk(s, p);
    NobodyFinishes(s, p);
    forall q | 0 <= q < |s.pc| ensures PartyOk(s', q) && !Finishing(s', q) {
      assert PartyOk(s, q) && !Finishing(s, q);
    }
    AddedChange(s, s', p, |s.pc|);
  }

  lemma KeepsReset(s: State, p: nat)
    requires Inv(s) && Enabled(s, ResetCount(p))
    ensures Inv(Next(s, ResetCount(p)))
  {
    var s' := Next(s, ResetCount(p));
    assert Finishing(s, p) && PartyOk(s, p) && Finishing(s', p);
    forall q | 0 <= q < |s.pc| && q != p ensures PartyOk(s', q) && s'.pc[q] == Spinning(s.gen) && !Finishing(s', q) {
      assert PartyOk(s, q) && s.pc[q] == Spinning(s.gen);
    }
  }

  lemma KeepsLoad(s: State, p: nat)
    requires Inv(s) && Enabled(s, Load(p))
    ensures Inv(Next(s, Load(p)))
  {
    var s' := Next(s, Load(p));
    assert PartyOk(s, p);
    NobodyFinishes(s, p);
    forall q | 0 <= q < |s.pc| ensures PartyOk(s', q) && !Finishing(s', q) {
      assert PartyOk(s, q) && !Finishing(s, q);
    }
    AddedChange(s, s', p, |s.pc|);
  }

  lemma KeepsInv(s: State, a: Action)
    requires Inv(s) && Enabled(s, a)
    ensures Inv(Next(s, a))
  {
    match a {
      case Load(p) => KeepsLoad(s, p);
      case Add(p) => KeepsAdd(s, p);
      case ResetCount(p) => KeepsReset(s, p);
      case Publish(p) => KeepsPublish(s, p);
      case Check(p) => KeepsCheck(s, p);
    }
  }

  lemma {:induction false} ReachesInv(n: nat, steps: seq<Action>, s: State)
    requires Reaches(n, steps, s)
    ensures Inv(s) && |s.pc| == n
    decreases |steps|
  {
    if |steps| == 0 {
      AddedNone(s, n);
    } else {
      var m := |steps| - 1;
      var s0 :| Reaches(n, steps[..m], s0) && Takes(s0, steps[m], s);
      ReachesInv(n, steps[..m], s0);
      KeepsInv(s0, steps[m]);
    }
  }

  // ---- What the barrier promises ----

  /** Nobody returns from its k-th call before everybody has entered theirs. */
  lemma NobodyLeavesEarly(n: nat, steps: seq<Action>, s: State, p: nat, q: nat)
    requires Reaches(n, steps, s) && p < n && q < n
    ensures |s.pc| == |s.left| == n && s.left[p] <= Arrivals(s, q)
  {
    ReachesInv(n, steps, s);
    assert PartyOk(s, p) && PartyOk(s, q);
  }

  /** Before anyone has added itself in a round, the count is zero. */
  lemma RoundStartsAtZero(n: nat, steps: seq<Action>, s: State)
    requires Reaches(n, steps, s) && |s.pc| == |s.left| == n
    requires forall p :: 0 <= p < n ==> Arrivals(s, p) <= s.gen
    ensures s.count == 0
  {
    ReachesInv(n, steps, s);
    forall p | 0 <= p < n ensures !Finishing(s, p) {
      assert PartyOk(s, p) && Arrivals(s, p) <= s.gen;
    }
    AddedNone(s, n);
  }

  /** A waiting party whose round everyone has entered can leave, or the last party is about to
      let it; and once it can leave it stays able to. */
  lemma NeverStrands(n: nat, steps: seq<Action>, s: State, p: nat) returns (a: Action)
    requires Reaches(n, steps, s) && p < n && |s.pc| == |s.left| == n && s.pc[p].Spinning?
    requires forall q :: 0 <= q < n ==> Arrivals(s, q) > s.left[p]
    ensures Enabled(s, a) && (a == Check(p) || a.ResetCount? || a.Publish?)
  {
    ReachesInv(n, steps, s);
    assert PartyOk(s, p);
    if s.gen > s.pc[p].gen {
      a := Check(p);
    } else if q :| 0 <= q < n && Finishing(s, q) {
      a := if s.pc[q].Last? then ResetCount(q) else Publish(q);
    } else {
      forall q | 0 <= q < n ensures Arrivals(s, q) == s.gen + 1 {
        assert PartyOk(s, q);
      }
      AllAdded(s, n);
      assert false;
    }
  }

  lemma {:induction false} AllAdded(s: State, k: nat)
    requires k <= |s.pc| == |s.left| && forall q :: 0 <= q < k ==> Arrivals(s, q) == s.gen + 1
    ensures Added(s, k) == k
  {
    if k > 0 {
      AllAdded(s, k - 1);
    }
  }

  lemma ReleaseIsFinal(s: State, p: nat, a: Action)
    requires Inv(s) && Enabled(s, Check(p)) && Enabled(s, a) && a != Check(p)
    ensures Enabled(Next(s, a), Check(p))
  {
    assert PartyOk(s, p) && PartyOk(s, a.p);
  }

  // ---- The sense-reversing barrier ----

  /** It has no generation, only a sense bit; a party remembers the sense it saw on entry. */
  datatype SensePc = SIdle | SLoaded(seen: nat) | SLast(seen: nat) | SPublishing(seen: nat) | SSpinning(seen: nat)

  datatype SenseState = SenseState(count: nat, sense: nat, pc: seq<SensePc>, left: seq<nat>)

  predicate SenseEnabled(s: SenseState, a: Action) {
    && |s.left| == |s.pc| && a.p < |s.pc|
    && match a
       case Load(p) => s.pc[p].SIdle?
       case Add(p) => s.pc[p].SLoaded?
       case ResetCount(p) => s.pc[p].SLast?
       case Publish(p) => s.pc[p].SPublishing?
       case Check(p) => s.pc[p].SSpinning? && s.sense == 1 - s.pc[p].seen
  }

  function SenseNext(s: SenseState, a: Action): SenseState
    requires SenseEnabled(s, a) && (a.Publish? ==> s.pc[a.p].seen <= 1)
  {
    var p := a.p;
    match a
    case Load(_) => s.(pc := s.pc[p := SLoaded(s.sense)])
    case Add(_) =>
      s.(count := s.count + 1,
         pc := s.pc[p := if s.count + 1 == |s.pc| then SLast(s.pc[p].seen) else SSpinning(s.pc[p].seen)])
    case ResetCount(_) => s.(count := 0, pc := s.pc[p := SPublishing(s.pc[p].seen)])
    case Publish(_) => s.(sense := 1 - s.pc[p].seen, pc := s.pc[p := SIdle], left := s.left[p := s.left[p] + 1])
    case Check(_) => s.(pc := s.pc[p := SIdle], left := s.left[p := s.left[p] + 1])
  }

  function Forget(pc: Pc): SensePc {
    match pc
    case Idle => SIdle
    case Loaded(g) => SLoaded(g % 2)
    case Last(g) => SLast(g % 2)
    case Publishing(g) => SPublishing(g % 2)
    case Spinning(g) => SSpinning(g % 2)
  }

  /** Keeping only parities. */
  function Senses(s: State): SenseState {
    SenseState(s.count, s.gen % 2, seq(|s.pc|, i requires 0 <= i < |s.pc| => Forget(s.pc[i])), s.left)
  }

  ghost predicate SenseReaches(n: nat, steps: seq<Action>, s: SenseState) {
    if |steps| == 0 then s == SenseState(0, 0, seq(n, i => SIdle), seq(n, i => 0))
    else
      var front, last := steps[..|steps| - 1], steps[|steps| - 1];
      exists s0 :: SenseReaches(n, front, s0) && SenseTakes(s0, last, s)
  }

  ghost predicate SenseTakes(s: SenseState, a: Action, s': SenseState) {
    SenseEnabled(s, a) && (a.Publish? ==> s.pc[a.p].seen <= 1) && s' == SenseNext(s, a)
  }

  /** Generations in use differ by at most one, so their parity tells them apart. */
  lemma SenseStep(s: State, a: Action)
    requires Inv(s) && SenseEnabled(Senses(s), a)
    ensures Enabled(s, a) && (a.Publish? ==> Senses(s).pc[a.p].seen <= 1)
    ensures SenseNext(Senses(s), a) == Senses(Next(s, a))
  {
    assert PartyOk(s, a.p);
    assert Senses(s).pc[a.p] == Forget(s.pc[a.p]);
    assert SenseNext(Senses(s), a).pc == Senses(Next(s, a)).pc;
  }

  /** Every run of the sense-reversing barrier is a run of the generation barrier. */
  lemma {:induction false} SenseRefines(n: nat, steps: seq<Action>, t: SenseState) returns (s: State)
    requires SenseReaches(n, steps, t)
    ensures Reaches(n, steps, s) && t == Senses(s)
    decreases |steps|
  {
    if |steps| == 0 {
      s := State(0, 0, seq(n, i => Idle), seq(n, i => 0));
      assert t.pc == Senses(s).pc;
    } else {
      var m := |steps| - 1;
      var t0 :| SenseReaches(n, steps[..m], t0) && SenseTakes(t0, steps[m], t);
      var s0 := SenseRefines(n, steps[..m], t0);
      ReachesInv(n, steps[..m], s0);
      SenseStep(s0, steps[m]);
      s := Next(s0, steps[m]);
      assert Takes(s0, steps[m], s);
    }
  }

  /** So nobody returns from the k-th `BarrierSync` before everybody has entered it. */
  lemma SenseNobodyLeavesEarly(n: nat, steps: seq<Action>, t: SenseState, p: nat, q: nat)
    requires SenseReaches(n, steps, t) && p < n && q < n
    ensures |t.pc| == |t.left| == n
    ensures t.left[p] <= t.left[q] + if t.pc[q].SIdle? || t.pc[q].SLoaded? then 0 else 1
  {
    var s := SenseRefines(n, steps, t);
    ReachesInv(n, steps, s);
    NobodyLeavesEarly(n, steps, s, p, q);
    assert t.pc[q] == Forget(s.pc[q]);
  }

  /** And no waiter of it is stranded. */
  lemma SenseNeverStrands(n: nat, steps: seq<Action>, t: SenseState, p: nat) returns (a: Action)
    requires SenseReaches(n, steps, t) && p < n && |t.pc| == |t.left| == n && t.pc[p].SSpinning?
    requires forall q :: 0 <= q < n ==>
               t.left[q] + (if t.pc[q].SIdle? || t.pc[q].SLoaded? then 0 else 1) > t.left[p]
    ensures SenseEnabled(t, a) && (a == Check(p) || a.ResetCount? || a.Publish?)
  {
    var s := SenseRefines(n, steps, t);
    ReachesInv(n, steps, s);
    assert t.pc[p] == Forget(s.pc[p]);
    forall q | 0 <= q < n ensures Arrivals(s, q) > s.left[p] {
      SameArrivals(s, q);
    }
    a := NeverStrands(n, steps, s, p);
    SenseFollows(s, a);
  }

  lemma SameArrivals(s: State, q: nat)
    requires q < |s.pc| == |s.left|
    ensures var t := Senses(s); Arrivals(s, q) == t.left[q] + if t.pc[q].SIdle? || t.pc[q].SLoaded? then 0 else 1
  {
    assert Senses(s).pc[q] == Forget(s.pc[q]);
  }

  /** What the generation barrier can do, the sense-reversing one can. */
  lemma SenseFollows(s: State, a: Action)
    requires Inv(s) && Enabled(s, a)
    ensures SenseEnabled(Senses(s), a)
  {
    assert PartyOk(s, a.p) && Senses(s).pc[a.p] == Forget(s.pc[a.p]);
  }
}
