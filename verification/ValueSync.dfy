/** Value tokens that order one PCIe stream and any number of user streams. For every submission
    the host enqueues, in this order: a write of the input-ready token on the user stream; a wait
    for it, the work, and a write of the completion token on the PCIe stream; a wait for that on
    the user stream. Tokens live in rings of 64 slots that submissions share, and a wait is
    satisfied by any value at least its own. Streams execute their own operations in order, at any
    time after they have been enqueued. */
module ValueSync {

  const RING: nat := 64
  const MAX_SEQUENCE: nat := 0xFFFF_FFFF_FFFF_FFFF

  /** Hands out sequence numbers from 1 and the slots that go with them; none at the very end. */
  class Context {
    var next: nat

    constructor ()
      ensures next == 1
    {
      next := 1;
    }

    method NextTicket() returns (sequence: nat, slot: nat)
      requires 1 <= next <= MAX_SEQUENCE
      modifies this
      ensures 1 <= next <= MAX_SEQUENCE
      ensures if old(next) == MAX_SEQUENCE then sequence == 0 && next == old(next)
              else sequence == old(next) && next == sequence + 1 && slot == Slot(sequence - 1) == sequence % RING
    {
      if next == MAX_SEQUENCE { return 0, 0; }
      sequence := next;
      next := next + 1;
      slot := sequence % RING;
    }
  }

  /** Submission `t` has sequence number t + 1. `host` counts operations enqueued, five a
      submission. The PCIe stream has executed all three operations of the submissions below `pcie`
      and the first `phase` of the next. */
  datatype State = State(host: nat, pcie: nat, phase: nat,
                         ready: seq<bool>, waited: seq<bool>, inTok: seq<nat>, doneTok: seq<nat>)

  datatype Action = Enqueue | Ready(t: nat) | Pcie | Wait(t: nat)

  function Slot(t: nat): (k: nat)
    ensures k < RING
  {
    (t + 1) % RING
  }

  /** Earlier submissions on the user stream of `t` have run their course there. */
  predicate FirstOnStream(users: seq<nat>, s: State, t: nat)
    requires t < |users| == |s.waited|
  {
    forall r :: 0 <= r < t && users[r] == users[t] ==> s.waited[r]
  }

  predicate Sized(users: seq<nat>, s: State) {
    |s.ready| == |s.waited| == |users| && |s.inTok| == |s.doneTok| == RING
  }

  predicate Enabled(users: seq<nat>, s: State, a: Action) {
    && Sized(users, s)
    && match a
       case Enqueue => s.host < 5 * |users|
       case Ready(t) => t < |users| && s.host > 5 * t && !s.ready[t] && FirstOnStream(users, s, t)
       case Pcie =>
         && s.pcie < |users| && s.phase < 3 && s.host > 5 * s.pcie + 1 + s.phase
         && (s.phase == 0 ==> s.inTok[Slot(s.pcie)] >= s.pcie + 1)
       case Wait(t) =>
         && t < |users| && s.host > 5 * t + 4 && s.ready[t] && !s.waited[t]
         && s.doneTok[Slot(t)] >= t + 1
  }

  function Next(users: seq<nat>, s: State, a: Action): State
    requires Enabled(users, s, a)
  {
    match a
    case Enqueue => s.(host := s.host + 1)
    case Ready(t) => s.(ready := s.ready[t := true], inTok := s.inTok[Slot(t) := t + 1])
    case Pcie =>
      if s.phase < 2 then s.(phase := s.phase + 1)
      else s.(pcie := s.pcie + 1, phase := 0, doneTok := s.doneTok[Slot(s.pcie) := s.pcie + 1])
    case Wait(t) => s.(waited := s.waited[t := true])
  }

  ghost predicate Takes(users: seq<nat>, s: State, a: Action, s': State) {
    Enabled(users, s, a) && s' == Next(users, s, a)
  }

  function Start(users: seq<nat>): State {
    var none := seq(|users|, i => false);
    var zeros := seq(RING, i => 0);
    State(0, 0, 0, none, none, zeros, zeros)
  }

  ghost predicate Reaches(users: seq<nat>, steps: seq<Action>, s: State) {
    if |steps| == 0 then s == Start(users)
    else
      var front, last := steps[..|steps| - 1], steps[|steps| - 1];
      exists s0 :: Reaches(users, front, s0) && Takes(users, s0, last, s)
  }

  ghost predicate Reachable(users: seq<nat>, s: State) {
    exists steps :: Reaches(users, steps, s)
  }

  predicate PassedInput(s: State, t: nat) { t < s.pcie || (t == s.pcie && s.phase > 0) }

  predicate Written(s: State, t: nat) { t < s.pcie }

  // ---- Completion waits ----

  ghost predicate DoneTokens(s: State) {
    && |s.doneTok| == RING
    && (forall t: nat :: Written(s, t) ==> s.doneTok[Slot(t)] >= t + 1)
    && (forall k :: 0 <= k < RING && s.doneTok[k] > 0 ==>
          Slot(s.doneTok[k] - 1) == k && Written(s, s.doneTok[k] - 1))
  }

  ghost predicate StreamsOk(users: seq<nat>, s: State) {
    && Sized(users, s) && s.host <= 5 * |users| && s.pcie <= |users| && s.phase < 3
    && (s.phase > 0 ==> s.pcie < |users|)
    && (forall t :: 0 <= t < |users| && s.waited[t] ==> s.ready[t] && Written(s, t))
    && (forall t :: 0 <= t < |users| && s.ready[t] ==> FirstOnStream(users, s, t))
  }

  lemma KeepsStreams(users: seq<nat>, s: State, a: Action)
    requires StreamsOk(users, s) && DoneTokens(s) && Enabled(users, s, a)
    ensures StreamsOk(users, Next(users, s, a))
  {
    var s' := Next(users, s, a);
    forall t | 0 <= t < |users| && s'.waited[t] ensures s'.ready[t] && Written(s', t) {
      if !s.waited[t] {
        DoneMeansWritten(s, t);
      }
    }
    forall t | 0 <= t < |users| && s'.ready[t] ensures FirstOnStream(users, s', t) {
      assert a == Ready(t) || s.ready[t];
      assert FirstOnStream(users, s, t);
    }
  }

  lemma DoneMeansWritten(s: State, t: nat)
    requires DoneTokens(s) && s.doneTok[Slot(t)] >= t + 1
    ensures Written(s, t)
  {
    var k := Slot(t);
    assert s.doneTok[k] > 0;
  }

  /** Only the last operation of a submission touches the completion tokens. */
  lemma KeepsDoneTokens(users: seq<nat>, s: State, a: Action)
    requires DoneTokens(s) && Enabled(users, s, a)
    ensures DoneTokens(Next(users, s, a))
  {
    var s' := Next(users, s, a);
    if a == Pcie && s.phase == 2 {
      WriteKeepsDoneTokens(s, s');
    } else {
      assert s'.pcie == s.pcie && s'.doneTok == s.doneTok;
      forall t: nat | Written(s', t) ensures s'.doneTok[Slot(t)] >= t + 1 {
        assert Written(s, t);
      }
    }
  }

  lemma WriteKeepsDoneTokens(s: State, s': State)
    requires DoneTokens(s) && s'.pcie == s.pcie + 1 && s'.doneTok == s.doneTok[Slot(s.pcie) := s.pcie + 1]
    ensures DoneTokens(s')
  {
    forall t: nat | Written(s', t) ensures s'.doneTok[Slot(t)] >= t + 1 {
      assert t == s.pcie || Written(s, t);
    }
    forall k | 0 <= k < RING && s'.doneTok[k] > 0
      ensures Slot(s'.doneTok[k] - 1) == k && Written(s', s'.doneTok[k] - 1)
    {
      if k != Slot(s.pcie) {
        assert s'.doneTok[k] == s.doneTok[k] && Written(s, s.doneTok[k] - 1);
      }
    }
  }

  lemma {:induction false} ReachesStreams(users: seq<nat>, steps: seq<Action>, s: State)
    requires Reaches(users, steps, s)
    ensures StreamsOk(users, s) && DoneTokens(s)
    decreases |steps|
  {
    if |steps| > 0 {
      var m := |steps| - 1;
      var s0 :| Reaches(users, steps[..m], s0) && Takes(users, s0, steps[m], s);
      ReachesStreams(users, steps[..m], s0);
      KeepsStreams(users, s0, steps[m]);
      KeepsDoneTokens(users, s0, steps[m]);
    }
  }

  /** A user stream passes its completion wait only after the PCIe stream has executed the matching
      write, although slots are reused: writes of one slot happen in sequence order. */
  lemma CompletionWaitIsSafe(users: seq<nat>, steps: seq<Action>, s: State, t: nat)
    requires Reaches(users, steps, s) && t < |users|
    ensures Sized(users, s) && (s.waited[t] ==> Written(s, t))
  {
    ReachesStreams(users, steps, s);
  }

  // ---- Input waits ----

  /** Every submission from the 65th on has one of the 64 before it on its own user stream. One
      user stream always satisfies this. */
  ghost predicate Paced(users: seq<nat>) {
    forall t :: RING <= t < |users| ==> HasRecent(users, t)
  }

  ghost predicate HasRecent(users: seq<nat>, t: nat)
    requires t < |users|
  {
    exists r :: 0 <= r < t <= r + RING && users[r] == users[t]
  }

  /** Whoever wrote a slot last is ready, and nobody ready has been overtaken by an older write. */
  ghost predicate InSlots(users: seq<nat>, s: State)
    requires Sized(users, s)
  {
    && (forall t :: 0 <= t < |users| && s.ready[t] ==> s.inTok[Slot(t)] >= t + 1)
    && (forall k :: 0 <= k < RING && s.inTok[k] > 0 ==> WriterOf(users, s, k, s.inTok[k] - 1))
  }

  predicate WriterOf(users: seq<nat>, s: State, k: nat, t: nat)
    requires Sized(users, s)
  {
    t < |users| && Slot(t) == k && s.ready[t]
  }

  ghost predicate PassedReady(users: seq<nat>, s: State)
    requires Sized(users, s)
  {
    forall t: nat :: PassedInput(s, t) && t < |users| ==> s.ready[t]
  }

  ghost predicate InTokens(users: seq<nat>, s: State)
    requires Sized(users, s)
  {
    InSlots(users, s) && PassedReady(users, s)
  }

  lemma SameSlot(t: nat, later: nat)
    requires t < later && Slot(t) == Slot(later)
    ensures later >= t + RING
  {
  }

  /** If a later submission of the same slot is ready, this one has been through the PCIe stream. */
  lemma LaterIsReady(users: seq<nat>, s: State, t: nat, later: nat)
    requires Paced(users) && StreamsOk(users, s) && t < later < |users| && Slot(t) == Slot(later) && s.ready[later]
    ensures PassedInput(s, t)
  {
    SameSlot(t, later);
    assert HasRecent(users, later);
    var r :| 0 <= r < later <= r + RING && users[r] == users[later];
    assert FirstOnStream(users, s, later);
    assert s.waited[r] && Written(s, r);
  }

  lemma ReadyKeepsInSlots(users: seq<nat>, s: State, t: nat, s': State)
    requires Sized(users, s) && InSlots(users, s) && t < |users|
    requires forall later :: t < later < |users| && Slot(t) == Slot(later) ==> !s.ready[later]
    requires s'.ready == s.ready[t := true] && s'.inTok == s.inTok[Slot(t) := t + 1] && Sized(users, s')
    ensures InSlots(users, s')
  {
    forall other | 0 <= other < |users| && s'.ready[other] ensures s'.inTok[Slot(other)] >= other + 1 {
      if other != t {
        assert s.ready[other] && s.inTok[Slot(other)] >= other + 1;
      }
    }
    forall k | 0 <= k < RING && s'.inTok[k] > 0 ensures WriterOf(users, s', k, s'.inTok[k] - 1) {
      if k != Slot(t) {
        assert WriterOf(users, s, k, s.inTok[k] - 1);
      }
    }
  }

  lemma ReadyKeepsInTokens(users: seq<nat>, s: State, t: nat)
    requires Paced(users) && StreamsOk(users, s) && InTokens(users, s) && Enabled(users, s, Ready(t))
    ensures InTokens(users, Next(users, s, Ready(t)))
  {
    var s' := Next(users, s, Ready(t));
    forall later | t < later < |users| && Slot(t) == Slot(later) ensures !s.ready[later] {
      if s.ready[later] {
        LaterIsReady(users, s, t, later);
      }
    }
    ReadyKeepsInSlots(users, s, t, s');
    forall r: nat | PassedInput(s', r) && r < |users| ensures s'.ready[r] {
      assert PassedInput(s, r);
    }
  }

  /** A wait that is satisfied finds its own write, or that of a later submission; with pacing the
      latter cannot be. */
  lemma SatisfiedIsReady(users: seq<nat>, s: State, t: nat)
    requires Paced(users) && StreamsOk(users, s) && InTokens(users, s)
    requires t < |users| && !PassedInput(s, t) && s.inTok[Slot(t)] >= t + 1
    ensures s.ready[t]
  {
    var k := Slot(t);
    var seen := s.inTok[k] - 1;
    assert WriterOf(users, s, k, seen);
    if seen > t {
      LaterIsReady(users, s, t, seen);
    }
  }

  lemma PcieKeepsInTokens(users: seq<nat>, s: State)
    requires Paced(users) && StreamsOk(users, s) && InTokens(users, s) && Enabled(users, s, Pcie)
    ensures InTokens(users, Next(users, s, Pcie))
  {
    var s' := Next(users, s, Pcie);
    if s.phase == 0 {
      SatisfiedIsReady(users, s, s.pcie);
    }
    SlotsOnly(users, s, s');
    forall r: nat | PassedInput(s', r) && r < |users| ensures s'.ready[r] {
      assert PassedInput(s, r) || (s.phase == 0 && r == s.pcie);
    }
  }

  lemma SlotsOnly(users: seq<nat>, s: State, s': State)
    requires Sized(users, s) && InSlots(users, s) && Sized(users, s') && s'.inTok == s.inTok && s'.ready == s.ready
    ensures InSlots(users, s')
  {
    forall k | 0 <= k < RING && s'.inTok[k] > 0 ensures WriterOf(users, s', k, s'.inTok[k] - 1) {
      assert WriterOf(users, s, k, s.inTok[k] - 1);
    }
  }

  lemma KeepsInTokens(users: seq<nat>, s: State, a: Action)
    requires Paced(users) && StreamsOk(users, s) && InTokens(users, s) && Enabled(users, s, a)
    ensures InTokens(users, Next(users, s, a))
  {
    match a {
      case Ready(t) => ReadyKeepsInTokens(users, s, t);
      case Pcie => PcieKeepsInTokens(users, s);
      case _ => OthersKeepInTokens(users, s, a);
    }
  }

  lemma OthersKeepInTokens(users: seq<nat>, s: State, a: Action)
    requires Sized(users, s) && InTokens(users, s) && Enabled(users, s, a) && (a == Enqueue || a.Wait?)
    ensures InTokens(users, Next(users, s, a))
  {
    var s' := Next(users, s, a);
    SlotsOnly(users, s, s');
    forall t: nat | PassedInput(s', t) && t < |users| ensures s'.ready[t] {
      assert PassedInput(s, t);
    }
  }

  lemma StepKeepsInTokens(users: seq<nat>, s: State, a: Action, s': State)
    requires Paced(users) && StreamsOk(users, s) && InTokens(users, s) && Takes(users, s, a, s')
    ensures Sized(users, s') && InTokens(users, s')
  {
    KeepsInTokens(users, s, a);
  }

  lemma StartsInTokens(users: seq<nat>)
    ensures Sized(users, Start(users)) && InTokens(users, Start(users))
  {
  }

  lemma {:induction false} ReachesInTokens(users: seq<nat>, steps: seq<Action>, s: State)
    requires Paced(users) && Reaches(users, steps, s)
    ensures Sized(users, s) && InTokens(users, s)
    decreases |steps|
  {
    if |steps| == 0 {
      StartsInTokens(users);
    } else {
      var front, last := steps[..|steps| - 1], steps[|steps| - 1];
      var s0 :| Reaches(users, front, s0) && Takes(users, s0, last, s);
      ReachesInTokens(users, front, s0);
      ReachesStreams(users, front, s0);
      StepKeepsInTokens(users, s0, last, s);
    }
  }

  /** The PCIe stream never passes an input wait before the user stream is ready. */
  ghost predicate InputSafe(users: seq<nat>, s: State) {
    Reachable(users, s) ==>
      forall t: nat :: PassedInput(s, t) && t < |users| ==> t < |s.ready| && s.ready[t]
  }

  // ---- The converse: how a far-ahead submission satisfies an old wait ----

  lemma ReachesNext(users: seq<nat>, steps: seq<Action>, s: State, a: Action)
    requires Reaches(users, steps, s) && Enabled(users, s, a)
    ensures Reaches(users, steps + [a], Next(users, s, a))
  {
    assert (steps + [a])[..|steps|] == steps && Takes(users, s, a, Next(users, s, a));
  }

  lemma Extend(users: seq<nat>, s: State, a: Action)
    requires Reachable(users, s) && Enabled(users, s, a)
    ensures Reachable(users, Next(users, s, a))
  {
    var steps :| Reaches(users, steps, s);
    ReachesNext(users, steps, s, a);
  }

  lemma {:induction false} EnqueueMany(users: seq<nat>, s: State, n: nat) returns (s': State)
    requires Reachable(users, s) && Sized(users, s) && s.host + n <= 5 * |users|
    ensures Reachable(users, s') && s' == s.(host := s.host + n)
  {
    s' := s;
    if n > 0 {
      var s0 := EnqueueMany(users, s, n - 1);
      Extend(users, s0, Enqueue);
      s' := Next(users, s0, Enqueue);
    }
  }

  /** All of the first `n` submissions done, none of the later ones started. */
  ghost predicate DoneUpTo(users: seq<nat>, s: State, n: nat) {
    && Sized(users, s) && s.host == 5 * n && s.pcie == n && s.phase == 0
    && forall t :: 0 <= t < |users| ==> s.ready[t] == s.waited[t] == (t < n)
  }

  lemma {:induction false} RunUpTo(users: seq<nat>, n: nat) returns (s: State)
    requires n <= |users|
    ensures Reachable(users, s) && DoneUpTo(users, s, n)
  {
    if n == 0 {
      s := Start(users);
      assert Reaches(users, [], s);
    } else {
      var s0 := RunUpTo(users, n - 1);
      var s1 := EnqueueMany(users, s0, 5);
      s := RunOne(users, s1, n - 1);
    }
  }

  lemma PcieThrice(users: seq<nat>, s: State, t: nat) returns (s': State)
    requires Reachable(users, s) && Sized(users, s) && t < |users|
    requires s.pcie == t && s.phase == 0 && s.host == 5 * t + 5 && s.inTok[Slot(t)] >= t + 1
    ensures Reachable(users, s') && s' == s.(pcie := t + 1, doneTok := s.doneTok[Slot(t) := t + 1])
  {
    Extend(users, s, Pcie);
    var s1 := s.(phase := 1);
    Extend(users, s1, Pcie);
    var s2 := s.(phase := 2);
    Extend(users, s2, Pcie);
    s' := Next(users, s2, Pcie);
  }

  lemma RunOne(users: seq<nat>, s: State, t: nat) returns (s': State)
    requires Reachable(users, s) && t < |users| && DoneUpTo(users, s.(host := 5 * t), t) && s.host == 5 * t + 5
    ensures Reachable(users, s') && DoneUpTo(users, s', t + 1)
  {
    Extend(users, s, Ready(t));
    var s1 := s.(ready := s.ready[t := true], inTok := s.inTok[Slot(t) := t + 1]);
    assert s1 == Next(users, s, Ready(t));
    var s2 := PcieThrice(users, s1, t);
    Extend(users, s2, Wait(t));
    s' := Next(users, s2, Wait(t));
  }

  lemma UnpacedIsUnsafe(users: seq<nat>, t: nat) returns (s: State)
    requires RING <= t < |users| && !HasRecent(users, t)
    ensures !InputSafe(users, s)
  {
    var early := t - RING;
    var s0 := RunUpTo(users, early);
    var s1 := EnqueueMany(users, s0, 5 * (RING + 1));
    ReadyOutOfTurn(users, s1, t);
    Extend(users, s1, Ready(t));
    s := PassesTooEarly(users, Next(users, s1, Ready(t)), early, t);
  }

  lemma ReadyOutOfTurn(users: seq<nat>, s: State, t: nat)
    requires RING <= t < |users| && !HasRecent(users, t)
    requires DoneUpTo(users, s.(host := 5 * (t - RING)), t - RING) && s.host >= 5 * (t + 1)
    ensures Enabled(users, s, Ready(t))
  {
    forall r | 0 <= r < t && users[r] == users[t] ensures s.waited[r] {
      assert r < t - RING;
    }
  }

  lemma PassesTooEarly(users: seq<nat>, s: State, early: nat, t: nat) returns (s': State)
    requires t == early + RING && t < |users| && Reachable(users, s) && Sized(users, s)
    requires s.pcie == early && s.phase == 0 && s.host == 5 * (t + 1) && s.inTok[Slot(t)] == t + 1 && !s.ready[early]
    ensures !InputSafe(users, s')
  {
    assert Slot(early) == Slot(t);
    Extend(users, s, Pcie);
    s' := s.(phase := 1);
    assert s' == Next(users, s, Pcie);
    assert PassedInput(s', early) && !s'.ready[early];
  }

  /** Input waits are safe in every reachable state if and only if the submissions are paced. */
  lemma InputSafeExactlyWhenPaced(users: seq<nat>)
    ensures (forall s :: InputSafe(users, s)) <==> Paced(users)
  {
    if Paced(users) {
      forall s ensures InputSafe(users, s) {
        if Reachable(users, s) {
          var steps :| Reaches(users, steps, s);
          ReachesInTokens(users, steps, s);
        }
      }
    } else {
      var t :| RING <= t < |users| && !HasRecent(users, t);
      var s := UnpacedIsUnsafe(users, t);
    }
  }

  lemma OneStreamIsPaced(users: seq<nat>)
    requires forall t :: 0 <= t < |users| ==> users[t] == users[0]
    ensures Paced(users)
  {
    forall t | RING <= t < |users| ensures HasRecent(users, t) {
      assert users[t - 1] == users[t];
    }
  }

  // ---- No deadlock ----

  /** 64 submissions on one user stream and then one on another are not. */
  lemma NewcomerIsUnpaced()
    ensures !Paced(seq(RING, i => 0) + [1])
  {
    assert !HasRecent(seq(RING, i => 0) + [1], RING);
  }

  /** Paced submissions never deadlock: until everything has executed, some stream or the host can
      go on. */
  lemma NeverDeadlocks(users: seq<nat>, steps: seq<Action>, s: State) returns (a: Action)
    requires Paced(users) && Reaches(users, steps, s)
    requires exists t :: 0 <= t < |users| && t < |s.waited| && !s.waited[t]
    ensures Enabled(users, s, a)
  {
    ReachesStreams(users, steps, s);
    ReachesInTokens(users, steps, s);
    if s.host < 5 * |users| {
      a := Enqueue;
    } else if s.pcie < |users| && (s.phase > 0 || s.ready[s.pcie]) {
      a := Pcie;
    } else {
      var t :| 0 <= t < |users| && !s.waited[t];
      var last := if s.pcie < |users| then s.pcie else t;
      a := OldestOnStream(users, s, last);
    }
  }

  /** The oldest submission on the stream of `t`, up to `t`, that has not finished there. */
  lemma OldestUnfinished(users: seq<nat>, s: State, t: nat) returns (r: nat)
    requires t < |users| == |s.waited| && !s.waited[t]
    ensures r <= t && users[r] == users[t] && !s.waited[r] && FirstOnStream(users, s, r)
  {
    r := 0;
    while r < t && (users[r] != users[t] || s.waited[r])
      invariant 0 <= r <= t
      invariant forall q :: 0 <= q < r && users[q] == users[t] ==> s.waited[q]
    {
      r := r + 1;
    }
  }

  lemma OldestOnStream(users: seq<nat>, s: State, t: nat) returns (a: Action)
    requires StreamsOk(users, s) && DoneTokens(s) && InTokens(users, s) && s.host == 5 * |users|
    requires t < |users| && !s.waited[t] && (Written(s, t) || (s.pcie == t && !s.ready[t]))
    ensures Enabled(users, s, a)
  {
    var r := OldestUnfinished(users, s, t);
    if r == t && s.pcie == t {
      a := Ready(t);
    } else {
      CanFinish(users, s, r);
      a := Wait(r);
    }
  }

  lemma CanFinish(users: seq<nat>, s: State, r: nat)
    requires Sized(users, s) && DoneTokens(s) && InTokens(users, s) && s.host == 5 * |users|
    requires r < |users| && Written(s, r) && !s.waited[r]
    ensures Enabled(users, s, Wait(r))
  {
    assert PassedInput(s, r);
  }

  // ---- Completion ----

  /** `steps` lead from `s` to `t`. */
  ghost predicate Runs(users: seq<nat>, s: State, steps: seq<Action>, t: State)
    decreases |steps|
  {
    if |steps| == 0 then s == t
    else
      var first, rest := steps[0], steps[1..];
      exists s1 :: Takes(users, s, first, s1) && Runs(users, s1, rest, t)
  }

  predicate AllWaited(users: seq<nat>, s: State) {
    Sized(users, s) && forall t :: 0 <= t < |users| ==> s.waited[t]
  }

  ghost predicate CanComplete(users: seq<nat>, s: State) {
    exists steps, t :: Runs(users, s, steps, t) && AllWaited(users, t)
  }

  function Open(done: seq<bool>): nat {
    if |done| == 0 then 0 else Open(done[..|done| - 1]) + if done[|done| - 1] then 0 else 1
  }

  lemma {:induction false} OpenSet(done: seq<bool>, i: nat)
    requires i < |done| && !done[i]
    ensures Open(done[i := true]) == Open(done) - 1
  {
    var n := |done| - 1;
    if i < n {
      assert done[i := true][..n] == done[..n][i := true];
      OpenSet(done[..n], i);
    } else {
      assert done[i := true][..n] == done[..n];
    }
  }

  /** Operations still to be enqueued or executed. */
  function Remaining(users: seq<nat>, s: State): int {
    5 * |users| - s.host + 3 * (|users| - s.pcie) - s.phase + Open(s.ready) + Open(s.waited)
  }

  lemma StepRemaining(users: seq<nat>, s: State, a: Action)
    requires Enabled(users, s, a)
    ensures Remaining(users, Next(users, s, a)) == Remaining(users, s) - 1
  {
    match a {
      case Ready(t) => OpenSet(s.ready, t);
      case Wait(t) => OpenSet(s.waited, t);
      case _ =>
    }
  }

  lemma CompletesOneEarlier(users: seq<nat>, s: State, a: Action)
    requires Enabled(users, s, a) && CanComplete(users, Next(users, s, a))
    ensures CanComplete(users, s)
  {
    var s1 := Next(users, s, a);
    var more, t :| Runs(users, s1, more, t) && AllWaited(users, t);
    assert ([a] + more)[1..] == more && Takes(users, s, a, s1);
    assert Runs(users, s, [a] + more, t);
  }

  lemma {:induction false} FinishesFrom(users: seq<nat>, steps: seq<Action>, s: State)
    requires Paced(users) && Reaches(users, steps, s)
    ensures CanComplete(users, s)
    decreases Remaining(users, s)
  {
    ReachesStreams(users, steps, s);
    if AllWaited(users, s) {
      assert Runs(users, s, [], s);
    } else {
      var a := NeverDeadlocks(users, steps, s);
      ReachesNext(users, steps, s, a);
      StepRemaining(users, s, a);
      FinishesFrom(users, steps + [a], Next(users, s, a));
      CompletesOneEarlier(users, s, a);
    }
  }

  /** The last submission that is not paced. */
  ghost predicate LastUnpaced(users: seq<nat>, t: nat) {
    && RING <= t < |users| && !HasRecent(users, t)
    && forall u :: t < u < |users| ==> HasRecent(users, u)
  }

  lemma FindLastUnpaced(users: seq<nat>) returns (t: nat)
    requires !Paced(users)
    ensures LastUnpaced(users, t)
  {
    var t0 :| RING <= t0 < |users| && !HasRecent(users, t0);
    t := |users| - 1;
    while HasRecent(users, t)
      invariant t0 <= t < |users| && forall u :: t < u < |users| ==> HasRecent(users, u)
      decreases t
    {
      assert t != t0;
      t := t - 1;
    }
  }

  /** `t` is ready, its token has been overwritten by an older submission of the slot, and nobody
      newer can write the slot before `t` has been through the PCIe stream. */
  ghost predicate Doomed(users: seq<nat>, s: State, t: nat) {
    && StreamsOk(users, s) && DoneTokens(s) && LastUnpaced(users, t)
    && s.ready[t] && !PassedInput(s, t) && s.inTok[Slot(t)] <= t
  }

  lemma NobodyNewer(users: seq<nat>, s: State, t: nat, later: nat)
    requires Doomed(users, s, t) && t < later < |users| && Slot(later) == Slot(t)
    ensures !FirstOnStream(users, s, later)
  {
    SameSlot(t, later);
    assert HasRecent(users, later);
    var r :| 0 <= r < later <= r + RING && users[r] == users[later];
    assert !Written(s, r);
  }

  lemma StaysDoomed(users: seq<nat>, s: State, a: Action, t: nat)
    requires Doomed(users, s, t) && Enabled(users, s, a)
    ensures Doomed(users, Next(users, s, a), t)
  {
    KeepsStreams(users, s, a);
    KeepsDoneTokens(users, s, a);
    if a.Ready? && Slot(a.t) == Slot(t) && a.t > t {
      NobodyNewer(users, s, t, a.t);
    }
  }

  lemma {:induction false} DoomedNeverCompletes(users: seq<nat>, s: State, steps: seq<Action>, t: nat, end: State)
    requires Doomed(users, s, t) && Runs(users, s, steps, end)
    ensures !AllWaited(users, end)
    decreases |steps|
  {
    if |steps| == 0 {
      assert !Written(s, t);
    } else {
      var first, rest := steps[0], steps[1..];
      var s1 :| Takes(users, s, first, s1) && Runs(users, s1, rest, end);
      StaysDoomed(users, s, first, t);
      DoomedNeverCompletes(users, s1, rest, t, end);
    }
  }

  /** Ready the unpaced submission first, then the one 64 before it, whose token lands on top. */
  lemma ReachDoom(users: seq<nat>, t: nat) returns (s: State)
    requires LastUnpaced(users, t)
    ensures Reachable(users, s) && Doomed(users, s, t)
  {
    var early := t - RING;
    var s0 := RunUpTo(users, early);
    var s1 := EnqueueMany(users, s0, 5 * (|users| - early));
    ReadyOutOfTurn(users, s1, t);
    s := ReadyBoth(users, s1, early, t);
    LooksDoomed(users, s, early, t);
  }

  lemma ReadyBoth(users: seq<nat>, s1: State, early: nat, t: nat) returns (s: State)
    requires Reachable(users, s1) && t == early + RING < |users| && s1.host == 5 * |users|
    requires DoneUpTo(users, s1.(host := 5 * early), early) && Enabled(users, s1, Ready(t))
    ensures Reachable(users, s) && Sized(users, s) && s.ready[t] && s.pcie == early && s.phase == 0 &&
            s.inTok[Slot(t)] <= t
  {
    Extend(users, s1, Ready(t));
    var s2 := s1.(ready := s1.ready[t := true], inTok := s1.inTok[Slot(t) := t + 1]);
    assert s2 == Next(users, s1, Ready(t));
    EarlyStillFirst(users, s1.(host := 5 * early), s2, early, t);
    Extend(users, s2, Ready(early));
    s := Next(users, s2, Ready(early));
    OverwrittenToken(s2, s, early, t);
  }

  lemma LooksDoomed(users: seq<nat>, s: State, early: nat, t: nat)
    requires Reachable(users, s) && LastUnpaced(users, t) && t == early + RING
    requires Sized(users, s) && s.ready[t] && s.pcie == early && s.phase == 0 && s.inTok[Slot(t)] <= t
    ensures Doomed(users, s, t)
  {
    var steps :| Reaches(users, steps, s);
    ReachesStreams(users, steps, s);
  }

  lemma EarlyStillFirst(users: seq<nat>, s0: State, s2: State, early: nat, t: nat)
    requires DoneUpTo(users, s0, early) && Sized(users, s2) && t == early + RING < |users|
    requires s2.host == 5 * |users| && s2.ready == s0.ready[t := true] && s2.waited == s0.waited
    ensures Enabled(users, s2, Ready(early))
  {
  }

  lemma OverwrittenToken(s2: State, s: State, early: nat, t: nat)
    requires t == early + RING && |s2.inTok| == RING && s.inTok == s2.inTok[Slot(early) := early + 1]
    ensures s.inTok[Slot(t)] <= t
  {
    assert Slot(early) == Slot(t);
  }

  /** From every reachable state all submissions can still complete if and only if they are paced. */
  lemma CompletesExactlyWhenPaced(users: seq<nat>)
    ensures (forall s :: Reachable(users, s) ==> CanComplete(users, s)) <==> Paced(users)
  {
    if Paced(users) {
      forall s | Reachable(users, s) ensures CanComplete(users, s) {
        var steps :| Reaches(users, steps, s);
        FinishesFrom(users, steps, s);
      }
    } else {
      var t := FindLastUnpaced(users);
      var s := ReachDoom(users, t);
      if CanComplete(users, s) {
        var steps, end :| Runs(users, s, steps, end) && AllWaited(users, end);
        DoomedNeverCompletes(users, s, steps, t, end);
      }
    }
  }

  /** What submission `t` has executed on either stream has been enqueued before. */
  predicate EnqueuedFirst(s: State, t: nat) {
    && t < |s.ready| == |s.waited|
    && (s.ready[t] ==> s.host > 5 * t)
    && (s.pcie > t ==> s.host > 5 * t + 3)
    && (s.pcie == t ==> s.phase == 0 || s.host > 5 * t + s.phase)
    && (s.waited[t] ==> s.host > 5 * t + 4)
  }

  lemma StepKeepsEnqueued(users: seq<nat>, s: State, a: Action, t: nat)
    requires Enabled(users, s, a) && EnqueuedFirst(s, t)
    ensures EnqueuedFirst(Next(users, s, a), t)
  {
  }

  /** Streams only execute what the host has enqueued before: the five operations of a submission in
      their order. */
  lemma {:induction false} ExecutedIsEnqueued(users: seq<nat>, steps: seq<Action>, s: State, t: nat)
    requires Reaches(users, steps, s) && t < |users|
    ensures EnqueuedFirst(s, t)
    decreases |steps|
  {
    if |steps| > 0 {
      var front, last := steps[..|steps| - 1], steps[|steps| - 1];
      var s0 :| Reaches(users, front, s0) && Takes(users, s0, last, s);
      ExecutedIsEnqueued(users, front, s0, t);
      StepKeepsEnqueued(users, s0, last, t);
    }
  }
}
