/** The shared-memory parameter round of every collective. Rank 0 waits until the previous
    parameters have been read, may update and write one entry, and announces it; every other rank
    waits for the announcement, reads once and counts itself off; a barrier ends the round. The
    barrier is the one proved in `Barrier`. */
module ParamRound {
  import opened Ir
  import opened Controller

  /** Steps of a round. Rank 0 takes Begin, Written, Announced, Merged; the others take Begin,
      Started, Merged, CountedOff; then all are AtBarrier. */
  datatype Phase = Begin | Started | Written | Announced | Merged | CountedOff | AtBarrier

  datatype Place = Place(round: nat, phase: Phase)

  datatype Entry = Entry(key: OpKey, param: Param)

  /** `pending` is `param_read_count`; `history[w]` is what the entry table held when round `w` was
      announced. */
  datatype State = State(pending: nat, table: Option<Entry>, caches: seq<Cache>, place: seq<Place>,
                         history: seq<Option<Entry>>)

  datatype Action =
    | BeginRound
    | Write(entry: Entry)
    | Announce
    | Start(rank: nat)
    | Merge(rank: nat)
    | CountOff(rank: nat)
    | Arrive(rank: nat)
    | Pass(rank: nat)

  function Merged1(c: Cache, e: Option<Entry>): Cache {
    match e
    case None => c
    case Some(entry) => c[entry.key := entry.param]
  }

  function RankOf(a: Action): nat {
    match a
    case BeginRound => 0
    case Write(_) => 0
    case Announce => 0
    case _ => a.rank
  }

  predicate Enabled(s: State, a: Action) {
    && |s.caches| == |s.place| && RankOf(a) < |s.place|
    && var me := s.place[RankOf(a)].phase;
    && match a
       case BeginRound => me == Begin && s.pending == 0
       case Write(_) => me == Started
       case Announce => me == Started || me == Written
       case Start(r) => r != 0 && me == Begin && s.pending != 0
       case Merge(r) => me == if r == 0 then Announced else Started
       case CountOff(r) => r != 0 && me == Merged && s.pending > 0
       case Arrive(r) => me == if r == 0 then Merged else CountedOff
       case Pass(r) => me == AtBarrier && forall q :: 0 <= q < |s.place| ==>
         s.place[q].round > s.place[r].round || (s.place[q].round == s.place[r].round && s.place[q].phase == AtBarrier)
  }

  function To(s: State, r: nat, f: Phase): State
    requires r < |s.place|
  {
    s.(place := s.place[r := Place(s.place[r].round, f)])
  }

  function Next(s: State, a: Action): State
    requires Enabled(s, a)
  {
    match a
    case BeginRound => To(s, 0, Started)
    case Write(e) =>
      To(s, 0, Written).(table := Some(e), caches := s.caches[0 := s.caches[0][e.key := e.param]])
    case Announce => To(s, 0, Announced).(pending := |s.place| - 1, history := s.history + [s.table])
    case Start(r) => To(s, r, Started)
    case Merge(r) => To(s, r, Merged).(caches := s.caches[r := Merged1(s.caches[r], s.table)])
    case CountOff(r) => To(s, r, CountedOff).(pending := s.pending - 1)
    case Arrive(r) => To(s, r, AtBarrier)
    case Pass(r) => s.(place := s.place[r := Place(s.place[r].round + 1, Begin)])
  }

  ghost predicate Takes(s: State, a: Action, s': State) {
    Enabled(s, a) && s' == Next(s, a)
  }

  /** The table may hold an entry of an earlier communicator; the caches start empty. */
  function Initial(n: nat, left: Option<Entry>): State {
    State(0, left, seq(n, i => map[]), seq(n, i => Place(0, Begin)), [])
  }

  ghost predicate Reaches(n: nat, left: Option<Entry>, steps: seq<Action>, s: State) {
    if |steps| == 0 then s == Initial(n, left)
    else
      var front, last := steps[..|steps| - 1], steps[|steps| - 1];
      exists s0 :: Reaches(n, left, front, s0) && Takes(s0, last, s)
  }

  // ---- Invariant ----

  /** The cache after merging what the first `w` rounds announced. */
  function CacheAfter(history: seq<Option<Entry>>, w: nat): Cache
    requires w <= |history|
  {
    if w == 0 then map[] else Merged1(CacheAfter(history, w - 1), history[w - 1])
  }

  /** Rank 0 has announced its current round. */
  predicate AnnouncedNow(s: State)
    requires |s.place| > 0
  {
    s.place[0].phase == Announced || s.place[0].phase == Merged || s.place[0].phase == AtBarrier
  }

  /** Every other rank is in rank 0's round, except around the barrier. */
  predicate PlaceOk(s: State, r: nat)
    requires r < |s.place|
  {
    var zero, me := s.place[0], s.place[r];
    if r == 0 then me.phase != CountedOff
    else if me.round == zero.round then
      me.phase in {Begin, Started, Merged, CountedOff, AtBarrier} && (me.phase != Begin ==> AnnouncedNow(s))
    else if me.round + 1 == zero.round then me.phase == AtBarrier
    else me.round == zero.round + 1 && me.phase == Begin && zero.phase == AtBarrier
  }

  /** Someone has left the barrier of round `w`, so everyone has reached it. */
  ghost predicate Together(s: State) {
    forall p, q :: 0 <= p < |s.place| && 0 <= q < |s.place| && s.place[p].round > s.place[q].round ==>
      s.place[q].phase == AtBarrier && s.place[p].round == s.place[q].round + 1
  }

  predicate Owes(s: State, r: nat)
    requires 0 < r < |s.place|
  {
    && AnnouncedNow(s)
    && (s.place[r].round < s.place[0].round ||
        (s.place[r].round == s.place[0].round && s.place[r].phase in {Begin, Started, Merged}))
  }

  /** Ranks 1 to k - 1 that have not read the announced parameters yet. */
  function Owing(s: State, k: nat): nat
    requires 0 < k <= |s.place|
  {
    if k == 1 then 0 else Owing(s, k - 1) + if Owes(s, k - 1) then 1 else 0
  }

  /** Rounds whose announcement this rank has merged. */
  function MergedRounds(s: State, r: nat): nat
    requires r < |s.place|
  {
    s.place[r].round + if s.place[r].phase in {Merged, CountedOff, AtBarrier} then 1 else 0
  }

  predicate CacheOk(s: State, r: nat)
    requires r < |s.place| == |s.caches| && MergedRounds(s, r) <= |s.history|
  {
    if r == 0 && s.place[0].phase in {Written, Announced} then
      || s.caches[0] == CacheAfter(s.history, s.place[0].round)
      || s.caches[0] == Merged1(CacheAfter(s.history, s.place[0].round), s.table)
    else s.caches[r] == CacheAfter(s.history, MergedRounds(s, r))
  }

  ghost predicate Inv(s: State) {
    && |s.place| == |s.caches| > 0 && Together(s)
    && (forall r :: 0 <= r < |s.place| ==> PlaceOk(s, r))
    && s.pending == Owing(s, |s.place|)
    && |s.history| == s.place[0].round + (if AnnouncedNow(s) then 1 else 0)
    && (AnnouncedNow(s) ==> s.history[|s.history| - 1] == s.table)
    && (forall r :: 0 <= r < |s.place| ==> MergedRounds(s, r) <= |s.history| && CacheOk(s, r))
  }

  lemma {:induction false} OwingSame(s: State, s': State, k: nat)
    requires 0 < k <= |s.place| == |s'.place| && forall r :: 0 < r < k ==> Owes(s, r) == Owes(s', r)
    ensures Owing(s', k) == Owing(s, k)
  {
    if k > 1 {
      OwingSame(s, s', k - 1);
    }
  }

  lemma {:induction false} OwingDrops(s: State, s': State, p: nat, k: nat)
    requires 0 < p < k <= |s.place| == |s'.place| && Owes(s, p) && !Owes(s', p)
    requires forall r :: 0 < r < k && r != p ==> Owes(s, r) == Owes(s', r)
    ensures Owing(s', k) == Owing(s, k) - 1
  {
    if p < k - 1 {
      OwingDrops(s, s', p, k - 1);
    } else {
      OwingSame(s, s', k - 1);
    }
  }

  lemma {:induction false} OwingAll(s: State, k: nat)
    requires 0 < k <= |s.place| && forall r :: 0 < r < k ==> Owes(s, r)
    ensures Owing(s, k) == k - 1
  {
    if k > 1 {
      OwingAll(s, k - 1);
    }
  }

  lemma {:induction false} OwingNone(s: State, k: nat)
    requires 0 < k <= |s.place|
    ensures Owing(s, k) == 0 <==> forall r :: 0 < r < k ==> !Owes(s, r)
  {
    if k > 1 {
      OwingNone(s, k - 1);
    }
  }

  lemma {:induction false} CacheStable(h: seq<Option<Entry>>, e: Option<Entry>, w: nat)
    requires w <= |h|
    ensures CacheAfter(h + [e], w) == CacheAfter(h, w)
  {
    if w > 0 {
      CacheStable(h, e, w - 1);
    }
  }

  /** A rank can start a round only after rank 0 has announced that very round. */
  lemma StartMeansAnnounced(s: State, r: nat)
    requires Inv(s) && Enabled(s, Start(r))
    ensures AnnouncedNow(s) && s.place[r].round == s.place[0].round
  {
    OwingNone(s, |s.place|);
    var q :| 0 < q < |s.place| && Owes(s, q);
    assert PlaceOk(s, r);
    assert s.place[r].round > s.place[q].round ==> s.place[q].phase == AtBarrier;
  }

  lemma KeepsTogether(s: State, a: Action)
    requires Inv(s) && Enabled(s, a)
    ensures Together(Next(s, a))
  {
    var s' := Next(s, a);
    forall p, q | 0 <= p < |s'.place| && 0 <= q < |s'.place| && s'.place[p].round > s'.place[q].round
      ensures s'.place[q].phase == AtBarrier && s'.place[p].round == s'.place[q].round + 1
    {
      assert s.place[p].round >= s.place[q].round;
      assert s.place[p].round > s.place[q].round ==>
          s.place[q].phase == AtBarrier && s.place[p].round == s.place[q].round + 1;
    }
  }

  lemma KeepsPlace(s: State, a: Action, r: nat)
    requires Inv(s) && Enabled(s, a) && r < |s.place|
    ensures PlaceOk(Next(s, a), r)
  {
    assert PlaceOk(s, r) && PlaceOk(s, 0) && PlaceOk(s, RankOf(a));
    if a.Start? { StartMeansAnnounced(s, a.rank); }
  }

  lemma OwesAfter(s: State, a: Action, r: nat)
    requires Inv(s) && Enabled(s, a) && 0 < r < |s.place|
    ensures a == Announce ==> Owes(Next(s, a), r) && !Owes(s, r)
    ensures a == CountOff(r) ==> Owes(s, r) && !Owes(Next(s, a), r)
    ensures a != Announce && a != CountOff(r) ==> Owes(Next(s, a), r) == Owes(s, r)
  {
    assert PlaceOk(s, r) && PlaceOk(s, 0);
    assert s.place[0].round > s.place[r].round ==> s.place[r].phase == AtBarrier;
    assert s.place[r].round > s.place[0].round ==> s.place[0].phase == AtBarrier;
    if a.Start? { StartMeansAnnounced(s, a.rank); }
  }

  lemma KeepsPending(s: State, a: Action)
    requires Inv(s) && Enabled(s, a)
    ensures Next(s, a).pending == Owing(Next(s, a), |s.place|)
  {
    var s' := Next(s, a);
    forall r | 0 < r < |s.place| ensures
      (a == Announce ==> Owes(s', r) && !Owes(s, r)) && (a == CountOff(r) ==> Owes(s, r) && !Owes(s', r))
      && (a != Announce && a != CountOff(r) ==> Owes(s', r) == Owes(s, r))
    {
      OwesAfter(s, a, r);
    }
    if a == Announce {
      OwingAll(s', |s.place|);
    } else if a.CountOff? {
      OwingDrops(s, s', a.rank, |s.place|);
    } else {
      OwingSame(s, s', |s.place|);
    }
  }

  lemma KeepsHistory(s: State, a: Action)
    requires Inv(s) && Enabled(s, a)
    ensures var s' := Next(s, a);
      && |s'.history| == s'.place[0].round + (if AnnouncedNow(s') then 1 else 0)
      && (AnnouncedNow(s') ==> s'.history[|s'.history| - 1] == s'.table)
      && s.history <= s'.history
  {
    assert PlaceOk(s, 0);
  }

  /** Whoever merges reads exactly the entry announced for its round. */
  lemma MergesAnnounced(s: State, r: nat)
    requires Inv(s) && Enabled(s, Merge(r))
    ensures AnnouncedNow(s) && s.place[r].round == s.place[0].round && |s.history| == s.place[r].round + 1
    ensures s.history[s.place[r].round] == s.table
  {
    assert PlaceOk(s, r);
  }

  /** Merging the same entry twice is merging it once. */
  lemma MergeTwice(c: Cache, e: Option<Entry>)
    ensures Merged1(Merged1(c, e), e) == Merged1(c, e)
  {
  }

  lemma AnnounceKeepsCache(s: State, r: nat)
    requires Inv(s) && Enabled(s, Announce) && r < |s.place|
    ensures var s' := Next(s, Announce); MergedRounds(s', r) <= |s'.history| && CacheOk(s', r)
  {
    assert PlaceOk(s, r) && PlaceOk(s, 0) && CacheOk(s, r);
    CacheStable(s.history, s.table, s.place[0].round);
    CacheStable(s.history, s.table, MergedRounds(s, r));
  }

  lemma MergeKeepsCache(s: State, r: nat)
    requires Inv(s) && Enabled(s, Merge(r))
    ensures var s' := Next(s, Merge(r)); MergedRounds(s', r) <= |s'.history| && CacheOk(s', r)
  {
    assert PlaceOk(s, r) && CacheOk(s, r);
    MergesAnnounced(s, r);
    MergeTwice(CacheAfter(s.history, s.place[r].round), s.table);
  }

  lemma KeepsCache(s: State, a: Action, r: nat)
    requires Inv(s) && Enabled(s, a) && r < |s.place|
    ensures var s' := Next(s, a); MergedRounds(s', r) <= |s'.history| && CacheOk(s', r)
  {
    if a == Announce {
      AnnounceKeepsCache(s, r);
    } else if a == Merge(r) {
      MergeKeepsCache(s, r);
    } else {
      assert PlaceOk(s, r) && PlaceOk(s, 0) && CacheOk(s, r);
    }
  }

  lemma KeepsInv(s: State, a: Action)
    requires Inv(s) && Enabled(s, a)
    ensures Inv(Next(s, a))
  {
    var s' := Next(s, a);
    KeepsTogether(s, a);
    KeepsPending(s, a);
    KeepsHistory(s, a);
    forall r | 0 <= r < |s'.place| ensures PlaceOk(s', r) && MergedRounds(s', r) <= |s'.history| && CacheOk(s', r) {
      KeepsPlace(s, a, r);
      KeepsCache(s, a, r);
    }
  }

  lemma StartsInv(n: nat, left: Option<Entry>)
    requires n > 0
    ensures Inv(Initial(n, left))
  {
    OwingNone(Initial(n, left), n);
  }

  lemma {:induction false} ReachesInv(n: nat, left: Option<Entry>, steps: seq<Action>, s: State)
    requires n > 0 && Reaches(n, left, steps, s)
    ensures Inv(s) && |s.place| == n
    decreases |steps|
  {
    if |steps| == 0 {
      StartsInv(n, left);
    } else {
      var m := |steps| - 1;
      var s0 :| Reaches(n, left, steps[..m], s0) && Takes(s0, steps[m], s);
      ReachesInv(n, left, steps[..m], s0);
      KeepsInv(s0, steps[m]);
    }
  }

  // ---- Main results ----

  /** Two ranks that have come out of the barrier of the same round hold the same cache on every
      key, at whatever moments they look. */
  lemma CachesAgree(n: nat, left: Option<Entry>, steps: seq<Action>, s: State, p: nat, q: nat)
    requires n > 0 && Reaches(n, left, steps, s) && p < n && q < n && |s.place| == |s.caches| == n
    requires s.place[p].phase == Begin && s.place[q].phase == Begin && s.place[p].round == s.place[q].round
    ensures s.caches[p] == s.caches[q]
  {
    ReachesInv(n, left, steps, s);
    AtStartOfRound(s, p);
    AtStartOfRound(s, q);
  }

  /** And what a rank finds in its cache for its k-th collective never depends on the interleaving
      beyond the announced entries: it is the merge of the first k announcements, which later
      announcements do not change. */
  lemma CacheIsMergeOfRounds(n: nat, left: Option<Entry>, steps: seq<Action>, s: State, r: nat, a: Action)
    requires n > 0 && Reaches(n, left, steps, s) && r < n && |s.place| == |s.caches| == n
    requires s.place[r].phase == Begin && Enabled(s, a)
    ensures s.place[r].round <= |s.history| && s.caches[r] == CacheAfter(s.history, s.place[r].round)
    ensures s.place[r].round <= |Next(s, a).history|
    ensures CacheAfter(Next(s, a).history, s.place[r].round) == CacheAfter(s.history, s.place[r].round)
  {
    ReachesInv(n, left, steps, s);
    AtStartOfRound(s, r);
    if a == Announce {
      CacheStable(s.history, s.table, s.place[r].round);
    } else {
      assert Next(s, a).history == s.history;
    }
  }

  lemma AtStartOfRound(s: State, r: nat)
    requires Inv(s) && r < |s.place| && s.place[r].phase == Begin
    ensures s.place[r].round <= |s.history| && s.caches[r] == CacheAfter(s.history, s.place[r].round)
  {
    assert CacheOk(s, r);
  }

  /** Rank 0 never rewrites the entry or the count while another rank has yet to read. */
  lemma NoRewriteWhilePending(n: nat, left: Option<Entry>, steps: seq<Action>, s: State, a: Action, r: nat)
    requires n > 0 && Reaches(n, left, steps, s) && 0 < r < n && Enabled(s, a) && (a.Write? || a.Announce?)
    ensures r < |s.place| && s.pending == 0 && !(s.place[r].phase in {Started, Merged})
  {
    ReachesInv(n, left, steps, s);
    OwingNone(s, n);
    assert PlaceOk(s, r) && PlaceOk(s, 0);
  }

  // ---- Somebody can always go on ----

  /** A rank other than 0 that is in rank 0's round while that is announced, or still at the barrier
      of the round before, and not at a barrier with all others. */
  lemma OtherGoesOn(s: State, r: nat) returns (a: Action)
    requires Inv(s) && 0 < r < |s.place|
    requires AnnouncedNow(s) && s.place[r].round == s.place[0].round && s.place[r].phase != AtBarrier
    ensures Enabled(s, a) && RankOf(a) == r && !a.Write?
  {
    assert PlaceOk(s, r) && PlaceOk(s, 0);
    OwingNone(s, |s.place|);
    assert s.place[r].phase in {Begin, Started, Merged} ==> Owes(s, r);
    match s.place[r].phase {
      case Begin => a := Start(r);
      case Started => a := Merge(r);
      case Merged => a := CountOff(r);
      case CountedOff => a := Arrive(r);
    }
  }

  /** The last to leave a barrier can leave it. */
  lemma StragglerLeaves(s: State, r: nat)
    requires Inv(s) && r < |s.place| && s.place[r].phase == AtBarrier
    requires exists q :: 0 <= q < |s.place| && s.place[q].round > s.place[r].round
    ensures Enabled(s, Pass(r))
  {
    var q :| 0 <= q < |s.place| && s.place[q].round > s.place[r].round;
    forall p | 0 <= p < |s.place|
      ensures s.place[p].round > s.place[r].round ||
              (s.place[p].round == s.place[r].round && s.place[p].phase == AtBarrier)
    {
      if s.place[p].round <= s.place[r].round {
        assert s.place[q].round > s.place[p].round;
      }
    }
  }

  lemma ZeroGoesOn(s: State) returns (a: Action)
    requires Inv(s) && s.place[0].phase != AtBarrier
    ensures Enabled(s, a) && RankOf(a) == 0 && !a.Write?
    ensures s.place[0].phase == Begin <==> a == BeginRound
  {
    assert PlaceOk(s, 0);
    match s.place[0].phase {
      case Begin =>
        OwingNone(s, |s.place|);
        a := BeginRound;
      case Started => a := Announce;
      case Written => a := Announce;
      case Announced => a := Merge(0);
      case Merged => a := Arrive(0);
    }
  }

  /** Who can go on when rank 0 waits at the barrier. */
  lemma BarrierGoesOn(s: State) returns (a: Action)
    requires Inv(s) && s.place[0].phase == AtBarrier
    ensures Enabled(s, a) && !a.Write? && !a.BeginRound?
    ensures a.Start? ==> s.place[a.rank].round == s.place[0].round
  {
    if r :| 0 <= r < |s.place| && s.place[r].round < s.place[0].round {
      assert PlaceOk(s, r);
      StragglerLeaves(s, r);
      a := Pass(r);
    } else if r :| 0 < r < |s.place| && s.place[r].round == s.place[0].round && s.place[r].phase != AtBarrier {
      a := OtherGoesOn(s, r);
    } else {
      a := Pass(0);
      forall p | 0 <= p < |s.place|
        ensures s.place[p].round > s.place[0].round ||
                (s.place[p].round == s.place[0].round && s.place[p].phase == AtBarrier)
      {
        assert PlaceOk(s, p);
      }
    }
  }

  /** The rounds never block: in every reachable state some rank can take a step, and it need not be
      an update. */
  lemma NeverStuck(n: nat, left: Option<Entry>, steps: seq<Action>, s: State) returns (a: Action)
    requires n > 0 && Reaches(n, left, steps, s)
    ensures Enabled(s, a) && !a.Write?
  {
    ReachesInv(n, left, steps, s);
    if s.place[0].phase == AtBarrier {
      a := BarrierGoesOn(s);
    } else {
      a := ZeroGoesOn(s);
    }
  }
}
