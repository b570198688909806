/** Host staging memory shared by concurrent communicators: rank 0 of a communicator places its
    region first-fit under a lock, barriers separate the lease from its use, and rank 0 clears it. */
module HostStaging {
  import opened Ir

  const ALIGNMENT: nat := 2 * 1024 * 1024

  datatype Region = Region(offset: nat, bytes: nat)

  function AlignUp(x: nat): (r: nat)
    ensures r >= x && r % ALIGNMENT == 0 && r < x + ALIGNMENT
    ensures x % ALIGNMENT == 0 ==> r == x
  {
    (x + ALIGNMENT - 1) / ALIGNMENT * ALIGNMENT
  }

  predicate Overlap(cursor: nat, bytes: nat, r: Region) {
    r.bytes > 0 && cursor < r.offset + r.bytes && r.offset < cursor + bytes
  }

  /** `bytes` bytes at `cursor` touch nothing that a communicator other than `comm` holds. */
  ghost predicate FreeAt(table: seq<Region>, comm: nat, cursor: nat, bytes: nat) {
    forall other :: 0 <= other < |table| && other != comm ==> !Overlap(cursor, bytes, table[other])
  }

  ghost predicate Aligned(table: seq<Region>) {
    forall c :: 0 <= c < |table| ==> table[c].offset % ALIGNMENT == 0 && table[c].bytes % ALIGNMENT == 0
  }

  /** Regions that end beyond the cursor, among the first `n`. */
  function Ahead(table: seq<Region>, cursor: nat, n: nat): nat
    requires n <= |table|
  {
    if n == 0 then 0
    else Ahead(table, cursor, n - 1) + if table[n - 1].offset + table[n - 1].bytes > cursor then 1 else 0
  }

  lemma {:induction false} AheadShrinks(table: seq<Region>, c: nat, d: nat, n: nat, other: nat)
    requires n <= |table| && c <= d
    ensures Ahead(table, d, n) <= Ahead(table, c, n)
    ensures other < n && c < table[other].offset + table[other].bytes <= d ==> Ahead(table, d, n) < Ahead(table, c, n)
  {
    if n > 0 {
      AheadShrinks(table, c, d, n - 1, other);
    }
  }

  /** A region in the way moves the cursor to its end, which is aligned, and nothing up to there is
      free. */
  lemma PushedPast(table: seq<Region>, comm: nat, bytes: nat, cursor: nat, other: nat)
    requires Aligned(table) && other < |table| && other != comm && Overlap(cursor, bytes, table[other])
    ensures var next := AlignUp(table[other].offset + table[other].bytes);
      && next % ALIGNMENT == 0 && cursor < next && Ahead(table, next, |table|) < Ahead(table, cursor, |table|)
      && forall d: nat :: cursor <= d < next ==> !FreeAt(table, comm, d, bytes)
  {
    var region := table[other];
    var end := region.offset + region.bytes;
    EndIsAligned(region);
    forall d: nat | cursor <= d < end ensures !FreeAt(table, comm, d, bytes) {
      assert Overlap(d, bytes, region);
    }
    AheadShrinks(table, cursor, end, |table|, other);
  }

  lemma EndIsAligned(region: Region)
    requires region.offset % ALIGNMENT == 0 && region.bytes % ALIGNMENT == 0
    ensures AlignUp(region.offset + region.bytes) == region.offset + region.bytes
  {
  }

  /** The scan for one NUMA node. Each live region pushes the cursor at most once; the result is
      the least free offset, and `None` means that no free offset fits the capacity. */
  method FirstFit(table: seq<Region>, comm: nat, bytes: nat, capacity: nat) returns (r: Option<nat>)
    requires Aligned(table) && bytes > 0
    ensures match r
      case Some(c) =>
        && c % ALIGNMENT == 0 && c + bytes <= capacity && FreeAt(table, comm, c, bytes)
        && forall d: nat :: d < c ==> !FreeAt(table, comm, d, bytes)
      case None => forall d: nat :: d + bytes <= capacity ==> !FreeAt(table, comm, d, bytes)
  {
    if bytes > capacity { return None; }
    var cursor: nat := 0;
    var advanced := true;
    while advanced
      invariant cursor % ALIGNMENT == 0
      invariant forall d: nat :: d < cursor ==> !FreeAt(table, comm, d, bytes)
      invariant !advanced ==> FreeAt(table, comm, cursor, bytes)
      decreases Ahead(table, cursor, |table|), if advanced then 1 else 0
    {
      advanced := false;
      ghost var before := cursor;
      var other := 0;
      while other < |table|
        invariant 0 <= other <= |table| && !advanced && cursor == before
        invariant forall i :: 0 <= i < other && i != comm ==> !Overlap(cursor, bytes, table[i])
      {
        if other != comm && Overlap(cursor, bytes, table[other]) {
          PushedPast(table, comm, bytes, cursor, other);
          cursor := AlignUp(table[other].offset + table[other].bytes);
          advanced := true;
          break;
        }
        other := other + 1;
      }
    }
    if cursor + bytes > capacity {
      forall d: nat | d + bytes <= capacity ensures !FreeAt(table, comm, d, bytes) {
        assert d < cursor;
      }
      return None;
    }
    return Some(cursor);
  }

  // ---- All NUMA nodes ----

  type Table = seq<seq<Region>>

  /** One table per NUMA node, one entry per communicator. */
  ghost predicate TableOk(t: Table, comms: nat) {
    |t| == MAX_NUMA_NODES && forall n :: 0 <= n < MAX_NUMA_NODES ==> |t[n]| == comms && Aligned(t[n])
  }

  /** Somewhere in the node's capacity there is room for the request. */
  ghost predicate Fits(table: seq<Region>, comm: nat, required: nat, capacity: nat) {
    AlignUp(required) == 0 || exists d: nat ::
        d + AlignUp(required) <= capacity && FreeAt(table, comm, d, AlignUp(required))
  }

  ghost predicate PlacedAt(table: seq<Region>, comm: nat, required: nat, capacity: nat, offset: nat) {
    AlignUp(required) > 0 ==>
      offset % ALIGNMENT == 0 && offset + AlignUp(required) <= capacity &&
          FreeAt(table, comm, offset, AlignUp(required))
  }

  /** One attempt of rank 0, under the lock: it succeeds exactly when every node has room. */
  method TryPlace(t: Table, comm: nat, comms: nat, required: seq<nat>, capacity: seq<nat>) returns (r: Option<seq<nat>>)
    requires TableOk(t, comms) && |required| == |capacity| == MAX_NUMA_NODES
    ensures r.Some? <==> forall n :: 0 <= n < MAX_NUMA_NODES ==> Fits(t[n], comm, required[n], capacity[n])
    ensures r.Some? ==> |r.value| == MAX_NUMA_NODES
    ensures r.Some? ==> forall n :: 0 <= n < MAX_NUMA_NODES ==>
            PlacedAt(t[n], comm, required[n], capacity[n], r.value[n])
  {
    var candidate: seq<nat> := [];
    for numa := 0 to MAX_NUMA_NODES
      invariant |candidate| == numa
      invariant forall n :: 0 <= n < numa ==> Fits(t[n], comm, required[n], capacity[n])
      invariant forall n :: 0 <= n < numa ==> PlacedAt(t[n], comm, required[n], capacity[n], candidate[n])
    {
      var bytes := AlignUp(required[numa]);
      if bytes == 0 {
        candidate := candidate + [0];
      } else {
        var place := FirstFit(t[numa], comm, bytes, capacity[numa]);
        match place {
          case None =>
            assert !Fits(t[numa], comm, required[numa], capacity[numa]);
            return None;
          case Some(c) => candidate := candidate + [c];
        }
      }
    }
    return Some(candidate);
  }

  function Store(t: Table, comm: nat, regions: seq<Region>): Table
    requires |t| == |regions| && forall n :: 0 <= n < |t| ==> comm < |t[n]|
  {
    seq(|t|, n requires 0 <= n < |t| && |t| == |regions| && comm < |t[n]| => t[n][comm := regions[n]])
  }

  // ---- The lease ----

  datatype Phase = Outside | Arriving | Holding | Leaving | Clearing

  function Order(f: Phase): nat {
    match f
    case Outside => 0
    case Arriving => 1
    case Holding => 2
    case Leaving => 3
    case Clearing => 4
  }

  /** `cycle` counts the leases of this rank; `offsets` is what it read when it got the lease. */
  datatype Rank = Rank(cycle: nat, phase: Phase, offsets: seq<nat>)

  function At(r: Rank): nat { 5 * r.cycle + Order(r.phase) }

  /** Several communicators, each with its ranks. */
  datatype State = State(table: Table, ranks: seq<seq<Rank>>)

  /** What communicator `c` asks for in its lease number `cycle`. */
  type Needs = (nat, nat) -> seq<nat>

  datatype Action =
    | Allocate(comm: nat, offsets: seq<nat>)
    | Arrive(comm: nat, rank: nat)
    | Acquire(comm: nat, rank: nat)
    | Leave(comm: nat, rank: nat)
    | PassRelease(comm: nat, rank: nat)
    | Finish(comm: nat, rank: nat)

  predicate Known(s: State, c: nat, r: nat) {
    c < |s.ranks| && r < |s.ranks[c]|
  }

  function RankOf(a: Action): nat {
    match a
    case Allocate(_, _) => 0
    case _ => a.rank
  }

  ghost predicate Enabled(needs: Needs, caps: seq<nat>, s: State, a: Action) {
    && TableOk(s.table, |s.ranks|) && |caps| == MAX_NUMA_NODES && Known(s, a.comm, RankOf(a))
    && var me := s.ranks[a.comm][RankOf(a)];
    && match a
       case Allocate(c, offsets) =>
         && me.phase == Outside && |offsets| == |needs(c, me.cycle)| == MAX_NUMA_NODES
         && (forall n :: 0 <= n < MAX_NUMA_NODES ==>
             PlacedAt(s.table[n], c, needs(c, me.cycle)[n], caps[n], offsets[n]))
         && (forall n :: 0 <= n < MAX_NUMA_NODES ==> offsets[n] % ALIGNMENT == 0)
       case Arrive(c, r) => r != 0 && me.phase == Outside
       case Acquire(c, r) => me.phase == Arriving && forall q :: 0 <= q < |s.ranks[c]| ==> At(s.ranks[c][q]) >= At(me)
       case Leave(c, r) => me.phase == Holding
       case PassRelease(c, r) => me.phase == Leaving && forall q :: 0 <= q < |s.ranks[c]| ==>
           At(s.ranks[c][q]) >= At(me)
       case Finish(c, r) => me.phase == Clearing
  }

  function Move(s: State, c: nat, r: nat, me: Rank): State
    requires Known(s, c, r)
  {
    s.(ranks := s.ranks[c := s.ranks[c][r := me]])
  }

  function Regions(required: seq<nat>, offsets: seq<nat>): (regions: seq<Region>)
    requires |required| == |offsets|
    ensures |regions| == |offsets|
    ensures forall n :: 0 <= n < |offsets| ==> regions[n] == Region(offsets[n], AlignUp(required[n]))
  {
    seq(|offsets|, n requires 0 <= n < |offsets| && |required| == |offsets| => Region(offsets[n], AlignUp(required[n])))
  }

  /** Clearing only zeroes the byte counts. */
  function Cleared(t: Table, c: nat): (regions: seq<Region>)
    requires forall n :: 0 <= n < |t| ==> c < |t[n]|
    ensures |regions| == |t| && forall n :: 0 <= n < |t| ==> regions[n] == Region(t[n][c].offset, 0)
  {
    seq(|t|, n requires 0 <= n < |t| && c < |t[n]| => Region(t[n][c].offset, 0))
  }

  function OffsetsOf(t: Table, c: nat): (offsets: seq<nat>)
    requires forall n :: 0 <= n < |t| ==> c < |t[n]|
    ensures |offsets| == |t| && forall n :: 0 <= n < |t| ==> offsets[n] == t[n][c].offset
  {
    seq(|t|, n requires 0 <= n < |t| && c < |t[n]| => t[n][c].offset)
  }

  ghost function Next(needs: Needs, caps: seq<nat>, s: State, a: Action): State
    requires Enabled(needs, caps, s, a)
  {
    var me := s.ranks[a.comm][RankOf(a)];
    match a
    case Allocate(c, offsets) =>
      Move(s, c, 0, me.(phase := Arriving)).(table := Store(s.table, c, Regions(needs(c, me.cycle), offsets)))
    case Arrive(c, r) => Move(s, c, r, me.(phase := Arriving))
    case Acquire(c, r) => Move(s, c, r, me.(phase := Holding, offsets := OffsetsOf(s.table, c)))
    case Leave(c, r) => Move(s, c, r, me.(phase := Leaving))
    case PassRelease(c, r) => Move(s, c, r, me.(phase := Clearing))
    case Finish(c, r) =>
      var moved := Move(s, c, r, Rank(me.cycle + 1, Outside, me.offsets));
      if r == 0 then moved.(table := Store(s.table, c, Cleared(s.table, c))) else moved
  }

  ghost predicate Takes(needs: Needs, caps: seq<nat>, s: State, a: Action, s': State) {
    Enabled(needs, caps, s, a) && s' == Next(needs, caps, s, a)
  }

  ghost predicate Initial(s: State) {
    && TableOk(s.table, |s.ranks|)
    && (forall n, c :: 0 <= n < MAX_NUMA_NODES && 0 <= c < |s.ranks| ==> s.table[n][c] == Region(0, 0))
    && (forall c, r :: 0 <= c < |s.ranks| && 0 <= r < |s.ranks[c]| ==> s.ranks[c][r] == Rank(0, Outside, []))
  }

  ghost predicate Reaches(needs: Needs, caps: seq<nat>, steps: seq<Action>, s: State) {
    if |steps| == 0 then Initial(s)
    else
      var front, last := steps[..|steps| - 1], steps[|steps| - 1];
      exists s0 :: Reaches(needs, caps, front, s0) && Takes(needs, caps, s0, last, s)
  }

  // ---- Invariant ----

  /** Nobody is past a barrier of its communicator that another rank has not reached. */
  predicate Apart(p: Rank, q: Rank, cycle: nat) {
    (At(p) >= 5 * cycle + 2 && At(q) < 5 * cycle + 1) || (At(p) >= 5 * cycle + 4 && At(q) < 5 * cycle + 3)
  }

  ghost predicate Together(s: State) {
    forall c, p, q, cycle: nat :: 0 <= c < |s.ranks| && 0 <= p < |s.ranks[c]| && 0 <= q < |s.ranks[c]| ==>
      !Apart(s.ranks[c][p], s.ranks[c][q], cycle)
  }

  /** Rank 0 of the communicator is between allocating and clearing. */
  predicate Leased(s: State, c: nat) {
    c < |s.ranks| && |s.ranks[c]| > 0 && s.ranks[c][0].phase != Outside
  }

  ghost predicate LeaseOk(needs: Needs, caps: seq<nat>, s: State, c: nat, n: nat)
    requires n < MAX_NUMA_NODES && TableOk(s.table, |s.ranks|) && |caps| == MAX_NUMA_NODES && c < |s.ranks|
  {
    var r := s.table[n][c];
    if Leased(s, c) then
      && |needs(c, s.ranks[c][0].cycle)| == MAX_NUMA_NODES
      && r.bytes == AlignUp(needs(c, s.ranks[c][0].cycle)[n])
      && (r.bytes > 0 ==> r.offset + r.bytes <= caps[n])
    else r.bytes == 0
  }

  ghost predicate Disjoint(s: State) {
    forall n, c, d ::
      && 0 <= n < |s.table| && 0 <= c < |s.table[n]| && 0 <= d < |s.table[n]|
      && c != d && s.table[n][c].bytes > 0 ==>
      !Overlap(s.table[n][c].offset, s.table[n][c].bytes, s.table[n][d])
  }

  ghost predicate OffsetsOk(s: State)
    requires TableOk(s.table, |s.ranks|)
  {
    forall c, r, n :: 0 <= c < |s.ranks| && 0 <= r < |s.ranks[c]| && 0 <= n < MAX_NUMA_NODES ==> OffsetOk(s, c, r, n)
  }

  predicate OffsetOk(s: State, c: nat, r: nat, n: nat)
    requires Known(s, c, r) && n < |s.table| && c < |s.table[n]|
  {
    s.ranks[c][r].phase == Holding ==>
      n < |s.ranks[c][r].offsets| == MAX_NUMA_NODES && s.ranks[c][r].offsets[n] == s.table[n][c].offset
  }

  ghost predicate Inv(needs: Needs, caps: seq<nat>, s: State) {
    && TableOk(s.table, |s.ranks|) && |caps| == MAX_NUMA_NODES && Together(s)
    && (forall c, n :: 0 <= c < |s.ranks| && 0 <= n < MAX_NUMA_NODES ==> LeaseOk(needs, caps, s, c, n))
    && Disjoint(s) && OffsetsOk(s)
  }

  lemma RanksMove(needs: Needs, caps: seq<nat>, s: State, a: Action, c: nat, r: nat)
    requires Enabled(needs, caps, s, a) && Known(s, c, r)
    ensures var s' := Next(needs, caps, s, a);
      && |s'.ranks| == |s.ranks| && Known(s', c, r) && |s'.ranks[c]| == |s.ranks[c]|
      && At(s'.ranks[c][r]) == At(s.ranks[c][r]) + (if c == a.comm && r == RankOf(a) then 1 else 0)
      && ((c == a.comm && r == RankOf(a)) || s'.ranks[c][r] == s.ranks[c][r])
  {
  }

  lemma KeepsTogether(needs: Needs, caps: seq<nat>, s: State, a: Action)
    requires Together(s) && Enabled(needs, caps, s, a)
    ensures Together(Next(needs, caps, s, a))
  {
    var s' := Next(needs, caps, s, a);
    forall c, p, q, cycle: nat | 0 <= c < |s'.ranks| && 0 <= p < |s'.ranks[c]| && 0 <= q < |s'.ranks[c]|
      ensures !Apart(s'.ranks[c][p], s'.ranks[c][q], cycle)
    {
      RanksMove(needs, caps, s, a, c, p);
      RanksMove(needs, caps, s, a, c, q);
      assert !Apart(s.ranks[c][p], s.ranks[c][q], cycle);
    }
  }

  lemma TableIs(needs: Needs, caps: seq<nat>, s: State, a: Action, n: nat, c: nat)
    requires Enabled(needs, caps, s, a) && n < MAX_NUMA_NODES && c < |s.ranks|
    ensures var s' := Next(needs, caps, s, a);
      && |s'.table| == MAX_NUMA_NODES && |s'.table[n]| == |s.ranks|
      && s'.table[n][c] ==
         if c == a.comm && a.Allocate? then Region(a.offsets[n], AlignUp(needs(c, s.ranks[c][0].cycle)[n]))
         else if c == a.comm && a.Finish? && a.rank == 0 then Region(s.table[n][c].offset, 0)
         else s.table[n][c]
  {
  }

  lemma KeepsTable(needs: Needs, caps: seq<nat>, s: State, a: Action)
    requires Enabled(needs, caps, s, a)
    ensures var s' := Next(needs, caps, s, a); TableOk(s'.table, |s'.ranks|)
  {
    var s' := Next(needs, caps, s, a);
    forall n, c | 0 <= n < MAX_NUMA_NODES && 0 <= c < |s.ranks|
      ensures s'.table[n][c].offset % ALIGNMENT == 0 && s'.table[n][c].bytes % ALIGNMENT == 0
    {
      TableIs(needs, caps, s, a, n, c);
      assert Aligned(s.table[n]);
    }
  }

  lemma KeepsLease(needs: Needs, caps: seq<nat>, s: State, a: Action, c: nat, n: nat)
    requires Enabled(needs, caps, s, a) && c < |s.ranks| && n < MAX_NUMA_NODES && LeaseOk(needs, caps, s, c, n)
    requires TableOk(Next(needs, caps, s, a).table, |Next(needs, caps, s, a).ranks|)
    ensures |Next(needs, caps, s, a).ranks| == |s.ranks| && LeaseOk(needs, caps, Next(needs, caps, s, a), c, n)
  {
    TableIs(needs, caps, s, a, n, c);
    if |s.ranks[c]| > 0 {
      RanksMove(needs, caps, s, a, c, 0);
    }
    if a.Allocate? && a.comm == c {
      assert PlacedAt(s.table[n], c, needs(c, s.ranks[c][0].cycle)[n], caps[n], a.offsets[n]);
    }
  }

  lemma KeepsDisjoint(needs: Needs, caps: seq<nat>, s: State, a: Action)
    requires Enabled(needs, caps, s, a) && Disjoint(s)
    ensures Disjoint(Next(needs, caps, s, a))
  {
    var s' := Next(needs, caps, s, a);
    forall n, c, d | 0 <= n < |s'.table| && 0 <= c < |s'.table[n]| && 0 <= d < |s'.table[n]| && c != d &&
        s'.table[n][c].bytes > 0
      ensures !Overlap(s'.table[n][c].offset, s'.table[n][c].bytes, s'.table[n][d])
    {
      TableIs(needs, caps, s, a, n, c);
      TableIs(needs, caps, s, a, n, d);
      if a.Allocate? {
        var me := a.comm;
        assert PlacedAt(s.table[n], me, needs(me, s.ranks[me][0].cycle)[n], caps[n], a.offsets[n]);
        assert !(Overlap(s.table[n][c].offset, s.table[n][c].bytes, s.table[n][d]) && s.table[n][c].bytes > 0);
      }
    }
  }

  /** A rank that holds a lease keeps rank 0 from clearing or replacing it. */
  lemma HolderPins(s: State, c: nat, r: nat)
    requires Together(s) && Known(s, c, r) && s.ranks[c][r].phase == Holding
    ensures s.ranks[c][0].cycle == s.ranks[c][r].cycle && Leased(s, c) && s.ranks[c][0].phase != Clearing
  {
    var cycle := s.ranks[c][r].cycle;
    assert !Apart(s.ranks[c][r], s.ranks[c][0], cycle) && !Apart(s.ranks[c][0], s.ranks[c][r], cycle);
  }

  lemma SameRanks(needs: Needs, caps: seq<nat>, s: State, a: Action, c: nat)
    requires Enabled(needs, caps, s, a) && c < |Next(needs, caps, s, a).ranks|
    ensures c < |s.ranks| && |Next(needs, caps, s, a).ranks[c]| == |s.ranks[c]|
  {
  }

  lemma HoldsAfter(needs: Needs, caps: seq<nat>, s: State, a: Action, c: nat, r: nat)
    requires Enabled(needs, caps, s, a) && Known(s, c, r) && Known(Next(needs, caps, s, a), c, r)
    requires Next(needs, caps, s, a).ranks[c][r].phase == Holding
    ensures var me := Next(needs, caps, s, a).ranks[c][r];
      if a == Acquire(c, r) then me.offsets == OffsetsOf(s.table, c) else me == s.ranks[c][r]
  {
  }

  lemma KeepsOffsets(needs: Needs, caps: seq<nat>, s: State, a: Action)
    requires Enabled(needs, caps, s, a) && Together(s) && OffsetsOk(s)
    requires TableOk(Next(needs, caps, s, a).table, |Next(needs, caps, s, a).ranks|)
    ensures OffsetsOk(Next(needs, caps, s, a))
  {
    var s' := Next(needs, caps, s, a);
    forall c, r, n | 0 <= c < |s'.ranks| && 0 <= r < |s'.ranks[c]| && 0 <= n < MAX_NUMA_NODES
      ensures OffsetOk(s', c, r, n) {
      if s'.ranks[c][r].phase == Holding {
        SameRanks(needs, caps, s, a, c);
        TableIs(needs, caps, s, a, n, c);
        HoldsAfter(needs, caps, s, a, c, r);
        if a != Acquire(c, r) {
          HolderPins(s, c, r);
          assert OffsetOk(s, c, r, n);
        }
      }
    }
  }

  lemma {:induction false} ReachesInv(needs: Needs, caps: seq<nat>, steps: seq<Action>, s: State)
    requires |caps| == MAX_NUMA_NODES && Reaches(needs, caps, steps, s)
    ensures Inv(needs, caps, s)
    decreases |steps|
  {
    if |steps| > 0 {
      var m := |steps| - 1;
      var s0 :| Reaches(needs, caps, steps[..m], s0) && Takes(needs, caps, s0, steps[m], s);
      ReachesInv(needs, caps, steps[..m], s0);
      KeepsTogether(needs, caps, s0, steps[m]);
      KeepsTable(needs, caps, s0, steps[m]);
      KeepsDisjoint(needs, caps, s0, steps[m]);
      KeepsOffsets(needs, caps, s0, steps[m]);
      forall c, n | 0 <= c < |s.ranks| && 0 <= n < MAX_NUMA_NODES ensures LeaseOk(needs, caps, s, c, n) {
        KeepsLease(needs, caps, s0, steps[m], c, n);
      }
    }
  }

  /** Whenever any rank of any communicator holds a lease, the region it read the offset of is the
      one in the table, has the size its communicator asked for, is aligned, lies within the node's
      capacity, and shares no byte with any other communicator's region. */
  lemma HeldRegionIsSafe(needs: Needs, caps: seq<nat>, steps: seq<Action>, s: State, c: nat, r: nat, n: nat, d: nat)
    requires |caps| == MAX_NUMA_NODES && Reaches(needs, caps, steps, s)
    requires Known(s, c, r) && s.ranks[c][r].phase == Holding && n < MAX_NUMA_NODES && d < |s.ranks| && d != c
    ensures |s.ranks[c][r].offsets| == MAX_NUMA_NODES && |needs(c, s.ranks[c][r].cycle)| == MAX_NUMA_NODES
    ensures TableOk(s.table, |s.ranks|)
    ensures var offset, bytes := s.ranks[c][r].offsets[n], AlignUp(needs(c, s.ranks[c][r].cycle)[n]);
      && s.table[n][c] == Region(offset, bytes) && offset % ALIGNMENT == 0
      && (bytes > 0 ==> offset + bytes <= caps[n] && !Overlap(offset, bytes, s.table[n][d]))
  {
    ReachesInv(needs, caps, steps, s);
    HolderPins(s, c, r);
    assert LeaseOk(needs, caps, s, c, n) && Aligned(s.table[n]) && OffsetOk(s, c, r, n);
  }

  // ---- Leases never block each other for good ----

  lemma {:induction false} Hindmost(ranks: seq<Rank>, k: nat) returns (r: nat)
    requires 0 < k <= |ranks|
    ensures r < k && forall q :: 0 <= q < k ==> At(ranks[q]) >= At(ranks[r])
  {
    if k == 1 {
      r := 0;
    } else {
      r := Hindmost(ranks, k - 1);
      if At(ranks[k - 1]) < At(ranks[r]) {
        r := k - 1;
      }
    }
  }

  /** Every communicator's request fits into every node while nobody else holds anything. */
  ghost predicate FitsAlone(needs: Needs, caps: seq<nat>) {
    |caps| == MAX_NUMA_NODES &&
    forall c, cycle: nat :: |needs(c, cycle)| == MAX_NUMA_NODES &&
      forall n :: 0 <= n < MAX_NUMA_NODES ==> AlignUp(needs(c, cycle)[n]) <= caps[n]
  }

  /** Within one communicator the hindmost rank can go on, unless it is rank 0 waiting for room. */
  lemma HindmostGoesOn(needs: Needs, caps: seq<nat>, s: State, c: nat, r: nat) returns (a: Action)
    requires TableOk(s.table, |s.ranks|) && |caps| == MAX_NUMA_NODES && Known(s, c, r)
    requires forall q :: 0 <= q < |s.ranks[c]| ==> At(s.ranks[c][q]) >= At(s.ranks[c][r])
    requires r != 0 || s.ranks[c][0].phase != Outside
    ensures Enabled(needs, caps, s, a) && !a.Allocate? && a.comm == c && a.rank == r
  {
    match s.ranks[c][r].phase {
      case Outside => a := Arrive(c, r);
      case Arriving => a := Acquire(c, r);
      case Holding => a := Leave(c, r);
      case Leaving => a := PassRelease(c, r);
      case Clearing => a := Finish(c, r);
    }
  }

  /** With nothing leased rank 0 of any communicator finds room at the start of every node. */
  lemma EmptyTableHasRoom(needs: Needs, caps: seq<nat>, s: State, c: nat) returns (a: Action)
    requires FitsAlone(needs, caps) && TableOk(s.table, |s.ranks|) && Known(s, c, 0) && s.ranks[c][0].phase == Outside
    requires forall n, d :: 0 <= n < MAX_NUMA_NODES && 0 <= d < |s.ranks| ==> s.table[n][d].bytes == 0
    ensures Enabled(needs, caps, s, a) && a.comm == c
  {
    var offsets: seq<nat> := seq(MAX_NUMA_NODES, n => 0);
    a := Allocate(c, offsets);
    var required := needs(c, s.ranks[c][0].cycle);
    forall n | 0 <= n < MAX_NUMA_NODES ensures PlacedAt(s.table[n], c, required[n], caps[n], offsets[n]) {
      assert FreeAt(s.table[n], c, 0, AlignUp(required[n]));
    }
  }

  /** Communicators that each fit on their own never block each other for good: in every reachable
      state some rank of some communicator can go on. */
  lemma NeverStuck(needs: Needs, caps: seq<nat>, steps: seq<Action>, s: State) returns (a: Action)
    requires FitsAlone(needs, caps) && Reaches(needs, caps, steps, s)
    requires exists c :: 0 <= c < |s.ranks| && |s.ranks[c]| > 0
    ensures Enabled(needs, caps, s, a)
  {
    ReachesInv(needs, caps, steps, s);
    if c, r: nat :| 0 <= c < |s.ranks| && CanMove(s, c, r) {
      a := HindmostGoesOn(needs, caps, s, c, r);
    } else {
      forall n, d | 0 <= n < MAX_NUMA_NODES && 0 <= d < |s.ranks| ensures s.table[n][d].bytes == 0 {
        NotLeased(s, d);
        assert LeaseOk(needs, caps, s, d, n);
      }
      var c :| 0 <= c < |s.ranks| && |s.ranks[c]| > 0;
      NotLeased(s, c);
      a := EmptyTableHasRoom(needs, caps, s, c);
    }
  }

  ghost predicate CanMove(s: State, c: nat, r: nat) {
    && Known(s, c, r) && (r != 0 || s.ranks[c][0].phase != Outside)
    && forall q :: 0 <= q < |s.ranks[c]| ==> At(s.ranks[c][q]) >= At(s.ranks[c][r])
  }

  /** A communicator none of whose ranks can move on its own waits for room outside. */
  lemma NotLeased(s: State, c: nat)
    requires c < |s.ranks| && forall r: nat :: !CanMove(s, c, r)
    ensures !Leased(s, c)
    ensures |s.ranks[c]| > 0 ==> s.ranks[c][0].phase == Outside
  {
    if |s.ranks[c]| > 0 {
      var r := Hindmost(s.ranks[c], |s.ranks[c]|);
      assert !CanMove(s, c, r);
    }
  }
}
