/** The host-to-host copy engine: one request is cut into shards for a pool of workers, the worker
    that finishes the last shard reports the request, and the executor polls the reports. */
module H2HEngine {
  import opened Ir
  import opened Arith

  const MAX_WORKERS: nat := 32
  const MIN_SHARD_BYTES: nat := 64 * 1024

  /** The work sequence number tells works of one executor apart. */
  datatype Request = Request(owner: nat, workSeq: nat, node: nat, slice: nat, bytes: nat)

  datatype Shard = Shard(offset: nat, bytes: nat)

  // ---- Cutting a request into shards ----

  function ShardCount(bytes: nat, workers: nat, shardBytes: nat): (n: nat)
    ensures 1 <= n && (workers > 0 ==> n <= workers)
  {
    Max(1, Min(workers, DivUp(bytes, Max(MIN_SHARD_BYTES, shardBytes))))
  }

  /** The shards cover `[0, bytes)` without gap or overlap, and none is empty. */
  ghost predicate Tiles(shards: seq<Shard>, bytes: nat) {
    && (forall i :: 0 <= i < |shards| ==> shards[i].bytes > 0)
    && (forall i :: 0 <= i < |shards| ==>
          shards[i].offset + shards[i].bytes == if i + 1 < |shards| then shards[i + 1].offset else bytes)
    && (|shards| > 0 ==> shards[0].offset == 0) && (|shards| == 0 ==> bytes == 0)
  }

  /** Every byte belongs to exactly one shard. */
  lemma {:induction false} TilesCoverOnce(shards: seq<Shard>, bytes: nat, x: nat) returns (i: nat)
    requires Tiles(shards, bytes) && x < bytes
    ensures i < |shards| && shards[i].offset <= x < shards[i].offset + shards[i].bytes
    ensures forall j :: 0 <= j < |shards| && shards[j].offset <= x < shards[j].offset + shards[j].bytes ==> j == i
  {
    i := 0;
    while shards[i].offset + shards[i].bytes <= x
      invariant 0 <= i < |shards| && shards[i].offset <= x
      decreases |shards| - i
    {
      i := i + 1;
    }
    forall j | 0 <= j < |shards| && j != i ensures !(shards[j].offset <= x < shards[j].offset + shards[j].bytes) {
      if j < i {
        OffsetsGrow(shards, bytes, j, i);
      } else {
        OffsetsGrow(shards, bytes, i, j);
      }
    }
  }

  lemma {:induction false} OffsetsGrow(shards: seq<Shard>, bytes: nat, i: nat, j: nat)
    requires Tiles(shards, bytes) && i < j < |shards|
    ensures shards[i].offset + shards[i].bytes <= shards[j].offset
    decreases j
  {
    if i + 1 < j {
      OffsetsGrow(shards, bytes, i, j - 1);
      assert shards[j - 1].bytes > 0;
    }
  }

  /** Even the last of `n` equal shards starts inside the request: (n - 1)^2 < bytes. */
  lemma LastShardStartsInside(bytes: nat, workers: nat, shardBytes: nat)
    requires bytes > 0 && 1 <= workers <= MAX_WORKERS
    ensures var n := ShardCount(bytes, workers, shardBytes);
      (n - 1) * DivUp(bytes, n) < bytes <= n * DivUp(bytes, n)
  {
    var m := Max(MIN_SHARD_BYTES, shardBytes);
    var n := ShardCount(bytes, workers, shardBytes);
    var d := DivUp(bytes, n);
    DivUpIs(bytes, n);
    assert n * d == d * n;
    if n > 1 {
      DivUpIs(bytes, m);
      SquareFits(bytes, n, m, DivUp(bytes, m));
      LastStarts(bytes, n, d);
    }
  }

  lemma SquareFits(bytes: nat, n: nat, m: nat, q: nat)
    requires 1 < n <= q && n <= MAX_WORKERS && m >= MIN_SHARD_BYTES && (q - 1) * m < bytes
    ensures (n - 1) * (n - 1) < bytes
  {
    MulAtLeast(n - 1, q - 1, m);
    MulAtLeast(n - 1, m, n - 1);
    assert (n - 1) * m == m * (n - 1);
  }

  lemma LastStarts(bytes: nat, n: nat, d: nat)
    requires n > 1 && d > 0 && (n - 1) * (n - 1) < bytes && (d - 1) * n < bytes
    ensures (n - 1) * d < bytes
  {
    if d < n {
      MulAtLeast(d, n - 1, n - 1);
      assert (n - 1) * d == d * (n - 1);
    } else {
      assert (n - 1) * d == n * d - d && (d - 1) * n == n * d - n;
    }
  }

  /** The queueing loop of `submitCopy`: its early exit is never taken, so exactly as many shards
      are queued as the countdown of the request starts from. */
  method CutIntoShards(bytes: nat, workers: nat, shardBytes: nat) returns (remaining: nat, shards: seq<Shard>)
    requires bytes > 0 && 1 <= workers <= MAX_WORKERS
    ensures |shards| == remaining == ShardCount(bytes, workers, shardBytes)
    ensures Tiles(shards, bytes)
  {
    remaining := ShardCount(bytes, workers, shardBytes);
    var size := DivUp(bytes, remaining);
    shards := [];
    LastShardStartsInside(bytes, workers, shardBytes);
    var shard := 0;
    while shard < remaining
      invariant 0 <= shard <= remaining && |shards| == shard
      invariant shard > 0 ==> shards[0].offset == 0
      invariant forall i :: 0 <= i < shard ==> shards[i].bytes > 0 && shards[i].offset == i * size
      invariant forall i :: 0 <= i < shard ==> shards[i].offset + shards[i].bytes == Min((i + 1) * size, bytes)
    {
      var offset := shard * size;
      MulAtLeast(shard, remaining - 1, size);
      if offset >= bytes {
        break;
      }
      assert (shard + 1) * size == offset + size;
      assert size > 0 by { DivUpIs(bytes, remaining); }
      shards := shards + [Shard(offset, Min(size, bytes - offset))];
      shard := shard + 1;
    }
    forall i | 0 <= i < |shards|
      ensures shards[i].offset + shards[i].bytes == if i + 1 < |shards| then shards[i + 1].offset else bytes
    {
      if i + 1 < |shards| {
        MulAtLeast(i + 1, remaining - 1, size);
      }
    }
  }

  // ---- Reports ----

  /** `completions_` and its non-empty hint `num_completions_`. */
  class CompletionQueue {
    var stored: seq<Request>
    var hint: nat

    ghost predicate Valid()
      reads this
    {
      |stored| <= hint
    }

    constructor ()
      ensures Valid() && stored == [] && hint == 0
    {
      stored, hint := [], 0;
    }

    method Push(r: Request)
      requires Valid()
      modifies this
      ensures Valid() && stored == old(stored) + [r] && hint == old(hint) + 1
    {
      stored := stored + [r];
      hint := hint + 1;
    }

    /** Takes this work's reports out, oldest first and at most `limit`, and forgets reports of
        earlier works of the same owner that it passes. Forgotten reports stay counted in the
        hint, which therefore never reads zero while a report is stored. */
    method Poll(owner: nat, workSeq: nat, limit: nat) returns (out: seq<Request>)
      requires Valid()
      modifies this
      ensures Valid()
      ensures (out, stored) == if old(hint) == 0 then ([], old(stored)) else Sweep(old(stored), owner, workSeq, limit)
      ensures hint == old(hint) - |out|
    {
      out := [];
      if hint == 0 { return; }
      assert stored[0..] == stored;
      var kept: seq<Request> := [];
      var i := 0;
      while i < |stored| && |out| < limit
        invariant stored == old(stored) && hint == old(hint)
        invariant Swept(stored, owner, workSeq, limit, i, out, kept)
      {
        var r := stored[i];
        SweptNext(stored, owner, workSeq, limit, i, out, kept);
        if r.owner == owner && r.workSeq == workSeq {
          out := out + [r];
        } else if r.owner == owner && r.workSeq < workSeq {
        } else {
          kept := kept + [r];
        }
        i := i + 1;
      }
      SweptEnd(stored, owner, workSeq, limit, i, out, kept);
      stored := kept + stored[i..];
      hint := hint - |out|;
    }
  }

  /** After the first `i` reports: those taken and kept, and what sweeping the rest will add. */
  ghost predicate Swept(stored: seq<Request>, owner: nat, workSeq: nat, limit: nat, i: nat, out: seq<Request>,
                        kept: seq<Request>) {
    && i <= |stored| && |out| <= limit && |kept| + |out| <= i
    && var rest := Sweep(stored[i..], owner, workSeq, limit - |out|);
    && Sweep(stored, owner, workSeq, limit).0 == out + rest.0 && Sweep(stored, owner, workSeq, limit).1 == kept + rest.1
  }

  lemma SweptNext(stored: seq<Request>, owner: nat, workSeq: nat, limit: nat, i: nat, out: seq<Request>,
                  kept: seq<Request>)
    requires Swept(stored, owner, workSeq, limit, i, out, kept) && i < |stored| && |out| < limit
    ensures var r := stored[i];
      if r.owner == owner && r.workSeq == workSeq then Swept(stored, owner, workSeq, limit, i + 1, out + [r], kept)
      else if r.owner == owner && r.workSeq < workSeq then Swept(stored, owner, workSeq, limit, i + 1, out, kept)
      else Swept(stored, owner, workSeq, limit, i + 1, out, kept + [r])
  {
    assert stored[i..][0] == stored[i] && stored[i..][1..] == stored[i + 1..];
  }

  lemma SweptEnd(stored: seq<Request>, owner: nat, workSeq: nat, limit: nat, i: nat, out: seq<Request>,
                 kept: seq<Request>)
    requires Swept(stored, owner, workSeq, limit, i, out, kept) && (i == |stored| || |out| == limit)
    ensures Sweep(stored, owner, workSeq, limit).0 == out &&
            Sweep(stored, owner, workSeq, limit).1 == kept + stored[i..]
    ensures |out| + |kept + stored[i..]| <= |stored|
  {
    assert Sweep(stored[i..], owner, workSeq, limit - |out|) == ([], stored[i..]);
  }

  /** What one poll takes out and what it leaves. */
  function Sweep(stored: seq<Request>, owner: nat, workSeq: nat, limit: nat): (r: (seq<Request>, seq<Request>)) {
    if |stored| == 0 || limit == 0 then ([], stored)
    else if stored[0].owner == owner && stored[0].workSeq == workSeq then
      var rest := Sweep(stored[1..], owner, workSeq, limit - 1);
      ([stored[0]] + rest.0, rest.1)
    else if stored[0].owner == owner && stored[0].workSeq < workSeq then
      Sweep(stored[1..], owner, workSeq, limit)
    else
      var rest := Sweep(stored[1..], owner, workSeq, limit);
      (rest.0, [stored[0]] + rest.1)
  }

  ghost predicate Stale(r: Request, owner: nat, workSeq: nat) {
    r.owner == owner && r.workSeq < workSeq
  }

  /** A poll neither invents, duplicates nor loses a report of a current work. */
  lemma {:induction false} SweepConserves(stored: seq<Request>, owner: nat, workSeq: nat, limit: nat, r: Request)
    requires !Stale(r, owner, workSeq)
    ensures var (out, kept) := Sweep(stored, owner, workSeq, limit);
      multiset(stored)[r] == multiset(out)[r] + multiset(kept)[r]
  {
    if |stored| > 0 && limit > 0 {
      assert stored == [stored[0]] + stored[1..];
      var mine := stored[0].owner == owner && stored[0].workSeq == workSeq;
      SweepConserves(stored[1..], owner, workSeq, if mine then limit - 1 else limit, r);
    }
  }

  lemma {:induction false} SweepTakesOwn(stored: seq<Request>, owner: nat, workSeq: nat, limit: nat)
    ensures var (out, kept) := Sweep(stored, owner, workSeq, limit);
      && |out| <= limit
      && (forall i :: 0 <= i < |out| ==> out[i].owner == owner && out[i].workSeq == workSeq)
      && (|out| < limit ==> forall i :: 0 <= i < |kept| ==> kept[i].owner != owner || kept[i].workSeq > workSeq)
  {
    if |stored| > 0 && limit > 0 {
      var mine := stored[0].owner == owner && stored[0].workSeq == workSeq;
      SweepTakesOwn(stored[1..], owner, workSeq, if mine then limit - 1 else limit);
    }
  }

  // ---- Workers ----

  datatype Item = Item(request: Request, shard: nat)

  /** `left` is the countdown shared by the shards of a request; `reported` lists every report
      ever pushed. */
  datatype Pool = Pool(queue: seq<Item>, held: map<nat, Item>, left: map<Request, nat>, reported: seq<Request>,
      copied: set<Item>)

  datatype Action = SubmitCopy(request: Request, shards: nat) | Take(worker: nat) | Complete(worker: nat)

  predicate Enabled(s: Pool, a: Action) {
    match a
    case SubmitCopy(r, n) => r !in s.left && n > 0
    case Take(w) => w !in s.held && |s.queue| > 0
    case Complete(w) => w in s.held && s.held[w].request in s.left && s.left[s.held[w].request] > 0
  }

  function ItemsOf(r: Request, n: nat): (items: seq<Item>)
    ensures |items| == n && forall i :: 0 <= i < n ==> items[i] == Item(r, i)
  {
    seq(n, i requires 0 <= i => Item(r, i))
  }

  /** The worker has copied its shard; the one that brings the countdown to zero reports. */
  function Next(s: Pool, a: Action): Pool
    requires Enabled(s, a)
  {
    match a
    case SubmitCopy(r, n) => s.(queue := s.queue + ItemsOf(r, n), left := s.left[r := n])
    case Take(w) => s.(queue := s.queue[1..], held := s.held[w := s.queue[0]])
    case Complete(w) =>
      var item := s.held[w];
      var n := s.left[item.request];
      s.(held := s.held - {w}, left := s.left[item.request := n - 1], copied := s.copied + {item},
         reported := if n == 1 then s.reported + [item.request] else s.reported)
  }

  /** `sizes` says into how many shards a request is cut. */
  ghost predicate Step(sizes: Request -> nat, s: Pool, a: Action, s': Pool) {
    Enabled(s, a) && (a.SubmitCopy? ==> a.shards == sizes(a.request)) && s' == Next(s, a)
  }

  ghost predicate Reaches(sizes: Request -> nat, steps: seq<Action>, s: Pool) {
    if |steps| == 0 then s == Pool([], map[], map[], [], {})
    else
      var front, last := steps[..|steps| - 1], steps[|steps| - 1];
      exists s0 :: Reaches(sizes, front, s0) && Step(sizes, s0, last, s)
  }

  /** Shards of `r` not copied yet, among the first `n`. */
  ghost function Missing(s: Pool, r: Request, n: nat): nat {
    if n == 0 then 0 else Missing(s, r, n - 1) + if Item(r, n - 1) in s.copied then 0 else 1
  }

  ghost predicate Waiting(s: Pool, item: Item) {
    item in s.queue || exists w :: w in s.held && s.held[w] == item
  }

  ghost predicate CountsOk(sizes: Request -> nat, s: Pool) {
    forall r :: r in s.left ==> s.left[r] == Missing(s, r, sizes(r)) && sizes(r) > 0
  }

  ghost predicate ReportsOk(s: Pool) {
    && (forall r :: r in s.reported <==> r in s.left && s.left[r] == 0)
    && (forall i, j :: 0 <= i < j < |s.reported| ==> s.reported[i] != s.reported[j])
  }

  /** No shard is queued or held twice, or after it has been copied. */
  ghost predicate ItemsOk(sizes: Request -> nat, s: Pool) {
    && (forall i :: 0 <= i < |s.queue| ==> Fresh(sizes, s, s.queue[i]))
    && (forall w :: w in s.held ==> Fresh(sizes, s, s.held[w]) && s.held[w] !in s.queue)
    && (forall i, j :: 0 <= i < j < |s.queue| ==> s.queue[i] != s.queue[j])
    && (forall v, w :: v in s.held && w in s.held && v != w ==> s.held[v] != s.held[w])
    && (forall item :: item in s.copied ==> item.request in s.left)
  }

  ghost predicate NothingLost(sizes: Request -> nat, s: Pool) {
    forall r, i: nat :: r in s.left && i < sizes(r) && Item(r, i) !in s.copied ==> Waiting(s, Item(r, i))
  }

  ghost predicate PoolInv(sizes: Request -> nat, s: Pool) {
    CountsOk(sizes, s) && ReportsOk(s) && ItemsOk(sizes, s) && NothingLost(sizes, s)
  }

  ghost predicate Fresh(sizes: Request -> nat, s: Pool, item: Item) {
    item.request in s.left && item.shard < sizes(item.request) && item !in s.copied
  }

  lemma {:induction false} MissingUnchanged(s: Pool, s': Pool, r: Request, n: nat)
    requires forall i: nat :: i < n ==> (Item(r, i) in s.copied <==> Item(r, i) in s'.copied)
    ensures Missing(s', r, n) == Missing(s, r, n)
  {
    if n > 0 {
      MissingUnchanged(s, s', r, n - 1);
    }
  }

  lemma {:induction false} MissingOneLess(s: Pool, s': Pool, r: Request, i: nat, n: nat)
    requires i < n && Item(r, i) !in s.copied && s'.copied == s.copied + {Item(r, i)}
    ensures Missing(s', r, n) == Missing(s, r, n) - 1
  {
    if i < n - 1 {
      MissingOneLess(s, s', r, i, n - 1);
    } else {
      MissingUnchanged(s, s', r, n - 1);
    }
  }

  lemma {:induction false} NothingMissing(s: Pool, r: Request, n: nat)
    ensures Missing(s, r, n) == 0 <==> forall i: nat :: i < n ==> Item(r, i) in s.copied
    ensures (forall i: nat :: i < n ==> Item(r, i) !in s.copied) ==> Missing(s, r, n) == n
  {
    if n > 0 {
      NothingMissing(s, r, n - 1);
    }
  }

  lemma KeepsCounts(sizes: Request -> nat, s: Pool, a: Action, s': Pool)
    requires CountsOk(sizes, s) && ItemsOk(sizes, s) && Step(sizes, s, a, s')
    ensures CountsOk(sizes, s')
  {
    forall r | r in s'.left ensures s'.left[r] == Missing(s', r, sizes(r)) && sizes(r) > 0 {
      if a.Complete? && s.held[a.worker].request == r {
        MissingOneLess(s, s', r, s.held[a.worker].shard, sizes(r));
      } else {
        MissingUnchanged(s, s', r, sizes(r));
        NothingMissing(s, r, sizes(r));
      }
    }
  }

  lemma KeepsReports(sizes: Request -> nat, s: Pool, a: Action, s': Pool)
    requires ReportsOk(s) && Step(sizes, s, a, s')
    ensures ReportsOk(s')
  {
    forall r ensures r in s'.reported <==> r in s'.left && s'.left[r] == 0 {
      if a.Complete? {
        assert r in s'.reported <==> r in s.reported || (r == s.held[a.worker].request && s.left[r] == 1);
      }
    }
  }

  lemma SubmitKeepsItems(sizes: Request -> nat, s: Pool, r: Request, n: nat, s': Pool)
    requires ItemsOk(sizes, s) && Step(sizes, s, SubmitCopy(r, n), s')
    ensures ItemsOk(sizes, s')
  {
    var items := ItemsOf(r, n);
    forall w | w in s'.held ensures s'.held[w] !in s'.queue {
      assert s'.held[w] == s.held[w] && s.held[w] !in s.queue && s.held[w] !in items;
    }
    forall i | 0 <= i < |s'.queue| ensures Fresh(sizes, s', s'.queue[i]) {
      if i < |s.queue| {
        assert Fresh(sizes, s, s.queue[i]);
      }
    }
  }

  lemma TakeKeepsItems(sizes: Request -> nat, s: Pool, w: nat, s': Pool)
    requires ItemsOk(sizes, s) && Step(sizes, s, Take(w), s')
    ensures ItemsOk(sizes, s')
  {
    assert Fresh(sizes, s, s.queue[0]);
  }

  lemma CompleteKeepsItems(sizes: Request -> nat, s: Pool, w: nat, s': Pool)
    requires ItemsOk(sizes, s) && Step(sizes, s, Complete(w), s')
    ensures ItemsOk(sizes, s')
  {
    assert Fresh(sizes, s, s.held[w]);
  }

  lemma KeepsNothingLost(sizes: Request -> nat, s: Pool, a: Action, s': Pool)
    requires NothingLost(sizes, s) && Step(sizes, s, a, s')
    ensures NothingLost(sizes, s')
  {
    forall r, i: nat | r in s'.left && i < sizes(r) && Item(r, i) !in s'.copied ensures Waiting(s', Item(r, i)) {
      var item := Item(r, i);
      if a.SubmitCopy? && r == a.request {
        assert s'.queue[|s.queue| + i] == item;
      } else {
        assert Waiting(s, item);
        if w :| w in s.held && s.held[w] == item {
          assert s'.held[w] == item;
        } else if a.Take? && item == s.queue[0] {
          assert s'.held[a.worker] == item;
        }
      }
    }
  }

  lemma {:induction false} ReachesPoolInv(sizes: Request -> nat, steps: seq<Action>, s: Pool)
    requires Reaches(sizes, steps, s)
    ensures PoolInv(sizes, s)
    decreases |steps|
  {
    if |steps| > 0 {
      var n := |steps| - 1;
      var s0 :| Reaches(sizes, steps[..n], s0) && Step(sizes, s0, steps[n], s);
      ReachesPoolInv(sizes, steps[..n], s0);
      KeepsCounts(sizes, s0, steps[n], s);
      KeepsReports(sizes, s0, steps[n], s);
      KeepsNothingLost(sizes, s0, steps[n], s);
      match steps[n] {
        case SubmitCopy(r, m) => SubmitKeepsItems(sizes, s0, r, m, s);
        case Take(w) => TakeKeepsItems(sizes, s0, w, s);
        case Complete(w) => CompleteKeepsItems(sizes, s0, w, s);
      }
    }
  }

  /** Over every run of the workers: a submitted request is reported at most once, and it has been
      reported exactly when all its shards have been copied. */
  lemma ReportedExactlyWhenCopied(sizes: Request -> nat, steps: seq<Action>, s: Pool, r: Request)
    requires Reaches(sizes, steps, s) && r in s.left
    ensures r in s.reported <==> forall i: nat :: i < sizes(r) ==> Item(r, i) in s.copied
    ensures forall i, j :: 0 <= i < j < |s.reported| ==> s.reported[i] != s.reported[j]
  {
    ReachesPoolInv(sizes, steps, s);
    NothingMissing(s, r, sizes(r));
  }

  /** A request that is not reported yet has a shard queued or in a worker's hands. */
  lemma UnreportedIsInHand(sizes: Request -> nat, steps: seq<Action>, s: Pool, r: Request) returns (i: nat)
    requires Reaches(sizes, steps, s) && r in s.left && r !in s.reported
    ensures i < sizes(r) && Waiting(s, Item(r, i))
  {
    ReportedExactlyWhenCopied(sizes, steps, s, r);
    ReachesPoolInv(sizes, steps, s);
    i :| i < sizes(r) && Item(r, i) !in s.copied;
  }

  /** Any worker at all can go on as long as a submitted request is not reported: it completes the
      shard it holds, or takes one, or all that is left is in the hands of another, which completes. */
  lemma UnreportedGoesOn(sizes: Request -> nat, steps: seq<Action>, s: Pool, r: Request, w: nat) returns (a: Action)
    requires Reaches(sizes, steps, s) && r in s.left && r !in s.reported
    ensures Enabled(s, a) && !a.SubmitCopy? && (a.worker == w || (a.worker in s.held && s.held[a.worker].request == r))
  {
    var i := UnreportedIsInHand(sizes, steps, s, r);
    ReachesPoolInv(sizes, steps, s);
    if Item(r, i) in s.queue {
      if w in s.held {
        HeldIsCounted(sizes, s, w);
        a := Complete(w);
      } else {
        a := Take(w);
      }
    } else {
      var v :| v in s.held && s.held[v] == Item(r, i);
      HeldIsCounted(sizes, s, v);
      a := Complete(v);
    }
  }

  lemma HeldIsCounted(sizes: Request -> nat, s: Pool, w: nat)
    requires PoolInv(sizes, s) && w in s.held
    ensures s.held[w].request in s.left && s.left[s.held[w].request] > 0
  {
    var item := s.held[w];
    assert Fresh(sizes, s, item);
    assert Item(item.request, item.shard) == item;
    NothingMissing(s, item.request, sizes(item.request));
  }

  /** The number of shards: as many workers as there are, unless the shards would become smaller than
      the larger of 64 KiB and the configured size. */
  lemma ShardCountIs(bytes: nat, workers: nat, shardBytes: nat)
    requires bytes > 0 && workers > 0
    ensures var n, least := ShardCount(bytes, workers, shardBytes), Max(64 * 1024, shardBytes);
      && 1 <= n <= workers && (n > 1 ==> (n - 1) * least < bytes) && (n < workers ==> bytes <= n * least)
  {
    var least := Max(MIN_SHARD_BYTES, shardBytes);
    DivUpIs(bytes, least);
    var n, q := ShardCount(bytes, workers, shardBytes), DivUp(bytes, least);
    if n > 1 {
      MulAtLeast(n - 1, q - 1, least);
    }
  }
}
