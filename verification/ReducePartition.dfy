/** How an AI-core reduction shares a buffer among blocks: whole 32-byte units contiguously, the
    elements of the tail round-robin from a rotating start. Arguments are unsigned words; the
    rotation is computed in 32-bit arithmetic. */
module ReducePartition {
  import opened Ir
  import opened Arith

  const UNIT: nat := 32
  const WORD32: nat := 0x1_0000_0000

  datatype Partition = Partition(begin: nat, end: nat)

  function Units(bytes: nat): nat { bytes / UNIT }

  /** The first unit of block `i` when every block gets `q` units and the first `extra` one more. */
  function BeginUnit(q: nat, extra: nat, i: nat): nat {
    q * i + Min(i, extra)
  }

  function GetPartition(bytes: nat, i: nat, blocks: nat): Partition {
    if blocks == 0 || i >= blocks then Partition(0, 0)
    else
      var q, extra := Units(bytes) / blocks, Units(bytes) % blocks;
      var begin := BeginUnit(q, extra, i);
      var end := begin + q + if i < extra then 1 else 0;
      Partition(begin * UNIT, end * UNIT)
  }

  lemma NextBegin(q: nat, extra: nat, i: nat)
    ensures BeginUnit(q, extra, i + 1) == BeginUnit(q, extra, i) + q + if i < extra then 1 else 0
  {
    assert q * (i + 1) == q * i + q;
  }

  lemma LastBegin(q: nat, extra: nat, blocks: nat)
    requires extra < blocks
    ensures BeginUnit(q, extra, 0) == 0 && BeginUnit(q, extra, blocks) == q * blocks + extra
  {
  }

  lemma PartitionIs(bytes: nat, i: nat, blocks: nat, q: nat, extra: nat)
    requires i < blocks && q == Units(bytes) / blocks && extra == Units(bytes) % blocks
    ensures GetPartition(bytes, i, blocks) ==
            Partition(BeginUnit(q, extra, i) * UNIT, BeginUnit(q, extra, i + 1) * UNIT)
  {
    NextBegin(q, extra, i);
  }

  lemma WholeUnits(bytes: nat)
    ensures Units(bytes) * UNIT == bytes - bytes % UNIT
  {
  }

  lemma UnitsTile(q: nat, extra: nat, i: nat, blocks: nat, units: nat)
    requires i < blocks && extra < blocks && units == q * blocks + extra
    ensures var begin, end := BeginUnit(q, extra, i) * UNIT, BeginUnit(q, extra, i + 1) * UNIT;
      && begin % UNIT == 0 && end % UNIT == 0 && q * UNIT <= end - begin <= (q + 1) * UNIT
      && (i == 0 ==> begin == 0) && (i + 1 == blocks ==> end == units * UNIT)
  {
    NextBegin(q, extra, i);
    LastBegin(q, extra, blocks);
  }

  /** The partitions are contiguous, start at zero, end with the last whole unit of the buffer, and
      differ by at most one unit. */
  lemma PartitionsTile(bytes: nat, i: nat, blocks: nat)
    requires i < blocks
    ensures var p := GetPartition(bytes, i, blocks);
      && p.begin % UNIT == 0 && p.end % UNIT == 0 && p.begin <= p.end
      && (i == 0 ==> p.begin == 0)
      && (i + 1 < blocks ==> GetPartition(bytes, i + 1, blocks).begin == p.end)
      && (i + 1 == blocks ==> p.end == bytes - bytes % UNIT)
      && Units(bytes) / blocks * UNIT <= p.end - p.begin <= (Units(bytes) / blocks + 1) * UNIT
  {
    var q, extra := Units(bytes) / blocks, Units(bytes) % blocks;
    DivModDef(Units(bytes), blocks);
    PartitionIs(bytes, i, blocks, q, extra);
    if i + 1 < blocks {
      PartitionIs(bytes, i + 1, blocks, q, extra);
    }
    UnitsTile(q, extra, i, blocks, Units(bytes));
    WholeUnits(bytes);
  }

  lemma {:induction false} BeginsGrow(q: nat, extra: nat, i: nat, j: nat)
    requires i <= j
    ensures BeginUnit(q, extra, i) <= BeginUnit(q, extra, j)
    decreases j
  {
    if i < j {
      BeginsGrow(q, extra, i, j - 1);
      NextBegin(q, extra, j - 1);
    }
  }

  /** Block `j` owns byte `x`. */
  predicate InBlock(bytes: nat, j: nat, blocks: nat, x: nat)
    requires blocks > 0 && j < blocks
  {
    GetPartition(bytes, j, blocks).begin <= x < GetPartition(bytes, j, blocks).end
  }

  /** Every whole unit belongs to exactly one block. */
  lemma UnitHasOneBlock(bytes: nat, blocks: nat, x: nat) returns (i: nat)
    requires blocks > 0 && x < bytes - bytes % UNIT
    ensures i < blocks && InBlock(bytes, i, blocks, x)
    ensures forall j :: 0 <= j < blocks && InBlock(bytes, j, blocks, x) ==> j == i
  {
    i := 0;
    PartitionsTile(bytes, 0, blocks);
    while GetPartition(bytes, i, blocks).end <= x
      invariant 0 <= i < blocks && GetPartition(bytes, i, blocks).begin <= x
      decreases blocks - i
    {
      PartitionsTile(bytes, i, blocks);
      i := i + 1;
    }
    forall j | 0 <= j < blocks && j != i ensures !InBlock(bytes, j, blocks, x) {
      if j < i {
        Ordered(bytes, j, i, blocks);
      } else {
        Ordered(bytes, i, j, blocks);
      }
    }
  }

  lemma Ordered(bytes: nat, i: nat, j: nat, blocks: nat)
    requires i < j < blocks
    ensures GetPartition(bytes, i, blocks).end <= GetPartition(bytes, j, blocks).begin
  {
    var q, extra := Units(bytes) / blocks, Units(bytes) % blocks;
    PartitionIs(bytes, i, blocks, q, extra);
    PartitionIs(bytes, j, blocks, q, extra);
    BeginsGrow(q, extra, i + 1, j);
  }

  // ---- The tail ----

  function TailElements(bytes: nat, elementSize: nat): nat
    requires elementSize > 0
  {
    (bytes % UNIT) / elementSize
  }

  /** How far block `i` is from the rotating start. */
  function Distance(i: nat, blocks: nat, rotation: nat): nat
    requires blocks > 0
  {
    ((i + blocks) % WORD32 - rotation % blocks) % WORD32 % blocks
  }

  function BlockTail(bytes: nat, elementSize: nat, i: nat, blocks: nat, rotation: nat): nat {
    if blocks == 0 || i >= blocks || elementSize == 0 then 0
    else Share(TailElements(bytes, elementSize), blocks, Distance(i, blocks, rotation))
  }

  /** Every block gets the rounded-down share, and the first blocks from the start one more. */
  function Share(tail: nat, blocks: nat, distance: nat): nat
    requires blocks > 0
  {
    tail / blocks + if distance < tail % blocks then 1 else 0
  }

  lemma DistanceIs(i: nat, blocks: nat, rotation: nat, start: nat)
    requires i < blocks && 2 * blocks <= WORD32 && start == rotation % blocks < blocks
    ensures Distance(i, blocks, rotation) == if i >= start then i - start else i + blocks - start
  {
    if i >= start {
      DivModIs(i + blocks - start, blocks, 1, i - start);
    } else {
      DivModIs(i + blocks - start, blocks, 0, i + blocks - start);
    }
  }

  /** Elements of the tail that the first `k` blocks take. */
  function TailSum(bytes: nat, elementSize: nat, k: nat, blocks: nat, rotation: nat): nat {
    if k == 0 then 0
    else TailSum(bytes, elementSize, k - 1, blocks, rotation) + BlockTail(bytes, elementSize, k - 1, blocks, rotation)
  }

  lemma ShareIs(bytes: nat, elementSize: nat, i: nat, blocks: nat, rotation: nat, q: nat, extra: nat)
    requires elementSize > 0 && i < blocks
    requires q == TailElements(bytes, elementSize) / blocks && extra == TailElements(bytes, elementSize) % blocks
    ensures BlockTail(bytes, elementSize, i, blocks, rotation) ==
            q + if Distance(i, blocks, rotation) < extra then 1 else 0
  {
  }

  /** `f(i)` is one if block `i` takes an extra element; the sum over the first `k` blocks. */
  function Extras(f: nat -> bool, k: nat): nat {
    if k == 0 then 0 else Extras(f, k - 1) + if f(k - 1) then 1 else 0
  }

  lemma {:induction false} TailSumIs(bytes: nat, elementSize: nat, k: nat, blocks: nat, rotation: nat, q: nat,
                                     f: nat -> bool)
    requires k <= blocks
    requires forall i :: 0 <= i < blocks ==>
             BlockTail(bytes, elementSize, i, blocks, rotation) == q + if f(i) then 1 else 0
    ensures TailSum(bytes, elementSize, k, blocks, rotation) == k * q + Extras(f, k)
  {
    if k > 0 {
      TailSumIs(bytes, elementSize, k - 1, blocks, rotation, q, f);
      AddShare(k, q);
    }
  }

  lemma AddShare(k: nat, q: nat)
    requires k > 0
    ensures k * q == (k - 1) * q + q
  {
  }

  // ---- Up to 2^31 blocks ----

  /** The extra elements go to `extra` blocks from `start` on, wrapping around. */
  predicate TakesExtra(i: nat, start: nat, blocks: nat, extra: nat)
    requires start < blocks
  {
    (if i >= start then i - start else i + blocks - start) < extra
  }

  lemma {:induction false} ExtrasRotated(k: nat, start: nat, blocks: nat, extra: nat, f: nat -> bool)
    requires start < blocks && extra < blocks && k <= blocks
    requires forall i :: 0 <= i < blocks ==> (f(i) <==> TakesExtra(i, start, blocks, extra))
    ensures Extras(f, k) == Min(Min(k, start), Max(0, extra - (blocks - start))) + Min(Max(0, k - start), extra)
  {
    if k > 0 {
      ExtrasRotated(k - 1, start, blocks, extra, f);
      assert f(k - 1) <==> TakesExtra(k - 1, start, blocks, extra);
    }
  }

  /** Up to 2^31 blocks, whatever the rotation, the blocks' shares of the tail add up to the whole
      tail. */
  lemma TailIsShared(bytes: nat, elementSize: nat, blocks: nat, rotation: nat)
    requires elementSize > 0 && blocks > 0 && 2 * blocks <= WORD32
    ensures TailSum(bytes, elementSize, blocks, blocks, rotation) == TailElements(bytes, elementSize)
  {
    var tail := TailElements(bytes, elementSize);
    DivModDef(tail, blocks);
    var start, q, extra := rotation % blocks, tail / blocks, tail % blocks;
    var f := (i: nat) => TakesExtra(i, start, blocks, extra);
    forall i | 0 <= i < blocks ensures BlockTail(bytes, elementSize, i, blocks, rotation) == q + if f(i) then 1 else 0 {
      RotatedShare(bytes, elementSize, i, blocks, rotation, start, q, extra);
    }
    TailFrom(bytes, elementSize, blocks, rotation, start, q, extra, f);
    Commutes(blocks, q);
  }

  lemma Commutes(a: nat, b: nat)
    ensures a * b == b * a
  {
  }

  lemma TailFrom(bytes: nat, elementSize: nat, blocks: nat, rotation: nat, start: nat, q: nat, extra: nat,
                 f: nat -> bool)
    requires start < blocks && extra < blocks
    requires forall i :: 0 <= i < blocks ==> (f(i) <==> TakesExtra(i, start, blocks, extra))
    requires forall i :: 0 <= i < blocks ==>
             BlockTail(bytes, elementSize, i, blocks, rotation) == q + if f(i) then 1 else 0
    ensures TailSum(bytes, elementSize, blocks, blocks, rotation) == blocks * q + extra
  {
    TailSumIs(bytes, elementSize, blocks, blocks, rotation, q, f);
    AllExtras(start, blocks, extra, f);
  }

  lemma RotatedShare(bytes: nat, elementSize: nat, i: nat, blocks: nat, rotation: nat, start: nat, q: nat, extra: nat)
    requires elementSize > 0 && i < blocks && 2 * blocks <= WORD32 && start == rotation % blocks < blocks
    requires q == TailElements(bytes, elementSize) / blocks && extra == TailElements(bytes, elementSize) % blocks
    ensures BlockTail(bytes, elementSize, i, blocks, rotation) ==
            q + if TakesExtra(i, start, blocks, extra) then 1 else 0
  {
    DistanceIs(i, blocks, rotation, start);
    ShareIs(bytes, elementSize, i, blocks, rotation, q, extra);
  }

  lemma AllExtras(start: nat, blocks: nat, extra: nat, f: nat -> bool)
    requires start < blocks && extra < blocks
    requires forall i :: 0 <= i < blocks ==> (f(i) <==> TakesExtra(i, start, blocks, extra))
    ensures Extras(f, blocks) == extra
  {
    ExtrasRotated(blocks, start, blocks, extra, f);
  }

  // ---- More blocks: the 32-bit sum wraps ----

  lemma UnrotatedDistance(i: nat, blocks: nat, sum: nat)
    requires blocks > 0 && 0 % blocks == 0 && sum < WORD32 && (i + blocks == sum || i + blocks == sum + WORD32)
    ensures Distance(i, blocks, 0) == sum % blocks
  {
    assert (i + blocks) % WORD32 == sum;
  }

  lemma WrappedDistance(i: nat, blocks: nat)
    requires i < blocks < WORD32 < 2 * blocks
    ensures Distance(i, blocks, 0) == if i < WORD32 - blocks then i else i - (WORD32 - blocks)
  {
    DivModIs(0, blocks, 0, 0);
    if i < WORD32 - blocks {
      UnrotatedDistance(i, blocks, i + blocks);
      DivModIs(i + blocks, blocks, 1, i);
    } else {
      UnrotatedDistance(i, blocks, i + blocks - WORD32);
      DivModIs(i + blocks - WORD32, blocks, 0, i + blocks - WORD32);
    }
  }

  lemma {:induction false} ExtrasWrapped(k: nat, wrap: nat, extra: nat, f: nat -> bool)
    requires forall i :: 0 <= i < k ==> (f(i) <==> (if i < wrap then i else i - wrap) < extra)
    ensures Extras(f, k) == Min(Min(k, wrap), extra) + Min(Max(0, k - wrap), extra)
  {
    if k > 0 {
      ExtrasWrapped(k - 1, wrap, extra, f);
    }
  }

  /** Without rotation, more than 2^31 blocks hand out some of the tail twice. */
  lemma HugeBlockCountWraps(bytes: nat, elementSize: nat, blocks: nat)
    requires elementSize > 0 && TailElements(bytes, elementSize) > 0 && blocks < WORD32 < 2 * blocks
    ensures TailSum(bytes, elementSize, blocks, blocks, 0) > TailElements(bytes, elementSize)
  {
    var tail, wrap := TailElements(bytes, elementSize), WORD32 - blocks;
    TailIsShort(bytes, elementSize);
    DivModIs(tail, blocks, 0, tail);
    var f := (i: nat) => (if i < wrap then i else i - wrap) < tail;
    forall i | 0 <= i < blocks ensures BlockTail(bytes, elementSize, i, blocks, 0) == if f(i) then 1 else 0 {
      WrappedDistance(i, blocks);
      ShareIs(bytes, elementSize, i, blocks, 0, 0, tail);
    }
    TailSumIs(bytes, elementSize, blocks, blocks, 0, 0, f);
    ExtrasWrapped(blocks, wrap, tail, f);
  }

  lemma TailIsShort(bytes: nat, elementSize: nat)
    requires elementSize > 0
    ensures TailElements(bytes, elementSize) < UNIT
  {
    DivModDef(bytes % UNIT, elementSize);
    MulAtLeast(1, elementSize, TailElements(bytes, elementSize));
  }

  lemma {:induction false} NoTailNoShares(bytes: nat, elementSize: nat, k: nat, blocks: nat, rotation: nat)
    requires elementSize > 0 && TailElements(bytes, elementSize) == 0 && k <= blocks
    ensures TailSum(bytes, elementSize, k, blocks, rotation) == 0
  {
    if k > 0 {
      NoTailNoShares(bytes, elementSize, k - 1, blocks, rotation);
      DivModIs(0, blocks, 0, 0);
    }
  }

  /** Exactly: the tail is shared out once for every rotation unless there is a tail and the 32-bit
      sum of block index and block count can wrap. */
  lemma TailSharedExactly(bytes: nat, elementSize: nat, blocks: nat)
    requires elementSize > 0 && 0 < blocks < WORD32
    ensures (forall rotation: nat ::
            TailSum(bytes, elementSize, blocks, blocks, rotation) == TailElements(bytes, elementSize)) <==>
      2 * blocks <= WORD32 || TailElements(bytes, elementSize) == 0
  {
    if 2 * blocks <= WORD32 {
      forall rotation: nat ensures TailSum(bytes, elementSize, blocks, blocks, rotation) ==
          TailElements(bytes, elementSize) {
        TailIsShared(bytes, elementSize, blocks, rotation);
      }
    } else if TailElements(bytes, elementSize) == 0 {
      forall rotation: nat ensures TailSum(bytes, elementSize, blocks, blocks, rotation) == 0 {
        NoTailNoShares(bytes, elementSize, blocks, blocks, rotation);
      }
    } else {
      HugeBlockCountWraps(bytes, elementSize, blocks);
    }
  }

  /** The aligned prefix and the tail make up the buffer, element for element. */
  lemma PrefixAndTail(bytes: nat, elementSize: nat, elements: nat)
    requires elementSize in {1, 2, 4, 8} && bytes == elements * elementSize
    ensures bytes - bytes % UNIT == (elements - TailElements(bytes, elementSize)) * elementSize
    ensures TailElements(bytes, elementSize) * elementSize < UNIT
  {
    DivModDef(bytes, UNIT);
    var parts := if elementSize == 1 then 32 else if elementSize == 2 then 16 else if elementSize == 4 then 8 else 4;
    RestIsWhole(bytes / UNIT, bytes % UNIT, elementSize, elements, parts);
  }

  lemma RestIsWhole(units: nat, rest: nat, e: nat, elements: nat, parts: nat)
    requires e > 0 && parts * e == UNIT && rest < UNIT && elements * e == units * UNIT + rest
    ensures rest / e * e == rest && (elements - rest / e) * e == units * UNIT
  {
    var n := elements - units * parts;
    assert units * UNIT == units * parts * e;
    assert n * e == elements * e - units * parts * e;
    assert n >= 0 by {
      NegativeTimes(n, e);
    }
    DivModIs(rest, e, n, 0);
    assert (elements - n) * e == elements * e - n * e;
  }

  lemma NegativeTimes(n: int, e: nat)
    requires e > 0 && n * e >= 0
    ensures n >= 0
  {
  }
}
