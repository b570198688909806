/** Collectives split between the fast backend and PCIe, seen from one rank: each backend writes
    its part of the receive buffer, in whatever order, and the result is the unsplit collective.
    Counts are in elements; `fast` of each rank's `count` go to the fast backend. */
module Hybrid {
  import opened Arith
  import opened Buffers

  // ---- What the backends' calls write ----

  /** A vendor V collective: `counts[j]` elements of `blocks[j]` land at `displs[j]`. */
  ghost function VWrites<V>(blocks: seq<seq<V>>, counts: seq<nat>, displs: seq<nat>): (ws: seq<Write<V>>)
    requires |blocks| == |counts| == |displs| && forall j :: 0 <= j < |blocks| ==> counts[j] <= |blocks[j]|
    ensures |ws| == |blocks| && forall j :: 0 <= j < |ws| ==> ws[j] == Write(displs[j], blocks[j][..counts[j]])
  {
    seq(|blocks|, j requires 0 <= j < |blocks| && |blocks| == |counts| == |displs| && counts[j] <= |blocks[j]| =>
      Write(displs[j], blocks[j][..counts[j]]))
  }

  /** A strided PCIe collective: of every block the elements from `skip` on, at their own places. */
  ghost function StridedWrites<V>(blocks: seq<seq<V>>, count: nat, skip: nat): (ws: seq<Write<V>>)
    requires Blocks(blocks, count) && skip <= count
    ensures |ws| == |blocks| && forall j :: 0 <= j < |ws| ==> ws[j] == Write(j * count + skip, blocks[j][skip..])
  {
    seq(|blocks|, j requires 0 <= j < |blocks| && Blocks(blocks, count) && skip <= count =>
      Write(j * count + skip, blocks[j][skip..]))
  }

  method CopyBlock<V>(dst: array<V>, w: Write<V>)
    requires Fits(w, dst.Length)
    modifies dst
    ensures dst[..] == Put(old(dst[..]), w)
  {
    for k := 0 to |w.xs|
      invariant forall i :: 0 <= i < dst.Length ==>
        dst[i] == if w.off <= i < w.off + k then w.xs[i - w.off] else old(dst[i])
    {
      dst[w.off + k] := w.xs[k];
    }
  }

  method VCollective<V>(blocks: seq<seq<V>>, counts: seq<nat>, displs: seq<nat>, recv: array<V>)
    requires |blocks| == |counts| == |displs| && forall j :: 0 <= j < |blocks| ==> counts[j] <= |blocks[j]|
    requires AllFit(VWrites(blocks, counts, displs), recv.Length)
    modifies recv
    ensures recv[..] == Apply(old(recv[..]), VWrites(blocks, counts, displs))
  {
    ghost var ws := VWrites(blocks, counts, displs);
    assert ws[..0] == [];
    for j := 0 to |blocks|
      invariant AllFit(ws[..j], recv.Length) && recv[..] == Apply(old(recv[..]), ws[..j])
    {
      assert ws[..j + 1][..j] == ws[..j] && ws[j] == Write(displs[j], blocks[j][..counts[j]]);
      CopyBlock(recv, Write(displs[j], blocks[j][..counts[j]]));
    }
    assert ws[..|blocks|] == ws;
  }

  method StridedCollective<V>(blocks: seq<seq<V>>, count: nat, skip: nat, recv: array<V>)
    requires Blocks(blocks, count) && skip <= count && AllFit(StridedWrites(blocks, count, skip), recv.Length)
    modifies recv
    ensures recv[..] == Apply(old(recv[..]), StridedWrites(blocks, count, skip))
  {
    ghost var ws := StridedWrites(blocks, count, skip);
    assert ws[..0] == [];
    for j := 0 to |blocks|
      invariant AllFit(ws[..j], recv.Length) && recv[..] == Apply(old(recv[..]), ws[..j])
    {
      assert ws[..j + 1][..j] == ws[..j] && ws[j] == Write(j * count + skip, blocks[j][skip..]);
      CopyBlock(recv, Write(j * count + skip, blocks[j][skip..]));
    }
    assert ws[..|blocks|] == ws;
  }

  // ---- Both parts together ----

  /** `ws` performs the fast and the PCIe part of every block, each once, in some order. */
  ghost predicate Interleaving<V>(ws: seq<Write<V>>, blocks: seq<seq<V>>, count: nat, fast: nat)
    requires Blocks(blocks, count) && fast <= count
  {
    && (forall j :: 0 <= j < |blocks| ==>
        FastPart(blocks, count, fast, j) in ws && PciePart(blocks, count, fast, j) in ws)
    && (forall i :: 0 <= i < |ws| ==> IsPart(ws[i], blocks, count, fast))
    && (forall i, k :: 0 <= i < k < |ws| ==> ws[i] != ws[k])
  }

  ghost function FastPart<V>(blocks: seq<seq<V>>, count: nat, fast: nat, j: nat): Write<V>
    requires Blocks(blocks, count) && fast <= count && j < |blocks|
  {
    Write(j * count, blocks[j][..fast])
  }

  ghost function PciePart<V>(blocks: seq<seq<V>>, count: nat, fast: nat, j: nat): Write<V>
    requires Blocks(blocks, count) && fast <= count && j < |blocks|
  {
    Write(j * count + fast, blocks[j][fast..])
  }

  ghost predicate IsPart<V>(w: Write<V>, blocks: seq<seq<V>>, count: nat, fast: nat)
    requires Blocks(blocks, count) && fast <= count
  {
    exists j :: 0 <= j < |blocks| && (w == FastPart(blocks, count, fast, j) || w == PciePart(blocks, count, fast, j))
  }

  lemma PartInBlock<V>(w: Write<V>, blocks: seq<seq<V>>, count: nat, fast: nat, j: nat)
    requires Blocks(blocks, count) && fast <= count && j < |blocks|
    requires w == FastPart(blocks, count, fast, j) || w == PciePart(blocks, count, fast, j)
    ensures j * count <= w.off && w.off + |w.xs| <= j * count + count && Fits(w, |blocks| * count)
  {
    NextMultiple(j, |blocks|, count);
  }

  lemma PartsApart<V>(a: Write<V>, b: Write<V>, blocks: seq<seq<V>>, count: nat, fast: nat)
    requires Blocks(blocks, count) && fast <= count
    requires IsPart(a, blocks, count, fast) && IsPart(b, blocks, count, fast) && a != b
    ensures Apart(a, b)
  {
    var i :| 0 <= i < |blocks| && (a == FastPart(blocks, count, fast, i) || a == PciePart(blocks, count, fast, i));
    var j :| 0 <= j < |blocks| && (b == FastPart(blocks, count, fast, j) || b == PciePart(blocks, count, fast, j));
    PartInBlock(a, blocks, count, fast, i);
    PartInBlock(b, blocks, count, fast, j);
    if i < j {
      NextMultiple(i, j, count);
    } else if j < i {
      NextMultiple(j, i, count);
    }
  }

  lemma PartsFitAnyOrder<V>(ws: seq<Write<V>>, blocks: seq<seq<V>>, count: nat, fast: nat)
    requires Blocks(blocks, count) && fast <= count && forall i :: 0 <= i < |ws| ==> IsPart(ws[i], blocks, count, fast)
    ensures AllFit(ws, |blocks| * count)
  {
    forall i | 0 <= i < |ws| ensures Fits(ws[i], |blocks| * count) {
      PartFits(ws[i], blocks, count, fast);
    }
  }

  lemma PartsApartAnyOrder<V>(ws: seq<Write<V>>, blocks: seq<seq<V>>, count: nat, fast: nat)
    requires Blocks(blocks, count) && fast <= count && forall i :: 0 <= i < |ws| ==> IsPart(ws[i], blocks, count, fast)
    requires forall i, k :: 0 <= i < k < |ws| ==> ws[i] != ws[k]
    ensures AllApart(ws)
  {
    forall i, k | 0 <= i < k < |ws| ensures Apart(ws[i], ws[k]) {
      PartsApart(ws[i], ws[k], blocks, count, fast);
    }
  }

  lemma PartFits<V>(w: Write<V>, blocks: seq<seq<V>>, count: nat, fast: nat)
    requires Blocks(blocks, count) && fast <= count && IsPart(w, blocks, count, fast)
    ensures Fits(w, |blocks| * count)
  {
    var j :| 0 <= j < |blocks| && (w == FastPart(blocks, count, fast, j) || w == PciePart(blocks, count, fast, j));
    PartInBlock(w, blocks, count, fast, j);
  }

  /** Whatever the order in which the two backends write their parts, the buffer ends up holding
      the unsplit result. */
  lemma AnyOrderIsUnsplit<V>(s: seq<V>, ws: seq<Write<V>>, blocks: seq<seq<V>>, count: nat, fast: nat)
    requires Blocks(blocks, count) && fast <= count && |s| == |blocks| * count
    requires Interleaving(ws, blocks, count, fast)
    ensures AllFit(ws, |s|) && Apply(s, ws) == Concat(blocks)
  {
    PartsFitAnyOrder(ws, blocks, count, fast);
    PartsApartAnyOrder(ws, blocks, count, fast);
    var r := Apply(s, ws);
    forall j | 0 <= j < |blocks| ensures InPlace(r, blocks, count, j) {
      PartsMakeBlock(s, ws, blocks, count, fast, j);
    }
    BlocksCover(r, blocks, count);
  }

  lemma PartsMakeBlock<V>(s: seq<V>, ws: seq<Write<V>>, blocks: seq<seq<V>>, count: nat, fast: nat, j: nat)
    requires Blocks(blocks, count) && fast <= count && AllFit(ws, |s|) && AllApart(ws) && j < |blocks|
    requires FastPart(blocks, count, fast, j) in ws && PciePart(blocks, count, fast, j) in ws
    ensures InPlace(Apply(s, ws), blocks, count, j)
  {
    InListHolds(s, ws, FastPart(blocks, count, fast, j));
    InListHolds(s, ws, PciePart(blocks, count, fast, j));
    HalvesMakeWhole(Apply(s, ws), j * count, blocks[j], fast);
  }

  lemma HalvesMakeWhole<V>(r: seq<V>, at: nat, block: seq<V>, fast: nat)
    requires fast <= |block| && Holds(r, Write(at, block[..fast])) && Holds(r, Write(at + fast, block[fast..]))
    ensures Holds(r, Write(at, block))
  {
    assert block == block[..fast] + block[fast..];
    assert r[at..at + |block|] == r[at..at + fast] + r[at + fast..at + |block|];
  }

  lemma FastThenPcie<V>(blocks: seq<seq<V>>, count: nat, fast: nat, counts: seq<nat>, displs: seq<nat>)
    requires Blocks(blocks, count) && 0 < fast < count && |counts| == |displs| == |blocks|
    requires forall j :: 0 <= j < |blocks| ==> counts[j] == fast && displs[j] == j * count
    ensures Interleaving(VWrites(blocks, counts, displs) + StridedWrites(blocks, count, fast), blocks, count, fast)
  {
    var a, b := VWrites(blocks, counts, displs), StridedWrites(blocks, count, fast);
    var ws := a + b;
    forall j | 0 <= j < |blocks|
      ensures FastPart(blocks, count, fast, j) in ws && PciePart(blocks, count, fast, j) in ws
    {
      assert ws[j] == FastPart(blocks, count, fast, j) && ws[|blocks| + j] == PciePart(blocks, count, fast, j);
    }
    forall i | 0 <= i < |ws| ensures IsPart(ws[i], blocks, count, fast) {
      if i < |a| {
        assert ws[i] == FastPart(blocks, count, fast, i);
      } else {
        assert ws[i] == PciePart(blocks, count, fast, i - |a|);
      }
    }
    forall i, k | 0 <= i < k < |ws| ensures ws[i] != ws[k] {
      OffsetsDiffer(blocks, count, fast, a, b, i, k);
    }
  }

  lemma OffsetsDiffer<V>(blocks: seq<seq<V>>, count: nat, fast: nat, a: seq<Write<V>>, b: seq<Write<V>>, i: nat, k: nat)
    requires Blocks(blocks, count) && 0 < fast < count && |a| == |b| == |blocks| && i < k < |a| + |b|
    requires forall j :: 0 <= j < |a| ==> a[j].off == j * count
    requires forall j :: 0 <= j < |b| ==> b[j].off == j * count + fast
    ensures (a + b)[i].off != (a + b)[k].off
  {
    var ji := if i < |a| then i else i - |a|;
    var jk := if k < |a| then k else k - |a|;
    if ji < jk {
      NextMultiple(ji, jk, count);
    } else if jk < ji {
      NextMultiple(jk, ji, count);
    }
  }

  lemma {:induction false} ApplyConcat<V>(s: seq<V>, a: seq<Write<V>>, b: seq<Write<V>>)
    requires AllFit(a, |s|) && AllFit(b, |s|)
    ensures AllFit(a + b, |s|) && Apply(s, a + b) == Apply(Apply(s, a), b)
  {
    if |b| == 0 {
      assert a + b == a;
    } else {
      var n := |b| - 1;
      ApplyConcat(s, a, b[..n]);
      assert (a + b)[..|a + b| - 1] == a + b[..n];
    }
  }

  lemma PartsFit<V>(blocks: seq<seq<V>>, count: nat, fast: nat, counts: seq<nat>, displs: seq<nat>)
    requires Blocks(blocks, count) && fast <= count && |counts| == |displs| == |blocks|
    requires forall j :: 0 <= j < |blocks| ==> counts[j] == fast && displs[j] == j * count
    ensures AllFit(VWrites(blocks, counts, displs), |blocks| * count)
    ensures AllFit(StridedWrites(blocks, count, fast), |blocks| * count)
  {
    forall j | 0 <= j < |blocks|
      ensures Fits(VWrites(blocks, counts, displs)[j], |blocks| * count) &&
              Fits(StridedWrites(blocks, count, fast)[j], |blocks| * count)
    {
      PartInBlock(FastPart(blocks, count, fast, j), blocks, count, fast, j);
      PartInBlock(PciePart(blocks, count, fast, j), blocks, count, fast, j);
    }
  }

  /** Count and displacement tables of the fast V call, filled in a loop. */
  method FillTables(n: nat, count: nat, fast: nat) returns (counts: seq<nat>, displs: seq<nat>)
    ensures |counts| == |displs| == n
    ensures forall j :: 0 <= j < n ==> counts[j] == fast && displs[j] == j * count
  {
    counts, displs := [], [];
    for j := 0 to n
      invariant |counts| == |displs| == j
      invariant forall i :: 0 <= i < j ==> counts[i] == fast && displs[i] == i * count
    {
      counts := counts + [fast];
      displs := displs + [j * count];
    }
  }

  // ---- AllGather and AllToAll ----

  /** Hybrid AllGather through the vendor's AllGatherV: `sends` are all ranks' send buffers. */
  method AllGatherV<V>(sends: seq<seq<V>>, count: nat, fast: nat, recv: array<V>)
    requires Blocks(sends, count) && 0 < fast < count && recv.Length == |sends| * count
    modifies recv
    ensures recv[..] == Concat(sends)
  {
    var counts, displs := FillTables(|sends|, count, fast);
    PartsFit(sends, count, fast, counts, displs);
    VCollective(sends, counts, displs, recv);
    StridedCollective(sends, count, fast, recv);
    FastThenPcie(sends, count, fast, counts, displs);
    ApplyConcat(old(recv[..]), VWrites(sends, counts, displs), StridedWrites(sends, count, fast));
    AnyOrderIsUnsplit(old(recv[..]), VWrites(sends, counts, displs) + StridedWrites(sends, count, fast), sends, count,
        fast);
  }

  /** What rank `me` receives from everybody in an AllToAll. */
  function BlocksFor<V>(sends: seq<seq<V>>, count: nat, me: nat): (blocks: seq<seq<V>>)
    requires forall j :: 0 <= j < |sends| ==> |sends[j]| == |sends| * count
    requires me < |sends| && me * count + count <= |sends| * count
    ensures |blocks| == |sends| && forall j :: 0 <= j < |blocks| ==>
            blocks[j] == sends[j][me * count..me * count + count]
  {
    seq(|sends|, j requires 0 <= j < |sends| && |sends[j]| == |sends| * count &&
        me * count + count <= |sends| * count =>
      sends[j][me * count..me * count + count])
  }

  method AllToAllV<V>(sends: seq<seq<V>>, count: nat, fast: nat, me: nat, recv: array<V>)
    requires forall j :: 0 <= j < |sends| ==> |sends[j]| == |sends| * count
    requires me < |sends| && me * count + count <= |sends| * count
    requires 0 < fast < count && recv.Length == |sends| * count
    modifies recv
    ensures recv[..] == Concat(BlocksFor(sends, count, me))
  {
    AllGatherV(BlocksFor(sends, count, me), count, fast, recv);
  }

  // ---- Staged AllGather ----

  function Prefixes<V>(sends: seq<seq<V>>, count: nat, fast: nat): (ps: seq<seq<V>>)
    requires Blocks(sends, count) && fast <= count
    ensures |ps| == |sends| && forall j :: 0 <= j < |ps| ==> ps[j] == sends[j][..fast]
  {
    seq(|sends|, j requires 0 <= j < |sends| && Blocks(sends, count) && fast <= count => sends[j][..fast])
  }

  /** `EnqueueSegmentedMergeOnStream`: segment r of the line buffer goes to the front of segment r
      of the user's buffer. */
  method SegmentedMerge<V>(user: array<V>, line: seq<V>, n: nat, fast: nat, perRank: nat, ghost blocks: seq<seq<V>>)
    requires Blocks(blocks, fast) && |blocks| == n && line == Concat(blocks) && fast <= perRank &&
             user.Length == n * perRank
    modifies user
    ensures AllFit(MergeWrites(blocks, perRank), user.Length)
    ensures user[..] == Apply(old(user[..]), MergeWrites(blocks, perRank))
  {
    ghost var ws := MergeWrites(blocks, perRank);
    MergeFits(blocks, fast, perRank, user.Length);
    assert ws[..0] == [];
    for r := 0 to n
      invariant AllFit(ws[..r], user.Length) && user[..] == Apply(old(user[..]), ws[..r])
    {
      var from, to := r * fast, r * perRank;
      SegmentIs(line, blocks, fast, r, from);
      assert ws[..r + 1][..r] == ws[..r] && Fits(ws[r], user.Length);
      CopyBlock(user, Write(to, line[from..from + fast]));
    }
    assert ws[..n] == ws;
  }

  lemma MergeFits<V>(blocks: seq<seq<V>>, fast: nat, perRank: nat, size: nat)
    requires Blocks(blocks, fast) && fast <= perRank && size == |blocks| * perRank
    ensures AllFit(MergeWrites(blocks, perRank), size)
  {
    forall j | 0 <= j < |blocks| ensures Fits(MergeWrites(blocks, perRank)[j], size) {
      NextMultiple(j, |blocks|, perRank);
    }
  }

  lemma SegmentIs<V>(line: seq<V>, blocks: seq<seq<V>>, fast: nat, r: nat, at: nat)
    requires Blocks(blocks, fast) && r < |blocks| && line == Concat(blocks) && at == r * fast
    ensures at + fast <= |line| && line[at..at + fast] == blocks[r]
  {
    ConcatBlock(blocks, fast, r);
  }

  ghost function MergeWrites<V>(blocks: seq<seq<V>>, perRank: nat): (ws: seq<Write<V>>)
    ensures |ws| == |blocks| && forall j :: 0 <= j < |ws| ==> ws[j] == Write(j * perRank, blocks[j])
  {
    seq(|blocks|, j requires 0 <= j < |blocks| => Write(j * perRank, blocks[j]))
  }

  /** Without a vendor AllGatherV: the fast parts are gathered in a line buffer, PCIe writes its
      parts of the user's buffer, and the line buffer is merged in last. */
  method StagedAllGather<V>(sends: seq<seq<V>>, count: nat, fast: nat, recv: array<V>)
    requires Blocks(sends, count) && 0 < fast < count && recv.Length == |sends| * count
    modifies recv
    ensures recv[..] == Concat(sends)
  {
    ghost var prefixes := Prefixes(sends, count, fast);
    var line := Concat(Prefixes(sends, count, fast));
    ghost var counts, displs := TablesOf(|sends|, count, fast);
    PartsFit(sends, count, fast, counts, displs);
    StridedCollective(sends, count, fast, recv);
    SegmentedMerge(recv, line, |sends|, fast, count, prefixes);
    ghost var a, b := StridedWrites(sends, count, fast), MergeWrites(prefixes, count);
    PcieThenMerge(sends, count, fast);
    ApplyConcat(old(recv[..]), a, b);
    AnyOrderIsUnsplit(old(recv[..]), a + b, sends, count, fast);
  }

  lemma TablesOf(n: nat, count: nat, fast: nat) returns (counts: seq<nat>, displs: seq<nat>)
    ensures |counts| == |displs| == n
    ensures forall j :: 0 <= j < n ==> counts[j] == fast && displs[j] == j * count
  {
    counts := seq(n, j => fast);
    displs := seq(n, j requires j >= 0 => j * count);
  }

  lemma PcieThenMerge<V>(sends: seq<seq<V>>, count: nat, fast: nat)
    requires Blocks(sends, count) && 0 < fast < count
    ensures Interleaving(StridedWrites(sends, count, fast) + MergeWrites(Prefixes(sends, count, fast), count), sends,
            count, fast)
  {
    var a, b := StridedWrites(sends, count, fast), MergeWrites(Prefixes(sends, count, fast), count);
    var ws := a + b;
    forall j | 0 <= j < |sends| ensures FastPart(sends, count, fast, j) in ws && PciePart(sends, count, fast, j) in ws {
      assert ws[j] == PciePart(sends, count, fast, j) && ws[|sends| + j] == FastPart(sends, count, fast, j);
    }
    forall i | 0 <= i < |ws| ensures IsPart(ws[i], sends, count, fast) {
      if i < |a| {
        assert ws[i] == PciePart(sends, count, fast, i);
      } else {
        assert ws[i] == FastPart(sends, count, fast, i - |a|);
      }
    }
    MergeOffsets(sends, count, fast);
  }

  lemma MergeOffsets<V>(sends: seq<seq<V>>, count: nat, fast: nat)
    requires Blocks(sends, count) && 0 < fast < count
    ensures var ws := StridedWrites(sends, count, fast) + MergeWrites(Prefixes(sends, count, fast), count);
      forall i, k :: 0 <= i < k < |ws| ==> ws[i] != ws[k]
  {
    var a, b := StridedWrites(sends, count, fast), MergeWrites(Prefixes(sends, count, fast), count);
    forall i, k | 0 <= i < k < |a + b| ensures (a + b)[i] != (a + b)[k] {
      SwappedOffsets(sends, count, fast, a, b, i, k);
    }
  }

  lemma SwappedOffsets<V>(blocks: seq<seq<V>>, count: nat, fast: nat, a: seq<Write<V>>, b: seq<Write<V>>, i: nat,
                          k: nat)
    requires Blocks(blocks, count) && 0 < fast < count && |a| == |b| == |blocks| && i < k < |a| + |b|
    requires forall j :: 0 <= j < |a| ==> a[j].off == j * count + fast
    requires forall j :: 0 <= j < |b| ==> b[j].off == j * count
    ensures (a + b)[i].off != (a + b)[k].off
  {
    var ji := if i < |a| then i else i - |a|;
    var jk := if k < |a| then k else k - |a|;
    if ji < jk {
      NextMultiple(ji, jk, count);
    } else if jk < ji {
      NextMultiple(jk, ji, count);
    }
  }

  // ---- AllReduce and ReduceScatter ----

  /** Element `i` of every rank's buffer. */
  function Column<V>(sends: seq<seq<V>>, i: nat): (col: seq<V>)
    requires forall q :: 0 <= q < |sends| ==> i < |sends[q]|
    ensures |col| == |sends|
  {
    seq(|sends|, q requires 0 <= q < |sends| && i < |sends[q]| => sends[q][i])
  }

  /** Elements `off` to `off + n - 1`, reduced over the ranks. */
  function Reduced<V>(sends: seq<seq<V>>, reduce: seq<V> -> V, off: nat, n: nat): (r: seq<V>)
    requires forall q :: 0 <= q < |sends| ==> off + n <= |sends[q]|
    ensures |r| == n
  {
    seq(n, k requires 0 <= k < n && (forall q :: 0 <= q < |sends| ==>
        off + n <= |sends[q]|) => reduce(Column(sends, off + k)))
  }

  /** Position `k` holds the reduction of what all ranks hold at `off + k`. */
  lemma ReducedAt<V>(sends: seq<seq<V>>, reduce: seq<V> -> V, off: nat, n: nat, k: nat, col: seq<V>)
    requires k < n && forall q :: 0 <= q < |sends| ==> off + n <= |sends[q]|
    requires |col| == |sends| && forall q :: 0 <= q < |sends| ==> col[q] == sends[q][off + k]
    ensures Reduced(sends, reduce, off, n)[k] == reduce(col)
  {
    assert Column(sends, off + k) == col;
  }

  method SplitReduce<V>(recv: array<V>, low: seq<V>, high: seq<V>)
    requires recv.Length == |low| + |high|
    modifies recv
    ensures recv[..] == low + high
  {
    CopyBlock(recv, Write(0, low));
    CopyBlock(recv, Write(|low|, high));
    assert recv[..] == low + high;
  }

  lemma ReducedSplits<V>(sends: seq<seq<V>>, reduce: seq<V> -> V, off: nat, n: nat, fast: nat)
    requires fast <= n && forall q :: 0 <= q < |sends| ==> off + n <= |sends[q]|
    ensures Reduced(sends, reduce, off, fast) + Reduced(sends, reduce, off + fast, n - fast) ==
            Reduced(sends, reduce, off, n)
  {
  }

  function Suffixes<V>(sends: seq<seq<V>>, from: nat): (s: seq<seq<V>>)
    requires forall q :: 0 <= q < |sends| ==> from <= |sends[q]|
    ensures |s| == |sends| && forall q :: 0 <= q < |s| ==> s[q] == sends[q][from..]
  {
    seq(|sends|, q requires 0 <= q < |sends| && from <= |sends[q]| => sends[q][from..])
  }

  lemma ReducedShift<V>(sends: seq<seq<V>>, moved: seq<seq<V>>, reduce: seq<V> -> V, off: nat, off': nat, n: nat)
    requires |moved| == |sends|
    requires forall q :: 0 <= q < |sends| ==> off + n <= |sends[q]| && off' + n <= |moved[q]|
    requires forall q :: 0 <= q < |sends| ==> moved[q][off'..off' + n] == sends[q][off..off + n]
    ensures Reduced(moved, reduce, off', n) == Reduced(sends, reduce, off, n)
  {
    var a, b := Reduced(moved, reduce, off', n), Reduced(sends, reduce, off, n);
    forall k | 0 <= k < n ensures a[k] == b[k] {
      ColumnShift(sends, moved, off, off', n, k);
    }
  }

  lemma ColumnShift<V>(sends: seq<seq<V>>, moved: seq<seq<V>>, off: nat, off': nat, n: nat, k: nat)
    requires |moved| == |sends| && k < n
    requires forall q :: 0 <= q < |sends| ==> off + n <= |sends[q]| && off' + n <= |moved[q]|
    requires forall q :: 0 <= q < |sends| ==> moved[q][off'..off' + n] == sends[q][off..off + n]
    ensures Column(moved, off' + k) == Column(sends, off + k)
  {
    var a, b := Column(moved, off' + k), Column(sends, off + k);
    forall q | 0 <= q < |sends| ensures a[q] == b[q] {
      assert moved[q][off' + k] == moved[q][off'..off' + n][k] && sends[q][off + k] == sends[q][off..off + n][k];
    }
  }

  /** Hybrid AllReduce: each backend reduces its own stretch of the buffers. */
  method AllReduce<V>(sends: seq<seq<V>>, reduce: seq<V> -> V, count: nat, fast: nat, recv: array<V>)
    requires Blocks(sends, count) && fast < count && recv.Length == count
    modifies recv
    ensures recv[..] == Reduced(sends, reduce, 0, count)
    ensures forall k, col: seq<V> ::
      0 <= k < count && |col| == |sends| && (forall q :: 0 <= q < |sends| ==> col[q] == sends[q][k]) ==>
      recv[k] == reduce(col)
  {
    var low := Reduced(sends, reduce, 0, fast);
    var high := Reduced(Suffixes(sends, fast), reduce, 0, count - fast);
    SplitReduce(recv, low, high);
    ReducedShift(sends, Suffixes(sends, fast), reduce, fast, 0, count - fast);
    ReducedSplits(sends, reduce, 0, count, fast);
    forall k, col: seq<V> | 0 <= k < count && |col| == |sends| && forall q :: 0 <= q < |sends| ==> col[q] == sends[q][k]
      ensures recv[k] == reduce(col)
    {
      assert recv[k] == recv[..][k];
      ReducedAt(sends, reduce, 0, count, k, col);
    }
  }

  /** Hybrid ReduceScatter through the vendor's ReduceScatterV. */
  method ReduceScatterV<V>(sends: seq<seq<V>>, reduce: seq<V> -> V, count: nat, fast: nat, me: nat, recv: array<V>)
    requires forall q :: 0 <= q < |sends| ==> |sends[q]| == |sends| * count
    requires me < |sends| && me * count + count <= |sends| * count
    requires 0 < fast < count && recv.Length == count
    modifies recv
    ensures recv[..] == Reduced(sends, reduce, me * count, count)
    ensures forall k, col: seq<V> ::
      0 <= k < count && |col| == |sends| && (forall q :: 0 <= q < |sends| ==> col[q] == sends[q][me * count + k]) ==>
      recv[k] == reduce(col)
  {
    var counts, displs := FillTables(|sends|, count, fast);
    var low := Reduced(sends, reduce, displs[me], counts[me]);
    var high := Reduced(sends, reduce, me * count + fast, count - fast);
    SplitReduce(recv, low, high);
    ReducedSplits(sends, reduce, me * count, count, fast);
    forall k, col: seq<V> | 0 <= k < count && |col| == |sends| && forall q :: 0 <= q < |sends| ==>
        col[q] == sends[q][me * count + k]
      ensures recv[k] == reduce(col)
    {
      assert recv[k] == recv[..][k];
      ReducedAt(sends, reduce, me * count, count, k, col);
    }
  }

  /** The fast part of each of the first `n` blocks of a send buffer. */
  function FastBlocks<V>(send: seq<V>, n: nat, count: nat, fast: nat): (blocks: seq<seq<V>>)
    requires fast <= count && n * count <= |send|
    ensures |blocks| == n && forall b :: 0 <= b < n ==> IsFastBlock(blocks[b], send, b, count, fast)
  {
    if n == 0 then []
    else
      BlockStart(n - 1, n, count);
      FastBlocks(send, n - 1, count, fast) + [send[(n - 1) * count..(n - 1) * count + fast]]
  }

  ghost predicate IsFastBlock<V>(block: seq<V>, send: seq<V>, b: nat, count: nat, fast: nat) {
    |block| == fast && b * count + fast <= |send| && block == send[b * count..b * count + fast]
  }

  lemma BlockStart(b: nat, n: nat, count: nat)
    requires b < n
    ensures b * count + count <= n * count
  {
    NextMultiple(b, n, count);
  }

  lemma FastBlocksAreBlocks<V>(send: seq<V>, n: nat, count: nat, fast: nat)
    requires fast <= count && n * count <= |send|
    ensures Blocks(FastBlocks(send, n, count, fast), fast)
    ensures AllFit(MergeWrites(FastBlocks(send, n, count, fast), fast), n * fast)
  {
    var blocks := FastBlocks(send, n, count, fast);
    forall j | 0 <= j < n ensures |blocks[j]| == fast {
      assert IsFastBlock(blocks[j], send, j, count, fast);
    }
    MergeFits(blocks, fast, fast, n * fast);
  }

  /** Every rank copies the fast parts of its blocks side by side, in a loop. */
  method Pack<V>(send: seq<V>, n: nat, count: nat, fast: nat, pack: array<V>)
    requires fast <= count && n * count <= |send| && pack.Length == n * fast
    modifies pack
    ensures pack[..] == Concat(FastBlocks(send, n, count, fast))
  {
    ghost var blocks := FastBlocks(send, n, count, fast);
    FastBlocksAreBlocks(send, n, count, fast);
    ghost var ws := MergeWrites(blocks, fast);
    assert ws[..0] == [];
    for b := 0 to n
      invariant AllFit(ws, pack.Length) && AllFit(ws[..b], pack.Length)
      invariant pack[..] == Apply(old(pack[..]), ws[..b])
    {
      assert ws[..b + 1][..b] == ws[..b] && Fits(ws[b], pack.Length);
      CopyFastBlock(send, n, count, fast, b, pack, blocks[b]);
    }
    assert ws[..n] == ws;
    SideBySide(old(pack[..]), blocks, fast);
  }

  method CopyFastBlock<V>(send: seq<V>, n: nat, count: nat, fast: nat, b: nat, pack: array<V>, ghost block: seq<V>)
    requires b < n && fast <= count && n * count <= |send| && IsFastBlock(block, send, b, count, fast)
    requires Fits(Write(b * fast, block), pack.Length)
    modifies pack
    ensures pack[..] == Put(old(pack[..]), Write(b * fast, block))
  {
    CopyBlock(pack, Write(b * fast, send[b * count..b * count + fast]));
  }

  lemma SideBySide<V>(s: seq<V>, blocks: seq<seq<V>>, count: nat)
    requires Blocks(blocks, count) && |s| == |blocks| * count && AllFit(MergeWrites(blocks, count), |s|)
    ensures Apply(s, MergeWrites(blocks, count)) == Concat(blocks)
  {
    var ws := MergeWrites(blocks, count);
    MergeApart(blocks, count);
    forall j | 0 <= j < |blocks| ensures InPlace(Apply(s, ws), blocks, count, j) {
      AllHold(s, ws, j);
    }
    BlocksCover(Apply(s, ws), blocks, count);
  }

  lemma MergeApart<V>(blocks: seq<seq<V>>, count: nat)
    requires Blocks(blocks, count)
    ensures AllApart(MergeWrites(blocks, count))
  {
    var ws := MergeWrites(blocks, count);
    forall i, k | 0 <= i < k < |ws| ensures Apart(ws[i], ws[k]) {
      NextMultiple(i, k, count);
    }
  }

  /** Without a vendor ReduceScatterV: the fast backend reduces the packed buffers, which `packs`
      lists for all ranks. */
  method PackedReduceScatter<V>(sends: seq<seq<V>>, packs: seq<seq<V>>, reduce: seq<V> -> V, count: nat, fast: nat,
                                me: nat, recv: array<V>)
    requires forall q :: 0 <= q < |sends| ==> |sends[q]| == |sends| * count
    requires me < |sends| && me * count + count <= |sends| * count && 0 < fast < count && recv.Length == count
    requires PacksOf(sends, packs, |sends|, count, fast)
    modifies recv
    ensures recv[..] == Reduced(sends, reduce, me * count, count)
    ensures forall k, col: seq<V> ::
      0 <= k < count && |col| == |sends| && (forall q :: 0 <= q < |sends| ==> col[q] == sends[q][me * count + k]) ==>
      recv[k] == reduce(col)
  {
    var from, at := me * fast, me * count;
    PackedReduced(sends, packs, reduce, count, fast, me, from, at);
    var low := Reduced(packs, reduce, from, fast);
    var high := Reduced(sends, reduce, at + fast, count - fast);
    SplitReduce(recv, low, high);
    ReducedSplits(sends, reduce, at, count, fast);
    forall k, col: seq<V> | 0 <= k < count && |col| == |sends| && forall q :: 0 <= q < |sends| ==>
        col[q] == sends[q][me * count + k]
      ensures recv[k] == reduce(col)
    {
      assert recv[k] == recv[..][k];
      ReducedAt(sends, reduce, me * count, count, k, col);
    }
  }

  ghost predicate PacksOf<V>(sends: seq<seq<V>>, packs: seq<seq<V>>, n: nat, count: nat, fast: nat)
    requires fast <= count && forall q :: 0 <= q < |sends| ==> n * count <= |sends[q]|
  {
    |packs| == |sends| && forall q :: 0 <= q < |sends| ==> packs[q] == Concat(FastBlocks(sends[q], n, count, fast))
  }

  lemma PackedReduced<V>(sends: seq<seq<V>>, packs: seq<seq<V>>, reduce: seq<V> -> V, count: nat, fast: nat, me: nat,
                         from: nat, at: nat)
    requires me < |sends| && fast <= count && from == me * fast && at == me * count
    requires forall q :: 0 <= q < |sends| ==> |sends| * count <= |sends[q]| && at + fast <= |sends[q]|
    requires PacksOf(sends, packs, |sends|, count, fast)
    ensures forall q :: 0 <= q < |packs| ==> from + fast <= |packs[q]|
    ensures Reduced(packs, reduce, from, fast) == Reduced(sends, reduce, at, fast)
  {
    forall q | 0 <= q < |sends|
      ensures from + fast <= |packs[q]| && packs[q][from..from + fast] == sends[q][at..at + fast]
    {
      PackedPart(sends[q], |sends|, count, fast, me, from, at);
    }
    ReducedShift(sends, packs, reduce, at, from, fast);
  }

  lemma PackedPart<V>(send: seq<V>, n: nat, count: nat, fast: nat, me: nat, from: nat, at: nat)
    requires fast <= count && n * count <= |send| && me < n && from == me * fast && at == me * count &&
             at + fast <= |send|
    ensures var p := Concat(FastBlocks(send, n, count, fast));
      from + fast <= |p| && p[from..from + fast] == send[at..at + fast]
  {
    var blocks := FastBlocks(send, n, count, fast);
    FastBlocksAreBlocks(send, n, count, fast);
    SegmentIs(Concat(blocks), blocks, fast, me, from);
    assert IsFastBlock(blocks[me], send, me, count, fast);
  }
}
