/** Byte layout of device chunks: a buffer of segments, each with a reserved prefix, whose active
    rest is cut into chunks of whole elements, each copied slice by slice. */
module Layout {
  import opened Ir
  import opened Arith
  import opened Slices

  /** Segment size and reserved prefix in bytes; one entry per chunk. */
  datatype Desc = Desc(segmentSize: nat, strideOffset: nat, chunkSize: nat, chunksPerSegment: nat,
                       offsets: seq<nat>, sizes: seq<nat>)

  function MaxChunkBytes(active: nat, elementSize: nat, cps: nat): nat
    requires cps > 0
  {
    DivUp(active, cps) * elementSize
  }

  // ---- Cutting the active part ----

  /** Where the chunks of a segment begin and end, in elements. */
  function Bounds(active: nat, cps: nat): (b: seq<nat>)
    requires cps > 0
    ensures |b| == cps + 1
  {
    seq(cps + 1, i requires i >= 0 => (active * i) / cps)
  }

  /** A cut of `active` elements into `cps` chunks of `low` to `high` elements, the first of which
      has `low` and the last `high`. */
  ghost predicate IsCut(b: seq<nat>, active: nat, cps: nat, low: nat, high: nat) {
    && cps > 0 && |b| == cps + 1
    && b[0] == 0 && b[cps] == active
    && (forall i :: 0 <= i < cps ==> low <= b[i + 1] - b[i] <= high)
    && b[1] == low && b[cps - 1] == active - high
  }

  /** Adding `active` to `x` moves its quotient by the rounded-down or the rounded-up share. */
  lemma NextShare(x: nat, active: nat, cps: nat, u: nat)
    requires cps > 0 && u * cps >= active
    ensures active / cps <= (x + active) / cps - x / cps <= u
  {
    DivModDef(x, cps);
    DivModDef(active, cps);
    NextShareIs(x, active, cps, u, x / cps, x % cps, active / cps, active % cps);
  }

  lemma NextShareIs(x: nat, active: nat, cps: nat, u: nat, f: nat, r: nat, q: nat, t: nat)
    requires r < cps && t < cps && x == f * cps + r && active == q * cps + t && u * cps >= active
    ensures q <= (x + active) / cps - f <= u
  {
    ShareCovers(active, cps, u, q, t);
    if r + t < cps {
      QuotientIs(x + active, cps, f, q, r + t, 0);
    } else {
      QuotientIs(x + active, cps, f, q, r + t - cps, 1);
    }
  }

  lemma ShareCovers(active: nat, cps: nat, u: nat, q: nat, t: nat)
    requires active == q * cps + t && u * cps >= active
    ensures q <= u || cps == 0
    ensures t > 0 ==> q < u
  {
    if u <= q {
      MulAtLeast(u, q, cps);
      if u < q {
        NextMultiple(u, q, cps);
      }
    }
  }

  lemma QuotientIs(y: nat, cps: nat, f: nat, q: nat, r: nat, carry: nat)
    requires r < cps && carry <= 1 && y == f * cps + q * cps + r + carry * cps
    ensures y / cps == f + q + carry
  {
    assert (f + q + carry) * cps == f * cps + q * cps + carry * cps;
    DivModIs(y, cps, f + q + carry, r);
  }

  lemma ShareBounds(active: nat, cps: nat, i: nat)
    requires cps > 0
    ensures active / cps <= (active * (i + 1)) / cps - (active * i) / cps <= DivUp(active, cps)
  {
    DivUpIs(active, cps);
    NextShare(active * i, active, cps, DivUp(active, cps));
    assert active * (i + 1) == active * i + active;
  }

  lemma LastShare(active: nat, cps: nat)
    requires cps > 0
    ensures DivUp(active, cps) <= active
    ensures (active * cps) / cps == active && (active * (cps - 1)) / cps == active - DivUp(active, cps)
  {
    DivUpIs(active, cps);
    LastShareIs(active, cps, DivUp(active, cps));
  }

  lemma LastShareIs(active: nat, cps: nat, u: nat)
    requires cps > 0 && u * cps >= active && (active == 0 ==> u == 0)
    requires active > 0 ==> u > 0 && (u - 1) * cps < active
    ensures u <= active && (active * cps) / cps == active && (active * (cps - 1)) / cps == active - u
  {
    DivModIs(active * cps, cps, active, 0);
    if active > 0 {
      RoundedUpFits(active, cps, u);
    }
    AllButLast(active, cps, u);
  }

  lemma AllButLast(active: nat, cps: nat, u: nat)
    requires cps > 0 && u <= active && u * cps >= active && (active > 0 ==> (u - 1) * cps < active)
    requires active == 0 ==> u == 0
    ensures (active * (cps - 1)) / cps == active - u
  {
    Remainder(active, cps, u);
    assert active * (cps - 1) == active * cps - active;
    DivModIs(active * (cps - 1), cps, active - u, u * cps - active);
  }

  lemma Remainder(active: nat, cps: nat, u: nat)
    requires cps > 0 && u <= active && u * cps >= active && (active > 0 ==> (u - 1) * cps < active)
    requires active == 0 ==> u == 0
    ensures u * cps - active < cps
    ensures (active - u) * cps == active * cps - u * cps
  {
    assert (u - 1) * cps == u * cps - cps;
  }

  lemma RoundedUpFits(active: nat, cps: nat, u: nat)
    requires cps > 0 && active > 0 && u > 0 && (u - 1) * cps < active
    ensures u <= active
  {
    MulAtLeast(1, cps, u - 1);
    assert (u - 1) * 1 <= (u - 1) * cps;
  }

  lemma BoundsAreCut(active: nat, cps: nat)
    requires cps > 0
    ensures IsCut(Bounds(active, cps), active, cps, active / cps, DivUp(active, cps))
  {
    var b := Bounds(active, cps);
    forall i | 0 <= i < cps ensures active / cps <= b[i + 1] - b[i] <= DivUp(active, cps) {
      ShareBounds(active, cps, i);
    }
    LastShare(active, cps);
    DivModIs(0, cps, 0, 0);
    assert b[0] == (active * 0) / cps && b[1] == (active * 1) / cps;
  }

  lemma {:induction false} CutGrows(b: seq<nat>, active: nat, cps: nat, low: nat, high: nat, i: nat, j: nat)
    requires IsCut(b, active, cps, low, high) && i <= j <= cps
    ensures b[i] <= b[j]
    decreases j
  {
    if i < j {
      CutGrows(b, active, cps, low, high, i, j - 1);
      assert low <= b[j - 1 + 1] - b[j - 1];
    }
  }

  // ---- The chunk table ----

  /** `d` has one entry per chunk, its place in the segment given by the cut `b`. */
  ghost predicate IsTable(d: Desc, elementSize: nat, b: seq<nat>) {
    && d.chunksPerSegment > 0 && |b| == d.chunksPerSegment + 1 && |d.offsets| == |d.sizes|
    && (forall c :: 0 <= c < |d.sizes| ==> EntryOk(d, elementSize, b, c))
  }

  ghost predicate EntryOk(d: Desc, elementSize: nat, b: seq<nat>, c: nat)
    requires d.chunksPerSegment > 0 && |b| == d.chunksPerSegment + 1 && |d.offsets| == |d.sizes| && c < |d.sizes|
  {
    var i := c % d.chunksPerSegment;
    d.offsets[c] == b[i] * elementSize && d.sizes[c] == (b[i + 1] - b[i]) * elementSize
  }

  /** The loop the compiler fills the table with. */
  method MakeDeviceLayout(segmentSize: nat, strideOffset: nat, elementSize: nat, active: nat,
                          totalChunks: int, chunksPerSegment: int, slotSize: nat) returns (d: Desc)
    ensures d.segmentSize == segmentSize && d.strideOffset == strideOffset && d.chunkSize == slotSize
    ensures d.chunksPerSegment == Max(1, chunksPerSegment)
    ensures IsTable(d, elementSize, Bounds(active, d.chunksPerSegment)) && |d.sizes| == Max(0, totalChunks)
  {
    var cps: nat := Max(1, chunksPerSegment);
    d := Desc(segmentSize, strideOffset, slotSize, cps, [], []);
    var chunks: nat := Max(0, totalChunks);
    var c := 0;
    while c < chunks
      invariant 0 <= c <= chunks
      invariant d == Desc(segmentSize, strideOffset, slotSize, cps, d.offsets, d.sizes) && |d.sizes| == c
      invariant IsTable(d, elementSize, Bounds(active, cps))
    {
      var begin, end := Share(active, cps, c % cps);
      d := AddEntry(d, elementSize, begin, end, Bounds(active, cps));
      c := c + 1;
    }
  }

  method Share(active: nat, cps: nat, i: nat) returns (begin: nat, end: nat)
    requires i < cps
    ensures begin == Bounds(active, cps)[i] && end == Bounds(active, cps)[i + 1] && begin <= end
  {
    begin := (active * i) / cps;
    end := (active * (i + 1)) / cps;
    BoundIs(active, cps, i, begin);
    BoundIs(active, cps, i + 1, end);
    ShareGrows(active, cps, i, begin, end);
  }

  lemma BoundIs(active: nat, cps: nat, i: nat, bound: nat)
    requires cps > 0 && i <= cps && bound == (active * i) / cps
    ensures Bounds(active, cps)[i] == bound
  {
  }

  lemma ShareGrows(active: nat, cps: nat, i: nat, begin: nat, end: nat)
    requires i < cps && begin == (active * i) / cps && end == (active * (i + 1)) / cps
    ensures begin <= end
  {
    ShareBounds(active, cps, i);
  }

  method AddEntry(d: Desc, elementSize: nat, begin: nat, end: nat, ghost b: seq<nat>) returns (e: Desc)
    requires IsTable(d, elementSize, b) && begin <= end
    requires begin == b[|d.sizes| % d.chunksPerSegment] && end == b[|d.sizes| % d.chunksPerSegment + 1]
    ensures e == d.(offsets := e.offsets, sizes := e.sizes) && |e.sizes| == |d.sizes| + 1
    ensures IsTable(e, elementSize, b)
  {
    var offset, size := begin * elementSize, (end - begin) * elementSize;
    e := d.(offsets := d.offsets + [offset], sizes := d.sizes + [size]);
    TableGrows(d, e, elementSize, b);
  }

  lemma TableGrows(d: Desc, e: Desc, elementSize: nat, b: seq<nat>)
    requires IsTable(d, elementSize, b) && e.chunksPerSegment == d.chunksPerSegment
    requires |e.sizes| == |e.offsets| == |d.sizes| + 1 && e.offsets[..|d.sizes|] == d.offsets &&
             e.sizes[..|d.sizes|] == d.sizes
    requires EntryOk(e, elementSize, b, |d.sizes|)
    ensures IsTable(e, elementSize, b)
  {
    forall c | 0 <= c < |d.sizes| ensures EntryOk(e, elementSize, b, c) {
      assert EntryOk(d, elementSize, b, c);
      assert e.offsets[c] == e.offsets[..|d.sizes|][c] && e.sizes[c] == e.sizes[..|d.sizes|][c];
    }
  }

  // ---- Where chunks lie ----

  function Start(d: Desc, c: nat): nat
    requires d.chunksPerSegment > 0 && c < |d.offsets|
  {
    (c / d.chunksPerSegment) * d.segmentSize + d.strideOffset + d.offsets[c]
  }

  /** Layouts of one call: `segment` elements per segment, the first `stride` of them reserved. */
  ghost predicate LaidOut(d: Desc, elementSize: nat, segment: nat, stride: nat, b: seq<nat>, low: nat, high: nat) {
    && stride <= segment && IsCut(b, segment - stride, d.chunksPerSegment, low, high) && IsTable(d, elementSize, b)
    && d.segmentSize == segment * elementSize && d.strideOffset == stride * elementSize
  }

  lemma TableIsLaidOut(d: Desc, elementSize: nat, segment: nat, stride: nat)
    requires stride <= segment && d.chunksPerSegment > 0 &&
             IsTable(d, elementSize, Bounds(segment - stride, d.chunksPerSegment))
    requires d.segmentSize == segment * elementSize && d.strideOffset == stride * elementSize
    ensures LaidOut(d, elementSize, segment, stride, Bounds(segment - stride, d.chunksPerSegment),
                    (segment - stride) / d.chunksPerSegment, DivUp(segment - stride, d.chunksPerSegment))
  {
    BoundsAreCut(segment - stride, d.chunksPerSegment);
  }

  /** Chunk `i` of segment `s` in bytes. */
  lemma ChunkAt(d: Desc, elementSize: nat, b: seq<nat>, s: nat, i: nat, c: nat)
    requires IsTable(d, elementSize, b) && i < d.chunksPerSegment && c == s * d.chunksPerSegment + i && c < |d.sizes|
    ensures Start(d, c) == s * d.segmentSize + d.strideOffset + b[i] * elementSize
    ensures Start(d, c) + d.sizes[c] == s * d.segmentSize + d.strideOffset + b[i + 1] * elementSize
  {
    DivModIs(c, d.chunksPerSegment, s, i);
    assert EntryOk(d, elementSize, b, c);
    Spread(b[i], b[i + 1], elementSize);
  }

  lemma Spread(f: nat, g: nat, e: nat)
    ensures f * e + (g - f) * e == g * e
  {
  }

  /** The chunks of every segment tile its active part exactly: the first starts right after the
      reserved prefix, each next one where the previous one ends, and the last ends with the
      segment. */
  lemma ChunksTileActivePart(d: Desc, elementSize: nat, segment: nat, stride: nat, b: seq<nat>, low: nat, high: nat,
                             s: nat, i: nat, c: nat)
    requires LaidOut(d, elementSize, segment, stride, b, low, high)
    requires i < d.chunksPerSegment && c == s * d.chunksPerSegment + i && c < |d.sizes|
    ensures i == 0 ==> Start(d, c) == s * d.segmentSize + d.strideOffset
    ensures i == d.chunksPerSegment - 1 ==> Start(d, c) + d.sizes[c] == (s + 1) * d.segmentSize
    ensures i < d.chunksPerSegment - 1 && c + 1 < |d.sizes| ==> Start(d, c + 1) == Start(d, c) + d.sizes[c]
    ensures s * d.segmentSize + d.strideOffset <= Start(d, c) && Start(d, c) + d.sizes[c] <= (s + 1) * d.segmentSize
  {
    ChunkAt(d, elementSize, b, s, i, c);
    InsideSegment(elementSize, segment, stride, b, d.chunksPerSegment, low, high, s, i, s * d.segmentSize);
    NextSegment(s, d.segmentSize);
    if i < d.chunksPerSegment - 1 && c + 1 < |d.sizes| {
      NextChunkFollows(d, elementSize, b, s, i, c);
    }
  }

  lemma NextChunkFollows(d: Desc, elementSize: nat, b: seq<nat>, s: nat, i: nat, c: nat)
    requires IsTable(d, elementSize, b) && i + 1 < d.chunksPerSegment && c == s * d.chunksPerSegment + i &&
             c + 1 < |d.sizes|
    ensures Start(d, c + 1) == Start(d, c) + d.sizes[c]
  {
    ChunkAt(d, elementSize, b, s, i, c);
    ChunkAt(d, elementSize, b, s, i + 1, c + 1);
  }

  lemma InsideSegment(elementSize: nat, segment: nat, stride: nat, b: seq<nat>, cps: nat, low: nat, high: nat, s: nat,
                      i: nat, base: nat)
    requires stride <= segment && IsCut(b, segment - stride, cps, low, high) && i < cps
    ensures i == 0 ==> b[i] * elementSize == 0
    ensures base + stride * elementSize + b[i + 1] * elementSize <= base + segment * elementSize
    ensures i == cps - 1 ==> stride * elementSize + b[i + 1] * elementSize == segment * elementSize
  {
    CutGrows(b, segment - stride, cps, low, high, i + 1, cps);
    UpToSegmentEnd(elementSize, segment, stride, b[i + 1]);
  }

  lemma UpToSegmentEnd(elementSize: nat, segment: nat, stride: nat, bound: nat)
    requires stride <= segment && bound <= segment - stride
    ensures stride * elementSize + bound * elementSize <= segment * elementSize
    ensures bound == segment - stride ==> stride * elementSize + bound * elementSize == segment * elementSize
  {
    MulAtLeast(bound, segment - stride, elementSize);
    Spread(stride, segment, elementSize);
  }

  lemma NextSegment(s: nat, size: nat)
    ensures (s + 1) * size == s * size + size
  {
  }

  /** Distinct chunks share no byte. */
  lemma ChunksDisjoint(d: Desc, elementSize: nat, segment: nat, stride: nat, b: seq<nat>, low: nat, high: nat,
                       s: nat, i: nat, c: nat, s': nat, i': nat, c': nat)
    requires LaidOut(d, elementSize, segment, stride, b, low, high)
    requires i < d.chunksPerSegment && c == s * d.chunksPerSegment + i && c < |d.sizes|
    requires i' < d.chunksPerSegment && c' == s' * d.chunksPerSegment + i' && c' < |d.sizes|
    requires s < s' || (s == s' && i < i')
    ensures Start(d, c) + d.sizes[c] <= Start(d, c')
  {
    if s < s' {
      ChunksTileActivePart(d, elementSize, segment, stride, b, low, high, s, i, c);
      ChunksTileActivePart(d, elementSize, segment, stride, b, low, high, s', i', c');
      MulAtLeast(s + 1, s', d.segmentSize);
    } else {
      ChunkAt(d, elementSize, b, s, i, c);
      ChunkAt(d, elementSize, b, s, i', c');
      CutGrows(b, segment - stride, d.chunksPerSegment, low, high, i + 1, i');
      MulAtLeast(b[i + 1], b[i'], elementSize);
    }
  }

  // ---- Slices ----

  /** The slices of the whole graph: enough for the largest chunk, none of them empty for it. */
  function SliceCount(chunkSize: nat): (n: nat)
    ensures n >= 1 && (chunkSize > 0 ==> (n - 1) * SLICE_BYTES < chunkSize <= n * SLICE_BYTES)
  {
    Max(1, (chunkSize + SLICE_BYTES - 1) / SLICE_BYTES)
  }

  /** Where slice `sc` of a device chunk lies: chunks beyond the table keep their distance of a whole
      chunk size in their segment. */
  function Address(d: Desc, c: nat, sc: nat): nat
    requires d.chunksPerSegment > 0
  {
    (c / d.chunksPerSegment) * d.segmentSize + d.strideOffset
    + (if c < |d.offsets| then d.offsets[c] else (c % d.chunksPerSegment) * d.chunkSize)
    + sc * SLICE_BYTES
  }

  /** Different slices of different or the same chunks of the table share no byte, and a chunk's slices
      follow each other from its start. */
  lemma DeviceSlicesDisjoint(d: Desc, elementSize: nat, segment: nat, stride: nat, b: seq<nat>, low: nat, high: nat,
                             s: nat, i: nat, c: nat, sc: nat, s': nat, i': nat, c': nat, sc': nat)
    requires LaidOut(d, elementSize, segment, stride, b, low, high)
    requires i < d.chunksPerSegment && c == s * d.chunksPerSegment + i && c < |d.sizes|
    requires i' < d.chunksPerSegment && c' == s' * d.chunksPerSegment + i' && c' < |d.sizes|
    requires (s < s' || (s == s' && i < i')) || (c == c' && sc < sc')
    requires SliceSize(d.sizes[c], sc) > 0 && SliceSize(d.sizes[c'], sc') > 0
    ensures Address(d, c, sc) + SliceSize(d.sizes[c], sc) <= Address(d, c', sc')
    ensures Address(d, c, 0) == Start(d, c) && Address(d, c, sc + 1) == Address(d, c, sc) + SLICE_BYTES
    ensures Start(d, c) <= Address(d, c, sc) &&
            Address(d, c, sc) + SliceSize(d.sizes[c], sc) <= Start(d, c) + d.sizes[c]
  {
    SlicesTileChunk(d.sizes[c], sc);
    if s < s' || (s == s' && i < i') {
      ChunksDisjoint(d, elementSize, segment, stride, b, low, high, s, i, c, s', i', c');
    }
  }

  /** Beyond the table, chunks of one segment are a chunk size apart. */
  lemma AddressBeyondTable(d: Desc, s: nat, i: nat, c: nat, sc: nat)
    requires d.chunksPerSegment > 0 && i < d.chunksPerSegment && c == s * d.chunksPerSegment + i && c >= |d.offsets|
    ensures Address(d, c, sc) == s * d.segmentSize + d.strideOffset + i * d.chunkSize + sc * SLICE_BYTES
  {
    DivModIs(c, d.chunksPerSegment, s, i);
  }

  // ---- Copies of the maximal chunk size ----

  /** A device-to-host copy moves the graph's chunk size, not its source chunk's. All such copies
      stay in the active part of their segment exactly when the output side's chunks are no larger
      than the input side's; equal chunks per segment are the common case. */
  lemma D2HStaysInActivePart(active: nat, elementSize: nat, d2hCps: nat, h2dCps: nat)
    requires d2hCps > 0 && h2dCps > 0 && elementSize > 0
    ensures var chunk := Max(DivUp(active, d2hCps), DivUp(active, h2dCps));
      var b := Bounds(active, d2hCps);
      (forall i :: 0 <= i < d2hCps ==> (b[i] + chunk) * elementSize <= active * elementSize)
      <==> DivUp(active, h2dCps) <= DivUp(active, d2hCps)
    ensures Max(DivUp(active, d2hCps), DivUp(active, h2dCps)) * elementSize ==
            Max(MaxChunkBytes(active, elementSize, d2hCps), MaxChunkBytes(active, elementSize, h2dCps))
  {
    BoundsAreCut(active, d2hCps);
    var low, own, other := active / d2hCps, DivUp(active, d2hCps), DivUp(active, h2dCps);
    CopiesStayInside(Bounds(active, d2hCps), active, d2hCps, low, own, Max(own, other), elementSize);
    if own <= other {
      MulAtLeast(own, other, elementSize);
    } else {
      MulAtLeast(other, own, elementSize);
    }
  }

  lemma CopiesStayInside(b: seq<nat>, active: nat, cps: nat, low: nat, high: nat, chunk: nat, elementSize: nat)
    requires IsCut(b, active, cps, low, high) && chunk >= high && elementSize > 0
    ensures (forall i :: 0 <= i < cps ==> (b[i] + chunk) * elementSize <= active * elementSize) <==> chunk == high
  {
    if chunk == high {
      forall i | 0 <= i < cps ensures (b[i] + chunk) * elementSize <= active * elementSize {
        CutGrows(b, active, cps, low, high, i, cps - 1);
        MulAtLeast(b[i] + chunk, active, elementSize);
      }
    } else {
      NextMultiple(active, b[cps - 1] + chunk, elementSize);
    }
  }

  // ---- When chunks have empty slices ----

  /** No chunk of the table has an empty trailing slice exactly when the smallest chunk, the
      rounded-down share, reaches into the last slice. */
  lemma NoEmptySlices(d: Desc, elementSize: nat, active: nat, slices: nat)
    requires d.chunksPerSegment > 0 && IsTable(d, elementSize, Bounds(active, d.chunksPerSegment)) && |d.sizes| > 0 &&
             slices > 0
    ensures (forall c :: 0 <= c < |d.sizes| ==> d.sizes[c] > (slices - 1) * SLICE_BYTES)
            <==> (active / d.chunksPerSegment) * elementSize > (slices - 1) * SLICE_BYTES
  {
    BoundsAreCut(active, d.chunksPerSegment);
    SizesAtLeast(d, elementSize, Bounds(active, d.chunksPerSegment), active, active / d.chunksPerSegment,
        DivUp(active, d.chunksPerSegment));
  }

  lemma SizesAtLeast(d: Desc, elementSize: nat, b: seq<nat>, active: nat, low: nat, high: nat)
    requires IsTable(d, elementSize, b) && IsCut(b, active, d.chunksPerSegment, low, high) && |d.sizes| > 0
    ensures d.sizes[0] == low * elementSize
    ensures forall c :: 0 <= c < |d.sizes| ==> low * elementSize <= d.sizes[c] <= high * elementSize
  {
    DivModIs(0, d.chunksPerSegment, 0, 0);
    assert EntryOk(d, elementSize, b, 0);
    forall c | 0 <= c < |d.sizes| ensures low * elementSize <= d.sizes[c] <= high * elementSize {
      assert EntryOk(d, elementSize, b, c);
      var i := c % d.chunksPerSegment;
      DivModDef(c, d.chunksPerSegment);
      MulAtLeast(low, b[i + 1] - b[i], elementSize);
      MulAtLeast(b[i + 1] - b[i], high, elementSize);
    }
  }

  /** `chunkBytesForKey`: what a node that writes `b` copies. */
  function ChunkBytes(b: Base, chunkSize: nat, inputSizes: seq<nat>, outputSizes: seq<nat>): nat {
    match b.space
    case Input => if b.chunk < |inputSizes| then inputSizes[b.chunk] else chunkSize
    case Output => if b.chunk < |outputSizes| then outputSizes[b.chunk] else chunkSize
    case Scratch => if b.chunk < |outputSizes| then outputSizes[b.chunk] else chunkSize
    case _ => chunkSize
  }

  /** A copy into a device chunk of the table moves exactly the chunk; every other one, and those into
      host and staging chunks, the maximal size. */
  lemma CopiesTheChunk(d: Desc, elementSize: nat, b: seq<nat>, s: nat, i: nat, c: nat, owner: nat, chunkSize: nat,
                       others: seq<nat>)
    requires IsTable(d, elementSize, b) && i < d.chunksPerSegment && c == s * d.chunksPerSegment + i && c < |d.sizes|
    ensures ChunkBytes(Base(Input, owner, c), chunkSize, d.sizes, others) == b[i + 1] * elementSize - b[i] * elementSize
    ensures ChunkBytes(Base(Output, owner, c), chunkSize, others, d.sizes) ==
            b[i + 1] * elementSize - b[i] * elementSize
    ensures ChunkBytes(Base(Scratch, owner, c), chunkSize, others, d.sizes) ==
            b[i + 1] * elementSize - b[i] * elementSize
    ensures forall x: nat :: x >= |d.sizes| ==>
            ChunkBytes(Base(Input, owner, x), chunkSize, d.sizes, others) == chunkSize
    ensures forall x: nat :: x >= |d.sizes| ==>
            ChunkBytes(Base(Output, owner, x), chunkSize, others, d.sizes) == chunkSize
    ensures forall x :: ChunkBytes(Base(Host, owner, x), chunkSize, d.sizes, others) == chunkSize
    ensures forall x :: ChunkBytes(Base(Internal, owner, x), chunkSize, d.sizes, others) == chunkSize
  {
    ChunkAt(d, elementSize, b, s, i, c);
  }

  /** Every copy of a graph fills all its slices exactly when every device chunk does. */
  lemma AllCopiesFull(chunkSize: nat, inputSizes: seq<nat>, outputSizes: seq<nat>)
    requires chunkSize > 0
    ensures (forall b ::
            ChunkBytes(b, chunkSize, inputSizes, outputSizes) > (SliceCount(chunkSize) - 1) * SLICE_BYTES) <==>
            (forall c :: 0 <= c < |inputSizes| ==> inputSizes[c] > (SliceCount(chunkSize) - 1) * SLICE_BYTES) &&
            (forall c :: 0 <= c < |outputSizes| ==> outputSizes[c] > (SliceCount(chunkSize) - 1) * SLICE_BYTES)
  {
    if forall b :: ChunkBytes(b, chunkSize, inputSizes, outputSizes) > (SliceCount(chunkSize) - 1) * SLICE_BYTES {
      forall c | 0 <= c < |inputSizes| ensures inputSizes[c] > (SliceCount(chunkSize) - 1) * SLICE_BYTES {
        assert ChunkBytes(Base(Input, 0, c), chunkSize, inputSizes, outputSizes) == inputSizes[c];
      }
      forall c | 0 <= c < |outputSizes| ensures outputSizes[c] > (SliceCount(chunkSize) - 1) * SLICE_BYTES {
        assert ChunkBytes(Base(Output, 0, c), chunkSize, inputSizes, outputSizes) == outputSizes[c];
      }
    }
  }

  /** An everyday size that fails it: 524289 four-byte elements in two chunks. The first chunk is
      exactly one slice long, the second four bytes longer, so the first has an empty second slice. */
  lemma OneElementTooMany()
    ensures SliceCount(MaxChunkBytes(524289, 4, 2)) == 2
    ensures (524289 / 2) * 4 == SLICE_BYTES
  {
  }
}
