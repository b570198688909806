/** Logical host chunks of a NUMA node are packed into physical slots 0 to k - 1 of the staging
    region, and host addresses are resolved through that map. */
module HostChunks {
  import opened Ir
  import opened Arith
  import opened Slices
  import HostStaging

  /** Host chunks of `numa` that the map covers. */
  ghost predicate Used(keys: seq<Key>, numa: nat, chunk: nat) {
    UsedBefore(keys, numa, chunk, |keys|)
  }

  ghost predicate UsedBefore(keys: seq<Key>, numa: nat, chunk: nat, n: nat)
    requires n <= |keys|
  {
    chunk < MAX_CHUNKS && exists i :: 0 <= i < n && IsKeyOf(keys[i], numa, chunk)
  }

  predicate IsKeyOf(k: Key, numa: nat, chunk: nat) {
    k.base.space == Host && k.base.owner == numa && k.base.chunk == chunk
  }

  predicate Increasing(s: seq<nat>) {
    forall i, j :: 0 <= i < j < |s| ==> s[i] < s[j]
  }

  /** Sorting and removing duplicates. */
  method SortUnique(chunks: seq<nat>) returns (sorted: seq<nat>)
    ensures Increasing(sorted)
    ensures forall c :: c in sorted <==> c in chunks
  {
    sorted := [];
    for i := 0 to |chunks|
      invariant Increasing(sorted)
      invariant forall c :: c in sorted <==> c in chunks[..i]
    {
      ghost var before := sorted;
      sorted := InsertUnique(sorted, chunks[i]);
      assert chunks[..i + 1] == chunks[..i] + [chunks[i]];
    }
    assert chunks[..|chunks|] == chunks;
  }

  method InsertUnique(s: seq<nat>, x: nat) returns (r: seq<nat>)
    requires Increasing(s)
    ensures Increasing(r)
    ensures forall c :: c in r <==> c in s || c == x
  {
    var i := 0;
    while i < |s| && s[i] < x
      invariant 0 <= i <= |s| && forall j :: 0 <= j < i ==> s[j] < x
    {
      i := i + 1;
    }
    if i < |s| && s[i] == x {
      r := s;
    } else {
      r := s[..i] + [x] + s[i..];
      InsertedIncreases(s, i, x, r);
      InsertedHas(s, i, x, r);
    }
  }

  lemma InsertedIncreases(s: seq<nat>, i: nat, x: nat, r: seq<nat>)
    requires Increasing(s) && i <= |s| && r == s[..i] + [x] + s[i..]
    requires (forall j :: 0 <= j < i ==> s[j] < x) && (i < |s| ==> x < s[i])
    ensures Increasing(r)
  {
    forall j, k | 0 <= j < k < |r| ensures r[j] < r[k] {
      assert j < i ==> r[j] == s[j];
      assert k < i ==> r[k] == s[k];
      assert j > i ==> r[j] == s[j - 1];
      assert k > i ==> r[k] == s[k - 1];
    }
  }

  lemma InsertedHas(s: seq<nat>, i: nat, x: nat, r: seq<nat>)
    requires i <= |s| && r == s[..i] + [x] + s[i..]
    ensures forall c :: c in r <==> c in s || c == x
  {
    assert s == s[..i] + s[i..];
  }

  /** -1 marks chunks the node does not use; the used ones get their position in sorted order. */
  ghost predicate IsDenseMap(remap: seq<int>, keys: seq<Key>, numa: nat, k: nat) {
    && |remap| == MAX_CHUNKS && k <= MAX_CHUNKS
    && (forall c :: 0 <= c < MAX_CHUNKS ==> (remap[c] >= 0 <==> Used(keys, numa, c)))
    && (forall c :: 0 <= c < MAX_CHUNKS ==> -1 <= remap[c] < k)
    && (forall c, d :: 0 <= c < d < MAX_CHUNKS && remap[c] >= 0 && remap[d] >= 0 ==> remap[c] < remap[d])
    && (forall slot :: 0 <= slot < k ==> Taken(remap, slot))
  }

  ghost predicate Taken(remap: seq<int>, slot: nat) {
    exists c :: 0 <= c < |remap| && remap[c] == slot
  }

  method BuildDenseHostChunkMap(keys: seq<Key>, numa: nat) returns (remap: seq<int>, k: nat)
    ensures IsDenseMap(remap, keys, numa, k)
  {
    var logical: seq<nat> := [];
    for i := 0 to |keys|
      invariant forall c: nat :: c in logical <==> UsedBefore(keys, numa, c, i)
    {
      var key := keys[i];
      ghost var before := logical;
      if key.base.space == Host && key.base.owner == numa && key.base.chunk < MAX_CHUNKS {
        logical := logical + [key.base.chunk];
      }
      forall c: nat ensures c in logical <==> UsedBefore(keys, numa, c, i + 1) {
        assert c in logical <==> c in before || (c < MAX_CHUNKS && IsKeyOf(keys[i], numa, c));
        UsedNext(keys, numa, c, i);
      }
    }
    var sorted := SortUnique(logical);
    remap, k := Number(sorted, keys, numa);
  }

  lemma UsedNext(keys: seq<Key>, numa: nat, c: nat, i: nat)
    requires i < |keys|
    ensures UsedBefore(keys, numa, c, i + 1) <==>
            UsedBefore(keys, numa, c, i) || (c < MAX_CHUNKS && IsKeyOf(keys[i], numa, c))
  {
  }

  /** The used chunks, in order, get the slots from zero on. */
  method Number(sorted: seq<nat>, ghost keys: seq<Key>, ghost numa: nat) returns (remap: seq<int>, k: nat)
    requires Increasing(sorted) && forall c :: c in sorted <==> Used(keys, numa, c)
    ensures IsDenseMap(remap, keys, numa, k)
  {
    remap := seq(MAX_CHUNKS, i => -1);
    k := |sorted|;
    forall s | 0 <= s < |sorted| ensures sorted[s] < MAX_CHUNKS {
      assert sorted[s] in sorted;
    }
    for slot := 0 to |sorted|
      invariant |remap| == MAX_CHUNKS
      invariant forall s :: 0 <= s < slot ==> remap[sorted[s]] == s
      invariant forall c :: 0 <= c < MAX_CHUNKS ==> remap[c] == -1 || (0 <= remap[c] < slot && sorted[remap[c]] == c)
    {
      remap := remap[sorted[slot] := slot];
    }
    MapIsDense(remap, sorted, keys, numa);
  }

  lemma MapIsDense(remap: seq<int>, sorted: seq<nat>, keys: seq<Key>, numa: nat)
    requires |remap| == MAX_CHUNKS && Increasing(sorted) && forall c :: c in sorted <==> Used(keys, numa, c)
    requires forall s :: 0 <= s < |sorted| ==> sorted[s] < MAX_CHUNKS && remap[sorted[s]] == s
    requires forall c :: 0 <= c < MAX_CHUNKS ==> remap[c] == -1 || (0 <= remap[c] < |sorted| && sorted[remap[c]] == c)
    ensures IsDenseMap(remap, keys, numa, |sorted|)
  {
    IncreasingBound(sorted, MAX_CHUNKS);
    forall c | 0 <= c < MAX_CHUNKS ensures remap[c] >= 0 <==> Used(keys, numa, c) {
      if remap[c] >= 0 {
        assert sorted[remap[c]] in sorted;
      }
    }
    forall slot | 0 <= slot < |sorted| ensures Taken(remap, slot) {
      assert remap[sorted[slot]] == slot;
    }
    forall c, d | 0 <= c < d < MAX_CHUNKS && remap[c] >= 0 && remap[d] >= 0 ensures remap[c] < remap[d] {
      assert !(remap[d] < remap[c]) && remap[c] != remap[d];
    }
  }

  lemma {:induction false} IncreasingBound(s: seq<nat>, n: nat)
    requires Increasing(s) && forall i :: 0 <= i < |s| ==> s[i] < n
    ensures |s| <= n
  {
    if |s| > 0 {
      IncreasingBound(s[..|s| - 1], s[|s| - 1]);
    }
  }

  // ---- Host addresses ----

  /** Offset of a slice of a host chunk from the start of the node's region. */
  function Resolve(remap: seq<int>, chunkSize: nat, chunk: nat, sc: nat): Option<nat> {
    if chunk < |remap| && remap[chunk] >= 0 then Some(remap[chunk] * chunkSize + sc * SLICE_BYTES) else None
  }

  /** A host address resolves exactly for used chunks, the bytes of its slice lie in the part of
      the region the work asked for, and two chunks never share a byte. */
  lemma HostBytesInside(remap: seq<int>, keys: seq<Key>, numa: nat, k: nat, chunkSize: nat, workBytes: nat,
                        chunk: nat, sc: nat, bytes: nat)
    requires IsDenseMap(remap, keys, numa, k) && workBytes <= chunkSize && chunk < MAX_CHUNKS
    requires bytes > 0 && sc * SLICE_BYTES + bytes <= workBytes
    ensures Resolve(remap, chunkSize, chunk, sc).Some? <==> Used(keys, numa, chunk)
    ensures Resolve(remap, chunkSize, chunk, sc).Some? ==>
      && remap[chunk] * chunkSize <= Resolve(remap, chunkSize, chunk, sc).value
      && Resolve(remap, chunkSize, chunk, sc).value + bytes <= (remap[chunk] + 1) * chunkSize <= k * chunkSize
  {
    if remap[chunk] >= 0 {
      MulAtLeast(remap[chunk] + 1, k, chunkSize);
      assert (remap[chunk] + 1) * chunkSize == remap[chunk] * chunkSize + chunkSize;
    }
  }

  /** So whatever a rank that holds the lease reads or writes through a host address lies inside
      its communicator's region, away from every other communicator's. */
  lemma HostAddressInLease(needs: HostStaging.Needs, caps: seq<nat>, steps: seq<HostStaging.Action>,
                           s: HostStaging.State,
                           c: nat, r: nat, d: nat, remap: seq<int>, keys: seq<Key>, numa: nat, k: nat,
                           chunkSize: nat, workBytes: nat, chunk: nat, sc: nat, bytes: nat)
    requires |caps| == MAX_NUMA_NODES && HostStaging.Reaches(needs, caps, steps, s)
    requires HostStaging.Known(s, c, r) && s.ranks[c][r].phase == HostStaging.Holding
    requires numa < MAX_NUMA_NODES && d < |s.ranks| && d != c
    requires IsDenseMap(remap, keys, numa, k) && workBytes <= chunkSize && chunk < MAX_CHUNKS
    requires bytes > 0 && sc * SLICE_BYTES + bytes <= workBytes && Resolve(remap, chunkSize, chunk, sc).Some?
    requires |needs(c, s.ranks[c][r].cycle)| == MAX_NUMA_NODES ==> needs(c, s.ranks[c][r].cycle)[numa] == k * chunkSize
    ensures |s.ranks[c][r].offsets| == MAX_NUMA_NODES && HostStaging.TableOk(s.table, |s.ranks|)
    ensures var address := s.ranks[c][r].offsets[numa] + Resolve(remap, chunkSize, chunk, sc).value;
      && s.table[numa][c].offset <= address && address + bytes <= s.table[numa][c].offset + s.table[numa][c].bytes
      && address + bytes <= caps[numa]
      && !HostStaging.Overlap(address, bytes, s.table[numa][d])
  {
    HostStaging.HeldRegionIsSafe(needs, caps, steps, s, c, r, numa, d);
    HostBytesInside(remap, keys, numa, k, chunkSize, workBytes, chunk, sc, bytes);
    AddressInside(s.table[numa][c], s.table[numa][d], k * chunkSize, caps[numa],
        Resolve(remap, chunkSize, chunk, sc).value, bytes);
  }

  /** Bytes in the asked-for part of a region that is in nobody's way are in nobody's way. */
  lemma AddressInside(region: HostStaging.Region, other: HostStaging.Region, asked: nat, capacity: nat, at: nat,
                      bytes: nat)
    requires region.bytes == HostStaging.AlignUp(asked) && at + bytes <= asked
    requires region.bytes > 0 ==>
             region.offset + region.bytes <= capacity && !HostStaging.Overlap(region.offset, region.bytes, other)
    requires bytes > 0
    ensures var address := region.offset + at;
      && address + bytes <= region.offset + region.bytes && address + bytes <= capacity
      && !HostStaging.Overlap(address, bytes, other)
  {
  }

  lemma HostChunksDisjoint(remap: seq<int>, keys: seq<Key>, numa: nat, k: nat, chunkSize: nat,
                           c: nat, sc: nat, bytes: nat, d: nat, sd: nat, bytes': nat)
    requires IsDenseMap(remap, keys, numa, k) && c < MAX_CHUNKS && d < MAX_CHUNKS && c != d
    requires bytes > 0 && sc * SLICE_BYTES + bytes <= chunkSize && bytes' > 0 && sd * SLICE_BYTES + bytes' <= chunkSize
    requires Resolve(remap, chunkSize, c, sc).Some? && Resolve(remap, chunkSize, d, sd).Some?
    ensures var x, y := Resolve(remap, chunkSize, c, sc).value, Resolve(remap, chunkSize, d, sd).value;
      x + bytes <= y || y + bytes' <= x
  {
    HostBytesInside(remap, keys, numa, k, chunkSize, chunkSize, c, sc, bytes);
    HostBytesInside(remap, keys, numa, k, chunkSize, chunkSize, d, sd, bytes');
    if c < d {
      MulAtLeast(remap[c] + 1, remap[d], chunkSize);
    } else {
      MulAtLeast(remap[d] + 1, remap[c], chunkSize);
    }
  }

  /** Slice 0 is at the start of the chunk's slot, and each next slice right after the one before. */
  lemma HostSlicesFollow(remap: seq<int>, keys: seq<Key>, numa: nat, k: nat, chunkSize: nat, chunk: nat, sc: nat)
    requires IsDenseMap(remap, keys, numa, k) && Used(keys, numa, chunk)
    ensures Resolve(remap, chunkSize, chunk, 0) == Some(remap[chunk] * chunkSize)
    ensures Resolve(remap, chunkSize, chunk, sc).Some?
    ensures Resolve(remap, chunkSize, chunk, sc + 1) ==
            Some(Resolve(remap, chunkSize, chunk, sc).value + SLICE_BYTES)
  {
  }

  /** Two different slices never share a byte, whether of one chunk or of two. */
  lemma HostSlicesDisjoint(remap: seq<int>, keys: seq<Key>, numa: nat, k: nat, chunkSize: nat,
                           c: nat, sc: nat, bytes: nat, d: nat, sd: nat, bytes': nat)
    requires IsDenseMap(remap, keys, numa, k) && Used(keys, numa, c) && Used(keys, numa, d) && (c, sc) != (d, sd)
    requires 0 < bytes <= SLICE_BYTES && sc * SLICE_BYTES + bytes <= chunkSize
    requires 0 < bytes' <= SLICE_BYTES && sd * SLICE_BYTES + bytes' <= chunkSize
    ensures Resolve(remap, chunkSize, c, sc).Some? && Resolve(remap, chunkSize, d, sd).Some?
    ensures var x, y := Resolve(remap, chunkSize, c, sc).value, Resolve(remap, chunkSize, d, sd).value;
      x + bytes <= y || y + bytes' <= x
  {
    if c != d {
      HostChunksDisjoint(remap, keys, numa, k, chunkSize, c, sc, bytes, d, sd, bytes');
    }
  }

  /** Byte `x` of the chunk's slot belongs to this slice of a copy of `workBytes` bytes. */
  predicate InSlice(remap: seq<int>, chunkSize: nat, chunk: nat, workBytes: nat, sc: nat, x: nat) {
    && Resolve(remap, chunkSize, chunk, sc).Some? && Resolve(remap, chunkSize, chunk, 0).Some?
    && var at := Resolve(remap, chunkSize, chunk, 0).value + x;
    && var begin := Resolve(remap, chunkSize, chunk, sc).value;
    begin <= at < begin + SliceSize(workBytes, sc)
  }

  /** The slices of a copy tile the first `workBytes` bytes of the slot. */
  lemma HostSlicesTile(remap: seq<int>, keys: seq<Key>, numa: nat, k: nat, chunkSize: nat, chunk: nat, workBytes: nat,
                       x: nat) returns (sc: nat)
    requires IsDenseMap(remap, keys, numa, k) && Used(keys, numa, chunk)
    ensures x < workBytes ==> InSlice(remap, chunkSize, chunk, workBytes, sc, x)
    ensures forall sd: nat :: InSlice(remap, chunkSize, chunk, workBytes, sd, x) ==> x < workBytes && sd == sc
  {
    sc := x / SLICE_BYTES;
    HostSlicesFollow(remap, keys, numa, k, chunkSize, chunk, sc);
  }
}
