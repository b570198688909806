/** Chunks are copied in slices of 1 MiB; the last one carries what is left. */
module Slices {
  import opened Ir

  function SliceSize(bytes: nat, sc: nat): nat {
    if sc * SLICE_BYTES >= bytes then 0 else Min(SLICE_BYTES, bytes - sc * SLICE_BYTES)
  }

  /** Slice `sc` of a chunk starts where slice `sc - 1` ended, and the non-empty slices end exactly
      with the chunk: every write stays in its chunk, hence off the reserved prefix. */
  lemma SlicesTileChunk(bytes: nat, sc: nat)
    ensures SliceSize(bytes, sc) > 0 ==> sc * SLICE_BYTES + SliceSize(bytes, sc) <= bytes
    ensures SliceSize(bytes, sc + 1) > 0 ==> SliceSize(bytes, sc) == SLICE_BYTES
    ensures SliceSize(bytes, sc) > 0 && SliceSize(bytes, sc + 1) == 0 ==>
            sc * SLICE_BYTES + SliceSize(bytes, sc) == bytes
  {
  }
}
