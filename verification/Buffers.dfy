/** Writing blocks into flat buffers, and when the order of the writes does not matter. */
module Buffers {
  import opened Arith

  /** `xs` written at element offset `off`. */
  datatype Write<V> = Write(off: nat, xs: seq<V>)

  predicate Fits<V>(w: Write<V>, size: nat) {
    w.off + |w.xs| <= size
  }

  function Put<V>(s: seq<V>, w: Write<V>): (r: seq<V>)
    requires Fits(w, |s|)
    ensures |r| == |s|
  {
    s[..w.off] + w.xs + s[w.off + |w.xs|..]
  }

  predicate Holds<V(==)>(s: seq<V>, w: Write<V>) {
    Fits(w, |s|) && s[w.off..w.off + |w.xs|] == w.xs
  }

  ghost predicate AllFit<V>(ws: seq<Write<V>>, size: nat) {
    forall i :: 0 <= i < |ws| ==> Fits(ws[i], size)
  }

  /** Memory after the writes, in list order. */
  ghost function Apply<V>(s: seq<V>, ws: seq<Write<V>>): (r: seq<V>)
    requires AllFit(ws, |s|)
    ensures |r| == |s|
  {
    if |ws| == 0 then s else Put(Apply(s, ws[..|ws| - 1]), ws[|ws| - 1])
  }

  predicate Apart<V>(a: Write<V>, b: Write<V>) {
    a.off + |a.xs| <= b.off || b.off + |b.xs| <= a.off
  }

  ghost predicate AllApart<V>(ws: seq<Write<V>>) {
    forall i, j :: 0 <= i < j < |ws| ==> Apart(ws[i], ws[j])
  }

  lemma PutHolds<V>(s: seq<V>, w: Write<V>)
    requires Fits(w, |s|)
    ensures Holds(Put(s, w), w)
  {
  }

  lemma PutKeeps<V>(s: seq<V>, w: Write<V>, v: Write<V>)
    requires Fits(w, |s|) && Holds(s, v) && Apart(v, w)
    ensures Holds(Put(s, w), v)
  {
    var r := Put(s, w);
    forall i | v.off <= i < v.off + |v.xs| ensures r[i] == s[i] {
    }
    assert r[v.off..v.off + |v.xs|] == s[v.off..v.off + |v.xs|];
  }

  /** Writes that do not overlap all stay visible, whatever their order. */
  lemma {:induction false} AllHold<V>(s: seq<V>, ws: seq<Write<V>>, i: nat)
    requires AllFit(ws, |s|) && AllApart(ws) && i < |ws|
    ensures Holds(Apply(s, ws), ws[i])
  {
    var n := |ws| - 1;
    if i == n {
      PutHolds(Apply(s, ws[..n]), ws[n]);
    } else {
      AllHold(s, ws[..n], i);
      PutKeeps(Apply(s, ws[..n]), ws[n], ws[i]);
    }
  }

  lemma InListHolds<V>(s: seq<V>, ws: seq<Write<V>>, b: Write<V>)
    requires AllFit(ws, |s|) && AllApart(ws) && b in ws
    ensures Holds(Apply(s, ws), b)
  {
    var i :| 0 <= i < |ws| && ws[i] == b;
    AllHold(s, ws, i);
  }

  // ---- Blocks of equal length ----

  ghost predicate Blocks<V>(blocks: seq<seq<V>>, count: nat) {
    forall j :: 0 <= j < |blocks| ==> |blocks[j]| == count
  }

  function Concat<V>(blocks: seq<seq<V>>): seq<V> {
    if |blocks| == 0 then [] else Concat(blocks[..|blocks| - 1]) + blocks[|blocks| - 1]
  }

  lemma ConcatNext<V>(blocks: seq<seq<V>>, k: nat)
    requires k < |blocks|
    ensures Concat(blocks[..k + 1]) == Concat(blocks[..k]) + blocks[k]
  {
    assert blocks[..k + 1][..k] == blocks[..k];
  }

  lemma {:induction false} ConcatHas<V>(blocks: seq<seq<V>>, x: V)
    ensures x in Concat(blocks) <==> exists j :: 0 <= j < |blocks| && x in blocks[j]
  {
    if |blocks| > 0 {
      ConcatHas(blocks[..|blocks| - 1], x);
    }
  }

  lemma {:induction false} ConcatLength<V>(blocks: seq<seq<V>>, count: nat)
    requires Blocks(blocks, count)
    ensures |Concat(blocks)| == |blocks| * count
  {
    if |blocks| > 0 {
      ConcatLength(blocks[..|blocks| - 1], count);
    }
  }

  /** Block `j` stands at `j * count`. */
  predicate InPlace<V(==)>(s: seq<V>, blocks: seq<seq<V>>, count: nat, j: nat)
    requires j < |blocks|
  {
    Holds(s, Write(j * count, blocks[j]))
  }

  ghost predicate AllInPlace<V>(s: seq<V>, blocks: seq<seq<V>>, count: nat) {
    forall j :: 0 <= j < |blocks| ==> InPlace(s, blocks, count, j)
  }

  lemma {:induction false} ConcatBlock<V>(blocks: seq<seq<V>>, count: nat, j: nat)
    requires Blocks(blocks, count) && j < |blocks|
    ensures InPlace(Concat(blocks), blocks, count, j)
  {
    var n := |blocks| - 1;
    var front := blocks[..n];
    ConcatLength(front, count);
    if j < n {
      ConcatBlock(front, count, j);
      EarlierBlock(Concat(front), blocks[n], blocks, count, j);
    } else {
      HoldsAtEnd(Concat(front), blocks[n], n * count);
    }
  }

  lemma EarlierBlock<V>(s: seq<V>, more: seq<V>, blocks: seq<seq<V>>, count: nat, j: nat)
    requires j < |blocks| - 1 && InPlace(s, blocks[..|blocks| - 1], count, j)
    ensures InPlace(s + more, blocks, count, j)
  {
    HoldsBefore(s, more, Write(j * count, blocks[j]));
  }

  lemma HoldsAtEnd<V>(s: seq<V>, more: seq<V>, at: nat)
    requires |s| == at
    ensures Holds(s + more, Write(at, more))
  {
  }

  lemma HoldsBefore<V>(s: seq<V>, more: seq<V>, w: Write<V>)
    requires Holds(s, w)
    ensures Holds(s + more, w)
  {
    assert (s + more)[w.off..w.off + |w.xs|] == s[w.off..w.off + |w.xs|];
  }

  lemma HoldsInPrefix<V>(s: seq<V>, n: nat, w: Write<V>)
    requires Holds(s, w) && w.off + |w.xs| <= n <= |s|
    ensures Holds(s[..n], w)
  {
    assert s[..n][w.off..w.off + |w.xs|] == s[w.off..w.off + |w.xs|];
  }

  /** A buffer that holds every block in its place is their concatenation. */
  lemma {:induction false} BlocksCover<V>(s: seq<V>, blocks: seq<seq<V>>, count: nat)
    requires Blocks(blocks, count) && |s| == |blocks| * count && AllInPlace(s, blocks, count)
    ensures s == Concat(blocks)
  {
    if |blocks| > 0 {
      var n := |blocks| - 1;
      var at := n * count;
      NextMultiple(n, n + 1, count);
      assert InPlace(s, blocks, count, n);
      EndsWith(s, at, blocks[n]);
      forall j | 0 <= j < n ensures InPlace(s[..at], blocks[..n], count, j) {
        assert InPlace(s, blocks, count, j);
        BlockBefore(s, blocks[j], j, n, count, at);
      }
      BlocksCover(s[..at], blocks[..n], count);
    }
  }

  lemma EndsWith<V>(s: seq<V>, at: nat, xs: seq<V>)
    requires Holds(s, Write(at, xs)) && |s| == at + |xs|
    ensures s == s[..at] + xs
  {
  }

  lemma BlockBefore<V>(s: seq<V>, block: seq<V>, j: nat, n: nat, count: nat, at: nat)
    requires |block| == count && j < n && at == n * count && at <= |s| && Holds(s, Write(j * count, block))
    ensures Holds(s[..at], Write(j * count, block))
  {
    NextMultiple(j, n, count);
    HoldsInPrefix(s, at, Write(j * count, block));
  }

  /** Element `x` of block `j` stands `j` whole blocks further. */
  lemma ConcatAt<V>(blocks: seq<seq<V>>, count: nat, j: nat, x: nat)
    requires Blocks(blocks, count) && j < |blocks| && x < count
    ensures |Concat(blocks)| == |blocks| * count
    ensures j * count + x < |Concat(blocks)| && Concat(blocks)[j * count + x] == blocks[j][x]
  {
    ConcatLength(blocks, count);
    ConcatBlock(blocks, count, j);
    var all, at := Concat(blocks), j * count;
    assert all[at + x] == all[at..at + count][x];
  }
}
