/** V collectives built from point-to-point calls. Every rank posts one send and one receive per
    peer inside a group; the library matches the send of p to q with the receive of q from p. */
module VCollectives {
  import opened Ir
  import opened Buffers
  import Hybrid

  /** What one rank passes to AllToAllV. */
  datatype Call<V> = Call(send: seq<V>, sendCounts: seq<nat>, sendDispls: seq<nat>, recvCounts: seq<nat>,
      recvDispls: seq<nat>)

  datatype Op<V> = Send(peer: nat, xs: seq<V>) | Recv(peer: nat, off: nat, count: nat)

  /** A rank's local copy and its posted group, or a rejected call. */
  datatype Posting<V> = Posted(own: Option<Write<V>>, ops: seq<Op<V>>) | InvalidArgument

  predicate CallOk<V>(c: Call<V>, n: nat) {
    && |c.sendCounts| == |c.sendDispls| == |c.recvCounts| == |c.recvDispls| == n
    && forall p :: 0 <= p < n ==> c.sendDispls[p] + c.sendCounts[p] <= |c.send|
  }

  /** The block rank `c` has for `peer`. */
  function BlockFor<V>(c: Call<V>, n: nat, peer: nat): seq<V>
    requires CallOk(c, n) && peer < n
  {
    c.send[c.sendDispls[peer]..c.sendDispls[peer] + c.sendCounts[peer]]
  }

  function SendTo<V>(c: Call<V>, n: nat, rank: nat, p: nat): seq<Op<V>>
    requires CallOk(c, n) && p < n
  {
    if p != rank && c.sendCounts[p] > 0 then [Send(p, BlockFor(c, n, p))] else []
  }

  function RecvFrom<V>(c: Call<V>, n: nat, rank: nat, p: nat): seq<Op<V>>
    requires CallOk(c, n) && p < n
  {
    if p != rank && c.recvCounts[p] > 0 then [Recv(p, c.recvDispls[p], c.recvCounts[p])] else []
  }

  function OpsFor<V>(c: Call<V>, n: nat, rank: nat, p: nat): seq<Op<V>>
    requires CallOk(c, n) && p < n
  {
    SendTo(c, n, rank, p) + RecvFrom(c, n, rank, p)
  }

  /** The operations for each peer, in rank order. */
  function PeerOps<V>(c: Call<V>, n: nat, rank: nat): (pieces: seq<seq<Op<V>>>)
    requires CallOk(c, n)
    ensures |pieces| == n && forall p :: 0 <= p < n ==> pieces[p] == OpsFor(c, n, rank, p)
  {
    seq(n, p requires 0 <= p < n && CallOk(c, n) => OpsFor(c, n, rank, p))
  }

  function Posts<V>(c: Call<V>, n: nat, rank: nat): Posting<V>
    requires CallOk(c, n) && rank < n
  {
    if c.sendCounts[rank] != c.recvCounts[rank] then InvalidArgument
    else Posted(if c.sendCounts[rank] > 0 then Some(Write(c.recvDispls[rank], BlockFor(c, n, rank)))
        else None, Concat(PeerOps(c, n, rank)))
  }

  /** What is posted for one peer; empty messages are not. */
  method PostPair<V>(ops: seq<Op<V>>, peer: nat, rank: nat, block: seq<V>, recvDispl: nat, recvCount: nat,
                     ghost c: Call<V>, ghost n: nat)
    returns (more: seq<Op<V>>)
    requires CallOk(c, n) && peer < n && block == BlockFor(c, n, peer) && |block| == c.sendCounts[peer]
    requires recvDispl == c.recvDispls[peer] && recvCount == c.recvCounts[peer]
    ensures more == ops + OpsFor(c, n, rank, peer)
  {
    more := ops;
    if peer != rank {
      if |block| > 0 {
        more := more + [Send(peer, block)];
      }
      if recvCount > 0 {
        more := more + [Recv(peer, recvDispl, recvCount)];
      }
    }
  }

  method AllToAllV<V>(c: Call<V>, n: nat, rank: nat) returns (p: Posting<V>)
    requires CallOk(c, n) && rank < n
    ensures p == Posts(c, n, rank)
  {
    if c.sendCounts[rank] != c.recvCounts[rank] {
      return InvalidArgument;
    }
    var own: Option<Write<V>> := None;
    if c.sendCounts[rank] > 0 {
      own := Some(Write(c.recvDispls[rank], BlockFor(c, n, rank)));
    }
    var ops: seq<Op<V>> := [];
    ghost var pieces := PeerOps(c, n, rank);
    for peer := 0 to n
      invariant ops == Concat(pieces[..peer])
    {
      ops := PostPair(ops, peer, rank, BlockFor(c, n, peer), c.recvDispls[peer], c.recvCounts[peer], c, n);
      ConcatNext(pieces, peer);
    }
    assert pieces[..n] == pieces;
    return Posted(own, ops);
  }

  /** AllGatherV is the AllToAllV in which a rank has the same block for everybody. */
  function GatherCall<V>(send: seq<V>, recvCounts: seq<nat>, recvDispls: seq<nat>): (c: Call<V>)
    requires |recvCounts| == |recvDispls|
    ensures CallOk(c, |recvCounts|)
    ensures forall p :: 0 <= p < |recvCounts| ==> BlockFor(c, |recvCounts|, p) == send && c.sendCounts[p] == |send|
  {
    Call(send, seq(|recvCounts|, p => |send|), seq(|recvCounts|, p => 0), recvCounts, recvDispls)
  }

  method AllGatherV<V>(send: seq<V>, recvCounts: seq<nat>, recvDispls: seq<nat>, rank: nat) returns (p: Posting<V>)
    requires |recvCounts| == |recvDispls| && rank < |recvCounts|
    ensures p == Posts(GatherCall(send, recvCounts, recvDispls), |recvCounts|, rank)
  {
    var n := |recvCounts|;
    if recvCounts[rank] != |send| {
      return InvalidArgument;
    }
    var own: Option<Write<V>> := None;
    if |send| > 0 {
      own := Some(Write(recvDispls[rank], send));
    }
    var ops: seq<Op<V>> := [];
    ghost var c := GatherCall(send, recvCounts, recvDispls);
    ghost var pieces := PeerOps(c, n, rank);
    for peer := 0 to n
      invariant ops == Concat(pieces[..peer])
    {
      ops := PostPair(ops, peer, rank, send, recvDispls[peer], recvCounts[peer], c, n);
      ConcatNext(pieces, peer);
    }
    assert pieces[..n] == pieces;
    return Posted(own, ops);
  }

  // ---- Matching pairs ----

  /** Each rank sends a peer at most one message, exactly its block if that is not empty, and
      expects at most one back. */
  lemma OpsAre<V>(c: Call<V>, n: nat, rank: nat, op: Op<V>)
    requires CallOk(c, n)
    ensures op in Concat(PeerOps(c, n, rank)) <==>
      && op.peer < n && op.peer != rank
      && match op
         case Send(p, xs) => c.sendCounts[p] > 0 && xs == BlockFor(c, n, p)
         case Recv(p, off, count) => c.recvCounts[p] > 0 && off == c.recvDispls[p] && count == c.recvCounts[p]
  {
    var pieces := PeerOps(c, n, rank);
    ConcatHas(pieces, op);
    if op.peer < n {
      assert op in pieces[op.peer] <==> op in OpsFor(c, n, rank, op.peer);
    }
  }

  predicate AllCallsOk<V>(calls: seq<Call<V>>) {
    forall p :: 0 <= p < |calls| ==> CallOk(calls[p], |calls|)
  }

  ghost function Group<V>(calls: seq<Call<V>>, p: nat): seq<Op<V>>
    requires AllCallsOk(calls) && p < |calls|
  {
    Concat(PeerOps(calls[p], |calls|, p))
  }

  lemma Sends<V>(calls: seq<Call<V>>, p: nat, q: nat, xs: seq<V>)
    requires AllCallsOk(calls) && p < |calls| && q < |calls| && p != q
    ensures Send(q, xs) in Group(calls, p) <==> calls[p].sendCounts[q] > 0 && xs == BlockFor(calls[p], |calls|, q)
  {
    OpsAre(calls[p], |calls|, p, Send(q, xs));
  }

  lemma Receives<V>(calls: seq<Call<V>>, p: nat, q: nat, off: nat, count: nat)
    requires AllCallsOk(calls) && p < |calls| && q < |calls| && p != q
    ensures Recv(p, off, count) in Group(calls, q) <==>
      calls[q].recvCounts[p] > 0 && off == calls[q].recvDispls[p] && count == calls[q].recvCounts[p]
  {
    OpsAre(calls[q], |calls|, q, Recv(p, off, count));
  }

  /** Some receive of q is for a message of this length from p. */
  ghost predicate Expects<V>(calls: seq<Call<V>>, q: nat, p: nat, count: nat)
    requires AllCallsOk(calls) && q < |calls|
  {
    exists off :: Recv(p, off, count) in Group(calls, q)
  }

  /** Some send of p is a message of this length to q. */
  ghost predicate Offers<V(!new)>(calls: seq<Call<V>>, p: nat, q: nat, count: nat)
    requires AllCallsOk(calls) && p < |calls|
  {
    exists xs :: |xs| == count && Send(q, xs) in Group(calls, p)
  }

  /** What p posts to q and what q expects from p fit together. */
  ghost predicate Matches<V(!new)>(calls: seq<Call<V>>, p: nat, q: nat)
    requires AllCallsOk(calls) && p < |calls| && q < |calls|
  {
    forall count :: Offers(calls, p, q, count) <==> Expects(calls, q, p, count)
  }

  lemma OffersExactly<V(!new)>(calls: seq<Call<V>>, p: nat, q: nat, count: nat)
    requires AllCallsOk(calls) && p < |calls| && q < |calls| && p != q
    ensures Offers(calls, p, q, count) <==> 0 < count == calls[p].sendCounts[q]
  {
    var block := BlockFor(calls[p], |calls|, q);
    Sends(calls, p, q, block);
    if Offers(calls, p, q, count) {
      var xs :| |xs| == count && Send(q, xs) in Group(calls, p);
      Sends(calls, p, q, xs);
    }
  }

  lemma ExpectsExactly<V>(calls: seq<Call<V>>, q: nat, p: nat, count: nat)
    requires AllCallsOk(calls) && p < |calls| && q < |calls| && p != q
    ensures Expects(calls, q, p, count) <==> 0 < count == calls[q].recvCounts[p]
  {
    Receives(calls, p, q, calls[q].recvDispls[p], count);
    if Expects(calls, q, p, count) {
      var off :| Recv(p, off, count) in Group(calls, q);
      Receives(calls, p, q, off, count);
    }
  }

  /** The posted sends and receives of two ranks pair up exactly when the counts they were called
      with agree. */
  lemma MatchesExactlyWhenCountsAgree<V(!new)>(calls: seq<Call<V>>, p: nat, q: nat)
    requires AllCallsOk(calls) && p < |calls| && q < |calls| && p != q
    ensures Matches(calls, p, q) <==> calls[p].sendCounts[q] == calls[q].recvCounts[p]
  {
    var sent, expected := calls[p].sendCounts[q], calls[q].recvCounts[p];
    forall count: nat ensures
        && (Offers(calls, p, q, count) <==> 0 < count == sent)
        && (Expects(calls, q, p, count) <==> 0 < count == expected) {
      OffersExactly(calls, p, q, count);
      ExpectsExactly(calls, q, p, count);
    }
    if Matches(calls, p, q) {
      assert Offers(calls, p, q, sent) <==> Expects(calls, q, p, sent);
      assert Offers(calls, p, q, expected) <==> Expects(calls, q, p, expected);
    }
  }

  // ---- Delivery ----

  /** Counts agree between every two ranks. */
  ghost predicate Consistent<V>(calls: seq<Call<V>>) {
    AllCallsOk(calls) &&
    forall p, q :: 0 <= p < |calls| && 0 <= q < |calls| ==> calls[p].sendCounts[q] == calls[q].recvCounts[p]
  }

  /** The message the library hands to a receive of `me` from `peer`: what `peer` posted to `me`. */
  ghost function Message<V(!new)>(calls: seq<Call<V>>, peer: nat, me: nat): seq<V>
    requires AllCallsOk(calls) && peer < |calls|
  {
    if xs :| Send(me, xs) in Group(calls, peer) then xs else []
  }

  predicate PeersBelow<V>(ops: seq<Op<V>>, n: nat) {
    forall i :: 0 <= i < |ops| ==> ops[i].peer < n
  }

  /** What the posted operations of `me` write once the group completes, in posting order. */
  ghost function Arrivals<V(!new)>(calls: seq<Call<V>>, me: nat, ops: seq<Op<V>>): seq<Write<V>>
    requires AllCallsOk(calls) && PeersBelow(ops, |calls|)
  {
    if |ops| == 0 then []
    else
      var last := ops[|ops| - 1];
      Arrivals(calls, me, ops[..|ops| - 1]) +
      if last.Recv? then [Write(last.off, Message(calls, last.peer, me))] else []
  }

  ghost function Block<V>(calls: seq<Call<V>>, p: nat, me: nat): Write<V>
    requires AllCallsOk(calls) && p < |calls| && me < |calls|
  {
    Write(calls[me].recvDispls[p], BlockFor(calls[p], |calls|, me))
  }

  lemma MessageIsBlock<V(!new)>(calls: seq<Call<V>>, p: nat, me: nat)
    requires Consistent(calls) && p < |calls| && me < |calls| && p != me && calls[p].sendCounts[me] > 0
    ensures Message(calls, p, me) == BlockFor(calls[p], |calls|, me)
  {
    Sends(calls, p, me, BlockFor(calls[p], |calls|, me));
    Sends(calls, p, me, Message(calls, p, me));
  }

  ghost function BlockFrom<V>(calls: seq<Call<V>>, me: nat, p: nat): seq<Write<V>>
    requires AllCallsOk(calls) && me < |calls| && p < |calls|
  {
    if p != me && calls[me].recvCounts[p] > 0 then [Block(calls, p, me)] else []
  }

  ghost function BlocksOf<V>(calls: seq<Call<V>>, me: nat, k: nat): seq<Write<V>>
    requires AllCallsOk(calls) && me < |calls| && k <= |calls|
  {
    if k == 0 then [] else BlocksOf(calls, me, k - 1) + BlockFrom(calls, me, k - 1)
  }

  lemma {:induction false} ArrivalsConcat<V(!new)>(calls: seq<Call<V>>, me: nat, a: seq<Op<V>>, b: seq<Op<V>>)
    requires AllCallsOk(calls)
    requires PeersBelow(a, |calls|) && PeersBelow(b, |calls|)
    ensures PeersBelow(a + b, |calls|) && Arrivals(calls, me, a + b) == Arrivals(calls, me, a) + Arrivals(calls, me, b)
  {
    if |b| == 0 {
      assert a + b == a;
    } else {
      var front := b[..|b| - 1];
      ArrivalsConcat(calls, me, a, front);
      assert (a + b)[..|a + b| - 1] == a + front;
    }
  }

  lemma OneArrival<V(!new)>(calls: seq<Call<V>>, me: nat, p: nat)
    requires Consistent(calls) && me < |calls| && p < |calls|
    ensures Brings(calls, me, SendTo(calls[me], |calls|, me, p), [])
    ensures Brings(calls, me, RecvFrom(calls[me], |calls|, me, p), BlockFrom(calls, me, p))
  {
    var n, c := |calls|, calls[me];
    var s, r := SendTo(c, n, me, p), RecvFrom(c, n, me, p);
    if |s| > 0 { assert s[..0] == []; }
    if |r| > 0 {
      assert r[..0] == [];
      MessageIsBlock(calls, p, me);
    }
  }

  /** A list of operations whose arrivals are these writes. */
  ghost predicate Brings<V(!new)>(calls: seq<Call<V>>, me: nat, ops: seq<Op<V>>, ws: seq<Write<V>>)
    requires AllCallsOk(calls)
  {
    PeersBelow(ops, |calls|) && Arrivals(calls, me, ops) == ws
  }

  lemma BringsMore<V(!new)>(calls: seq<Call<V>>, me: nat, a: seq<Op<V>>, b: seq<Op<V>>, xs: seq<Write<V>>,
                     ys: seq<Write<V>>)
    requires AllCallsOk(calls) && Brings(calls, me, a, xs) && Brings(calls, me, b, ys)
    ensures Brings(calls, me, a + b, xs + ys)
  {
    ArrivalsConcat(calls, me, a, b);
  }

  lemma PeerBrings<V(!new)>(calls: seq<Call<V>>, me: nat, p: nat)
    requires Consistent(calls) && me < |calls| && p < |calls|
    ensures Brings(calls, me, OpsFor(calls[me], |calls|, me, p), BlockFrom(calls, me, p))
  {
    OneArrival(calls, me, p);
    BringsMore(calls, me, SendTo(calls[me], |calls|, me, p), RecvFrom(calls[me], |calls|, me, p), [],
        BlockFrom(calls, me, p));
    assert [] + BlockFrom(calls, me, p) == BlockFrom(calls, me, p);
  }

  lemma {:induction false} AllBring<V(!new)>(calls: seq<Call<V>>, me: nat, pieces: seq<seq<Op<V>>>,
                                      writes: seq<seq<Write<V>>>)
    requires AllCallsOk(calls) && |pieces| == |writes|
    requires forall p :: 0 <= p < |pieces| ==> Brings(calls, me, pieces[p], writes[p])
    ensures Brings(calls, me, Concat(pieces), Concat(writes))
  {
    if |pieces| > 0 {
      var n := |pieces| - 1;
      AllBring(calls, me, pieces[..n], writes[..n]);
      BringsMore(calls, me, Concat(pieces[..n]), pieces[n], Concat(writes[..n]), writes[n]);
    }
  }

  ghost function PeerBlocks<V>(calls: seq<Call<V>>, me: nat): (pieces: seq<seq<Write<V>>>)
    requires AllCallsOk(calls) && me < |calls|
    ensures |pieces| == |calls| && forall p :: 0 <= p < |calls| ==> pieces[p] == BlockFrom(calls, me, p)
  {
    seq(|calls|, p requires 0 <= p < |calls| => BlockFrom(calls, me, p))
  }

  lemma {:induction false} BlocksOfIs<V>(calls: seq<Call<V>>, me: nat, k: nat)
    requires AllCallsOk(calls) && me < |calls| && k <= |calls|
    ensures BlocksOf(calls, me, k) == Concat(PeerBlocks(calls, me)[..k])
  {
    if k > 0 {
      BlocksOfIs(calls, me, k - 1);
      ConcatNext(PeerBlocks(calls, me), k - 1);
    }
  }

  lemma GroupBrings<V(!new)>(calls: seq<Call<V>>, me: nat)
    requires Consistent(calls) && me < |calls|
    ensures Brings(calls, me, Group(calls, me), BlocksOf(calls, me, |calls|))
  {
    var pieces, writes := PeerOps(calls[me], |calls|, me), PeerBlocks(calls, me);
    forall p | 0 <= p < |pieces| ensures Brings(calls, me, pieces[p], writes[p]) {
      PeerBrings(calls, me, p);
    }
    AllBring(calls, me, pieces, writes);
    BlocksOfIs(calls, me, |calls|);
    assert writes[..|calls|] == writes;
  }

  /** The blocks of different peers do not overlap in the receive buffer, and lie inside it. */
  ghost predicate RoomFor<V>(calls: seq<Call<V>>, me: nat, size: nat)
    requires AllCallsOk(calls) && me < |calls|
  {
    && (forall p :: 0 <= p < |calls| ==> Fits(Block(calls, p, me), size))
    && (forall p, q :: 0 <= p < |calls| && 0 <= q < |calls| && p != q ==>
        Apart(Block(calls, p, me), Block(calls, q, me)))
  }

  lemma {:induction false} BlocksOfFacts<V>(calls: seq<Call<V>>, me: nat, k: nat)
    requires AllCallsOk(calls) && me < |calls| && k <= |calls|
    ensures forall i :: 0 <= i < |BlocksOf(calls, me, k)| ==> IsBlock(BlocksOf(calls, me, k)[i], calls, me, k)
    ensures forall i, j :: 0 <= i < j < |BlocksOf(calls, me, k)| ==>
              OfTwoPeers(BlocksOf(calls, me, k)[i], BlocksOf(calls, me, k)[j], calls, me)
  {
    if k > 0 {
      BlocksOfFacts(calls, me, k - 1);
      var front, all := BlocksOf(calls, me, k - 1), BlocksOf(calls, me, k);
      if |BlockFrom(calls, me, k - 1)| > 0 {
        AppendBlock(calls, me, k, front, all);
      } else {
        assert all == front;
        forall i | 0 <= i < |all| ensures IsBlock(all[i], calls, me, k) {
          assert IsBlock(front[i], calls, me, k - 1);
        }
      }
    }
  }

  lemma {:induction false} BlocksOfHas<V>(calls: seq<Call<V>>, me: nat, k: nat, p: nat)
    requires AllCallsOk(calls) && me < |calls| && p < k <= |calls| && p != me && calls[me].recvCounts[p] > 0
    ensures Block(calls, p, me) in BlocksOf(calls, me, k)
  {
    if p < k - 1 {
      BlocksOfHas(calls, me, k - 1, p);
    }
  }

  lemma AppendBlock<V>(calls: seq<Call<V>>, me: nat, k: nat, front: seq<Write<V>>, all: seq<Write<V>>)
    requires AllCallsOk(calls) && me < |calls| && 0 < k <= |calls| && k - 1 != me &&
             all == front + [Block(calls, k - 1, me)]
    requires forall i :: 0 <= i < |front| ==> IsBlock(front[i], calls, me, k - 1)
    requires forall i, j :: 0 <= i < j < |front| ==> OfTwoPeers(front[i], front[j], calls, me)
    ensures forall i :: 0 <= i < |all| ==> IsBlock(all[i], calls, me, k)
    ensures forall i, j :: 0 <= i < j < |all| ==> OfTwoPeers(all[i], all[j], calls, me)
  {
    forall i | 0 <= i < |all| ensures IsBlock(all[i], calls, me, k) {
      if i < |front| {
        assert IsBlock(front[i], calls, me, k - 1);
      }
    }
    forall i, j | 0 <= i < j < |all| ensures OfTwoPeers(all[i], all[j], calls, me) {
      if j < |front| {
        assert OfTwoPeers(front[i], front[j], calls, me);
      } else {
        assert IsBlock(front[i], calls, me, k - 1);
      }
    }
  }

  ghost predicate OfTwoPeers<V>(a: Write<V>, b: Write<V>, calls: seq<Call<V>>, me: nat)
    requires AllCallsOk(calls) && me < |calls|
  {
    exists p, q :: 0 <= p < |calls| && 0 <= q < |calls| && p != q && p != me && q != me
      && a == Block(calls, p, me) && b == Block(calls, q, me)
  }

  ghost predicate IsBlock<V>(w: Write<V>, calls: seq<Call<V>>, me: nat, k: nat)
    requires AllCallsOk(calls) && me < |calls| && k <= |calls|
  {
    exists p :: 0 <= p < k && p != me && w == Block(calls, p, me)
  }

  /** The local copy and the group together deliver the V collective: after them the receive buffer
      holds every rank's block for this rank, in its place. */
  lemma DeliversV<V(!new)>(calls: seq<Call<V>>, me: nat, recv: seq<V>, p: nat)
    requires Consistent(calls) && me < |calls| && p < |calls| && RoomFor(calls, me, |recv|)
    ensures Posts(calls[me], |calls|, me).Posted?
    ensures PeersBelow(Group(calls, me), |calls|)
    ensures var posting := Posts(calls[me], |calls|, me);
      var ws := (match posting.own case Some(w) => [w] case None => []) + Arrivals(calls, me, posting.ops);
      AllFit(ws, |recv|) && Holds(Apply(recv, ws), Block(calls, p, me))
  {
    var n := |calls|;
    GroupBrings(calls, me);
    var own: seq<Write<V>> := if calls[me].sendCounts[me] > 0 then [Block(calls, me, me)] else [];
    var rest := BlocksOf(calls, me, n);
    BlocksOfFacts(calls, me, n);
    if p != me && calls[me].recvCounts[p] > 0 {
      BlocksOfHas(calls, me, n, p);
    }
    DeliveriesApart(calls, me, |recv|, own, rest);
    DeliversBlock(calls, me, recv, p, own, rest);
  }

  lemma DeliveriesApart<V>(calls: seq<Call<V>>, me: nat, size: nat, own: seq<Write<V>>, rest: seq<Write<V>>)
    requires Consistent(calls) && me < |calls| && RoomFor(calls, me, size)
    requires own == if calls[me].sendCounts[me] > 0 then [Block(calls, me, me)] else []
    requires forall i :: 0 <= i < |rest| ==> IsBlock(rest[i], calls, me, |calls|)
    requires forall i, j :: 0 <= i < j < |rest| ==> OfTwoPeers(rest[i], rest[j], calls, me)
    ensures AllFit(own + rest, size) && AllApart(own + rest)
  {
    var ws := own + rest;
    forall i | 0 <= i < |ws| ensures Fits(ws[i], size) {
      if i >= |own| {
        assert IsBlock(rest[i - |own|], calls, me, |calls|);
      }
    }
    forall i, j | 0 <= i < j < |ws| ensures Apart(ws[i], ws[j]) {
      if i < |own| {
        assert IsBlock(rest[j - |own|], calls, me, |calls|);
      } else {
        assert OfTwoPeers(rest[i - |own|], rest[j - |own|], calls, me);
      }
    }
  }

  lemma DeliversBlock<V>(calls: seq<Call<V>>, me: nat, recv: seq<V>, p: nat, own: seq<Write<V>>, rest: seq<Write<V>>)
    requires Consistent(calls) && me < |calls| && p < |calls| && RoomFor(calls, me, |recv|)
    requires AllFit(own + rest, |recv|) && AllApart(own + rest)
    requires own == if calls[me].sendCounts[me] > 0 then [Block(calls, me, me)] else []
    requires p != me && calls[me].recvCounts[p] > 0 ==> Block(calls, p, me) in rest
    ensures Holds(Apply(recv, own + rest), Block(calls, p, me))
  {
    var b := Block(calls, p, me);
    assert Fits(b, |recv|);
    if b in own + rest {
      InListHolds(recv, own + rest, b);
    } else {
      EmptyBlock(calls, p, me, own);
      EmptyHolds(Apply(recv, own + rest), b);
    }
  }

  lemma EmptyHolds<V>(s: seq<V>, b: Write<V>)
    requires b.xs == [] && b.off <= |s|
    ensures Holds(s, b)
  {
  }

  lemma EmptyBlock<V>(calls: seq<Call<V>>, p: nat, me: nat, own: seq<Write<V>>)
    requires Consistent(calls) && me < |calls| && p < |calls|
    requires own == if calls[me].sendCounts[me] > 0 then [Block(calls, me, me)] else []
    requires Block(calls, p, me) !in own && (p == me || calls[me].recvCounts[p] == 0)
    ensures Block(calls, p, me).xs == []
  {
  }

  // ---- ReduceScatterV ----

  /** One rooted reduction of `xs`, as one rank takes part in it. */
  datatype Reduction<V> = Reduction(root: nat, xs: seq<V>)

  function Reductions<V>(c: Call<V>, n: nat, k: nat): (rs: seq<Reduction<V>>)
    requires CallOk(c, n) && k <= n
    ensures |rs| == k && forall r :: 0 <= r < k ==> rs[r] == Reduction(r, BlockFor(c, n, r))
  {
    if k == 0 then [] else Reductions(c, n, k - 1) + [Reduction(k - 1, BlockFor(c, n, k - 1))]
  }

  method ReduceScatterV<V>(c: Call<V>, n: nat, rank: nat, recvCount: nat) returns (ok: bool, posted: seq<Reduction<V>>)
    requires CallOk(c, n) && rank < n
    ensures ok == (c.sendCounts[rank] == recvCount)
    ensures posted == if ok then Reductions(c, n, n) else []
  {
    posted := [];
    if c.sendCounts[rank] != recvCount {
      return false, [];
    }
    for root := 0 to n
      invariant posted == Reductions(c, n, root)
    {
      posted := posted + [Reduction(root, BlockFor(c, n, root))];
    }
    return true, posted;
  }

  ghost predicate SameShape<V>(a: seq<Reduction<V>>, b: seq<Reduction<V>>) {
    |a| == |b| && forall r :: 0 <= r < |a| ==> a[r].root == b[r].root && |a[r].xs| == |b[r].xs|
  }

  /** Two ranks take part in the same reductions, in the same order and with the same lengths,
      exactly when their count tables agree. */
  lemma ReductionsLineUp<V>(c: Call<V>, d: Call<V>, n: nat)
    requires CallOk(c, n) && CallOk(d, n)
    ensures SameShape(Reductions(c, n, n), Reductions(d, n, n)) <==> c.sendCounts == d.sendCounts
  {
    var a, b := Reductions(c, n, n), Reductions(d, n, n);
    forall r | 0 <= r < n ensures |a[r].xs| == c.sendCounts[r] && |b[r].xs| == d.sendCounts[r] &&
        a[r].root == b[r].root {
    }
    if SameShape(a, b) {
      forall r | 0 <= r < n ensures c.sendCounts[r] == d.sendCounts[r] {
        assert |a[r].xs| == |b[r].xs|;
      }
    }
  }

  function BlocksTo<V>(calls: seq<Call<V>>, me: nat): (blocks: seq<seq<V>>)
    requires AllCallsOk(calls) && me < |calls|
    ensures |blocks| == |calls| && forall q :: 0 <= q < |calls| ==> blocks[q] == BlockFor(calls[q], |calls|, me)
  {
    seq(|calls|, q requires 0 <= q < |calls| && CallOk(calls[q], |calls|) => BlockFor(calls[q], |calls|, me))
  }

  predicate SendsCount<V>(calls: seq<Call<V>>, me: nat, count: nat)
    requires AllCallsOk(calls) && me < |calls|
  {
    forall q :: 0 <= q < |calls| ==> calls[q].sendCounts[me] == count
  }

  /** The reduction rooted at `me`, element by element. */
  function ReducedBlocks<V>(calls: seq<Call<V>>, me: nat, reduce: seq<V> -> V, count: nat): (r: seq<V>)
    requires AllCallsOk(calls) && me < |calls| && SendsCount(calls, me, count)
    ensures |r| == count
  {
    var blocks := BlocksTo(calls, me);
    assert forall q :: 0 <= q < |blocks| ==> |blocks[q]| == calls[q].sendCounts[me];
    Hybrid.Reduced(blocks, reduce, 0, count)
  }

  /** Element `k` is the reduction of the ranks' `k`-th elements for this root, wherever they keep
      them. */
  lemma ReducedBlocksAt<V>(calls: seq<Call<V>>, me: nat, reduce: seq<V> -> V, count: nat, k: nat, col: seq<V>)
    requires AllCallsOk(calls) && me < |calls| && SendsCount(calls, me, count) && k < count && |col| == |calls|
    requires forall q :: 0 <= q < |calls| ==>
      calls[q].sendDispls[me] + k < |calls[q].send| && col[q] == calls[q].send[calls[q].sendDispls[me] + k]
    ensures ReducedBlocks(calls, me, reduce, count)[k] == reduce(col)
  {
    var blocks := BlocksTo(calls, me);
    forall q | 0 <= q < |calls| ensures |blocks[q]| == count && col[q] == blocks[q][0 + k] {
      assert CallOk(calls[q], |calls|);
    }
    Hybrid.ReducedAt(blocks, reduce, 0, count, k, col);
  }

  /** With equal blocks at equal places this is the ReduceScatter the hybrid split relies on. */
  lemma EqualBlocksAreReduceScatter<V>(calls: seq<Call<V>>, sends: seq<seq<V>>, reduce: seq<V> -> V, me: nat,
                                       off: nat, count: nat)
    requires |sends| == |calls| > me && AllCallsOk(calls) && SendsCount(calls, me, count)
    requires forall q :: 0 <= q < |calls| ==> calls[q].send == sends[q] && calls[q].sendDispls[me] == off
    ensures forall q :: 0 <= q < |sends| ==> off + count <= |sends[q]|
    ensures ReducedBlocks(calls, me, reduce, count) == Hybrid.Reduced(sends, reduce, off, count)
  {
    var blocks := BlocksTo(calls, me);
    forall q | 0 <= q < |sends|
      ensures off + count <= |sends[q]| && count == |blocks[q]| && blocks[q][0..0 + count] == sends[q][off..off + count]
    {
      assert CallOk(calls[q], |calls|);
    }
    Hybrid.ReducedShift(sends, blocks, reduce, off, 0, count);
  }

  /** So after an AllGatherV the receive buffer holds every rank's send buffer at the displacement
      given for that rank. */
  lemma GatherDelivers<V(!new)>(sends: seq<seq<V>>, recvCounts: seq<nat>, recvDispls: seq<nat>, me: nat, recv: seq<V>,
                                p: nat)
    requires |sends| == |recvCounts| == |recvDispls| && me < |sends| && p < |sends|
    requires forall q :: 0 <= q < |sends| ==> recvCounts[q] == |sends[q]| && recvDispls[q] + |sends[q]| <= |recv|
    requires forall q, r :: 0 <= q < |sends| && 0 <= r < |sends| && q != r ==>
      recvDispls[q] + |sends[q]| <= recvDispls[r] || recvDispls[r] + |sends[r]| <= recvDispls[q]
    ensures var calls := GatherCalls(sends, recvCounts, recvDispls);
      && AllCallsOk(calls) && PeersBelow(Group(calls, me), |calls|) && Posts(calls[me], |calls|, me).Posted?
      && var posting := Posts(calls[me], |calls|, me);
      var ws := (match posting.own case Some(w) => [w] case None => []) + Arrivals(calls, me, posting.ops);
      AllFit(ws, |recv|) && Holds(Apply(recv, ws), Write(recvDispls[p], sends[p]))
  {
    var calls := GatherCalls(sends, recvCounts, recvDispls);
    GatherIsConsistent(sends, recvCounts, recvDispls, calls);
    GatherHasRoom(sends, recvCounts, recvDispls, calls, me, |recv|);
    DeliversV(calls, me, recv, p);
    GatherBlock(sends, recvCounts, recvDispls, calls, p, me);
  }

  lemma GatherIsConsistent<V>(sends: seq<seq<V>>, recvCounts: seq<nat>, recvDispls: seq<nat>, calls: seq<Call<V>>)
    requires |sends| == |recvCounts| == |recvDispls| && calls == GatherCalls(sends, recvCounts, recvDispls)
    requires forall q :: 0 <= q < |sends| ==> recvCounts[q] == |sends[q]|
    ensures Consistent(calls)
  {
    forall p, q | 0 <= p < |calls| && 0 <= q < |calls| ensures calls[p].sendCounts[q] == calls[q].recvCounts[p] {
    }
  }

  lemma GatherBlock<V>(sends: seq<seq<V>>, recvCounts: seq<nat>, recvDispls: seq<nat>, calls: seq<Call<V>>, q: nat,
                       r: nat)
    requires |sends| == |recvCounts| == |recvDispls| && calls == GatherCalls(sends, recvCounts, recvDispls)
    requires q < |sends| && r < |sends| && AllCallsOk(calls)
    ensures Block(calls, q, r) == Write(recvDispls[q], sends[q])
  {
    assert BlockFor(calls[q], |calls|, r) == sends[q];
  }

  lemma GatherHasRoom<V>(sends: seq<seq<V>>, recvCounts: seq<nat>, recvDispls: seq<nat>, calls: seq<Call<V>>, me: nat,
                         size: nat)
    requires |sends| == |recvCounts| == |recvDispls| && calls == GatherCalls(sends, recvCounts, recvDispls)
    requires me < |sends| && AllCallsOk(calls)
    requires forall q :: 0 <= q < |sends| ==> recvDispls[q] + |sends[q]| <= size
    requires forall q, r :: 0 <= q < |sends| && 0 <= r < |sends| && q != r ==>
      recvDispls[q] + |sends[q]| <= recvDispls[r] || recvDispls[r] + |sends[r]| <= recvDispls[q]
    ensures RoomFor(calls, me, size)
  {
    forall q | 0 <= q < |calls| ensures Block(calls, q, me) == Write(recvDispls[q], sends[q]) {
      GatherBlock(sends, recvCounts, recvDispls, calls, q, me);
    }
  }

  function GatherCalls<V>(sends: seq<seq<V>>, recvCounts: seq<nat>, recvDispls: seq<nat>): (calls: seq<Call<V>>)
    requires |sends| == |recvCounts| == |recvDispls|
    ensures |calls| == |sends|
    ensures forall q :: 0 <= q < |calls| ==> calls[q] == GatherCall(sends[q], recvCounts, recvDispls)
  {
    seq(|sends|, q requires 0 <= q < |sends| && |recvCounts| == |recvDispls| =>
      GatherCall(sends[q], recvCounts, recvDispls))
  }
}
