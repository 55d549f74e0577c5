/**
 The receiving side of a connection: `handleDataPacket` of lib/connection.go with the
 out-of-order cache (`PacketGapMap`, lib/packet.go), the aging jump, `trimOutSackOption` and the
 drain into `readChannel`, as functions on values. `Connection.dfy` proves the methods against them.
 */
module Receiver {
  import opened Serial
  import opened Sack
  import opened Bytes

  /** The part of a data-phase packet that the transfer logic reads. */
  datatype Segment = Segment(seqNum: Seq32, ackNum: Seq32, payload: seq<byte>)

  /** One past the last payload byte, as an unbounded number. */
  function End(s: Segment): int {
    s.seqNum + |s.payload|
  }

  type Cache = map<Seq32, Segment>

  /** lastAckNumber and outSACKOption, revPacketCache, and everything put on readChannel so far. */
  datatype RecvState = RecvState(ack: AckState, cache: Cache, delivered: seq<Segment>)

  // ----- Ascending enumeration of the cache -----

  predicate StrictlyAscending(q: seq<int>) {
    forall i, j :: 0 <= i < j < |q| ==> q[i] < q[j]
  }

  /** The members of `keys` from n on, in increasing order. */
  function AscendingFrom(keys: set<Seq32>, n: nat): (q: seq<Seq32>)
    requires n <= MODULUS
    ensures forall i :: 0 <= i < |q| ==> n <= q[i] && q[i] in keys
    ensures StrictlyAscending(q)
    decreases MODULUS - n
  {
    if n == MODULUS then []
    else if n in keys then [n] + AscendingFrom(keys, n + 1)
    else AscendingFrom(keys, n + 1)
  }

  /** getPacketsInAscendingOrder: the keys of the cache in increasing order. */
  function Ascending(keys: set<Seq32>): (q: seq<Seq32>)
    ensures forall i :: 0 <= i < |q| ==> q[i] in keys
    ensures StrictlyAscending(q)
  {
    AscendingFrom(keys, 0)
  }

  lemma {:induction false} AscendingFromComplete(keys: set<Seq32>, n: nat, k: Seq32)
    requires n <= k && k in keys
    ensures k in AscendingFrom(keys, n)
    decreases MODULUS - n
  {
    if n < k {
      AscendingFromComplete(keys, n + 1, k);
    }
  }

  /** An ascending enumeration is determined by its elements. */
  lemma {:induction false} AscendingUnique(p: seq<int>, q: seq<int>)
    requires StrictlyAscending(p) && StrictlyAscending(q)
    requires forall k :: k in p <==> k in q
    ensures p == q
    decreases p
  {
    assert forall i :: 0 <= i < |q| ==> q[i] in q;
    if p != [] {
      assert p[0] in p;
      assert forall k :: k in p[1..] <==> k in p && k != p[0];
      assert forall k :: k in q[1..] <==> k in q && k != q[0];
      AscendingUnique(p[1..], q[1..]);
      assert p == [p[0]] + p[1..] && q == [q[0]] + q[1..];
    }
  }

  // ----- handleDataPacket -----

  /** The packet is neither below lastAckNumber nor, in reliable mode, already cached. */
  predicate Accepts(reliable: bool, r: RecvState, p: Segment) {
    r.ack.ack <= p.seqNum && (reliable ==> p.seqNum !in r.cache)
  }

  predicate AllCached(cache: Cache, keys: seq<Seq32>) {
    forall i :: 0 <= i < |keys| ==> keys[i] in cache
  }

  /** The right edge of the contiguous run that reaches `edge` and continues at keys[j]. */
  function RunEnd(cache: Cache, keys: seq<Seq32>, j: nat, edge: int): int
    requires j <= |keys| && AllCached(cache, keys)
    decreases |keys| - j
  {
    if j < |keys| && edge == keys[j] then
      RunEnd(cache, keys, j + 1, SeqIncrementBy(cache[keys[j]].seqNum, |cache[keys[j]].payload|))
    else
      edge
  }

  /**
   The aging scan over keys[..i], highest first. `aged` are the packets older than
   MaxResendCount * ResendInterval; the first one found may move the acknowledgment number over a hole.
   */
  function AgeScan(s: AckState, cache: Cache, keys: seq<Seq32>, aged: set<Seq32>, i: nat): AckState
    requires i <= |keys| && AllCached(cache, keys)
  {
    if i == 0 then s
    else if keys[i - 1] in aged then
      var last := cache[keys[i - 1]];
      var edge := RunEnd(cache, keys, i, SeqIncrementBy(last.seqNum, |last.payload|));
      if edge > s.ack then AckState(edge, Trim(s.blocks, edge)) else s
    else AgeScan(s, cache, keys, aged, i - 1)
  }

  /** How many leading keys lie below the acknowledgment number. */
  function ReadyCount(keys: seq<Seq32>, ack: int): (n: nat)
    ensures n <= |keys|
    ensures forall i :: 0 <= i < n ==> keys[i] < ack
    ensures n < |keys| ==> keys[n] >= ack
  {
    if keys != [] && keys[0] < ack then
      var n := ReadyCount(keys[1..], ack);
      assert forall i :: 0 < i < n + 1 ==> keys[i] == keys[1..][i - 1];
      n + 1
    else 0
  }

  function Packets(cache: Cache, keys: seq<Seq32>): (q: seq<Segment>)
    requires AllCached(cache, keys)
    ensures |q| == |keys| && forall i :: 0 <= i < |q| ==> q[i] == cache[keys[i]]
  {
    seq(|keys|, i requires 0 <= i < |keys| => cache[keys[i]])
  }

  function Without(cache: Cache, keys: seq<Seq32>): Cache {
    map k | k in cache && k !in keys :: cache[k]
  }

  /** Hand every leading packet below the acknowledgment number to the reader. */
  function Drain(s: AckState, cache: Cache, keys: seq<Seq32>, delivered: seq<Segment>): RecvState
    requires AllCached(cache, keys)
  {
    var ready := keys[..ReadyCount(keys, s.ack)];
    RecvState(s, Without(cache, ready), delivered + Packets(cache, ready))
  }

  /** handleDataPacket once the packet is accepted in reliable mode. */
  function Absorb(r: RecvState, p: Segment, aged: set<Seq32>): RecvState {
    var s := Update(Circle, r.ack, p.seqNum, |p.payload|);
    var cache := r.cache[p.seqNum := p];
    var keys := Ascending(cache.Keys);
    Drain(AgeScan(s, cache, keys, aged, |keys|), cache, keys, r.delivered)
  }

  /** handleDataPacket without SACK or retransmission. */
  function PassThrough(r: RecvState, p: Segment): RecvState {
    var ack :=
      if IsGreaterOrEqual(p.seqNum, Wire(r.ack.ack)) then SeqIncrementBy(p.seqNum, |p.payload|) else r.ack.ack;
    RecvState(AckState(ack, r.ack.blocks), r.cache, r.delivered + [p])
  }

  function HandleData(reliable: bool, r: RecvState, p: Segment, aged: set<Seq32>): RecvState {
    if !Accepts(reliable, r, p) then r
    else if reliable then Absorb(r, p, aged)
    else PassThrough(r, p)
  }
}
