/**
 The sending side of a connection as functions on values: segmentation in `Write`, the map of
 unacknowledged segments (`ResendPackets`, lib/packet.go), its pruning by acknowledgments, and the
 retransmission round (lib/connection.go, lib/pconn.go).
 */
module Sender {
  import opened Serial
  import opened Bytes
  import opened Sack
  import opened Receiver

  /** PacketInfo: a sent segment, how often it was resent, and when it was last sent. */
  datatype Sent = Sent(segment: Segment, resendCount: nat, lastSent: int)

  type ResendMap = map<Seq32, Sent>

  /** nextSequenceNumber, resendPackets, inSACKOption, and the packets queued on outputChan. */
  datatype SendState = SendState(next: Seq32, resend: ResendMap, inSack: seq<Block>, out: seq<Segment>)

  type Mss = x: int | 0 < x < 0x1_0000 witness 1

  function Flatten(q: seq<Segment>): seq<byte> {
    if q == [] then [] else Flatten(q[..|q| - 1]) + q[|q| - 1].payload
  }

  // ----- Write -----

  /**
   The packets Write queues for a buffer. `room` is how many payload chunks the pool still hands
   out; the loop stops early when it runs dry.
   */
  function Cut(next: Seq32, ack: Seq32, mss: Mss, data: seq<byte>, room: nat): seq<Segment>
    decreases |data|
  {
    if data == [] || room == 0 then []
    else
      var n := if |data| > mss then mss else |data|;
      [Segment(next, ack, data[..n])] + Cut(SeqIncrementBy(next, n), ack, mss, data[n..], room - 1)
  }

  /** The sequence number after queueing the packets. */
  function Advanced(next: Seq32, q: seq<Segment>): Seq32
    decreases q
  {
    if q == [] then next else Advanced(SeqIncrementBy(next, |q[0].payload|), q[1..])
  }

  function Write(s: SendState, ack: Seq32, mss: Mss, data: seq<byte>, room: nat): SendState {
    var cut := Cut(s.next, ack, mss, data, room);
    s.(next := Advanced(s.next, cut), out := s.out + cut)
  }

  // ----- Registration after transmission -----

  /** The tail of handleOutgoingPackets: a data packet not yet in the map is added with count 0. */
  function Register(resend: ResendMap, p: Segment, now: int): ResendMap {
    if p.payload != [] && p.seqNum !in resend then resend[p.seqNum := Sent(p, 0, now)] else resend
  }

  // ----- Acknowledgment -----

  /** The key falls within a SACK block, right edge included. */
  predicate SackHit(blocks: seq<Block>, k: Seq32) {
    exists b :: b in blocks && IsGreaterOrEqual(k, Wire(b.leftEdge)) && IsLessOrEqual(k, Wire(b.rightEdge))
  }

  /** updateResendPacketsOnAck. */
  function Prune(resend: ResendMap, inSack: seq<Block>, ack: Seq32): ResendMap {
    map k | k in resend && !SackHit(inSack, k) && !IsLess(k, ack) :: resend[k]
  }

  // ----- Retransmission -----

  /** The clock and configuration of a retransmission round; `failed` are keys whose Duplicate fails. */
  datatype Round = Round(now: int, interval: int, maxCount: nat, failed: set<Seq32>)

  predicate Live(s: Sent, inSack: seq<Block>, k: Seq32, round: Round) {
    s.resendCount < round.maxCount && !SackHit(inSack, k)
  }

  predicate Due(s: Sent, inSack: seq<Block>, k: Seq32, round: Round) {
    Live(s, inSack, k, round) && round.now - s.lastSent >= round.interval && k !in round.failed
  }

  /** The map after resendLostPackets. */
  function AfterRound(resend: ResendMap, inSack: seq<Block>, round: Round): ResendMap {
    map k | k in resend && Live(resend[k], inSack, k, round) ::
      if Due(resend[k], inSack, k, round) then
        Sent(resend[k].segment, resend[k].resendCount + 1, round.now)
      else resend[k]
  }

  /** The keys a round removes. */
  function Dropped(resend: ResendMap, inSack: seq<Block>, round: Round): set<Seq32> {
    set k | k in resend && !Live(resend[k], inSack, k, round)
  }

  /** The duplicates a round queues, when the map is walked in this order. */
  function Duplicates(resend: ResendMap, inSack: seq<Block>, round: Round, order: seq<Seq32>): seq<Segment> {
    if order == [] then []
    else
      var k := order[|order| - 1];
      Duplicates(resend, inSack, round, order[..|order| - 1]) +
      if k in resend && Due(resend[k], inSack, k, round) then [resend[k].segment] else []
  }

  // ----- Facts about Write -----

  /** Consecutive non-empty segments from `base` up to `top`, on plain numbers. */
  predicate Contiguous(q: seq<Segment>, base: int, top: int)
    decreases q
  {
    if q == [] then base == top
    else q[0].seqNum == base && q[0].payload != [] && Contiguous(q[1..], End(q[0]), top)
  }

  lemma {:induction false} FlattenAppend(p: seq<Segment>, q: seq<Segment>)
    ensures Flatten(p + q) == Flatten(p) + Flatten(q)
    decreases q
  {
    if q == [] {
      assert p + q == p;
    } else {
      var init, last := q[..|q| - 1], q[|q| - 1];
      FlattenAppend(p, init);
      assert (p + q)[..|p + q| - 1] == p + init && (p + q)[|p + q| - 1] == last;
      assert Flatten(p + q) == Flatten(p + init) + last.payload;
      assert (Flatten(p) + Flatten(init)) + last.payload == Flatten(p) + (Flatten(init) + last.payload);
    }
  }

  lemma RoomStep(len: nat, room: nat, mss: Mss)
    requires len > 0 && room > 0
    ensures len <= room * mss <==> len <= mss || len - mss <= (room - 1) * mss
  {
    assert room * mss == (room - 1) * mss + mss;
  }

  /** The queued bytes are a prefix of the buffer, and all of it exactly when the pool has room for every cut. */
  lemma {:induction false} CutIsPrefix(next: Seq32, ack: Seq32, mss: Mss, data: seq<byte>, room: nat)
    ensures var q := Cut(next, ack, mss, data, room);
            Flatten(q) <= data && (Flatten(q) == data <==> |data| <= room * mss)
    decreases |data|
  {
    var q := Cut(next, ack, mss, data, room);
    if data != [] && room > 0 {
      hide SeqIncrementBy;
      var n := if |data| > mss then mss else |data|;
      var head := Segment(next, ack, data[..n]);
      CutIsPrefix(SeqIncrementBy(next, n), ack, mss, data[n..], room - 1);
      var rest := Cut(SeqIncrementBy(next, n), ack, mss, data[n..], room - 1);
      FlattenAppend([head], rest);
      assert Flatten([head]) == head.payload;
      assert Flatten(q) == data[..n] + Flatten(rest) && data == data[..n] + data[n..];
      RoomStep(|data|, room, mss);
      if Flatten(q) == data {
        assert Flatten(q)[n..] == Flatten(rest);
      }
    }
  }

  lemma CutUnfolds(next: Seq32, ack: Seq32, mss: Mss, data: seq<byte>, room: nat)
    requires data != [] && room > 0
    ensures var n := if |data| > mss then mss else |data|;
            var q := Cut(next, ack, mss, data, room);
            && q != [] && q[0] == Segment(next, ack, data[..n])
            && q[1..] == Cut(SeqIncrementBy(next, n), ack, mss, data[n..], room - 1)
  {
  }

  lemma SmallIncrement(x: Seq32, n: nat)
    requires x + n < MODULUS
    ensures SeqIncrementBy(x, n) == x + n
  {
  }

  /** The packets are consecutive on the wire, starting at `next`. */
  predicate Chained(q: seq<Segment>, next: Seq32)
    decreases q
  {
    q != [] ==>
      q[0].seqNum == next && q[0].payload != [] && Chained(q[1..], SeqIncrementBy(next, |q[0].payload|))
  }

  lemma {:induction false} CutChained(next: Seq32, ack: Seq32, mss: Mss, data: seq<byte>, room: nat)
    ensures Chained(Cut(next, ack, mss, data, room), next)
    decreases |data|
  {
    if data != [] && room > 0 {
      hide SeqIncrementBy;
      var n := if |data| > mss then mss else |data|;
      CutUnfolds(next, ack, mss, data, room);
      CutChained(SeqIncrementBy(next, n), ack, mss, data[n..], room - 1);
    }
  }

  /** Short of 2^32 a wire chain is contiguous, and the next sequence number follows its last byte. */
  lemma {:induction false} ChainedContiguous(q: seq<Segment>, next: Seq32)
    requires Chained(q, next) && next + |Flatten(q)| < MODULUS
    ensures Contiguous(q, next, next + |Flatten(q)|)
    ensures Advanced(next, q) == next + |Flatten(q)|
    decreases q
  {
    if q != [] {
      hide Flatten, SeqIncrementBy;
      FlattenHead(q);
      SmallIncrement(next, |q[0].payload|);
      ChainedContiguous(q[1..], next + |q[0].payload|);
    }
  }

  /** Every packet carries the acknowledgment number and at most mss bytes; all but the last are full. */
  predicate Sized(q: seq<Segment>, ack: Seq32, mss: Mss)
    decreases q
  {
    q != [] ==>
      && q[0].ackNum == ack && 0 < |q[0].payload| <= mss
      && (|q| > 1 ==> |q[0].payload| == mss)
      && Sized(q[1..], ack, mss)
  }

  lemma {:induction false} CutSizes(next: Seq32, ack: Seq32, mss: Mss, data: seq<byte>, room: nat)
    ensures Sized(Cut(next, ack, mss, data, room), ack, mss)
    decreases |data|
  {
    if data != [] && room > 0 {
      var n := if |data| > mss then mss else |data|;
      CutUnfolds(next, ack, mss, data, room);
      CutSizes(SeqIncrementBy(next, n), ack, mss, data[n..], room - 1);
    }
  }

  lemma FlattenHead(q: seq<Segment>)
    requires q != []
    ensures Flatten(q) == q[0].payload + Flatten(q[1..])
  {
    FlattenAppend([q[0]], q[1..]);
    assert q == [q[0]] + q[1..];
    assert [q[0]][..0] == [];
    assert Flatten([q[0]]) == Flatten([]) + q[0].payload;
  }
}
