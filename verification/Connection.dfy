/**
 The connection object of lib/connection.go and its data-phase methods, updating fields in place as
 the source does, each proved against the function on values that the theorems are about.
 */
module Connections {
  import opened Serial
  import opened Bytes
  import opened Sack
  import opened Receiver
  import opened Sender
  import opened Resend
  import opened Transfer

  class Connection {
    const sackEnabled: bool
    const retransmissionEnabled: bool
    const mss: Mss

    var nextSequenceNumber: Seq32
    var lastAckNumber: Seq32
    var outSack: seq<WireBlock>
    var inSack: seq<WireBlock>
    var revPacketCache: Cache
    var resendPackets: ResendMap
    var readChannel: seq<Segment>
    var outputChan: seq<Segment>
    var writeOnHold: bool
    var isClosed: bool

    // History, for the theorems about runs: segments cut, bytes queued by Write, keys given up, and
    // what the resend map went through.
    ghost var written: seq<Segment>
    ghost var accepted: seq<byte>
    ghost var gaveUp: set<Seq32>
    ghost var log: seq<Note>

    constructor (sackEnabled: bool, retransmissionEnabled: bool, mss: Mss, mine: Seq32, theirs: Seq32)
      ensures End() == Opened(mine, theirs, Mode(sackEnabled, retransmissionEnabled))
      ensures this.mss == mss
      ensures !writeOnHold && !isClosed
    {
      this.sackEnabled, this.retransmissionEnabled, this.mss := sackEnabled, retransmissionEnabled, mss;
      nextSequenceNumber, lastAckNumber := mine, theirs;
      outSack, inSack, revPacketCache, resendPackets := [], [], map[], map[];
      readChannel, outputChan, writeOnHold, isClosed := [], [], false, false;
      written, accepted, gaveUp, log := [], [], {}, [];
    }

    function InMode(): Mode {
      Mode(sackEnabled, retransmissionEnabled)
    }

    function AckView(): AckState
      reads this
    {
      AckState(lastAckNumber, outSack)
    }

    function Recv(): RecvState
      reads this
    {
      RecvState(AckView(), revPacketCache, readChannel)
    }

    function Out(): SendState
      reads this
    {
      SendState(nextSequenceNumber, resendPackets, inSack, outputChan)
    }

    /** This object as one end of the system of module Transfer. */
    ghost function End(): Endpoint
      reads this
    {
      Endpoint(InMode(), Recv(), Out(), written, accepted, gaveUp, log)
    }

    /** updateACKAndSACK: reads the fields, returns what the caller stores. */
    method UpdateAckAndSack(p: Segment) returns (ack: Seq32, blocks: seq<WireBlock>)
      ensures AckState(ack, blocks) == Update(Circle, AckView(), p.seqNum, |p.payload|)
    {
      ack, blocks := lastAckNumber, outSack;
      if IsLess(p.seqNum, ack) {
        return;
      }
      if p.seqNum == ack {
        ack := SeqIncrementBy(ack, |p.payload|);
        if blocks != [] && ack == blocks[0].leftEdge {
          ack := blocks[0].rightEdge;
          blocks := RemovedBlock(blocks, 0);
        }
        return;
      }
      blocks := PlaceBlock(blocks, p.seqNum, SeqIncrementBy(p.seqNum, |p.payload|));
    }

    /** The loop of updateACKAndSACK over the blocks. */
    static method PlaceBlock(given: seq<WireBlock>, l: Seq32, r: Seq32) returns (blocks: seq<WireBlock>)
      ensures blocks == Place(Circle, given, l, r)
    {
      hide Place;
      var i := 0;
      while i < |given|
        invariant 0 <= i <= |given|
        invariant Place(Circle, given, l, r) == given[..i] + Place(Circle, given[i..], l, r)
      {
        var done, after := PlaceAt(given, i, l, r);
        if done {
          return after;
        }
        assert given[..i + 1] == given[..i] + [given[i]];
        i := i + 1;
      }
      PlaceInEmpty(l, r);
      assert given[..i] == given && given[i..] == [];
      blocks := given + [Block(l, r)];
    }

    static lemma PlaceInEmpty(l: Seq32, r: Seq32)
      ensures Place(Circle, [], l, r) == [Block(l, r)]
    {
    }

    /** Cases a to e for one block. */
    static method PlaceAt(blocks: seq<WireBlock>, i: nat, l: Seq32, r: Seq32)
      returns (done: bool, after: seq<WireBlock>)
      requires i < |blocks|
      ensures done ==> after == blocks[..i] + Place(Circle, blocks[i..], l, r)
      ensures !done ==> Place(Circle, blocks[i..], l, r) == [blocks[i]] + Place(Circle, blocks[i + 1..], l, r)
    {
      hide IsGreater, IsGreaterOrEqual, IsLess, IsLessOrEqual;
      var b := blocks[i];
      ghost var rest := blocks[i..];
      assert rest[0] == b && rest[1..] == blocks[i + 1..];
      assert i + 1 < |blocks| ==> rest[1] == blocks[i + 1] && rest[2..] == blocks[i + 2..];
      done, after := true, blocks;
      if IsGreaterOrEqual(l, b.leftEdge) && IsLessOrEqual(r, b.rightEdge) {
        assert blocks == blocks[..i] + rest;
      } else if i + 1 < |blocks| && l == b.rightEdge && r == blocks[i + 1].leftEdge {
        var extended := blocks[i := Block(b.leftEdge, blocks[i + 1].rightEdge)];
        after := RemovedBlock(extended, i + 1);
        assert after == blocks[..i] + ([Block(b.leftEdge, blocks[i + 1].rightEdge)] + blocks[i + 2..]);
      } else if l == b.rightEdge {
        after := blocks[i := Block(b.leftEdge, r)];
        assert after == blocks[..i] + ([Block(b.leftEdge, r)] + blocks[i + 1..]);
      } else if r == b.leftEdge {
        after := blocks[i := Block(l, b.rightEdge)];
        assert after == blocks[..i] + ([Block(l, b.rightEdge)] + blocks[i + 1..]);
      } else if i + 1 < |blocks| && IsGreater(l, b.rightEdge) && IsLess(r, blocks[i + 1].leftEdge) {
        after := blocks[..i] + ([b] + ([Block(l, r)] + blocks[i + 1..]));
      } else {
        done := false;
      }
    }

    /**
     removeSACKBlock on the backing array: shift the blocks behind `index` down by one. The first
     count - 1 elements are the resulting slice.
     */
    static method RemoveSackBlock(blocks: array<WireBlock>, count: nat, index: nat)
      requires index < count <= blocks.Length
      modifies blocks
      ensures blocks[..count - 1] == old(blocks[..index]) + old(blocks[index + 1..count])
      ensures blocks[count - 1..] == old(blocks[count - 1..])
    {
      var i := index;
      while i < count - 1
        invariant index <= i <= count - 1
        invariant forall j :: 0 <= j < index ==> blocks[j] == old(blocks[j])
        invariant forall j :: index <= j < i ==> blocks[j] == old(blocks[j + 1])
        invariant forall j :: i <= j < blocks.Length ==> blocks[j] == old(blocks[j])
      {
        blocks[i] := blocks[i + 1];
        i := i + 1;
      }
    }

    /** The slice that is left when block `index` has been shifted out. */
    static method RemovedBlock(blocks: seq<WireBlock>, index: nat) returns (rest: seq<WireBlock>)
      requires index < |blocks|
      ensures rest == blocks[..index] + blocks[index + 1..]
    {
      var backing := new WireBlock[|blocks|](i requires 0 <= i < |blocks| => blocks[i]);
      assert backing[..] == blocks;
      RemoveSackBlock(backing, |blocks|, index);
      rest := backing[..|blocks| - 1];
    }

    /** trimOutSackOption. */
    method TrimOutSackOption(newLastAck: Seq32)
      modifies this`outSack
      ensures outSack == Trim(old(outSack), newLastAck)
    {
      var kept: seq<WireBlock> := [];
      var i := 0;
      while i < |outSack|
        invariant 0 <= i <= |outSack| && outSack == old(outSack)
        invariant Trim(outSack, newLastAck) == kept + Trim(outSack[i..], newLastAck)
      {
        assert outSack[i..][1..] == outSack[i + 1..];
        if outSack[i].leftEdge > newLastAck {
          kept := kept + [outSack[i]];
        }
        i := i + 1;
      }
      outSack := kept;
    }

    /** The aging scan: the highest aged packet may move lastAckNumber past a hole. */
    method SkipAged(keys: seq<Seq32>, aged: set<Seq32>)
      requires AllCached(revPacketCache, keys)
      modifies this`lastAckNumber, this`outSack
      ensures AckView() == AgeScan(old(AckView()), revPacketCache, keys, aged, |keys|)
    {
      var i := |keys|;
      while i > 0
        invariant 0 <= i <= |keys| && AckView() == old(AckView())
        invariant AgeScan(AckView(), revPacketCache, keys, aged, |keys|)
               == AgeScan(AckView(), revPacketCache, keys, aged, i)
      {
        if keys[i - 1] in aged {
          var rightEdge := RightEdge(keys, i);
          if rightEdge > lastAckNumber {
            lastAckNumber := rightEdge;
            TrimOutSackOption(rightEdge);
          }
          return;
        }
        i := i - 1;
      }
    }

    /** The right edge of the contiguous run that starts with packet number i - 1. */
    method RightEdge(keys: seq<Seq32>, i: nat) returns (edge: Seq32)
      requires AllCached(revPacketCache, keys) && 0 < i <= |keys|
      ensures var last := revPacketCache[keys[i - 1]];
              edge == RunEnd(revPacketCache, keys, i, SeqIncrementBy(last.seqNum, |last.payload|))
    {
      var last := revPacketCache[keys[i - 1]];
      edge := SeqIncrementBy(last.seqNum, |last.payload|);
      ghost var first := edge;
      var j := i;
      while j < |keys| && edge == keys[j]
        invariant i <= j <= |keys|
        invariant RunEnd(revPacketCache, keys, i, first) == RunEnd(revPacketCache, keys, j, edge)
      {
        var next := revPacketCache[keys[j]];
        edge := SeqIncrementBy(next.seqNum, |next.payload|);
        j := j + 1;
      }
    }

    /** The packets below lastAckNumber, in order. */
    method CollectReady(keys: seq<Seq32>) returns (ready: seq<Seq32>)
      requires StrictlyAscending(keys)
      ensures ready == keys[..ReadyCount(keys, lastAckNumber)]
    {
      var i := 0;
      while i < |keys| && keys[i] < lastAckNumber
        invariant 0 <= i <= |keys|
        invariant forall j :: 0 <= j < i ==> keys[j] < lastAckNumber
      {
        i := i + 1;
      }
      ready := keys[..i];
    }

    /** Move the collected packets from the cache to readChannel. */
    method DeliverReady(ready: seq<Seq32>)
      requires AllCached(revPacketCache, ready) && StrictlyAscending(ready)
      modifies this`revPacketCache, this`readChannel
      ensures revPacketCache == Without(old(revPacketCache), ready)
      ensures readChannel == old(readChannel) + Packets(old(revPacketCache), ready)
    {
      var i := 0;
      while i < |ready|
        invariant 0 <= i <= |ready|
        invariant revPacketCache == Without(old(revPacketCache), ready[..i])
        invariant readChannel == old(readChannel) + Packets(old(revPacketCache), ready[..i])
      {
        var k := ready[i];
        assert k !in ready[..i];
        readChannel := readChannel + [revPacketCache[k]];
        revPacketCache := revPacketCache - {k};
        assert ready[..i + 1] == ready[..i] + [k];
        i := i + 1;
      }
      assert ready[..|ready|] == ready;
    }

    /** handleDataPacket; `aged` says which cached packets are older than the resend limit. */
    method HandleDataPacket(p: Segment, aged: set<Seq32>)
      modifies this`lastAckNumber, this`outSack, this`revPacketCache, this`readChannel, this`outputChan
      ensures Recv() == HandleData(Reliable(InMode()), old(Recv()), p, aged)
      ensures outputChan == old(outputChan) +
                if Accepts(Reliable(InMode()), old(Recv()), p) then [Segment(nextSequenceNumber, lastAckNumber, [])]
                else []
    {
      hide Update, Ascending, AgeScan;
      if p.seqNum < lastAckNumber {
        return;
      }
      if sackEnabled && retransmissionEnabled {
        if p.seqNum in revPacketCache {
          return;
        }
        lastAckNumber, outSack := UpdateAckAndSack(p);
        revPacketCache := revPacketCache[p.seqNum := p];
        var keys := Ascending(revPacketCache.Keys);
        assert AllCached(revPacketCache, keys);
        SkipAged(keys, aged);
        var ready := CollectReady(keys);
        DeliverReady(ready);
      } else {
        if IsGreaterOrEqual(p.seqNum, lastAckNumber) {
          lastAckNumber := SeqIncrementBy(p.seqNum, |p.payload|);
        }
        readChannel := readChannel + [p];
      }
      Acknowledge();
    }

    /** acknowledge. */
    method Acknowledge()
      modifies this`outputChan
      ensures outputChan == old(outputChan) + [Segment(nextSequenceNumber, lastAckNumber, [])]
    {
      outputChan := outputChan + [Segment(nextSequenceNumber, lastAckNumber, [])];
    }

    /**
     Write; `room` is how many payload chunks the pool can hand out. On exhaustion the source returns
     0 and an error although the packets cut so far are already queued.
     */
    method WriteBuffer(buffer: seq<byte>, room: nat) returns (count: nat, ok: bool)
      modifies this`nextSequenceNumber, this`outputChan, this`written, this`accepted
      ensures isClosed || writeOnHold ==> !ok && count == 0 && End() == old(End())
      ensures !isClosed && !writeOnHold ==>
                && End() == ActWrite(old(End()), WriteCall(mss, buffer, room))
                && (ok <==> accepted == old(accepted) + buffer)
                && (ok <==> |buffer| <= room * mss)
                && count == if ok then |buffer| else 0
    {
      if isClosed || writeOnHold {
        return 0, false;
      }
      hide Flatten, Cut, Advanced;
      ghost var cut := Cut(nextSequenceNumber, lastAckNumber, mss, buffer, room);
      CutIsPrefix(nextSequenceNumber, lastAckNumber, mss, buffer, room);
      PrefixIsAll(accepted, Flatten(cut), buffer);
      var queued := QueueSegments(buffer, room);
      hide Write;
      written, accepted := written + cut, accepted + Flatten(cut);
      ok := queued == |buffer|;
      count := if ok then queued else 0;
    }

    static lemma PrefixIsAll(before: seq<byte>, part: seq<byte>, whole: seq<byte>)
      requires part <= whole
      ensures |part| == |whole| <==> part == whole
      ensures before + part == before + whole <==> part == whole
    {
      assert (before + part)[|before|..] == part && (before + whole)[|before|..] == whole;
    }

    /** The segmentation loop of Write; returns the number of bytes queued. */
    method QueueSegments(buffer: seq<byte>, room: nat) returns (queuedBytes: nat)
      modifies this`nextSequenceNumber, this`outputChan
      ensures Out() == Write(old(Out()), lastAckNumber, mss, buffer, room)
      ensures queuedBytes == |Flatten(Cut(old(nextSequenceNumber), lastAckNumber, mss, buffer, room))|
    {
      hide Flatten, Cut, Advanced, SeqIncrementBy;
      var rest, left := buffer, room;
      queuedBytes := 0;
      ghost var queued: seq<Segment> := [];
      ghost var all := Cut(nextSequenceNumber, lastAckNumber, mss, buffer, room);
      FlattenNone();
      while rest != [] && left != 0
        invariant all == queued + Cut(nextSequenceNumber, lastAckNumber, mss, rest, left)
        invariant outputChan == old(outputChan) + queued
        invariant Advanced(old(nextSequenceNumber), all)
               == Advanced(nextSequenceNumber, Cut(nextSequenceNumber, lastAckNumber, mss, rest, left))
        invariant |Flatten(queued)| == queuedBytes
        decreases |rest|
      {
        var n := if |rest| > mss then mss else |rest|;
        var packet := Segment(nextSequenceNumber, lastAckNumber, rest[..n]);
        CutStep(nextSequenceNumber, lastAckNumber, mss, rest, left);
        FlattenLast(queued, packet);
        Regroup(queued, packet, Cut(SeqIncrementBy(nextSequenceNumber, n), lastAckNumber, mss, rest[n..], left - 1));
        queued := queued + [packet];
        nextSequenceNumber := SeqIncrementBy(nextSequenceNumber, n);
        outputChan := outputChan + [packet];
        rest, left, queuedBytes := rest[n..], left - 1, queuedBytes + n;
      }
      CutStops(nextSequenceNumber, lastAckNumber, mss, rest, left);
      assert all == queued;
    }

    static lemma Regroup(q: seq<Segment>, p: Segment, r: seq<Segment>)
      ensures q + ([p] + r) == (q + [p]) + r
    {
    }

    static lemma FlattenNone()
      ensures Flatten([]) == []
    {
    }

    static lemma FlattenLast(q: seq<Segment>, p: Segment)
      ensures Flatten(q + [p]) == Flatten(q) + p.payload
    {
      assert (q + [p])[..|q|] == q;
    }

    static lemma CutStops(next: Seq32, ack: Seq32, mss: Mss, data: seq<byte>, room: nat)
      requires data == [] || room == 0
      ensures Cut(next, ack, mss, data, room) == [] && Advanced(next, []) == next
    {
    }

    static lemma CutStep(next: Seq32, ack: Seq32, mss: Mss, data: seq<byte>, room: nat)
      requires data != [] && room > 0
      ensures var n := if |data| > mss then mss else |data|;
              var rest := Cut(SeqIncrementBy(next, n), ack, mss, data[n..], room - 1);
              && Cut(next, ack, mss, data, room) == [Segment(next, ack, data[..n])] + rest
              && Advanced(next, Cut(next, ack, mss, data, room)) == Advanced(SeqIncrementBy(next, n), rest)
    {
      CutUnfolds(next, ack, mss, data, room);
    }

    /** The registration at the end of handleOutgoingPackets. */
    method RegisterSent(p: Segment, now: int)
      modifies this`resendPackets
      ensures resendPackets == if Reliable(InMode()) then Register(old(resendPackets), p, now) else old(resendPackets)
    {
      if !retransmissionEnabled || p.payload == [] || !sackEnabled {
        return;
      }
      if p.seqNum !in resendPackets {
        resendPackets := resendPackets[p.seqNum := Sent(p, 0, now)];
      }
    }

    /** Does some block of inSACKOption hit the key? */
    method FindSackHit(k: Seq32) returns (hit: bool)
      ensures hit == SackHit(inSack, k)
    {
      var i := 0;
      while i < |inSack|
        invariant 0 <= i <= |inSack|
        invariant forall j :: 0 <= j < i ==>
          !(IsGreaterOrEqual(k, inSack[j].leftEdge) && IsLessOrEqual(k, inSack[j].rightEdge))
      {
        if IsGreaterOrEqual(k, inSack[i].leftEdge) && IsLessOrEqual(k, inSack[i].rightEdge) {
          assert inSack[i] in inSack;
          return true;
        }
        i := i + 1;
      }
      return false;
    }

    static function Dropping(resend: ResendMap, marked: seq<Seq32>): ResendMap {
      map k | k in resend && k !in marked :: resend[k]
    }

    /** Remove the marked keys; a key marked twice is only reported the second time. */
    method RemoveAll(marked: seq<Seq32>)
      modifies this`resendPackets
      ensures resendPackets == Dropping(old(resendPackets), marked)
    {
      var i := 0;
      while i < |marked|
        invariant 0 <= i <= |marked|
        invariant resendPackets == Dropping(old(resendPackets), marked[..i])
      {
        resendPackets := resendPackets - {marked[i]};
        assert marked[..i + 1] == marked[..i] + [marked[i]];
        i := i + 1;
      }
      assert marked[..|marked|] == marked;
    }

    /** updateResendPacketsOnAck; `order` is how the runtime happens to walk the map. */
    method UpdateResendPacketsOnAck(ackNum: Seq32, order: seq<Seq32>)
      requires Walks(order, resendPackets)
      modifies this`resendPackets
      ensures resendPackets == Prune(old(resendPackets), inSack, ackNum)
    {
      hide IsLess, SackHit;
      var marked: seq<Seq32> := [];
      var i := 0;
      while i < |order|
        invariant 0 <= i <= |order| && resendPackets == old(resendPackets)
        invariant forall k :: k in marked <==>
          k in order[..i] && k in resendPackets && (SackHit(inSack, k) || IsLess(k, ackNum))
      {
        var k := order[i];
        assert order[..i + 1] == order[..i] + [k];
        if k in resendPackets {
          var hit := FindSackHit(k);
          if hit {
            marked := marked + [k];
          }
          if IsLess(k, ackNum) {
            marked := marked + [k];
          }
        }
        i := i + 1;
      }
      assert order[..|order|] == order;
      assert forall k :: k in resendPackets ==> (k in marked <==> SackHit(inSack, k) || IsLess(k, ackNum));
      RemoveAll(marked);
    }

    /** The entry for k once a round has passed it. */
    static function Resent(s: Sent, inSack: seq<Block>, k: Seq32, round: Round): Sent {
      if Due(s, inSack, k, round) then Sent(s.segment, s.resendCount + 1, round.now) else s
    }

    /** One turn of the loop in resendLostPackets: mark the key for removal, resend it, or neither. */
    method ResendOne(k: Seq32, round: Round) returns (mark: bool)
      requires k in resendPackets
      modifies this`resendPackets, this`outputChan
      ensures mark == !Live(old(resendPackets)[k], inSack, k, round)
      ensures resendPackets == old(resendPackets)[k := Resent(old(resendPackets)[k], inSack, k, round)]
      ensures outputChan == old(outputChan) +
                if Due(old(resendPackets)[k], inSack, k, round) then [old(resendPackets)[k].segment] else []
    {
      hide SackHit;
      var info := resendPackets[k];
      assert resendPackets == resendPackets[k := info];
      if info.resendCount >= round.maxCount {
        return true;
      }
      mark := FindSackHit(k);
      if !mark && round.now - info.lastSent >= round.interval && k !in round.failed {
        outputChan := outputChan + [info.segment];
        resendPackets := resendPackets[k := Sent(info.segment, info.resendCount + 1, round.now)];
      }
    }

    /**
     resendLostPackets. A key the walk marks is removed after the walk; counts and times are updated in
     place meanwhile. `round.failed` are the keys whose Duplicate finds no chunk.
     */
    method ResendLostPackets(round: Round, order: seq<Seq32>)
      requires Walks(order, resendPackets)
      modifies this`resendPackets, this`outputChan, this`gaveUp, this`log
      ensures isClosed ==> End() == old(End())
      ensures !isClosed ==> End() == ActResend(old(End()), ResendRound(round, order))
    {
      if isClosed {
        return;
      }
      hide Duplicates, Walked, Marked, AfterRound, Walks, Dropping;
      ghost var before := resendPackets;
      var marked := WalkKeys(round, order);
      RemoveAll(marked);
      gaveUp := gaveUp + Dropped(before, inSack, round);
      log := log + NotesOfRound(before, inSack, round, order);
      RoundResult(before, inSack, round, order);
    }

    /** The loop of resendLostPackets over the keys. */
    method WalkKeys(round: Round, order: seq<Seq32>) returns (marked: seq<Seq32>)
      requires Walks(order, resendPackets)
      modifies this`resendPackets, this`outputChan
      ensures outputChan == old(outputChan) + Duplicates(old(resendPackets), inSack, round, order)
      ensures resendPackets == Walked(old(resendPackets), inSack, round, order)
      ensures marked == Marked(old(resendPackets), inSack, round, order)
    {
      hide Due, Live, Resent, Duplicates, Walked, Marked, Walks;
      ghost var before := resendPackets;
      marked := [];
      var i := 0;
      NothingWalked(before, inSack, round);
      while i < |order|
        invariant 0 <= i <= |order|
        invariant outputChan == old(outputChan) + Duplicates(before, inSack, round, order[..i])
        invariant resendPackets == Walked(before, inSack, round, order[..i])
        invariant marked == Marked(before, inSack, round, order[..i])
      {
        var k := order[i];
        ListsNext(before, inSack, round, order, i);
        MapNext(before, inSack, round, order, i);
        if k in resendPackets {
          var mark := ResendOne(k, round);
          if mark {
            marked := marked + [k];
          }
        }
        i := i + 1;
      }
      assert order[..|order|] == order;
    }

    /** The map when the walk has passed the keys in `done` and nothing is removed yet. */
    static function Walked(resend: ResendMap, inSack: seq<Block>, round: Round, done: seq<Seq32>): ResendMap {
      map k | k in resend :: if k in done then Resent(resend[k], inSack, k, round) else resend[k]
    }

    static function Marked(resend: ResendMap, inSack: seq<Block>, round: Round, done: seq<Seq32>): seq<Seq32> {
      if done == [] then []
      else
        var k := done[|done| - 1];
        Marked(resend, inSack, round, done[..|done| - 1]) +
        if k in resend && !Live(resend[k], inSack, k, round) then [k] else []
    }

    static lemma NothingWalked(resend: ResendMap, inSack: seq<Block>, round: Round)
      ensures Duplicates(resend, inSack, round, []) == [] && Marked(resend, inSack, round, []) == []
      ensures Walked(resend, inSack, round, []) == resend
    {
    }

    static lemma ListsNext(resend: ResendMap, inSack: seq<Block>, round: Round, order: seq<Seq32>, i: nat)
      requires i < |order|
      ensures var k := order[i];
              && Duplicates(resend, inSack, round, order[..i + 1])
                 == Duplicates(resend, inSack, round, order[..i]) +
                    (if k in resend && Due(resend[k], inSack, k, round) then [resend[k].segment] else [])
              && Marked(resend, inSack, round, order[..i + 1])
                 == Marked(resend, inSack, round, order[..i]) +
                    (if k in resend && !Live(resend[k], inSack, k, round) then [k] else [])
    {
      hide Due, Live;
      assert order[..i + 1][..i] == order[..i];
    }

    static lemma MapNext(resend: ResendMap, inSack: seq<Block>, round: Round, order: seq<Seq32>, i: nat)
      requires i < |order| && Walks(order, resend)
      ensures var k := order[i];
              var walked := Walked(resend, inSack, round, order[..i]);
              && (k in walked <==> k in resend)
              && (k in resend ==> walked[k] == resend[k])
              && Walked(resend, inSack, round, order[..i + 1])
                 == if k in resend then walked[k := Resent(resend[k], inSack, k, round)] else walked
    {
      hide Due, Live, Resent;
      assert order[..i + 1] == order[..i] + [order[i]];
      assert order[i] !in order[..i];
    }

    static lemma {:induction false} MarkedAre(
      resend: ResendMap, inSack: seq<Block>, round: Round, done: seq<Seq32>, k: Seq32)
      ensures k in Marked(resend, inSack, round, done)
              <==> k in done && k in resend && !Live(resend[k], inSack, k, round)
      decreases done
    {
      hide Live;
      if done != [] {
        MarkedAre(resend, inSack, round, done[..|done| - 1], k);
        assert done == done[..|done| - 1] + [done[|done| - 1]];
      }
    }

    static lemma RoundResult(before: ResendMap, inSack: seq<Block>, round: Round, order: seq<Seq32>)
      requires Walks(order, before)
      ensures var walked := Walked(before, inSack, round, order);
              var marked := Marked(before, inSack, round, order);
              Dropping(walked, marked) == AfterRound(before, inSack, round)
    {
      hide Due, Live, Marked;
      forall k ensures k in Marked(before, inSack, round, order)
                       <==> k in order && k in before && !Live(before[k], inSack, k, round) {
        MarkedAre(before, inSack, round, order, k);
      }
    }

    /** One turn of handleOutgoingPackets: take the next packet, put it on the wire, register it. */
    method TransmitNext(now: int) returns (p: Segment)
      requires outputChan != []
      modifies this`outputChan, this`resendPackets, this`log
      ensures p == old(outputChan)[0]
      ensures End() == ActTransmit(old(End()), now)
    {
      p := outputChan[0];
      outputChan := outputChan[1..];
      if Reliable(InMode()) {
        log := log + NoteOfTransmission(resendPackets, p, now);
      }
      RegisterSent(p, now);
    }

    /** The ACK and data branches of handleIncomingPackets for a packet with the ACK flag alone. */
    method HandleIncoming(p: Segment, aged: set<Seq32>, order: seq<Seq32>)
      requires Walks(order, resendPackets)
      modifies this`lastAckNumber, this`outSack, this`revPacketCache, this`readChannel, this`outputChan
      modifies this`resendPackets
      ensures End() == ActReceive(old(End()), p, aged)
    {
      hide HandleData, Prune, Accepts;
      if sackEnabled {
        UpdateResendPacketsOnAck(p.ackNum, order);
      }
      if p.payload != [] {
        IgnoredChangesNothing(Recv(), p, aged);
        HandleDataPacket(p, aged);
      }
    }

    lemma IgnoredChangesNothing(r: RecvState, p: Segment, aged: set<Seq32>)
      ensures !Accepts(Reliable(InMode()), r, p) ==> HandleData(Reliable(InMode()), r, p, aged) == r
    {
    }
  }
}
