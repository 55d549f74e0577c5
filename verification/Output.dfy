/**
 What an end puts out, over the runs of two ends: packets leave in the order in which they were queued, and
 an arrival is acknowledged exactly if the receiver has taken it.
 */
module Output {
  import opened Serial
  import opened Sack
  import opened Receiver
  import opened Sender
  import opened Resend
  import opened Transfer
  import opened Modes

  /** The packets an event queues: a cut of the buffer, duplicates, or one ACK if the receiver has changed. */
  function QueuedBy(x: Endpoint, incoming: set<Segment>, ev: Event): seq<Segment> {
    match ev
    case WriteCall(mss, data, room) => Cut(x.send.next, Wire(x.recv.ack.ack), mss, data, room)
    case Transmit(_, _) => []
    case ResendRound(round, order) =>
      if Walks(order, x.send.resend) then Duplicates(x.send.resend, x.send.inSack, round, order) else []
    case Receive(_, _) =>
      var after := Act(x, incoming, ev).me;
      if after.recv != x.recv then [Segment(x.send.next, Wire(after.recv.ack.ack), [])] else []
  }

  /** The packet an event transmits. */
  function SentBy(x: Endpoint, ev: Event): seq<Segment> {
    if ev.Transmit? && x.send.out != [] then [x.send.out[0]] else []
  }

  /** Everything one end has queued, and everything it has transmitted, in order. */
  function AllQueued(l: Link, moves: seq<Move>, byA: bool): seq<Segment> {
    if moves == [] then []
    else
      var prefix, m := moves[..|moves| - 1], moves[|moves| - 1];
      var s := Run(l, prefix);
      AllQueued(l, prefix, byA) + if m.byA == byA then QueuedBy(EndOf(s, byA), Into(s, byA), m.event) else []
  }

  function AllSent(l: Link, moves: seq<Move>, byA: bool): seq<Segment> {
    if moves == [] then []
    else
      var prefix, m := moves[..|moves| - 1], moves[|moves| - 1];
      AllSent(l, prefix, byA) + if m.byA == byA then SentBy(EndOf(Run(l, prefix), byA), m.event) else []
  }

  /** An accepted packet always changes the receiver: it is cached or delivered. */
  lemma AcceptedChanges(reliable: bool, r: RecvState, p: Segment, aged: set<Seq32>)
    requires Accepts(reliable, r, p)
    ensures HandleData(reliable, r, p, aged) != r
  {
    hide Update, AgeScan, Ascending;
    if reliable {
      var cache := r.cache[p.seqNum := p];
      var keys := Ascending(cache.Keys);
      var s := AgeScan(Update(Circle, r.ack, p.seqNum, |p.payload|), cache, keys, aged, |keys|);
      DrainChanges(s, cache, keys, r.delivered);
      assert p.seqNum in cache;
    }
  }

  /** The drain leaves the cache alone or makes the reader's sequence longer. */
  lemma DrainChanges(s: AckState, cache: Cache, keys: seq<Seq32>, delivered: seq<Segment>)
    requires AllCached(cache, keys)
    ensures var after := Drain(s, cache, keys, delivered);
            after.cache == cache || |after.delivered| > |delivered|
  {
    var ready := keys[..ReadyCount(keys, s.ack)];
    if ready == [] {
      assert Without(cache, ready) == cache;
    }
  }

  lemma QueueStep(x: Endpoint, incoming: set<Segment>, ev: Event)
    ensures SentBy(x, ev) + Act(x, incoming, ev).me.send.out == x.send.out + QueuedBy(x, incoming, ev)
  {
    hide Cut, HandleData, Duplicates, Walks, Accepts, AfterRound, Register, Prune;
    match ev
    case WriteCall(_, _, _) =>
    case Transmit(_, _) =>
      if x.send.out != [] {
        assert x.send.out == [x.send.out[0]] + x.send.out[1..];
      }
    case ResendRound(_, _) =>
    case Receive(p, aged) =>
      if p in incoming && p.payload != [] {
        ReceiveQueues(x, p, aged);
      }
  }

  lemma ReceiveQueues(x: Endpoint, p: Segment, aged: set<Seq32>)
    requires p.payload != []
    ensures var me := ActReceive(x, p, aged);
            me.send.out == x.send.out +
              if me.recv != x.recv then [Segment(x.send.next, Wire(me.recv.ack.ack), [])] else []
  {
    hide HandleData, Prune;
    if Accepts(Reliable(x.mode), x.recv, p) {
      AcceptedChanges(Reliable(x.mode), x.recv, p, aged);
    }
  }

  lemma Regroup(sent: seq<Segment>, now: seq<Segment>, out: seq<Segment>, after: seq<Segment>, all: seq<Segment>,
                more: seq<Segment>)
    requires sent + out == all && now + after == out + more
    ensures (sent + now) + after == all + more
  {
    assert (sent + now) + after == sent + (now + after);
    assert sent + (out + more) == (sent + out) + more;
  }

  /**
   First in, first out at both ends: what has been transmitted, followed by what is still queued, is
   everything queued so far, in order. An end queues an ACK, with its new number, exactly if the arrival has
   changed its receiver.
   */
  lemma {:induction false} OutputIsFifo(l: Link, moves: seq<Move>, byA: bool)
    ensures AllSent(l, moves, byA) + EndOf(Run(l, moves), byA).send.out == AllQueued(l, moves, byA)
    decreases moves
  {
    if moves == [] {
      assert EndOf(Run(l, moves), byA).send.out == [];
    } else {
      hide Act, QueuedBy, SentBy;
      var prefix, m := moves[..|moves| - 1], moves[|moves| - 1];
      OutputIsFifo(l, prefix, byA);
      var s := Run(l, prefix);
      if m.byA == byA {
        var x := EndOf(s, byA);
        QueueStep(x, Into(s, byA), m.event);
        Regroup(AllSent(l, prefix, byA), SentBy(x, m.event), x.send.out, EndOf(Run(l, moves), byA).send.out,
                AllQueued(l, prefix, byA), QueuedBy(x, Into(s, byA), m.event));
      } else {
        assert AllSent(l, prefix, byA) + [] == AllSent(l, prefix, byA);
        assert AllQueued(l, prefix, byA) + [] == AllQueued(l, prefix, byA);
      }
    }
  }

  /** Nothing but the last ACK of the handshake is on the network that was not transmitted. */
  lemma {:induction false} NetworkWasSent(l: Link, moves: seq<Move>, byA: bool, p: Segment)
    requires p in Into(Run(l, moves), !byA)
    ensures p in AllSent(l, moves, byA) || (byA && p == Segment(l.baseA, l.baseB, []))
    decreases moves
  {
    if moves != [] {
      var prefix, m := moves[..|moves| - 1], moves[|moves| - 1];
      if p in Into(Run(l, prefix), !byA) {
        NetworkWasSent(l, prefix, byA, p);
      } else {
        SentIsHead(EndOf(Run(l, prefix), byA), Into(Run(l, prefix), byA), m.event);
        hide Act, SentBy;
        var s := Run(l, prefix);
        assert m.byA == byA && p in Act(EndOf(s, byA), Into(s, byA), m.event).sent;
      }
    }
  }

  lemma SentIsHead(x: Endpoint, incoming: set<Segment>, ev: Event)
    ensures forall p :: p in Act(x, incoming, ev).sent <==> p in SentBy(x, ev) && !ev.lost
  {
    hide Cut, HandleData, Duplicates, Walks;
  }
}
