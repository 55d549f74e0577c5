/**
 Two open connections exchanging data, full duplex, over a network that loses, duplicates and
 reorders. A run is any sequence of events; every choice (which end acts, what is written, what is
 lost, which packet is received again, when timers fire, what has aged) is part of the event. Each end
 runs in the mode its handshake and its configuration have left it in.
 */
module Transfer {
  import opened Serial
  import opened Bytes
  import opened Sack
  import opened Receiver
  import opened Sender
  import opened Resend
  import opened Reassembly
  import opened Delivery

  /** SACK as negotiated by this end, and RetransmissionEnabled of its configuration. */
  datatype Mode = Mode(sack: bool, retransmission: bool)

  /** Received packets are cached and put in order, sent ones kept for resending, only with both. */
  predicate Reliable(m: Mode) {
    m.sack && m.retransmission
  }

  /**
   One end of the connection. `written`, `accepted`, `gaveUp` and `log` are history: the segments cut
   so far, the bytes Write queued, the keys dropped from the resend map by the timer, and what entered
   that map, was queued again and was given up, in order.
   */
  datatype Endpoint = Endpoint(
    mode: Mode, recv: RecvState, send: SendState,
    written: seq<Segment>, accepted: seq<byte>, gaveUp: set<Seq32>, log: seq<Note>)

  datatype Event =
    | WriteCall(mss: Mss, data: seq<byte>, room: nat)
    | Transmit(lost: bool, now: int)
    | ResendRound(round: Round, order: seq<Seq32>)
    | Receive(packet: Segment, aged: set<Seq32>)

  /** The end after an event, and what the event put on the network. */
  datatype Acted = Acted(me: Endpoint, sent: set<Segment>)

  function Acknowledgment(x: Endpoint): Segment {
    Segment(x.send.next, Wire(x.recv.ack.ack), [])
  }

  function CutOf(x: Endpoint, ev: Event): seq<Segment>
    requires ev.WriteCall?
  {
    Cut(x.send.next, Wire(x.recv.ack.ack), ev.mss, ev.data, ev.room)
  }

  function ActWrite(x: Endpoint, ev: Event): Endpoint
    requires ev.WriteCall?
  {
    x.(send := Write(x.send, Wire(x.recv.ack.ack), ev.mss, ev.data, ev.room),
       written := x.written + CutOf(x, ev),
       accepted := x.accepted + Flatten(CutOf(x, ev)))
  }

  function ActTransmit(x: Endpoint, now: int): Endpoint
    requires x.send.out != []
  {
    var p := x.send.out[0];
    if Reliable(x.mode) then
      x.(send := x.send.(out := x.send.out[1..], resend := Register(x.send.resend, p, now)),
         log := x.log + NoteOfTransmission(x.send.resend, p, now))
    else
      x.(send := x.send.(out := x.send.out[1..]))
  }

  function ActResend(x: Endpoint, ev: Event): Endpoint
    requires ev.ResendRound?
  {
    x.(send := x.send.(
         resend := AfterRound(x.send.resend, x.send.inSack, ev.round),
         out := x.send.out + Duplicates(x.send.resend, x.send.inSack, ev.round, ev.order)),
       gaveUp := x.gaveUp + Dropped(x.send.resend, x.send.inSack, ev.round),
       log := x.log + NotesOfRound(x.send.resend, x.send.inSack, ev.round, ev.order))
  }

  /** updateResendPacketsOnAck, which is called only with SACK. */
  function Pruned(x: Endpoint, ackNum: Seq32): ResendMap {
    if x.mode.sack then Prune(x.send.resend, x.send.inSack, ackNum) else x.send.resend
  }

  /** The ACK and data branches of handleIncomingPackets; an ignored packet is not acknowledged. */
  function ActReceive(x: Endpoint, p: Segment, aged: set<Seq32>): Endpoint {
    var send := x.send.(resend := Pruned(x, p.ackNum));
    if p.payload == [] || !Accepts(Reliable(x.mode), x.recv, p) then
      x.(send := send)
    else
      var y := x.(send := send, recv := HandleData(Reliable(x.mode), x.recv, p, aged));
      y.(send := y.send.(out := y.send.out + [Acknowledgment(y)]))
  }

  function Act(x: Endpoint, incoming: set<Segment>, ev: Event): Acted {
    match ev
    case WriteCall(_, _, _) => Acted(ActWrite(x, ev), {})
    case Transmit(lost, now) =>
      if x.send.out == [] then Acted(x, {})
      else Acted(ActTransmit(x, now), if lost then {} else {x.send.out[0]})
    case ResendRound(_, order) => if Walks(order, x.send.resend) then Acted(ActResend(x, ev), {}) else Acted(x, {})
    case Receive(p, aged) =>
      if p in incoming then Acted(ActReceive(x, p, aged), {}) else Acted(x, {})
  }

  /** Both ends, and every packet ever put on the network in each direction. */
  datatype System = System(a: Endpoint, b: Endpoint, ab: set<Segment>, ba: set<Segment>)

  datatype Move = Move(byA: bool, event: Event)

  function EndOf(s: System, byA: bool): Endpoint {
    if byA then s.a else s.b
  }

  function Step(s: System, m: Move): System {
    if m.byA then
      var r := Act(s.a, s.ba, m.event);
      System(r.me, s.b, s.ab + r.sent, s.ba)
    else
      var r := Act(s.b, s.ab, m.event);
      System(s.a, r.me, s.ab, s.ba + r.sent)
  }

  /** A freshly opened end: it sends from `mine` and expects the peer's first byte at `theirs`. */
  function Opened(mine: Seq32, theirs: Seq32, mode: Mode): Endpoint {
    Endpoint(mode, Fresh(theirs), SendState(mine, map[], [], []), [], [], {}, [])
  }

  /** What the two ends have agreed on: the number each starts from, and the mode each is in. */
  datatype Link = Link(baseA: Seq32, baseB: Seq32, modeA: Mode, modeB: Mode)

  /** What is left of the handshake when data may flow: two open ends, and the client's last ACK on its way. */
  function Start(l: Link): System {
    System(Opened(l.baseA, l.baseB, l.modeA), Opened(l.baseB, l.baseA, l.modeB), {Segment(l.baseA, l.baseB, [])}, {})
  }

  function Run(l: Link, moves: seq<Move>): System {
    if moves == [] then Start(l)
    else Step(Run(l, moves[..|moves| - 1]), moves[|moves| - 1])
  }

  // ----- The invariant, one direction at a time: x writes, y reads -----

  /** p is on the network, queued or kept for retransmission by x. */
  predicate From(x: Endpoint, net: set<Segment>, p: Segment) {
    p in net || p in x.send.out || exists k :: k in x.send.resend && x.send.resend[k].segment == p
  }

  function Elements(q: seq<Segment>): set<Segment> {
    set s | s in q
  }

  ghost predicate SendInv(x: Endpoint, net: set<Segment>, base: int) {
    && Contiguous(x.written, base, x.send.next)
    && Flatten(x.written) == x.accepted
    && x.send.inSack == []
    && (!Reliable(x.mode) ==> x.send.resend == map[])
    && (forall k :: k in x.send.resend ==>
          x.send.resend[k].segment.seqNum == k && x.send.resend[k].segment.payload != [])
    && (forall p :: From(x, net, p) && p.payload != [] ==> p in x.written)
  }

  /** No packet of x, however old, acknowledges more than x has received. */
  ghost predicate AckInv(x: Endpoint, net: set<Segment>, floor: int) {
    forall p :: From(x, net, p) ==> floor <= p.ackNum <= x.recv.ack.ack
  }

  ghost predicate LinkInv(x: Endpoint, y: Endpoint, base: int) {
    && RecvInv(Elements(x.written), base, x.send.next, y.recv)
    && (!Reliable(y.mode) ==>
          y.recv.cache == map[] && y.recv.ack.blocks == [] && y.recv.ack.ack == LastEnd(y.recv, base))
  }

  ghost predicate Direction(x: Endpoint, y: Endpoint, xy: set<Segment>, yx: set<Segment>, base: int) {
    SendInv(x, xy, base) && LinkInv(x, y, base) && AckInv(y, yx, base)
  }

  /** The stream of x stays short of 2^32 and of the serial window. */
  predicate Fits(x: Endpoint, base: int) {
    0 <= base && base + |x.accepted| < MODULUS && |x.accepted| < HALF
  }

  /** Every written segment is queued, kept, delivered to the peer's reader, or was given up. */
  predicate NothingForgotten(x: Endpoint, y: Endpoint) {
    forall t :: t in x.written ==>
      t in x.send.out || t.seqNum in x.send.resend || t in y.recv.delivered || t.seqNum in x.gaveUp
  }

  // ----- Contiguous segments tile the stream -----

  lemma {:induction false} ContiguousBounds(q: seq<Segment>, base: int, top: int)
    requires Contiguous(q, base, top)
    ensures base <= top && top - base == |Flatten(q)|
    ensures forall s :: s in q ==> base <= s.seqNum && s.payload != [] && End(s) <= top
    decreases q
  {
    if q != [] {
      hide Flatten;
      FlattenHead(q);
      ContiguousBounds(q[1..], End(q[0]), top);
    } else {
      assert Flatten(q) == [];
    }
  }

  lemma {:induction false} ContiguousApart(q: seq<Segment>, base: int, top: int)
    requires Contiguous(q, base, top)
    ensures forall s, t :: s in q && t in q ==> Apart(s, t)
    decreases q
  {
    if q != [] {
      ContiguousApart(q[1..], End(q[0]), top);
      ContiguousBounds(q[1..], End(q[0]), top);
      assert q == [q[0]] + q[1..];
    }
  }

  lemma {:induction false} ContiguousAppend(p: seq<Segment>, q: seq<Segment>, base: int, mid: int, top: int)
    requires Contiguous(p, base, mid) && Contiguous(q, mid, top)
    ensures Contiguous(p + q, base, top)
    decreases p
  {
    if p == [] {
      assert p + q == q;
    } else {
      ContiguousAppend(p[1..], q, End(p[0]), mid, top);
      assert (p + q)[1..] == p[1..] + q;
    }
  }

  lemma WrittenTiles(x: Endpoint, net: set<Segment>, base: int)
    requires SendInv(x, net, base) && Fits(x, base)
    ensures Tiling(Elements(x.written), base, x.send.next)
  {
    ContiguousBounds(x.written, base, x.send.next);
    ContiguousApart(x.written, base, x.send.next);
  }

  // ----- Where packets come from -----

  lemma {:induction false} DuplicatesAreKept(resend: ResendMap, inSack: seq<Block>, round: Round, order: seq<Seq32>)
    ensures forall p :: p in Duplicates(resend, inSack, round, order) ==>
              exists k :: k in resend && resend[k].segment == p
    decreases order
  {
    if order != [] {
      DuplicatesAreKept(resend, inSack, round, order[..|order| - 1]);
    }
  }

  /** An event makes no packet of its own except the cut of a Write and the acknowledgment of data. */
  lemma Origins(x: Endpoint, incoming: set<Segment>, net: set<Segment>, ev: Event, p: Segment)
    requires From(Act(x, incoming, ev).me, net + Act(x, incoming, ev).sent, p)
    ensures From(x, net, p) || (ev.WriteCall? && p in CutOf(x, ev))
            || (ev.Receive? && p == Acknowledgment(Act(x, incoming, ev).me))
  {
    match ev
    case WriteCall(_, _, _) =>
    case Transmit(_, _) =>
      if x.send.out != [] {
        assert x.send.out == [x.send.out[0]] + x.send.out[1..];
      }
    case ResendRound(round, order) =>
      DuplicatesAreKept(x.send.resend, x.send.inSack, round, order);
    case Receive(_, _) =>
  }

  // ----- The writing side -----

  /** What Write appends, on plain numbers. */
  lemma WriteExtends(x: Endpoint, ev: Event, base: int)
    requires ev.WriteCall? && Contiguous(x.written, base, x.send.next) && Flatten(x.written) == x.accepted
    requires Fits(ActWrite(x, ev), base)
    ensures var y := ActWrite(x, ev);
            && Contiguous(CutOf(x, ev), x.send.next, y.send.next)
            && Contiguous(y.written, base, y.send.next)
            && Flatten(y.written) == y.accepted
  {
    hide Cut, Flatten;
    var cut := CutOf(x, ev);
    FlattenAppend(x.written, cut);
    ContiguousBounds(x.written, base, x.send.next);
    CutChained(x.send.next, Wire(x.recv.ack.ack), ev.mss, ev.data, ev.room);
    assert x.send.next + |Flatten(cut)| == base + |Flatten(x.written)| + |Flatten(cut)|;
    assert |ActWrite(x, ev).accepted| == |x.accepted| + |Flatten(cut)|;
    ChainedContiguous(cut, x.send.next);
    ContiguousAppend(x.written, cut, base, x.send.next, x.send.next + |Flatten(cut)|);
  }

  lemma SendStep(x: Endpoint, incoming: set<Segment>, net: set<Segment>, ev: Event, base: int)
    requires SendInv(x, net, base) && Fits(Act(x, incoming, ev).me, base)
    ensures SendInv(Act(x, incoming, ev).me, net + Act(x, incoming, ev).sent, base)
  {
    var r := Act(x, incoming, ev);
    forall p | From(r.me, net + r.sent, p) && p.payload != [] ensures p in r.me.written {
      Origins(x, incoming, net, ev, p);
    }
    KeysStay(x, incoming, net, ev, base);
    if ev.WriteCall? {
      WriteExtends(x, ev, base);
    }
  }

  lemma KeysStay(x: Endpoint, incoming: set<Segment>, net: set<Segment>, ev: Event, base: int)
    requires SendInv(x, net, base)
    ensures var r := Act(x, incoming, ev).me.send.resend;
            forall k :: k in r ==> r[k].segment.seqNum == k && r[k].segment.payload != []
  {
  }

  lemma AckStep(x: Endpoint, incoming: set<Segment>, net: set<Segment>, ev: Event, floor: int, top: int)
    requires AckInv(x, net, floor)
    requires floor <= x.recv.ack.ack <= Act(x, incoming, ev).me.recv.ack.ack <= top < MODULUS && 0 <= floor
    ensures AckInv(Act(x, incoming, ev).me, net + Act(x, incoming, ev).sent, floor)
  {
    var r := Act(x, incoming, ev);
    forall p | From(r.me, net + r.sent, p) ensures floor <= p.ackNum <= r.me.recv.ack.ack {
      hide Wire;
      Origins(x, incoming, net, ev, p);
      if ev.WriteCall? && p in CutOf(x, ev) {
        CutSizes(x.send.next, Wire(x.recv.ack.ack), ev.mss, ev.data, ev.room);
        SizedAck(CutOf(x, ev), Wire(x.recv.ack.ack), ev.mss);
      }
    }
  }

  lemma {:induction false} SizedAck(q: seq<Segment>, ack: Seq32, mss: Mss)
    requires Sized(q, ack, mss)
    ensures forall p :: p in q ==> p.ackNum == ack
    decreases q
  {
    if q != [] {
      SizedAck(q[1..], ack, mss);
      assert q == [q[0]] + q[1..];
    }
  }

  // ----- The reading side -----

  /** Segments written later start at or beyond the old end of the stream, so the receiver's view stands. */
  lemma LinkGrows(all: set<Segment>, more: set<Segment>, lo: int, mid: int, top: int, r: RecvState)
    requires RecvInv(all, lo, mid, r) && mid <= top
    requires forall s :: s in more ==> mid <= s.seqNum
    ensures RecvInv(all + more, lo, top, r)
    ensures Complete(all, r) ==> Complete(all + more, r)
  {
    assert r.ack.ack in Edges(all, lo, mid);
    forall x | x in Edges(all, lo, mid) ensures x in Edges(all + more, lo, top) {
    }
  }

  lemma WrittenGrows(x: Endpoint, ev: Event, base: int, r: RecvState)
    requires ev.WriteCall? && Contiguous(x.written, base, x.send.next) && Flatten(x.written) == x.accepted
    requires Fits(ActWrite(x, ev), base) && RecvInv(Elements(x.written), base, x.send.next, r)
    ensures RecvInv(Elements(ActWrite(x, ev).written), base, ActWrite(x, ev).send.next, r)
    ensures Complete(Elements(x.written), r) ==> Complete(Elements(ActWrite(x, ev).written), r)
  {
    hide RecvInv, Complete, Write, Cut;
    var cut := CutOf(x, ev);
    WriteExtends(x, ev, base);
    ContiguousBounds(cut, x.send.next, ActWrite(x, ev).send.next);
    LinkGrows(Elements(x.written), Elements(cut), base, x.send.next, ActWrite(x, ev).send.next, r);
    assert Elements(x.written + cut) == Elements(x.written) + Elements(cut);
  }

  lemma OnlyWriteWrites(x: Endpoint, incoming: set<Segment>, ev: Event)
    requires !ev.WriteCall?
    ensures Act(x, incoming, ev).me.written == x.written
    ensures Act(x, incoming, ev).me.accepted == x.accepted
    ensures Act(x, incoming, ev).me.send.next == x.send.next
  {
  }

  lemma OnlyReceiveReceives(x: Endpoint, incoming: set<Segment>, ev: Event)
    ensures Act(x, incoming, ev).me.recv ==
            if ev.Receive? && ev.packet in incoming && ev.packet.payload != [] then
              HandleData(Reliable(x.mode), x.recv, ev.packet, ev.aged)
            else x.recv
    ensures Act(x, incoming, ev).me.mode == x.mode
  {
    hide Absorb;
  }

  /** x acts: the peer y still agrees with the stream x writes. */
  lemma WriterStep(x: Endpoint, y: Endpoint, incoming: set<Segment>, net: set<Segment>, ev: Event, base: int)
    requires SendInv(x, net, base) && LinkInv(x, y, base) && Fits(Act(x, incoming, ev).me, base)
    ensures LinkInv(Act(x, incoming, ev).me, y, base)
    ensures Complete(Elements(x.written), y.recv) ==> Complete(Elements(Act(x, incoming, ev).me.written), y.recv)
  {
    hide RecvInv, Complete;
    if ev.WriteCall? {
      WrittenGrows(x, ev, base, y.recv);
    } else {
      hide Act;
      OnlyWriteWrites(x, incoming, ev);
    }
  }

  /** x acts: x still agrees with the stream its peer y writes, and never goes back. */
  lemma ReaderStep(x: Endpoint, y: Endpoint, yx: set<Segment>, ev: Event, base: int)
    requires SendInv(y, yx, base) && LinkInv(y, x, base) && Fits(y, base)
    ensures LinkInv(y, Act(x, yx, ev).me, base)
    ensures x.recv.ack.ack <= Act(x, yx, ev).me.recv.ack.ack
    ensures x.recv.delivered <= Act(x, yx, ev).me.recv.delivered
    ensures Reliable(x.mode) && Complete(Elements(y.written), x.recv) && (ev.Receive? ==> ev.aged == {}) ==>
              Complete(Elements(y.written), Act(x, yx, ev).me.recv)
  {
    hide RecvInv, Complete, Act, HandleData, Tiling;
    OnlyReceiveReceives(x, yx, ev);
    if ev.Receive? && ev.packet in yx && ev.packet.payload != [] {
      assert From(y, yx, ev.packet);
      WrittenTiles(y, yx, base);
      StepDelivery(Reliable(x.mode), Elements(y.written), base, y.send.next, base, x.recv, Arrival(ev.packet, ev.aged));
      if Reliable(x.mode) && Complete(Elements(y.written), x.recv) && ev.aged == {} {
        HandleDataComplete(Elements(y.written), base, y.send.next, x.recv, ev.packet);
      }
    }
  }

  lemma LinkBounds(x: Endpoint, y: Endpoint, base: int)
    requires LinkInv(x, y, base)
    ensures base <= y.recv.ack.ack <= x.send.next
  {
    assert y.recv.ack.ack in Edges(Elements(x.written), base, x.send.next);
  }

  /** One event of x keeps both directions. */
  lemma ActKeeps(x: Endpoint, y: Endpoint, xy: set<Segment>, yx: set<Segment>, ev: Event, baseX: int, baseY: int)
    requires Direction(x, y, xy, yx, baseX) && Direction(y, x, yx, xy, baseY)
    requires Fits(Act(x, yx, ev).me, baseX) && Fits(y, baseY)
    ensures var r := Act(x, yx, ev);
            Direction(r.me, y, xy + r.sent, yx, baseX) && Direction(y, r.me, yx, xy + r.sent, baseY)
  {
    hide SendInv, LinkInv, AckInv, Act;
    SendStep(x, yx, xy, ev, baseX);
    WriterStep(x, y, yx, xy, ev, baseX);
    ReaderStep(x, y, yx, ev, baseY);
    LinkBounds(y, x, baseY);
    LinkBounds(y, Act(x, yx, ev).me, baseY);
    AckStep(x, yx, xy, ev, baseY, y.send.next);
  }

  // ----- What an acknowledgment removes -----

  /** Below the window the serial comparison of updateResendPacketsOnAck is the plain one. */
  lemma PruneIsPlain(x: Endpoint, y: Endpoint, xy: set<Segment>, yx: set<Segment>, base: int, p: Segment, k: Seq32)
    requires Direction(x, y, xy, yx, base) && Fits(x, base) && From(y, yx, p)
    requires k in x.send.resend
    ensures IsLess(k, p.ackNum) <==> k < p.ackNum
    ensures x.send.resend[k].segment in x.written
    ensures k in Prune(x.send.resend, x.send.inSack, p.ackNum) <==> p.ackNum <= k
  {
    hide Flatten;
    var s := x.send.resend[k].segment;
    assert From(x, xy, s);
    ContiguousBounds(x.written, base, x.send.next);
    LinkBounds(x, y, base);
    assert base <= k < x.send.next && base <= p.ackNum <= x.send.next;
    SerialOrderLifts(k, p.ackNum);
  }

  /**
   While nothing has aged, a segment that an acknowledgment removes from the resend map has already
   been put on the peer's read channel.
   */
  lemma PrunedWasDelivered(
    x: Endpoint, y: Endpoint, xy: set<Segment>, yx: set<Segment>, base: int, p: Segment, k: Seq32)
    requires Direction(x, y, xy, yx, base) && Fits(x, base) && Complete(Elements(x.written), y.recv)
    requires p in yx && k in x.send.resend && k !in Pruned(x, p.ackNum)
    ensures x.send.resend[k].segment in y.recv.delivered
  {
    assert From(y, yx, p);
    PruneIsPlain(x, y, xy, yx, base, p, k);
  }

  lemma ForgetsNothing(x: Endpoint, y: Endpoint, xy: set<Segment>, yx: set<Segment>, ev: Event, base: int)
    requires Direction(x, y, xy, yx, base) && Fits(x, base) && Complete(Elements(x.written), y.recv)
    requires NothingForgotten(x, y) && Reliable(x.mode)
    ensures NothingForgotten(Act(x, yx, ev).me, y)
  {
    var me := Act(x, yx, ev).me;
    forall t | t in me.written
      ensures t in me.send.out || t.seqNum in me.send.resend || t in y.recv.delivered || t.seqNum in me.gaveUp
    {
      if t in x.written {
        ForgetsNot(x, y, xy, yx, ev, base, t);
      }
    }
  }

  lemma ForgetsNot(x: Endpoint, y: Endpoint, xy: set<Segment>, yx: set<Segment>, ev: Event, base: int, t: Segment)
    requires Direction(x, y, xy, yx, base) && Fits(x, base) && Complete(Elements(x.written), y.recv)
    requires t in x.written && Reliable(x.mode)
    requires t in x.send.out || t.seqNum in x.send.resend || t in y.recv.delivered || t.seqNum in x.gaveUp
    ensures var me := Act(x, yx, ev).me;
            t in me.send.out || t.seqNum in me.send.resend || t in y.recv.delivered || t.seqNum in me.gaveUp
  {
    hide Flatten, Cut, Complete, HandleData;
    ContiguousBounds(x.written, base, x.send.next);
    match ev
    case WriteCall(_, _, _) =>
    case Transmit(_, _) =>
      if x.send.out != [] {
        assert x.send.out == [x.send.out[0]] + x.send.out[1..];
      }
    case ResendRound(_, _) =>
    case Receive(p, _) =>
      if p in yx && t.seqNum in x.send.resend && t.seqNum !in Pruned(x, p.ackNum) {
        PrunedWasDelivered(x, y, xy, yx, base, p, t.seqNum);
        SameStart(x, xy, base, x.send.resend[t.seqNum].segment, t);
      }
  }

  lemma SameStart(x: Endpoint, net: set<Segment>, base: int, s: Segment, t: Segment)
    requires SendInv(x, net, base) && s.seqNum == t.seqNum && t in x.written
    requires t.seqNum in x.send.resend && x.send.resend[t.seqNum].segment == s
    ensures s == t
  {
    assert From(x, net, s);
    ContiguousApart(x.written, base, x.send.next);
    assert Apart(s, t);
    ContiguousBounds(x.written, base, x.send.next);
  }

  // ----- Whole runs -----

  predicate NoWrap(s: System, l: Link) {
    Fits(s.a, l.baseA) && Fits(s.b, l.baseB)
  }

  predicate NoAging(moves: seq<Move>) {
    forall i :: 0 <= i < |moves| && moves[i].event.Receive? ==> moves[i].event.aged == {}
  }

  ghost predicate SystemInv(s: System, l: Link) {
    Direction(s.a, s.b, s.ab, s.ba, l.baseA) && Direction(s.b, s.a, s.ba, s.ab, l.baseB)
  }

  /**
   From x to y: with a reliable reader the stream has arrived completely up to the acknowledgment number,
   and with a reliable writer too nothing is lost track of.
   */
  ghost predicate Lossless(x: Endpoint, y: Endpoint) {
    Reliable(y.mode) ==>
      Complete(Elements(x.written), y.recv) && (Reliable(x.mode) ==> NothingForgotten(x, y))
  }

  lemma FitsBefore(x: Endpoint, incoming: set<Segment>, ev: Event, base: int)
    requires Fits(Act(x, incoming, ev).me, base)
    ensures Fits(x, base)
  {
    hide Cut, Flatten, HandleData;
  }

  lemma StepKeeps(s: System, m: Move, l: Link)
    requires SystemInv(s, l) && NoWrap(Step(s, m), l)
    ensures SystemInv(Step(s, m), l)
  {
    hide Direction, Act;
    if m.byA {
      ActKeeps(s.a, s.b, s.ab, s.ba, m.event, l.baseA, l.baseB);
    } else {
      ActKeeps(s.b, s.a, s.ba, s.ab, m.event, l.baseB, l.baseA);
    }
  }

  lemma KeptForReader(x: Endpoint, y: Endpoint, ev: Event, yx: set<Segment>)
    requires NothingForgotten(y, x)
    requires x.recv.delivered <= Act(x, yx, ev).me.recv.delivered
    ensures NothingForgotten(y, Act(x, yx, ev).me)
  {
    hide Act;
    var d := Act(x, yx, ev).me.recv.delivered;
    assert forall t :: t in x.recv.delivered ==> t in d by {
      assert forall i :: 0 <= i < |x.recv.delivered| ==> d[i] == x.recv.delivered[i];
    }
  }

  lemma ActLossless(x: Endpoint, y: Endpoint, xy: set<Segment>, yx: set<Segment>, ev: Event, baseX: int, baseY: int)
    requires Direction(x, y, xy, yx, baseX) && Direction(y, x, yx, xy, baseY)
    requires Fits(Act(x, yx, ev).me, baseX) && Fits(y, baseY) && (ev.Receive? ==> ev.aged == {})
    requires Lossless(x, y) && Lossless(y, x)
    ensures Lossless(Act(x, yx, ev).me, y) && Lossless(y, Act(x, yx, ev).me)
  {
    hide SendInv, LinkInv, AckInv, Act, Complete, NothingForgotten;
    FitsBefore(x, yx, ev, baseX);
    OnlyReceiveReceives(x, yx, ev);
    WriterStep(x, y, yx, xy, ev, baseX);
    ReaderStep(x, y, yx, ev, baseY);
    if Reliable(x.mode) && Reliable(y.mode) {
      ForgetsNothing(x, y, xy, yx, ev, baseX);
      KeptForReader(x, y, ev, yx);
    }
  }

  lemma StepLossless(s: System, m: Move, l: Link)
    requires SystemInv(s, l) && NoWrap(Step(s, m), l)
    requires Lossless(s.a, s.b) && Lossless(s.b, s.a) && (m.event.Receive? ==> m.event.aged == {})
    ensures Lossless(Step(s, m).a, Step(s, m).b) && Lossless(Step(s, m).b, Step(s, m).a)
  {
    hide Direction, Act, Lossless;
    if m.byA {
      ActLossless(s.a, s.b, s.ab, s.ba, m.event, l.baseA, l.baseB);
    } else {
      ActLossless(s.b, s.a, s.ba, s.ab, m.event, l.baseB, l.baseA);
    }
  }

  lemma OpenedInv(mine: Seq32, theirs: Seq32, modeX: Mode, modeY: Mode, xy: set<Segment>, yx: set<Segment>)
    requires Fits(Opened(mine, theirs, modeX), mine)
    requires xy <= {Segment(mine, theirs, [])} && yx <= {Segment(theirs, mine, [])}
    ensures Direction(Opened(mine, theirs, modeX), Opened(theirs, mine, modeY), xy, yx, mine)
    ensures Lossless(Opened(mine, theirs, modeX), Opened(theirs, mine, modeY))
  {
    FreshInv({}, mine, mine, mine);
    assert Elements([]) == {};
  }

  /** No event changes the mode of an end. */
  lemma {:induction false} ModesStay(l: Link, moves: seq<Move>)
    ensures Run(l, moves).a.mode == l.modeA && Run(l, moves).b.mode == l.modeB
    decreases moves
  {
    if moves != [] {
      hide Act;
      var prefix, m := moves[..|moves| - 1], moves[|moves| - 1];
      ModesStay(l, prefix);
      var s := Run(l, prefix);
      OnlyReceiveReceives(s.a, s.ba, m.event);
      OnlyReceiveReceives(s.b, s.ab, m.event);
    }
  }

  lemma {:induction false} RunKeeps(l: Link, moves: seq<Move>)
    requires NoWrap(Run(l, moves), l)
    ensures SystemInv(Run(l, moves), l)
    ensures NoAging(moves) ==>
              Lossless(Run(l, moves).a, Run(l, moves).b) && Lossless(Run(l, moves).b, Run(l, moves).a)
    decreases moves
  {
    if moves == [] {
      var s := Start(l);
      OpenedInv(l.baseA, l.baseB, l.modeA, l.modeB, s.ab, s.ba);
      OpenedInv(l.baseB, l.baseA, l.modeB, l.modeA, s.ba, s.ab);
    } else {
      hide Fits, SystemInv, Lossless, Act;
      var prefix, m := moves[..|moves| - 1], moves[|moves| - 1];
      var s := Run(l, prefix);
      if m.byA {
        FitsBefore(s.a, s.ba, m.event, l.baseA);
      } else {
        FitsBefore(s.b, s.ab, m.event, l.baseB);
      }
      RunKeeps(l, prefix);
      StepKeeps(s, m, l);
      if NoAging(moves) {
        assert NoAging(prefix) by {
          assert forall i :: 0 <= i < |prefix| ==> prefix[i] == moves[i];
        }
        StepLossless(s, m, l);
      }
    }
  }

  // ----- The main theorems -----

  /** Each segment starts at or behind the end of those before it. */
  predicate InStreamOrder(d: seq<Segment>) {
    forall i, j :: 0 <= i < j < |d| ==> End(d[i]) <= d[j].seqNum
  }

  /** d picks segments of q in order, exactly those below `ack`, which no segment straddles. */
  predicate Below(q: seq<Segment>, d: seq<Segment>, ack: int) {
    && (forall s :: s in d ==> s in q && End(s) <= ack)
    && InStreamOrder(d)
    && (forall s :: s in q && s.seqNum < ack ==> s in d)
    && (forall s :: s in q ==> End(s) <= ack || ack <= s.seqNum)
  }

  lemma BelowHead(q: seq<Segment>, d: seq<Segment>, base: int, top: int, ack: int)
    requires q != [] && Contiguous(q, base, top) && Below(q, d, ack) && q[0].seqNum < ack
    ensures d != [] && d[0] == q[0] && End(q[0]) <= ack
  {
    hide Flatten;
    ContiguousBounds(q[1..], End(q[0]), top);
    assert q == [q[0]] + q[1..] && q[0] in q && q[0] in d;
    var i :| 0 <= i < |d| && d[i] == q[0];
    assert d[0] in d && d[0] in q;
  }

  lemma OrderTail(first: Segment, e: seq<Segment>)
    requires InStreamOrder([first] + e)
    ensures InStreamOrder(e) && forall s :: s in e ==> End(first) <= s.seqNum
  {
    var d := [first] + e;
    forall j | 0 <= j < |e| ensures End(first) <= e[j].seqNum {
      assert d[j + 1] == e[j] && End(d[0]) <= d[j + 1].seqNum;
    }
    forall i, j | 0 <= i < j < |e| ensures End(e[i]) <= e[j].seqNum {
      assert d[i + 1] == e[i] && d[j + 1] == e[j];
    }
  }

  lemma BelowTail(first: Segment, rest: seq<Segment>, e: seq<Segment>, ack: int)
    requires first.payload != [] && Below([first] + rest, [first] + e, ack)
    requires forall s :: s in rest ==> End(first) <= s.seqNum
    ensures Below(rest, e, ack)
  {
    OrderTail(first, e);
    hide InStreamOrder;
    assert first !in rest && first !in e;
    forall s | s in e ensures s in rest && End(s) <= ack {
      assert s in [first] + e;
    }
    forall s | s in rest && s.seqNum < ack ensures s in e {
      assert s in [first] + e;
    }
    assert forall s :: s in rest ==> s in [first] + rest;
  }

  lemma HasMember(d: seq<Segment>)
    ensures d == [] || exists s :: s in d
  {
    assert d != [] ==> d[0] in d;
  }

  lemma NothingBelow(q: seq<Segment>, d: seq<Segment>, base: int, top: int, ack: int)
    requires Contiguous(q, base, top) && Below(q, d, ack) && base <= ack <= top
    requires q == [] || ack <= q[0].seqNum
    ensures d == [] && ack == base
  {
    ContiguousBounds(q, base, top);
    HasMember(d);
  }

  lemma PrefixCons(first: Segment, rest: seq<Segment>, e: seq<Segment>)
    requires |e| <= |rest| && e == rest[..|e|]
    ensures [first] + e == ([first] + rest)[..|e| + 1]
    ensures |Flatten([first] + e)| == |first.payload| + |Flatten(e)|
  {
    FlattenHead([first] + e);
    assert ([first] + e)[1..] == e;
  }

  /** An ascending choice of segments that holds everything below `ack` is a prefix of the stream. */
  lemma {:induction false} CompleteIsPrefix(q: seq<Segment>, d: seq<Segment>, base: int, top: int, ack: int)
    requires Contiguous(q, base, top) && base <= ack <= top && Below(q, d, ack)
    ensures |d| <= |q| && d == q[..|d|] && ack == base + |Flatten(d)|
    decreases q, 1
  {
    hide Below;
    if q == [] || ack <= q[0].seqNum {
      NothingBelow(q, d, base, top, ack);
      assert Flatten(d) == [];
    } else {
      hide Flatten;
      BelowHead(q, d, base, top, ack);
      ContiguousBounds(q[1..], End(q[0]), top);
      CompleteStep(q, d, base, top, ack);
    }
  }

  lemma {:induction false} CompleteStep(q: seq<Segment>, d: seq<Segment>, base: int, top: int, ack: int)
    requires q != [] && d != [] && d[0] == q[0] && End(q[0]) <= ack
    requires Contiguous(q, base, top) && base <= ack <= top && Below(q, d, ack)
    requires forall s :: s in q[1..] ==> End(q[0]) <= s.seqNum
    ensures |d| <= |q| && d == q[..|d|] && ack == base + |Flatten(d)|
    decreases q, 0
  {
    hide Below, Flatten;
    var first, rest, e := q[0], q[1..], d[1..];
    assert q == [first] + rest && d == [first] + e;
    BelowTail(first, rest, e, ack);
    CompleteIsPrefix(rest, e, End(first), top, ack);
    PrefixCons(first, rest, e);
  }

  /** y has delivered the first bytes that x's Write accepted, and its acknowledgment number counts them. */
  ghost predicate InOrder(x: Endpoint, y: Endpoint, base: int) {
    && |y.recv.delivered| <= |x.written|
    && y.recv.delivered == x.written[..|y.recv.delivered|]
    && Flatten(y.recv.delivered) <= x.accepted
    && y.recv.ack.ack == base + |Flatten(y.recv.delivered)|
  }

  lemma DirectionInOrder(x: Endpoint, y: Endpoint, xy: set<Segment>, yx: set<Segment>, base: int)
    requires Direction(x, y, xy, yx, base) && Complete(Elements(x.written), y.recv)
    ensures InOrder(x, y, base)
  {
    hide Flatten, Contiguous;
    var d := y.recv.delivered;
    LinkBounds(x, y, base);
    assert y.recv.ack.ack in Edges(Elements(x.written), base, x.send.next);
    assert forall s :: s in x.written ==> s in Elements(x.written);
    CompleteIsPrefix(x.written, d, base, x.send.next, y.recv.ack.ack);
    FlattenAppend(x.written[..|d|], x.written[|d|..]);
    assert x.written == x.written[..|d|] + x.written[|d|..];
  }

  /**
   End to end: in every run without aging, over any loss, duplication and reordering, an end with SACK
   negotiated and retransmission on has read exactly a prefix of what the other wrote, segment by segment,
   once each and in order, whatever the mode of the writer. Module `Modes` shows that no other reader has.
   */
  lemma {:induction false} EndToEnd(l: Link, moves: seq<Move>)
    requires NoWrap(Run(l, moves), l) && NoAging(moves)
    ensures Reliable(l.modeB) ==> InOrder(Run(l, moves).a, Run(l, moves).b, l.baseA)
    ensures Reliable(l.modeA) ==> InOrder(Run(l, moves).b, Run(l, moves).a, l.baseB)
  {
    hide Run, Direction, Complete;
    RunKeeps(l, moves);
    ModesStay(l, moves);
    var s := Run(l, moves);
    if Reliable(l.modeB) {
      DirectionInOrder(s.a, s.b, s.ab, s.ba, l.baseA);
    }
    if Reliable(l.modeA) {
      DirectionInOrder(s.b, s.a, s.ba, s.ab, l.baseB);
    }
  }

  /** In every run and mode, aging included, no packet anywhere acknowledges more than its sender has received. */
  lemma {:induction false} AcksNeverAhead(l: Link, moves: seq<Move>, p: Segment)
    requires NoWrap(Run(l, moves), l)
    ensures var s := Run(l, moves);
            && (From(s.b, s.ba, p) ==> l.baseA <= p.ackNum <= s.b.recv.ack.ack <= s.a.send.next)
            && (From(s.a, s.ab, p) ==> l.baseB <= p.ackNum <= s.a.recv.ack.ack <= s.b.send.next)
  {
    hide Run, From, SendInv, LinkInv;
    RunKeeps(l, moves);
    var s := Run(l, moves);
    LinkBounds(s.a, s.b, l.baseA);
    LinkBounds(s.b, s.a, l.baseB);
  }

  /** y reads segments that x wrote, in stream order and each at most once. */
  predicate ReadsInOrder(x: Endpoint, y: Endpoint) {
    && (forall i :: 0 <= i < |y.recv.delivered| ==> y.recv.delivered[i] in x.written)
    && InStreamOrder(y.recv.delivered)
  }

  /** In every run and mode, aging included, both readers see the other's segments in order, each at most once. */
  lemma {:induction false} OrderedInEveryRun(l: Link, moves: seq<Move>)
    requires NoWrap(Run(l, moves), l)
    ensures var s := Run(l, moves); ReadsInOrder(s.a, s.b) && ReadsInOrder(s.b, s.a)
  {
    hide Run, SendInv, AckInv;
    RunKeeps(l, moves);
    var s := Run(l, moves);
    RecvParts(Elements(s.a.written), l.baseA, s.a.send.next, s.b.recv);
    RecvParts(Elements(s.b.written), l.baseB, s.b.send.next, s.a.recv);
  }

  /** Whatever packet of y reaches x next, what it removes from x's resend map has been delivered at y. */
  predicate PrunesOnlyDelivered(x: Endpoint, y: Endpoint, yx: set<Segment>) {
    forall p, k ::
      p in yx && k in x.send.resend && k !in Pruned(x, p.ackNum) ==>
        x.send.resend[k].segment in y.recv.delivered
  }

  /** In every run without aging, an acknowledgment of a reliable reader removes only what it has delivered. */
  lemma {:induction false} AckedIsDelivered(l: Link, moves: seq<Move>)
    requires NoWrap(Run(l, moves), l) && NoAging(moves)
    ensures var s := Run(l, moves);
            && (Reliable(l.modeB) || !Reliable(l.modeA) ==> PrunesOnlyDelivered(s.a, s.b, s.ba))
            && (Reliable(l.modeA) || !Reliable(l.modeB) ==> PrunesOnlyDelivered(s.b, s.a, s.ab))
  {
    hide Run, Direction, Complete, Prune;
    RunKeeps(l, moves);
    ModesStay(l, moves);
    var s := Run(l, moves);
    DirectionPrunes(s.a, s.b, s.ab, s.ba, l.baseA);
    DirectionPrunes(s.b, s.a, s.ba, s.ab, l.baseB);
  }

  lemma DirectionPrunes(x: Endpoint, y: Endpoint, xy: set<Segment>, yx: set<Segment>, base: int)
    requires Direction(x, y, xy, yx, base) && Fits(x, base) && Lossless(x, y)
    ensures Reliable(y.mode) || !Reliable(x.mode) ==> PrunesOnlyDelivered(x, y, yx)
  {
    if Reliable(y.mode) {
      hide Direction, Complete, Pruned;
      forall p, k | p in yx && k in x.send.resend && k !in Pruned(x, p.ackNum)
        ensures x.send.resend[k].segment in y.recv.delivered
      {
        PrunedWasDelivered(x, y, xy, yx, base, p, k);
      }
    }
  }
}
