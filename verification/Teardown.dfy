/**
 The 4-way termination of lib/connection.go with one closing side, over a network that loses,
 duplicates and reorders. Data still arrives at both sides while they close: neither handler stops
 taking data packets before its last step, and every accepted one is acknowledged.
 */
module Teardown {
  import opened Serial
  import opened Sack
  import opened Receiver
  import opened Reassembly
  import opened Delivery

  datatype CallerState = CallerIdle | CallerFinSent | CallerAckSent

  datatype ResponderState = ResponderIdle | RespFinAckSent | RespAckReceived

  /** The termination fields of one Connection, with its receiver; `reliable` is its configuration. */
  datatype Side<S> = Side(
    state: S, termStartSeq: Seq32, termStartPeerSeq: Seq32, recv: RecvState, next: Seq32, writeOnHold: bool,
    reliable: bool)

  type Caller = Side<CallerState>
  type Responder = Side<ResponderState>

  /** A packet without payload; every one has the ACK flag. */
  datatype Packet = Packet(seqNum: Seq32, ackNum: Seq32, fin: bool)

  function WithLastAck(r: RecvState, n: Seq32): RecvState {
    r.(ack := AckState(n, r.ack.blocks))
  }

  // ----- Data while the connection closes -----

  predicate TakesData<S>(x: Side<S>, p: Segment) {
    p.payload != [] && Accepts(x.reliable, x.recv, p)
  }

  /** The data branch of handleIncomingPackets. */
  function TakeData<S>(x: Side<S>, p: Segment, aged: set<Seq32>): Side<S> {
    x.(recv := HandleData(x.reliable, x.recv, p, aged))
  }

  /** acknowledge. */
  function DataAckOf<S>(x: Side<S>): Packet {
    Packet(x.next, Wire(x.recv.ack.ack), false)
  }

  // ----- Steps of the closing side -----

  /** termCallerSendFin. */
  function FinOf(c: Caller): Packet {
    Packet(c.termStartSeq, c.termStartPeerSeq, true)
  }

  /** initTermination: termStartSeq is not assigned, here or anywhere else on this side. */
  function InitTermination(c: Caller): Caller {
    c.(state := CallerFinSent, termStartPeerSeq := Wire(c.recv.ack.ack), next := SeqIncrement(c.next),
       writeOnHold := true)
  }

  /** termCallerSendAck. */
  function LastAckOf(c: Caller): Packet {
    Packet(SeqIncrement(c.termStartSeq), SeqIncrement(c.termStartPeerSeq), false)
  }

  predicate IsFinAck(c: Caller, p: Packet) {
    c.state.CallerFinSent? && p.fin
    && p.seqNum == c.termStartPeerSeq && p.ackNum == SeqIncrement(c.termStartSeq)
  }

  function HandleFinAck(c: Caller, p: Packet): Caller {
    c.(state := CallerAckSent, recv := WithLastAck(c.recv, SeqIncrement(p.seqNum)))
  }

  // ----- Steps of the other side -----

  function HandleFin(r: Responder, p: Packet): Responder {
    r.(state := RespFinAckSent, termStartSeq := p.ackNum, termStartPeerSeq := SeqIncrement(p.seqNum),
       recv := WithLastAck(r.recv, SeqIncrement(p.seqNum)), writeOnHold := true)
  }

  /** termRespSendFinAck. */
  function FinAckOf(r: Responder): Packet {
    Packet(r.termStartSeq, r.termStartPeerSeq, true)
  }

  predicate IsLastAck(r: Responder, p: Packet) {
    r.state.RespFinAckSent? && !p.fin
    && p.seqNum == r.termStartPeerSeq && p.ackNum == SeqIncrement(r.termStartSeq)
  }

  // ----- The system -----

  datatype Event =
    | Close
    | CallerTimer
    | CallerWrites(count: nat)
    | CallerReceives(finAck: Packet)
    | CallerData(data: Segment, aged: set<Seq32>)
    | ResponderReceives(arrived: Packet)
    | ResponderData(data: Segment, aged: set<Seq32>)
    | ResponderWrites(count: nat)
    | ResponderTimer

  datatype Pair = Pair(c: Caller, r: Responder, toResponder: set<Packet>, toCaller: set<Packet>)

  function Step(s: Pair, e: Event): Pair {
    match e
    case Close =>
      if s.c.state.CallerIdle? then
        var c := InitTermination(s.c);
        s.(c := c, toResponder := s.toResponder + {FinOf(c)})
      else s
    case CallerTimer => if s.c.state.CallerFinSent? then s.(toResponder := s.toResponder + {FinOf(s.c)}) else s
    case CallerWrites(n) => if s.c.writeOnHold then s else s.(c := s.c.(next := SeqIncrementBy(s.c.next, n)))
    case CallerReceives(p) =>
      if p in s.toCaller && IsFinAck(s.c, p) then
        var c := HandleFinAck(s.c, p);
        s.(c := c, toResponder := s.toResponder + {LastAckOf(c)})
      else s
    case CallerData(p, aged) =>
      if s.c.state.CallerAckSent? || !TakesData(s.c, p) then s
      else
        var c := TakeData(s.c, p, aged);
        s.(c := c, toResponder := s.toResponder + {DataAckOf(c)})
    case ResponderReceives(p) =>
      if p !in s.toResponder then s
      else if p.fin && s.r.state.ResponderIdle? then
        var r := HandleFin(s.r, p);
        s.(r := r, toCaller := s.toCaller + {FinAckOf(r)})
      else if IsLastAck(s.r, p) then s.(r := s.r.(state := RespAckReceived))
      else s
    case ResponderData(p, aged) =>
      if s.r.state.RespAckReceived? || !TakesData(s.r, p) then s
      else
        var r := TakeData(s.r, p, aged);
        s.(r := r, toCaller := s.toCaller + {DataAckOf(r)})
    case ResponderWrites(n) => if s.r.writeOnHold then s else s.(r := s.r.(next := SeqIncrementBy(s.r.next, n)))
    case ResponderTimer => if s.r.state.RespFinAckSent? then s.(toCaller := s.toCaller + {FinAckOf(s.r)}) else s
  }

  function Run(c: Caller, r: Responder, events: seq<Event>): Pair {
    if events == [] then Pair(c, r, {}, {})
    else Step(Run(c, r, events[..|events| - 1]), events[|events| - 1])
  }

  /** Both ends in the data phase. */
  predicate Running(c: Caller, r: Responder) {
    c.state.CallerIdle? && r.state.ResponderIdle? && !c.writeOnHold && !r.writeOnHold
  }

  // ----- Agreement -----

  /** Where each side may be, and what the two agree on. */
  predicate Inv(s: Pair, start: Seq32) {
    && s.c.termStartSeq == start
    && (s.c.state.CallerIdle? ==> s.r.state.ResponderIdle? && !s.c.writeOnHold)
    && (s.r.state.ResponderIdle? ==> !s.r.writeOnHold)
    && (!s.c.state.CallerIdle? ==> FinOf(s.c) in s.toResponder && s.c.writeOnHold)
    && (forall p :: p in s.toResponder && p.fin ==> !s.c.state.CallerIdle? && p == FinOf(s.c))
    && (forall p :: p in s.toCaller && p.fin ==> !s.r.state.ResponderIdle? && p == FinAckOf(s.r))
    && (!s.r.state.ResponderIdle? ==>
          s.r.termStartSeq == s.c.termStartPeerSeq && s.r.termStartPeerSeq == SeqIncrement(s.c.termStartSeq))
    && (s.c.state.CallerAckSent? ==> !s.r.state.ResponderIdle?)
    && (s.r.state.RespAckReceived? ==> LastAckOf(s.c) in s.toResponder)
    && (!s.r.state.ResponderIdle? ==> FinAckOf(s.r) in s.toCaller && s.r.writeOnHold)
    && (s.c.state.CallerAckSent? ==>
          LastAckOf(s.c) in s.toResponder && s.c.recv.ack.ack == SeqIncrement(s.c.termStartPeerSeq))
  }

  lemma StepKeeps(s: Pair, e: Event, start: Seq32)
    requires Inv(s, start)
    ensures Inv(Step(s, e), start)
  {
    hide SeqIncrement, SeqIncrementBy, HandleData, Accepts, Wire;
  }

  lemma {:induction false} RunKeeps(c: Caller, r: Responder, events: seq<Event>)
    requires Running(c, r)
    ensures Inv(Run(c, r, events), c.termStartSeq)
    decreases events
  {
    if events != [] {
      hide Inv, Step;
      RunKeeps(c, r, events[..|events| - 1]);
      StepKeeps(Run(c, r, events[..|events| - 1]), events[|events| - 1], c.termStartSeq);
    } else {
      hide SeqIncrement;
    }
  }

  /**
   In every run, with q the caller's termStartSeq and n its lastAckNumber at Close: every FIN carries q and
   n, every FIN-ACK n and q + 1, the last ACK q + 1 and n + 1, and n + 1 is what the caller ends with.
   */
  lemma {:induction false} TerminationNumbers(c: Caller, r: Responder, events: seq<Event>, p: Packet)
    requires Running(c, r)
    ensures var s := Run(c, r, events);
            var q, n := c.termStartSeq, s.c.termStartPeerSeq;
            && (p in s.toResponder && p.fin ==> p == Packet(q, n, true))
            && (p in s.toCaller && p.fin ==> p == Packet(n, SeqIncrement(q), true))
            && (s.c.state.CallerAckSent? ==>
                  Packet(SeqIncrement(q), SeqIncrement(n), false) in s.toResponder
                  && s.c.recv.ack.ack == SeqIncrement(n))
  {
    hide Run, SeqIncrement;
    RunKeeps(c, r, events);
  }

  lemma HoldStep(s: Pair, e: Event, start: Seq32)
    requires Inv(s, start)
    ensures !s.c.state.CallerIdle? ==> !Step(s, e).c.state.CallerIdle? && Step(s, e).c.next == s.c.next
    ensures !s.r.state.ResponderIdle? ==> !Step(s, e).r.state.ResponderIdle? && Step(s, e).r.next == s.r.next
  {
    hide SeqIncrement, SeqIncrementBy, HandleData, Accepts, WithLastAck, Wire;
  }

  /**
   Each side is on hold from its first FIN step on: whatever it tries to write and whatever arrives, its next
   sequence number does not move any more.
   */
  lemma {:induction false} NoWritesFromFin(c: Caller, r: Responder, events: seq<Event>, more: seq<Event>)
    requires Running(c, r)
    ensures var s, after := Run(c, r, events), Run(c, r, events + more);
            && (!s.c.state.CallerIdle? ==>
                  s.c.writeOnHold && !after.c.state.CallerIdle? && after.c.next == s.c.next)
            && (!s.r.state.ResponderIdle? ==>
                  s.r.writeOnHold && !after.r.state.ResponderIdle? && after.r.next == s.r.next)
    decreases more
  {
    hide Step, Inv;
    OnHold(c, r, events);
    if more == [] {
      assert events + more == events;
    } else {
      var prefix := more[..|more| - 1];
      assert (events + more)[..|events + more| - 1] == events + prefix;
      NoWritesFromFin(c, r, events, prefix);
      RunKeeps(c, r, events + prefix);
      HoldStep(Run(c, r, events + prefix), more[|more| - 1], c.termStartSeq);
    }
  }

  lemma OnHold(c: Caller, r: Responder, events: seq<Event>)
    requires Running(c, r)
    ensures var s := Run(c, r, events);
            (!s.c.state.CallerIdle? ==> s.c.writeOnHold) && (!s.r.state.ResponderIdle? ==> s.r.writeOnHold)
  {
    hide Run;
    RunKeeps(c, r, events);
  }

  /** In every run each side writes, and its next sequence number moves by what it writes, exactly before its FIN. */
  lemma {:induction false} WritesExactlyBeforeFin(c: Caller, r: Responder, events: seq<Event>, n: nat)
    requires Running(c, r)
    ensures var s := Run(c, r, events);
            && Step(s, CallerWrites(n)).c.next
               == (if s.c.state.CallerIdle? then SeqIncrementBy(s.c.next, n) else s.c.next)
            && Step(s, ResponderWrites(n)).r.next
               == (if s.r.state.ResponderIdle? then SeqIncrementBy(s.r.next, n) else s.r.next)
  {
    hide Run, SeqIncrement, SeqIncrementBy;
    RunKeeps(c, r, events);
  }

  /** The three packets that complete the termination, from wherever it stands. */
  function Finish(s: Pair): seq<Event> {
    var q, n := s.c.termStartSeq, s.c.termStartPeerSeq;
    [ResponderReceives(Packet(q, n, true)), CallerReceives(Packet(n, SeqIncrement(q), true)),
     ResponderReceives(Packet(SeqIncrement(q), SeqIncrement(n), false))]
  }

  lemma RunThree(c: Caller, r: Responder, events: seq<Event>, a: Event, b: Event, d: Event)
    ensures Run(c, r, events + [a, b, d]) == Step(Step(Step(Run(c, r, events), a), b), d)
  {
    hide Step, Run;
    RunLast(c, r, events, a);
    RunLast(c, r, events + [a], b);
    RunLast(c, r, events + [a] + [b], d);
    assert events + [a] + [b] + [d] == events + [a, b, d];
  }

  lemma RunLast(c: Caller, r: Responder, events: seq<Event>, e: Event)
    ensures Run(c, r, events + [e]) == Step(Run(c, r, events), e)
  {
    hide Step;
    assert (events + [e])[..|events|] == events;
  }

  /** From every state in which both sides still wait, three arrivals bring both to their final state. */
  lemma {:induction false} CanComplete(c: Caller, r: Responder, events: seq<Event>)
    requires Running(c, r)
    requires var s := Run(c, r, events); s.c.state.CallerFinSent? && !s.r.state.RespAckReceived?
    ensures var s := Run(c, r, events);
            var after := Run(c, r, events + Finish(s));
            after.c.state.CallerAckSent? && after.r.state.RespAckReceived?
  {
    hide Run;
    var s := Run(c, r, events);
    RunKeeps(c, r, events);
    var e := Finish(s);
    RunThree(c, r, events, e[0], e[1], e[2]);
    hide SeqIncrement, WithLastAck;
    var s1 := Step(s, e[0]);
    StepKeeps(s, e[0], c.termStartSeq);
    assert s1.c == s.c && s1.r.state.RespFinAckSent?;
    var s2 := Step(s1, e[1]);
    StepKeeps(s1, e[1], c.termStartSeq);
    assert s2.c.state.CallerAckSent? && s2.r == s1.r;
  }

  /** In every state, of all packets exactly one ends each side, and exactly a first FIN starts the responder. */
  lemma {:induction false} OnlyTheRightPacket(s: Pair, p: Packet)
    ensures Step(s, CallerReceives(p)).c != s.c <==>
              && s.c.state.CallerFinSent? && p in s.toCaller
              && p == Packet(s.c.termStartPeerSeq, SeqIncrement(s.c.termStartSeq), true)
    ensures Step(s, ResponderReceives(p)).r.state.RespAckReceived? && !s.r.state.RespAckReceived? <==>
              && s.r.state.RespFinAckSent? && p in s.toResponder
              && p == Packet(s.r.termStartPeerSeq, SeqIncrement(s.r.termStartSeq), false)
    ensures p.fin && !s.r.state.ResponderIdle? ==> Step(s, ResponderReceives(p)) == s
  {
    hide SeqIncrement;
  }

  // ----- Acknowledgments of data that look like the last ACK -----

  /** A packet of the caller that the responder cannot tell from the last ACK is under way before that is sent. */
  predicate Collided(s: Pair) {
    s.c.state.CallerFinSent? && LastAckOf(s.c) in s.toResponder
  }

  /** Feed the responder the FIN and then a packet with the two numbers of the last ACK. */
  function Rush(s: Pair): seq<Event> {
    [ResponderReceives(FinOf(s.c)), ResponderReceives(LastAckOf(s.c))]
  }

  lemma RunTwo(c: Caller, r: Responder, events: seq<Event>, a: Event, b: Event)
    ensures Run(c, r, events + [a, b]) == Step(Step(Run(c, r, events), a), b)
  {
    hide Step, Run;
    RunLast(c, r, events, a);
    RunLast(c, r, events + [a], b);
    assert events + [a] + [b] == events + [a, b];
  }

  /** Whenever the caller waits, the responder can be made to finish first exactly if there is a collision. */
  lemma {:induction false} EarlyEndIff(c: Caller, r: Responder, events: seq<Event>)
    requires Running(c, r) && Run(c, r, events).c.state.CallerFinSent?
    ensures var s := Run(c, r, events);
            var after := Run(c, r, events + Rush(s));
            after.r.state.RespAckReceived? && after.c.state.CallerFinSent? <==> Collided(s)
  {
    hide Run;
    var s := Run(c, r, events);
    RunKeeps(c, r, events);
    RunTwo(c, r, events, Rush(s)[0], Rush(s)[1]);
    hide SeqIncrement, WithLastAck;
    var s1 := Step(s, Rush(s)[0]);
    StepKeeps(s, Rush(s)[0], c.termStartSeq);
    assert s1.c == s.c && s1.toResponder == s.toResponder && !s1.r.state.ResponderIdle?;
  }

  // ----- Which acknowledgments collide -----

  /** The packets that can reach the caller come from a stream cut once, as in the data phase. */
  predicate CallerTiled(all: set<Segment>, events: seq<Event>) {
    forall i :: 0 <= i < |events| && events[i].CallerData? ==> events[i].data in all
  }

  ghost predicate Receiving<S>(x: Side<S>, all: set<Segment>, lo: int, top: int, start: int) {
    && RecvInv(all, lo, top, x.recv)
    && (!x.reliable ==> x.recv.cache == map[] && x.recv.ack.blocks == [] && x.recv.ack.ack == LastEnd(x.recv, start))
  }

  /** Acknowledgments from before Close acknowledge no more than it found; later ones carry the new number. */
  ghost predicate AckBounds(s: Pair, all: set<Segment>, lo: int, top: int, start: int) {
    && !s.c.state.CallerAckSent? ==>
         && Receiving(s.c, all, lo, top, start)
         && (!s.c.state.CallerIdle? ==> lo <= s.c.termStartPeerSeq <= top)
         && forall p :: p in s.toResponder && !p.fin ==>
              && lo <= p.ackNum <= top
              && (s.c.state.CallerIdle? ==> p.ackNum <= s.c.recv.ack.ack)
              && (s.c.state.CallerFinSent? ==> p.ackNum <= s.c.termStartPeerSeq || p.seqNum == s.c.next)
  }

  lemma DataKeeps<S>(x: Side<S>, all: set<Segment>, lo: int, top: int, start: int, p: Segment, aged: set<Seq32>)
    requires Tiling(all, lo, top) && Receiving(x, all, lo, top, start) && p in all
    ensures Receiving(TakeData(x, p, aged), all, lo, top, start)
    ensures lo <= x.recv.ack.ack <= TakeData(x, p, aged).recv.ack.ack <= top
  {
    hide RecvInv, Tiling, HandleData;
    StepDelivery(x.reliable, all, lo, top, start, x.recv, Arrival(p, aged));
    AckIsWire(all, lo, top, x.recv);
    AckIsWire(all, lo, top, TakeData(x, p, aged).recv);
  }

  lemma BoundsStep(s: Pair, e: Event, c0: Seq32, all: set<Segment>, lo: int, top: int, start: int)
    requires Tiling(all, lo, top) && Inv(s, c0) && AckBounds(s, all, lo, top, start)
    requires e.CallerData? ==> e.data in all
    ensures AckBounds(Step(s, e), all, lo, top, start)
  {
    if !s.c.state.CallerAckSent? {
      AckIsWire(all, lo, top, s.c.recv);
      if e.CallerData? {
        DataBounds(s, e, c0, all, lo, top, start);
      } else {
        OtherBounds(s, e, all, lo, top, start);
      }
    } else {
      hide AckBounds, Receiving;
      assert Step(s, e).c.state.CallerAckSent?;
      NoBounds(Step(s, e), all, lo, top, start);
    }
  }

  lemma NoBounds(s: Pair, all: set<Segment>, lo: int, top: int, start: int)
    requires s.c.state.CallerAckSent?
    ensures AckBounds(s, all, lo, top, start)
  {
  }

  lemma DataBounds(s: Pair, e: Event, c0: Seq32, all: set<Segment>, lo: int, top: int, start: int)
    requires Tiling(all, lo, top) && AckBounds(s, all, lo, top, start) && !s.c.state.CallerAckSent?
    requires e.CallerData? && e.data in all
    ensures AckBounds(Step(s, e), all, lo, top, start)
  {
    DataKeeps(s.c, all, lo, top, start, e.data, e.aged);
    assert 0 <= lo && top < MODULUS;
    hide Receiving, Tiling, HandleData, Accepts;
  }

  lemma OtherBounds(s: Pair, e: Event, all: set<Segment>, lo: int, top: int, start: int)
    requires AckBounds(s, all, lo, top, start) && !s.c.state.CallerAckSent? && !e.CallerData?
    requires lo <= s.c.recv.ack.ack <= top && 0 <= lo && top < MODULUS
    requires !s.c.state.CallerIdle? ==> s.c.writeOnHold
    ensures AckBounds(Step(s, e), all, lo, top, start)
  {
    hide RecvInv, HandleData, Accepts, SeqIncrement, SeqIncrementBy, WithLastAck, LastEnd;
  }

  lemma {:induction false} RunBounds(
    c: Caller, r: Responder, events: seq<Event>, all: set<Segment>, lo: int, top: int, start: int)
    requires Running(c, r) && Tiling(all, lo, top) && Receiving(c, all, lo, top, start) && CallerTiled(all, events)
    ensures AckBounds(Run(c, r, events), all, lo, top, start)
    decreases events
  {
    if events != [] {
      hide Inv, Step, AckBounds, Receiving, Tiling;
      var prefix := events[..|events| - 1];
      assert CallerTiled(all, prefix) by {
        assert forall i :: 0 <= i < |prefix| ==> prefix[i] == events[i];
      }
      RunBounds(c, r, prefix, all, lo, top, start);
      RunKeeps(c, r, prefix);
      BoundsStep(Run(c, r, prefix), events[|events| - 1], c.termStartSeq, all, lo, top, start);
    }
  }

  /** The number after Close is the one after termStartSeq. */
  predicate NumbersMeet(c: Caller) {
    c.next == SeqIncrement(c.termStartSeq)
  }

  /**
   In every run, with data arriving at both sides throughout: the two sides agree on both termination
   numbers, the caller sends its last ACK only after the responder's FIN-ACK, and the responder completes
   only after the caller's last ACK, unless the caller's sequence number after Close meets its termStartSeq.
   */
  lemma TeardownSafety(c: Caller, r: Responder, events: seq<Event>, all: set<Segment>, lo: int, top: int, start: int)
    requires Running(c, r) && Tiling(all, lo, top) && Receiving(c, all, lo, top, start) && CallerTiled(all, events)
    ensures var s := Run(c, r, events);
            && (!s.r.state.ResponderIdle? ==>
                  && s.r.termStartSeq == s.c.termStartPeerSeq
                  && s.r.termStartPeerSeq == SeqIncrement(s.c.termStartSeq))
            && (s.c.state.CallerAckSent? ==> !s.r.state.ResponderIdle?)
            && (s.r.state.RespAckReceived? ==> s.c.state.CallerAckSent? || NumbersMeet(s.c))
  {
    hide Run, Receiving;
    RunKeeps(c, r, events);
    RunBounds(c, r, events, all, lo, top, start);
  }

  // ----- The exception is real -----

  /** The acknowledgment number moves by exactly one byte: an in-order byte that closes no gap. */
  predicate OneByteMore<S>(x: Side<S>, p: Segment) {
    && p.seqNum == x.recv.ack.ack && |p.payload| == 1
    && (x.recv.ack.blocks != [] ==> x.recv.ack.blocks[0].leftEdge != End(p))
  }

  lemma MovesByOneIff<S>(x: Side<S>, all: set<Segment>, lo: int, top: int, start: int, p: Segment)
    requires Tiling(all, lo, top) && Receiving(x, all, lo, top, start) && p in all && TakesData(x, p)
    ensures TakeData(x, p, {}).recv.ack.ack == x.recv.ack.ack + 1 <==> OneByteMore(x, p)
  {
    hide Update, Tiling, RecvInv;
    if x.reliable {
      CacheAfter(x.recv, p, p.seqNum);
      if p.seqNum == x.recv.ack.ack {
        InOrderAck(all, lo, top, x.recv, p);
        RecvSound(all, lo, top, x.recv);
        if x.recv.ack.blocks != [] {
          assert x.recv.ack.blocks[0] in x.recv.ack.blocks;
        }
      } else {
        NoAdvance(all, lo, top, x.recv, p);
      }
    } else {
      PassThroughKeeps(all, lo, top, x.recv, p);
    }
  }

  /** The run in which the responder finishes first: one data packet reaches the caller while it waits. */
  function EarlyEnd(c: Caller, p: Segment): seq<Event> {
    var closed := InitTermination(c);
    [Close, ResponderReceives(FinOf(closed)), CallerData(p, {}), ResponderReceives(DataAckOf(TakeData(closed, p, {})))]
  }

  lemma RunFour(c: Caller, r: Responder, a: Event, b: Event, d: Event, e: Event)
    ensures Run(c, r, [a, b, d, e]) == Step(Step(Step(Step(Pair(c, r, {}, {}), a), b), d), e)
  {
    hide Step;
    RunTwo(c, r, [], a, b);
    RunTwo(c, r, [a, b], d, e);
    assert [] + [a, b] == [a, b] && [a, b] + [d, e] == [a, b, d, e];
  }

  /** In this run the responder finishes before the caller exactly if the numbers meet and p is one in-order byte. */
  lemma {:induction false} CollisionIsExact(
    c: Caller, r: Responder, all: set<Segment>, lo: int, top: int, start: int, p: Segment)
    requires Running(c, r) && Tiling(all, lo, top) && Receiving(c, all, lo, top, start) && p in all && TakesData(c, p)
    ensures var s := Run(c, r, EarlyEnd(c, p));
            s.r.state.RespAckReceived? && s.c.state.CallerFinSent?
            <==> c.next == c.termStartSeq && OneByteMore(c, p)
  {
    hide Run;
    var closed := InitTermination(c);
    var fin, events := FinOf(closed), EarlyEnd(c, p);
    RunFour(c, r, events[0], events[1], events[2], events[3]);
    MovesByOneIff(c, all, lo, top, start, p);
    DataKeeps(c, all, lo, top, start, p, {});
    MeetIff(c, TakeData(c, p, {}), lo, top);
    assert lo <= top < MODULUS && top - lo < HALF && 0 <= lo;
    hide Tiling, Receiving, HandleData, Accepts, WithLastAck, SeqIncrement, OneByteMore;
    var s1 := Step(Pair(c, r, {}, {}), events[0]);
    assert s1.c == closed && fin in s1.toResponder;
    var s2 := Step(s1, events[1]);
    assert s2.r == HandleFin(r, fin) && s2.c == closed;
    var s3 := Step(s2, events[2]);
    assert s3.c == TakeData(closed, p, {}) && DataAckOf(s3.c) in s3.toResponder && s3.r == s2.r;
  }

  lemma MeetIff(c: Caller, after: Caller, lo: int, top: int)
    requires 0 <= lo <= c.recv.ack.ack <= after.recv.ack.ack <= top < MODULUS && top - lo < HALF
    ensures SeqIncrement(c.next) == SeqIncrement(c.termStartSeq) <==> c.next == c.termStartSeq
    ensures Wire(after.recv.ack.ack) == SeqIncrement(Wire(c.recv.ack.ack)) <==> after.recv.ack.ack == c.recv.ack.ack + 1
  {
  }

  // ----- What a FIN does to the receiver -----

  /**
   Because no code assigns the closing side's termStartSeq, it is 0: the FIN carries sequence number 0
   and in every run sets the receiver's lastAckNumber to 1, whatever it had received.
   */
  lemma FinResetsLastAck(c: Caller, r: Responder, events: seq<Event>, p: Packet)
    requires Running(c, r) && c.termStartSeq == 0
    requires var s := Run(c, r, events); s.r.state.ResponderIdle? && p in s.toResponder && p.fin
    ensures var s := Step(Run(c, r, events), ResponderReceives(p));
            s.r.state.RespFinAckSent? && s.r.recv.ack.ack == 1
  {
    hide Run;
    RunKeeps(c, r, events);
  }

  // ----- The connection object -----

  /** The termination fields of a Connection and the methods that move them. */
  class TermConnection {
    var terminationCallerState: CallerState
    var terminationRespState: ResponderState
    var termStartSeq: Seq32
    var termStartPeerSeq: Seq32
    const reliable: bool
    var lastAckNumber: Seq32
    var outSack: seq<Block>
    var revPacketCache: Cache
    var readChannel: seq<Segment>
    var nextSequenceNumber: Seq32
    var writeOnHold: bool

    constructor (next: Seq32, lastAck: Seq32, reliable: bool)
      ensures AsCaller() == Side(CallerIdle, 0, 0, Delivery.Fresh(lastAck), next, false, reliable)
      ensures AsResponder() == Side(ResponderIdle, 0, 0, Delivery.Fresh(lastAck), next, false, reliable)
    {
      terminationCallerState, terminationRespState := CallerIdle, ResponderIdle;
      termStartSeq, termStartPeerSeq := 0, 0;
      lastAckNumber, nextSequenceNumber, writeOnHold := lastAck, next, false;
      this.reliable, outSack, revPacketCache, readChannel := reliable, [], map[], [];
    }

    function Recv(): RecvState
      reads this
    {
      RecvState(AckState(lastAckNumber, outSack), revPacketCache, readChannel)
    }

    function AsCaller(): Caller
      reads this
    {
      Side(terminationCallerState, termStartSeq, termStartPeerSeq, Recv(), nextSequenceNumber, writeOnHold, reliable)
    }

    function AsResponder(): Responder
      reads this
    {
      Side(terminationRespState, termStartSeq, termStartPeerSeq, Recv(), nextSequenceNumber, writeOnHold, reliable)
    }

    /** initTermination. */
    method Close() returns (fin: Packet)
      modifies this`writeOnHold, this`termStartPeerSeq, this`terminationCallerState, this`nextSequenceNumber
      ensures AsCaller() == InitTermination(old(AsCaller())) && fin == FinOf(AsCaller())
    {
      writeOnHold := true;
      termStartPeerSeq := lastAckNumber;
      fin := Packet(termStartSeq, termStartPeerSeq, true);
      terminationCallerState := CallerFinSent;
      nextSequenceNumber := SeqIncrement(nextSequenceNumber);
    }

    /** The FIN and ACK branches of handleIncomingPackets; `closed` says that the loop ends. */
    method HandlePacket(p: Packet) returns (reply: seq<Packet>, closed: bool)
      modifies this
      ensures IsFinAck(old(AsCaller()), p) ==>
                && AsCaller() == HandleFinAck(old(AsCaller()), p) && reply == [LastAckOf(AsCaller())] && closed
                && terminationRespState == old(terminationRespState)
      ensures p.fin && old(terminationRespState).ResponderIdle? && old(terminationCallerState).CallerIdle? ==>
                && AsResponder() == HandleFin(old(AsResponder()), p) && reply == [FinAckOf(AsResponder())] && !closed
                && terminationCallerState == old(terminationCallerState)
      ensures IsLastAck(old(AsResponder()), p) ==>
                && AsResponder() == old(AsResponder()).(state := RespAckReceived) && reply == [] && closed
                && terminationCallerState == old(terminationCallerState)
      ensures !IsFinAck(old(AsCaller()), p) && !IsLastAck(old(AsResponder()), p)
              && !(p.fin && old(terminationRespState).ResponderIdle? && old(terminationCallerState).CallerIdle?) ==>
                && AsCaller() == old(AsCaller()) && AsResponder() == old(AsResponder()) && reply == [] && !closed
    {
      reply, closed := [], false;
      if p.fin {
        if terminationCallerState.CallerFinSent? {
          if p.seqNum == termStartPeerSeq && p.ackNum == SeqIncrement(termStartSeq) {
            lastAckNumber := SeqIncrement(p.seqNum);
            reply := [Packet(SeqIncrement(termStartSeq), SeqIncrement(termStartPeerSeq), false)];
            terminationCallerState := CallerAckSent;
            closed := true;
            return;
          }
        }
        if terminationRespState.ResponderIdle? && terminationCallerState.CallerIdle? {
          writeOnHold := true;
          lastAckNumber := SeqIncrement(p.seqNum);
          termStartSeq := p.ackNum;
          termStartPeerSeq := lastAckNumber;
          reply := [Packet(termStartSeq, termStartPeerSeq, true)];
          terminationRespState := RespFinAckSent;
        }
        return;
      }
      if terminationRespState.RespFinAckSent?
         && p.seqNum == termStartPeerSeq && p.ackNum == SeqIncrement(termStartSeq) {
        terminationRespState := RespAckReceived;
        closed := true;
      }
    }
  }
}
