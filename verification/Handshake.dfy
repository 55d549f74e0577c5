/**
 The 3-way handshake: `dial` (lib/pconn.go) against `handleSynPacket` and `handle3WayHandshake`
 (lib/service.go, lib/connection.go) for one connection key, over a network that loses, duplicates
 and reorders. A run is any sequence of events.
 */
module Handshake {
  import opened Bytes
  import opened Serial

  /** The options both sides negotiate. */
  datatype Offer = Offer(mss: U16, permitSack: bool, timestamps: bool)

  datatype Message =
    | Syn(seqNum: Seq32, offer: Offer)
    | SynAck(seqNum: Seq32, ackNum: Seq32, offer: Offer)
    | NonSyn(seqNum: Seq32, ackNum: Seq32)  // the final ACK, or any later packet of the client

  datatype ClientPhase = Dialing | ClientOpen | DialFailed

  /** The client's connection object; `offer` holds the proposal first and the outcome later. */
  datatype Client = Client(
    phase: ClientPhase, isn: Seq32, next: Seq32, offer: Offer, sackWanted: bool, sackEnabled: bool,
    peerIsn: Seq32, lastAck: Seq32, bidirectional: bool)

  datatype ServerPhase = Listening | SynAckSent | ServerOpen | HandshakeFailed

  /** The server's connection object for this key; `Listening` means there is none yet. */
  datatype Server = Server(
    phase: ServerPhase, preferred: Offer, sackWanted: bool, sackEnabled: bool, isn: Seq32, next: Seq32,
    offer: Offer, peerIsn: Seq32, lastAck: Seq32)

  /** Take the smaller MSS, or none at all if the peer names none. */
  function NegotiateMss(mine: U16, theirs: U16): U16 {
    if theirs > 0 then if theirs < mine then theirs else mine else 0
  }

  function SynOf(c: Client): Message {
    Syn(c.isn, c.offer)
  }

  function SynAckOf(s: Server): Message {
    SynAck(s.isn, SeqIncrement(s.peerIsn), s.offer)
  }

  function AckOf(c: Client): Message {
    NonSyn(SeqIncrement(c.isn), SeqIncrement(c.peerIsn))
  }

  // ----- Client steps -----

  /** The dispatcher only hands a temporary connection a SYN-ACK for its ISN or the number after it. */
  predicate PassesFilter(c: Client, m: Message)
    requires m.SynAck?
  {
    (m.ackNum - c.isn) % MODULUS < 2
  }

  function AcceptSynAck(c: Client, m: Message): Client
    requires m.SynAck?
  {
    var permit := c.offer.permitSack && m.offer.permitSack;
    c.(phase := ClientOpen,
       offer := Offer(NegotiateMss(c.offer.mss, m.offer.mss), permit, m.offer.timestamps),
       sackEnabled := permit && c.sackWanted,
       peerIsn := m.seqNum, lastAck := SeqIncrement(m.seqNum))
  }

  /** A repeated SYN-ACK is answered again until ordinary traffic has been seen. */
  predicate RepeatsAck(c: Client, m: Message)
    requires m.SynAck?
  {
    c.phase.ClientOpen? && !c.bidirectional && m.seqNum == c.peerIsn && m.ackNum == SeqIncrement(c.isn)
  }

  /** The packets the client sends on a SYN-ACK: its ACK, first or repeated, or nothing. */
  function Replies(c: Client, m: Message): seq<Message>
    requires m.SynAck?
  {
    if c.phase.Dialing? && PassesFilter(c, m) then [AckOf(AcceptSynAck(c, m))]
    else if RepeatsAck(c, m) then [AckOf(c)]
    else []
  }

  // ----- Server steps -----

  function AcceptSyn(s: Server, m: Message, isn: Seq32): Server
    requires m.Syn?
  {
    var permit := s.preferred.permitSack && m.offer.permitSack;
    s.(phase := SynAckSent, isn := isn, next := SeqIncrement(isn),
       offer := Offer(NegotiateMss(s.preferred.mss, m.offer.mss), permit, m.offer.timestamps),
       sackEnabled := permit && s.sackWanted,
       peerIsn := m.seqNum, lastAck := SeqIncrement(m.seqNum))
  }

  // ----- The system -----

  datatype Event =
    | ClientTimer                                    // SYN, first or repeated
    | ClientGivesUp
    | ClientReceives(message: Message)
    | ClientSends(seqNum: Seq32, ackNum: Seq32)      // data or ACK of an open connection
    | ClientSeesTraffic                              // a non-SYN packet from the server
    | ServerReceives(arrived: Message, isn: Seq32)   // isn is used only if a connection is created
    | ServerTimer                                    // repeated SYN-ACK
    | ServerGivesUp

  datatype Parties = Parties(c: Client, s: Server, toServer: set<Message>, toClient: set<Message>)

  function Step(p: Parties, e: Event): Parties {
    match e
    case ClientTimer =>
      if p.c.phase.Dialing? then p.(c := p.c.(next := SeqIncrement(p.c.isn)), toServer := p.toServer + {SynOf(p.c)})
      else p
    case ClientGivesUp => if p.c.phase.Dialing? then p.(c := p.c.(phase := DialFailed)) else p
    case ClientReceives(m) =>
      if m !in p.toClient || !m.SynAck? then p
      else
        var c := if p.c.phase.Dialing? && PassesFilter(p.c, m) then AcceptSynAck(p.c, m) else p.c;
        p.(c := c, toServer := p.toServer + set r | r in Replies(p.c, m))
    case ClientSends(q, a) => if p.c.phase.ClientOpen? then p.(toServer := p.toServer + {NonSyn(q, a)}) else p
    case ClientSeesTraffic => p.(c := p.c.(bidirectional := true))
    case ServerReceives(m, isn) =>
      if m !in p.toServer then p
      else if m.Syn? && p.s.phase.Listening? then
        var s := AcceptSyn(p.s, m, isn);
        p.(s := s, toClient := p.toClient + {SynAckOf(s)})
      else if m.NonSyn? && p.s.phase.SynAckSent? then p.(s := p.s.(phase := ServerOpen))
      else p
    case ServerTimer => if p.s.phase.SynAckSent? then p.(toClient := p.toClient + {SynAckOf(p.s)}) else p
    case ServerGivesUp => if p.s.phase.SynAckSent? then p.(s := p.s.(phase := HandshakeFailed)) else p
  }

  function Initial(isn: Seq32, mine: Offer, clientSack: bool, preferred: Offer, serverSack: bool): Parties {
    Parties(
      Client(Dialing, isn, isn, mine, clientSack, false, 0, 0, false),
      Server(Listening, preferred, serverSack, false, 0, 0, preferred, 0, 0), {}, {})
  }

  function Run(
    isn: Seq32, mine: Offer, clientSack: bool, preferred: Offer, serverSack: bool, events: seq<Event>): Parties
  {
    if events == [] then Initial(isn, mine, clientSack, preferred, serverSack)
    else Step(Run(isn, mine, clientSack, preferred, serverSack, events[..|events| - 1]), events[|events| - 1])
  }

  // ----- Agreement -----

  function Least(x: U16, y: U16): U16 {
    if x < y then x else y
  }

  /** What both ends must end up with. */
  function Agreed(mine: Offer, preferred: Offer): Offer {
    Offer(Least(mine.mss, preferred.mss), mine.permitSack && preferred.permitSack, mine.timestamps)
  }

  predicate ServerKnows(p: Parties, mine: Offer) {
    && p.s.peerIsn == p.c.isn && p.s.lastAck == SeqIncrement(p.c.isn) && p.s.next == SeqIncrement(p.s.isn)
    && p.s.offer == Agreed(mine, p.s.preferred)
    && p.s.sackEnabled == (p.s.offer.permitSack && p.s.sackWanted)
  }

  predicate ClientKnows(p: Parties) {
    && p.c.peerIsn == p.s.isn && p.c.lastAck == SeqIncrement(p.s.isn) && p.c.next == SeqIncrement(p.c.isn)
    && p.c.offer == p.s.offer
    && p.c.sackEnabled == (p.c.offer.permitSack && p.c.sackWanted)
  }

  predicate Inv(p: Parties, isn: Seq32, mine: Offer) {
    && p.c.isn == isn
    && (!p.c.phase.ClientOpen? ==> p.c.offer == mine)
    && (forall m :: m in p.toServer && m.Syn? ==> m == Syn(isn, mine) && p.c.next == SeqIncrement(isn))
    && (forall m :: m in p.toServer && m.NonSyn? ==> p.c.phase.ClientOpen?)
    && (forall m :: m in p.toServer ==> !m.SynAck?)
    && (forall m :: m in p.toClient ==> !p.s.phase.Listening? && m == SynAckOf(p.s))
    && (!p.s.phase.Listening? ==> ServerKnows(p, mine) && p.c.next == SeqIncrement(isn))
    && (p.c.phase.ClientOpen? ==> !p.s.phase.Listening? && ClientKnows(p))
    && (p.s.phase.ServerOpen? ==> p.c.phase.ClientOpen?)
  }

  lemma NegotiatedTwice(mine: U16, preferred: U16)
    ensures NegotiateMss(preferred, mine) == Least(mine, preferred)
    ensures NegotiateMss(mine, NegotiateMss(preferred, mine)) == Least(mine, preferred)
  {
  }

  lemma StepKeeps(p: Parties, e: Event, isn: Seq32, mine: Offer)
    requires Inv(p, isn, mine)
    ensures Inv(Step(p, e), isn, mine)
  {
    hide SeqIncrement;
    NegotiatedTwice(mine.mss, p.s.preferred.mss);
  }

  lemma InitialInv(isn: Seq32, mine: Offer, clientSack: bool, preferred: Offer, serverSack: bool)
    ensures Inv(Initial(isn, mine, clientSack, preferred, serverSack), isn, mine)
  {
  }

  lemma StepConfiguration(p: Parties, e: Event)
    ensures var after := Step(p, e);
            && after.s.preferred == p.s.preferred && after.s.sackWanted == p.s.sackWanted
            && after.c.sackWanted == p.c.sackWanted
  {
    hide SeqIncrement;
  }

  lemma {:induction false} RunKeeps(
    isn: Seq32, mine: Offer, clientSack: bool, preferred: Offer, serverSack: bool, events: seq<Event>)
    ensures var p := Run(isn, mine, clientSack, preferred, serverSack, events);
            Inv(p, isn, mine) && p.s.preferred == preferred && p.c.sackWanted == clientSack
            && p.s.sackWanted == serverSack
    decreases events
  {
    if events == [] {
      InitialInv(isn, mine, clientSack, preferred, serverSack);
    } else {
      hide Inv, Initial;
      var before := Run(isn, mine, clientSack, preferred, serverSack, events[..|events| - 1]);
      RunKeeps(isn, mine, clientSack, preferred, serverSack, events[..|events| - 1]);
      StepKeeps(before, events[|events| - 1], isn, mine);
      StepConfiguration(before, events[|events| - 1]);
      hide Step;
    }
  }

  /**
   In every run: an open server means an open client; and as soon as the client is open, each end
   expects exactly the other's first data byte, the MSS of both is the smaller of the two offers
   (0 if either is 0), and SACK permission and timestamps agree.
   */
  lemma HandshakeAgreement(
    isn: Seq32, mine: Offer, clientSack: bool, preferred: Offer, serverSack: bool, events: seq<Event>)
    ensures var p := Run(isn, mine, clientSack, preferred, serverSack, events);
            && (p.s.phase.ServerOpen? ==> p.c.phase.ClientOpen?)
            && (p.c.phase.ClientOpen? ==>
                  && p.s.lastAck == p.c.next == SeqIncrement(p.c.isn)
                  && p.c.lastAck == p.s.next == SeqIncrement(p.s.isn)
                  && p.c.offer.mss == p.s.offer.mss == Least(mine.mss, preferred.mss)
                  && p.c.offer.permitSack == p.s.offer.permitSack == (mine.permitSack && preferred.permitSack)
                  && p.c.offer.timestamps == p.s.offer.timestamps == mine.timestamps
                  && p.c.sackEnabled == (mine.permitSack && preferred.permitSack && clientSack)
                  && p.s.sackEnabled == (mine.permitSack && preferred.permitSack && serverSack))
  {
    RunKeeps(isn, mine, clientSack, preferred, serverSack, events);
  }

  /**
   In every run: each SYN-ACK under way carries the server's ISN and acknowledges the number after the
   client's. A dialing client takes any of them and answers with one ACK, and an open client answers each
   of them with that ACK again until it has seen ordinary traffic, and from then on not at all.
   */
  lemma {:induction false} SynAckIsAnswered(
    isn: Seq32, mine: Offer, clientSack: bool, preferred: Offer, serverSack: bool, events: seq<Event>, m: Message)
    requires m in Run(isn, mine, clientSack, preferred, serverSack, events).toClient
    ensures var p := Run(isn, mine, clientSack, preferred, serverSack, events);
            var ack := NonSyn(SeqIncrement(p.c.isn), SeqIncrement(p.s.isn));
            && m == SynAck(p.s.isn, SeqIncrement(p.c.isn), p.s.offer)
            && (p.c.phase.Dialing? ==> Replies(p.c, m) == [ack] && Step(p, ClientReceives(m)).c.phase.ClientOpen?)
            && (p.c.phase.ClientOpen? ==> Replies(p.c, m) == if p.c.bidirectional then [] else [ack])
            && (p.c.phase.DialFailed? ==> Replies(p.c, m) == [])
  {
    RunKeeps(isn, mine, clientSack, preferred, serverSack, events);
    FilterIs(Run(isn, mine, clientSack, preferred, serverSack, events).c, m);
    hide SeqIncrement, NegotiateMss, Run, PassesFilter;
  }

  /** The dispatcher lets through exactly the ISN and the number after it. */
  lemma {:induction false} FilterIs(c: Client, m: Message)
    requires m.SynAck?
    ensures PassesFilter(c, m) <==> m.ackNum == c.isn || m.ackNum == SeqIncrement(c.isn)
  {
  }

  /** Every SYN under way carries the ISN and the proposal; the server takes its first one and answers it once. */
  lemma {:induction false} SynIsAnswered(
    isn: Seq32, mine: Offer, clientSack: bool, preferred: Offer, serverSack: bool, events: seq<Event>, m: Message,
    choice: Seq32)
    requires m in Run(isn, mine, clientSack, preferred, serverSack, events).toServer && m.Syn?
    ensures var p := Run(isn, mine, clientSack, preferred, serverSack, events);
            var after := Step(p, ServerReceives(m, choice));
            && m == Syn(isn, mine)
            && (p.s.phase.Listening? ==>
                  after.s.phase.SynAckSent? && after.s.isn == choice
                  && SynAck(choice, SeqIncrement(isn), after.s.offer) in after.toClient)
            && (!p.s.phase.Listening? ==> after == p)
  {
    RunKeeps(isn, mine, clientSack, preferred, serverSack, events);
    hide SeqIncrement, NegotiateMss, Run;
  }

  lemma {:induction false} ClientStays(p: Parties, events: seq<Event>)
    ensures p.c.phase.DialFailed? ==> StepAll(p, events).c.phase.DialFailed?
    ensures p.c.bidirectional ==> StepAll(p, events).c.bidirectional
    decreases events
  {
    if events != [] {
      hide SeqIncrement, NegotiateMss;
      ClientStays(p, events[..|events| - 1]);
    }
  }

  /** A dial that has been given up never opens and never answers a SYN-ACK. */
  lemma {:induction false} GivenUpStaysClosed(p: Parties, events: seq<Event>, m: Message)
    requires p.c.phase.Dialing? && m.SynAck?
    ensures var after := StepAll(Step(p, ClientGivesUp), events);
            after.c.phase.DialFailed? && Replies(after.c, m) == []
  {
    ClientStays(Step(p, ClientGivesUp), events);
    hide StepAll;
  }

  /** Once an open client has seen ordinary traffic it answers no SYN-ACK any more, whatever follows. */
  lemma {:induction false} SilentAfterTraffic(p: Parties, events: seq<Event>, m: Message)
    requires m.SynAck?
    ensures var after := StepAll(Step(p, ClientSeesTraffic), events);
            after.c.phase.ClientOpen? ==> Replies(after.c, m) == []
  {
    ClientStays(Step(p, ClientSeesTraffic), events);
    hide StepAll;
  }

  /** A waiting server opens on any packet but a SYN, whatever its numbers; and nothing else opens it. */
  lemma {:induction false} OpensOnAnything(p: Parties, e: Event)
    ensures !p.s.phase.ServerOpen? && Step(p, e).s.phase.ServerOpen?
            <==> p.s.phase.SynAckSent? && e.ServerReceives? && e.arrived in p.toServer && e.arrived.NonSyn?
  {
  }

  /**
   A server handshake that gave up keeps its entry: whatever follows, no SYN of this key is answered
   and the server never opens.
   */
  lemma {:induction false} FailedStaysFailed(p: Parties, events: seq<Event>)
    requires p.s.phase.HandshakeFailed?
    ensures StepAll(p, events).s == p.s && StepAll(p, events).toClient == p.toClient
    decreases events
  {
    if events != [] {
      FailedStaysFailed(p, events[..|events| - 1]);
    }
  }

  function StepAll(p: Parties, events: seq<Event>): Parties {
    if events == [] then p else Step(StepAll(p, events[..|events| - 1]), events[|events| - 1])
  }
}
