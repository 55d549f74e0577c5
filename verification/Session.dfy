/**
 A whole session: the handshake of module `Handshake` and, from the moment the client opens, the data phase
 of module `Transfer`, interleaved. The client may send data while the server still waits for the last ACK,
 and what it sends is what the server's handshake loop may take for that ACK. Each end runs in the mode
 that its negotiation and its configuration give it.
 */
module Sessions {
  import opened Serial
  import opened Receiver
  import opened Handshake
  import T = Transfer
  import Modes

  /** The data phase, once there is one. */
  datatype Traffic = NoTraffic | Traffic(s: T.System)

  datatype Session = Session(h: Parties, data: Traffic)

  datatype Happening =
    | Signal(signal: Event)
    | Data(move: T.Move)

  /** A data-phase packet as the server's handshake loop sees it. */
  function Header(p: Segment): Message {
    NonSyn(p.seqNum, p.ackNum)
  }

  function Headers(ps: set<Segment>): set<Message> {
    set p | p in ps :: Header(p)
  }

  /** The packets under way to the server that are not SYNs. */
  function Acks(ms: set<Message>): set<Segment> {
    set m | m in ms && m.NonSyn? :: Segment(m.seqNum, m.ackNum, [])
  }

  /** The two configurations; the last two flags are RetransmissionEnabled. */
  datatype Setup = Setup(
    isn: Seq32, mine: Offer, clientSack: bool, preferred: Offer, serverSack: bool,
    clientRetransmission: bool, serverRetransmission: bool)

  /** Both sides permit SACK, and this one wants it and retransmits. */
  predicate ClientReliable(u: Setup) {
    u.mine.permitSack && u.preferred.permitSack && u.clientSack && u.clientRetransmission
  }

  predicate ServerReliable(u: Setup) {
    u.mine.permitSack && u.preferred.permitSack && u.serverSack && u.serverRetransmission
  }

  /** The numbers and modes with which the two connection objects enter the data phase. */
  function LinkOf(h: Parties, u: Setup): T.Link {
    T.Link(h.c.next, h.s.next,
           T.Mode(h.c.sackEnabled, u.clientRetransmission), T.Mode(h.s.sackEnabled, u.serverRetransmission))
  }

  /** What the two connection objects and the network are when the client opens. */
  function HandOver(h: Parties, u: Setup): T.System {
    T.System(T.Opened(h.c.next, h.c.lastAck, LinkOf(h, u).modeA), T.Opened(h.s.next, h.s.lastAck, LinkOf(h, u).modeB),
             Acks(h.toServer), Acks(h.toClient))
  }

  /** The client may act as soon as it is open, the server once its own handshake has ended. */
  predicate MayAct(s: Session, m: T.Move) {
    s.data.Traffic? && (m.byA || s.h.s.phase.ServerOpen?)
  }

  /** Data packets take the place of the event ClientSends. */
  function Step(u: Setup, s: Session, e: Happening): Session {
    match e
    case Signal(signal) =>
      if signal.ClientSends? then s
      else
        var h := Handshake.Step(s.h, signal);
        Session(h, if s.data.NoTraffic? && h.c.phase.ClientOpen? then Traffic(HandOver(h, u)) else s.data)
    case Data(m) =>
      if !MayAct(s, m) then s
      else
        var d := T.Step(s.data.s, m);
        Session(s.h.(toServer := s.h.toServer + Headers(d.ab)), Traffic(d))
  }

  function Begin(u: Setup): Session {
    Session(Initial(u.isn, u.mine, u.clientSack, u.preferred, u.serverSack), NoTraffic)
  }

  function Run(u: Setup, events: seq<Happening>): Session {
    if events == [] then Begin(u) else Step(u, Run(u, events[..|events| - 1]), events[|events| - 1])
  }

  /** The data moves of a run, in order. */
  function Moves(u: Setup, events: seq<Happening>): seq<T.Move> {
    if events == [] then []
    else
      var last := events[|events| - 1];
      Moves(u, events[..|events| - 1]) +
      if last.Data? && MayAct(Run(u, events[..|events| - 1]), last.move) then [last.move] else []
  }

  /** When the client opens, the objects and the network are what a run of the data phase starts from. */
  lemma HandOverIsStart(h: Parties, m: Message, u: Setup)
    requires Inv(h, u.isn, u.mine) && !h.c.phase.ClientOpen?
    requires var after := Handshake.Step(h, ClientReceives(m)); after.c.phase.ClientOpen?
    ensures var after := Handshake.Step(h, ClientReceives(m));
            && HandOver(after, u) == T.Start(LinkOf(after, u))
            && Inv(after, u.isn, u.mine)
  {
    var after := Handshake.Step(h, ClientReceives(m));
    StepKeeps(h, ClientReceives(m), u.isn, u.mine);
    hide SeqIncrement;
    assert forall n :: n in after.toServer && n.NonSyn? <==> n == AckOf(after.c);
    assert Acks(after.toServer) == {Segment(after.c.next, after.s.next, [])};
    assert Acks(after.toClient) == {};
  }

  /** What holds of the handshake side of a session. */
  ghost predicate SessionInv(s: Session, u: Setup) {
    && Inv(s.h, u.isn, u.mine)
    && s.h.s.preferred == u.preferred && s.h.s.sackWanted == u.serverSack && s.h.c.sackWanted == u.clientSack
    && (s.data.Traffic? <==> s.h.c.phase.ClientOpen?)
    && (s.data.Traffic? ==>
          && (forall m :: m in s.h.toServer && m.NonSyn? ==> m in Headers(s.data.s.ab))
          && Segment(s.h.c.next, s.h.c.lastAck, []) in s.data.s.ab
          && (!s.h.s.phase.ServerOpen? ==> s.data.s.b == T.Opened(s.h.s.next, s.h.s.lastAck, LinkOf(s.h, u).modeB)))
  }

  lemma NetworkGrows(d: T.System, m: T.Move)
    ensures d.ab <= T.Step(d, m).ab
    ensures m.byA ==> T.Step(d, m).b == d.b
  {
    hide T.Act;
  }

  lemma DataKeeps(s: Session, m: T.Move, u: Setup)
    requires SessionInv(s, u) && MayAct(s, m)
    ensures SessionInv(Step(u, s, Data(m)), u)
    ensures var after := Step(u, s, Data(m)); after.h.c == s.h.c && after.h.s == s.h.s
  {
    hide T.Step, SeqIncrement;
    NetworkGrows(s.data.s, m);
  }

  lemma SignalKeeps(s: Session, e: Event, u: Setup)
    requires SessionInv(s, u) && !e.ClientSends?
    ensures SessionInv(Step(u, s, Signal(e)), u)
    ensures var after := Step(u, s, Signal(e));
            if s.data.Traffic? then after.data == s.data && LinkOf(after.h, u) == LinkOf(s.h, u)
            else after.data.Traffic? ==> after.data.s == T.Start(LinkOf(after.h, u))
  {
    StepKeeps(s.h, e, u.isn, u.mine);
    StepConfiguration(s.h, e);
    var after := Step(u, s, Signal(e));
    if s.data.NoTraffic? && after.data.Traffic? {
      HandOverIsStart(s.h, e.message, u);
      assert Header(Segment(after.h.c.next, after.h.s.next, [])) in Headers(after.data.s.ab);
      assert forall n :: n in after.h.toServer && n.NonSyn? ==> n == AckOf(after.h.c);
    } else if s.data.Traffic? {
      assert Header(Segment(s.h.c.next, s.h.c.lastAck, [])) in Headers(s.data.s.ab);
    }
    hide SeqIncrement, T.Start, T.Opened;
  }

  /**
   In every session the data phase, once the client is open, is a run of `Transfer` from the numbers and in
   the modes the handshake agreed on; until the server is open too its side of that run has not moved.
   */
  lemma {:induction false} SessionIsTransfer(u: Setup, events: seq<Happening>)
    ensures var s := Run(u, events);
            && SessionInv(s, u)
            && (s.data.NoTraffic? ==> Moves(u, events) == [])
            && (s.data.Traffic? ==> s.data.s == T.Run(LinkOf(s.h, u), Moves(u, events)))
    decreases events
  {
    if events == [] {
      hide SeqIncrement;
    } else {
      hide SessionInv, T.Step;
      var prefix, e := events[..|events| - 1], events[|events| - 1];
      SessionIsTransfer(u, prefix);
      var s := Run(u, prefix);
      var moves := Moves(u, prefix);
      assert moves + [] == moves;
      if e.Signal? && !e.signal.ClientSends? {
        SignalKeeps(s, e.signal, u);
      } else if e.Data? && MayAct(s, e.move) {
        DataKeeps(s, e.move, u);
        assert (moves + [e.move])[..|moves|] == moves;
      }
    }
  }

  lemma AgreedModes(s: Session, u: Setup)
    requires SessionInv(s, u) && s.data.Traffic?
    ensures T.Reliable(LinkOf(s.h, u).modeA) == ClientReliable(u)
    ensures T.Reliable(LinkOf(s.h, u).modeB) == ServerReliable(u)
    ensures s.h.c.next == s.h.s.lastAck == SeqIncrement(u.isn) && s.h.s.next == s.h.c.lastAck
  {
    hide SeqIncrement;
  }

  // ----- Delivery from the first SYN on -----

  /** The data phase of this session is under way, nothing has aged, and no stream has wrapped. */
  ghost predicate Plain(u: Setup, events: seq<Happening>) {
    var s := Run(u, events);
    s.data.Traffic? && T.NoAging(Moves(u, events)) && T.NoWrap(s.data.s, LinkOf(s.h, u))
  }

  /** What the server has read is a prefix of what the client wrote. */
  ghost predicate ServerReadsPrefix(u: Setup, events: seq<Happening>) {
    var s := Run(u, events);
    s.data.Traffic? && T.InOrder(s.data.s.a, s.data.s.b, s.h.c.next)
  }

  ghost predicate ClientReadsPrefix(u: Setup, events: seq<Happening>) {
    var s := Run(u, events);
    s.data.Traffic? && T.InOrder(s.data.s.b, s.data.s.a, s.h.s.next)
  }

  /**
   From the first SYN on: a side for which SACK has been negotiated and retransmission is on has read a
   prefix of what the other wrote, once and in order, starting at the number agreed on in the handshake.
   */
  lemma {:induction false} SessionDelivers(u: Setup, events: seq<Happening>)
    requires Plain(u, events)
    ensures ServerReliable(u) ==> ServerReadsPrefix(u, events)
    ensures ClientReliable(u) ==> ClientReadsPrefix(u, events)
    ensures var s := Run(u, events); s.h.c.next == s.h.s.lastAck && s.h.s.next == s.h.c.lastAck
  {
    hide Run, Moves, T.Run, T.InOrder, T.NoWrap, T.NoAging, SessionInv;
    SessionIsTransfer(u, events);
    var s := Run(u, events);
    AgreedModes(s, u);
    T.EndToEnd(LinkOf(s.h, u), Moves(u, events));
  }

  // ----- Every run of the data phase is part of a session -----

  lemma RunAppend(u: Setup, events: seq<Happening>, e: Happening)
    ensures Run(u, events + [e]) == Step(u, Run(u, events), e)
    ensures Moves(u, events + [e]) ==
            Moves(u, events) + if e.Data? && MayAct(Run(u, events), e.move) then [e.move] else []
  {
    hide Step, MayAct;
    assert (events + [e])[..|events|] == events;
  }

  lemma SignalStep(u: Setup, s: Session, e: Event)
    requires !e.ClientSends?
    ensures var after, h := Step(u, s, Signal(e)), Handshake.Step(s.h, e);
            && after.h == h && (s.data.Traffic? ==> after.data == s.data)
            && (s.data.NoTraffic? ==> (after.data.Traffic? <==> h.c.phase.ClientOpen?))
  {
    hide HandOver;
  }

  /** SYN, SYN-ACK and ACK, none of them lost; the server picks `isn`. */
  lemma Established(u: Setup, isn: Seq32) returns (events: seq<Happening>)
    ensures Run(u, events).data.Traffic? && Run(u, events).h.s.phase.ServerOpen? && Moves(u, events) == []
    ensures Run(u, events).h.s.next == SeqIncrement(isn)
  {
    var h0 := Begin(u).h;
    var syn := SynOf(h0.c);
    var answer := AcceptSyn(h0.s, syn, isn);
    var client := AcceptSynAck(h0.c, SynAckOf(answer));
    var a, b, c, d := ClientTimer, ServerReceives(syn, isn), ClientReceives(SynAckOf(answer)),
      ServerReceives(AckOf(client), 0);
    ThreeWay(h0, isn);
    hide Handshake.Step, AcceptSyn, AcceptSynAck, Step;
    var e0: seq<Happening> := [];
    RunAppend(u, e0, Signal(a));
    SignalStep(u, Begin(u), a);
    var e1 := e0 + [Signal(a)];
    RunAppend(u, e1, Signal(b));
    SignalStep(u, Run(u, e1), b);
    var e2 := e1 + [Signal(b)];
    RunAppend(u, e2, Signal(c));
    SignalStep(u, Run(u, e2), c);
    var e3 := e2 + [Signal(c)];
    RunAppend(u, e3, Signal(d));
    SignalStep(u, Run(u, e3), d);
    events := e3 + [Signal(d)];
    hide Run, Moves;
    assert Moves(u, events) == Moves(u, e0) by {
      assert Moves(u, e0) + [] + [] + [] + [] == Moves(u, e0);
    }
    NoMoves(u);
  }

  lemma NoMoves(u: Setup)
    ensures Moves(u, []) == [] && Run(u, []) == Begin(u)
  {
  }

  /** The four steps of the handshake without loss. */
  lemma ThreeWay(h: Parties, isn: Seq32)
    requires h.c.phase.Dialing? && h.s.phase.Listening?
    ensures var syn := SynOf(h.c);
            var answer := AcceptSyn(h.s, syn, isn);
            var client := AcceptSynAck(h.c, SynAckOf(answer));
            var h1 := Handshake.Step(h, ClientTimer);
            var h2 := Handshake.Step(h1, ServerReceives(syn, isn));
            var h3 := Handshake.Step(h2, ClientReceives(SynAckOf(answer)));
            var h4 := Handshake.Step(h3, ServerReceives(AckOf(client), 0));
            && h1.c.phase.Dialing? && h2.c.phase.Dialing? && h3.c.phase.ClientOpen? && h4.c.phase.ClientOpen?
            && h4.s.phase.ServerOpen? && h4.s.next == SeqIncrement(isn)
  {
    hide NegotiateMss;
    var syn := SynOf(h.c);
    var answer := AcceptSyn(h.s, syn, isn);
    FilterPasses(h.c, SynAckOf(answer));
    hide PassesFilter, SeqIncrement;
    var h1 := Handshake.Step(h, ClientTimer);
    assert h1.c == h.c.(next := SeqIncrement(h.c.isn)) && syn in h1.toServer && h1.s == h.s;
    assert PassesFilter(h1.c, SynAckOf(answer)) by { FilterPasses(h1.c, SynAckOf(answer)); }
    var h2 := Handshake.Step(h1, ServerReceives(syn, isn));
    assert h2.s == answer && h2.c == h1.c && SynAckOf(answer) in h2.toClient;
    var h3 := Handshake.Step(h2, ClientReceives(SynAckOf(answer)));
    assert h3.s == answer && AckOf(h3.c) in h3.toServer;
  }

  lemma FilterPasses(c: Client, m: Message)
    requires m.SynAck? && m.ackNum == SeqIncrement(c.isn)
    ensures PassesFilter(c, m)
  {
  }

  /** Every run of the two-end system, from the numbers and in the modes of this setup, happens in a session. */
  lemma {:induction false} EveryRunIsSession(u: Setup, isn: Seq32, moves: seq<T.Move>) returns (events: seq<Happening>)
    ensures var s := Run(u, events);
            && s.data.Traffic? && s.h.s.phase.ServerOpen? && Moves(u, events) == moves
            && s.h.s.next == SeqIncrement(isn)
    decreases moves
  {
    if moves == [] {
      events := Established(u, isn);
    } else {
      hide Run, Moves;
      var before := EveryRunIsSession(u, isn, moves[..|moves| - 1]);
      var e := Data(moves[|moves| - 1]);
      RunAppend(u, before, e);
      DataStep(u, Run(u, before), moves[|moves| - 1]);
      events := before + [e];
      assert moves == moves[..|moves| - 1] + [moves[|moves| - 1]];
    }
  }

  lemma DataStep(u: Setup, s: Session, m: T.Move)
    requires s.data.Traffic? && s.h.s.phase.ServerOpen?
    ensures MayAct(s, m)
    ensures var after := Step(u, s, Data(m));
            after.data.Traffic? && after.h.s == s.h.s
  {
    hide T.Step;
  }

  /** A session whose data phase is the given run of the link it negotiates. */
  lemma SessionOf(u: Setup, isn: Seq32, l: T.Link, moves: seq<T.Move>) returns (events: seq<Happening>)
    requires l == LinkFor(u, isn) && T.NoWrap(T.Run(l, moves), l) && T.NoAging(moves)
    ensures Plain(u, events) && LinkOf(Run(u, events).h, u) == l && Run(u, events).data.s == T.Run(l, moves)
  {
    hide T.Run, T.NoWrap, T.NoAging;
    events := EveryRunIsSession(u, isn, moves);
    SessionIsTransfer(u, events);
    NegotiatedLink(Run(u, events), u, isn);
    hide Run, Moves, SessionInv;
  }

  /** The link that this setup and a server starting at `isn` negotiate. */
  function LinkFor(u: Setup, isn: Seq32): T.Link {
    var permit := u.mine.permitSack && u.preferred.permitSack;
    T.Link(SeqIncrement(u.isn), SeqIncrement(isn),
           T.Mode(permit && u.clientSack, u.clientRetransmission),
           T.Mode(permit && u.serverSack, u.serverRetransmission))
  }

  lemma NegotiatedLink(s: Session, u: Setup, isn: Seq32)
    requires SessionInv(s, u) && s.data.Traffic? && s.h.s.next == SeqIncrement(isn)
    ensures LinkOf(s.h, u) == LinkFor(u, isn)
  {
    hide SeqIncrement;
  }

  /**
   The condition is exact: the server reads a prefix in all sessions of a setup if and only if SACK has been
   negotiated for it and its retransmission is on; and likewise the client.
   */
  lemma {:induction false} ServerReadsPrefixIff(u: Setup)
    requires SeqIncrement(u.isn) + 2 < MODULUS
    ensures (forall events: seq<Happening> :: Plain(u, events) ==> ServerReadsPrefix(u, events)) <==> ServerReliable(u)
  {
    hide T.Run, T.InOrder, T.NoWrap, T.NoAging, Run, Moves;
    if ServerReliable(u) {
      forall events: seq<Happening> | Plain(u, events) ensures ServerReadsPrefix(u, events) {
        SessionDelivers(u, events);
      }
    } else {
      var l := LinkFor(u, 0);
      Modes.PrefixIffReliableReader(l, true);
      var moves: seq<T.Move> :| T.NoWrap(T.Run(l, moves), l) && T.NoAging(moves)
                                && !T.InOrder(T.Run(l, moves).a, T.Run(l, moves).b, l.baseA);
      var events := SessionOf(u, 0, l, moves);
      assert Plain(u, events) && !ServerReadsPrefix(u, events);
    }
  }

  lemma {:induction false} ClientReadsPrefixIff(u: Setup)
    ensures (forall events: seq<Happening> :: Plain(u, events) ==> ClientReadsPrefix(u, events)) <==> ClientReliable(u)
  {
    hide T.Run, T.InOrder, T.NoWrap, T.NoAging, Run, Moves;
    if ClientReliable(u) {
      forall events: seq<Happening> | Plain(u, events) ensures ClientReadsPrefix(u, events) {
        SessionDelivers(u, events);
      }
    } else {
      var l := LinkFor(u, 0);
      Modes.PrefixIffReliableReader(l, false);
      var moves: seq<T.Move> :| T.NoWrap(T.Run(l, moves), l) && T.NoAging(moves)
                                && !T.InOrder(T.Run(l, moves).b, T.Run(l, moves).a, l.baseB);
      var events := SessionOf(u, 0, l, moves);
      assert Plain(u, events) && !ClientReadsPrefix(u, events);
    }
  }
}
