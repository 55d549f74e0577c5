/** The connection objects during the handshake, updated in place as in lib/pconn.go, service.go and connection.go. */
module HandshakeEnds {
  import opened Bytes
  import opened Serial
  import opened Handshake

  /** The client's Connection inside `dial`. */
  class Dialer {
    const initialSeq: Seq32
    const sackWanted: bool
    var phase: ClientPhase
    var nextSequenceNumber: Seq32
    var initialPeerSeq: Seq32
    var lastAckNumber: Seq32
    var mss: U16
    var permitSack: bool
    var timestampEnabled: bool
    var sackEnabled: bool
    var isBidirectional: bool

    constructor (isn: Seq32, mine: Offer, sackWanted: bool)
      ensures View() == Initial(isn, mine, sackWanted, mine, false).c
    {
      initialSeq, this.sackWanted, phase, nextSequenceNumber := isn, sackWanted, Dialing, isn;
      initialPeerSeq, lastAckNumber := 0, 0;
      mss, permitSack, timestampEnabled := mine.mss, mine.permitSack, mine.timestamps;
      sackEnabled, isBidirectional := false, false;
    }

    function View(): Client
      reads this
    {
      Client(phase, initialSeq, nextSequenceNumber, Offer(mss, permitSack, timestampEnabled), sackWanted, sackEnabled,
             initialPeerSeq, lastAckNumber, isBidirectional)
    }

    /** initSendSyn, and the increment of nextSequenceNumber behind the first one. */
    method SendSyn() returns (m: Message)
      requires phase.Dialing?
      modifies this`nextSequenceNumber
      ensures m == SynOf(View()) && View() == old(View()).(next := SeqIncrement(initialSeq))
    {
      m := Syn(initialSeq, Offer(mss, permitSack, timestampEnabled));
      nextSequenceNumber := SeqIncrement(initialSeq);
    }

    /** The SYN-ACK branch of `dial`: negotiate in place, then answer. */
    method HandleSynAck(m: Message) returns (reply: Message)
      requires m.SynAck? && phase.Dialing?
      modifies this
      ensures View() == AcceptSynAck(old(View()), m) && reply == AckOf(View())
    {
      if m.offer.mss > 0 {
        if m.offer.mss < mss {
          mss := m.offer.mss;
        }
      } else {
        mss := 0;
      }
      lastAckNumber := SeqIncrement(m.seqNum);
      initialPeerSeq := m.seqNum;
      phase := ClientOpen;
      timestampEnabled := m.offer.timestamps;
      permitSack := permitSack && m.offer.permitSack;
      sackEnabled := permitSack && sackWanted;
      reply := NonSyn(SeqIncrement(initialSeq), SeqIncrement(initialPeerSeq));
    }
  }

  /** The server's Connection from handleSynPacket to handle3WayHandshake. */
  class Acceptor {
    const preferred: Offer
    const sackWanted: bool
    var phase: ServerPhase
    var initialSeq: Seq32
    var nextSequenceNumber: Seq32
    var initialPeerSeq: Seq32
    var lastAckNumber: Seq32
    var mss: U16
    var permitSack: bool
    var timestampEnabled: bool
    var sackEnabled: bool

    constructor (preferred: Offer, sackWanted: bool)
      ensures View() == Initial(0, preferred, false, preferred, sackWanted).s
    {
      this.preferred, this.sackWanted, phase := preferred, sackWanted, Listening;
      initialSeq, nextSequenceNumber, initialPeerSeq, lastAckNumber := 0, 0, 0, 0;
      mss, permitSack, timestampEnabled := preferred.mss, preferred.permitSack, preferred.timestamps;
      sackEnabled := false;
    }

    function View(): Server
      reads this
    {
      Server(phase, preferred, sackWanted, sackEnabled, initialSeq, nextSequenceNumber,
             Offer(mss, permitSack, timestampEnabled), initialPeerSeq, lastAckNumber)
    }

    /** handleSynPacket for a key that is in neither table. */
    method HandleSyn(m: Message, isn: Seq32) returns (reply: Message)
      requires m.Syn? && phase.Listening?
      modifies this
      ensures View() == AcceptSyn(old(View()), m, isn) && reply == SynAckOf(View())
    {
      initialSeq := isn;
      mss, permitSack := preferred.mss, preferred.permitSack;
      if m.offer.mss > 0 {
        if m.offer.mss < mss {
          mss := m.offer.mss;
        }
      } else {
        mss := 0;
      }
      permitSack := permitSack && m.offer.permitSack;
      sackEnabled := permitSack && sackWanted;
      timestampEnabled := m.offer.timestamps;
      lastAckNumber := SeqIncrement(m.seqNum);
      initialPeerSeq := m.seqNum;
      reply := SynAck(initialSeq, SeqIncrement(initialPeerSeq), Offer(mss, permitSack, timestampEnabled));
      phase := SynAckSent;
      nextSequenceNumber := SeqIncrement(initialSeq);
    }

    /** handle3WayHandshake: any non-SYN packet completes it. */
    method HandleAck(m: Message) returns (done: bool)
      modifies this`phase
      ensures done <==> m.NonSyn? && old(phase).SynAckSent?
      ensures View() == if done then old(View()).(phase := ServerOpen) else old(View())
    {
      done := m.NonSyn? && phase.SynAckSent?;
      if done {
        phase := ServerOpen;
      }
    }
  }
}
