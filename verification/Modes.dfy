/**
 What each combination of modes is worth: three properties of the data phase, each with exactly the modes
 in which every run has it, and one run that fails all three otherwise.
 */
module Modes {
  import opened Serial
  import opened Bytes
  import opened Receiver
  import opened Sender
  import opened Resend
  import opened Delivery
  import opened Transfer
  import opened Retries
  import opened Stays

  // ----- The failing run: the first of two segments is lost, the second arrives and is acknowledged -----

  function BaseOf(l: Link, byA: bool): Seq32 {
    if byA then l.baseA else l.baseB
  }

  function ModeOf(l: Link, byA: bool): Mode {
    if byA then l.modeA else l.modeB
  }

  function First(l: Link, byA: bool, x: byte): Segment {
    Segment(BaseOf(l, byA), BaseOf(l, !byA), [x])
  }

  function Second(l: Link, byA: bool, x: byte): Segment {
    Segment(SeqIncrementBy(BaseOf(l, byA), 1), BaseOf(l, !byA), [x])
  }

  /** The acknowledgment of a reader that has jumped over the first segment. */
  function AckOfSecond(l: Link, byA: bool): Segment
    requires BaseOf(l, byA) + 2 < MODULUS
  {
    Segment(BaseOf(l, !byA), BaseOf(l, byA) + 2, [])
  }

  /** The writer is a if `byA`. */
  function GapRun(l: Link, byA: bool, x: byte): (moves: seq<Move>)
    requires BaseOf(l, byA) + 2 < MODULUS
    ensures |moves| == 6
  {
    [Move(byA, WriteCall(1, [x, x], 2)), Move(byA, Transmit(true, 1)), Move(byA, Transmit(false, 2)),
     Move(!byA, Receive(Second(l, byA, x), {})), Move(!byA, Transmit(false, 3)),
     Move(byA, Receive(AckOfSecond(l, byA), {}))]
  }

  /** The packets ever sent to one end. */
  function Into(s: System, byA: bool): set<Segment> {
    if byA then s.ba else s.ab
  }

  lemma OneMove(l: Link, moves: seq<Move>, n: nat)
    requires n < |moves|
    ensures var s, after, m := Run(l, moves[..n]), Run(l, moves[..n + 1]), moves[n];
            var r := Act(EndOf(s, m.byA), Into(s, m.byA), m.event);
            && EndOf(after, m.byA) == r.me && EndOf(after, !m.byA) == EndOf(s, !m.byA)
            && Into(after, !m.byA) == Into(s, !m.byA) + r.sent && Into(after, m.byA) == Into(s, m.byA)
  {
    hide Act;
    assert moves[..n + 1][..n] == moves[..n];
  }

  lemma CutOfTwo(next: Seq32, ack: Seq32, x: byte)
    requires next + 2 < MODULUS
    ensures var q := [Segment(next, ack, [x]), Segment(SeqIncrementBy(next, 1), ack, [x])];
            Cut(next, ack, 1, [x, x], 2) == q && Advanced(next, q) == next + 2 && Flatten(q) == [x, x]
  {
    var first, second := Segment(next, ack, [x]), Segment(SeqIncrementBy(next, 1), ack, [x]);
    CutUnfolds(next, ack, 1, [x, x], 2);
    CutOfOne(SeqIncrementBy(next, 1), ack, x);
    var q := Cut(next, ack, 1, [x, x], 2);
    assert [x, x][..1] == [x] && [x, x][1..] == [x];
    assert q == [q[0]] + q[1..] && q == [first, second];
    assert [first, second][1..] == [second] && [second][1..] == [];
    assert Advanced(next, [first, second]) == Advanced(next + 1, [second]) == Advanced(next + 2, []);
    FlattenHead([first, second]);
    assert [x] + [x] == [x, x];
  }

  /** The writer after the first two moves. */
  predicate Wrote(w: Endpoint, l: Link, byA: bool, x: byte, out: seq<Segment>) {
    && w.mode == ModeOf(l, byA) && w.written == [First(l, byA, x), Second(l, byA, x)] && w.accepted == [x, x]
    && w.send.inSack == [] && w.send.out == out && w.gaveUp == {} && w.recv == Fresh(BaseOf(l, !byA))
  }

  lemma WriteTwo(l: Link, byA: bool, x: byte)
    requires BaseOf(l, byA) + 2 < MODULUS
    ensures var s := Run(l, GapRun(l, byA, x)[..1]);
            && Wrote(EndOf(s, byA), l, byA, x, [First(l, byA, x), Second(l, byA, x)])
            && EndOf(s, byA).send.resend == map[]
            && EndOf(s, !byA) == Opened(BaseOf(l, !byA), BaseOf(l, byA), ModeOf(l, !byA))
  {
    var moves := GapRun(l, byA, x);
    assert moves[..0] == [];
    OneMove(l, moves, 0);
    hide Cut, Flatten, Advanced, SeqIncrementBy, GapRun;
    CutOfTwo(BaseOf(l, byA), BaseOf(l, !byA), x);
  }

  /** The entry of the first segment, if the writer keeps entries. */
  function FirstEntry(l: Link, byA: bool, x: byte): ResendMap {
    if Reliable(ModeOf(l, byA)) then map[BaseOf(l, byA) := Sent(First(l, byA, x), 0, 1)] else map[]
  }

  lemma LoseFirst(l: Link, byA: bool, x: byte)
    requires BaseOf(l, byA) + 2 < MODULUS
    ensures var s := Run(l, GapRun(l, byA, x)[..2]);
            && Wrote(EndOf(s, byA), l, byA, x, [Second(l, byA, x)])
            && EndOf(s, byA).send.resend == FirstEntry(l, byA, x)
            && EndOf(s, !byA) == Opened(BaseOf(l, !byA), BaseOf(l, byA), ModeOf(l, !byA))
  {
    var moves := GapRun(l, byA, x);
    WriteTwo(l, byA, x);
    OneMove(l, moves, 1);
    assert moves[1] == Move(byA, Transmit(true, 1));
    hide GapRun, SeqIncrementBy, NoteOfTransmission;
    assert [First(l, byA, x), Second(l, byA, x)][1..] == [Second(l, byA, x)];
  }

  lemma TransmitSecond(w: Endpoint, incoming: set<Segment>, l: Link, byA: bool, x: byte)
    requires BaseOf(l, byA) + 2 < MODULUS
    requires Wrote(w, l, byA, x, [Second(l, byA, x)]) && w.send.resend == FirstEntry(l, byA, x)
    ensures var r := Act(w, incoming, Transmit(false, 2));
            && Wrote(r.me, l, byA, x, []) && r.sent == {Second(l, byA, x)}
            && (Reliable(ModeOf(l, byA)) ==> KeepsFirst(r.me, l, byA, x))
  {
    hide NoteOfTransmission;
  }

  predicate KeepsFirst(w: Endpoint, l: Link, byA: bool, x: byte) {
    BaseOf(l, byA) in w.send.resend && w.send.resend[BaseOf(l, byA)].segment == First(l, byA, x)
  }

  /** After the third move the second segment is on the network, and nothing is queued. */
  lemma SendSecond(l: Link, byA: bool, x: byte)
    requires BaseOf(l, byA) + 2 < MODULUS
    ensures var s := Run(l, GapRun(l, byA, x)[..3]);
            && Wrote(EndOf(s, byA), l, byA, x, [])
            && (Reliable(ModeOf(l, byA)) ==> KeepsFirst(EndOf(s, byA), l, byA, x))
            && Second(l, byA, x) in Into(s, !byA)
            && EndOf(s, !byA) == Opened(BaseOf(l, !byA), BaseOf(l, byA), ModeOf(l, !byA))
  {
    var moves := GapRun(l, byA, x);
    LoseFirst(l, byA, x);
    OneMove(l, moves, 2);
    assert moves[2] == Move(byA, Transmit(false, 2));
    hide GapRun, Act, Run, FirstEntry, Wrote, KeepsFirst;
    var s := Run(l, moves[..2]);
    TransmitSecond(EndOf(s, byA), Into(s, byA), l, byA, x);
  }

  lemma ReceiveSecond(incoming: set<Segment>, l: Link, byA: bool, x: byte)
    requires BaseOf(l, byA) + 2 < MODULUS && !Reliable(ModeOf(l, !byA)) && Second(l, byA, x) in incoming
    ensures var reader := Opened(BaseOf(l, !byA), BaseOf(l, byA), ModeOf(l, !byA));
            var me := Act(reader, incoming, Receive(Second(l, byA, x), {})).me;
            && me.recv.delivered == [Second(l, byA, x)] && me.recv.ack.ack == BaseOf(l, byA) + 2
            && me.send.out == [AckOfSecond(l, byA)] && me.accepted == []
  {
    hide Prune;
    SerialOrderLifts(BaseOf(l, byA) + 1, BaseOf(l, byA));
    hide IsGreater;
  }

  /** A reader that is not reliable hands the second segment to the application and acknowledges both. */
  lemma DeliverSecond(l: Link, byA: bool, x: byte)
    requires BaseOf(l, byA) + 2 < MODULUS && !Reliable(ModeOf(l, !byA))
    ensures var s := Run(l, GapRun(l, byA, x)[..4]);
            && EndOf(s, !byA).recv.delivered == [Second(l, byA, x)]
            && EndOf(s, !byA).recv.ack.ack == BaseOf(l, byA) + 2
            && EndOf(s, !byA).send.out == [AckOfSecond(l, byA)] && EndOf(s, !byA).accepted == []
            && EndOf(s, byA) == EndOf(Run(l, GapRun(l, byA, x)[..3]), byA)
  {
    var moves := GapRun(l, byA, x);
    SendSecond(l, byA, x);
    OneMove(l, moves, 3);
    assert moves[3] == Move(!byA, Receive(Second(l, byA, x), {}));
    hide GapRun, Act, Run, Opened, Wrote, KeepsFirst, AckOfSecond;
    ReceiveSecond(Into(Run(l, moves[..3]), !byA), l, byA, x);
  }

  /** After the whole run the writer has been told that both have arrived. */
  lemma AcknowledgeBoth(l: Link, byA: bool, x: byte)
    requires BaseOf(l, byA) + 2 < MODULUS && !Reliable(ModeOf(l, !byA))
    ensures var s := Run(l, GapRun(l, byA, x)[..5]);
            && EndOf(s, byA) == EndOf(Run(l, GapRun(l, byA, x)[..3]), byA)
            && EndOf(s, !byA).recv.delivered == [Second(l, byA, x)] && EndOf(s, !byA).accepted == []
            && AckOfSecond(l, byA) in Into(s, byA)
  {
    var moves := GapRun(l, byA, x);
    DeliverSecond(l, byA, x);
    OneMove(l, moves, 4);
    assert moves[4] == Move(!byA, Transmit(false, 3));
    hide GapRun;
  }

  lemma PruneFirst(l: Link, byA: bool, x: byte)
    requires BaseOf(l, byA) + 2 < MODULUS && !Reliable(ModeOf(l, !byA)) && Reliable(ModeOf(l, byA))
    ensures var s := Run(l, GapRun(l, byA, x));
            && Wrote(EndOf(s, byA), l, byA, x, [])
            && BaseOf(l, byA) !in EndOf(s, byA).send.resend
            && EndOf(s, !byA).recv.delivered == [Second(l, byA, x)] && EndOf(s, !byA).accepted == []
    ensures var s := Run(l, GapRun(l, byA, x)[..5]);
            BaseOf(l, byA) !in Pruned(EndOf(s, byA), AckOfSecond(l, byA).ackNum)
  {
    var moves := GapRun(l, byA, x);
    SendSecond(l, byA, x);
    AcknowledgeBoth(l, byA, x);
    OneMove(l, moves, 5);
    assert moves[5] == Move(byA, Receive(AckOfSecond(l, byA), {})) && moves[..6] == moves;
    hide GapRun;
    SerialOrderLifts(BaseOf(l, byA), BaseOf(l, byA) + 2);
  }

  /** Prefixes of the run are runs without aging, and short of any wrap. */
  lemma GapIsPlain(l: Link, byA: bool, x: byte, n: nat)
    requires BaseOf(l, byA) + 2 < MODULUS && n <= 6
    requires var s := Run(l, GapRun(l, byA, x)[..n]);
             EndOf(s, byA).accepted == [x, x] && EndOf(s, !byA).accepted == []
    ensures NoAging(GapRun(l, byA, x)[..n]) && NoWrap(Run(l, GapRun(l, byA, x)[..n]), l)
    ensures Configured(GapRun(l, byA, x)[..n], true, 0) && Configured(GapRun(l, byA, x)[..n], false, 0)
  {
    hide Run;
  }

  // ----- The prefix -----

  /** Every run without aging and wrap has the property. */
  ghost predicate AlwaysPrefix(l: Link, byA: bool) {
    forall moves: seq<Move> :: NoWrap(Run(l, moves), l) && NoAging(moves) ==>
      InOrder(EndOf(Run(l, moves), byA), EndOf(Run(l, moves), !byA), BaseOf(l, byA))
  }

  lemma SecondIsNoPrefix(l: Link, byA: bool, x: byte)
    requires BaseOf(l, byA) + 2 < MODULUS && !Reliable(ModeOf(l, !byA))
    ensures var s := Run(l, GapRun(l, byA, x)[..4]);
            !InOrder(EndOf(s, byA), EndOf(s, !byA), BaseOf(l, byA))
  {
    hide Run, GapRun, Flatten;
    SendSecond(l, byA, x);
    DeliverSecond(l, byA, x);
    var s := Run(l, GapRun(l, byA, x)[..4]);
    var first, second := First(l, byA, x), Second(l, byA, x);
    assert EndOf(s, byA).written[..1] == [first];
    assert [first][0] != [second][0];
  }

  /** What one side has read is always a prefix of what the other wrote if and only if the reader is reliable. */
  lemma {:induction false} PrefixIffReliableReader(l: Link, byA: bool)
    requires BaseOf(l, byA) + 2 < MODULUS
    ensures AlwaysPrefix(l, byA) <==> Reliable(ModeOf(l, !byA))
  {
    hide Run, GapRun, InOrder, NoWrap, NoAging;
    if Reliable(ModeOf(l, !byA)) {
      forall moves: seq<Move> | NoWrap(Run(l, moves), l) && NoAging(moves)
        ensures InOrder(EndOf(Run(l, moves), byA), EndOf(Run(l, moves), !byA), BaseOf(l, byA))
      {
        EndToEnd(l, moves);
      }
    } else {
      var moves := GapRun(l, byA, 0)[..4];
      SendSecond(l, byA, 0);
      DeliverSecond(l, byA, 0);
      GapIsPlain(l, byA, 0, 4);
      SecondIsNoPrefix(l, byA, 0);
      assert NoWrap(Run(l, moves), l) && NoAging(moves);
    }
  }

  // ----- What an acknowledgment means -----

  ghost predicate AlwaysHonest(l: Link, byA: bool) {
    forall moves: seq<Move> :: NoWrap(Run(l, moves), l) && NoAging(moves) ==>
      PrunesOnlyDelivered(EndOf(Run(l, moves), byA), EndOf(Run(l, moves), !byA), Into(Run(l, moves), byA))
  }

  /** No acknowledgment ever removes an undelivered segment if and only if the reader is reliable or nothing is kept. */
  lemma {:induction false} HonestIff(l: Link, byA: bool)
    requires BaseOf(l, byA) + 2 < MODULUS
    ensures AlwaysHonest(l, byA) <==> Reliable(ModeOf(l, !byA)) || !Reliable(ModeOf(l, byA))
  {
    hide Run, GapRun, PrunesOnlyDelivered, NoWrap, NoAging;
    if Reliable(ModeOf(l, !byA)) || !Reliable(ModeOf(l, byA)) {
      forall moves: seq<Move> | NoWrap(Run(l, moves), l) && NoAging(moves)
        ensures PrunesOnlyDelivered(EndOf(Run(l, moves), byA), EndOf(Run(l, moves), !byA), Into(Run(l, moves), byA))
      {
        AckedIsDelivered(l, moves);
      }
    } else {
      var moves := GapRun(l, byA, 0)[..5];
      SendSecond(l, byA, 0);
      AcknowledgeBoth(l, byA, 0);
      PruneFirst(l, byA, 0);
      GapIsPlain(l, byA, 0, 5);
      FirstUndelivered(l, byA, 0);
      assert NoWrap(Run(l, moves), l) && NoAging(moves);
    }
  }

  lemma FirstUndelivered(l: Link, byA: bool, x: byte)
    requires BaseOf(l, byA) + 2 < MODULUS && !Reliable(ModeOf(l, !byA)) && Reliable(ModeOf(l, byA))
    ensures var s := Run(l, GapRun(l, byA, x)[..5]);
            !PrunesOnlyDelivered(EndOf(s, byA), EndOf(s, !byA), Into(s, byA))
  {
    hide Run, GapRun, Pruned, SeqIncrementBy;
    SendSecond(l, byA, x);
    AcknowledgeBoth(l, byA, x);
    PruneFirst(l, byA, x);
    FirstIsNotSecond(l, byA, x);
    var s := Run(l, GapRun(l, byA, x)[..5]);
    assert AckOfSecond(l, byA) in Into(s, byA);
  }

  lemma FirstIsNotSecond(l: Link, byA: bool, x: byte)
    requires BaseOf(l, byA) + 2 < MODULUS
    ensures First(l, byA, x) != Second(l, byA, x)
  {
  }

  // ----- What becomes of every segment -----

  ghost predicate NeverLoses(l: Link, byA: bool) {
    forall moves: seq<Move>, limit: nat ::
      NoWrap(Run(l, moves), l) && NoAging(moves)
      && Configured(moves, true, limit) && Configured(moves, false, limit) ==>
        Accounted(EndOf(Run(l, moves), byA), EndOf(Run(l, moves), !byA), limit)
  }

  lemma LostFirst(w: Endpoint, r: Endpoint, l: Link, byA: bool, x: byte, out: seq<Segment>)
    requires BaseOf(l, byA) + 2 < MODULUS && Wrote(w, l, byA, x, out)
    requires BaseOf(l, byA) !in w.send.resend && First(l, byA, x) !in out && First(l, byA, x) !in r.recv.delivered
    ensures !Accounted(w, r, 0)
  {
    hide QueuedInAll, SeqIncrementBy;
    assert First(l, byA, x) in w.written;
  }

  /** No written segment is ever lost track of if and only if both ends are reliable. */
  lemma {:induction false} NeverLosesIff(l: Link, byA: bool)
    requires BaseOf(l, byA) + 2 < MODULUS
    ensures NeverLoses(l, byA) <==> Reliable(l.modeA) && Reliable(l.modeB)
  {
    hide Run, GapRun, Accounted, NoWrap, NoAging, Configured;
    if Reliable(l.modeA) && Reliable(l.modeB) {
      forall moves: seq<Move>, limit: nat
        | NoWrap(Run(l, moves), l) && NoAging(moves)
          && Configured(moves, true, limit) && Configured(moves, false, limit)
        ensures Accounted(EndOf(Run(l, moves), byA), EndOf(Run(l, moves), !byA), limit)
      {
        NeverForgotten(l, moves, limit, limit);
      }
    } else {
      var n := if Reliable(ModeOf(l, byA)) then 6 else 2;
      var moves := GapRun(l, byA, 0)[..n];
      LosesFirst(l, byA, 0);
      assert NoWrap(Run(l, moves), l) && NoAging(moves) && Configured(moves, true, 0) && Configured(moves, false, 0);
    }
  }

  lemma LosesFirst(l: Link, byA: bool, x: byte)
    requires BaseOf(l, byA) + 2 < MODULUS && !(Reliable(l.modeA) && Reliable(l.modeB))
    ensures var n := if Reliable(ModeOf(l, byA)) then 6 else 2;
            var moves := GapRun(l, byA, x)[..n];
            && NoWrap(Run(l, moves), l) && NoAging(moves) && Configured(moves, true, 0) && Configured(moves, false, 0)
            && !Accounted(EndOf(Run(l, moves), byA), EndOf(Run(l, moves), !byA), 0)
  {
    hide Run, Accounted, NoWrap, NoAging, Configured, SeqIncrementBy;
    FirstIsNotSecond(l, byA, x);
    if Reliable(ModeOf(l, byA)) {
      PruneFirst(l, byA, x);
      var s := Run(l, GapRun(l, byA, x));
      assert GapRun(l, byA, x)[..6] == GapRun(l, byA, x);
      GapIsPlain(l, byA, x, 6);
      LostFirst(EndOf(s, byA), EndOf(s, !byA), l, byA, x, []);
    } else {
      LoseFirst(l, byA, x);
      var s := Run(l, GapRun(l, byA, x)[..2]);
      GapIsPlain(l, byA, x, 2);
      LostFirst(EndOf(s, byA), EndOf(s, !byA), l, byA, x, [Second(l, byA, x)]);
    }
  }
}
