/**
 Retransmission over the runs of two ends: counts and the retry limit, what becomes of every written
 segment, and when a dropped segment enters the resend map again. Module `Stays` shows that the limit
 bounds a stay in that map, not a segment.
 */
module Retries {
  import opened Serial
  import opened Receiver
  import opened Sender
  import opened Resend
  import opened Reassembly
  import opened Delivery
  import opened Transfer

  // ----- The retry limit -----

  /** One end is configured with this MaxResendCount. */
  predicate Configured(moves: seq<Move>, byA: bool, limit: nat) {
    forall i :: 0 <= i < |moves| && moves[i].byA == byA && moves[i].event.ResendRound? ==>
      moves[i].event.round.maxCount == limit
  }

  predicate EverGivenUp(log: seq<Note>, k: Seq32) {
    log != [] && ((log[|log| - 1].GivenUp? && k in log[|log| - 1].keys) || EverGivenUp(log[..|log| - 1], k))
  }

  function Books(x: Endpoint): Bookkeeping {
    Bookkeeping(x.send.resend, x.log)
  }

  ghost predicate RetryInv(x: Endpoint, limit: nat) {
    && Counted(Books(x), limit) && x.send.inSack == []
    && (forall k :: k in x.gaveUp ==> EverGivenUp(x.log, k))
  }

  /** The event as the bookkeeping of the resend map sees it. */
  lemma ActIsTick(x: Endpoint, incoming: set<Segment>, ev: Event)
    requires x.send.inSack == []
    ensures var me := Act(x, incoming, ev).me;
            && me.send.inSack == []
            && (Books(me) == Books(x)
                || (ev.Transmit? && x.send.out != []
                    && Books(me) == Apply(Books(x), [], Transmission(x.send.out[0], ev.now)))
                || (ev.ResendRound? && Walks(ev.order, x.send.resend)
                    && Books(me) == Apply(Books(x), [], Timer(ev.round, ev.order)))
                || (ev.Receive? && Books(me) == Apply(Books(x), [], Ack(ev.packet.ackNum))))
  {
    hide Walks, HandleData, Cut, Advanced, Flatten, Prune, AfterRound, Register, NotesOfRound, NoteOfTransmission;
  }

  lemma GivenUpGrows(log: seq<Note>, more: seq<Note>, k: Seq32)
    ensures EverGivenUp(log, k) ==> EverGivenUp(log + more, k)
    decreases more
  {
    if more == [] {
      assert log + more == log;
    } else {
      GivenUpGrows(log, more[..|more| - 1], k);
      assert (log + more)[..|log + more| - 1] == log + more[..|more| - 1];
    }
  }

  lemma RoundGivesUp(log: seq<Note>, keys: set<Seq32>, q: seq<Segment>, at: int, k: Seq32)
    requires k in keys
    ensures EverGivenUp(log + [GivenUp(keys), Queued(q, at)], k)
  {
    var after := log + [GivenUp(keys), Queued(q, at)];
    assert after[..|after| - 1] == log + [GivenUp(keys)];
  }

  lemma ActRetry(x: Endpoint, incoming: set<Segment>, ev: Event, limit: nat)
    requires RetryInv(x, limit) && (ev.ResendRound? ==> ev.round.maxCount == limit)
    ensures RetryInv(Act(x, incoming, ev).me, limit)
  {
    var me := Act(x, incoming, ev).me;
    ActIsTick(x, incoming, ev);
    hide Counted, EverGivenUp, Act;
    if ev.Transmit? && x.send.out != [] {
      CountsStay(Books(x), [], limit, Transmission(x.send.out[0], ev.now));
    } else if ev.ResendRound? && Walks(ev.order, x.send.resend) {
      CountsStay(Books(x), [], limit, Timer(ev.round, ev.order));
    } else if ev.Receive? {
      CountsStay(Books(x), [], limit, Ack(ev.packet.ackNum));
    }
    forall k | k in me.gaveUp ensures EverGivenUp(me.log, k) {
      GaveUpStays(x, incoming, ev, k);
    }
  }

  lemma GaveUpStays(x: Endpoint, incoming: set<Segment>, ev: Event, k: Seq32)
    requires x.send.inSack == [] && (k in x.gaveUp ==> EverGivenUp(x.log, k))
    requires k in Act(x, incoming, ev).me.gaveUp
    ensures EverGivenUp(Act(x, incoming, ev).me.log, k)
  {
    hide EverGivenUp, HandleData, Write, Cut, Flatten, Prune, AfterRound, Register, Duplicates, Walks;
    if k in x.gaveUp {
      GivenUpGrows(x.log, Act(x, incoming, ev).me.log[|x.log|..], k);
      assert x.log <= Act(x, incoming, ev).me.log;
    } else {
      assert ev.ResendRound? && k in Dropped(x.send.resend, [], ev.round);
      RoundGivesUp(x.log, Exhausted(x.send.resend, ev.round.maxCount),
                   Duplicates(x.send.resend, [], ev.round, ev.order), ev.round.now, k);
    }
  }

  lemma {:induction false} RunRetries(l: Link, moves: seq<Move>, limitA: nat, limitB: nat)
    requires Configured(moves, true, limitA) && Configured(moves, false, limitB)
    ensures var s := Run(l, moves); RetryInv(s.a, limitA) && RetryInv(s.b, limitB)
    decreases moves
  {
    if moves != [] {
      hide RetryInv, Act;
      var prefix, m := moves[..|moves| - 1], moves[|moves| - 1];
      assert Configured(prefix, true, limitA) && Configured(prefix, false, limitB) by {
        assert forall i :: 0 <= i < |prefix| ==> prefix[i] == moves[i];
      }
      RunRetries(l, prefix, limitA, limitB);
      var s := Run(l, prefix);
      assert m == moves[|moves| - 1];
      if m.byA {
        ActRetry(s.a, s.ba, m.event, limitA);
      } else {
        ActRetry(s.b, s.ab, m.event, limitB);
      }
    }
  }

  lemma {:induction false} SinceWithinAll(log: seq<Note>, k: Seq32)
    ensures QueuedSince(log, k) <= QueuedInAll(log, k)
    decreases log
  {
    if log != [] {
      SinceWithinAll(log[..|log| - 1], k);
    }
  }

  lemma {:induction false} GivenUpWasQueued(log: seq<Note>, k: Seq32, limit: nat)
    requires EverGivenUp(log, k) && GivenUpAt(log, k, limit)
    ensures QueuedInAll(log, k) >= limit
    decreases log
  {
    var init := log[..|log| - 1];
    if EverGivenUp(init, k) {
      GivenUpWasQueued(init, k, limit);
    } else {
      SinceWithinAll(init, k);
    }
  }

  /**
   While a key is in the map its count is the number of duplicates queued since it entered, at most the
   limit, and its time that of the last of them, or of its entering; and every time a key was given up,
   exactly `limit` duplicates had been queued since it entered.
   */
  predicate Retried(x: Endpoint, limit: nat) {
    && (forall k :: k in x.send.resend ==>
          && x.send.resend[k].resendCount == QueuedSince(x.log, k) <= limit
          && x.send.resend[k].lastSent == LastTime(x.log, k))
    && (forall k :: k in x.gaveUp ==>
          EverGivenUp(x.log, k) && GivenUpAt(x.log, k, limit) && limit <= QueuedInAll(x.log, k))
  }

  /** In every run, with any loss, aging or wrap, at both ends. */
  lemma {:induction false} RetryBound(l: Link, moves: seq<Move>, limitA: nat, limitB: nat)
    requires Configured(moves, true, limitA) && Configured(moves, false, limitB)
    ensures var s := Run(l, moves); Retried(s.a, limitA) && Retried(s.b, limitB)
  {
    hide Run, EverGivenUp, GivenUpAt, QueuedInAll, QueuedSince;
    RunRetries(l, moves, limitA, limitB);
    var s := Run(l, moves);
    forall k | k in s.a.gaveUp ensures limitA <= QueuedInAll(s.a.log, k) {
      GivenUpWasQueued(s.a.log, k, limitA);
    }
    forall k | k in s.b.gaveUp ensures limitB <= QueuedInAll(s.b.log, k) {
      GivenUpWasQueued(s.b.log, k, limitB);
    }
  }

  // ----- Spacing -----

  /** One end is configured with this resend interval. */
  predicate Paced(moves: seq<Move>, byA: bool, interval: int) {
    forall i :: 0 <= i < |moves| && moves[i].byA == byA && moves[i].event.ResendRound? ==>
      moves[i].event.round.interval == interval
  }

  lemma ActSpaced(x: Endpoint, incoming: set<Segment>, ev: Event, limit: nat, interval: int)
    requires RetryInv(x, limit) && Spaced(x.log, interval)
    requires ev.ResendRound? ==> ev.round.maxCount == limit && ev.round.interval == interval
    ensures Spaced(Act(x, incoming, ev).me.log, interval)
  {
    ActIsTick(x, incoming, ev);
    hide Counted, EverGivenUp, Act, Spaced;
    if ev.Transmit? && x.send.out != [] {
      SpacingStays(Books(x), [], limit, interval, Transmission(x.send.out[0], ev.now));
    } else if ev.ResendRound? && Walks(ev.order, x.send.resend) {
      SpacingStays(Books(x), [], limit, interval, Timer(ev.round, ev.order));
    } else if ev.Receive? {
      SpacingStays(Books(x), [], limit, interval, Ack(ev.packet.ackNum));
    }
  }

  /** In every run each duplicate is queued at least the interval after its segment was registered or queued before. */
  lemma {:induction false} DuplicatesAreSpaced(
    l: Link, moves: seq<Move>, limitA: nat, limitB: nat, intervalA: int, intervalB: int)
    requires Configured(moves, true, limitA) && Configured(moves, false, limitB)
    requires Paced(moves, true, intervalA) && Paced(moves, false, intervalB)
    ensures Spaced(Run(l, moves).a.log, intervalA) && Spaced(Run(l, moves).b.log, intervalB)
    decreases moves
  {
    if moves != [] {
      hide RetryInv, Act, Spaced;
      var prefix, m := moves[..|moves| - 1], moves[|moves| - 1];
      assert forall i :: 0 <= i < |prefix| ==> prefix[i] == moves[i];
      DuplicatesAreSpaced(l, prefix, limitA, limitB, intervalA, intervalB);
      RunRetries(l, prefix, limitA, limitB);
      var s := Run(l, prefix);
      assert m == moves[|moves| - 1];
      if m.byA {
        ActSpaced(s.a, s.ba, m.event, limitA, intervalA);
      } else {
        ActSpaced(s.b, s.ab, m.event, limitB, intervalB);
      }
    }
  }

  /** Every segment x wrote is queued, kept for resending, delivered, or was dropped after `limit` duplicates. */
  predicate Accounted(x: Endpoint, y: Endpoint, limit: nat) {
    forall t :: t in x.written ==>
      || t in x.send.out || t.seqNum in x.send.resend || t in y.recv.delivered
      || (t.seqNum in x.gaveUp && limit <= QueuedInAll(x.log, t.seqNum))
  }

  /** In every run without aging between two reliable ends, in both directions. */
  lemma {:induction false} NeverForgotten(l: Link, moves: seq<Move>, limitA: nat, limitB: nat)
    requires NoWrap(Run(l, moves), l) && NoAging(moves)
    requires Configured(moves, true, limitA) && Configured(moves, false, limitB)
    requires Reliable(l.modeA) && Reliable(l.modeB)
    ensures var s := Run(l, moves); Accounted(s.a, s.b, limitA) && Accounted(s.b, s.a, limitB)
  {
    hide Run, Complete, Configured, NoAging, NoWrap, Direction, EverGivenUp, GivenUpAt, QueuedInAll;
    ModesStay(l, moves);
    RunKeeps(l, moves);
    RetryBound(l, moves, limitA, limitB);
  }

  // ----- A duplicate that outlives its entry -----

  lemma NoWrapBefore(s: System, m: Move, l: Link)
    requires NoWrap(Step(s, m), l)
    ensures NoWrap(s, l)
  {
    hide Fits, Act;
    if m.byA {
      FitsBefore(s.a, s.ba, m.event, l.baseA);
    } else {
      FitsBefore(s.b, s.ab, m.event, l.baseB);
    }
  }

  /** A written segment that is neither in the map nor queued. */
  predicate Gone(x: Endpoint, t: Segment) {
    t in x.written && t.seqNum !in x.send.resend && t !in x.send.out
  }

  lemma GoneStays(x: Endpoint, incoming: set<Segment>, net: set<Segment>, ev: Event, base: int, t: Segment)
    requires SendInv(x, net, base) && Fits(Act(x, incoming, ev).me, base) && Gone(x, t)
    ensures Gone(Act(x, incoming, ev).me, t)
  {
    hide Flatten, Cut, HandleData, Duplicates, Fits;
    FitsBefore(x, incoming, ev, base);
    ContiguousBounds(x.written, base, x.send.next);
    match ev
    case WriteCall(_, _, _) =>
      WriteExtends(x, ev, base);
      ContiguousBounds(CutOf(x, ev), x.send.next, ActWrite(x, ev).send.next);
    case Transmit(_, _) =>
      if x.send.out != [] {
        var p := x.send.out[0];
        assert From(x, net, p);
        ContiguousApart(x.written, base, x.send.next);
        assert p.payload != [] ==> Apart(p, t);
      }
    case ResendRound(round, order) => DuplicatesAreKept(x.send.resend, x.send.inSack, round, order);
    case Receive(_, _) =>
  }

  lemma {:induction false} GoneForGood(
    l: Link, moves: seq<Move>, more: seq<Move>, byA: bool, t: Segment)
    requires NoWrap(Run(l, moves + more), l) && Gone(EndOf(Run(l, moves), byA), t)
    ensures Gone(EndOf(Run(l, moves + more), byA), t)
    decreases more
  {
    if more == [] {
      assert moves + more == moves;
    } else {
      hide Gone, NoWrap, SystemInv, Lossless, Step, EndOf;
      var prefix, m := more[..|more| - 1], more[|more| - 1];
      assert (moves + more)[..|moves + more| - 1] == moves + prefix;
      var s := Run(l, moves + prefix);
      NoWrapBefore(s, m, l);
      GoneForGood(l, moves, prefix, byA, t);
      RunKeeps(l, moves + prefix);
      GoneStep(s, m, byA, l, t);
    }
  }

  lemma GoneStep(s: System, m: Move, byA: bool, l: Link, t: Segment)
    requires SystemInv(s, l) && NoWrap(Step(s, m), l) && Gone(EndOf(s, byA), t)
    ensures Gone(EndOf(Step(s, m), byA), t)
  {
    hide Gone, SendInv, LinkInv, AckInv, Act, Fits;
    if m.byA != byA {
    } else if m.byA {
      GoneStays(s.a, s.ba, s.ab, m.event, l.baseA, t);
    } else {
      GoneStays(s.b, s.ab, s.ba, m.event, l.baseB, t);
    }
  }

  lemma TransmitHead(s: System, byA: bool)
    requires EndOf(s, byA).send.out != [] && Reliable(EndOf(s, byA).mode)
    ensures var before, after := EndOf(s, byA), EndOf(Step(s, Move(byA, Transmit(false, 0))), byA);
            && after.send.out == before.send.out[1..] && after.mode == before.mode
            && after.send.resend == Register(before.send.resend, before.send.out[0], 0)
    ensures var t := Step(s, Move(byA, Transmit(false, 0)));
            t.a.accepted == s.a.accepted && t.b.accepted == s.b.accepted
  {
  }

  /** Transmitting what is queued brings a queued segment back into the map, with count 0. */
  lemma {:induction false} BackByTransmitting(
    l: Link, moves: seq<Move>, byA: bool, t: Segment, i: nat) returns (more: seq<Move>)
    requires var x := EndOf(Run(l, moves), byA);
             && t.payload != [] && t.seqNum !in x.send.resend && i < |x.send.out| && x.send.out[i] == t
             && Reliable(x.mode)
    requires NoWrap(Run(l, moves), l)
    ensures NoWrap(Run(l, moves + more), l)
    ensures var x := EndOf(Run(l, moves + more), byA);
            t.seqNum in x.send.resend && x.send.resend[t.seqNum].resendCount == 0
    decreases i
  {
    hide Act, Step;
    var m := Move(byA, Transmit(false, 0));
    more := [m];
    assert (moves + more)[..|moves + more| - 1] == moves;
    var s := Run(l, moves);
    TransmitHead(s, byA);
    assert Run(l, moves + more) == Step(s, m);
    if t.seqNum !in EndOf(Step(s, m), byA).send.resend {
      var rest := BackByTransmitting(l, moves + [m], byA, t, i - 1);
      more := [m] + rest;
      assert moves + more == moves + [m] + rest;
    }
  }

  /**
   Over runs: a written segment that is not in the map, as one given up is not, enters it in some
   continuation if and only if it is still queued and its end keeps what it sends.
   */
  lemma {:induction false} DroppedComesBackIffQueued(
    l: Link, moves: seq<Move>, byA: bool, t: Segment)
    requires NoWrap(Run(l, moves), l)
    requires var x := EndOf(Run(l, moves), byA); t in x.written && t.seqNum !in x.send.resend
    ensures t in EndOf(Run(l, moves), byA).send.out && Reliable(EndOf(Run(l, moves), byA).mode)
            <==> exists more: seq<Move> ::
                   && NoWrap(Run(l, moves + more), l)
                   && t.seqNum in EndOf(Run(l, moves + more), byA).send.resend
  {
    hide Run, NoWrap;
    var x := EndOf(Run(l, moves), byA);
    if !Reliable(x.mode) {
      forall more: seq<Move> | NoWrap(Run(l, moves + more), l)
        ensures t.seqNum !in EndOf(Run(l, moves + more), byA).send.resend
      {
        NothingKept(l, moves, more, byA);
      }
    } else if t in x.send.out {
      WrittenNotEmpty(l, moves, byA, t);
      var i :| 0 <= i < |x.send.out| && x.send.out[i] == t;
      var more := BackByTransmitting(l, moves, byA, t, i);
    } else {
      forall more: seq<Move> | NoWrap(Run(l, moves + more), l)
        ensures t.seqNum !in EndOf(Run(l, moves + more), byA).send.resend
      {
        GoneForGood(l, moves, more, byA, t);
      }
    }
  }

  /** An end that is not reliable keeps nothing, ever. */
  lemma NothingKept(l: Link, moves: seq<Move>, more: seq<Move>, byA: bool)
    requires !Reliable(EndOf(Run(l, moves), byA).mode) && NoWrap(Run(l, moves + more), l)
    ensures EndOf(Run(l, moves + more), byA).send.resend == map[]
  {
    hide Run, NoWrap;
    ModesStay(l, moves);
    ModesStay(l, moves + more);
    RunKeeps(l, moves + more);
  }

  lemma WrittenNotEmpty(l: Link, moves: seq<Move>, byA: bool, t: Segment)
    requires NoWrap(Run(l, moves), l) && t in EndOf(Run(l, moves), byA).written
    ensures t.payload != []
  {
    hide Run, NoWrap;
    RunKeeps(l, moves);
    var s := Run(l, moves);
    ContiguousBounds(s.a.written, l.baseA, s.a.send.next);
    ContiguousBounds(s.b.written, l.baseB, s.b.send.next);
  }
}
