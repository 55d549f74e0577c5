/**
 The retry limit bounds the duplicates of one stay in the resend map, not those of a segment: with the
 clock running, nothing lost and a short queue, a segment can be dropped and registered again for ever.
 */
module Stays {
  import opened Serial
  import opened Bytes
  import opened Receiver
  import opened Sender
  import opened Resend
  import opened Transfer

  // ----- Runs a real pair can make -----

  /** The last time read from the clock. */
  function Clock(moves: seq<Move>): int {
    if moves == [] then 0
    else
      var ev := moves[|moves| - 1].event;
      if ev.Transmit? then ev.now else if ev.ResendRound? then ev.round.now else Clock(moves[..|moves| - 1])
  }

  /** The clock runs, no packet is lost, and rounds follow the configuration. */
  predicate Regular(moves: seq<Move>, ev: Event, limit: nat, interval: nat) {
    && (ev.Transmit? ==> !ev.lost && Clock(moves) < ev.now)
    && (ev.ResendRound? ==>
          Clock(moves) < ev.round.now && ev.round.interval == interval && ev.round.maxCount == limit
          && ev.round.failed == {})
  }

  /** And in no state are more than `limit` packets queued at a. */
  predicate Orderly(l: Link, moves: seq<Move>, limit: nat, interval: nat) {
    && |Run(l, moves).a.send.out| <= limit
    && (moves != [] ==>
          && Orderly(l, moves[..|moves| - 1], limit, interval)
          && Regular(moves[..|moves| - 1], moves[|moves| - 1].event, limit, interval))
  }

  predicate AllAre(q: seq<Segment>, t: Segment) {
    forall i :: 0 <= i < |q| ==> q[i] == t
  }

  /** x has written only t and queued nothing else; `entries` is its resend map. */
  predicate Only(x: Endpoint, t: Segment, entries: ResendMap) {
    && Reliable(x.mode) && x.written == [t] && x.accepted == t.payload && x.send.inSack == []
    && AllAre(x.send.out, t) && x.send.resend == entries
  }

  /** After these moves: `queued` copies of t waiting, and `all` duplicates of it queued so far. */
  predicate At(
    l: Link, moves: seq<Move>, limit: nat, interval: nat, t: Segment, entries: ResendMap, queued: nat, all: nat)
  {
    var s := Run(l, moves);
    && Orderly(l, moves, limit, interval) && s.b == Opened(l.baseB, l.baseA, l.modeB)
    && Only(s.a, t, entries) && |s.a.send.out| == queued && QueuedInAll(s.a.log, t.seqNum) == all
  }

  function Entry(t: Segment, c: nat, last: int): ResendMap {
    map[t.seqNum := Sent(t, c, last)]
  }

  // ----- Single events -----

  lemma AfterOne(l: Link, moves: seq<Move>, ev: Event, limit: nat, interval: nat)
    requires Orderly(l, moves, limit, interval) && Regular(moves, ev, limit, interval)
    requires |Act(Run(l, moves).a, Run(l, moves).ba, ev).me.send.out| <= limit
    ensures var after := moves + [Move(true, ev)];
            && Run(l, after).a == Act(Run(l, moves).a, Run(l, moves).ba, ev).me
            && Run(l, after).b == Run(l, moves).b
            && Orderly(l, after, limit, interval)
            && (ev.Transmit? ==> Clock(after) == ev.now) && (ev.ResendRound? ==> Clock(after) == ev.round.now)
  {
    hide Act, Regular;
    assert (moves + [Move(true, ev)])[..|moves|] == moves;
  }

  lemma TransmitOne(x: Endpoint, incoming: set<Segment>, t: Segment, entries: ResendMap, now: int)
    requires Only(x, t, entries) && x.send.out != [] && t.payload != [] && (entries == map[] || t.seqNum in entries)
    ensures var me := Act(x, incoming, Transmit(false, now)).me;
            && Only(me, t, if entries == map[] then Entry(t, 0, now) else entries)
            && |me.send.out| == |x.send.out| - 1
            && QueuedInAll(me.log, t.seqNum) == QueuedInAll(x.log, t.seqNum)
  {
    hide QueuedInAll;
    assert x.send.out[0] == t;
    LogGrows(x.log, Registered(t.seqNum, now), t.seqNum);
    assert x.log + [] == x.log;
  }

  lemma DuplicatesOfOne(t: Segment, c: nat, last: int, round: Round)
    requires round.failed == {} && round.now - last >= round.interval
    ensures Duplicates(Entry(t, c, last), [], round, [t.seqNum]) == if c < round.maxCount then [t] else []
  {
    var resend := Entry(t, c, last);
    assert [t.seqNum][..0] == [];
    assert Duplicates(resend, [], round, []) == [];
    assert Due(resend[t.seqNum], [], t.seqNum, round) <==> c < round.maxCount;
  }

  lemma RoundOfOne(t: Segment, c: nat, last: int, round: Round)
    requires round.failed == {} && round.now - last >= round.interval
    ensures AfterRound(Entry(t, c, last), [], round)
            == if c < round.maxCount then Entry(t, c + 1, round.now) else map[]
  {
    var resend := Entry(t, c, last);
    assert Live(resend[t.seqNum], [], t.seqNum, round) <==> c < round.maxCount;
    assert Due(resend[t.seqNum], [], t.seqNum, round) <==> c < round.maxCount;
  }

  lemma LogOfRound(log: seq<Note>, keys: set<Seq32>, t: Segment, queued: bool, at: int)
    ensures QueuedInAll(log + [GivenUp(keys), Queued(if queued then [t] else [], at)], t.seqNum)
            == QueuedInAll(log, t.seqNum) + if queued then 1 else 0
  {
    hide QueuedInAll;
    var d := if queued then [t] else [];
    LogGrows(log, GivenUp(keys), t.seqNum);
    LogGrows(log + [GivenUp(keys)], Queued(d, at), t.seqNum);
    assert log + [GivenUp(keys), Queued(d, at)] == log + [GivenUp(keys)] + [Queued(d, at)];
    assert queued ==> d[..0] == [] && Occurrences(d, t.seqNum) == 1;
  }

  lemma RoundOnOne(x: Endpoint, incoming: set<Segment>, t: Segment, c: nat, last: int, round: Round)
    requires Only(x, t, Entry(t, c, last)) && round.failed == {} && round.now - last >= round.interval
    ensures var me := Act(x, incoming, ResendRound(round, [t.seqNum])).me;
            var due := c < round.maxCount;
            && Only(me, t, if due then Entry(t, c + 1, round.now) else map[])
            && |me.send.out| == |x.send.out| + (if due then 1 else 0)
            && QueuedInAll(me.log, t.seqNum) == QueuedInAll(x.log, t.seqNum) + if due then 1 else 0
  {
    RoundActs(x, incoming, t, round);
    DuplicatesOfOne(t, c, last, round);
    RoundOfOne(t, c, last, round);
    LogOfRound(x.log, Exhausted(x.send.resend, round.maxCount), t, c < round.maxCount, round.now);
    hide Act, QueuedInAll, Duplicates, AfterRound, Exhausted, Entry;
    var me := Act(x, incoming, ResendRound(round, [t.seqNum])).me;
    OnlyAfter(x, me, t, if c < round.maxCount then [t] else [],
              if c < round.maxCount then Entry(t, c + 1, round.now) else map[]);
    hide Only;
  }

  lemma OnlyAfter(x: Endpoint, me: Endpoint, t: Segment, d: seq<Segment>, entries: ResendMap)
    requires exists before: ResendMap :: Only(x, t, before)
    requires me.mode == x.mode && me.written == x.written && me.accepted == x.accepted && me.send.inSack == []
    requires me.send.out == x.send.out + d && AllAre(d, t) && me.send.resend == entries
    ensures Only(me, t, entries)
  {
  }

  /** What a round does to an end that keeps at most t. */
  lemma RoundActs(x: Endpoint, incoming: set<Segment>, t: Segment, round: Round)
    requires t.seqNum in x.send.resend && x.send.inSack == [] && forall k :: k in x.send.resend ==> k == t.seqNum
    ensures var me := Act(x, incoming, ResendRound(round, [t.seqNum])).me;
            var d := Duplicates(x.send.resend, [], round, [t.seqNum]);
            && me.mode == x.mode && me.written == x.written && me.accepted == x.accepted && me.send.inSack == []
            && me.send.out == x.send.out + d && me.send.resend == AfterRound(x.send.resend, [], round)
            && me.log == x.log + [GivenUp(Exhausted(x.send.resend, round.maxCount)), Queued(d, round.now)]
  {
    assert Walks([t.seqNum], x.send.resend);
    hide Duplicates, AfterRound, Exhausted, Dropped, Walks;
  }

  // ----- One stay -----

  lemma TransmitStep(
    l: Link, moves: seq<Move>, limit: nat, interval: nat, t: Segment, entries: ResendMap, queued: nat, all: nat)
    returns (after: seq<Move>)
    requires At(l, moves, limit, interval, t, entries, queued, all) && t.payload != [] && queued > 0
    requires entries == map[] || t.seqNum in entries
    ensures Clock(after) == Clock(moves) + 1
    ensures var now := if entries == map[] then Entry(t, 0, Clock(after)) else entries;
            At(l, after, limit, interval, t, now, queued - 1, all)
  {
    hide Act, Only, QueuedInAll, Run, Entry;
    var ev := Transmit(false, Clock(moves) + 1);
    var s := Run(l, moves);
    assert s.a.send.out != [];
    TransmitOne(s.a, s.ba, t, entries, ev.now);
    AfterOne(l, moves, ev, limit, interval);
    after := moves + [Move(true, ev)];
  }

  /** Transmit the other copies queued; they find the first in the map. */
  lemma {:induction false} SendRest(
    l: Link, moves: seq<Move>, limit: nat, interval: nat, t: Segment, last: int, queued: nat, all: nat)
    returns (after: seq<Move>)
    requires At(l, moves, limit, interval, t, Entry(t, 0, last), queued, all) && t.payload != [] && last <= Clock(moves)
    ensures At(l, after, limit, interval, t, Entry(t, 0, last), 0, all) && last <= Clock(after)
    decreases queued
  {
    hide At;
    after := moves;
    if queued > 0 {
      assert t.seqNum in Entry(t, 0, last) && Entry(t, 0, last) != map[];
      after := TransmitStep(l, moves, limit, interval, t, Entry(t, 0, last), queued, all);
      after := SendRest(l, after, limit, interval, t, last, queued - 1, all);
    }
  }

  /** A round every interval until the entry is dropped. */
  lemma {:induction false} UntilDropped(
    l: Link, moves: seq<Move>, limit: nat, interval: nat, t: Segment, c: nat, last: int, all: nat)
    returns (after: seq<Move>)
    requires At(l, moves, limit, interval, t, Entry(t, c, last), c, all) && c <= limit && last <= Clock(moves)
    ensures At(l, after, limit, interval, t, map[], limit, all + (limit - c))
    decreases limit - c
  {
    hide Act, Only, QueuedInAll, Run, Entry;
    var round := Round(Clock(moves) + interval + 1, interval, limit, {});
    var ev := ResendRound(round, [t.seqNum]);
    var s := Run(l, moves);
    RoundOnOne(s.a, s.ba, t, c, last, round);
    AfterOne(l, moves, ev, limit, interval);
    after := moves + [Move(true, ev)];
    if c < limit {
      after := UntilDropped(l, after, limit, interval, t, c + 1, round.now, all + 1);
    }
  }

  // ----- Any number of stays -----

  lemma CutOfOne(next: Seq32, ack: Seq32, x: byte)
    ensures Cut(next, ack, 1, [x], 1) == [Segment(next, ack, [x])]
    ensures Flatten([Segment(next, ack, [x])]) == [x]
  {
    hide SeqIncrementBy;
    var t := Segment(next, ack, [x]);
    CutUnfolds(next, ack, 1, [x], 1);
    var q := Cut(next, ack, 1, [x], 1);
    assert [x][1..] == [] && [x][..1] == [x];
    assert Cut(SeqIncrementBy(next, 1), ack, 1, [], 0) == [];
    assert q == [q[0]] + q[1..];
    assert [t][..0] == [] && Flatten([]) == [];
    assert Flatten([t]) == Flatten([t][..0]) + t.payload;
  }

  lemma FirstWrite(l: Link, x: byte, limit: nat, interval: nat)
    requires Reliable(l.modeA) && limit > 0
    ensures At(l, [Move(true, WriteCall(1, [x], 1))], limit, interval, Segment(l.baseA, l.baseB, [x]), map[], 1, 0)
  {
    hide Cut, Flatten, Advanced;
    CutOfOne(l.baseA, l.baseB, x);
    var ev := WriteCall(1, [x], 1);
    AfterOne(l, [], ev, limit, interval);
    assert [] + [Move(true, ev)] == [Move(true, ev)];
  }

  /** n times around: registered, resent up to the limit, dropped with the duplicates still queued. */
  lemma {:induction false} Cycles(l: Link, x: byte, limit: nat, interval: nat, n: nat)
    returns (moves: seq<Move>, queued: nat)
    requires Reliable(l.modeA) && limit > 0
    ensures At(l, moves, limit, interval, Segment(l.baseA, l.baseB, [x]), map[], queued, n * limit) && queued > 0
  {
    var t := Segment(l.baseA, l.baseB, [x]);
    hide At;
    if n == 0 {
      moves, queued := [Move(true, WriteCall(1, [x], 1))], 1;
      FirstWrite(l, x, limit, interval);
    } else {
      moves, queued := Cycles(l, x, limit, interval, n - 1);
      moves := TransmitStep(l, moves, limit, interval, t, map[], queued, (n - 1) * limit);
      var last := Clock(moves);
      moves := SendRest(l, moves, limit, interval, t, last, queued - 1, (n - 1) * limit);
      moves := UntilDropped(l, moves, limit, interval, t, 0, last, (n - 1) * limit);
      queued := limit;
      assert (n - 1) * limit + limit == n * limit;
    }
  }

  /**
   Whatever the limit and the interval, and however large n: there is a run with a running clock, no loss,
   a single Write of one byte and never more than `limit` packets queued, in which more than n duplicates
   of its one segment are queued.
   */
  lemma {:induction false} LimitIsPerStay(l: Link, x: byte, limit: nat, interval: nat, n: nat)
    requires Reliable(l.modeA) && limit > 0 && l.baseA + 1 < MODULUS
    ensures exists moves: seq<Move> ::
              && Orderly(l, moves, limit, interval) && NoWrap(Run(l, moves), l)
              && Run(l, moves).a.written == [Segment(l.baseA, l.baseB, [x])]
              && QueuedInAll(Run(l, moves).a.log, l.baseA) > n
  {
    hide Run, QueuedInAll, Orderly;
    var moves, queued := Cycles(l, x, limit, interval, n + 1);
    AtLeast(n + 1, limit);
    assert NoWrap(Run(l, moves), l);
  }

  lemma AtLeast(n: nat, limit: nat)
    requires limit > 0
    ensures n * limit >= n
  {
  }
}
