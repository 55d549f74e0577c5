/**
 How long an unacknowledged segment lives: the count kept in the resend map against the duplicates
 actually queued, the exact number of rounds a segment survives, and what the inclusive SACK edge
 prunes. Module `Retries` carries the counts into the runs of two ends.
 */
module Resend {
  import opened Serial
  import opened Sack
  import opened Receiver
  import opened Sender

  function Occurrences(q: seq<Segment>, k: Seq32): nat {
    if q == [] then 0 else Occurrences(q[..|q| - 1], k) + if q[|q| - 1].seqNum == k then 1 else 0
  }

  lemma {:induction false} OccurrencesAppend(p: seq<Segment>, q: seq<Segment>, k: Seq32)
    ensures Occurrences(p + q, k) == Occurrences(p, k) + Occurrences(q, k)
    decreases q
  {
    if q == [] {
      assert p + q == p;
    } else {
      OccurrencesAppend(p, q[..|q| - 1], k);
      assert (p + q)[..|p + q| - 1] == p + q[..|q| - 1];
    }
  }

  /** Every entry is filed under its own sequence number. */
  predicate Keyed(resend: ResendMap) {
    forall k :: k in resend ==> resend[k].segment.seqNum == k
  }

  /** `order` walks the keys of the map, each once. */
  predicate Walks(order: seq<Seq32>, resend: ResendMap) {
    && (forall k :: k in resend ==> k in order)
    && (forall i, j :: 0 <= i < j < |order| ==> order[i] != order[j])
  }

  lemma {:induction false} DuplicatedOnce(
    resend: ResendMap, inSack: seq<Block>, round: Round, order: seq<Seq32>, k: Seq32)
    requires Keyed(resend) && forall i, j :: 0 <= i < j < |order| ==> order[i] != order[j]
    ensures Occurrences(Duplicates(resend, inSack, round, order), k)
            == if k in order && k in resend && Due(resend[k], inSack, k, round) then 1 else 0
    decreases order
  {
    hide Due;
    if order != [] {
      var init, last := order[..|order| - 1], order[|order| - 1];
      DuplicatedOnce(resend, inSack, round, init, k);
      var head := Duplicates(resend, inSack, round, init);
      var tail := if last in resend && Due(resend[last], inSack, last, round) then [resend[last].segment] else [];
      OccurrencesAppend(head, tail, k);
      assert tail != [] ==> tail[..0] == [] && Occurrences(tail, k) == if last == k then 1 else 0;
      assert order == init + [last];
    }
  }

  /** Duplicates are queued in the order of the walk. */
  lemma {:induction false} DuplicatesInOrder(
    resend: ResendMap, inSack: seq<Block>, round: Round, first: seq<Seq32>, rest: seq<Seq32>)
    ensures Duplicates(resend, inSack, round, first + rest)
            == Duplicates(resend, inSack, round, first) + Duplicates(resend, inSack, round, rest)
    decreases rest
  {
    hide Due;
    if rest == [] {
      assert first + rest == first;
    } else {
      DuplicatesInOrder(resend, inSack, round, first, rest[..|rest| - 1]);
      assert (first + rest)[..|first + rest| - 1] == first + rest[..|rest| - 1];
    }
  }

  // ----- Counts agree with the queue -----

  /** What the bookkeeping has done so far, oldest first. */
  datatype Note =
    | Registered(key: Seq32, at: int)
    | Queued(duplicates: seq<Segment>, at: int)
    | GivenUp(keys: set<Seq32>)

  /** The duplicates queued for k since it last entered the map. */
  function QueuedSince(log: seq<Note>, k: Seq32): nat {
    if log == [] then 0
    else
      var init, last := log[..|log| - 1], log[|log| - 1];
      if last.Registered? && last.key == k then 0
      else QueuedSince(init, k) + if last.Queued? then Occurrences(last.duplicates, k) else 0
  }

  /** The duplicates ever queued for k. */
  function QueuedInAll(log: seq<Note>, k: Seq32): nat {
    if log == [] then 0
    else
      QueuedInAll(log[..|log| - 1], k) +
      if log[|log| - 1].Queued? then Occurrences(log[|log| - 1].duplicates, k) else 0
  }

  /** Whenever k was given up, exactly `limit` duplicates had been queued since it entered the map. */
  predicate GivenUpAt(log: seq<Note>, k: Seq32, limit: nat) {
    log != [] ==>
      var last := log[|log| - 1];
      && (last.GivenUp? && k in last.keys ==> QueuedSince(log[..|log| - 1], k) == limit)
      && GivenUpAt(log[..|log| - 1], k, limit)
  }

  /** When k last entered the map or was last queued again. */
  function LastTime(log: seq<Note>, k: Seq32): int {
    if log == [] then 0
    else
      var last := log[|log| - 1];
      if last.Registered? && last.key == k then last.at
      else if last.Queued? && Occurrences(last.duplicates, k) > 0 then last.at
      else LastTime(log[..|log| - 1], k)
  }

  /** Every duplicate was queued at least `interval` after its segment entered the map or was last queued again. */
  ghost predicate Spaced(log: seq<Note>, interval: int) {
    log != [] ==>
      var init, last := log[..|log| - 1], log[|log| - 1];
      && Spaced(init, interval)
      && (last.Queued? ==>
            forall k: Seq32 :: Occurrences(last.duplicates, k) > 0 ==> last.at - LastTime(init, k) >= interval)
  }

  /** Transmissions, timer rounds and acknowledgments, in any order. */
  datatype Tick =
    | Transmission(packet: Segment, now: int)
    | Timer(round: Round, order: seq<Seq32>)
    | Ack(ackNum: Seq32)

  /** The resend map and its history. */
  datatype Bookkeeping = Bookkeeping(resend: ResendMap, log: seq<Note>)

  function NoteOfTransmission(resend: ResendMap, p: Segment, now: int): seq<Note> {
    if p.payload != [] && p.seqNum !in resend then [Registered(p.seqNum, now)] else []
  }

  /** The keys a round drops because their count has reached the limit. */
  function Exhausted(resend: ResendMap, maxCount: nat): set<Seq32> {
    set k | k in resend && resend[k].resendCount >= maxCount
  }

  function NotesOfRound(resend: ResendMap, inSack: seq<Block>, round: Round, order: seq<Seq32>): seq<Note> {
    [GivenUp(Exhausted(resend, round.maxCount)), Queued(Duplicates(resend, inSack, round, order), round.now)]
  }

  function Apply(b: Bookkeeping, inSack: seq<Block>, t: Tick): Bookkeeping {
    match t
    case Transmission(p, now) => Bookkeeping(Register(b.resend, p, now), b.log + NoteOfTransmission(b.resend, p, now))
    case Timer(round, order) =>
      Bookkeeping(AfterRound(b.resend, inSack, round), b.log + NotesOfRound(b.resend, inSack, round, order))
    case Ack(ackNum) => Bookkeeping(Prune(b.resend, inSack, ackNum), b.log)
  }

  predicate ProperTick(b: Bookkeeping, maxCount: nat, t: Tick) {
    t.Timer? ==> t.round.maxCount == maxCount && Walks(t.order, b.resend)
  }

  /**
   A kept entry's count is the number of duplicates queued since it entered the map, and at most
   maxCount; its time is that of the last of them, or of its entering; an entry is given up only when
   it has reached maxCount.
   */
  ghost predicate Counted(b: Bookkeeping, maxCount: nat) {
    && Keyed(b.resend)
    && (forall k :: k in b.resend ==>
          b.resend[k].resendCount == QueuedSince(b.log, k) <= maxCount && b.resend[k].lastSent == LastTime(b.log, k))
    && (forall k: Seq32 :: GivenUpAt(b.log, k, maxCount))
  }

  lemma LogGrows(log: seq<Note>, n: Note, k: Seq32)
    ensures QueuedSince(log + [n], k) ==
            if n.Registered? && n.key == k then 0
            else QueuedSince(log, k) + if n.Queued? then Occurrences(n.duplicates, k) else 0
    ensures QueuedInAll(log + [n], k) == QueuedInAll(log, k) + if n.Queued? then Occurrences(n.duplicates, k) else 0
    ensures forall limit: nat ::
              (GivenUpAt(log + [n], k, limit)
               <==> GivenUpAt(log, k, limit) && (n.GivenUp? && k in n.keys ==> QueuedSince(log, k) == limit))
    ensures LastTime(log + [n], k) ==
            if (n.Registered? && n.key == k) || (n.Queued? && Occurrences(n.duplicates, k) > 0) then n.at
            else LastTime(log, k)
  {
    assert (log + [n])[..|log + [n]| - 1] == log;
  }

  lemma RoundLog(log: seq<Note>, keys: set<Seq32>, q: seq<Segment>, at: int, k: Seq32)
    ensures QueuedSince(log + [GivenUp(keys), Queued(q, at)], k) == QueuedSince(log, k) + Occurrences(q, k)
    ensures LastTime(log + [GivenUp(keys), Queued(q, at)], k)
            == if Occurrences(q, k) > 0 then at else LastTime(log, k)
    ensures forall limit: nat ::
              (GivenUpAt(log + [GivenUp(keys), Queued(q, at)], k, limit)
               <==> GivenUpAt(log, k, limit) && (k in keys ==> QueuedSince(log, k) == limit))
  {
    hide Occurrences, QueuedSince, GivenUpAt, LastTime;
    LogGrows(log, GivenUp(keys), k);
    LogGrows(log + [GivenUp(keys)], Queued(q, at), k);
    assert log + [GivenUp(keys), Queued(q, at)] == log + [GivenUp(keys)] + [Queued(q, at)];
  }

  lemma CountsStay(b: Bookkeeping, inSack: seq<Block>, maxCount: nat, t: Tick)
    requires Counted(b, maxCount) && ProperTick(b, maxCount, t)
    ensures Counted(Apply(b, inSack, t), maxCount)
  {
    hide QueuedSince, GivenUpAt, Occurrences, Duplicates, SackHit, LastTime;
    match t
    case Ack(_) =>
    case Transmission(p, _) => TransmissionStays(b, inSack, maxCount, t);
    case Timer(round, order) =>
      var after := Apply(b, inSack, t);
      forall k: Seq32
        ensures k in after.resend ==>
                  && after.resend[k].resendCount == QueuedSince(after.log, k) <= maxCount
                  && after.resend[k].lastSent == LastTime(after.log, k)
        ensures GivenUpAt(after.log, k, maxCount)
      {
        DuplicatedOnce(b.resend, inSack, round, order, k);
        RoundLog(b.log, Exhausted(b.resend, maxCount), Duplicates(b.resend, inSack, round, order), round.now, k);
      }
  }

  lemma TransmissionStays(b: Bookkeeping, inSack: seq<Block>, maxCount: nat, t: Tick)
    requires Counted(b, maxCount) && t.Transmission?
    ensures Counted(Apply(b, inSack, t), maxCount)
  {
    hide QueuedSince, GivenUpAt, LastTime;
    var p, note := t.packet, Registered(t.packet.seqNum, t.now);
    if p.payload != [] && p.seqNum !in b.resend {
      forall k: Seq32
        ensures QueuedSince(b.log + [note], k) == if p.seqNum == k then 0 else QueuedSince(b.log, k)
        ensures LastTime(b.log + [note], k) == if p.seqNum == k then t.now else LastTime(b.log, k)
        ensures GivenUpAt(b.log + [note], k, maxCount)
      {
        LogGrows(b.log, note, k);
      }
    } else {
      assert b.log + [] == b.log;
    }
  }

  /** Each round keeps its interval. */
  lemma SpacingStays(b: Bookkeeping, inSack: seq<Block>, maxCount: nat, interval: int, t: Tick)
    requires Counted(b, maxCount) && ProperTick(b, maxCount, t) && Spaced(b.log, interval)
    requires t.Timer? ==> t.round.interval == interval
    ensures Spaced(Apply(b, inSack, t).log, interval)
  {
    hide Occurrences, Duplicates, LastTime, Spaced, QueuedSince, GivenUpAt, SackHit;
    match t
    case Ack(_) =>
    case Transmission(p, now) =>
      assert b.log + [] == b.log;
      SpacedAppend(b.log, Registered(p.seqNum, now), interval);
    case Timer(round, order) =>
      var keys, d := Exhausted(b.resend, maxCount), Duplicates(b.resend, inSack, round, order);
      forall k: Seq32 | Occurrences(d, k) > 0
        ensures round.now - LastTime(b.log + [GivenUp(keys)], k) >= interval
      {
        DuplicatedOnce(b.resend, inSack, round, order, k);
        LogGrows(b.log, GivenUp(keys), k);
      }
      SpacedAppend(b.log, GivenUp(keys), interval);
      SpacedAppend(b.log + [GivenUp(keys)], Queued(d, round.now), interval);
      assert b.log + [GivenUp(keys), Queued(d, round.now)] == b.log + [GivenUp(keys)] + [Queued(d, round.now)];
  }

  lemma SpacedAppend(log: seq<Note>, n: Note, interval: int)
    requires Spaced(log, interval)
    requires n.Queued? ==>
               forall k: Seq32 :: Occurrences(n.duplicates, k) > 0 ==> n.at - LastTime(log, k) >= interval
    ensures Spaced(log + [n], interval)
  {
    assert (log + [n])[..|log + [n]| - 1] == log;
  }

  /**
   What one round does to one entry. At the limit, or inside a received SACK block, it is removed and not
   duplicated. Otherwise, before its interval has passed or if its duplication fails, it is left alone.
   Otherwise one duplicate is queued, the count grows by one and the time is that of the round.
   */
  lemma {:induction false} RoundExactly(
    resend: ResendMap, inSack: seq<Block>, round: Round, order: seq<Seq32>, k: Seq32)
    requires Keyed(resend) && Walks(order, resend) && k in resend
    ensures var s, after := resend[k], AfterRound(resend, inSack, round);
            var n := Occurrences(Duplicates(resend, inSack, round, order), k);
            if s.resendCount >= round.maxCount || SackHit(inSack, k) then
              k !in after && n == 0
            else if round.now - s.lastSent < round.interval || k in round.failed then
              k in after && after[k] == s && n == 0
            else
              && k in after && n == 1 && after[k].segment == s.segment
              && after[k].resendCount == s.resendCount + 1 && after[k].lastSent == round.now
    ensures AfterRound(resend, inSack, round).Keys <= resend.Keys
  {
    hide Occurrences, Duplicates, SackHit;
    DuplicatedOnce(resend, inSack, round, order, k);
  }

  function ApplyAll(b: Bookkeeping, inSack: seq<Block>, ticks: seq<Tick>): Bookkeeping {
    if ticks == [] then b else Apply(ApplyAll(b, inSack, ticks[..|ticks| - 1]), inSack, ticks[|ticks| - 1])
  }

  predicate ProperTicks(b: Bookkeeping, inSack: seq<Block>, maxCount: nat, ticks: seq<Tick>) {
    ticks != [] ==>
      && ProperTicks(b, inSack, maxCount, ticks[..|ticks| - 1])
      && ProperTick(ApplyAll(b, inSack, ticks[..|ticks| - 1]), maxCount, ticks[|ticks| - 1])
  }

  /** Over all transmissions, timer rounds and acknowledgments, from the empty map of a new connection. */
  lemma {:induction false} CountsInEveryRun(inSack: seq<Block>, maxCount: nat, ticks: seq<Tick>)
    requires ProperTicks(Bookkeeping(map[], []), inSack, maxCount, ticks)
    ensures Counted(ApplyAll(Bookkeeping(map[], []), inSack, ticks), maxCount)
    decreases ticks
  {
    if ticks != [] {
      CountsInEveryRun(inSack, maxCount, ticks[..|ticks| - 1]);
      var before := ApplyAll(Bookkeeping(map[], []), inSack, ticks[..|ticks| - 1]);
      CountsStay(before, inSack, maxCount, ticks[|ticks| - 1]);
    }
  }

  // ----- How many rounds a segment survives -----

  /** The interval has passed for every entry and every duplication succeeds. */
  predicate AllDue(resend: ResendMap, round: Round) {
    round.failed == {} && forall k :: k in resend ==> round.now - resend[k].lastSent >= round.interval
  }

  function AfterRounds(resend: ResendMap, rounds: seq<Round>): ResendMap {
    if rounds == [] then resend
    else AfterRound(AfterRounds(resend, rounds[..|rounds| - 1]), [], rounds[|rounds| - 1])
  }

  predicate AlwaysDue(resend: ResendMap, maxCount: nat, rounds: seq<Round>) {
    rounds != [] ==>
      && AlwaysDue(resend, maxCount, rounds[..|rounds| - 1])
      && rounds[|rounds| - 1].maxCount == maxCount
      && AllDue(AfterRounds(resend, rounds[..|rounds| - 1]), rounds[|rounds| - 1])
  }

  /** Without acknowledgments an entry with count c is still there after n due rounds exactly when c + n <= maxCount. */
  lemma {:induction false} SurvivesExactly(resend: ResendMap, maxCount: nat, rounds: seq<Round>, k: Seq32)
    requires AlwaysDue(resend, maxCount, rounds) && rounds != []
    ensures k in AfterRounds(resend, rounds)
            <==> k in resend && resend[k].resendCount + |rounds| <= maxCount
    ensures k in AfterRounds(resend, rounds) ==>
              AfterRounds(resend, rounds)[k].resendCount == resend[k].resendCount + |rounds|
    decreases rounds
  {
    var init := rounds[..|rounds| - 1];
    if init == [] {
      assert AfterRounds(resend, init) == resend;
    } else {
      SurvivesExactly(resend, maxCount, init, k);
    }
  }

  /** So MaxResendCount + 1 due rounds empty the map. */
  lemma RoundsEmptyTheMap(resend: ResendMap, maxCount: nat, rounds: seq<Round>)
    requires AlwaysDue(resend, maxCount, rounds) && |rounds| == maxCount + 1
    ensures AfterRounds(resend, rounds) == map[]
  {
    var after := AfterRounds(resend, rounds);
    forall k ensures k !in after {
      SurvivesExactly(resend, maxCount, rounds, k);
    }
  }

  // ----- The inclusive right edge -----

  /** A SACK block prunes the keys it covers and also the one at its right edge, which it does not cover. */
  lemma SackHitIffCoveredOrEdge(lo: int, blocks: seq<Block>, k: Seq32)
    requires BlocksInWindow(lo, blocks) && InWindow(lo, k)
    requires forall b :: b in blocks ==> 0 <= b.leftEdge < b.rightEdge < MODULUS
    ensures SackHit(blocks, k) <==> Covers(blocks, k) || exists b :: b in blocks && b.rightEdge == k
  {
    hide IsGreaterOrEqual, IsLessOrEqual, Wire;
    forall b | b in blocks
      ensures IsGreaterOrEqual(k, Wire(b.leftEdge)) && IsLessOrEqual(k, Wire(b.rightEdge))
              <==> Within(k, b) || b.rightEdge == k
    {
      SerialOrderLifts(k, b.leftEdge);
      SerialOrderLifts(k, b.rightEdge);
    }
    CoversWitness(blocks, k);
  }

  /** A block list on the wire hits a key exactly when a block reaches from at or before its offset to it or beyond. */
  lemma SackHitFollows(lo: int, blocks: seq<Block>, x: int)
    requires InWindow(lo, x) && BlocksInWindow(lo, blocks)
    ensures SackHit(Encode(blocks), Wire(x)) <==> exists b :: b in blocks && b.leftEdge <= x <= b.rightEdge
  {
    var e := Encode(blocks);
    hide IsGreaterOrEqual, IsLessOrEqual, Wire, Encode;
    forall i | 0 <= i < |blocks|
      ensures IsGreaterOrEqual(Wire(x), Wire(Wire(blocks[i].leftEdge)))
              && IsLessOrEqual(Wire(x), Wire(Wire(blocks[i].rightEdge)))
              <==> blocks[i].leftEdge <= x <= blocks[i].rightEdge
    {
      assert blocks[i] in blocks;
      SerialOrderLifts(x, blocks[i].leftEdge);
      SerialOrderLifts(x, blocks[i].rightEdge);
    }
    if SackHit(e, Wire(x)) {
      var c :| c in e && IsGreaterOrEqual(Wire(x), Wire(c.leftEdge)) && IsLessOrEqual(Wire(x), Wire(c.rightEdge));
      var i :| 0 <= i < |e| && e[i] == c;
      assert blocks[i] in blocks;
    }
    if exists b :: b in blocks && b.leftEdge <= x <= b.rightEdge {
      var b :| b in blocks && b.leftEdge <= x <= b.rightEdge;
      var i :| 0 <= i < |blocks| && blocks[i] == b;
      assert e[i] in e;
    }
  }

  /**
   Pruning on stream offsets, across wraps: an entry stays, unchanged, exactly if the acknowledgment does not
   lie behind its first byte and no SACK block reaches from at or before it to it or beyond.
   */
  lemma {:induction false} PruneFollows(lo: int, resend: ResendMap, blocks: seq<Block>, x: int, a: int)
    requires InWindow(lo, x) && InWindow(lo, a) && BlocksInWindow(lo, blocks) && Wire(x) in resend
    ensures var after := Prune(resend, Encode(blocks), Wire(a));
            && (Wire(x) in after
                <==> a <= x && !exists b :: b in blocks && b.leftEdge <= x <= b.rightEdge)
            && (Wire(x) in after ==> after[Wire(x)] == resend[Wire(x)])
    ensures Prune(resend, Encode(blocks), Wire(a)).Keys <= resend.Keys
  {
    hide SackHit, Encode;
    SackHitFollows(lo, blocks, x);
    SerialOrderLifts(x, a);
  }

  /** Key 2^32 - 16 goes when 16 bytes behind the wrap have been acknowledged. */
  lemma PruneAcrossWrap(s: Sent)
    ensures 0xffff_fff0 !in Prune(map[0xffff_fff0 := s], [], 16)
  {
    PruneFollows(0xffff_fff0, map[0xffff_fff0 := s], [], 0xffff_fff0, 0x1_0000_0010);
  }
}
