/**
 What data does after a FIN. The FIN overwrites lastAckNumber, and the handler goes on taking data, so
 packets the reader already has can be accepted as new. For every delivered packet and all continuations:
 exactly when the reader gets it a second time.
 */
module Reopened {
  import opened Serial
  import opened Sack
  import opened Receiver
  import opened Sender
  import opened Reassembly
  import opened Delivery
  import opened Teardown
  import T = Transfer

  // ----- The statement -----

  /** The number a FIN leaves. */
  function Restart(fin: Packet): Seq32 {
    SeqIncrement(fin.seqNum)
  }

  /** The receiver after the FIN and these arrivals. */
  function AfterFin(r: Responder, fin: Packet, arrivals: seq<Arrival>): RecvState {
    Handle(r.reliable, HandleFin(r, fin).recv, arrivals)
  }

  /** The arrivals put p on the read channel. */
  predicate ReadAgain(r: Responder, fin: Packet, arrivals: seq<Arrival>, p: Segment) {
    var d := AfterFin(r, fin, arrivals).delivered;
    r.recv.delivered <= d && p in d[|r.recv.delivered|..]
  }

  /** Some continuation does, of packets of the stream, none aged on arrival, and without aging nothing aged at all. */
  ghost predicate ComesAgain(r: Responder, fin: Packet, all: set<Segment>, p: Segment, aging: bool) {
    exists arrivals: seq<Arrival> ::
      && AllIn(all, arrivals) && OwnNeverAged(arrivals) && (aging || NothingAges(arrivals))
      && ReadAgain(r, fin, arrivals, p)
  }

  predicate ChainTo(q: seq<Segment>, all: set<Segment>, n: int, p: Segment) {
    q != [] && q[|q| - 1] == p && Contiguous(q, n, End(p)) && forall s :: s in q ==> s in all
  }

  /** Segments of the stream run without a gap from n up to and including p. */
  ghost predicate Reaches(all: set<Segment>, n: int, p: Segment) {
    exists q: seq<Segment> :: ChainTo(q, all, n, p)
  }

  /** p starts at n, or lies above and some other packet at or above n can make an aged p jump. */
  predicate CanJump(all: set<Segment>, n: int, p: Segment) {
    n <= p.seqNum && (p.seqNum == n || exists q :: q in all && q != p && n <= q.seqNum)
  }

  // ----- What was delivered before does not matter -----

  /** The receiver after a FIN with its history cut off. */
  function Restarted(r: RecvState, n: Seq32): RecvState {
    RecvState(AckState(n, r.ack.blocks), r.cache, [])
  }

  function OnTop(d: seq<Segment>, r: RecvState): RecvState {
    RecvState(r.ack, r.cache, d + r.delivered)
  }

  lemma HandleOnTop(reliable: bool, d: seq<Segment>, r: RecvState, a: Arrival)
    ensures HandleData(reliable, OnTop(d, r), a.packet, a.aged) == OnTop(d, HandleData(reliable, r, a.packet, a.aged))
  {
    hide Update, AgeScan, Ascending, ReadyCount;
  }

  lemma {:induction false} RunOnTop(reliable: bool, d: seq<Segment>, r: RecvState, arrivals: seq<Arrival>)
    ensures Handle(reliable, OnTop(d, r), arrivals) == OnTop(d, Handle(reliable, r, arrivals))
    decreases arrivals
  {
    if arrivals != [] {
      hide HandleData, OnTop;
      RunOnTop(reliable, d, r, arrivals[..|arrivals| - 1]);
      HandleOnTop(reliable, d, Handle(reliable, r, arrivals[..|arrivals| - 1]), arrivals[|arrivals| - 1]);
    }
  }

  lemma ReadAgainIff(r: Responder, fin: Packet, arrivals: seq<Arrival>, p: Segment)
    ensures ReadAgain(r, fin, arrivals, p)
            <==> p in Handle(r.reliable, Restarted(r.recv, Restart(fin)), arrivals).delivered
    ensures AfterFin(r, fin, arrivals)
            == OnTop(r.recv.delivered, Handle(r.reliable, Restarted(r.recv, Restart(fin)), arrivals))
  {
    var start := Restarted(r.recv, Restart(fin));
    var d := r.recv.delivered;
    RunOnTop(r.reliable, d, start, arrivals);
    assert OnTop(d, start) == HandleFin(r, fin).recv;
    var more := Handle(r.reliable, start, arrivals).delivered;
    assert (d + more)[|d|..] == more;
  }

  // ----- The continuations are those of the two-party system -----

  /** The arrivals as events of the responder. */
  function DataEvents(arrivals: seq<Arrival>): (events: seq<Event>)
    ensures |events| == |arrivals|
    ensures forall i :: 0 <= i < |events| ==> events[i] == ResponderData(arrivals[i].packet, arrivals[i].aged)
  {
    seq(|arrivals|, i requires 0 <= i < |arrivals| => ResponderData(arrivals[i].packet, arrivals[i].aged))
  }

  lemma TakesStep(s: Pair, a: Arrival)
    requires s.r.state.RespFinAckSent? && a.packet.payload != []
    ensures var after := Step(s, ResponderData(a.packet, a.aged));
            && after.r.recv == HandleData(s.r.reliable, s.r.recv, a.packet, a.aged)
            && after.r.state.RespFinAckSent? && after.r.reliable == s.r.reliable
  {
    if !Accepts(s.r.reliable, s.r.recv, a.packet) {
      assert HandleData(s.r.reliable, s.r.recv, a.packet, a.aged) == s.r.recv;
    }
    hide HandleData;
  }

  /** In every run, a FIN and then data arrivals leave the responder's receiver as AfterFin says. */
  lemma {:induction false} AfterFinIsRun(
    c: Caller, r: Responder, events: seq<Event>, fin: Packet, arrivals: seq<Arrival>)
    requires Running(c, r) && forall i :: 0 <= i < |arrivals| ==> arrivals[i].packet.payload != []
    requires var s := Teardown.Run(c, r, events); s.r.state.ResponderIdle? && fin in s.toResponder && fin.fin
    ensures var s, after := Teardown.Run(c, r, events),
                            Teardown.Run(c, r, events + [ResponderReceives(fin)] + DataEvents(arrivals));
            && after.r.recv == AfterFin(s.r, fin, arrivals)
            && after.r.state.RespFinAckSent? && after.r.reliable == s.r.reliable
    decreases arrivals
  {
    var begin := events + [ResponderReceives(fin)];
    RunLast(c, r, events, ResponderReceives(fin));
    hide HandleData, Teardown.Run;
    if arrivals == [] {
      assert begin + DataEvents(arrivals) == begin;
    } else {
      var prefix, last := arrivals[..|arrivals| - 1], arrivals[|arrivals| - 1];
      AfterFinIsRun(c, r, events, fin, prefix);
      RunLast(c, r, begin + DataEvents(prefix), ResponderData(last.packet, last.aged));
      assert begin + DataEvents(arrivals) == begin + DataEvents(prefix) + [ResponderData(last.packet, last.aged)];
      var s := Teardown.Run(c, r, begin + DataEvents(prefix));
      hide Step;
      TakesStep(s, last);
    }
  }

  // ----- A packet below the new number never comes again -----

  predicate Between(lo: int, x: int, top: int) {
    lo <= x <= top
  }

  ghost function Span(lo: int, top: int): iset<int> {
    iset x: int | Between(lo, x, top)
  }

  /** The number is at least n and p neither cached nor delivered, wherever the FIN has put the number. */
  ghost predicate Past(all: set<Segment>, lo: int, top: int, r: RecvState, n: int, p: Segment) {
    && n <= r.ack.ack && WellFormed(r.ack.blocks) && EdgesIn(r.ack.blocks, Span(lo, top))
    && CacheOf(all, r.cache, 0) && p.seqNum !in r.cache && p !in r.delivered
  }

  lemma SpanIsWire(blocks: seq<Block>, lo: int, top: int)
    requires EdgesIn(blocks, Span(lo, top)) && 0 <= lo <= top < MODULUS && top - lo < HALF
    ensures BlocksInWindow(lo, blocks) && Encode(blocks) == blocks
  {
    hide Wire;
    forall i | 0 <= i < |blocks| ensures Encode(blocks)[i] == blocks[i] {
      assert blocks[i] in blocks;
    }
  }

  lemma PlaceInSpan(all: set<Segment>, lo: int, top: int, blocks: seq<Block>, p: Segment)
    requires Tiling(all, lo, top) && p in all && WellFormed(blocks) && EdgesIn(blocks, Span(lo, top))
    ensures var after := Place(Circle, blocks, p.seqNum, End(p));
            WellFormed(after) && EdgesIn(after, Span(lo, top))
  {
    SpanIsWire(blocks, lo, top);
    PlaceWellFormed(blocks, p.seqNum, End(p));
    PlaceEdges(blocks, p.seqNum, End(p), Span(lo, top));
    SpanIsWire(Place(Straight, blocks, p.seqNum, End(p)), lo, top);
    PlaceFollows(lo, blocks, p.seqNum, End(p));
  }

  /** Wherever the number stands, the update never lowers it and keeps the blocks well formed. */
  lemma UpdateInSpan(all: set<Segment>, lo: int, top: int, s: AckState, p: Segment)
    requires Tiling(all, lo, top) && p in all && WellFormed(s.blocks) && EdgesIn(s.blocks, Span(lo, top))
    ensures var after := Update(Circle, s, p.seqNum, |p.payload|);
            && s.ack <= after.ack && WellFormed(after.blocks) && EdgesIn(after.blocks, Span(lo, top))
            && (p.seqNum != s.ack ==> after.ack == s.ack)
            && (p.seqNum == s.ack ==> End(p) <= after.ack)
  {
    PlaceInSpan(all, lo, top, s.blocks, p);
    assert SeqIncrementBy(p.seqNum, |p.payload|) == End(p);
    if s.blocks != [] {
      assert s.blocks[0] in s.blocks;
    }
    hide Place, IsLess, Tiling;
  }

  lemma {:induction false} RunEndBeyond(
    all: set<Segment>, lo: int, top: int, cache: Cache, keys: seq<Seq32>, j: nat, edge: int)
    requires Tiling(all, lo, top) && CacheOf(all, cache, 0) && j <= |keys| && AllCached(cache, keys)
    ensures edge <= RunEnd(cache, keys, j, edge)
    decreases |keys| - j
  {
    if j < |keys| && edge == keys[j] {
      var next := cache[keys[j]];
      assert SeqIncrementBy(next.seqNum, |next.payload|) == End(next);
      RunEndBeyond(all, lo, top, cache, keys, j + 1, End(next));
    }
  }

  lemma {:induction false} AgeScanInSpan(
    s: AckState, cache: Cache, keys: seq<Seq32>, aged: set<Seq32>, i: nat, lo: int, top: int)
    requires i <= |keys| && AllCached(cache, keys) && WellFormed(s.blocks) && EdgesIn(s.blocks, Span(lo, top))
    ensures var after := AgeScan(s, cache, keys, aged, i);
            s.ack <= after.ack && WellFormed(after.blocks) && EdgesIn(after.blocks, Span(lo, top))
  {
    if i > 0 && keys[i - 1] in aged {
      var last := cache[keys[i - 1]];
      TrimKeeps(s.blocks, RunEnd(cache, keys, i, SeqIncrementBy(last.seqNum, |last.payload|)));
    } else if i > 0 {
      AgeScanInSpan(s, cache, keys, aged, i - 1, lo, top);
    }
  }

  lemma NumberStays(
    all: set<Segment>, lo: int, top: int, r: RecvState, q: Segment, aged: set<Seq32>)
    requires Tiling(all, lo, top) && WellFormed(r.ack.blocks) && EdgesIn(r.ack.blocks, Span(lo, top)) && q in all
    requires Accepts(true, r, q)
    ensures var after := HandleData(true, r, q, aged).ack;
            r.ack.ack <= after.ack && WellFormed(after.blocks) && EdgesIn(after.blocks, Span(lo, top))
  {
    hide Update, AgeScan, Ascending, Tiling;
    var cache := r.cache[q.seqNum := q];
    var keys := Ascending(cache.Keys);
    UpdateInSpan(all, lo, top, r.ack, q);
    AgeScanInSpan(Update(Circle, r.ack, q.seqNum, |q.payload|), cache, keys, aged, |keys|, lo, top);
  }

  lemma CacheShrinks(r: RecvState, q: Segment, aged: set<Seq32>)
    requires Accepts(true, r, q)
    ensures var after := HandleData(true, r, q, aged).cache;
            forall k :: k in after ==> (k in r.cache || k == q.seqNum) && after[k] == r.cache[q.seqNum := q][k]
  {
    hide Update, AgeScan, Ascending;
  }

  lemma CacheStays(all: set<Segment>, r: RecvState, q: Segment, aged: set<Seq32>)
    requires Accepts(true, r, q) && CacheOf(all, r.cache, 0) && q in all
    ensures var after := HandleData(true, r, q, aged).cache;
            CacheOf(all, after, 0) && forall k :: k in after ==> k in r.cache || k == q.seqNum
  {
    CacheShrinks(r, q, aged);
    hide HandleData, Accepts;
  }

  lemma PastStays(all: set<Segment>, lo: int, top: int, r: RecvState, n: int, p: Segment, a: Arrival)
    requires Tiling(all, lo, top) && Past(all, lo, top, r, n, p) && p.seqNum < n && a.packet in all
    ensures Past(all, lo, top, HandleData(true, r, a.packet, a.aged), n, p)
  {
    if Accepts(true, r, a.packet) {
      var after := HandleData(true, r, a.packet, a.aged);
      NumberStays(all, lo, top, r, a.packet, a.aged);
      CacheStays(all, r, a.packet, a.aged);
      if p in after.delivered {
        NewlyDelivered(r, a.packet, a.aged, p);
      }
      hide HandleData, WellFormed, EdgesIn, Tiling, CacheOf;
    }
  }

  /** What is delivered was delivered before or lay in the cache. */
  lemma NewlyDelivered(r: RecvState, q: Segment, aged: set<Seq32>, p: Segment)
    requires Accepts(true, r, q) && (forall k :: k in r.cache ==> r.cache[k].seqNum == k)
    requires p in HandleData(true, r, q, aged).delivered
    ensures p in r.delivered || p == q || p.seqNum in r.cache
  {
    hide Update, AgeScan, Ascending;
    var s := Update(Circle, r.ack, q.seqNum, |q.payload|);
    var cache := r.cache[q.seqNum := q];
    var keys := Ascending(cache.Keys);
    AscendingEnumerates(cache);
    var end := AgeScan(s, cache, keys, aged, |keys|);
    DrainMoves(end, cache, keys, r.delivered);
    var d := HandleData(true, r, q, aged).delivered;
    assert d == Drain(end, cache, keys, r.delivered).delivered;
    assert d == d[..|r.delivered|] + d[|r.delivered|..];
  }

  lemma {:induction false} NeverBelow(
    all: set<Segment>, lo: int, top: int, r: RecvState, n: Seq32, arrivals: seq<Arrival>, p: Segment)
    requires Tiling(all, lo, top) && Past(all, lo, top, Restarted(r, n), n, p) && p.seqNum < n && AllIn(all, arrivals)
    ensures Past(all, lo, top, Handle(true, Restarted(r, n), arrivals), n, p)
    decreases arrivals
  {
    if arrivals != [] {
      hide HandleData, Past, Tiling;
      var prefix, last := arrivals[..|arrivals| - 1], arrivals[|arrivals| - 1];
      assert AllIn(all, prefix) && last.packet in all;
      NeverBelow(all, lo, top, r, n, prefix, p);
      PastStays(all, lo, top, Handle(true, Restarted(r, n), prefix), n, p, last);
    }
  }

  lemma RestartedPast(all: set<Segment>, lo: int, top: int, r: RecvState, n: Seq32, p: Segment)
    requires Tiling(all, lo, top) && RecvInv(all, lo, top, r) && p in r.delivered
    ensures Past(all, lo, top, Restarted(r, n), n, p)
    ensures p in all && p.seqNum < r.ack.ack && End(p) <= r.ack.ack && p.payload != []
    ensures forall k :: k in r.cache ==> r.ack.ack <= k && k != p.seqNum && r.cache[k].seqNum == k && r.cache[k] in all
    ensures AllAtOrAbove(r.ack.blocks, r.ack.ack)
  {
    var i :| 0 <= i < |r.delivered| && r.delivered[i] == p;
    assert forall x :: x in Edges(all, lo, top) ==> x in Span(lo, top);
  }

  // ----- Without aging: nothing moves until a packet starts at the new number -----

  ghost predicate Waiting(all: set<Segment>, r: RecvState, n: int) {
    r.ack.ack == n && r.delivered == [] && CacheOf(all, r.cache, n)
  }

  /** Without aging a packet that does not start at the number moves nothing. */
  lemma OffNumber(r: RecvState, q: Segment)
    requires Accepts(true, r, q) && q.seqNum != r.ack.ack
    requires forall k :: k in r.cache ==> r.ack.ack <= k
    ensures var after := HandleData(true, r, q, {});
            && after.ack.ack == r.ack.ack && after.delivered == r.delivered && after.cache == r.cache[q.seqNum := q]
  {
    hide Place, Ascending, IsLess, SeqIncrementBy, AgeScan;
    AbsorbWithoutAging(r, q);
    var cache := r.cache[q.seqNum := q];
    var keys := Ascending(cache.Keys);
    AscendingEnumerates(cache);
    assert forall i :: 0 <= i < |keys| ==> keys[i] in cache && r.ack.ack <= keys[i];
    assert ReadyCount(keys, r.ack.ack) == 0;
    assert Without(cache, []) == cache;
  }

  lemma CacheOfMore(all: set<Segment>, cache: Cache, n: int, q: Segment)
    requires CacheOf(all, cache, n) && q in all && n <= q.seqNum
    ensures CacheOf(all, cache[q.seqNum := q], n)
  {
  }

  lemma WaitingStays(all: set<Segment>, r: RecvState, n: int, a: Arrival)
    requires Waiting(all, r, n) && a.packet in all && a.packet.seqNum != n && a.aged == {}
    ensures Waiting(all, HandleData(true, r, a.packet, a.aged), n)
  {
    if Accepts(true, r, a.packet) {
      CacheOfMore(all, r.cache, n, a.packet);
      OffNumber(r, a.packet);
      hide HandleData, Accepts, CacheOf;
    }
  }

  lemma {:induction false} WaitsForStart(all: set<Segment>, r: RecvState, n: int, arrivals: seq<Arrival>)
    requires Waiting(all, r, n) && AllIn(all, arrivals) && NothingAges(arrivals)
    requires forall i :: 0 <= i < |arrivals| ==> arrivals[i].packet.seqNum != n
    ensures Waiting(all, Handle(true, r, arrivals), n)
    decreases arrivals
  {
    if arrivals != [] {
      hide HandleData, Waiting;
      var prefix, last := arrivals[..|arrivals| - 1], arrivals[|arrivals| - 1];
      assert AllIn(all, prefix) && NothingAges(prefix) && last.packet in all && last.aged == {};
      WaitsForStart(all, r, n, prefix);
      WaitingStays(all, Handle(true, r, prefix), n, last);
    }
  }

  lemma RestartedWaits(all: set<Segment>, lo: int, top: int, r: RecvState, n: Seq32)
    requires Tiling(all, lo, top) && RecvInv(all, lo, top, r) && n <= r.ack.ack
    ensures Waiting(all, Restarted(r, n), n)
  {
  }

  /** After a FIN nothing reaches the reader, without aging, before a packet that starts at the new number. */
  lemma {:induction false} NothingBeforeStart(
    r: Responder, all: set<Segment>, lo: int, top: int, start: int, fin: Packet, arrivals: seq<Arrival>)
    requires Tiling(all, lo, top) && Receiving(r, all, lo, top, start) && r.reliable && Restart(fin) <= r.recv.ack.ack
    requires AllIn(all, arrivals) && NothingAges(arrivals)
    requires forall i :: 0 <= i < |arrivals| ==> arrivals[i].packet.seqNum != Restart(fin)
    ensures var after := AfterFin(r, fin, arrivals);
            after.delivered == r.recv.delivered && after.ack.ack == Restart(fin)
  {
    hide Tiling, Waiting, Handle;
    var n := Restart(fin);
    RestartedWaits(all, lo, top, r.recv, n);
    WaitsForStart(all, Restarted(r.recv, n), n, arrivals);
    var h := Handle(true, Restarted(r.recv, n), arrivals);
    assert h.delivered == [] && h.ack.ack == n by { WaitingParts(all, h, n); }
    ReadAgainIff(r, fin, arrivals, Segment(0, 0, []));
  }

  lemma WaitingParts(all: set<Segment>, r: RecvState, n: int)
    requires Waiting(all, r, n)
    ensures r.delivered == [] && r.ack.ack == n
  {
  }

  // ----- Without aging: what comes is a gapless run of segments from the new number on -----

  /** Every byte from n up to the number is in a delivered packet. */
  predicate Filled(d: seq<Segment>, n: int, a: int) {
    forall k :: n <= k < a ==> Read(d, k)
  }

  predicate Read(d: seq<Segment>, k: int) {
    exists i :: 0 <= i < |d| && Contains(d[i], k)
  }

  lemma ReadMore(d: seq<Segment>, e: seq<Segment>, k: int)
    ensures Read(d + e, k) <==> Read(d, k) || Read(e, k)
  {
    if Read(d, k) {
      var i :| 0 <= i < |d| && Contains(d[i], k);
      assert (d + e)[i] == d[i];
    }
    if Read(e, k) {
      var i :| 0 <= i < |e| && Contains(e[i], k);
      assert (d + e)[|d| + i] == e[i];
    }
  }

  lemma FilledStep(all: set<Segment>, n: int, top: int, r: RecvState, q: Segment)
    requires Tiling(all, n, top) && RecvInv(all, n, top, r) && q in all && Accepts(true, r, q)
    requires Filled(r.delivered, n, r.ack.ack)
    ensures var after := HandleData(true, r, q, {}); Filled(after.delivered, n, after.ack.ack)
  {
    hide Update, AgeScan, Ascending, Tiling, RecvInv, MidInv, Holds;
    var after := HandleData(true, r, q, {});
    var cache := r.cache[q.seqNum := q];
    AfterUpdate(all, n, top, r, q);
    AbsorbWithoutAging(r, q);
    RecvParts(all, n, top, r);
    AscendingEnumerates(cache);
    DrainMoves(after.ack, cache, Ascending(cache.Keys), r.delivered);
    var more := after.delivered[|r.delivered|..];
    assert after.delivered == r.delivered + more;
    hide HandleData, Acked, Read;
    forall k | n <= k < after.ack.ack ensures Read(after.delivered, k) {
      ReadMore(r.delivered, more, k);
      if r.ack.ack <= k {
        assert Acked(after.ack, k) by { BelowIsAcked(after.ack, k); }
        HolderDrained(cache, more, after.ack.ack, k);
      }
    }
  }

  lemma BelowIsAcked(s: AckState, k: int)
    requires k < s.ack
    ensures Acked(s, k)
  {
  }

  lemma HolderDrained(cache: Cache, d: seq<Segment>, ack: int, k: int)
    requires Holds(cache, k) && k < ack && forall c :: c in cache ==> cache[c].seqNum == c
    requires forall t :: t in d <==> t.seqNum in cache && cache[t.seqNum] == t && t.seqNum < ack
    ensures Read(d, k)
  {
    var c :| c in cache && Contains(cache[c], k);
    assert cache[c] in d;
  }

  /** Ordered packets that fill [n, a) follow each other without a gap. */
  lemma {:induction false} FilledIsContiguous(d: seq<Segment>, n: int, a: int)
    requires n <= a && Filled(d, n, a)
    requires forall i :: 0 <= i < |d| ==> n <= d[i].seqNum && d[i].payload != [] && End(d[i]) <= a
    requires forall i, j :: 0 <= i < j < |d| ==> End(d[i]) <= d[j].seqNum
    ensures Contiguous(d, n, a)
    decreases d
  {
    if d == [] {
      assert n < a ==> Read(d, n);
    } else {
      assert Read(d, n);
      var i :| 0 <= i < |d| && Contains(d[i], n);
      assert forall j :: 0 < j < |d| ==> End(d[0]) <= d[j].seqNum;
      assert d[0].seqNum == n;
      var rest := d[1..];
      assert d == [d[0]] + rest;
      forall k | End(d[0]) <= k < a ensures Read(rest, k) {
        ReadMore([d[0]], rest, k);
      }
      FilledIsContiguous(rest, End(d[0]), a);
    }
  }

  /** The part of the stream from n on. */
  function From(all: set<Segment>, n: int): set<Segment> {
    set s | s in all && n <= s.seqNum
  }

  ghost predicate Resumed(all: set<Segment>, n: int, top: int, r: RecvState) {
    RecvInv(From(all, n), n, top, r) && Filled(r.delivered, n, r.ack.ack)
  }

  lemma FromTiles(all: set<Segment>, lo: int, top: int, n: int)
    requires Tiling(all, lo, top) && lo <= n <= top
    ensures Tiling(From(all, n), n, top)
  {
  }

  lemma RestartedResumes(all: set<Segment>, lo: int, top: int, r: RecvState, n: Seq32, s: Segment)
    requires Tiling(all, lo, top) && RecvInv(all, lo, top, r) && n <= r.ack.ack && s in all && s.seqNum == n
    ensures Resumed(all, n, top, Restarted(r, n)) && lo <= n <= top
  {
    PacketEdges(all, lo, top, s);
    var tail := From(all, n);
    forall x | x in Edges(all, lo, top) && n <= x ensures x in Edges(tail, n, top) {
    }
    hide Covers, Holds, Tiling;
    assert n in Edges(tail, n, top);
    assert forall b :: b in r.ack.blocks ==> b.leftEdge in Edges(all, lo, top) && b.rightEdge in Edges(all, lo, top);
  }

  lemma ResumedStays(all: set<Segment>, lo: int, top: int, n: int, r: RecvState, a: Arrival)
    requires Tiling(all, lo, top) && lo <= n <= top && Resumed(all, n, top, r) && a.packet in all && a.aged == {}
    ensures Resumed(all, n, top, HandleData(true, r, a.packet, a.aged))
  {
    FromTiles(all, lo, top, n);
    AckIsWire(From(all, n), n, top, r);
    hide RecvInv, Tiling, Filled, HandleData;
    if Accepts(true, r, a.packet) {
      HandleDataKeeps(From(all, n), n, top, r, a.packet, {});
      FilledStep(From(all, n), n, top, r, a.packet);
    } else {
      RefusedChangesNothing(r, a.packet);
    }
  }

  lemma {:induction false} RunResumes(
    all: set<Segment>, lo: int, top: int, n: int, r: RecvState, arrivals: seq<Arrival>)
    requires Tiling(all, lo, top) && lo <= n <= top && Resumed(all, n, top, r)
    requires AllIn(all, arrivals) && NothingAges(arrivals)
    ensures Resumed(all, n, top, Handle(true, r, arrivals))
    decreases arrivals
  {
    if arrivals != [] {
      hide HandleData, Resumed, Tiling;
      var prefix, last := arrivals[..|arrivals| - 1], arrivals[|arrivals| - 1];
      assert AllIn(all, prefix) && NothingAges(prefix) && last.packet in all && last.aged == {};
      RunResumes(all, lo, top, n, r, prefix);
      ResumedStays(all, lo, top, n, Handle(true, r, prefix), last);
    }
  }

  lemma ResumedIsContiguous(all: set<Segment>, lo: int, top: int, n: int, r: RecvState)
    requires Tiling(all, lo, top) && lo <= n <= top && Resumed(all, n, top, r)
    ensures Contiguous(r.delivered, n, r.ack.ack) && forall s :: s in r.delivered ==> s in all
  {
    FromTiles(all, lo, top, n);
    AckIsWire(From(all, n), n, top, r);
    RecvParts(From(all, n), n, top, r);
    hide RecvInv;
    FilledIsContiguous(r.delivered, n, r.ack.ack);
  }

  lemma {:induction false} ContiguousUpTo(d: seq<Segment>, n: int, a: int, i: nat)
    requires Contiguous(d, n, a) && i < |d|
    ensures Contiguous(d[..i + 1], n, End(d[i]))
    decreases d
  {
    if i > 0 {
      ContiguousUpTo(d[1..], End(d[0]), a, i - 1);
      assert d[..i + 1][1..] == d[1..][..i];
    } else {
      assert d[..1][1..] == [];
    }
  }

  /** Without aging a packet that comes again is reached from the new number without a gap. */
  lemma AgainIsReached(
    all: set<Segment>, lo: int, top: int, r: RecvState, n: Seq32, arrivals: seq<Arrival>, p: Segment)
    requires Tiling(all, lo, top) && RecvInv(all, lo, top, r) && n <= r.ack.ack
    requires AllIn(all, arrivals) && NothingAges(arrivals) && p in Handle(true, Restarted(r, n), arrivals).delivered
    ensures Reaches(all, n, p)
  {
    hide Tiling, RecvInv, Handle, Contiguous;
    if exists s :: s in all && s.seqNum == n {
      var s :| s in all && s.seqNum == n;
      RestartedResumes(all, lo, top, r, n, s);
      RunResumes(all, lo, top, n, Restarted(r, n), arrivals);
      var h := Handle(true, Restarted(r, n), arrivals);
      ResumedIsContiguous(all, lo, top, n, h);
      var i :| 0 <= i < |h.delivered| && h.delivered[i] == p;
      ContiguousUpTo(h.delivered, n, h.ack.ack, i);
      assert ChainTo(h.delivered[..i + 1], all, n, p);
    } else {
      RestartedWaits(all, lo, top, r, n);
      assert forall i :: 0 <= i < |arrivals| ==> arrivals[i].packet in all;
      WaitsForStart(all, Restarted(r, n), n, arrivals);
      WaitingParts(all, Handle(true, Restarted(r, n), arrivals), n);
      assert false;
    }
  }

  // ----- Without aging: sending the segments in order again -----

  /** The number is n, and everything kept from before the FIN lies at or above `kept`. */
  ghost predicate Behind(r: RecvState, n: int, kept: int) {
    && r.ack.ack == n
    && (forall k :: k in r.cache ==> kept <= k && r.cache[k].seqNum == k)
    && WellFormed(r.ack.blocks) && AllAtOrAbove(r.ack.blocks, kept)
  }

  lemma InOrderStep(r: RecvState, n: int, kept: int, q: Segment)
    requires Behind(r, n, kept) && q.seqNum == n && q.payload != [] && End(q) < kept < MODULUS
    ensures Behind(HandleData(true, r, q, {}), End(q), kept)
  {
    hide Place, Ascending, IsLess, IsGreaterOrEqual;
    assert r.ack.blocks != [] ==> r.ack.blocks[0] in r.ack.blocks;
    assert q.seqNum !in r.cache;
    AbsorbWithoutAging(r, q);
    StartsHere(r.ack, q);
    hide Update;
    CacheShrinks(r, q, {});
    forall k | k in HandleData(true, r, q, {}).cache ensures k in r.cache {
      CacheAfter(r, q, k);
    }
    hide HandleData;
  }

  lemma StartsHere(s: AckState, q: Segment)
    requires q.seqNum == s.ack && q.payload != [] && End(q) < MODULUS
    requires WellFormed(s.blocks)
    ensures var after := Update(Circle, s, q.seqNum, |q.payload|);
            && q.seqNum < after.ack
            && (s.blocks == [] || s.blocks[0].leftEdge != End(q) ==> after == AckState(End(q), s.blocks))
  {
    assert s.blocks != [] ==> s.blocks[0] in s.blocks;
  }

  lemma LastStep(r: RecvState, n: int, kept: int, p: Segment)
    requires Behind(r, n, kept) && p.seqNum == n && p.payload != [] && End(p) <= kept < MODULUS
    ensures p in HandleData(true, r, p, {}).delivered
  {
    StartsHere(r.ack, p);
    hide Update, HandleData;
    DeliveredIffBelow(r, p);
  }

  function InOrderArrivals(q: seq<Segment>): (arrivals: seq<Arrival>)
    ensures |arrivals| == |q| && forall i :: 0 <= i < |q| ==> arrivals[i] == Arrival(q[i], {})
  {
    seq(|q|, i requires 0 <= i < |q| => Arrival(q[i], {}))
  }

  lemma {:induction false} HandleCons(reliable: bool, r: RecvState, a: Arrival, rest: seq<Arrival>)
    ensures Handle(reliable, r, [a] + rest) == Handle(reliable, HandleData(reliable, r, a.packet, a.aged), rest)
    decreases rest
  {
    hide HandleData;
    var arrivals := [a] + rest;
    if rest == [] {
      assert arrivals[..0] == [] && arrivals[0] == a && |arrivals| == 1;
      assert Handle(reliable, r, []) == r;
    } else {
      HandleCons(reliable, r, a, rest[..|rest| - 1]);
      assert arrivals[..|arrivals| - 1] == [a] + rest[..|rest| - 1];
    }
  }

  lemma ChainTail(q: seq<Segment>, all: set<Segment>, n: int, p: Segment)
    requires ChainTo(q, all, n, p) && |q| > 1
    ensures ChainTo(q[1..], all, End(q[0]), p) && End(q[0]) <= p.seqNum
  {
    T.ContiguousBounds(q[1..], End(q[0]), End(p));
    assert q[1..][|q| - 2] == p && p in q[1..];
  }

  lemma ChainHead(q: seq<Segment>, all: set<Segment>, n: int, p: Segment)
    requires ChainTo(q, all, n, p)
    ensures q != [] && q[0].seqNum == n && q[0].payload != [] && (|q| == 1 ==> q[0] == p) && p.payload != []
  {
    T.ContiguousBounds(q, n, End(p));
  }

  lemma {:induction false} ChainDelivers(
    r: RecvState, all: set<Segment>, q: seq<Segment>, n: int, kept: int, p: Segment)
    requires Behind(r, n, kept) && ChainTo(q, all, n, p) && End(p) <= kept < MODULUS
    ensures p in Handle(true, r, InOrderArrivals(q)).delivered
    decreases |q|
  {
    ChainHead(q, all, n, p);
    var arrivals, rest := InOrderArrivals(q), InOrderArrivals(q[1..]);
    assert arrivals == [arrivals[0]] + rest;
    HandleCons(true, r, arrivals[0], rest);
    hide HandleData, Behind, ChainTo, Handle;
    if |q| == 1 {
      LastStep(r, n, kept, p);
      assert rest == [];
      HandleOne(true, r, arrivals[0]);
      assert arrivals == [arrivals[0]];
    } else {
      ChainTail(q, all, n, p);
      InOrderStep(r, n, kept, q[0]);
      ChainDelivers(HandleData(true, r, q[0], {}), all, q[1..], End(q[0]), kept, p);
    }
  }

  lemma RestartedBehind(all: set<Segment>, lo: int, top: int, r: RecvState, n: Seq32)
    requires Tiling(all, lo, top) && RecvInv(all, lo, top, r)
    ensures Behind(Restarted(r, n), n, r.ack.ack) && r.ack.ack < MODULUS
  {
    AckIsWire(all, lo, top, r);
  }

  lemma ReachedComesAgain(
    r: Responder, all: set<Segment>, lo: int, top: int, start: int, fin: Packet, p: Segment)
    requires Tiling(all, lo, top) && Receiving(r, all, lo, top, start) && p in r.recv.delivered && r.reliable
    requires Reaches(all, Restart(fin), p)
    ensures ComesAgain(r, fin, all, p, false)
  {
    hide Tiling, Handle, Contiguous;
    var n := Restart(fin);
    var q: seq<Segment> :| ChainTo(q, all, n, p);
    RestartedPast(all, lo, top, r.recv, n, p);
    RestartedBehind(all, lo, top, r.recv, n);
    ChainDelivers(Restarted(r.recv, n), all, q, n, r.recv.ack.ack, p);
    ReadAgainIff(r, fin, InOrderArrivals(q), p);
    assert AllIn(all, InOrderArrivals(q));
  }

  lemma ComesAgainReached(
    r: Responder, all: set<Segment>, lo: int, top: int, start: int, fin: Packet, p: Segment)
    requires Tiling(all, lo, top) && Receiving(r, all, lo, top, start) && p in r.recv.delivered && r.reliable
    requires ComesAgain(r, fin, all, p, false)
    ensures Reaches(all, Restart(fin), p)
  {
    hide Tiling, Handle, Reaches, ReadAgain;
    var n := Restart(fin);
    var arrivals: seq<Arrival> :| AllIn(all, arrivals) && OwnNeverAged(arrivals) && NothingAges(arrivals)
                                  && ReadAgain(r, fin, arrivals, p);
    ReadAgainIff(r, fin, arrivals, p);
    RestartedPast(all, lo, top, r.recv, n, p);
    if p.seqNum < n {
      NeverBelow(all, lo, top, r.recv, n, arrivals, p);
      assert false;
    }
    AgainIsReached(all, lo, top, r.recv, n, arrivals, p);
  }

  // ----- With aging -----

  /** An aged packet takes the number past itself. */
  lemma {:induction false} AgedIsPassed(
    all: set<Segment>, lo: int, top: int, s: AckState, cache: Cache, keys: seq<Seq32>, aged: set<Seq32>, i: nat, j: nat)
    requires Tiling(all, lo, top) && CacheOf(all, cache, 0) && AllCached(cache, keys) && StrictlyAscending(keys)
    requires j < i <= |keys| && keys[j] in aged
    ensures keys[j] < AgeScan(s, cache, keys, aged, i).ack
  {
    if keys[i - 1] in aged {
      var last := cache[keys[i - 1]];
      assert last in all && keys[j] <= keys[i - 1] < End(last);
      assert SeqIncrementBy(last.seqNum, |last.payload|) == End(last);
      RunEndBeyond(all, lo, top, cache, keys, i, End(last));
    } else {
      AgedIsPassed(all, lo, top, s, cache, keys, aged, i - 1, j);
    }
  }

  /** An accepted packet with an aged k in the cache: everything cached up to k is delivered. */
  lemma AgedDelivers(all: set<Segment>, lo: int, top: int, r: RecvState, q: Segment, k: Seq32, t: Segment)
    requires Tiling(all, lo, top) && CacheOf(all, r.cache, 0) && q in all && Accepts(true, r, q)
    requires var cache := r.cache[q.seqNum := q];
             k in cache && t.seqNum in cache && cache[t.seqNum] == t && t.seqNum <= k
    ensures t in HandleData(true, r, q, {k}).delivered
  {
    hide Update, AgeScan, Ascending, Tiling;
    var s := Update(Circle, r.ack, q.seqNum, |q.payload|);
    var cache := r.cache[q.seqNum := q];
    var keys := Ascending(cache.Keys);
    AscendingEnumerates(cache);
    CacheOfMore(all, r.cache, 0, q);
    var j :| 0 <= j < |keys| && keys[j] == k;
    AgedIsPassed(all, lo, top, s, cache, keys, {k}, |keys|, j);
    var end := AgeScan(s, cache, keys, {k}, |keys|);
    DrainMoves(end, cache, keys, r.delivered);
    assert t in Drain(end, cache, keys, r.delivered).delivered[|r.delivered|..];
    assert HandleData(true, r, q, {k}) == Drain(end, cache, keys, r.delivered);
  }

  lemma HandleOne(reliable: bool, r: RecvState, a: Arrival)
    ensures Handle(reliable, r, [a]) == HandleData(reliable, r, a.packet, a.aged)
  {
    hide HandleData;
    assert [a][..0] == [];
    assert Handle(reliable, r, []) == r;
  }

  lemma HandleTwo(reliable: bool, r: RecvState, a: Arrival, b: Arrival)
    ensures Handle(reliable, r, [a, b])
            == HandleData(reliable, HandleData(reliable, r, a.packet, a.aged), b.packet, b.aged)
  {
    hide HandleData;
    HandleOne(reliable, r, a);
    assert [a, b][..1] == [a];
  }

  /** Kept from before the FIN, q has aged when p arrives. */
  lemma KeptJump(
    r: Responder, all: set<Segment>, lo: int, top: int, fin: Packet, p: Segment, q: Segment)
    requires Tiling(all, lo, top) && r.reliable && CacheOf(all, r.recv.cache, 0) && p in all
    requires Restart(fin) <= p.seqNum && p.seqNum !in r.recv.cache && q.seqNum in r.recv.cache && p.seqNum < q.seqNum
    ensures ReadAgain(r, fin, [Arrival(p, {q.seqNum})], p)
  {
    hide Tiling, HandleData, Handle, Restart, ReadAgain, CacheOf;
    var begin := Restarted(r.recv, Restart(fin));
    AgedDelivers(all, lo, top, begin, p, q.seqNum, p);
    HandleOne(true, begin, Arrival(p, {q.seqNum}));
    ReadAgainIff(r, fin, [Arrival(p, {q.seqNum})], p);
  }

  /** Otherwise p waits in the cache and has aged when q arrives. */
  lemma LaterJump(
    r: Responder, all: set<Segment>, lo: int, top: int, fin: Packet, p: Segment, q: Segment)
    requires Tiling(all, lo, top) && r.reliable && CacheOf(all, r.recv.cache, Restart(fin)) && p in all && q in all
    requires Restart(fin) < p.seqNum && p.seqNum !in r.recv.cache && p.seqNum != q.seqNum
    requires Restart(fin) <= q.seqNum && q.seqNum !in r.recv.cache
    ensures ReadAgain(r, fin, [Arrival(p, {}), Arrival(q, {p.seqNum})], p)
  {
    var begin := Restarted(r.recv, Restart(fin));
    hide Tiling, HandleData, Handle, Restart, ReadAgain;
    OffNumber(begin, p);
    hide CacheOf;
    var mid := HandleData(true, begin, p, {});
    CacheOfLower(all, begin.cache, Restart(fin));
    CacheOfMore(all, begin.cache, 0, p);
    AgedDelivers(all, lo, top, mid, q, p.seqNum, p);
    HandleTwo(true, begin, Arrival(p, {}), Arrival(q, {p.seqNum}));
    ReadAgainIff(r, fin, [Arrival(p, {}), Arrival(q, {p.seqNum})], p);
  }

  lemma CacheOfLower(all: set<Segment>, cache: Cache, n: nat)
    requires CacheOf(all, cache, n)
    ensures CacheOf(all, cache, 0)
  {
  }

  lemma JumpComesAgain(
    r: Responder, all: set<Segment>, lo: int, top: int, start: int, fin: Packet, p: Segment, q: Segment)
    requires Tiling(all, lo, top) && Receiving(r, all, lo, top, start) && p in r.recv.delivered && r.reliable
    requires q in all && q != p && Restart(fin) < p.seqNum && Restart(fin) <= q.seqNum
    ensures ComesAgain(r, fin, all, p, true)
  {
    RestartedPast(all, lo, top, r.recv, Restart(fin), p);
    StartsDiffer(all, lo, top, p, q);
    hide Tiling, ReadAgain, Restart, RecvInv;
    if q.seqNum in r.recv.cache {
      KeptJump(r, all, lo, top, fin, p, q);
      var arrivals := [Arrival(p, {q.seqNum})];
      assert AllIn(all, arrivals) && OwnNeverAged(arrivals);
    } else {
      LaterJump(r, all, lo, top, fin, p, q);
      var arrivals := [Arrival(p, {}), Arrival(q, {p.seqNum})];
      assert AllIn(all, arrivals) && OwnNeverAged(arrivals);
    }
  }

  lemma StartsDiffer(all: set<Segment>, lo: int, top: int, p: Segment, q: Segment)
    requires Tiling(all, lo, top) && p in all && q in all && p != q
    ensures p.seqNum != q.seqNum
  {
    assert Apart(p, q);
  }

  /** Only p can be accepted, and it does not start at n: at most it is cached. */
  ghost predicate Lone(r: RecvState, n: int, p: Segment) {
    r.ack.ack == n && r.delivered == [] && forall k :: k in r.cache ==> k == p.seqNum
  }

  lemma LoneStays(all: set<Segment>, r: RecvState, n: int, p: Segment, a: Arrival)
    requires Lone(r, n, p) && n < p.seqNum && a.packet in all && a.packet.seqNum !in a.aged
    requires forall q :: q in all && q != p ==> q.seqNum < n
    ensures Lone(HandleData(true, r, a.packet, a.aged), n, p)
  {
    if Accepts(true, r, a.packet) {
      assert a.packet == p && r.cache == map[];
      LoneAgesNot(r, p, a.aged);
      OffNumber(r, p);
    }
  }

  /** With nothing else cached, a packet that has just come in finds nothing aged. */
  lemma LoneAgesNot(r: RecvState, p: Segment, aged: set<Seq32>)
    requires r.cache == map[] && Accepts(true, r, p) && p.seqNum !in aged
    ensures HandleData(true, r, p, aged) == HandleData(true, r, p, {})
  {
    hide Update, Ascending, AscendingFrom;
    var cache := r.cache[p.seqNum := p];
    var keys := Ascending(cache.Keys);
    NoneAged(Update(Circle, r.ack, p.seqNum, |p.payload|), cache, keys, aged, |keys|);
    NothingAged(Update(Circle, r.ack, p.seqNum, |p.payload|), cache, keys, |keys|);
  }

  lemma {:induction false} NoneAged(s: AckState, cache: Cache, keys: seq<Seq32>, aged: set<Seq32>, i: nat)
    requires i <= |keys| && AllCached(cache, keys) && forall k :: k in cache ==> k !in aged
    ensures AgeScan(s, cache, keys, aged, i) == s
  {
    if i > 0 {
      NoneAged(s, cache, keys, aged, i - 1);
    }
  }

  lemma {:induction false} LoneRun(all: set<Segment>, r: RecvState, n: int, p: Segment, arrivals: seq<Arrival>)
    requires Lone(r, n, p) && n < p.seqNum && AllIn(all, arrivals) && OwnNeverAged(arrivals)
    requires forall q :: q in all && q != p ==> q.seqNum < n
    ensures Lone(Handle(true, r, arrivals), n, p)
    decreases arrivals
  {
    if arrivals != [] {
      hide HandleData, Lone;
      var prefix, last := arrivals[..|arrivals| - 1], arrivals[|arrivals| - 1];
      assert AllIn(all, prefix) && OwnNeverAged(prefix) && last.packet in all && last.packet.seqNum !in last.aged;
      LoneRun(all, r, n, p, prefix);
      LoneStays(all, Handle(true, r, prefix), n, p, last);
    }
  }

  lemma ComesAgainJumps(
    r: Responder, all: set<Segment>, lo: int, top: int, start: int, fin: Packet, p: Segment)
    requires Tiling(all, lo, top) && Receiving(r, all, lo, top, start) && p in r.recv.delivered && r.reliable
    requires ComesAgain(r, fin, all, p, true)
    ensures CanJump(all, Restart(fin), p)
  {
    hide Tiling, Handle, ReadAgain;
    var n := Restart(fin);
    var arrivals: seq<Arrival> :| AllIn(all, arrivals) && OwnNeverAged(arrivals) && ReadAgain(r, fin, arrivals, p);
    ReadAgainIff(r, fin, arrivals, p);
    RestartedPast(all, lo, top, r.recv, n, p);
    var begin := Restarted(r.recv, n);
    forall k ensures k in begin.cache && n <= p.seqNum ==> CanJump(all, n, p) {
      if k in begin.cache && n <= p.seqNum {
        assert r.recv.cache[k] in all && r.recv.cache[k] != p && n <= r.recv.cache[k].seqNum;
      }
    }
    if p.seqNum < n {
      NeverBelow(all, lo, top, r.recv, n, arrivals, p);
      assert false;
    } else if !CanJump(all, n, p) {
      LoneRun(all, begin, n, p, arrivals);
      assert false;
    }
  }

  // ----- Without SACK -----

  lemma PassesOn(all: set<Segment>, lo: int, top: int, r: RecvState, q: Segment)
    requires Tiling(all, lo, top) && q in all && Accepts(false, r, q)
    ensures HandleData(false, r, q, {}).delivered == r.delivered + [q]
    ensures r.ack.ack <= HandleData(false, r, q, {}).ack.ack
  {
    hide IsGreaterOrEqual;
  }

  lemma {:induction false} OnlyFrom(
    all: set<Segment>, lo: int, top: int, r: RecvState, n: Seq32, arrivals: seq<Arrival>)
    requires Tiling(all, lo, top) && AllIn(all, arrivals)
    ensures var h := Handle(false, Restarted(r, n), arrivals);
            n <= h.ack.ack && forall p :: p in h.delivered ==> n <= p.seqNum
    decreases arrivals
  {
    if arrivals != [] {
      hide Tiling, HandleData;
      var prefix, last := arrivals[..|arrivals| - 1], arrivals[|arrivals| - 1];
      assert AllIn(all, prefix) && last.packet in all;
      OnlyFrom(all, lo, top, r, n, prefix);
      var before := Handle(false, Restarted(r, n), prefix);
      PassThroughAges(before, last);
      if Accepts(false, before, last.packet) {
        PassesOn(all, lo, top, before, last.packet);
      }
    }
  }

  lemma PassThroughAges(r: RecvState, a: Arrival)
    ensures HandleData(false, r, a.packet, a.aged) == HandleData(false, r, a.packet, {})
    ensures !Accepts(false, r, a.packet) ==> HandleData(false, r, a.packet, a.aged) == r
  {
  }

  lemma {:induction false} PassedOnAgainIff(
    r: Responder, all: set<Segment>, lo: int, top: int, start: int, fin: Packet, p: Segment, aging: bool)
    requires Tiling(all, lo, top) && Receiving(r, all, lo, top, start) && p in r.recv.delivered && !r.reliable
    ensures ComesAgain(r, fin, all, p, aging) <==> Restart(fin) <= p.seqNum
  {
    var n := Restart(fin);
    RestartedPast(all, lo, top, r.recv, n, p);
    hide Tiling, Handle, ReadAgain, HandleData, Restart;
    if Restart(fin) <= p.seqNum {
      var arrivals := [Arrival(p, {})];
      HandleOne(false, Restarted(r.recv, n), arrivals[0]);
      PassesOn(all, lo, top, Restarted(r.recv, n), p);
      ReadAgainIff(r, fin, arrivals, p);
      assert AllIn(all, arrivals) && OwnNeverAged(arrivals) && NothingAges(arrivals);
    }
    if ComesAgain(r, fin, all, p, aging) {
      var arrivals: seq<Arrival> :| AllIn(all, arrivals) && ReadAgain(r, fin, arrivals, p);
      ReadAgainIff(r, fin, arrivals, p);
      OnlyFrom(all, lo, top, r.recv, n, arrivals);
    }
  }

  // ----- The theorem -----

  /**
   A packet the reader already has is refused before the FIN. After it, in some continuation the reader gets
   the packet a second time
   - without aging, if and only if segments of the stream run without a gap from the new number to it;
   - with aging, if and only if it starts at the new number, or lies above it with some other packet at or
     above it, since the jump takes an arrival and an aged packet;
   - without SACK and retransmission, if and only if it starts at or above the new number.
   */
  lemma {:induction false} RedeliveredIff(
    r: Responder, all: set<Segment>, lo: int, top: int, start: int, fin: Packet, p: Segment)
    requires Tiling(all, lo, top) && Receiving(r, all, lo, top, start) && p in r.recv.delivered
    ensures forall aged :: HandleData(r.reliable, r.recv, p, aged) == r.recv
    ensures r.reliable ==>
              && (ComesAgain(r, fin, all, p, false) <==> Reaches(all, Restart(fin), p))
              && (ComesAgain(r, fin, all, p, true) <==> CanJump(all, Restart(fin), p))
    ensures !r.reliable ==> forall aging :: (ComesAgain(r, fin, all, p, aging) <==> Restart(fin) <= p.seqNum)
  {
    hide Tiling, Receiving, ComesAgain, Reaches;
    Refused(r, all, lo, top, start, p);
    if r.reliable {
      if Reaches(all, Restart(fin), p) {
        ReachedComesAgain(r, all, lo, top, start, fin, p);
      }
      if ComesAgain(r, fin, all, p, false) {
        ComesAgainReached(r, all, lo, top, start, fin, p);
      }
      if ComesAgain(r, fin, all, p, true) {
        ComesAgainJumps(r, all, lo, top, start, fin, p);
      }
      if CanJump(all, Restart(fin), p) {
        CanJumpComesAgain(r, all, lo, top, start, fin, p);
      }
    } else {
      forall aging ensures ComesAgain(r, fin, all, p, aging) <==> Restart(fin) <= p.seqNum {
        PassedOnAgainIff(r, all, lo, top, start, fin, p, aging);
      }
    }
  }

  lemma Refused(r: Responder, all: set<Segment>, lo: int, top: int, start: int, p: Segment)
    requires Tiling(all, lo, top) && Receiving(r, all, lo, top, start) && p in r.recv.delivered
    ensures forall aged :: HandleData(r.reliable, r.recv, p, aged) == r.recv
  {
    RestartedPast(all, lo, top, r.recv, 0, p);
  }

  lemma CanJumpComesAgain(
    r: Responder, all: set<Segment>, lo: int, top: int, start: int, fin: Packet, p: Segment)
    requires Tiling(all, lo, top) && Receiving(r, all, lo, top, start) && p in r.recv.delivered && r.reliable
    requires CanJump(all, Restart(fin), p)
    ensures ComesAgain(r, fin, all, p, true)
  {
    hide Tiling, Receiving, Restart;
    if p.seqNum == Restart(fin) {
      AloneIsChain(r, all, lo, top, start, p);
      assert ChainTo([p], all, Restart(fin), p);
      hide ReadAgain;
      ReachedComesAgain(r, all, lo, top, start, fin, p);
    } else {
      var q :| q in all && q != p && Restart(fin) <= q.seqNum;
      JumpComesAgain(r, all, lo, top, start, fin, p, q);
    }
  }

  lemma AloneIsChain(r: Responder, all: set<Segment>, lo: int, top: int, start: int, p: Segment)
    requires Tiling(all, lo, top) && Receiving(r, all, lo, top, start) && p in r.recv.delivered
    ensures ChainTo([p], all, p.seqNum, p)
  {
    RestartedPast(all, lo, top, r.recv, 0, p);
    assert [p][1..] == [];
  }
}
