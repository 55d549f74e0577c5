/**
 What a receiver does over whole runs of arrivals: in-order delivery in every mode, completeness
 while nothing ages, and exactly when the acknowledgment number stops following the data.
 */
module Delivery {
  import opened Serial
  import opened Bytes
  import opened Sack
  import opened Receiver
  import opened Reassembly

  // ----- Completeness without aging -----

  /** Everything below the acknowledgment number has reached the reader. */
  predicate Complete(all: set<Segment>, r: RecvState) {
    forall s :: s in all && s.seqNum < r.ack.ack ==> s in r.delivered
  }

  lemma {:induction false} NothingAged(s: AckState, cache: Cache, keys: seq<Seq32>, i: nat)
    requires i <= |keys| && AllCached(cache, keys)
    ensures AgeScan(s, cache, keys, {}, i) == s
  {
    if i > 0 {
      NothingAged(s, cache, keys, i - 1);
    }
  }

  lemma AbsorbWithoutAging(r: RecvState, p: Segment)
    ensures Absorb(r, p, {}).ack == Update(Circle, r.ack, p.seqNum, |p.payload|)
  {
    var cache := r.cache[p.seqNum := p];
    var keys := Ascending(cache.Keys);
    NothingAged(Update(Circle, r.ack, p.seqNum, |p.payload|), cache, keys, |keys|);
  }

  /** A packet of the stream that starts on an acknowledged byte is itself cached. */
  lemma HeldMeansCached(all: set<Segment>, lo: int, top: int, cache: Cache, floor: int, t: Segment)
    requires Tiling(all, lo, top) && CacheOf(all, cache, floor) && t in all && Holds(cache, t.seqNum)
    ensures t.seqNum in cache && cache[t.seqNum] == t
  {
    var k :| k in cache && Contains(cache[k], t.seqNum);
    assert Apart(cache[k], t);
  }

  lemma HandleDataComplete(all: set<Segment>, lo: int, top: int, r: RecvState, p: Segment)
    requires Tiling(all, lo, top) && RecvInv(all, lo, top, r) && Complete(all, r) && p in all
    ensures Complete(all, HandleData(true, r, p, {}))
  {
    hide Update, RecvInv, Tiling, Absorb, MidInv;
    var after := HandleData(true, r, p, {});
    if Accepts(true, r, p) {
      var cache := r.cache[p.seqNum := p];
      HandleDataKeeps(all, lo, top, r, p, {});
      AfterUpdate(all, lo, top, r, p);
      AbsorbWithoutAging(r, p);
      MidParts(all, lo, top, after.ack, cache, r.ack.ack);
      RecvParts(all, lo, top, after);
      forall t | t in all && t.seqNum < after.ack.ack ensures t in after.delivered {
        if r.ack.ack <= t.seqNum {
          assert Acked(after.ack, t.seqNum);
          HeldMeansCached(all, lo, top, cache, r.ack.ack, t);
          assert Taken(after, t);
        }
      }
    }
  }

  // ----- Runs -----

  /** A packet and the cached packets that count as aged when it is handled. */
  datatype Arrival = Arrival(packet: Segment, aged: set<Seq32>)

  /** A packet that has just come in has age 0, so wherever a run is exhibited it is not among the aged ones. */
  predicate OwnNeverAged(arrivals: seq<Arrival>) {
    forall i :: 0 <= i < |arrivals| ==> arrivals[i].packet.seqNum !in arrivals[i].aged
  }

  function Fresh(start: Seq32): RecvState {
    RecvState(AckState(start, []), map[], [])
  }

  function Handle(reliable: bool, r: RecvState, arrivals: seq<Arrival>): RecvState {
    if arrivals == [] then r
    else
      var before := Handle(reliable, r, arrivals[..|arrivals| - 1]);
      var last := arrivals[|arrivals| - 1];
      HandleData(reliable, before, last.packet, last.aged)
  }

  lemma PassThroughKeeps(all: set<Segment>, lo: int, top: int, r: RecvState, p: Segment)
    requires Tiling(all, lo, top) && RecvInv(all, lo, top, r) && p in all && r.ack.ack <= p.seqNum
    requires r.cache == map[] && r.ack.blocks == []
    ensures RecvInv(all, lo, top, PassThrough(r, p))
    ensures PassThrough(r, p).cache == map[] && PassThrough(r, p).ack.blocks == []
    ensures r.ack.ack <= PassThrough(r, p).ack.ack == End(p)
  {
    PacketEdges(all, lo, top, p);
    SerialOrderLifts(p.seqNum, r.ack.ack);
    assert PassThrough(r, p).ack.ack == End(p);
  }

  /**
   Without SACK or retransmission: every packet not below the number is delivered at once, in the order of
   arrival, and the number moves to its end, unless the packet is more than half the circle ahead.
   */
  lemma {:induction false} PassThroughExactly(r: RecvState, p: Segment, aged: set<Seq32>)
    requires 0 <= r.ack.ack < MODULUS
    ensures var after := HandleData(false, r, p, aged);
            && (p.seqNum < r.ack.ack ==> after == r)
            && (p.seqNum >= r.ack.ack ==>
                  && after.delivered == r.delivered + [p] && after.cache == r.cache
                  && after.ack.blocks == r.ack.blocks
                  && after.ack.ack == if p.seqNum - r.ack.ack <= HALF then End(p) % MODULUS else r.ack.ack)
  {
    GreaterIsForwardHalf(p.seqNum, Wire(r.ack.ack));
    hide IsGreater;
  }

  lemma FreshInv(all: set<Segment>, lo: int, top: int, start: Seq32)
    requires Tiling(all, lo, top) && lo == start
    ensures RecvInv(all, lo, top, Fresh(start))
  {
  }

  /** The end of the last packet delivered. */
  function LastEnd(r: RecvState, start: int): int {
    if r.delivered == [] then start else End(r.delivered[|r.delivered| - 1])
  }

  /**
   In every mode, whatever arrives and whatever ages: packets reach the reader in stream order, their
   ranges disjoint, and neither the acknowledgment number nor what was delivered ever goes back.
   */
  lemma {:induction false} MonotoneDelivery(
    reliable: bool, all: set<Segment>, lo: int, top: int, start: Seq32, arrivals: seq<Arrival>)
    requires Tiling(all, lo, top) && lo == start
    requires forall i :: 0 <= i < |arrivals| ==> arrivals[i].packet in all
    ensures var r := Handle(reliable, Fresh(start), arrivals);
            && RecvInv(all, lo, top, r)
            && (forall i, j :: 0 <= i < j < |r.delivered| ==> End(r.delivered[i]) <= r.delivered[j].seqNum)
            && (!reliable ==> r.cache == map[] && r.ack.blocks == [] && r.ack.ack == LastEnd(r, start))
            && (arrivals != [] ==>
                  var before := Handle(reliable, Fresh(start), arrivals[..|arrivals| - 1]);
                  before.ack.ack <= r.ack.ack && before.delivered <= r.delivered)
    decreases arrivals
  {
    hide Tiling, HandleData;
    if arrivals == [] {
      FreshInv(all, lo, top, start);
    } else {
      var prefix, last := arrivals[..|arrivals| - 1], arrivals[|arrivals| - 1];
      MonotoneDelivery(reliable, all, lo, top, start, prefix);
      StepDelivery(reliable, all, lo, top, start, Handle(reliable, Fresh(start), prefix), last);
    }
  }

  lemma StepDelivery(
    reliable: bool, all: set<Segment>, lo: int, top: int, start: int, r: RecvState, a: Arrival)
    requires Tiling(all, lo, top) && RecvInv(all, lo, top, r) && a.packet in all
    requires !reliable ==> r.cache == map[] && r.ack.blocks == [] && r.ack.ack == LastEnd(r, start)
    ensures var after := HandleData(reliable, r, a.packet, a.aged);
            && RecvInv(all, lo, top, after)
            && r.ack.ack <= after.ack.ack && r.delivered <= after.delivered
            && (!reliable ==> after.cache == map[] && after.ack.blocks == [] && after.ack.ack == LastEnd(after, start))
  {
    hide RecvInv, Tiling, Absorb;
    if reliable {
      HandleDataKeeps(all, lo, top, r, a.packet, a.aged);
    } else if Accepts(reliable, r, a.packet) {
      PassThroughKeeps(all, lo, top, r, a.packet);
    }
  }

  // ----- When the acknowledgment number follows the data -----

  /** The acknowledgment number points at data the receiver already has. */
  predicate Stalled(r: RecvState) {
    r.ack.ack in r.cache
  }

  lemma StalledIffHeld(all: set<Segment>, lo: int, top: int, r: RecvState)
    requires Tiling(all, lo, top) && RecvInv(all, lo, top, r)
    ensures Stalled(r) <==> Covers(r.ack.blocks, r.ack.ack)
    ensures Stalled(r) <==> Holds(r.cache, r.ack.ack)
  {
    if Stalled(r) {
      assert Contains(r.cache[r.ack.ack], r.ack.ack);
    } else {
      EdgeNotHeld(all, lo, top, r.cache, r.ack.ack, r.ack.ack);
    }
  }

  /** Sorted blocks never stall. */
  lemma CanonicalIsNotStalled(all: set<Segment>, lo: int, top: int, r: RecvState)
    requires Tiling(all, lo, top) && RecvInv(all, lo, top, r) && CanonicalState(r.ack)
    ensures !Stalled(r)
  {
    CanonicalAckIsMissing(r.ack);
    StalledIffHeld(all, lo, top, r);
  }

  /**
   A stall is permanent: while nothing ages, no arrival whatever, not even a retransmission of the
   missing-looking packet, moves the acknowledgment number or delivers anything again.
   */
  lemma {:induction false} StallIsPermanent(all: set<Segment>, lo: int, top: int, r: RecvState, p: Segment)
    requires Tiling(all, lo, top) && RecvInv(all, lo, top, r) && Stalled(r) && p in all
    ensures var after := HandleData(true, r, p, {});
            Stalled(after) && after.ack.ack == r.ack.ack && after.delivered == r.delivered
  {
    hide Update, RecvInv, Tiling, Absorb;
    var after := HandleData(true, r, p, {});
    if Accepts(true, r, p) {
      AbsorbWithoutAging(r, p);
      HandleDataKeeps(all, lo, top, r, p, {});
      NoAdvance(all, lo, top, r, p);
      assert after == Absorb(r, p, {}) && after.ack.ack == r.ack.ack;
      StalledStays(all, lo, top, r, p);
    }
  }

  /** Where an in-order packet takes the acknowledgment number: past block 0 if it closes the gap before it. */
  function NextAck(r: RecvState, p: Segment): int {
    if r.ack.blocks != [] && End(p) == r.ack.blocks[0].leftEdge then r.ack.blocks[0].rightEdge else End(p)
  }

  /** An accepted in-order packet after which the acknowledgment number lands on a cached packet. */
  predicate StallsAt(r: RecvState, p: Segment) {
    Accepts(true, r, p) && p.seqNum == r.ack.ack && NextAck(r, p) in r.cache
  }

  lemma InOrderAck(all: set<Segment>, lo: int, top: int, r: RecvState, p: Segment)
    requires Tiling(all, lo, top) && RecvInv(all, lo, top, r) && p in all && Accepts(true, r, p)
    requires p.seqNum == r.ack.ack
    ensures Update(Circle, r.ack, p.seqNum, |p.payload|).ack == NextAck(r, p) > p.seqNum
  {
    FreshIsClear(all, lo, top, r, p);
    NoWrapUpdate(all, lo, top, r.ack, p);
    if r.ack.blocks != [] {
      assert r.ack.blocks[0] in r.ack.blocks;
    }
  }

  /** Without aging the cache afterwards holds what it held, and the packet, from the new number on. */
  lemma CacheAfter(r: RecvState, p: Segment, k: Seq32)
    requires Accepts(true, r, p)
    ensures var after := HandleData(true, r, p, {});
            && after.ack == Update(Circle, r.ack, p.seqNum, |p.payload|)
            && (k in after.cache <==> (k in r.cache || k == p.seqNum) && after.ack.ack <= k)
  {
    hide Update, AgeScan, Ascending;
    AbsorbWithoutAging(r, p);
    var cache := r.cache[p.seqNum := p];
    AscendingEnumerates(cache);
    ReadyIsBelow(cache, Ascending(cache.Keys), Absorb(r, p, {}).ack.ack);
  }

  /** Without aging exactly one kind of arrival stalls a receiver that is not stalled. */
  lemma {:induction false} StallsIff(all: set<Segment>, lo: int, top: int, r: RecvState, p: Segment)
    requires Tiling(all, lo, top) && RecvInv(all, lo, top, r) && !Stalled(r) && p in all
    ensures Stalled(HandleData(true, r, p, {})) <==> StallsAt(r, p)
  {
    hide Update, RecvInv, Tiling, HandleData;
    if Accepts(true, r, p) {
      var after := HandleData(true, r, p, {});
      HandleDataKeeps(all, lo, top, r, p, {});
      if p.seqNum == r.ack.ack {
        InOrderAck(all, lo, top, r, p);
      } else {
        NoAdvance(all, lo, top, r, p);
      }
      AckIsWire(all, lo, top, after);
      CacheAfter(r, p, after.ack.ack);
    } else {
      assert HandleData(true, r, p, {}) == r by { RefusedChangesNothing(r, p); }
    }
  }

  lemma RefusedChangesNothing(r: RecvState, p: Segment)
    requires !Accepts(true, r, p)
    ensures HandleData(true, r, p, {}) == r
  {
  }

  lemma AckIsWire(all: set<Segment>, lo: int, top: int, r: RecvState)
    requires Tiling(all, lo, top) && RecvInv(all, lo, top, r)
    ensures lo <= r.ack.ack <= top < MODULUS && 0 <= lo
  {
    assert r.ack.ack in Edges(all, lo, top);
  }

  lemma NoAdvance(all: set<Segment>, lo: int, top: int, r: RecvState, p: Segment)
    requires Tiling(all, lo, top) && RecvInv(all, lo, top, r) && p in all && r.ack.ack < p.seqNum
    requires p.seqNum !in r.cache
    ensures Update(Circle, r.ack, p.seqNum, |p.payload|).ack == r.ack.ack
  {
    FreshIsClear(all, lo, top, r, p);
    NoWrapUpdate(all, lo, top, r.ack, p);
  }

  lemma StalledStays(all: set<Segment>, lo: int, top: int, r: RecvState, p: Segment)
    requires Tiling(all, lo, top) && RecvInv(all, lo, top, r) && p in all && Stalled(r) && Accepts(true, r, p)
    requires Absorb(r, p, {}).ack.ack == r.ack.ack
    ensures Stalled(Absorb(r, p, {})) && Absorb(r, p, {}).delivered == r.delivered
  {
    hide Update, AgeScan, Tiling, RecvInv;
    RecvParts(all, lo, top, r);
    var cache := r.cache[p.seqNum := p];
    var keys := Ascending(cache.Keys);
    AscendingEnumerates(cache);
    var n := ReadyCount(keys, r.ack.ack);
    assert keys != [] ==> keys[0] in cache;
    assert n == 0;
    ReadyIsBelow(cache, keys, r.ack.ack);
  }

  /** Sorted order survives an arrival, aging included, unless the packet is detached inside the first hole. */
  lemma HandleDataCanonical(all: set<Segment>, lo: int, top: int, r: RecvState, p: Segment, aged: set<Seq32>)
    requires Tiling(all, lo, top) && RecvInv(all, lo, top, r) && p in all && CanonicalState(r.ack)
    requires !DetachedInFirstHole(r.ack.ack, r.ack.blocks, p.seqNum, End(p))
    ensures CanonicalState(HandleData(true, r, p, aged).ack)
  {
    hide Update, RecvInv, Tiling;
    if Accepts(true, r, p) {
      FreshIsClear(all, lo, top, r, p);
      RecvSound(all, lo, top, r);
      NoWrapUpdate(all, lo, top, r.ack, p);
      NonEmpty(all, lo, top, p);
      CanonicalKeptIff(r.ack, p.seqNum, |p.payload|);
      var cache := r.cache[p.seqNum := p];
      var keys := Ascending(cache.Keys);
      AgeScanCanonical(Update(Circle, r.ack, p.seqNum, |p.payload|), cache, keys, aged, |keys|);
    }
  }

  lemma RecvSound(all: set<Segment>, lo: int, top: int, r: RecvState)
    requires RecvInv(all, lo, top, r)
    ensures Sound(r.ack, Edges(all, lo, top))
  {
  }

  lemma NonEmpty(all: set<Segment>, lo: int, top: int, p: Segment)
    requires Tiling(all, lo, top) && p in all
    ensures p.payload != []
  {
  }

  lemma {:induction false} TrimCanonical(floor: int, blocks: seq<Block>, ack: int)
    requires Canonical(floor, blocks) && floor <= ack
    ensures Canonical(ack, Trim(blocks, ack))
    decreases blocks
  {
    if blocks != [] {
      var b, rest := blocks[0], blocks[1..];
      if b.leftEdge > ack {
        TrimAll(b.rightEdge, rest, ack);
        assert ([b] + Trim(rest, ack))[1..] == rest;
      } else if b.rightEdge <= ack {
        TrimCanonical(b.rightEdge, rest, ack);
      } else {
        TrimAll(b.rightEdge, rest, ack);
        CanonicalLower(b.rightEdge, rest, ack);
      }
    }
  }

  lemma {:induction false} TrimAll(floor: int, blocks: seq<Block>, ack: int)
    requires Canonical(floor, blocks) && ack <= floor
    ensures Trim(blocks, ack) == blocks
    decreases blocks
  {
    if blocks != [] {
      TrimAll(blocks[0].rightEdge, blocks[1..], ack);
    }
  }

  lemma CanonicalLower(floor: int, blocks: seq<Block>, lower: int)
    requires Canonical(floor, blocks) && lower <= floor
    ensures Canonical(lower, blocks)
  {
  }

  lemma {:induction false} AgeScanCanonical(s: AckState, cache: Cache, keys: seq<Seq32>, aged: set<Seq32>, i: nat)
    requires i <= |keys| && AllCached(cache, keys) && CanonicalState(s)
    ensures CanonicalState(AgeScan(s, cache, keys, aged, i))
  {
    if i > 0 && keys[i - 1] in aged {
      var last := cache[keys[i - 1]];
      var edge := RunEnd(cache, keys, i, SeqIncrementBy(last.seqNum, |last.payload|));
      if edge > s.ack {
        TrimCanonical(s.ack, s.blocks, edge);
      }
    } else if i > 0 {
      AgeScanCanonical(s, cache, keys, aged, i - 1);
    }
  }

  // ----- Sorted order and stalls over runs -----

  predicate AllIn(all: set<Segment>, arrivals: seq<Arrival>) {
    forall i :: 0 <= i < |arrivals| ==> arrivals[i].packet in all
  }

  predicate NothingAges(arrivals: seq<Arrival>) {
    forall i :: 0 <= i < |arrivals| ==> arrivals[i].aged == {}
  }

  /** p would be appended behind larger blocks. */
  predicate ArrivesDetached(r: RecvState, p: Segment) {
    DetachedInFirstHole(r.ack.ack, r.ack.blocks, p.seqNum, End(p))
  }

  /** No packet was detached inside the first hole at the moment it was handled. */
  predicate NeverDetached(start: Seq32, arrivals: seq<Arrival>) {
    arrivals != [] ==>
      && NeverDetached(start, arrivals[..|arrivals| - 1])
      && !ArrivesDetached(Handle(true, Fresh(start), arrivals[..|arrivals| - 1]), arrivals[|arrivals| - 1].packet)
  }

  /** The blocks were sorted after every arrival. */
  predicate AlwaysSorted(start: Seq32, arrivals: seq<Arrival>) {
    && CanonicalState(Handle(true, Fresh(start), arrivals).ack)
    && (arrivals != [] ==> AlwaysSorted(start, arrivals[..|arrivals| - 1]))
  }

  /** At some arrival the condition of StallsIff held. */
  predicate EverStalls(start: Seq32, arrivals: seq<Arrival>) {
    arrivals != [] &&
    (EverStalls(start, arrivals[..|arrivals| - 1])
     || StallsAt(Handle(true, Fresh(start), arrivals[..|arrivals| - 1]), arrivals[|arrivals| - 1].packet))
  }

  lemma {:induction false} RunInv(all: set<Segment>, lo: int, top: int, start: Seq32, arrivals: seq<Arrival>)
    requires Tiling(all, lo, top) && lo == start && AllIn(all, arrivals)
    ensures RecvInv(all, lo, top, Handle(true, Fresh(start), arrivals))
  {
    hide Tiling, RecvInv;
    MonotoneDelivery(true, all, lo, top, start, arrivals);
  }

  /** With sorted blocks a detached packet is neither acknowledged nor cached, so it is accepted. */
  lemma DetachedIsAccepted(all: set<Segment>, lo: int, top: int, r: RecvState, p: Segment)
    requires Tiling(all, lo, top) && RecvInv(all, lo, top, r) && CanonicalState(r.ack) && p in all
    requires ArrivesDetached(r, p)
    ensures Accepts(true, r, p)
  {
    hide Covers;
    if p.seqNum in r.cache {
      assert r.cache[p.seqNum] in all && Apart(r.cache[p.seqNum], p);
      assert Contains(r.cache[p.seqNum], p.seqNum);
      CoversWitness(r.ack.blocks, p.seqNum);
      CanonicalFromHead(r.ack.ack, r.ack.blocks);
    }
  }

  lemma DetachedUnsorts(all: set<Segment>, lo: int, top: int, r: RecvState, p: Segment)
    requires Tiling(all, lo, top) && RecvInv(all, lo, top, r) && CanonicalState(r.ack) && p in all
    requires ArrivesDetached(r, p)
    ensures !CanonicalState(HandleData(true, r, p, {}).ack)
  {
    hide Update, RecvInv, Tiling, Absorb;
    DetachedIsAccepted(all, lo, top, r, p);
    FreshIsClear(all, lo, top, r, p);
    RecvSound(all, lo, top, r);
    NoWrapUpdate(all, lo, top, r.ack, p);
    NonEmpty(all, lo, top, p);
    CanonicalKeptIff(r.ack, p.seqNum, |p.payload|);
    AbsorbWithoutAging(r, p);
  }

  /**
   Over whole runs: while no packet arrives detached, the blocks are sorted in every state, aging included;
   and without aging only then.
   */
  lemma {:induction false} SortedIffNeverDetached(
    all: set<Segment>, lo: int, top: int, start: Seq32, arrivals: seq<Arrival>)
    requires Tiling(all, lo, top) && lo == start && AllIn(all, arrivals)
    ensures NeverDetached(start, arrivals) ==> AlwaysSorted(start, arrivals)
    ensures NothingAges(arrivals) && AlwaysSorted(start, arrivals) ==> NeverDetached(start, arrivals)
    decreases arrivals
  {
    if arrivals != [] {
      hide Tiling, RecvInv, HandleData, CanonicalState, ArrivesDetached;
      var prefix, last := arrivals[..|arrivals| - 1], arrivals[|arrivals| - 1];
      assert NothingAges(arrivals) ==> NothingAges(prefix) && last.aged == {};
      SortedIffNeverDetached(all, lo, top, start, prefix);
      RunInv(all, lo, top, start, prefix);
      var r := Handle(true, Fresh(start), prefix);
      if CanonicalState(r.ack) {
        if !ArrivesDetached(r, last.packet) {
          HandleDataSorted(all, lo, top, r, last);
        } else if last.aged == {} {
          DetachedUnsorts(all, lo, top, r, last.packet);
        }
      }
    } else {
      FreshIsSorted(start);
    }
  }

  lemma HandleDataSorted(all: set<Segment>, lo: int, top: int, r: RecvState, a: Arrival)
    requires Tiling(all, lo, top) && RecvInv(all, lo, top, r) && a.packet in all && CanonicalState(r.ack)
    requires !ArrivesDetached(r, a.packet)
    ensures CanonicalState(HandleData(true, r, a.packet, a.aged).ack)
  {
    hide Tiling, RecvInv, HandleData, CanonicalState;
    HandleDataCanonical(all, lo, top, r, a.packet, a.aged);
  }

  lemma FreshIsSorted(start: Seq32)
    ensures CanonicalState(Handle(true, Fresh(start), []).ack)
  {
  }

  /** So while no packet arrives detached, the acknowledgment number is always the first byte not received. */
  lemma {:induction false} FollowsWhileNeverDetached(
    all: set<Segment>, lo: int, top: int, start: Seq32, arrivals: seq<Arrival>)
    requires Tiling(all, lo, top) && lo == start && AllIn(all, arrivals) && NeverDetached(start, arrivals)
    ensures var r := Handle(true, Fresh(start), arrivals);
            CanonicalState(r.ack) && !Stalled(r) && !Holds(r.cache, r.ack.ack)
  {
    hide Tiling, RecvInv, HandleData, Holds, Stalled;
    SortedIffNeverDetached(all, lo, top, start, arrivals);
    RunInv(all, lo, top, start, arrivals);
    var r := Handle(true, Fresh(start), arrivals);
    CanonicalIsNotStalled(all, lo, top, r);
    StalledIffHeld(all, lo, top, r);
  }

  /** And without aging a run ends stalled exactly when some arrival met the condition. */
  lemma {:induction false} StalledIffEverStalls(
    all: set<Segment>, lo: int, top: int, start: Seq32, arrivals: seq<Arrival>)
    requires Tiling(all, lo, top) && lo == start && AllIn(all, arrivals) && NothingAges(arrivals)
    ensures Stalled(Handle(true, Fresh(start), arrivals)) <==> EverStalls(start, arrivals)
    decreases arrivals
  {
    if arrivals != [] {
      hide Tiling, RecvInv, HandleData, StallsAt, Stalled;
      var prefix, last := arrivals[..|arrivals| - 1], arrivals[|arrivals| - 1];
      StalledIffEverStalls(all, lo, top, start, prefix);
      RunInv(all, lo, top, start, prefix);
      var r := Handle(true, Fresh(start), prefix);
      assert last.aged == {};
      if Stalled(r) {
        StallIsPermanent(all, lo, top, r, last.packet);
      } else {
        StallsIff(all, lo, top, r, last.packet);
      }
    }
  }

  // ----- What a detached arrival costs -----

  /** p is cached, block 0 lies above it, and the acknowledgment number has not passed it. */
  predicate Stranded(r: RecvState, p: Segment) {
    && p.seqNum in r.cache && r.cache[p.seqNum] == p
    && r.ack.ack <= p.seqNum
    && r.ack.blocks != [] && p.seqNum < r.ack.blocks[0].leftEdge
  }

  /** A packet accepted detached inside the first hole is stranded, whether or not the blocks are sorted. */
  lemma DetachedIsStranded(all: set<Segment>, lo: int, top: int, r: RecvState, p: Segment)
    requires Tiling(all, lo, top) && RecvInv(all, lo, top, r) && p in all && Accepts(true, r, p)
    requires DetachedInFirstHole(r.ack.ack, r.ack.blocks, p.seqNum, End(p))
    ensures Stranded(HandleData(true, r, p, {}), p)
  {
    hide RecvInv, Tiling, Absorb;
    AbsorbWithoutAging(r, p);
    FreshIsClear(all, lo, top, r, p);
    RecvSound(all, lo, top, r);
    NonEmpty(all, lo, top, p);
    NoWrapUpdate(all, lo, top, r.ack, p);
    HandleDataKeeps(all, lo, top, r, p, {});
    RecvParts(all, lo, top, HandleData(true, r, p, {}));
    assert Taken(HandleData(true, r, p, {}), p);
  }

  /** Without aging a stranded packet stays stranded, whatever arrives. */
  lemma StrandedStays(all: set<Segment>, lo: int, top: int, r: RecvState, p: Segment, q: Segment)
    requires Tiling(all, lo, top) && RecvInv(all, lo, top, r) && p in all && q in all && Stranded(r, p)
    ensures Stranded(HandleData(true, r, q, {}), p)
  {
    hide RecvInv, Tiling, Absorb, Aligned;
    if Accepts(true, r, q) {
      AbsorbWithoutAging(r, q);
      FreshIsClear(all, lo, top, r, q);
      RecvSound(all, lo, top, r);
      NonEmpty(all, lo, top, q);
      NoWrapUpdate(all, lo, top, r.ack, q);
      BothApart(all, lo, top, p, q);
      var after := HandleData(true, r, q, {});
      HandleDataKeeps(all, lo, top, r, q, {});
      RecvParts(all, lo, top, after);
      NonEmpty(all, lo, top, p);
      assert Taken(after, p);
    }
  }

  lemma BothApart(all: set<Segment>, lo: int, top: int, p: Segment, q: Segment)
    requires Tiling(all, lo, top) && p in all && q in all
    ensures Apart(p, q)
  {
  }

  /**
   A packet accepted detached inside the first hole never reaches the reader in any continuation
   without aging: retransmissions are dropped as already cached, and are not acknowledged either.
   */
  lemma {:induction false} DetachedNeverDelivered(
    all: set<Segment>, lo: int, top: int, r: RecvState, p: Segment, later: seq<Arrival>)
    requires Tiling(all, lo, top) && RecvInv(all, lo, top, r) && p in all && Accepts(true, r, p)
    requires DetachedInFirstHole(r.ack.ack, r.ack.blocks, p.seqNum, End(p))
    requires forall i :: 0 <= i < |later| ==> later[i].packet in all && later[i].aged == {}
    ensures var end := Handle(true, HandleData(true, r, p, {}), later);
            RecvInv(all, lo, top, end) && Stranded(end, p) && p !in end.delivered && !Accepts(true, end, p)
    decreases later
  {
    hide RecvInv, Tiling, HandleData;
    var start := HandleData(true, r, p, {});
    var end := Handle(true, start, later);
    if later == [] {
      HandleDataKeeps(all, lo, top, r, p, {});
      DetachedIsStranded(all, lo, top, r, p);
    } else {
      var prefix, last := later[..|later| - 1], later[|later| - 1];
      DetachedNeverDelivered(all, lo, top, r, p, prefix);
      HandleDataKeeps(all, lo, top, Handle(true, start, prefix), last.packet, {});
      StrandedStays(all, lo, top, Handle(true, start, prefix), p, last.packet);
    }
    TakenOnce(all, lo, top, end, p);
  }

  /** Two one-byte packets, 4 then 2, into a fresh receiver are enough to strand the second. */
  lemma DetachedIsReachable(x: byte)
    ensures var four := Segment(4, 0, [x]);
            var two := Segment(2, 0, [x]);
            var r := HandleData(true, Fresh(0), four, {});
            && Tiling({two, four}, 0, 5) && RecvInv({two, four}, 0, 5, r)
            && Accepts(true, r, two) && DetachedInFirstHole(r.ack.ack, r.ack.blocks, 2, 3)
  {
    hide Absorb, RecvInv;
    var four := Segment(4, 0, [x]);
    var two := Segment(2, 0, [x]);
    var all := {two, four};
    var r := HandleData(true, Fresh(0), four, {});
    FreshInv(all, 0, 5, 0);
    HandleDataKeeps(all, 0, 5, Fresh(0), four, {});
    AbsorbWithoutAging(Fresh(0), four);
    assert r.ack == AckState(0, [Block(4, 5)]);
    assert Taken(r, two) <==> Taken(Fresh(0), two);
    RecvParts(all, 0, 5, r);
  }

  lemma SecondDetached(x: byte)
    ensures var three, one := Segment(3, 0, [x]), Segment(1, 0, [x]);
            var r := Handle(true, Fresh(0), [Arrival(three, {}), Arrival(one, {})]);
            r.ack == AckState(0, [Block(3, 4), Block(1, 2)]) && 1 in r.cache && 0 !in r.cache
  {
    hide HandleData, Update;
    var three, one := Segment(3, 0, [x]), Segment(1, 0, [x]);
    var first, both := [Arrival(three, {})], [Arrival(three, {}), Arrival(one, {})];
    assert both[..1] == first && first[..0] == [];
    assert Handle(true, Fresh(0), []) == Fresh(0);
    var r1 := Handle(true, Fresh(0), first);
    assert r1 == HandleData(true, Fresh(0), three, {});
    CacheAfter(Fresh(0), three, 1);
    CacheAfter(Fresh(0), three, 0);
    assert Update(Circle, AckState(0, []), 3, 1) == AckState(0, [Block(3, 4)]) by { PlaceThree(); }
    CacheAfter(r1, one, 1);
    CacheAfter(r1, one, 0);
    assert Update(Circle, AckState(0, [Block(3, 4)]), 1, 1) == AckState(0, [Block(3, 4), Block(1, 2)]) by {
      PlaceOne();
    }
  }

  lemma PlaceThree()
    ensures Update(Circle, AckState(0, []), 3, 1) == AckState(0, [Block(3, 4)])
  {
  }

  lemma PlaceOne()
    ensures Update(Circle, AckState(0, [Block(3, 4)]), 1, 1) == AckState(0, [Block(3, 4), Block(1, 2)])
  {
    assert [Block(3, 4)][1..] == [];
    assert Place(Circle, [], 1, 2) == [Block(1, 2)];
  }

  /** One-byte packets 3, 1 and 0 into a fresh receiver stall it at 1, which it holds. */
  lemma StallIsReachable(x: byte)
    ensures var three, one, zero := Segment(3, 0, [x]), Segment(1, 0, [x]), Segment(0, 0, [x]);
            var r := Handle(true, Fresh(0), [Arrival(three, {}), Arrival(one, {}), Arrival(zero, {})]);
            Tiling({three, one, zero}, 0, 4) && r.ack.ack == 1 && Stalled(r)
  {
    hide HandleData, Update;
    var three, one, zero := Segment(3, 0, [x]), Segment(1, 0, [x]), Segment(0, 0, [x]);
    var two := [Arrival(three, {}), Arrival(one, {})];
    var arrivals := [Arrival(three, {}), Arrival(one, {}), Arrival(zero, {})];
    assert arrivals[..2] == two;
    SecondDetached(x);
    var r := Handle(true, Fresh(0), two);
    CacheAfter(r, zero, 1);
    assert Update(Circle, r.ack, 0, 1).ack == 1 by { AdvanceToOne(); }
  }

  lemma AdvanceToOne()
    ensures Update(Circle, AckState(0, [Block(3, 4), Block(1, 2)]), 0, 1).ack == 1
  {
  }

  // ----- What aging costs -----

  /** A packet the acknowledgment number has passed without delivering it is refused for ever, aging or not. */
  lemma {:induction false} SkippedNeverDelivered(
    all: set<Segment>, lo: int, top: int, r: RecvState, p: Segment, later: seq<Arrival>)
    requires Tiling(all, lo, top) && RecvInv(all, lo, top, r)
    requires p in all && p.seqNum < r.ack.ack && p !in r.delivered
    requires forall i :: 0 <= i < |later| ==> later[i].packet in all
    ensures var end := Handle(true, r, later);
            RecvInv(all, lo, top, end) && p.seqNum < end.ack.ack && p !in end.delivered && !Accepts(true, end, p)
    decreases later
  {
    hide RecvInv, Tiling, HandleData;
    if later != [] {
      var prefix, last := later[..|later| - 1], later[|later| - 1];
      SkippedNeverDelivered(all, lo, top, r, p, prefix);
      var before := Handle(true, r, prefix);
      RecvParts(all, lo, top, before);
      HandleDataKeeps(all, lo, top, before, last.packet, last.aged);
      var after := HandleData(true, before, last.packet, last.aged);
      assert Taken(after, p) <==> Taken(before, p) || (p == last.packet && Accepts(true, before, p));
    }
  }

  /** Packet 1 is cached; when packet 2 arrives, 1 has aged. */
  function AgingRun(x: byte): seq<Arrival> {
    [Arrival(Segment(1, 0, [x]), {}), Arrival(Segment(2, 0, [x]), {1})]
  }

  lemma SecondIsCached(x: byte)
    ensures var r := HandleData(true, Fresh(0), Segment(1, 0, [x]), {});
            r.ack == AckState(0, [Block(1, 2)]) && r.cache == map[1 := Segment(1, 0, [x])] && r.delivered == []
  {
    hide Ascending, AscendingFrom;
    var second := Segment(1, 0, [x]);
    var cache: Cache := map[1 := second];
    var keys := Ascending(cache.Keys);
    AbsorbWithoutAging(Fresh(0), second);
    assert Update(Circle, Fresh(0).ack, 1, 1) == AckState(0, [Block(1, 2)]);
    assert Fresh(0).cache[1 := second] == cache;
    AscendingEnumerates(cache);
    assert forall i :: 0 <= i < |keys| ==> keys[i] in cache;
    assert ReadyCount(keys, 0) == 0;
  }

  /** And aging does skip: a packet 1 that has aged when packet 2 arrives takes the number past packet 0. */
  lemma AgingSkips(x: byte)
    ensures var first, second, third := Segment(0, 0, [x]), Segment(1, 0, [x]), Segment(2, 0, [x]);
            var r := Handle(true, Fresh(0), AgingRun(x));
            && OwnNeverAged(AgingRun(x))
            && Tiling({first, second, third}, 0, 3) && RecvInv({first, second, third}, 0, 3, r)
            && r.ack.ack == 3 && first !in r.delivered && second in r.delivered && third in r.delivered
  {
    hide RecvInv, Ascending, AscendingFrom, HandleData;
    var first, second, third := Segment(0, 0, [x]), Segment(1, 0, [x]), Segment(2, 0, [x]);
    var all := {first, second, third};
    var run := AgingRun(x);
    assert run[..1] == [Arrival(second, {})] && run[..1][..0] == [];
    var r1 := HandleData(true, Fresh(0), second, {});
    SecondIsCached(x);
    assert Handle(true, Fresh(0), run[..1]) == r1;
    assert Handle(true, Fresh(0), run) == HandleData(true, r1, third, {1});
    RunInv(all, 0, 3, 0, run[..1]);
    HandleDataKeeps(all, 0, 3, r1, third, {1});
    var r := HandleData(true, r1, third, {1});
    assert Taken(r, first) <==> Taken(r1, first);
    assert Taken(r, second) && Taken(r, third);
    SkipsToThree(r1, second, third);
    RecvParts(all, 0, 3, r);
  }

  lemma SkipsToThree(r: RecvState, second: Segment, third: Segment)
    requires r.ack == AckState(0, [Block(1, 2)]) && r.cache == map[1 := second]
    requires second.seqNum == 1 && third.seqNum == 2 && |second.payload| == |third.payload| == 1
    ensures HandleData(true, r, third, {1}).ack.ack == 3
  {
    hide Ascending, AscendingFrom;
    var cache: Cache := map[1 := second, 2 := third];
    var keys := Ascending(cache.Keys);
    AscendingEnumerates(cache);
    assert StrictlyAscending([1, 2]) && forall k :: k in keys <==> k in [1, 2];
    AscendingUnique(keys, [1, 2]);
    assert r.cache[2 := third] == cache;
    var s := Update(Circle, r.ack, 2, 1);
    assert s.ack == 0;
    assert RunEnd(cache, keys, 2, 3) == 3 && RunEnd(cache, keys, 1, 2) == 3;
    assert AgeScan(s, cache, keys, {1}, 2) == AgeScan(s, cache, keys, {1}, 1);
  }

  // ----- The 2^32 boundary -----

  /** The packet is among what this arrival puts on the read channel. */
  predicate DeliveredNow(r: RecvState, p: Segment) {
    var after := HandleData(true, r, p, {});
    r.delivered <= after.delivered && p in after.delivered[|r.delivered|..]
  }

  /** Without aging an accepted packet is delivered at once exactly when the new number is above it. */
  lemma DeliveredIffBelow(r: RecvState, p: Segment)
    requires Accepts(true, r, p) && forall k :: k in r.cache ==> r.cache[k].seqNum == k
    ensures DeliveredNow(r, p) <==> p.seqNum < Update(Circle, r.ack, p.seqNum, |p.payload|).ack
    ensures !DeliveredNow(r, p) ==> p.seqNum in HandleData(true, r, p, {}).cache
  {
    hide Update, AgeScan, Ascending;
    AbsorbWithoutAging(r, p);
    CacheAfter(r, p, p.seqNum);
    var cache := r.cache[p.seqNum := p];
    var keys := Ascending(cache.Keys);
    AscendingEnumerates(cache);
    var after := HandleData(true, r, p, {});
    var n := ReadyCount(keys, after.ack.ack);
    var ready := Packets(cache, keys[..n]);
    assert after.delivered[|r.delivered|..] == ready;
    var i :| 0 <= i < |keys| && keys[i] == p.seqNum;
    if i < n {
      assert ready[i] == p;
    } else {
      assert forall j :: 0 <= j < n ==> ready[j].seqNum == keys[j] < keys[i];
    }
  }

  /**
   Raw comparison at the wrap, for any receiver: let the blocks be offsets `blocks` above the acknowledgment
   number. An in-order packet is handed to the reader at once if and only if the run of received bytes it
   completes ends below 2^32. Otherwise the number wraps below the packet and the drain does not see it.
   */
  lemma {:induction false} InOrderDeliveredIffNoWrap(r: RecvState, p: Segment, blocks: seq<Block>)
    requires Accepts(true, r, p) && p.seqNum == r.ack.ack && p.payload != []
    requires forall k :: k in r.cache ==> r.cache[k].seqNum == k
    requires InWindow(r.ack.ack, End(p)) && BlocksInWindow(r.ack.ack, blocks) && r.ack.blocks == Encode(blocks)
    requires forall b :: b in blocks ==> p.seqNum < b.leftEdge < b.rightEdge
    ensures DeliveredNow(r, p) <==> Update(Straight, AckState(r.ack.ack, blocks), p.seqNum, |p.payload|).ack < MODULUS
    ensures !DeliveredNow(r, p) ==> p.seqNum in HandleData(true, r, p, {}).cache
  {
    StraightAdvance(r.ack.ack, blocks, p);
    hide Update, Encode, HandleData, DeliveredNow, Accepts, Wire;
    var s := AckState(r.ack.ack, blocks);
    assert EncodeState(s) == r.ack && EncodeState(Update(Straight, s, p.seqNum, |p.payload|)).ack
           == Wire(Update(Straight, s, p.seqNum, |p.payload|).ack) && Wire(p.seqNum) == p.seqNum;
    CircleFollowsStraight(r.ack.ack, s, p.seqNum, |p.payload|);
    hide EncodeState, BlocksInWindow, InWindow;
    DeliveredIffBelow(r, p);
    AheadIffNoWrap(p.seqNum, Update(Straight, s, p.seqNum, |p.payload|).ack);
  }

  lemma AheadIffNoWrap(ack: Seq32, x: int)
    requires ack < x < ack + HALF
    ensures ack < Wire(x) <==> x < MODULUS
  {
  }

  lemma StraightAdvance(ack: int, blocks: seq<Block>, p: Segment)
    requires p.seqNum == ack && p.payload != [] && InWindow(ack, End(p)) && BlocksInWindow(ack, blocks)
    requires forall b :: b in blocks ==> p.seqNum < b.leftEdge < b.rightEdge
    ensures ack < Update(Straight, AckState(ack, blocks), p.seqNum, |p.payload|).ack < ack + HALF
  {
    hide Place;
    assert blocks != [] ==> blocks[0] in blocks;
  }
}
