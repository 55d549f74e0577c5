/**
 The representation invariant of the receiver: the acknowledgment number, the SACK blocks and the
 cache are three views of the same set of bytes, through every arrival, aging jump and trim.
 */
module Reassembly {
  import opened Serial
  import opened Sack
  import opened Receiver

  predicate Apart(s: Segment, t: Segment) {
    s == t || End(s) <= t.seqNum || End(t) <= s.seqNum
  }

  /**
   Fixed segmentation without wrap: the packets that can ever arrive are non-empty, any two are
   identical or share no byte, and all lie in a span below 2^31 that does not cross 2^32.
   */
  predicate Tiling(all: set<Segment>, lo: int, top: int) {
    && 0 <= lo <= top < MODULUS && top - lo < HALF
    && (forall s :: s in all ==> lo <= s.seqNum && s.payload != [] && End(s) <= top)
    && (forall s, t :: s in all && t in all ==> Apart(s, t))
  }

  /** No packet straddles x. */
  predicate Aligned(all: set<Segment>, x: int) {
    forall s :: s in all ==> End(s) <= x || x <= s.seqNum
  }

  ghost function Edges(all: set<Segment>, lo: int, top: int): iset<int> {
    iset x: int | lo <= x <= top && Aligned(all, x)
  }

  predicate Contains(s: Segment, n: int) {
    s.seqNum <= n < End(s)
  }

  /** Some cached packet holds byte n. */
  predicate Holds(cache: Cache, n: int) {
    exists k :: k in cache && Contains(cache[k], n)
  }

  predicate CacheOf(all: set<Segment>, cache: Cache, floor: int) {
    forall k :: k in cache ==> cache[k] in all && cache[k].seqNum == k && floor <= k
  }

  /** Delivered packets are distinct, in order, and wholly below the acknowledgment number. */
  predicate DeliveredOf(all: set<Segment>, delivered: seq<Segment>, ack: int) {
    && (forall i :: 0 <= i < |delivered| ==> delivered[i] in all && End(delivered[i]) <= ack)
    && (forall i, j :: 0 <= i < j < |delivered| ==> End(delivered[i]) <= delivered[j].seqNum)
  }

  ghost predicate RecvInv(all: set<Segment>, lo: int, top: int, r: RecvState) {
    && Sound(r.ack, Edges(all, lo, top))
    && CacheOf(all, r.cache, r.ack.ack)
    && (forall n :: Covers(r.ack.blocks, n) <==> Holds(r.cache, n))
    && DeliveredOf(all, r.delivered, r.ack.ack)
  }

  /** The invariant inside handleDataPacket, between the update and the drain. */
  ghost predicate MidInv(all: set<Segment>, lo: int, top: int, s: AckState, cache: Cache, floor: int) {
    && Sound(s, Edges(all, lo, top)) && floor <= s.ack
    && CacheOf(all, cache, floor)
    && (forall n :: s.ack <= n ==> (Covers(s.blocks, n) <==> Holds(cache, n)))
  }

  // ----- The update -----

  lemma WireEdges(blocks: seq<Block>, all: set<Segment>, lo: int, top: int)
    requires Tiling(all, lo, top) && EdgesIn(blocks, Edges(all, lo, top))
    ensures BlocksInWindow(lo, blocks) && Encode(blocks) == blocks
  {
    hide Wire;
    forall i | 0 <= i < |blocks| ensures Encode(blocks)[i] == blocks[i] {
      assert blocks[i] in blocks;
    }
  }

  /** Below 2^32 the running code computes on plain numbers. */
  lemma NoWrapUpdate(all: set<Segment>, lo: int, top: int, s: AckState, p: Segment)
    requires Tiling(all, lo, top) && p in all && Sound(s, Edges(all, lo, top))
    requires s.ack <= p.seqNum && Clear(s.blocks, p.seqNum, End(p))
    ensures Update(Circle, s, p.seqNum, |p.payload|) == Update(Straight, s, p.seqNum, |p.payload|)
    ensures Sound(Update(Straight, s, p.seqNum, |p.payload|), Edges(all, lo, top))
    ensures s.ack <= Update(Straight, s, p.seqNum, |p.payload|).ack
  {
    hide Wire, Update;
    var t := Update(Straight, s, p.seqNum, |p.payload|);
    PacketEdges(all, lo, top, p);
    UpdateSound(s, p.seqNum, |p.payload|, Edges(all, lo, top));
    WireEdges(s.blocks, all, lo, top);
    WireEdges(t.blocks, all, lo, top);
    CircleFollowsStraight(lo, s, p.seqNum, |p.payload|);
    assert EncodeState(s) == s && EncodeState(t) == t && Wire(p.seqNum) == p.seqNum;
  }

  lemma PacketEdges(all: set<Segment>, lo: int, top: int, p: Segment)
    requires Tiling(all, lo, top) && p in all
    ensures p.seqNum in Edges(all, lo, top) && End(p) in Edges(all, lo, top)
    ensures SeqIncrementBy(p.seqNum, |p.payload|) == End(p)
  {
    forall s | s in all
      ensures End(s) <= p.seqNum || p.seqNum <= s.seqNum
      ensures End(s) <= End(p) || End(p) <= s.seqNum
    {
      assert Apart(s, p);
    }
  }

  lemma FreshIsClear(all: set<Segment>, lo: int, top: int, r: RecvState, p: Segment)
    requires Tiling(all, lo, top) && RecvInv(all, lo, top, r) && p in all && p.seqNum !in r.cache
    ensures Clear(r.ack.blocks, p.seqNum, End(p))
  {
    forall n | p.seqNum <= n < End(p) ensures !Covers(r.ack.blocks, n) {
      forall k | k in r.cache ensures !Contains(r.cache[k], n) {
        assert Apart(r.cache[k], p);
      }
    }
    ClearIffUncovered(r.ack.blocks, p.seqNum, End(p));
  }

  lemma CacheGains(cache: Cache, p: Segment, n: int)
    requires p.seqNum !in cache
    ensures Holds(cache[p.seqNum := p], n) <==> Holds(cache, n) || Contains(p, n)
  {
    var after := cache[p.seqNum := p];
    if Holds(cache, n) {
      var k :| k in cache && Contains(cache[k], n);
      assert after[k] == cache[k];
    }
    if Contains(p, n) {
      assert after[p.seqNum] == p;
    }
  }

  /** After the update, acknowledged bytes are exactly the cached ones from the old number on. */
  lemma AfterUpdate(all: set<Segment>, lo: int, top: int, r: RecvState, p: Segment)
    requires Tiling(all, lo, top) && RecvInv(all, lo, top, r) && p in all && Accepts(true, r, p)
    ensures var s := Update(Circle, r.ack, p.seqNum, |p.payload|);
            var cache := r.cache[p.seqNum := p];
            && MidInv(all, lo, top, s, cache, r.ack.ack)
            && forall n :: r.ack.ack <= n ==> (Acked(s, n) <==> Holds(cache, n))
  {
    hide Update, Covers;
    var s := Update(Circle, r.ack, p.seqNum, |p.payload|);
    var cache := r.cache[p.seqNum := p];
    FreshIsClear(all, lo, top, r, p);
    NoWrapUpdate(all, lo, top, r.ack, p);
    forall n | r.ack.ack <= n ensures Acked(s, n) <==> Holds(cache, n) {
      UpdateConservesCoverage(r.ack, p.seqNum, |p.payload|, n);
      CacheGains(r.cache, p, n);
    }
    forall n | s.ack <= n ensures Covers(s.blocks, n) <==> Holds(cache, n) {
      assert Acked(s, n) <==> Holds(cache, n);
    }
  }

  // ----- The aging jump -----

  /** `keys` enumerates the cache in ascending order. */
  predicate Enumerates(keys: seq<Seq32>, cache: Cache) {
    AllCached(cache, keys) && StrictlyAscending(keys) && forall k :: k in cache ==> k in keys
  }

  lemma AscendingEnumerates(cache: Cache)
    ensures Enumerates(Ascending(cache.Keys), cache)
  {
    forall k | k in cache ensures k in Ascending(cache.Keys) {
      AscendingFromComplete(cache.Keys, 0, k);
    }
  }

  lemma LaterKeysBeyond(all: set<Segment>, lo: int, top: int, cache: Cache, keys: seq<Seq32>, floor: int, i: nat)
    requires Tiling(all, lo, top) && CacheOf(all, cache, floor) && Enumerates(keys, cache) && i < |keys|
    ensures forall j :: i < j < |keys| ==> End(cache[keys[i]]) <= keys[j]
    ensures forall j :: 0 <= j <= i ==> keys[j] < End(cache[keys[i]])
  {
    assert cache[keys[i]] in all;
    forall j | i < j < |keys| ensures End(cache[keys[i]]) <= keys[j] {
      assert keys[i] < keys[j] && cache[keys[j]] in all;
      assert Apart(cache[keys[i]], cache[keys[j]]);
    }
  }

  /** The run ends on a packet boundary where no cached packet starts. */
  lemma {:induction false} RunEndIsOpen(
    all: set<Segment>, lo: int, top: int, cache: Cache, keys: seq<Seq32>, floor: int, j: nat, edge: int)
    requires Tiling(all, lo, top) && CacheOf(all, cache, floor) && Enumerates(keys, cache) && j <= |keys|
    requires edge in Edges(all, lo, top)
    requires forall i :: 0 <= i < j ==> keys[i] < edge
    requires forall i :: j <= i < |keys| ==> edge <= keys[i]
    ensures RunEnd(cache, keys, j, edge) in Edges(all, lo, top)
    ensures RunEnd(cache, keys, j, edge) !in cache
    ensures edge <= RunEnd(cache, keys, j, edge)
    decreases |keys| - j
  {
    if j < |keys| && edge == keys[j] {
      var next := cache[keys[j]];
      assert next in all;
      PacketEdges(all, lo, top, next);
      LaterKeysBeyond(all, lo, top, cache, keys, floor, j);
      RunEndIsOpen(all, lo, top, cache, keys, floor, j + 1, End(next));
    } else {
      assert forall i :: j < i < |keys| ==> keys[j] < keys[i];
      assert edge !in keys;
    }
  }

  lemma JumpKeeps(all: set<Segment>, lo: int, top: int, s: AckState, cache: Cache, floor: int, edge: int)
    requires Tiling(all, lo, top) && MidInv(all, lo, top, s, cache, floor)
    requires s.ack < edge && edge in Edges(all, lo, top) && edge !in cache
    ensures MidInv(all, lo, top, AckState(edge, Trim(s.blocks, edge)), cache, floor)
  {
    hide Covers, Trim;
    var kept := Trim(s.blocks, edge);
    TrimKeeps(s.blocks, edge);
    TrimDisjoint(s.blocks, edge);
    forall n | edge <= n ensures Covers(kept, n) <==> Holds(cache, n) {
      CoversWitness(kept, n);
      CoversWitness(s.blocks, n);
      if Covers(s.blocks, n) {
        var b :| b in s.blocks && Within(n, b);
        if b.leftEdge <= edge {
          assert Within(edge, b);
          CoversWitness(s.blocks, edge);
          EdgeNotHeld(all, lo, top, cache, floor, edge);
          assert false;
        }
        assert b in kept;
      }
    }
  }

  lemma EdgeNotHeld(all: set<Segment>, lo: int, top: int, cache: Cache, floor: int, edge: int)
    requires Tiling(all, lo, top) && CacheOf(all, cache, floor) && Aligned(all, edge) && edge !in cache
    ensures !Holds(cache, edge)
  {
    forall k | k in cache ensures !Contains(cache[k], edge) {
      assert cache[k] in all && cache[k].seqNum != edge;
    }
  }

  lemma {:induction false} AgeScanKeeps(
    all: set<Segment>, lo: int, top: int, s: AckState, cache: Cache, floor: int,
    keys: seq<Seq32>, aged: set<Seq32>, i: nat)
    requires Tiling(all, lo, top) && MidInv(all, lo, top, s, cache, floor)
    requires Enumerates(keys, cache) && i <= |keys|
    ensures MidInv(all, lo, top, AgeScan(s, cache, keys, aged, i), cache, floor)
    ensures s.ack <= AgeScan(s, cache, keys, aged, i).ack
  {
    hide MidInv, Tiling, CacheOf;
    if i == 0 {
    } else if keys[i - 1] in aged {
      JumpTarget(all, lo, top, s, cache, floor, keys, i);
      var last := cache[keys[i - 1]];
      var edge := RunEnd(cache, keys, i, SeqIncrementBy(last.seqNum, |last.payload|));
      if edge > s.ack {
        JumpKeeps(all, lo, top, s, cache, floor, edge);
      }
    } else {
      AgeScanKeeps(all, lo, top, s, cache, floor, keys, aged, i - 1);
    }
  }

  lemma JumpTarget(
    all: set<Segment>, lo: int, top: int, s: AckState, cache: Cache, floor: int, keys: seq<Seq32>, i: nat)
    requires Tiling(all, lo, top) && MidInv(all, lo, top, s, cache, floor)
    requires Enumerates(keys, cache) && 0 < i <= |keys|
    ensures var last := cache[keys[i - 1]];
            var edge := RunEnd(cache, keys, i, SeqIncrementBy(last.seqNum, |last.payload|));
            edge in Edges(all, lo, top) && edge !in cache
  {
    var last := cache[keys[i - 1]];
    assert last in all;
    PacketEdges(all, lo, top, last);
    LaterKeysBeyond(all, lo, top, cache, keys, floor, i - 1);
    RunEndIsOpen(all, lo, top, cache, keys, floor, i, End(last));
  }

  /** Every byte of the run is held. */
  lemma {:induction false} RunIsHeld(
    all: set<Segment>, lo: int, top: int, cache: Cache, keys: seq<Seq32>, floor: int, j: nat, edge: int, n: int)
    requires Tiling(all, lo, top) && CacheOf(all, cache, floor) && Enumerates(keys, cache) && j <= |keys|
    requires edge <= n < RunEnd(cache, keys, j, edge)
    ensures Holds(cache, n)
    decreases |keys| - j
  {
    var next := cache[keys[j]];
    assert next in all;
    PacketEdges(all, lo, top, next);
    if n < End(next) {
      assert Contains(next, n);
    } else {
      RunIsHeld(all, lo, top, cache, keys, floor, j + 1, End(next), n);
    }
  }

  lemma {:induction false} AgeScanReaches(
    all: set<Segment>, lo: int, top: int, s: AckState, cache: Cache, floor: int,
    keys: seq<Seq32>, aged: set<Seq32>, i: nat, j: nat)
    requires Tiling(all, lo, top) && MidInv(all, lo, top, s, cache, floor)
    requires Enumerates(keys, cache) && j < i <= |keys| && keys[j] in aged
    ensures keys[j] < AgeScan(s, cache, keys, aged, i).ack
  {
    hide Sound, Holds;
    if keys[i - 1] in aged {
      var last := cache[keys[i - 1]];
      assert last in all;
      PacketEdges(all, lo, top, last);
      LaterKeysBeyond(all, lo, top, cache, keys, floor, i - 1);
      RunEndIsOpen(all, lo, top, cache, keys, floor, i, End(last));
      assert keys[j] < End(last);
    } else {
      AgeScanReaches(all, lo, top, s, cache, floor, keys, aged, i - 1, j);
    }
  }

  lemma {:induction false} AgeScanSkips(
    all: set<Segment>, lo: int, top: int, s: AckState, cache: Cache, floor: int,
    keys: seq<Seq32>, aged: set<Seq32>, i: nat, n: int)
    requires Tiling(all, lo, top) && MidInv(all, lo, top, s, cache, floor)
    requires Enumerates(keys, cache) && i <= |keys|
    requires s.ack <= n < AgeScan(s, cache, keys, aged, i).ack && !Holds(cache, n)
    ensures exists k :: k in aged && k in cache && n < k
  {
    hide Sound;
    if keys[i - 1] in aged {
      var last := cache[keys[i - 1]];
      assert last in all && last.seqNum == keys[i - 1];
      PacketEdges(all, lo, top, last);
      assert !Contains(last, n);
      if keys[i - 1] <= n {
        RunIsHeld(all, lo, top, cache, keys, floor, i, End(last), n);
        assert false;
      }
    } else {
      AgeScanSkips(all, lo, top, s, cache, floor, keys, aged, i - 1, n);
    }
  }

  /** A missing byte is skipped exactly when some aged packet is cached behind it. */
  lemma SkippedIffAgedBehind(
    all: set<Segment>, lo: int, top: int, s: AckState, cache: Cache, floor: int, aged: set<Seq32>, n: int)
    requires Tiling(all, lo, top) && MidInv(all, lo, top, s, cache, floor)
    requires s.ack <= n && !Holds(cache, n)
    ensures var keys := Ascending(cache.Keys);
            n < AgeScan(s, cache, keys, aged, |keys|).ack <==> exists k :: k in aged && k in cache && n < k
  {
    hide AgeScan, Ascending, Sound;
    var keys := Ascending(cache.Keys);
    AscendingEnumerates(cache);
    if n < AgeScan(s, cache, keys, aged, |keys|).ack {
      AgeScanSkips(all, lo, top, s, cache, floor, keys, aged, |keys|, n);
    }
    if exists k :: k in aged && k in cache && n < k {
      var k :| k in aged && k in cache && n < k;
      var j :| 0 <= j < |keys| && keys[j] == k;
      AgeScanReaches(all, lo, top, s, cache, floor, keys, aged, |keys|, j);
    }
  }

  // ----- The drain -----

  lemma DrainKeeps(
    all: set<Segment>, lo: int, top: int, s: AckState, cache: Cache, floor: int,
    keys: seq<Seq32>, delivered: seq<Segment>)
    requires Tiling(all, lo, top) && MidInv(all, lo, top, s, cache, floor) && Enumerates(keys, cache)
    requires DeliveredOf(all, delivered, floor)
    ensures var r := Drain(s, cache, keys, delivered);
            && RecvInv(all, lo, top, r)
            && delivered <= r.delivered
            && (forall k :: k in r.cache <==> k in cache && s.ack <= k)
            && (forall t :: t in r.delivered[|delivered|..]
                  <==> t.seqNum in cache && cache[t.seqNum] == t && t.seqNum < s.ack)
  {
    hide Covers, Sound;
    DrainMoves(s, cache, keys, delivered);
    var n := ReadyCount(keys, s.ack);
    var r := Drain(s, cache, keys, delivered);
    ReadyIsBelow(cache, keys, s.ack);
    assert Aligned(all, s.ack) by { SoundAligned(all, lo, top, s); }
    forall n ensures Covers(s.blocks, n) <==> Holds(r.cache, n) {
      DrainHolds(all, s.ack, cache, floor, r.cache, n);
      if n < s.ack && Covers(s.blocks, n) {
        SoundAbove(s, Edges(all, lo, top), n);
      }
    }
    DrainDelivers(all, lo, top, s, cache, floor, keys, delivered);
  }

  /** The drain appends exactly the cached packets that start below the acknowledgment number. */
  lemma DrainMoves(s: AckState, cache: Cache, keys: seq<Seq32>, delivered: seq<Segment>)
    requires Enumerates(keys, cache) && forall k :: k in cache ==> cache[k].seqNum == k
    ensures var r := Drain(s, cache, keys, delivered);
            && r.delivered[..|delivered|] == delivered
            && (forall t :: t in r.delivered[|delivered|..]
                  <==> t.seqNum in cache && cache[t.seqNum] == t && t.seqNum < s.ack)
  {
    var n := ReadyCount(keys, s.ack);
    var ready := Packets(cache, keys[..n]);
    var r := Drain(s, cache, keys, delivered);
    assert r.delivered[|delivered|..] == ready;
    forall t: Segment | t.seqNum in cache && cache[t.seqNum] == t && t.seqNum < s.ack ensures t in ready {
      var i :| 0 <= i < |keys| && keys[i] == t.seqNum;
      assert ready[i] == t;
    }
  }

  lemma SoundAligned(all: set<Segment>, lo: int, top: int, s: AckState)
    requires Sound(s, Edges(all, lo, top))
    ensures Aligned(all, s.ack)
  {
  }

  lemma SoundAbove(s: AckState, edges: iset<int>, n: int)
    requires Sound(s, edges) && Covers(s.blocks, n)
    ensures s.ack <= n
  {
    CoversWitness(s.blocks, n);
  }

  /** What the drain leaves in the cache is what lies at or above the acknowledgment number. */
  lemma ReadyIsBelow(cache: Cache, keys: seq<Seq32>, ack: int)
    requires Enumerates(keys, cache)
    ensures forall k :: k in Without(cache, keys[..ReadyCount(keys, ack)]) <==> k in cache && ack <= k
  {
    var n := ReadyCount(keys, ack);
    assert forall i :: n < i < |keys| ==> keys[n] < keys[i];
    forall k | k in cache ensures k in keys[..n] <==> k < ack {
      var i :| 0 <= i < |keys| && keys[i] == k;
      if i < n {
        assert keys[..n][i] == k;
      }
    }
  }

  lemma DrainHolds(all: set<Segment>, ack: int, cache: Cache, floor: int, left: Cache, n: int)
    requires CacheOf(all, cache, floor) && Aligned(all, ack)
    requires forall k :: k in left <==> k in cache && ack <= k
    requires forall k :: k in left ==> left[k] == cache[k]
    ensures Holds(left, n) <==> n >= ack && Holds(cache, n)
  {
    forall k | k in cache ensures Contains(cache[k], n) ==> (k in left <==> ack <= n) {
      assert cache[k] in all;
    }
  }

  lemma DrainDelivers(
    all: set<Segment>, lo: int, top: int, s: AckState, cache: Cache, floor: int,
    keys: seq<Seq32>, delivered: seq<Segment>)
    requires Tiling(all, lo, top) && CacheOf(all, cache, floor) && Enumerates(keys, cache)
    requires floor <= s.ack && Aligned(all, s.ack) && DeliveredOf(all, delivered, floor)
    ensures DeliveredOf(all, Drain(s, cache, keys, delivered).delivered, s.ack)
  {
    var n := ReadyCount(keys, s.ack);
    var ready := Packets(cache, keys[..n]);
    forall i | 0 <= i < n
      ensures ready[i] in all && floor <= ready[i].seqNum && End(ready[i]) <= s.ack
    {
      assert ready[i] == cache[keys[i]] && keys[i] in cache;
    }
    forall i, j | 0 <= i < j < n ensures End(ready[i]) <= ready[j].seqNum {
      LaterKeysBeyond(all, lo, top, cache, keys, floor, i);
    }
  }

  // ----- handleDataPacket as a whole -----

  /** The receiver has taken this packet: it is on the read channel or in the cache. */
  predicate Taken(r: RecvState, s: Segment) {
    s in r.delivered || (s.seqNum in r.cache && r.cache[s.seqNum] == s)
  }

  lemma TakenOnce(all: set<Segment>, lo: int, top: int, r: RecvState, s: Segment)
    requires Tiling(all, lo, top) && RecvInv(all, lo, top, r)
    ensures !(s in r.delivered && s.seqNum in r.cache)
    ensures forall i, j :: 0 <= i < j < |r.delivered| ==> r.delivered[i] != r.delivered[j]
  {
  }

  lemma DrainTakes(s: AckState, cache: Cache, keys: seq<Seq32>, delivered: seq<Segment>, t: Segment)
    requires AllCached(cache, keys) && forall k :: k in cache ==> cache[k].seqNum == k
    ensures Taken(Drain(s, cache, keys, delivered), t)
            <==> t in delivered || (t.seqNum in cache && cache[t.seqNum] == t)
  {
    var n := ReadyCount(keys, s.ack);
    var ready := Packets(cache, keys[..n]);
    if t in ready {
      var i :| 0 <= i < |ready| && ready[i] == t;
      assert ready[i] == cache[keys[i]];
    }
    if t.seqNum in keys[..n] {
      var i :| 0 <= i < n && keys[i] == t.seqNum;
      assert ready[i] == cache[keys[i]];
    }
  }

  /**
   Every arrival, whatever has aged, keeps the three views in agreement; the acknowledgment number
   never falls; exactly the accepted packet is taken, once.
   */
  lemma HandleDataKeeps(all: set<Segment>, lo: int, top: int, r: RecvState, p: Segment, aged: set<Seq32>)
    requires Tiling(all, lo, top) && RecvInv(all, lo, top, r) && p in all
    ensures var after := HandleData(true, r, p, aged);
            && RecvInv(all, lo, top, after)
            && r.ack.ack <= after.ack.ack
            && r.delivered <= after.delivered
            && forall t :: Taken(after, t) <==> Taken(r, t) || (t == p && Accepts(true, r, p))
  {
    hide RecvInv, Tiling, MidInv, Update, Sound;
    if Accepts(true, r, p) {
      var s := Update(Circle, r.ack, p.seqNum, |p.payload|);
      var cache := r.cache[p.seqNum := p];
      var keys := Ascending(cache.Keys);
      AfterUpdate(all, lo, top, r, p);
      AscendingEnumerates(cache);
      AgeScanKeeps(all, lo, top, s, cache, r.ack.ack, keys, aged, |keys|);
      var a := AgeScan(s, cache, keys, aged, |keys|);
      RecvParts(all, lo, top, r);
      MidParts(all, lo, top, s, cache, r.ack.ack);
      DrainKeeps(all, lo, top, a, cache, r.ack.ack, keys, r.delivered);
      forall t ensures Taken(HandleData(true, r, p, aged), t) <==> Taken(r, t) || t == p {
        DrainTakes(a, cache, keys, r.delivered, t);
      }
    }
  }

  lemma RecvParts(all: set<Segment>, lo: int, top: int, r: RecvState)
    requires RecvInv(all, lo, top, r)
    ensures CacheOf(all, r.cache, r.ack.ack) && DeliveredOf(all, r.delivered, r.ack.ack)
  {
  }

  lemma MidParts(all: set<Segment>, lo: int, top: int, s: AckState, cache: Cache, floor: int)
    requires MidInv(all, lo, top, s, cache, floor)
    ensures CacheOf(all, cache, floor) && floor <= s.ack
  {
  }
}
