/**
 The acknowledgment number and SACK block list that updateACKAndSACK edits in place
 (lib/connection.go). The algorithm is written once, over a number line chosen by `Line`:
 `Circle` is the uint32 arithmetic the code runs, `Straight` is unbounded stream offsets.
 `CircleFollowsStraight` shows the two agree inside a window shorter than 2^31, wraps included,
 so everything proved about offsets holds of the running code.
 */
module Sack {
  import opened Serial

  /** Bytes leftEdge, ..., rightEdge - 1. */
  datatype Block = Block(leftEdge: int, rightEdge: int)

  /** A sackblock of the source: both edges are uint32. */
  type WireBlock = b: Block | 0 <= b.leftEdge < 0x1_0000_0000 && 0 <= b.rightEdge < 0x1_0000_0000
    witness Block(0, 0)

  datatype Line = Circle | Straight

  predicate Geq(line: Line, a: int, b: int) {
    match line
    case Circle => IsGreaterOrEqual(Wire(a), Wire(b))
    case Straight => a >= b
  }

  predicate Less(line: Line, a: int, b: int) {
    match line
    case Circle => IsLess(Wire(a), Wire(b))
    case Straight => a < b
  }

  predicate Leq(line: Line, a: int, b: int) {
    match line
    case Circle => IsLessOrEqual(Wire(a), Wire(b))
    case Straight => a <= b
  }

  predicate Greater(line: Line, a: int, b: int) {
    match line
    case Circle => IsGreater(Wire(a), Wire(b))
    case Straight => a > b
  }

  function Plus(line: Line, a: int, n: nat): int {
    match line
    case Circle => SeqIncrementBy(Wire(a), n)
    case Straight => a + n
  }

  /** The scan over the blocks for a range [l, r) that starts beyond the acknowledgment number. */
  function Place(line: Line, blocks: seq<Block>, l: int, r: int): seq<Block> {
    if blocks == [] then
      [Block(l, r)]
    else
      var b := blocks[0];
      if Geq(line, l, b.leftEdge) && Leq(line, r, b.rightEdge) then
        blocks
      else if |blocks| > 1 && l == b.rightEdge && r == blocks[1].leftEdge then
        [Block(b.leftEdge, blocks[1].rightEdge)] + blocks[2..]
      else if l == b.rightEdge then
        [Block(b.leftEdge, r)] + blocks[1..]
      else if r == b.leftEdge then
        [Block(l, b.rightEdge)] + blocks[1..]
      else if |blocks| > 1 && Greater(line, l, b.rightEdge) && Less(line, r, blocks[1].leftEdge) then
        [b] + ([Block(l, r)] + blocks[1..])
      else
        [b] + Place(line, blocks[1..], l, r)
  }

  datatype AckState = AckState(ack: int, blocks: seq<Block>)

  /** A packet of `len` bytes right at the acknowledgment number; only block 0 is looked at. */
  function Advance(line: Line, s: AckState, len: nat): AckState {
    var ack := Plus(line, s.ack, len);
    if s.blocks != [] && ack == s.blocks[0].leftEdge then
      AckState(s.blocks[0].rightEdge, s.blocks[1..])
    else
      AckState(ack, s.blocks)
  }

  /** What updateACKAndSACK returns for a packet at `start` with `len` payload bytes. */
  function Update(line: Line, s: AckState, start: int, len: nat): AckState {
    if Less(line, start, s.ack) then s
    else if start == s.ack then Advance(line, s, len)
    else AckState(s.ack, Place(line, s.blocks, start, Plus(line, start, len)))
  }

  /** What trimOutSackOption leaves; it compares raw numbers. */
  function Trim(blocks: seq<Block>, ack: int): seq<Block> {
    if blocks == [] then []
    else if blocks[0].leftEdge > ack then [blocks[0]] + Trim(blocks[1..], ack)
    else Trim(blocks[1..], ack)
  }

  // ----- The wire arithmetic follows the offsets -----

  predicate InWindow(lo: int, x: int) {
    lo <= x < lo + HALF
  }

  predicate BlocksInWindow(lo: int, blocks: seq<Block>) {
    forall b :: b in blocks ==> InWindow(lo, b.leftEdge) && InWindow(lo, b.rightEdge)
  }

  function Encode(blocks: seq<Block>): (e: seq<Block>)
    ensures |e| == |blocks|
    ensures forall i :: 0 <= i < |e| ==> e[i] == Block(Wire(blocks[i].leftEdge), Wire(blocks[i].rightEdge))
  {
    if blocks == [] then [] else [Block(Wire(blocks[0].leftEdge), Wire(blocks[0].rightEdge))] + Encode(blocks[1..])
  }

  function EncodeState(s: AckState): AckState {
    AckState(Wire(s.ack), Encode(s.blocks))
  }

  lemma {:induction false} OrderFollows(lo: int, a: int, b: int)
    requires InWindow(lo, a) && InWindow(lo, b)
    ensures Geq(Circle, Wire(a), Wire(b)) == Geq(Straight, a, b)
    ensures Less(Circle, Wire(a), Wire(b)) == Less(Straight, a, b)
    ensures Leq(Circle, Wire(a), Wire(b)) == Leq(Straight, a, b)
    ensures Greater(Circle, Wire(a), Wire(b)) == Greater(Straight, a, b)
    ensures Wire(a) == Wire(b) <==> a == b
  {
    SerialOrderLifts(a, b);
  }

  lemma PlusFollows(a: int, n: nat)
    ensures Plus(Circle, Wire(a), n) == Wire(Plus(Straight, a, n))
  {
    IncrementLifts(a, n);
  }

  lemma {:induction false} PlaceFollows(lo: int, blocks: seq<Block>, l: int, r: int)
    requires InWindow(lo, l) && InWindow(lo, r) && BlocksInWindow(lo, blocks)
    ensures Place(Circle, Encode(blocks), Wire(l), Wire(r)) == Encode(Place(Straight, blocks, l, r))
  {
    if blocks != [] {
      var b := blocks[0];
      assert b in blocks;
      OrderFollows(lo, l, b.leftEdge);
      OrderFollows(lo, r, b.rightEdge);
      OrderFollows(lo, l, b.rightEdge);
      OrderFollows(lo, r, b.leftEdge);
      if |blocks| > 1 {
        assert blocks[1] in blocks;
        OrderFollows(lo, r, blocks[1].leftEdge);
      }
      assert Encode(blocks)[1..] == Encode(blocks[1..]);
      PlaceFollows(lo, blocks[1..], l, r);
    }
  }

  lemma AdvanceFollows(lo: int, s: AckState, len: nat)
    requires InWindow(lo, s.ack + len) && BlocksInWindow(lo, s.blocks)
    ensures Advance(Circle, EncodeState(s), len) == EncodeState(Advance(Straight, s, len))
  {
    hide Wire, SeqIncrementBy;
    PlusFollows(s.ack, len);
    if s.blocks != [] {
      assert s.blocks[0] in s.blocks;
      OrderFollows(lo, s.ack + len, s.blocks[0].leftEdge);
      assert Encode(s.blocks)[1..] == Encode(s.blocks[1..]);
    }
  }

  /** updateACKAndSACK on wire numbers is updateACKAndSACK on offsets, wherever the window lies on the circle. */
  lemma {:induction false} CircleFollowsStraight(lo: int, s: AckState, start: int, len: nat)
    requires InWindow(lo, s.ack) && InWindow(lo, start) && InWindow(lo, start + len) && BlocksInWindow(lo, s.blocks)
    ensures Update(Circle, EncodeState(s), Wire(start), len) == EncodeState(Update(Straight, s, start, len))
  {
    hide Advance, Wire, IsLess, SeqIncrementBy, Place, Encode;
    OrderFollows(lo, start, s.ack);
    if start == s.ack {
      AdvanceFollows(lo, s, len);
    } else if start > s.ack {
      PlusFollows(start, len);
      PlaceFollows(lo, s.blocks, start, start + len);
    }
  }

  /** A packet more than half the circle ahead of the acknowledgment number counts as old and changes nothing. */
  lemma {:induction false} OldChangesNothing(s: AckState, start: int, len: nat)
    ensures (Wire(start) - Wire(s.ack)) % MODULUS > HALF ==> Update(Circle, s, start, len) == s
    ensures start < s.ack ==> Update(Straight, s, start, len) == s
  {
    GreaterIsForwardHalf(Wire(start), Wire(s.ack));
    hide Place, Advance, IsGreater, Wire;
  }

  // ----- Coverage -----

  predicate WellFormed(blocks: seq<Block>) {
    forall b :: b in blocks ==> b.leftEdge < b.rightEdge
  }

  predicate Within(n: int, b: Block) {
    b.leftEdge <= n < b.rightEdge
  }

  predicate Covers(blocks: seq<Block>, n: int) {
    blocks != [] && (Within(n, blocks[0]) || Covers(blocks[1..], n))
  }

  lemma CoversHead(b: Block, rest: seq<Block>, n: int)
    ensures Covers([b] + rest, n) <==> Within(n, b) || Covers(rest, n)
  {
    assert ([b] + rest)[1..] == rest;
  }

  lemma {:induction false} PlaceCovers(blocks: seq<Block>, l: int, r: int, n: int)
    requires l < r && WellFormed(blocks)
    ensures Covers(Place(Straight, blocks, l, r), n) <==> Covers(blocks, n) || l <= n < r
  {
    if blocks == [] {
      CoversHead(Block(l, r), [], n);
    } else {
      hide Covers;
      var b, rest := blocks[0], blocks[1..];
      assert b in blocks && blocks == [b] + rest;
      CoversHead(b, rest, n);
      if l >= b.leftEdge && b.rightEdge >= r {
      } else if |blocks| > 1 && l == b.rightEdge && r == blocks[1].leftEdge {
        assert rest == [blocks[1]] + blocks[2..] && blocks[1] in blocks;
        CoversHead(blocks[1], blocks[2..], n);
        CoversHead(Block(b.leftEdge, blocks[1].rightEdge), blocks[2..], n);
      } else if l == b.rightEdge {
        CoversHead(Block(b.leftEdge, r), rest, n);
      } else if r == b.leftEdge {
        CoversHead(Block(l, b.rightEdge), rest, n);
      } else if |blocks| > 1 && b.rightEdge < l && r < blocks[1].leftEdge {
        CoversHead(Block(l, r), rest, n);
        CoversHead(b, [Block(l, r)] + rest, n);
      } else {
        PlaceCovers(rest, l, r, n);
        CoversHead(b, Place(Straight, rest, l, r), n);
      }
    }
  }

  lemma {:induction false} PlaceWellFormed(blocks: seq<Block>, l: int, r: int)
    requires l < r && WellFormed(blocks)
    ensures WellFormed(Place(Straight, blocks, l, r))
  {
    if blocks != [] {
      PlaceWellFormed(blocks[1..], l, r);
    }
  }

  /** Everything acknowledged: cumulatively, or by a block. */
  predicate Acked(s: AckState, n: int) {
    n < s.ack || Covers(s.blocks, n)
  }

  /** Bytes are conserved: whatever the order of the blocks, the update adds exactly the packet's range. */
  lemma UpdateConservesCoverage(s: AckState, start: int, len: nat, n: int)
    requires WellFormed(s.blocks) && start >= s.ack && len > 0
    ensures Acked(Update(Straight, s, start, len), n) <==> Acked(s, n) || start <= n < start + len
    ensures WellFormed(Update(Straight, s, start, len).blocks)
  {
    hide Covers, Place;
    if start > s.ack {
      PlaceCovers(s.blocks, start, start + len, n);
      PlaceWellFormed(s.blocks, start, start + len);
    } else if s.blocks != [] {
      assert s.blocks[0] in s.blocks && s.blocks == [s.blocks[0]] + s.blocks[1..];
      CoversHead(s.blocks[0], s.blocks[1..], n);
    }
  }

  /** No two blocks share a byte. */
  predicate Disjoint(blocks: seq<Block>) {
    blocks != [] ==> Clear(blocks[1..], blocks[0].leftEdge, blocks[0].rightEdge) && Disjoint(blocks[1..])
  }

  /** The range shares no byte with any block. */
  predicate Clear(blocks: seq<Block>, l: int, r: int) {
    forall b :: b in blocks ==> r <= b.leftEdge || b.rightEdge <= l
  }

  lemma {:induction false} CoversWitness(blocks: seq<Block>, n: int)
    ensures Covers(blocks, n) <==> exists b :: b in blocks && Within(n, b)
  {
    if blocks != [] {
      CoversWitness(blocks[1..], n);
      assert blocks == [blocks[0]] + blocks[1..];
      if Covers(blocks[1..], n) {
        var b :| b in blocks[1..] && Within(n, b);
        assert b in blocks;
      }
    }
  }

  lemma ClearIffUncovered(blocks: seq<Block>, l: int, r: int)
    requires WellFormed(blocks) && l < r
    ensures Clear(blocks, l, r) <==> forall n :: l <= n < r ==> !Covers(blocks, n)
  {
    if Clear(blocks, l, r) {
      forall n | l <= n < r ensures !Covers(blocks, n) {
        CoversWitness(blocks, n);
      }
    } else {
      var b :| b in blocks && !(r <= b.leftEdge || b.rightEdge <= l);
      var n := if l < b.leftEdge then b.leftEdge else l;
      assert Within(n, b);
      CoversWitness(blocks, n);
    }
  }

  lemma {:induction false} PlaceDisjoint(blocks: seq<Block>, l: int, r: int)
    requires l < r && WellFormed(blocks) && Disjoint(blocks) && Clear(blocks, l, r)
    ensures Disjoint(Place(Straight, blocks, l, r))
    decreases blocks
  {
    var after := Place(Straight, blocks, l, r);
    if blocks == [] {
    } else {
      var b, rest := blocks[0], blocks[1..];
      assert b in blocks;
      assert r <= b.leftEdge || b.rightEdge <= l;
      if |blocks| > 1 {
        assert rest[1..] == blocks[2..] && blocks[1] in rest;
      }
      if l == b.rightEdge || r == b.leftEdge {
        assert forall c :: c in after[1..] ==> c in rest;
      } else if |blocks| > 1 && b.rightEdge < l && r < blocks[1].leftEdge {
        assert after[1..] == [Block(l, r)] + rest && after[1..][1..] == rest;
      } else {
        PlaceDisjoint(rest, l, r);
        PlaceStaysClear(rest, l, r, b);
        assert after[1..] == Place(Straight, rest, l, r);
      }
    }
  }

  lemma PlaceStaysClear(blocks: seq<Block>, l: int, r: int, b: Block)
    requires l < r && WellFormed(blocks) && b.leftEdge < b.rightEdge
    requires Clear(blocks, b.leftEdge, b.rightEdge) && (r <= b.leftEdge || b.rightEdge <= l)
    ensures Clear(Place(Straight, blocks, l, r), b.leftEdge, b.rightEdge)
  {
    PlaceWellFormed(blocks, l, r);
    ClearIffUncovered(blocks, b.leftEdge, b.rightEdge);
    ClearIffUncovered(Place(Straight, blocks, l, r), b.leftEdge, b.rightEdge);
    forall n | b.leftEdge <= n < b.rightEdge ensures !Covers(Place(Straight, blocks, l, r), n) {
      PlaceCovers(blocks, l, r, n);
    }
  }

  /** Every edge of every block is one of the given numbers. */
  predicate EdgesIn(blocks: seq<Block>, edges: iset<int>) {
    forall b :: b in blocks ==> b.leftEdge in edges && b.rightEdge in edges
  }

  lemma {:induction false} PlaceEdges(blocks: seq<Block>, l: int, r: int, edges: iset<int>)
    requires EdgesIn(blocks, edges) && l in edges && r in edges
    ensures EdgesIn(Place(Straight, blocks, l, r), edges)
  {
    if blocks != [] {
      PlaceEdges(blocks[1..], l, r, edges);
      assert blocks[0] in blocks;
      if |blocks| > 1 {
        assert blocks[1] in blocks;
      }
    }
  }

  predicate AllAtOrAbove(blocks: seq<Block>, floor: int) {
    forall b :: b in blocks ==> floor <= b.leftEdge
  }

  lemma {:induction false} PlaceAbove(blocks: seq<Block>, l: int, r: int, floor: int)
    requires AllAtOrAbove(blocks, floor) && floor <= l
    ensures AllAtOrAbove(Place(Straight, blocks, l, r), floor)
  {
    if blocks != [] {
      PlaceAbove(blocks[1..], l, r, floor);
      assert blocks[0] in blocks;
    }
  }

  /** A block list that is sound for its acknowledgment number, sorted or not. */
  predicate Sound(s: AckState, edges: iset<int>) {
    && WellFormed(s.blocks) && Disjoint(s.blocks) && EdgesIn(s.blocks, edges)
    && s.ack in edges && AllAtOrAbove(s.blocks, s.ack)
  }

  /** The update keeps blocks disjoint, on known edges and above the acknowledgment number, in any order. */
  lemma UpdateSound(s: AckState, start: int, len: nat, edges: iset<int>)
    requires Sound(s, edges) && start >= s.ack && len > 0 && Clear(s.blocks, start, start + len)
    requires start in edges && start + len in edges
    ensures Sound(Update(Straight, s, start, len), edges)
    ensures Update(Straight, s, start, len).ack >= s.ack
  {
    var t := Update(Straight, s, start, len);
    if start == s.ack {
      if s.blocks != [] {
        var b := s.blocks[0];
        assert b in s.blocks && s.blocks == [b] + s.blocks[1..];
      }
    } else {
      PlaceWellFormed(s.blocks, start, start + len);
      PlaceDisjoint(s.blocks, start, start + len);
      PlaceEdges(s.blocks, start, start + len, edges);
      PlaceAbove(s.blocks, start, start + len, s.ack);
    }
  }

  lemma {:induction false} TrimKeeps(blocks: seq<Block>, ack: int)
    ensures forall b :: b in Trim(blocks, ack) <==> b in blocks && b.leftEdge > ack
  {
    if blocks != [] {
      TrimKeeps(blocks[1..], ack);
      assert blocks == [blocks[0]] + blocks[1..];
    }
  }

  /** p is q with some elements left out. */
  predicate Subsequence(p: seq<Block>, q: seq<Block>)
    decreases q
  {
    p == [] ||
    (q != [] && if p[0] == q[0] then Subsequence(p[1..], q[1..]) else Subsequence(p, q[1..]))
  }

  /** The trim keeps the order, and of every block all occurrences or none. */
  lemma {:induction false} TrimIsFilter(blocks: seq<Block>, ack: int)
    ensures Subsequence(Trim(blocks, ack), blocks)
    ensures forall b :: multiset(Trim(blocks, ack))[b] == if b.leftEdge > ack then multiset(blocks)[b] else 0
  {
    if blocks != [] {
      TrimIsFilter(blocks[1..], ack);
      TrimKeeps(blocks, ack);
      var rest := Trim(blocks[1..], ack);
      assert blocks == [blocks[0]] + blocks[1..];
      if blocks[0].leftEdge > ack {
        assert Trim(blocks, ack)[1..] == rest;
      } else if rest != [] {
        assert rest[0] in rest;
      }
    }
  }

  lemma {:induction false} TrimDisjoint(blocks: seq<Block>, ack: int)
    requires Disjoint(blocks)
    ensures Disjoint(Trim(blocks, ack))
  {
    if blocks != [] {
      TrimKeeps(blocks[1..], ack);
      TrimDisjoint(blocks[1..], ack);
      if blocks[0].leftEdge > ack {
        assert Trim(blocks, ack)[1..] == Trim(blocks[1..], ack);
      }
    }
  }

  // ----- Where a range goes, in a list of any order -----

  predicate Contained(b: Block, l: int, r: int) {
    b.leftEdge <= l && r <= b.rightEdge
  }

  /** The range lies between block j and its successor and touches neither. */
  predicate InGap(blocks: seq<Block>, j: nat, l: int, r: int)
    requires j < |blocks|
  {
    j + 1 < |blocks| && blocks[j].rightEdge < l && r < blocks[j + 1].leftEdge
  }

  /** Block j decides what becomes of the range. */
  predicate Decides(blocks: seq<Block>, j: nat, l: int, r: int)
    requires j < |blocks|
  {
    || Contained(blocks[j], l, r) || l == blocks[j].rightEdge || r == blocks[j].leftEdge
    || InGap(blocks, j, l, r)
  }

  /** j is the first block that decides, or the length of the list if none does. */
  predicate FirstToDecide(blocks: seq<Block>, j: nat, l: int, r: int) {
    && j <= |blocks| && (j < |blocks| ==> Decides(blocks, j, l, r))
    && forall i :: 0 <= i < j ==> !Decides(blocks, i, l, r)
  }

  /** What block j, the first to decide, makes of the range [l, r). */
  predicate Outcome(blocks: seq<Block>, j: nat, l: int, r: int, after: seq<Block>)
    requires j <= |blocks|
  {
    if j == |blocks| then
      after == blocks + [Block(l, r)]
    else if Contained(blocks[j], l, r) then
      after == blocks
    else if l == blocks[j].rightEdge then
      if j + 1 < |blocks| && r == blocks[j + 1].leftEdge then
        after == blocks[..j] + [Block(blocks[j].leftEdge, blocks[j + 1].rightEdge)] + blocks[j + 2..]
      else
        after == blocks[j := Block(blocks[j].leftEdge, r)]
    else if r == blocks[j].leftEdge then
      after == blocks[j := Block(l, blocks[j].rightEdge)]
    else
      after == blocks[..j + 1] + [Block(l, r)] + blocks[j + 1..]
  }

  /**
   For any list, sorted or not: the first block that contains the range, touches it, or has it in the gap
   behind decides. It extends that block, merging it with its successor if the range closes the gap between
   them, or the range becomes a block of its own right behind it, or at the end if no block decides.
   */
  lemma {:induction false} PlaceExactly(blocks: seq<Block>, l: int, r: int, j: nat)
    requires FirstToDecide(blocks, j, l, r)
    ensures Outcome(blocks, j, l, r, Place(Straight, blocks, l, r))
    decreases blocks
  {
    if j == 0 {
      assert blocks != [] ==> blocks == [blocks[0]] + blocks[1..];
    } else {
      var rest := blocks[1..];
      assert !Decides(blocks, 0, l, r);
      assert Place(Straight, blocks, l, r) == [blocks[0]] + Place(Straight, rest, l, r);
      hide Place, Outcome;
      assert forall i :: 0 <= i < |rest| ==> (Decides(rest, i, l, r) <==> Decides(blocks, i + 1, l, r));
      PlaceExactly(rest, l, r, j - 1);
      OutcomeBehind(blocks[0], rest, j - 1, l, r, Place(Straight, rest, l, r));
      assert blocks == [blocks[0]] + rest;
    }
  }

  lemma OutcomeBehind(b: Block, rest: seq<Block>, j: nat, l: int, r: int, after: seq<Block>)
    requires j <= |rest| && Outcome(rest, j, l, r, after)
    ensures Outcome([b] + rest, j + 1, l, r, [b] + after)
  {
    assert ([b] + rest)[..j + 1] == [b] + rest[..j];
    if j < |rest| {
      assert ([b] + rest)[..j + 2] == [b] + rest[..j + 1] && ([b] + rest)[j + 2..] == rest[j + 1..];
      assert j + 1 < |rest| ==> ([b] + rest)[j + 3..] == rest[j + 2..];
    }
  }

  /** Some block is always the first to decide, or none is. */
  lemma {:induction false} SomeDecides(blocks: seq<Block>, l: int, r: int, from: nat) returns (j: nat)
    requires from <= |blocks| && forall i :: 0 <= i < from ==> !Decides(blocks, i, l, r)
    ensures FirstToDecide(blocks, j, l, r)
    decreases |blocks| - from
  {
    if from == |blocks| || Decides(blocks, from, l, r) {
      j := from;
    } else {
      j := SomeDecides(blocks, l, r, from + 1);
    }
  }

  /** The range shares no byte with any block and touches none. */
  predicate Separate(blocks: seq<Block>, l: int, r: int) {
    forall b :: b in blocks ==> r < b.leftEdge || b.rightEdge < l
  }

  /** i is the least index whose gap in front holds the range, or the length of the list. */
  predicate FirstGap(blocks: seq<Block>, i: nat, l: int, r: int) {
    && 0 < i <= |blocks| && (i < |blocks| ==> InGap(blocks, i - 1, l, r))
    && forall j :: 0 <= j < i - 1 ==> !InGap(blocks, j, l, r)
  }

  /** A separate range becomes a block of its own in the first gap that holds it, or else at the end. */
  lemma {:induction false} SeparateIsInserted(blocks: seq<Block>, l: int, r: int, i: nat)
    requires l < r && WellFormed(blocks) && Separate(blocks, l, r) && blocks != [] && FirstGap(blocks, i, l, r)
    ensures Place(Straight, blocks, l, r) == blocks[..i] + [Block(l, r)] + blocks[i..]
  {
    forall j | 0 <= j < |blocks| ensures Decides(blocks, j, l, r) <==> InGap(blocks, j, l, r) {
      assert blocks[j] in blocks;
    }
    var first := if i < |blocks| then i - 1 else i;
    PlaceExactly(blocks, l, r, first);
    if i < |blocks| {
      assert blocks[first] in blocks;
    } else {
      assert blocks[..i] == blocks && blocks[i..] == [];
    }
  }

  /** In particular behind a detached packet: [4, 5), [2, 3) and then [6, 7). */
  lemma UnsortedAppends()
    ensures Place(Straight, [Block(4, 5), Block(2, 3)], 6, 7) == [Block(4, 5), Block(2, 3), Block(6, 7)]
  {
    SeparateIsInserted([Block(4, 5), Block(2, 3)], 6, 7, 2);
  }

  // ----- Canonical form -----

  /** Strictly ascending, a gap before every block, the first gap right after `floor`. */
  predicate Canonical(floor: int, blocks: seq<Block>)
    decreases blocks
  {
    blocks != [] ==>
      floor < blocks[0].leftEdge < blocks[0].rightEdge && Canonical(blocks[0].rightEdge, blocks[1..])
  }

  /** The range lies in the gap before block 0 and touches neither side of that gap. */
  predicate DetachedInFirstHole(floor: int, blocks: seq<Block>, l: int, r: int) {
    blocks != [] && floor < l && r < blocks[0].leftEdge
  }

  lemma {:induction false} CanonicalFloor(floor: int, blocks: seq<Block>)
    requires Canonical(floor, blocks)
    ensures forall b :: b in blocks ==> floor < b.leftEdge < b.rightEdge
    decreases blocks
  {
    if blocks != [] {
      CanonicalFloor(blocks[0].rightEdge, blocks[1..]);
      assert blocks == [blocks[0]] + blocks[1..];
    }
  }

  lemma {:induction false} PlaceCanonical(floor: int, blocks: seq<Block>, l: int, r: int)
    requires Canonical(floor, blocks) && floor < l < r && Clear(blocks, l, r)
    requires !DetachedInFirstHole(floor, blocks, l, r)
    ensures Canonical(floor, Place(Straight, blocks, l, r))
    decreases blocks
  {
    if blocks == [] {
    } else {
      var b, rest := blocks[0], blocks[1..];
      assert b in blocks;
      assert r == b.leftEdge || b.rightEdge <= l;
      if |blocks| > 1 {
        assert rest[0] == blocks[1] && rest[1..] == blocks[2..] && blocks[1] in blocks;
      }
      if b.rightEdge < l && !(|blocks| > 1 && r < blocks[1].leftEdge) {
        PlaceCanonical(b.rightEdge, rest, l, r);
        assert ([b] + Place(Straight, rest, l, r))[1..] == Place(Straight, rest, l, r);
      }
    }
  }

  lemma {:induction false} DetachedIsAppended(blocks: seq<Block>, l: int, r: int)
    requires l < r && forall b :: b in blocks ==> r < b.leftEdge < b.rightEdge
    ensures Place(Straight, blocks, l, r) == blocks + [Block(l, r)]
  {
    if blocks != [] {
      assert blocks[0] in blocks;
      if |blocks| > 1 {
        assert blocks[1] in blocks;
      }
      DetachedIsAppended(blocks[1..], l, r);
    }
  }

  lemma CanonicalFromHead(floor: int, blocks: seq<Block>)
    requires blocks != [] && Canonical(floor, blocks)
    ensures forall b :: b in blocks ==> blocks[0].leftEdge <= b.leftEdge < b.rightEdge
  {
    CanonicalFloor(blocks[0].rightEdge, blocks[1..]);
    assert blocks == [blocks[0]] + blocks[1..];
    forall b | b in blocks ensures blocks[0].leftEdge <= b.leftEdge < b.rightEdge {
      assert b == blocks[0] || b in blocks[1..];
    }
  }

  lemma {:induction false} AppendedIsUnsorted(floor: int, blocks: seq<Block>, l: int, r: int)
    requires blocks != [] && l < blocks[0].rightEdge
    ensures !Canonical(floor, blocks + [Block(l, r)])
    decreases blocks
  {
    var after := blocks + [Block(l, r)];
    assert after[1..] == blocks[1..] + [Block(l, r)];
    if |blocks| > 1 && l < blocks[1].rightEdge {
      AppendedIsUnsorted(blocks[0].rightEdge, blocks[1..], l, r);
    }
  }

  predicate CanonicalState(s: AckState) {
    Canonical(s.ack, s.blocks)
  }

  /**
   Sortedness is kept exactly when the new range does not sit detached inside the first hole;
   such a range is appended behind larger ones.
   */
  lemma CanonicalKeptIff(s: AckState, start: int, len: nat)
    requires CanonicalState(s) && start >= s.ack && len > 0 && Clear(s.blocks, start, start + len)
    ensures CanonicalState(Update(Straight, s, start, len))
            <==> !DetachedInFirstHole(s.ack, s.blocks, start, start + len)
  {
    CanonicalFloor(s.ack, s.blocks);
    if start == s.ack {
      if s.blocks != [] {
        assert s.blocks[0] in s.blocks;
      }
    } else if DetachedInFirstHole(s.ack, s.blocks, start, start + len) {
      CanonicalFromHead(s.ack, s.blocks);
      DetachedIsAppended(s.blocks, start, start + len);
      AppendedIsUnsorted(s.ack, s.blocks, start, start + len);
    } else {
      PlaceCanonical(s.ack, s.blocks, start, start + len);
    }
  }

  // ----- The reference: recompute everything from the set of received bytes -----

  /** First byte at or after n that has not been received. */
  function FirstMissing(received: set<int>, n: int, top: int): (m: int)
    requires n <= top
    ensures n <= m <= top
    ensures forall k :: n <= k < m ==> k in received
    ensures m == top || m !in received
    decreases top - n
  {
    if n < top && n in received then FirstMissing(received, n + 1, top) else n
  }

  /** The maximal runs of received bytes in [n, top). */
  function MaximalRuns(received: set<int>, n: int, top: int): seq<Block>
    requires n <= top
    decreases top - n
  {
    if n == top then []
    else if n in received then
      var m := FirstMissing(received, n, top);
      [Block(n, m)] + MaximalRuns(received, m, top)
    else MaximalRuns(received, n + 1, top)
  }

  function Recompute(received: set<int>, ack: int, top: int): AckState
    requires ack <= top
  {
    var m := FirstMissing(received, ack, top);
    AckState(m, MaximalRuns(received, m, top))
  }

  lemma {:induction false} MaximalRunsCanonical(received: set<int>, floor: int, n: int, top: int)
    requires floor < n <= top || (floor <= n <= top && n !in received)
    requires top !in received
    ensures Canonical(floor, MaximalRuns(received, n, top))
    decreases top - n
  {
    if n < top {
      if n in received {
        var m := FirstMissing(received, n, top);
        MaximalRunsCanonical(received, m, m, top);
        assert ([Block(n, m)] + MaximalRuns(received, m, top))[1..] == MaximalRuns(received, m, top);
      } else {
        MaximalRunsCanonical(received, floor, n + 1, top);
      }
    }
  }

  lemma {:induction false} MaximalRunsCover(received: set<int>, n: int, top: int, k: int)
    requires n <= top
    ensures Covers(MaximalRuns(received, n, top), k) <==> n <= k < top && k in received
    decreases top - n
  {
    if n < top {
      if n in received {
        var m := FirstMissing(received, n, top);
        MaximalRunsCover(received, m, top, k);
        CoversHead(Block(n, m), MaximalRuns(received, m, top), k);
      } else {
        MaximalRunsCover(received, n + 1, top, k);
      }
    }
  }

  lemma {:induction false} CoversAboveFloor(floor: int, blocks: seq<Block>, n: int)
    requires Canonical(floor, blocks) && Covers(blocks, n)
    ensures floor < n
    decreases blocks
  {
    if !Within(n, blocks[0]) {
      CoversAboveFloor(blocks[0].rightEdge, blocks[1..], n);
    }
  }

  /** A canonical list is determined by the bytes it covers. */
  lemma {:induction false} CanonicalUnique(f: int, xs: seq<Block>, g: int, ys: seq<Block>)
    requires Canonical(f, xs) && Canonical(g, ys)
    requires forall n :: Covers(xs, n) <==> Covers(ys, n)
    ensures xs == ys
    decreases xs
  {
    if xs == [] || ys == [] {
      if xs != [] {
        assert Covers(xs, xs[0].leftEdge);
      }
      if ys != [] {
        assert Covers(ys, ys[0].leftEdge);
      }
    } else {
      HeadsEqual(f, xs, g, ys);
      forall n ensures Covers(xs[1..], n) <==> Covers(ys[1..], n) {
        assert Covers(xs, n) <==> Covers(ys, n);
        if Covers(xs[1..], n) {
          CoversAboveFloor(xs[0].rightEdge, xs[1..], n);
        }
        if Covers(ys[1..], n) {
          CoversAboveFloor(ys[0].rightEdge, ys[1..], n);
        }
      }
      CanonicalUnique(xs[0].rightEdge, xs[1..], ys[0].rightEdge, ys[1..]);
      assert xs == [xs[0]] + xs[1..] && ys == [ys[0]] + ys[1..];
    }
  }

  lemma CoversFromHead(f: int, xs: seq<Block>, n: int)
    requires xs != [] && Canonical(f, xs) && n <= xs[0].rightEdge
    ensures Covers(xs, n) <==> Within(n, xs[0])
  {
    if Covers(xs[1..], n) {
      CoversAboveFloor(xs[0].rightEdge, xs[1..], n);
    }
  }

  lemma HeadsEqual(f: int, xs: seq<Block>, g: int, ys: seq<Block>)
    requires xs != [] && ys != [] && Canonical(f, xs) && Canonical(g, ys)
    requires forall n :: Covers(xs, n) <==> Covers(ys, n)
    ensures xs[0] == ys[0]
  {
    var x, y := xs[0], ys[0];
    hide Covers;
    forall n | n <= x.rightEdge ensures Covers(xs, n) <==> Within(n, x) { CoversFromHead(f, xs, n); }
    forall n | n <= y.rightEdge ensures Covers(ys, n) <==> Within(n, y) { CoversFromHead(g, ys, n); }
    var least := if x.leftEdge < y.leftEdge then x.leftEdge else y.leftEdge;
    assert Covers(xs, least) <==> Covers(ys, least);
    var stop := if x.rightEdge < y.rightEdge then x.rightEdge else y.rightEdge;
    assert Covers(xs, stop) <==> Covers(ys, stop);
  }

  /** In a canonical state the acknowledgment number is the first missing byte. */
  lemma CanonicalAckIsMissing(s: AckState)
    requires CanonicalState(s)
    ensures !Covers(s.blocks, s.ack)
  {
    if Covers(s.blocks, s.ack) {
      CoversAboveFloor(s.ack, s.blocks, s.ack);
    }
  }

  /**
   The incremental edit equals recomputing the acknowledgment number and the maximal runs from
   the received bytes, for every packet that does not sit detached inside the first hole.
   */
  lemma UpdateIsRecompute(s: AckState, start: int, len: nat, received: set<int>, top: int)
    requires CanonicalState(s) && start >= s.ack && len > 0 && Clear(s.blocks, start, start + len)
    requires !DetachedInFirstHole(s.ack, s.blocks, start, start + len)
    requires s.ack <= top && top !in received
    requires forall n :: s.ack <= n ==> (n in received <==> Covers(s.blocks, n) || start <= n < start + len)
    requires forall n :: n in received ==> n < top
    ensures Update(Straight, s, start, len) == Recompute(received, s.ack, top)
  {
    var t := Update(Straight, s, start, len);
    CanonicalKeptIff(s, start, len);
    CanonicalFloor(s.ack, s.blocks);
    forall n ensures Acked(t, n) <==> n < s.ack || n in received {
      UpdateConservesCoverage(s, start, len, n);
      if n < s.ack && Covers(s.blocks, n) {
        CoversAboveFloor(s.ack, s.blocks, n);
      }
    }
    CanonicalAckIsMissing(t);
    assert Acked(t, t.ack) <==> t.ack < s.ack || t.ack in received;
    var m := FirstMissing(received, s.ack, top);
    AckGrows(s, start, len);
    assert Acked(t, m) <==> m in received;
    assert t.ack == m;
    MaximalRunsCanonical(received, m, m, top);
    forall n ensures Covers(t.blocks, n) <==> Covers(MaximalRuns(received, m, top), n) {
      MaximalRunsCover(received, m, top, n);
      assert Acked(t, n) <==> n < s.ack || n in received;
      if Covers(t.blocks, n) {
        CoversAboveFloor(t.ack, t.blocks, n);
      }
    }
    CanonicalUnique(m, t.blocks, m, MaximalRuns(received, m, top));
  }

  lemma AckGrows(s: AckState, start: int, len: nat)
    requires WellFormed(s.blocks) && start >= s.ack
    ensures Update(Straight, s, start, len).ack >= s.ack
  {
    if s.blocks != [] {
      assert s.blocks[0] in s.blocks;
    }
  }
}
