/**
 The option area as RFC 9293, section 3.1, describes it: a list of kind-length-value options and
 no-operation bytes. What Marshal writes is such a list, and Unmarshal reads every such list.
 */
module OptionFormat {
  import opened Bytes
  import opened Checksum
  import opened Sack
  import opened Codec
  import opened Decoder

  // Kinds of RFC 9293, RFC 2018 and RFC 7323.
  const MAXIMUM_SEGMENT_SIZE: byte := 2
  const WINDOW_SCALE: byte := 3
  const SACK_PERMITTED: byte := 4
  const SACK: byte := 5
  const TIMESTAMPS: byte := 8

  datatype Item = NoOperation | Item(kind: byte, value: seq<byte>)

  /** An option Unmarshal can step over; the value of a SACK option is a list of blocks. */
  predicate Formed(t: Item) {
    t.Item? ==> t.kind > 1 && |t.value| <= 253 && (t.kind == SACK ==> |t.value| % 8 == 0)
  }

  predicate AllFormed(ts: seq<Item>) {
    forall i :: 0 <= i < |ts| ==> Formed(ts[i])
  }

  function ItemBytes(t: Item): (s: seq<byte>)
    requires Formed(t)
    ensures s != []
  {
    if t.NoOperation? then [1] else [t.kind, 2 + |t.value|] + t.value
  }

  function ListBytes(ts: seq<Item>): seq<byte>
    requires AllFormed(ts)
  {
    if ts == [] then [] else ItemBytes(ts[0]) + ListBytes(ts[1..])
  }

  // ----- Reading -----

  /** The blocks of a SACK value: pairs of big-endian edges. */
  function BlocksIn(value: seq<byte>): seq<WireBlock>
    requires |value| % 8 == 0
  {
    if value == [] then [] else [Block(Get32(value, 0), Get32(value, 4))] + BlocksIn(value[8..])
  }

  /** What an option says, if its length is the one its kind prescribes. */
  function Understood(o: Options, t: Item): Options
    requires Formed(t)
  {
    if t.NoOperation? then o
    else if t.kind == WINDOW_SCALE && |t.value| == 1 then o.(windowScale := t.value[0])
    else if t.kind == MAXIMUM_SEGMENT_SIZE && |t.value| == 2 then o.(mss := Get16(t.value, 0))
    else if t.kind == SACK_PERMITTED && t.value == [] then o.(permitSack := true)
    else if t.kind == SACK then o.(inBlocks := o.inBlocks + BlocksIn(t.value))
    else if t.kind == TIMESTAMPS && |t.value| == 8 then
      o.(timestampEnabled := true, timestamp := Get32(t.value, 0), tsEcho := Get32(t.value, 4))
    else o
  }

  /** All of them, from the first to the last. */
  function AllUnderstood(o: Options, ts: seq<Item>): Options
    requires AllFormed(ts)
    decreases ts
  {
    if ts == [] then o else AllUnderstood(Understood(o, ts[0]), ts[1..])
  }

  lemma {:induction false} BlocksInAppend(s: seq<byte>, t: seq<byte>)
    requires |s| % 8 == 0 && |t| % 8 == 0
    ensures BlocksIn(s + t) == BlocksIn(s) + BlocksIn(t)
    decreases s
  {
    hide Get32;
    if s == [] {
      assert s + t == t;
    } else {
      BlocksInAppend(s[8..], t);
      assert (s + t)[8..] == s[8..] + t;
      FirstEdges(s, t);
    }
  }

  lemma FirstEdges(s: seq<byte>, t: seq<byte>)
    requires |s| >= 8
    ensures Get32(s + t, 0) == Get32(s, 0) && Get32(s + t, 4) == Get32(s, 4)
  {
  }

  lemma {:induction false} ParseIsBlocksIn(s: seq<byte>, n: nat)
    requires |s| == 8 * n
    ensures ParseBlocks(s, n) == BlocksIn(s)
  {
    if n > 0 {
      hide Get32;
      var init, last := s[..8 * (n - 1)], s[8 * (n - 1)..];
      ParseIsBlocksIn(init, n - 1);
      assert s == init + last && last[8..] == [];
      BlocksInAppend(init, last);
      LastEdges(s, n);
      assert BlocksIn(last) == [Block(Get32(last, 0), Get32(last, 4))];
    }
  }

  lemma LastEdges(s: seq<byte>, n: nat)
    requires |s| == 8 * n && n > 0
    ensures Get32(s[8 * (n - 1)..], 0) == Get32(s, 8 * (n - 1))
    ensures Get32(s[8 * (n - 1)..], 4) == Get32(s, 8 * (n - 1) + 4)
  {
  }

  lemma ReadItem(t: Item, rest: seq<byte>, o: Options)
    requires Formed(t) && t.Item?
    ensures var s := ItemBytes(t) + rest;
            !StuckAt(s) && Skip(s) == |ItemBytes(t)| && ApplyOption(s, o) == Understood(o, t)
  {
    var s := ItemBytes(t) + rest;
    assert s[2..2 + |t.value|] == t.value;
    if t.kind == SACK {
      hide ParseBlocks, BlocksIn, Get32;
      ParseIsBlocksIn(t.value, |t.value| / 8);
      if t.value == [] {
        NoBlocks(o);
      }
    } else {
      assert |t.value| == 2 ==> Get16(s, 2) == Get16(t.value, 0);
      assert |t.value| == 8 ==> Get32(s, 2) == Get32(t.value, 0) && Get32(s, 6) == Get32(t.value, 4);
    }
  }

  lemma NoBlocks(o: Options)
    ensures o.(inBlocks := o.inBlocks + BlocksIn([])) == o
  {
    assert o.inBlocks + [] == o.inBlocks;
  }

  /**
   Unmarshal reads every well-formed option area, in any order, with unknown kinds and repetitions: each
   option whose length fits its kind takes effect, from the first to the last.
   */
  lemma {:induction false} ScanReadsAll(ts: seq<Item>, o: Options)
    requires AllFormed(ts)
    ensures Scan(ListBytes(ts), o) == Done(AllUnderstood(o, ts))
    decreases ts
  {
    if ts != [] {
      var t, rest := ts[0], ListBytes(ts[1..]);
      var s := ItemBytes(t) + rest;
      hide StuckAt, ApplyOption, Understood;
      if t.NoOperation? {
        ReadNop(rest, o);
      } else {
        ReadItem(t, rest, o);
        assert s[|ItemBytes(t)|..] == rest;
        assert Scan(s, o) == Scan(rest, Understood(o, t));
      }
      ScanReadsAll(ts[1..], Understood(o, t));
    }
  }

  lemma ReadNop(rest: seq<byte>, o: Options)
    ensures Scan([1] + rest, o) == Scan(rest, o) && Understood(o, NoOperation) == o
  {
    var s: seq<byte> := [1] + rest;
    if |s| >= 2 {
      assert s[1..] == rest && !StuckAt(s);
    }
  }

  // ----- Writing -----

  function EdgeBytes(blocks: seq<WireBlock>): (s: seq<byte>)
    ensures |s| == 8 * |blocks|
  {
    if blocks == [] then [] else BE32(blocks[0].leftEdge) + BE32(blocks[0].rightEdge) + EdgeBytes(blocks[1..])
  }

  /** The options Marshal sends, in its order. */
  function Sent(p: Packet, clock: U32): seq<Item> {
    var o := p.options;
    (if !p.isOpen && o.windowScale > 0 then [Item(WINDOW_SCALE, [o.windowScale])] else [])
    + (if !p.isOpen && o.mss > 0 then [Item(MAXIMUM_SEGMENT_SIZE, BE16(o.mss))] else [])
    + (if !p.isOpen && o.permitSack then [Item(SACK_PERMITTED, [])] else [])
    + (if SendsSack(p) then [Item(SACK, EdgeBytes(o.outBlocks))] else [])
    + (if o.timestampEnabled then [Item(TIMESTAMPS, BE32(clock) + BE32(o.tsEcho))] else [])
  }

  lemma Associates(x: seq<byte>, y: seq<byte>, z: seq<byte>)
    ensures x + (y + z) == (x + y) + z
  {
  }

  lemma {:induction false} EdgesAreBlocks(blocks: seq<WireBlock>, more: seq<WireBlock>)
    ensures EdgeBytes(blocks + more) == EdgeBytes(blocks) + EdgeBytes(more)
    decreases blocks
  {
    hide BE32;
    if blocks == [] {
      assert blocks + more == more;
    } else {
      EdgesAreBlocks(blocks[1..], more);
      assert (blocks + more)[1..] == blocks[1..] + more && (blocks + more)[0] == blocks[0];
      var head := BE32(blocks[0].leftEdge) + BE32(blocks[0].rightEdge);
      assert EdgeBytes(blocks + more) == head + EdgeBytes(blocks[1..] + more);
      Associates(head, EdgeBytes(blocks[1..]), EdgeBytes(more));
    }
  }

  lemma {:induction false} BlocksWrittenInOrder(blocks: seq<WireBlock>)
    ensures BlockBytes(blocks) == EdgeBytes(blocks)
    decreases blocks
  {
    if blocks != [] {
      hide BE32;
      var init, last := blocks[..|blocks| - 1], blocks[|blocks| - 1];
      BlocksWrittenInOrder(init);
      EdgesAreBlocks(init, [last]);
      assert blocks == init + [last];
      assert EdgeBytes([last]) == BE32(last.leftEdge) + BE32(last.rightEdge) + EdgeBytes([]);
    }
  }

  lemma {:induction false} ListAppend(x: seq<Item>, y: seq<Item>)
    requires AllFormed(x) && AllFormed(y)
    ensures AllFormed(x + y) && ListBytes(x + y) == ListBytes(x) + ListBytes(y)
    decreases x
  {
    hide ItemBytes, Formed;
    if x == [] {
      assert x + y == y;
    } else {
      ListAppend(x[1..], y);
      assert (x + y)[1..] == x[1..] + y;
    }
  }

  lemma OneItem(t: Item)
    requires Formed(t)
    ensures AllFormed([t]) && ListBytes([t]) == ItemBytes(t)
  {
    assert ListBytes([t][1..]) == [];
  }

  /** The fields of an option area as separate lists. */
  lemma FieldBytes(p: Packet, clock: U32)
    requires BlocksFit(p)
    ensures var o := p.options;
            && (!p.isOpen && o.windowScale > 0 ==>
                  WindowScaleBytes(p) == ItemBytes(Item(WINDOW_SCALE, [o.windowScale])))
            && (!p.isOpen && o.mss > 0 ==> MssBytes(p) == ItemBytes(Item(MAXIMUM_SEGMENT_SIZE, BE16(o.mss))))
            && (!p.isOpen && o.permitSack ==> PermitBytes(p) == ItemBytes(Item(SACK_PERMITTED, [])))
            && (SendsSack(p) ==>
                  |o.outBlocks| <= 4 && SackBytes(p) == ItemBytes(Item(SACK, EdgeBytes(o.outBlocks))))
            && (o.timestampEnabled ==>
                  TimestampBytes(p, clock) == ItemBytes(Item(TIMESTAMPS, BE32(clock) + BE32(o.tsEcho))))
  {
    TimestampFits(p, clock);
    SackShape(p);
    BlocksWrittenInOrder(p.options.outBlocks);
    hide BE16, BE32, BlockBytes, EdgeBytes, BeforeTimestamp, SackBytes, TimestampBytes;
  }

  lemma Choose(on: bool, t: Item, bytes: seq<byte>)
    requires Formed(t) && bytes == if on then ItemBytes(t) else []
    ensures AllFormed(if on then [t] else []) && ListBytes(if on then [t] else []) == bytes
  {
    OneItem(t);
  }

  /** With SACK blocks that fit, the option area Marshal writes is this list, and nothing else. */
  lemma {:induction false} WrittenIsList(p: Packet, clock: U32)
    requires BlocksFit(p)
    ensures AllFormed(Sent(p, clock)) && Written(p, clock) == ListBytes(Sent(p, clock))
  {
    FieldBytes(p, clock);
    TimestampFits(p, clock);
    hide BE16, BE32, EdgeBytes, BlockBytes, ItemBytes, ListBytes, TimestampBytes;
    var o := p.options;
    var edges := EdgeBytes(if SendsSack(p) then o.outBlocks else []);
    var w, m := Item(WINDOW_SCALE, [o.windowScale]), Item(MAXIMUM_SEGMENT_SIZE, BE16(o.mss));
    var q := Item(SACK_PERMITTED, []);
    var k, t := Item(SACK, edges), Item(TIMESTAMPS, BE32(clock) + BE32(o.tsEcho));
    Choose(!p.isOpen && o.windowScale > 0, w, WindowScaleBytes(p));
    Choose(!p.isOpen && o.mss > 0, m, MssBytes(p));
    Choose(!p.isOpen && o.permitSack, q, PermitBytes(p));
    Choose(SendsSack(p), k, SackBytes(p));
    Choose(o.timestampEnabled, t, TimestampBytes(p, clock));
    hide WindowScaleBytes, MssBytes, PermitBytes, SackBytes, SendsSack;
    Joined(if !p.isOpen && o.windowScale > 0 then [w] else [], if !p.isOpen && o.mss > 0 then [m] else [],
           if !p.isOpen && o.permitSack then [q] else [], if SendsSack(p) then [k] else [],
           if o.timestampEnabled then [t] else []);
  }

  lemma Joined(a: seq<Item>, b: seq<Item>, c: seq<Item>, d: seq<Item>, e: seq<Item>)
    requires AllFormed(a) && AllFormed(b) && AllFormed(c) && AllFormed(d) && AllFormed(e)
    ensures AllFormed(a + b + c + d + e)
    ensures ListBytes(a + b + c + d + e) == ListBytes(a) + ListBytes(b) + ListBytes(c) + ListBytes(d) + ListBytes(e)
  {
    hide ListBytes, AllFormed;
    ListAppend(a, b);
    ListAppend(a + b, c);
    ListAppend(a + b + c, d);
    ListAppend(a + b + c + d, e);
  }

  function NoOperations(n: nat): (ts: seq<Item>)
    ensures |ts| == n && AllFormed(ts)
  {
    if n == 0 then [] else NoOperations(n - 1) + [NoOperation]
  }

  lemma {:induction false} PaddingIsList(n: nat)
    ensures ListBytes(NoOperations(n)) == Nops(n)
  {
    if n > 0 {
      PaddingIsList(n - 1);
      ListAppend(NoOperations(n - 1), [NoOperation]);
      OneItem(NoOperation);
    }
  }

  /** The whole option area: the options, and no-operation bytes up to the end of the header. */
  lemma {:induction false} AreaIsList(p: Packet, clock: U32)
    requires BlocksFit(p)
    ensures var ts := Sent(p, clock) + NoOperations(Padding(p));
            && AllFormed(ts) && Written(p, clock) + Nops(Padding(p)) == ListBytes(ts)
            && TCP_HEADER + |ListBytes(ts)| == HeaderLength(p)
  {
    WrittenIsList(p, clock);
    PaddingIsList(Padding(p));
    HeaderIsLeast(p, clock);
    HeaderParts(p);
    hide ListBytes, Sent, Written, Padding, HeaderLength, Nops, BlocksFit;
    ListAppend(Sent(p, clock), NoOperations(Padding(p)));
  }

  // ----- The outcome of Unmarshal -----

  /**
   Which error, in terms of the length and of the data offset in the upper half of byte 12; and otherwise
   every field from its place in the header of RFC 9293, section 3.1.
   */
  lemma {:induction false} OutcomeExactly(data: seq<byte>, src: Addr, dst: Addr)
    ensures Parse(data, src, dst) == TooShort <==> |data| < 20
    ensures Parse(data, src, dst) == NegativeOptions <==> |data| >= 20 && data[12] / 16 < 5
    ensures Parse(data, src, dst) == HeaderBeyondData
            <==> |data| >= 20 && data[12] / 16 >= 5 && 4 * (data[12] as int / 16) > |data|
    ensures Parse(data, src, dst).Ok? ==>
              var q, offset := Parse(data, src, dst).packet, 4 * (data[12] as int / 16);
              && 20 <= offset <= |data|
              && q.src == src && q.dst == dst
              && q.sourcePort == Get16(data, 0) && q.destinationPort == Get16(data, 2)
              && q.seqNum == Get32(data, 4) && q.ackNum == Get32(data, 8) && q.flags == data[13]
              && q.window == Get16(data, 14) && q.checksum == Get16(data, 16) && q.urgent == Get16(data, 18)
              && q.payload == data[offset..] && !q.isOpen
              && Scan(data[20..offset], NO_OPTIONS) == Done(q.options)
  {
    hide Scan, Get16, Get32;
  }
}
