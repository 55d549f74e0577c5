/** The wire format of lib/packet.go: Marshal into a reused buffer, Unmarshal, and how they fit together. */
module Codec {
  import opened Bytes
  import opened Checksum
  import opened Sack

  datatype Options = Options(
    windowScale: byte, mss: U16, permitSack: bool, sackEnabled: bool, timestampEnabled: bool,
    tsEcho: U32, timestamp: U32, inBlocks: seq<WireBlock>, outBlocks: seq<WireBlock>)

  const NO_OPTIONS: Options := Options(0, 0, false, false, false, 0, 0, [], [])

  datatype Packet = Packet(
    src: Addr, dst: Addr, sourcePort: U16, destinationPort: U16, seqNum: U32, ackNum: U32,
    window: U16, flags: byte, urgent: U16, checksum: U16, payload: seq<byte>,
    options: Options, isOpen: bool)

  const TCP_HEADER: nat := 20
  const MAX_OPTIONS: nat := 40

  // ----- What Marshal writes -----

  function WindowScaleBytes(p: Packet): seq<byte> {
    if !p.isOpen && p.options.windowScale > 0 then [3, 3, p.options.windowScale] else []
  }

  function MssBytes(p: Packet): seq<byte> {
    if !p.isOpen && p.options.mss > 0 then [2, 4] + BE16(p.options.mss) else []
  }

  function PermitBytes(p: Packet): seq<byte> {
    if !p.isOpen && p.options.permitSack then [4, 2] else []
  }

  predicate SendsSack(p: Packet) {
    p.isOpen && p.options.sackEnabled && p.options.outBlocks != []
  }

  function BlockBytes(blocks: seq<WireBlock>): (s: seq<byte>)
    ensures |s| == 8 * |blocks|
  {
    if blocks == [] then []
    else
      var last := blocks[|blocks| - 1];
      BlockBytes(blocks[..|blocks| - 1]) + (BE32(last.leftEdge) + BE32(last.rightEdge))
  }

  /** Only blocks that end before byte 60 of the frame are written: four, behind the 22 bytes in front. */
  function BlocksWritten(p: Packet): nat {
    if |p.options.outBlocks| < 4 then |p.options.outBlocks| else 4
  }

  function SackBytes(p: Packet): seq<byte> {
    if SendsSack(p) then
      [5, (2 + 8 * |p.options.outBlocks|) % 256] + BlockBytes(p.options.outBlocks[..BlocksWritten(p)])
    else []
  }

  function BeforeTimestamp(p: Packet): seq<byte> {
    WindowScaleBytes(p) + MssBytes(p) + PermitBytes(p) + SackBytes(p)
  }

  function TimestampBytes(p: Packet, clock: U32): seq<byte> {
    if p.options.timestampEnabled && |BeforeTimestamp(p)| + 10 < MAX_OPTIONS then
      [8, 10] + BE32(clock) + BE32(p.options.tsEcho)
    else []
  }

  function Written(p: Packet, clock: U32): seq<byte> {
    BeforeTimestamp(p) + TimestampBytes(p, clock)
  }

  /** The length Marshal computes beforehand, capped at 40; it counts every block and the timestamp. */
  function OptionsLength(p: Packet): nat {
    var wanted := |WindowScaleBytes(p)| + |MssBytes(p)| + |PermitBytes(p)|
      + (if SendsSack(p) then 2 + 8 * |p.options.outBlocks| else 0)
      + (if p.options.timestampEnabled then 10 else 0);
    if wanted > MAX_OPTIONS then MAX_OPTIONS else wanted
  }

  function Padding(p: Packet): nat {
    if OptionsLength(p) % 4 != 0 then 4 - OptionsLength(p) % 4 else 0
  }

  /** Always a multiple of 4 that the data offset field can hold. */
  function HeaderLength(p: Packet): (h: nat)
    ensures h % 4 == 0 && TCP_HEADER <= h <= 60
  {
    TCP_HEADER + OptionsLength(p) + Padding(p)
  }

  function Nops(n: nat): (s: seq<byte>)
    ensures |s| == n
  {
    if n == 0 then [] else Nops(n - 1) + [1]
  }

  /** The 20 fixed bytes. */
  function Fixed(p: Packet, checksum: U16): (s: seq<byte>)
    ensures |s| == TCP_HEADER
  {
    BE16(p.sourcePort) + BE16(p.destinationPort) + BE32(p.seqNum) + BE32(p.ackNum)
    + [HeaderLength(p) / 4 * 16, p.flags] + BE16(p.window) + BE16(checksum) + BE16(p.urgent)
  }

  /** Everything behind the fixed header; `stale` are the bytes of the header area Marshal leaves alone. */
  function Tail(p: Packet, clock: U32, stale: seq<byte>): seq<byte> {
    Written(p, clock) + stale + Nops(Padding(p)) + p.payload
  }

  /** How many bytes of the header area are not written. */
  function Gap(p: Packet): int {
    OptionsLength(p) - |BeforeTimestamp(p)| - |TimestampBytes(p, 0)|
  }

  /** RFC 2018: at most four SACK blocks, three next to a timestamp. */
  predicate BlocksFit(p: Packet) {
    SendsSack(p) ==> |p.options.outBlocks| <= if p.options.timestampEnabled then 3 else 4
  }

  /** The header area is fully written exactly when the blocks fit; otherwise six bytes of it are not. */
  lemma GapIffTooMany(p: Packet, clock: U32)
    ensures |Written(p, clock)| + Gap(p) == OptionsLength(p)
    ensures Gap(p) == if BlocksFit(p) then 0 else 6
    ensures !BlocksFit(p) ==> OptionsLength(p) == MAX_OPTIONS && Padding(p) == 0
  {
  }

  /** The header is the least multiple of 4 that holds the fixed part and the options. */
  lemma {:induction false} HeaderIsLeast(p: Packet, clock: U32)
    ensures HeaderLength(p) % 4 == 0 && 0 <= HeaderLength(p) - (TCP_HEADER + OptionsLength(p)) < 4
    ensures BlocksFit(p) ==> OptionsLength(p) == |Written(p, clock)|
  {
    GapIffTooMany(p, clock);
    hide Written, BlocksFit;
  }

  // ----- The frame -----

  function FrameLength(p: Packet): nat {
    HeaderLength(p) + |p.payload|
  }

  function PseudoOf(p: Packet, protocol: byte): (s: seq<byte>)
    requires p.src.IPv4? && p.dst.IPv4?
    ensures |s| == PSEUDO
  {
    PseudoHeader(p.src.value, p.dst.value, protocol, FrameLength(p) % 0x1_0000)
  }

  /** Pseudo-header and frame with the checksum field zero. */
  function Unsummed(p: Packet, clock: U32, protocol: byte, stale: seq<byte>): seq<byte>
    requires p.src.IPv4? && p.dst.IPv4?
  {
    PseudoOf(p, protocol) + Fixed(p, 0) + Tail(p, clock, stale)
  }

  /** The frame Marshal leaves behind the pseudo-header, given the bytes it did not overwrite. */
  function Frame(p: Packet, clock: U32, protocol: byte, stale: seq<byte>): seq<byte>
    requires p.src.IPv4? && p.dst.IPv4?
  {
    Fixed(p, ChecksumOf(Unsummed(p, clock, protocol, stale))) + Tail(p, clock, stale)
  }

  lemma TailLength(p: Packet, clock: U32, stale: seq<byte>)
    requires |stale| == Gap(p)
    ensures |Tail(p, clock, stale)| == OptionsLength(p) + Padding(p) + |p.payload|
  {
    GapIffTooMany(p, clock);
  }

  /** Every byte of the frame is determined by packet, clock and protocol exactly when the SACK blocks fit. */
  lemma {:induction false} FrameIndependentIff(p: Packet, clock: U32, protocol: byte)
    requires p.src.IPv4? && p.dst.IPv4?
    ensures (forall x, y :: |x| == Gap(p) && |y| == Gap(p) ==>
               Frame(p, clock, protocol, x) == Frame(p, clock, protocol, y))
            <==> BlocksFit(p)
  {
    GapIffTooMany(p, clock);
    if BlocksFit(p) {
      assert forall x: seq<byte> :: |x| == Gap(p) ==> x == [];
    } else {
      var x: seq<byte>, y: seq<byte> := [0, 0, 0, 0, 0, 0], [1, 1, 1, 1, 1, 1];
      StaleShows(p, clock, protocol, x);
      StaleShows(p, clock, protocol, y);
      assert |x| == Gap(p) && |y| == Gap(p);
      assert Frame(p, clock, protocol, x) != Frame(p, clock, protocol, y);
    }
  }

  /** The first stale byte is byte 54 of the frame. */
  lemma StaleShows(p: Packet, clock: U32, protocol: byte, stale: seq<byte>)
    requires p.src.IPv4? && p.dst.IPv4?
    requires !BlocksFit(p) && |stale| == 6
    ensures |Frame(p, clock, protocol, stale)| >= 60 && Frame(p, clock, protocol, stale)[54] == stale[0]
  {
    GapIffTooMany(p, clock);
    assert |Written(p, clock)| == 34;
    assert Tail(p, clock, stale)[34] == stale[0];
  }

  // ----- Marshal -----

  datatype MarshalResult =
    | Marshalled(length: nat)
    | BufferTooSmall
    | MissingAddress  // log.Fatal in the source

  /** a holds `done` from `base` on, otherwise what it held before; add bs behind it. */
  method Extend(a: array<byte>, ghost before: seq<byte>, base: nat, ghost done: seq<byte>, at: nat, bs: seq<byte>)
    returns (next: nat)
    requires |before| == a.Length && base + |done| + |bs| <= a.Length && at == base + |done|
    requires a[..] == Spliced(before, base, done)
    modifies a
    ensures a[..] == Spliced(before, base, done + bs)
    ensures next == base + |done + bs|
  {
    Put(a, at, bs);
    SplicedTwice(before, base, done, bs);
    next := at + |bs|;
  }

  method WriteFixed(a: array<byte>, p: Packet)
    requires PSEUDO + TCP_HEADER <= a.Length
    modifies a
    ensures a[..] == Spliced(old(a[..]), PSEUDO, Fixed(p, 0))
  {
    hide HeaderLength, BE16, BE32, Spliced;
    ghost var b := a[..];
    ghost var x: seq<byte> := BE16(p.sourcePort);
    Put(a, PSEUDO, BE16(p.sourcePort));
    var at := Extend(a, b, PSEUDO, x, PSEUDO + 2, BE16(p.destinationPort));
    x := x + BE16(p.destinationPort);
    at := Extend(a, b, PSEUDO, x, at, BE32(p.seqNum));
    x := x + BE32(p.seqNum);
    at := Extend(a, b, PSEUDO, x, at, BE32(p.ackNum));
    x := x + BE32(p.ackNum);
    at := Extend(a, b, PSEUDO, x, at, [HeaderLength(p) / 4 * 16, p.flags]);
    x := x + [HeaderLength(p) / 4 * 16, p.flags];
    at := Extend(a, b, PSEUDO, x, at, BE16(p.window));
    x := x + BE16(p.window);
    at := Extend(a, b, PSEUDO, x, at, BE16(0));
    x := x + BE16(0);
    at := Extend(a, b, PSEUDO, x, at, BE16(p.urgent));
  }

  /** The option writers, in the order of the source, with the moving option offset. */
  method WriteOptions(a: array<byte>, p: Packet, clock: U32) returns (at: nat)
    requires PSEUDO + HeaderLength(p) <= a.Length
    modifies a
    ensures a[..] == Spliced(old(a[..]), PSEUDO + TCP_HEADER, Written(p, clock))
    ensures at == PSEUDO + TCP_HEADER + |Written(p, clock)|
  {
    hide BE16, BE32, Spliced, BlockBytes;
    GapIffTooMany(p, clock);
    ghost var b := a[..];
    ghost var x: seq<byte> := [];
    var base := PSEUDO + TCP_HEADER;
    SplicedNothing(b, base);
    at := base;
    if !p.isOpen && p.options.windowScale > 0 {
      at := Extend(a, b, base, x, at, [3, 3, p.options.windowScale]);
    } else {
      assert x + WindowScaleBytes(p) == x;
    }
    x := x + WindowScaleBytes(p);
    if !p.isOpen && p.options.mss > 0 {
      at := Extend(a, b, base, x, at, [2, 4] + BE16(p.options.mss));
    } else {
      assert x + MssBytes(p) == x;
    }
    x := x + MssBytes(p);
    if !p.isOpen && p.options.permitSack {
      at := Extend(a, b, base, x, at, [4, 2]);
    } else {
      assert x + PermitBytes(p) == x;
    }
    x := x + PermitBytes(p);
    if p.isOpen && p.options.sackEnabled && |p.options.outBlocks| > 0 {
      at := WriteSack(a, b, p, x, at);
    } else {
      assert x + SackBytes(p) == x;
    }
    x := x + SackBytes(p);
    assert x == BeforeTimestamp(p);
    if p.options.timestampEnabled && at - PSEUDO + 10 < TCP_HEADER + MAX_OPTIONS {
      at := Extend(a, b, base, x, at, [8, 10] + BE32(clock) + BE32(p.options.tsEcho));
    } else {
      assert x + TimestampBytes(p, clock) == x;
    }
  }

  lemma SplicedNothing(s: seq<byte>, at: nat)
    requires at <= |s|
    ensures Spliced(s, at, []) == s
  {
  }

  /** The SACK option; the loop stops at the first block that would reach byte 60. */
  method WriteSack(a: array<byte>, ghost b: seq<byte>, p: Packet, ghost x: seq<byte>, start: nat) returns (at: nat)
    requires SendsSack(p) && x == [] && start == PSEUDO + TCP_HEADER
    requires PSEUDO + HeaderLength(p) <= a.Length && |b| == a.Length
    requires a[..] == Spliced(b, PSEUDO + TCP_HEADER, x)
    modifies a
    ensures a[..] == Spliced(b, PSEUDO + TCP_HEADER, x + SackBytes(p))
    ensures at == PSEUDO + TCP_HEADER + |x + SackBytes(p)|
  {
    hide BE32, Spliced, BlockBytes;
    var base := PSEUDO + TCP_HEADER;
    var blocks := p.options.outBlocks;
    ghost var head: seq<byte> := [5, (2 + 8 * |blocks|) % 256];
    at := Extend(a, b, base, x, start, [5, (2 + 8 * |blocks|) % 256]);
    var i := 0;
    BlockBytesEmpty();
    assert x + head == head && head + BlockBytes(blocks[..0]) == head;
    while i < |blocks| && at - PSEUDO + 8 < TCP_HEADER + MAX_OPTIONS
      invariant 0 <= i <= BlocksWritten(p) && at == base + 2 + 8 * i
      invariant a[..] == Spliced(b, base, head + BlockBytes(blocks[..i]))
    {
      BlockBytesNext(blocks, i);
      ghost var done := head + BlockBytes(blocks[..i]);
      at := Extend(a, b, base, done, at, BE32(blocks[i].leftEdge));
      done := done + BE32(blocks[i].leftEdge);
      at := Extend(a, b, base, done, at, BE32(blocks[i].rightEdge));
      assert done + BE32(blocks[i].rightEdge) == head + BlockBytes(blocks[..i + 1]);
      i := i + 1;
    }
    assert i == BlocksWritten(p);
    assert x + SackBytes(p) == head + BlockBytes(blocks[..i]);
  }

  lemma BlockBytesEmpty()
    ensures BlockBytes([]) == []
  {
  }

  lemma BlockBytesNext(blocks: seq<WireBlock>, i: nat)
    requires i < |blocks|
    ensures BlockBytes(blocks[..i + 1])
            == BlockBytes(blocks[..i]) + (BE32(blocks[i].leftEdge) + BE32(blocks[i].rightEdge))
  {
    assert blocks[..i + 1][..i] == blocks[..i];
  }

  /** NOP padding directly behind the last option written. */
  method WritePadding(a: array<byte>, at: nat, n: nat)
    requires at + n <= a.Length
    modifies a
    ensures a[..] == Spliced(old(a[..]), at, Nops(n))
  {
    hide Spliced;
    SplicedNothing(a[..], at);
    var i := 0;
    while i < n
      invariant 0 <= i <= n
      invariant a[..] == Spliced(old(a[..]), at, Nops(i))
    {
      SplicedTwice(old(a[..]), at, Nops(i), [1]);
      Put(a, at + i, [1]);
      i := i + 1;
    }
  }

  /** The bytes of the header area that Marshal will not overwrite. */
  function StaleBytes(p: Packet, clock: U32, before: seq<byte>): (s: seq<byte>)
    requires PSEUDO + HeaderLength(p) <= |before| && |Written(p, clock)| + Gap(p) == OptionsLength(p) && Gap(p) >= 0
    ensures |s| == Gap(p)
  {
    var from := PSEUDO + TCP_HEADER + |Written(p, clock)|;
    before[from..from + Gap(p)]
  }

  /**
   Pieces written one behind the other from `at` on, with a gap of untouched bytes either behind the
   options or nowhere, and the first `at` bytes written in between.
   */
  lemma Assembled(
    before: seq<byte>, head: seq<byte>, f: seq<byte>, w: seq<byte>, n: seq<byte>, gap: nat, pay: seq<byte>)
    requires |head| + |f| + |w| + |n| + gap + |pay| <= |before|
    requires gap > 0 ==> n == []
    ensures var at := |head|;
            var stale := before[at + |f| + |w|..at + |f| + |w| + gap];
            var x := Spliced(Spliced(Spliced(before, at, f), at + |f|, w), at + |f| + |w|, n);
            Spliced(Spliced(x, 0, head), at + |f| + |w| + |n| + gap, pay)
            == Spliced(before, 0, head + f + (w + stale + n + pay))
  {
    hide Spliced;
    var at := |head|;
    var stale := before[at + |f| + |w|..at + |f| + |w| + gap];
    var x := Spliced(Spliced(Spliced(before, at, f), at + |f|, w), at + |f| + |w|, n);
    SplicedTwice(before, at, f, w);
    SplicedTwice(before, at, f + w, n);
    SplicedGap(before, at, f + w + n, gap, pay);
    SplicedApart(x, 0, head, at + |f| + |w| + |n| + gap, pay);
    var kept := before[at + |f + w + n|..at + |f + w + n| + gap];
    if gap == 0 {
      assert kept == [] && stale == [];
    } else {
      assert f + w + n == f + w && kept == stale;
    }
    Regrouped(f, w, stale, n, pay);
    var body := f + (w + stale + n + pay);
    SplicedApart(before, 0, head, at, body);
    SplicedTwice(before, 0, head, body);
    assert head + body == head + f + (w + stale + n + pay);
  }

  lemma Regrouped(f: seq<byte>, w: seq<byte>, stale: seq<byte>, n: seq<byte>, pay: seq<byte>)
    requires stale == [] || n == []
    ensures f + w + n + stale + pay == f + (w + stale + n + pay)
  {
  }

  lemma ChecksumInserted(p: Packet, clock: U32, protocol: byte, stale: seq<byte>, before: seq<byte>)
    requires p.src.IPv4? && p.dst.IPv4?
    requires |Unsummed(p, clock, protocol, stale)| <= |before|
    ensures var ck := ChecksumOf(Unsummed(p, clock, protocol, stale));
            Spliced(Spliced(before, 0, Unsummed(p, clock, protocol, stale)), FIELD, BE16(ck))
            == Spliced(before, 0, PseudoOf(p, protocol) + Frame(p, clock, protocol, stale))
  {
    hide Tail, PseudoOf, HeaderLength, ChecksumOf, BE32;
    var ck := ChecksumOf(Unsummed(p, clock, protocol, stale));
    assert Fixed(p, ck) == Fixed(p, 0)[..16] + BE16(ck) + Fixed(p, 0)[18..];
  }

  /**
   Marshal: on success the buffer holds pseudo-header and frame at its start and is otherwise unchanged.
   `clock` is the low 32 bits of the microsecond clock.
   */
  method Marshal(buffer: array<byte>, p: Packet, clock: U32, protocol: byte) returns (r: MarshalResult)
    modifies buffer
    ensures PSEUDO + FrameLength(p) > buffer.Length ==> r == BufferTooSmall && buffer[..] == old(buffer[..])
    ensures PSEUDO + FrameLength(p) <= buffer.Length ==>
              (r == MissingAddress <==> p.src.NoAddr? || p.dst.NoAddr?)
              && (r == MissingAddress || r == Marshalled(FrameLength(p)))
    ensures r.Marshalled? ==>
              && |Written(p, clock)| + Gap(p) == OptionsLength(p) && Gap(p) >= 0
              && |old(buffer[..])| >= PSEUDO + FrameLength(p)
              && var frame := Frame(p, clock, protocol, StaleBytes(p, clock, old(buffer[..])));
                 |frame| == r.length && buffer[..] == Spliced(old(buffer[..]), 0, PseudoOf(p, protocol) + frame)
  {
    GapIffTooMany(p, clock);
    hide HeaderLength, Fixed, Written, Nops, Spliced, OptionsLength, Padding, Gap, Tail, PseudoOf, ChecksumOf,
      BE16, StaleBytes;
    HeaderParts(p);
    var header, length := HeaderLength(p), FrameLength(p);
    if PSEUDO + length > buffer.Length {
      return BufferTooSmall;
    }
    ghost var before := buffer[..];
    ghost var stale := StaleBytes(p, clock, before);
    WriteFixed(buffer, p);
    var at := WriteOptions(buffer, p, clock);
    WritePadding(buffer, at, Padding(p));
    var ok := AssemblePseudoHeader(buffer, PSEUDO, p.src, p.dst, protocol, length % 0x1_0000);
    if !ok {
      return MissingAddress;
    }
    PseudoParts(p, protocol);
    Put(buffer, PSEUDO + header, p.payload);
    StaleParts(p, clock, before);
    UnsummedLength(p, clock, protocol, stale);
    Assembled(before, PseudoOf(p, protocol), Fixed(p, 0), Written(p, clock), Nops(Padding(p)), Gap(p), p.payload);
    assert buffer[..] == Spliced(before, 0, Unsummed(p, clock, protocol, stale));
    SplicedPrefix(before, Unsummed(p, clock, protocol, stale));
    var checksum := CalculateChecksum(buffer, PSEUDO + length);
    Put(buffer, FIELD, BE16(checksum));
    ChecksumInserted(p, clock, protocol, stale, before);
    r := Marshalled(length);
  }

  lemma PseudoParts(p: Packet, protocol: byte)
    requires p.src.IPv4? && p.dst.IPv4?
    ensures PseudoOf(p, protocol) == PseudoHeader(p.src.value, p.dst.value, protocol, FrameLength(p) % 0x1_0000)
  {
  }

  lemma StaleParts(p: Packet, clock: U32, before: seq<byte>)
    requires PSEUDO + HeaderLength(p) <= |before| && |Written(p, clock)| + Gap(p) == OptionsLength(p) && Gap(p) >= 0
    ensures var from := PSEUDO + TCP_HEADER + |Written(p, clock)|;
            StaleBytes(p, clock, before) == before[from..from + Gap(p)]
  {
  }

  lemma HeaderParts(p: Packet)
    ensures HeaderLength(p) == TCP_HEADER + OptionsLength(p) + Padding(p)
  {
  }

  lemma SplicedPrefix(s: seq<byte>, bs: seq<byte>)
    requires |bs| <= |s|
    ensures Spliced(s, 0, bs)[..|bs|] == bs
  {
  }

  lemma UnsummedLength(p: Packet, clock: U32, protocol: byte, stale: seq<byte>)
    requires p.src.IPv4? && p.dst.IPv4? && |stale| == Gap(p)
    ensures |Unsummed(p, clock, protocol, stale)| == PSEUDO + FrameLength(p)
    ensures |Frame(p, clock, protocol, stale)| == FrameLength(p)
    ensures Unsummed(p, clock, protocol, stale)
            == PseudoOf(p, protocol) + Fixed(p, 0) + (Written(p, clock) + stale + Nops(Padding(p)) + p.payload)
  {
    TailLength(p, clock, stale);
    hide Fixed, Written, Nops, Gap, OptionsLength, Padding, ChecksumOf, PseudoOf;
  }

  // ----- The verifier accepts what Marshal prints -----

  /** Whatever the twelve scratch bytes in front hold, VerifyChecksum accepts a marshalled frame. */
  lemma {:induction false} MarshalledVerifies(
    p: Packet, clock: U32, protocol: byte, stale: seq<byte>, scratch: seq<byte>)
    requires p.src.IPv4? && p.dst.IPv4? && |stale| == Gap(p) && |scratch| == PSEUDO
    ensures Verifies(scratch + Frame(p, clock, protocol, stale), p.src.value, p.dst.value, protocol)
  {
    UnsummedLength(p, clock, protocol, stale);
    FrameZeroed(p, clock, protocol, stale, scratch);
    hide Frame, Unsummed, FrameLength, ChecksumOf, Zeroed, Get16;
  }

  /** Zeroing the field and writing the pseudo-header gives back what the checksum was taken over. */
  lemma FrameZeroed(p: Packet, clock: U32, protocol: byte, stale: seq<byte>, scratch: seq<byte>)
    requires p.src.IPv4? && p.dst.IPv4? && |scratch| == PSEUDO && |stale| == Gap(p)
    requires |Frame(p, clock, protocol, stale)| == FrameLength(p)
    ensures var data := scratch + Frame(p, clock, protocol, stale);
            && |data| >= 32
            && Get16(data, FIELD) == ChecksumOf(Unsummed(p, clock, protocol, stale))
            && Zeroed(data, p.src.value, p.dst.value, protocol) == Unsummed(p, clock, protocol, stale)
  {
    hide Gap, Tail, ChecksumOf, HeaderLength;
    var ck := ChecksumOf(Unsummed(p, clock, protocol, stale));
    var tail := Tail(p, clock, stale);
    var data := scratch + Frame(p, clock, protocol, stale);
    FixedParts(p, ck);
    FixedParts(p, 0);
    hide Fixed, BE16, PseudoHeader, Spliced;
    assert data == scratch + Fixed(p, ck) + tail;
    FieldZeroed(scratch, Fixed(p, ck), Fixed(p, 0), tail, PseudoOf(p, protocol), ck);
    assert |data| - PSEUDO == FrameLength(p);
  }

  lemma FixedParts(p: Packet, checksum: U16)
    ensures Fixed(p, checksum)[..16] == Fixed(p, 0)[..16] && Fixed(p, checksum)[18..] == Fixed(p, 0)[18..]
    ensures Fixed(p, checksum)[16..18] == BE16(checksum)
  {
    hide BE32, HeaderLength;
  }

  lemma FieldZeroed(
    scratch: seq<byte>, fixed: seq<byte>, zero: seq<byte>, tail: seq<byte>, pseudo: seq<byte>, ck: U16)
    requires |scratch| == PSEUDO && |pseudo| == PSEUDO && |fixed| == TCP_HEADER && |zero| == TCP_HEADER
    requires fixed[..16] == zero[..16] && fixed[18..] == zero[18..]
    requires fixed[16..18] == BE16(ck) && zero[16..18] == BE16(0)
    ensures var data := scratch + fixed + tail;
            Get16(data, FIELD) == ck
            && Spliced(Spliced(data, FIELD, BE16(0)), 0, pseudo) == pseudo + zero + tail
  {
    hide BE16;
    var data := scratch + fixed + tail;
    assert data[FIELD..FIELD + 2] == fixed[16..18];
    Get16Put16(ck, data, FIELD);
    assert fixed == fixed[..16] + fixed[16..18] + fixed[18..];
    assert zero == fixed[..16] + BE16(0) + fixed[18..];
    assert Spliced(data, FIELD, BE16(0)) == scratch + zero + tail;
  }
}
