/** Unmarshal of lib/packet.go and the round trip with Marshal. */
module Decoder {
  import opened Bytes
  import opened Checksum
  import opened Sack
  import opened Codec

  // ----- The option scan -----

  /** `Stuck`: a zero length byte, on which the source loops forever, or a SACK length not of the form 2+8n. */
  datatype Scanned = Done(options: Options) | Stuck

  function ParseBlocks(s: seq<byte>, n: nat): (blocks: seq<WireBlock>)
    requires |s| == 8 * n
    ensures |blocks| == n
  {
    if n == 0 then []
    else ParseBlocks(s[..8 * (n - 1)], n - 1) + [Block(Get32(s, 8 * (n - 1)), Get32(s, 8 * (n - 1) + 4))]
  }

  predicate StuckAt(rest: seq<byte>)
    requires |rest| >= 2
  {
    rest[0] > 1 && (rest[1] == 0 || (rest[0] == 5 && 2 < rest[1] <= |rest| && (rest[1] - 2) % 8 != 0))
  }

  /** The effect of the option at the head of `rest`; a length that does not fit its kind is skipped. */
  function ApplyOption(rest: seq<byte>, o: Options): Options
    requires |rest| >= 2 && !StuckAt(rest)
  {
    var kind, len := rest[0], rest[1];
    if kind == 3 && len == 3 && 3 <= |rest| then o.(windowScale := rest[2])
    else if kind == 2 && len == 4 && 4 <= |rest| then o.(mss := Get16(rest, 2))
    else if kind == 4 && len == 2 then o.(permitSack := true)
    else if kind == 5 && 2 < len <= |rest| then o.(inBlocks := o.inBlocks + ParseBlocks(rest[2..len], (len - 2) / 8))
    else if kind == 8 && len == 10 && 10 <= |rest| then
      o.(timestampEnabled := true, timestamp := Get32(rest, 2), tsEcho := Get32(rest, 6))
    else o
  }

  function Skip(rest: seq<byte>): (n: nat)
    requires |rest| >= 2 && !StuckAt(rest)
    ensures rest[0] != 0 ==> 0 < n
    ensures n <= |rest|
  {
    if rest[0] <= 1 then 1 else if rest[1] <= |rest| then rest[1] else |rest|
  }

  /** The scan of the option bytes still ahead; the source stops when fewer than two are left. */
  function Scan(rest: seq<byte>, o: Options): Scanned
    decreases |rest|
  {
    if |rest| < 2 || rest[0] == 0 then Done(o)
    else if StuckAt(rest) then Stuck
    else Scan(rest[Skip(rest)..], ApplyOption(rest, o))
  }

  // ----- Unmarshal -----

  datatype Parsed =
    | Ok(packet: Packet)
    | TooShort
    | NegativeOptions
    | HeaderBeyondData
    | NoProgress

  function OptionBytes(data: seq<byte>): int
    requires |data| >= TCP_HEADER
  {
    data[12] / 16 * 4 - TCP_HEADER
  }

  function Parse(data: seq<byte>, src: Addr, dst: Addr): Parsed {
    if |data| < TCP_HEADER then TooShort
    else if OptionBytes(data) < 0 then NegativeOptions
    else if TCP_HEADER + OptionBytes(data) > |data| then HeaderBeyondData
    else
      var header := TCP_HEADER + OptionBytes(data);
      match Scan(data[TCP_HEADER..header], NO_OPTIONS)
      case Stuck => NoProgress
      case Done(o) =>
        Ok(Packet(src, dst, Get16(data, 0), Get16(data, 2), Get32(data, 4), Get32(data, 8),
                  Get16(data, 14), data[13], Get16(data, 18), Get16(data, 16), data[header..], o, false))
  }

  /** The SACK loop of Unmarshal. */
  method ReadBlocks(s: seq<byte>, n: nat) returns (blocks: seq<WireBlock>)
    requires |s| == 8 * n
    ensures blocks == ParseBlocks(s, n)
  {
    hide ParseBlocks, Get32;
    blocks := [];
    var i := 0;
    ParseNone(s[..0]);
    while i < n
      invariant 0 <= i <= n
      invariant blocks == ParseBlocks(s[..8 * i], i)
    {
      ParseNext(s, i);
      blocks := blocks + [Block(Get32(s, 8 * i), Get32(s, 8 * i + 4))];
      i := i + 1;
    }
    assert s[..8 * n] == s;
  }

  lemma ParseNone(s: seq<byte>)
    requires |s| == 0
    ensures ParseBlocks(s, 0) == []
  {
  }

  lemma ParseNext(s: seq<byte>, i: nat)
    requires 8 * (i + 1) <= |s|
    ensures ParseBlocks(s[..8 * (i + 1)], i + 1)
            == ParseBlocks(s[..8 * i], i) + [Block(Get32(s, 8 * i), Get32(s, 8 * i + 4))]
  {
    hide Pair;
    assert s[..8 * (i + 1)][..8 * i] == s[..8 * i];
  }

  /** One option of the switch in Unmarshal. */
  method ReadOption(rest: seq<byte>, given: Options) returns (o: Options)
    requires |rest| >= 2 && !StuckAt(rest)
    ensures o == ApplyOption(rest, given)
  {
    o := given;
    var kind, len := rest[0], rest[1];
    if kind == 3 {
      if len == 3 && 3 <= |rest| {
        o := o.(windowScale := rest[2]);
      }
    } else if kind == 2 {
      if len == 4 && 4 <= |rest| {
        o := o.(mss := Get16(rest, 2));
      }
    } else if kind == 4 {
      if len == 2 {
        o := o.(permitSack := true);
      }
    } else if kind == 5 {
      if 2 < len <= |rest| {
        var blocks := ReadBlocks(rest[2..len], (len - 2) / 8);
        o := o.(inBlocks := o.inBlocks + blocks);
      }
    } else if kind == 8 {
      if len == 10 && 10 <= |rest| {
        o := o.(timestampEnabled := true, timestamp := Get32(rest, 2), tsEcho := Get32(rest, 6));
      }
    }
  }

  /** The option loop: it consumes at least one byte each turn. */
  method ScanOptions(bytes: seq<byte>) returns (o: Options)
    requires Scan(bytes, NO_OPTIONS).Done?
    ensures Scan(bytes, NO_OPTIONS) == Done(o)
  {
    hide ApplyOption;
    o := NO_OPTIONS;
    var i := 0;
    assert bytes[0..] == bytes;
    while i + 1 < |bytes| && bytes[i] != 0
      invariant 0 <= i <= |bytes|
      invariant Scan(bytes, NO_OPTIONS) == Scan(bytes[i..], o)
      decreases |bytes| - i
    {
      var rest := bytes[i..];
      ScanUnfolds(rest, o);
      o := ReadOption(rest, o);
      var n := Skip(rest);
      assert rest[n..] == bytes[i + n..];
      i := i + n;
    }
  }

  lemma ScanUnfolds(rest: seq<byte>, o: Options)
    requires |rest| >= 2 && rest[0] != 0 && Scan(rest, o).Done?
    ensures !StuckAt(rest) && Scan(rest, o) == Scan(rest[Skip(rest)..], ApplyOption(rest, o))
  {
  }

  /** Unmarshal into a fresh packet; option bytes on which the source would not terminate are excluded. */
  method Unmarshal(data: seq<byte>, src: Addr, dst: Addr) returns (r: Parsed)
    requires !Parse(data, src, dst).NoProgress?
    ensures r == Parse(data, src, dst)
  {
    if |data| < TCP_HEADER {
      return TooShort;
    }
    var optionsLength := data[12] / 16 * 4 - TCP_HEADER;
    if optionsLength < 0 {
      return NegativeOptions;
    }
    var header := TCP_HEADER + optionsLength;
    if header > |data| {
      return HeaderBeyondData;
    }
    var o := ScanOptions(data[TCP_HEADER..header]);
    r := Ok(Packet(src, dst, Get16(data, 0), Get16(data, 2), Get32(data, 4), Get32(data, 8),
                   Get16(data, 14), data[13], Get16(data, 18), Get16(data, 16), data[header..], o, false));
  }

  // ----- Scanning what Marshal wrote, option by option -----

  lemma ScanOne(option: seq<byte>, rest: seq<byte>, o: Options)
    requires |option| >= 2 && option[0] > 1 && option[1] == |option| && !StuckAt(option + rest)
    ensures Scan(option + rest, o) == Scan(rest, ApplyOption(option + rest, o))
  {
    assert (option + rest)[|option|..] == rest;
  }

  lemma ScanWindowScale(p: Packet, rest: seq<byte>, o: Options)
    requires o.windowScale == 0
    ensures Scan(WindowScaleBytes(p) + rest, o)
            == Scan(rest, o.(windowScale := if p.isOpen then 0 else p.options.windowScale))
  {
    if WindowScaleBytes(p) == [] {
      assert WindowScaleBytes(p) + rest == rest;
    } else {
      ScanOne(WindowScaleBytes(p), rest, o);
    }
  }

  lemma ScanMss(p: Packet, rest: seq<byte>, o: Options)
    requires o.mss == 0
    ensures Scan(MssBytes(p) + rest, o) == Scan(rest, o.(mss := if p.isOpen then 0 else p.options.mss))
  {
    if MssBytes(p) == [] {
      assert MssBytes(p) + rest == rest;
    } else {
      ScanOne(MssBytes(p), rest, o);
      var s := MssBytes(p) + rest;
      assert s[2..4] == BE16(p.options.mss);
      Get16Put16(p.options.mss, s, 2);
    }
  }

  lemma ScanPermit(p: Packet, rest: seq<byte>, o: Options)
    requires !o.permitSack
    ensures Scan(PermitBytes(p) + rest, o) == Scan(rest, o.(permitSack := !p.isOpen && p.options.permitSack))
  {
    if PermitBytes(p) == [] {
      assert PermitBytes(p) + rest == rest;
    } else {
      ScanOne(PermitBytes(p), rest, o);
    }
  }

  lemma ThreeParts(s: seq<byte>, x: seq<byte>, y: seq<byte>)
    ensures var t := s + (x + y);
            && t[..|s|] == s && t[|s|..|s| + |x|] == x && t[|s| + |x|..|s| + |x| + |y|] == y
  {
  }

  lemma ParseAppend(s: seq<byte>, n: nat, b: WireBlock)
    requires |s| == 8 * n
    ensures ParseBlocks(s + (BE32(b.leftEdge) + BE32(b.rightEdge)), n + 1) == ParseBlocks(s, n) + [b]
  {
    hide BE32, Get32;
    var t := s + (BE32(b.leftEdge) + BE32(b.rightEdge));
    ThreeParts(s, BE32(b.leftEdge), BE32(b.rightEdge));
    Get32Put32(b.leftEdge, t, 8 * n);
    Get32Put32(b.rightEdge, t, 8 * n + 4);
  }

  lemma {:induction false} BlocksRoundTrip(blocks: seq<WireBlock>)
    ensures ParseBlocks(BlockBytes(blocks), |blocks|) == blocks
    decreases blocks
  {
    if blocks != [] {
      hide ParseBlocks, BE32;
      var init, last := blocks[..|blocks| - 1], blocks[|blocks| - 1];
      BlocksRoundTrip(init);
      ParseAppend(BlockBytes(init), |init|, last);
      assert blocks == init + [last];
    }
  }

  lemma SackApplied(s: seq<byte>, n: nat, o: Options)
    requires |s| >= 2 && s[0] == 5 && s[1] == 2 + 8 * n && 1 <= n && 2 + 8 * n <= |s|
    ensures !StuckAt(s) && ApplyOption(s, o) == o.(inBlocks := o.inBlocks + ParseBlocks(s[2..2 + 8 * n], n))
  {
    hide ParseBlocks;
    assert (s[1] - 2) % 8 == 0 && (s[1] - 2) / 8 == n;
  }

  lemma SackOption(blocks: seq<WireBlock>, rest: seq<byte>, o: Options)
    requires 1 <= |blocks| <= 4
    ensures var s := [5, 2 + 8 * |blocks|] + BlockBytes(blocks) + rest;
            !StuckAt(s) && ApplyOption(s, o) == o.(inBlocks := o.inBlocks + blocks)
  {
    hide BlockBytes, ParseBlocks, StuckAt, ApplyOption;
    var head: seq<byte>, n := [5, 2 + 8 * |blocks|], |blocks|;
    var s := head + BlockBytes(blocks) + rest;
    assert s == head + (BlockBytes(blocks) + rest);
    ThreeParts(head, BlockBytes(blocks), rest);
    SackApplied(s, n, o);
    BlocksRoundTrip(blocks);
  }

  lemma SackShape(p: Packet)
    requires BlocksFit(p)
    ensures SackBytes(p) == if SendsSack(p) then
                              [5, 2 + 8 * |p.options.outBlocks|] + BlockBytes(p.options.outBlocks)
                            else []
    ensures SendsSack(p) ==> 1 <= |p.options.outBlocks| <= 4
  {
    hide BlockBytes;
    assert p.options.outBlocks[..|p.options.outBlocks|] == p.options.outBlocks;
  }

  lemma ScanSack(p: Packet, rest: seq<byte>, o: Options)
    requires o.inBlocks == [] && BlocksFit(p)
    ensures Scan(SackBytes(p) + rest, o)
            == Scan(rest, o.(inBlocks := if SendsSack(p) then p.options.outBlocks else []))
  {
    hide Scan, StuckAt, ApplyOption, SackBytes, BlockBytes;
    SackShape(p);
    if SendsSack(p) {
      var blocks := p.options.outBlocks;
      SackOption(blocks, rest, o);
      ScanOne(SackBytes(p), rest, o);
      assert [] + blocks == blocks;
    } else {
      assert SackBytes(p) + rest == rest;
    }
  }

  lemma ScanTimestamp(p: Packet, clock: U32, rest: seq<byte>, o: Options)
    requires !o.timestampEnabled && o.timestamp == 0 && o.tsEcho == 0 && BlocksFit(p)
    ensures var on := p.options.timestampEnabled;
            Scan(TimestampBytes(p, clock) + rest, o)
            == Scan(rest, o.(timestampEnabled := on, timestamp := if on then clock else 0,
                             tsEcho := if on then p.options.tsEcho else 0))
  {
    TimestampFits(p, clock);
    hide BE32, BeforeTimestamp;
    if !p.options.timestampEnabled {
      assert TimestampBytes(p, clock) + rest == rest;
    } else {
      var s := TimestampBytes(p, clock) + rest;
      ScanOne(TimestampBytes(p, clock), rest, o);
      assert s[2..6] == BE32(clock) && s[6..10] == BE32(p.options.tsEcho);
      Get32Put32(clock, s, 2);
      Get32Put32(p.options.tsEcho, s, 6);
    }
  }

  lemma TimestampFits(p: Packet, clock: U32)
    requires BlocksFit(p)
    ensures TimestampBytes(p, clock)
            == if p.options.timestampEnabled then [8, 10] + BE32(clock) + BE32(p.options.tsEcho) else []
  {
    hide BE32, BlockBytes;
  }

  lemma {:induction false} ScanNops(n: nat, o: Options)
    ensures Scan(Nops(n), o) == Done(o)
  {
    if n >= 2 {
      NopsFront(n);
      assert Scan(Nops(n), o) == Scan(Nops(n)[1..], o);
      ScanNops(n - 1, o);
    }
  }

  lemma {:induction false} NopsFront(n: nat)
    requires n > 0
    ensures Nops(n)[0] == 1 && Nops(n)[1..] == Nops(n - 1)
  {
    if n > 1 {
      NopsFront(n - 1);
    }
  }

  /** The options a receiver sees: the out-blocks have become in-blocks, the clock is the timestamp. */
  function Received(p: Packet, clock: U32): Options {
    var on := p.options.timestampEnabled;
    Options(
      if p.isOpen then 0 else p.options.windowScale, if p.isOpen then 0 else p.options.mss,
      !p.isOpen && p.options.permitSack, false, on, if on then p.options.tsEcho else 0,
      if on then clock else 0, if SendsSack(p) then p.options.outBlocks else [], [])
  }

  lemma {:induction false} OptionsRoundTrip(p: Packet, clock: U32)
    requires BlocksFit(p)
    ensures Scan(Written(p, clock) + Nops(Padding(p)), NO_OPTIONS) == Done(Received(p, clock))
  {
    hide Scan, WindowScaleBytes, MssBytes, PermitBytes, SackBytes, TimestampBytes, Nops, Padding;
    var w, m, q, k, t, n := WindowScaleBytes(p), MssBytes(p), PermitBytes(p), SackBytes(p), TimestampBytes(p, clock),
      Nops(Padding(p));
    assert Written(p, clock) + n == w + (m + (q + (k + (t + n))));
    var o1 := NO_OPTIONS.(windowScale := if p.isOpen then 0 else p.options.windowScale);
    ScanWindowScale(p, m + (q + (k + (t + n))), NO_OPTIONS);
    var o2 := o1.(mss := if p.isOpen then 0 else p.options.mss);
    ScanMss(p, q + (k + (t + n)), o1);
    var o3 := o2.(permitSack := !p.isOpen && p.options.permitSack);
    ScanPermit(p, k + (t + n), o2);
    var o4 := o3.(inBlocks := if SendsSack(p) then p.options.outBlocks else []);
    ScanSack(p, t + n, o3);
    ScanTimestamp(p, clock, n, o4);
    ScanNops(Padding(p), Received(p, clock));
  }

  // ----- Too many blocks: the options are not recovered -----

  lemma {:induction false} ScanNoTimestamp(rest: seq<byte>, o: Options)
    requires |rest| < 10 && !o.timestampEnabled && Scan(rest, o).Done?
    ensures !Scan(rest, o).options.timestampEnabled
    decreases |rest|
  {
    if |rest| >= 2 && rest[0] != 0 {
      ScanNoTimestamp(rest[Skip(rest)..], ApplyOption(rest, o));
    }
  }

  /** Each block read costs eight option bytes, and the first one two more. */
  lemma {:induction false} ScanBlocksBound(rest: seq<byte>, o: Options)
    requires Scan(rest, o).Done?
    ensures var m := |Scan(rest, o).options.inBlocks|;
            m == |o.inBlocks| || 8 * (m - |o.inBlocks|) + 2 <= |rest|
    decreases |rest|
  {
    if |rest| >= 2 && rest[0] != 0 {
      var next := ApplyOption(rest, o);
      ScanBlocksBound(rest[Skip(rest)..], next);
      assert next.inBlocks == o.inBlocks || 8 * (|next.inBlocks| - |o.inBlocks|) + 2 <= Skip(rest);
    }
  }

  lemma FourBlocksHideTimestamp(p: Packet, clock: U32, stale: seq<byte>)
    requires SendsSack(p) && |p.options.outBlocks| == 4 && p.options.timestampEnabled && |stale| == 6
    ensures Scan(SackBytes(p) + stale, NO_OPTIONS) != Done(Received(p, clock))
  {
    hide Scan, StuckAt, ApplyOption, BlockBytes;
    var blocks := p.options.outBlocks;
    assert blocks[..BlocksWritten(p)] == blocks;
    SackOption(blocks, stale, NO_OPTIONS);
    ScanOne(SackBytes(p), stale, NO_OPTIONS);
    var o := ApplyOption(SackBytes(p) + stale, NO_OPTIONS);
    if Scan(stale, o).Done? {
      ScanNoTimestamp(stale, o);
    }
  }

  /**
   Unmarshal recovers the options Marshal was given exactly when the SACK blocks fit: with too many,
   whatever the stale bytes are, either the timestamp or the block list is lost.
   */
  lemma {:induction false} OptionsRoundTripIff(p: Packet, clock: U32, stale: seq<byte>)
    requires |stale| == Gap(p)
    ensures Scan(Written(p, clock) + stale + Nops(Padding(p)), NO_OPTIONS) == Done(Received(p, clock)) <==> BlocksFit(p)
  {
    GapIffTooMany(p, clock);
    hide Scan, BlockBytes;
    var bytes := Written(p, clock) + stale + Nops(Padding(p));
    if BlocksFit(p) {
      assert Written(p, clock) + stale == Written(p, clock);
      OptionsRoundTrip(p, clock);
    } else {
      hide Nops;
      assert |bytes| == 40;
      if |p.options.outBlocks| == 4 {
        assert bytes == SackBytes(p) + stale;
        FourBlocksHideTimestamp(p, clock, stale);
      } else if Scan(bytes, NO_OPTIONS).Done? {
        ScanBlocksBound(bytes, NO_OPTIONS);
      }
    }
  }

  /**
   With five to 31 blocks the length byte of the SACK option points behind the option area, so the reader
   gives the whole area up: it sees no block and no timestamp, whatever the stale bytes are.
   */
  lemma {:induction false} OverfullIsIgnored(p: Packet, clock: U32, stale: seq<byte>)
    requires SendsSack(p) && 5 <= |p.options.outBlocks| <= 31 && |stale| == Gap(p)
    ensures Scan(Written(p, clock) + stale + Nops(Padding(p)), NO_OPTIONS) == Done(NO_OPTIONS)
  {
    GapIffTooMany(p, clock);
    var bytes := Written(p, clock) + stale + Nops(Padding(p));
    hide BlockBytes, Nops;
    assert |bytes| == 40;
    assert bytes[0] == 5 && bytes[1] == 2 + 8 * |p.options.outBlocks|;
    LongOptionEndsScan(bytes, NO_OPTIONS);
  }

  lemma LongOptionEndsScan(bytes: seq<byte>, o: Options)
    requires |bytes| >= 2 && bytes[0] == 5 && bytes[1] > |bytes|
    ensures Scan(bytes, o) == Done(o)
  {
    assert bytes[Skip(bytes)..] == [];
  }

  // ----- The round trip -----

  lemma FixedRoundTrip(p: Packet, checksum: U16, tail: seq<byte>)
    ensures var data := Fixed(p, checksum) + tail;
            && Get16(data, 0) == p.sourcePort && Get16(data, 2) == p.destinationPort
            && Get32(data, 4) == p.seqNum && Get32(data, 8) == p.ackNum
            && data[12] == HeaderLength(p) / 4 * 16 && data[13] == p.flags
            && Get16(data, 14) == p.window && Get16(data, 16) == checksum && Get16(data, 18) == p.urgent
  {
    hide BE16, BE32, HeaderLength;
    var data := Fixed(p, checksum) + tail;
    assert data[0..2] == BE16(p.sourcePort) && data[2..4] == BE16(p.destinationPort);
    assert data[4..8] == BE32(p.seqNum) && data[8..12] == BE32(p.ackNum);
    assert data[14..16] == BE16(p.window) && data[16..18] == BE16(checksum) && data[18..20] == BE16(p.urgent);
    Get16Put16(p.sourcePort, data, 0);
    Get16Put16(p.destinationPort, data, 2);
    Get32Put32(p.seqNum, data, 4);
    Get32Put32(p.ackNum, data, 8);
    Get16Put16(p.window, data, 14);
    Get16Put16(checksum, data, 16);
    Get16Put16(p.urgent, data, 18);
  }

  /**
   For every packet whose SACK blocks fit, Unmarshal of the marshalled frame recovers every header
   field, every option Marshal writes, and the payload.
   */
  lemma {:induction false} RoundTrip(p: Packet, clock: U32, protocol: byte, src: Addr, dst: Addr)
    requires p.src.IPv4? && p.dst.IPv4? && BlocksFit(p)
    ensures Parse(Frame(p, clock, protocol, []), src, dst)
            == Ok(Packet(src, dst, p.sourcePort, p.destinationPort, p.seqNum, p.ackNum, p.window, p.flags, p.urgent,
                         ChecksumOf(Unsummed(p, clock, protocol, [])), p.payload, Received(p, clock), false))
  {
    var ck := ChecksumOf(Unsummed(p, clock, protocol, []));
    FixedRoundTrip(p, ck, Tail(p, clock, []));
    HeaderFound(p, clock, Fixed(p, ck));
    OptionsRoundTrip(p, clock);
    hide Scan, Received, Fixed, ChecksumOf, Unsummed, HeaderLength, Tail, Parse, Get16, Get32, Written, Nops, Padding;
    ParseSucceeds(Frame(p, clock, protocol, []), src, dst, HeaderLength(p), Received(p, clock));
  }

  /** The header length splits the frame into fixed header, options and payload. */
  lemma HeaderFound(p: Packet, clock: U32, fixed: seq<byte>)
    requires BlocksFit(p) && |fixed| == TCP_HEADER
    ensures var data := fixed + Tail(p, clock, []);
            var header := HeaderLength(p);
            && TCP_HEADER <= header <= |data| && header / 4 * 16 / 16 * 4 == header
            && data[TCP_HEADER..header] == Written(p, clock) + Nops(Padding(p))
            && data[header..] == p.payload
  {
    GapIffTooMany(p, clock);
    HeaderParts(p);
    TailSplits(p, clock);
    hide Nops, Written, Padding, HeaderLength, Gap, OptionsLength, Tail, BlocksFit;
    FrameParts(fixed, Written(p, clock) + Nops(Padding(p)), p.payload, HeaderLength(p));
  }

  lemma ParseSucceeds(data: seq<byte>, src: Addr, dst: Addr, header: nat, o: Options)
    requires TCP_HEADER <= header <= |data| && data[12] / 16 * 4 == header
    requires Scan(data[TCP_HEADER..header], NO_OPTIONS) == Done(o)
    ensures Parse(data, src, dst)
            == Ok(Packet(src, dst, Get16(data, 0), Get16(data, 2), Get32(data, 4), Get32(data, 8),
                         Get16(data, 14), data[13], Get16(data, 18), Get16(data, 16), data[header..], o, false))
  {
    hide Scan, Get16, Get32;
  }

  lemma FrameParts(fixed: seq<byte>, options: seq<byte>, payload: seq<byte>, header: nat)
    requires |fixed| == TCP_HEADER && header == TCP_HEADER + |options|
    ensures var data := fixed + (options + payload);
            data[TCP_HEADER..header] == options && data[header..] == payload
  {
  }

  lemma TailSplits(p: Packet, clock: U32)
    ensures Tail(p, clock, []) == Written(p, clock) + Nops(Padding(p)) + p.payload
  {
    hide Written, Nops, Padding;
    assert Written(p, clock) + [] == Written(p, clock);
  }

  /**
   Ports, numbers, flags and payload survive even when the SACK blocks do not fit and stale bytes are
   scanned as options, unless the scan itself gets stuck.
   */
  lemma {:induction false} DataSurvives(p: Packet, clock: U32, protocol: byte, stale: seq<byte>, src: Addr, dst: Addr)
    requires p.src.IPv4? && p.dst.IPv4? && |stale| == Gap(p)
    ensures match Parse(Frame(p, clock, protocol, stale), src, dst)
            case Ok(q) =>
              && q.sourcePort == p.sourcePort && q.destinationPort == p.destinationPort
              && q.seqNum == p.seqNum && q.ackNum == p.ackNum && q.flags == p.flags
              && q.window == p.window && q.urgent == p.urgent && q.payload == p.payload
            case other => other.NoProgress?
  {
    var ck := ChecksumOf(Unsummed(p, clock, protocol, stale));
    FixedRoundTrip(p, ck, Tail(p, clock, stale));
    TailLength(p, clock, stale);
    HeaderParts(p);
    PayloadFound(p, clock, Fixed(p, ck), stale);
    hide Scan, Fixed, ChecksumOf, Unsummed, Tail, Get16, Get32, HeaderLength, Gap, OptionsLength, Padding;
    ParseOutcome(Frame(p, clock, protocol, stale), src, dst, HeaderLength(p));
  }

  lemma ParseOutcome(data: seq<byte>, src: Addr, dst: Addr, header: nat)
    requires TCP_HEADER <= header <= |data| && data[12] / 16 * 4 == header
    ensures match Parse(data, src, dst)
            case Ok(q) =>
              && q.sourcePort == Get16(data, 0) && q.destinationPort == Get16(data, 2)
              && q.seqNum == Get32(data, 4) && q.ackNum == Get32(data, 8) && q.flags == data[13]
              && q.window == Get16(data, 14) && q.urgent == Get16(data, 18) && q.payload == data[header..]
            case other => other.NoProgress?
  {
    hide Scan, Get16, Get32;
  }

  lemma PayloadFound(p: Packet, clock: U32, fixed: seq<byte>, stale: seq<byte>)
    requires |fixed| == TCP_HEADER && |stale| == Gap(p)
    ensures var data := fixed + Tail(p, clock, stale);
            && TCP_HEADER <= HeaderLength(p) <= |data| && HeaderLength(p) / 4 * 16 / 16 * 4 == HeaderLength(p)
            && data[HeaderLength(p)..] == p.payload
  {
    GapIffTooMany(p, clock);
    HeaderParts(p);
    hide Nops, Written, Padding, HeaderLength, Gap, OptionsLength;
    FrameParts(fixed, Written(p, clock) + stale + Nops(Padding(p)), p.payload, HeaderLength(p));
  }
}
