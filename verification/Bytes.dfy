/** Bytes, big-endian integers and writing a run of bytes into a buffer. */
module Bytes {
  type byte = x: int | 0 <= x < 256
  type U16 = x: int | 0 <= x < 0x1_0000
  type U32 = x: int | 0 <= x < 0x1_0000_0000

  function BE16(v: U16): (s: seq<byte>)
    ensures |s| == 2
  {
    [v / 256, v % 256]
  }

  function BE32(v: U32): (s: seq<byte>)
    ensures |s| == 4
  {
    BE16(v / 0x1_0000) + BE16(v % 0x1_0000)
  }

  function Pair(hi: byte, lo: byte): U16 {
    hi as int * 256 + lo
  }

  function Get16(s: seq<byte>, i: nat): U16
    requires i + 2 <= |s|
  {
    Pair(s[i], s[i + 1])
  }

  function Get32(s: seq<byte>, i: nat): U32
    requires i + 4 <= |s|
  {
    Pair(s[i], s[i + 1]) as int * 0x1_0000 + Pair(s[i + 2], s[i + 3])
  }

  /** Network byte order, written and read: the first byte is the most significant. */
  lemma {:induction false} NetworkOrder(v: U16, w: U32, s: seq<byte>, i: nat)
    requires i + 4 <= |s|
    ensures BE16(v)[0] as int * 0x100 + BE16(v)[1] == v
    ensures BE32(w)[0] as int * 0x100_0000 + BE32(w)[1] as int * 0x1_0000 + BE32(w)[2] as int * 0x100 + BE32(w)[3] == w
    ensures Get16(s, i) == s[i] as int * 0x100 + s[i + 1]
    ensures Get32(s, i)
            == s[i] as int * 0x100_0000 + s[i + 1] as int * 0x1_0000 + s[i + 2] as int * 0x100 + s[i + 3]
  {
  }

  lemma Get16Put16(v: U16, s: seq<byte>, i: nat)
    requires i + 2 <= |s| && s[i..i + 2] == BE16(v)
    ensures Get16(s, i) == v
  {
    assert s[i] == s[i..i + 2][0] && s[i + 1] == s[i..i + 2][1];
  }

  lemma Get32Put32(v: U32, s: seq<byte>, i: nat)
    requires i + 4 <= |s| && s[i..i + 4] == BE32(v)
    ensures Get32(s, i) == v
  {
    var t := s[i..i + 4];
    assert s[i] == t[0] && s[i + 1] == t[1] && s[i + 2] == t[2] && s[i + 3] == t[3];
  }

  /** s with the bytes from `at` replaced by bs. */
  function Spliced(s: seq<byte>, at: nat, bs: seq<byte>): (t: seq<byte>)
    requires at + |bs| <= |s|
    ensures |t| == |s|
  {
    s[..at] + bs + s[at + |bs|..]
  }

  lemma SplicedParts(s: seq<byte>, at: nat, bs: seq<byte>)
    requires at + |bs| <= |s|
    ensures var t := Spliced(s, at, bs);
            t[..at] == s[..at] && t[at..at + |bs|] == bs && t[at + |bs|..] == s[at + |bs|..]
  {
  }

  lemma SplicedTwice(s: seq<byte>, at: nat, x: seq<byte>, y: seq<byte>)
    requires at + |x| + |y| <= |s|
    ensures Spliced(Spliced(s, at, x), at + |x|, y) == Spliced(s, at, x + y)
  {
  }

  /** Writing y some way behind x keeps the old bytes in between. */
  lemma SplicedGap(s: seq<byte>, at: nat, x: seq<byte>, gap: nat, y: seq<byte>)
    requires at + |x| + gap + |y| <= |s|
    ensures Spliced(Spliced(s, at, x), at + |x| + gap, y)
            == Spliced(s, at, x + s[at + |x|..at + |x| + gap] + y)
  {
  }

  /** Writes to disjoint places commute. */
  lemma SplicedApart(s: seq<byte>, at: nat, x: seq<byte>, bt: nat, y: seq<byte>)
    requires at + |x| <= bt && bt + |y| <= |s|
    ensures Spliced(Spliced(s, at, x), bt, y) == Spliced(Spliced(s, bt, y), at, x)
  {
  }

  /** binary.BigEndian.PutUint16, PutUint32, and copy. */
  method Put(a: array<byte>, at: nat, bs: seq<byte>)
    requires at + |bs| <= a.Length
    modifies a
    ensures a[..] == Spliced(old(a[..]), at, bs)
  {
    var i := 0;
    while i < |bs|
      invariant 0 <= i <= |bs|
      invariant a[..] == Spliced(old(a[..]), at, bs[..i])
    {
      a[at + i] := bs[i];
      i := i + 1;
    }
    assert bs[..i] == bs;
  }
}
