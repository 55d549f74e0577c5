/** The Internet checksum of lib/packet.go: CalculateChecksum, the pseudo-header and VerifyChecksum. */
module Checksum {
  import opened Bytes

  /** The sum of the big-endian 16-bit words; a last odd byte is the high half of a word. */
  function WordSum(s: seq<byte>): nat {
    if s == [] then 0
    else if |s| == 1 then Pair(s[0], 0)
    else Get16(s, 0) + WordSum(s[2..])
  }

  /** Two folds of a 32-bit accumulator and the final truncation to 16 bits, before complementing. */
  function Folded(sum: U32): U16 {
    var once := sum / 0x1_0000 + sum % 0x1_0000;
    (once + once / 0x1_0000) % 0x1_0000
  }

  function ChecksumOf(s: seq<byte>): U16 {
    0xffff - Folded(WordSum(s) % 0x1_0000_0000)
  }

  /** CalculateChecksum over a[..n], with its uint32 accumulator. */
  method CalculateChecksum(a: array<byte>, n: nat) returns (c: U16)
    requires n <= a.Length
    ensures c == ChecksumOf(a[..n])
  {
    hide WordSum, Folded;
    var sum: U32 := 0;
    var i := 0;
    ghost var s := a[..n];
    assert s[0..] == s;
    while i + 1 < n
      invariant 0 <= i <= n && i % 2 == 0
      invariant sum == (WordSum(s) - WordSum(s[i..])) % 0x1_0000_0000
    {
      var word := Pair(a[i], a[i + 1]);
      WordSumStep(s, i);
      AddWraps(WordSum(s) - WordSum(s[i..]), word);
      sum := (sum + word) % 0x1_0000_0000;
      i := i + 2;
    }
    WordSumEnd(s, i);
    AddWraps(WordSum(s) - WordSum(s[i..]), WordSum(s[i..]));
    if n % 2 != 0 {
      sum := (sum + Pair(a[n - 1], 0)) % 0x1_0000_0000;
    }
    c := 0xffff - Folded(sum);
  }

  lemma WordSumStep(s: seq<byte>, i: nat)
    requires i + 2 <= |s|
    ensures WordSum(s[i..]) == Pair(s[i], s[i + 1]) + WordSum(s[i + 2..])
  {
    assert s[i..][2..] == s[i + 2..];
  }

  lemma WordSumEnd(s: seq<byte>, i: nat)
    requires i <= |s| <= i + 1
    ensures WordSum(s[i..]) == if i == |s| then 0 else Pair(s[i], 0)
  {
  }

  lemma AddWraps(x: int, y: int)
    ensures (x % 0x1_0000_0000 + y) % 0x1_0000_0000 == (x + y) % 0x1_0000_0000
  {
  }

  /** An odd buffer is summed as if a zero byte followed. */
  lemma {:induction false} WordSumPadded(s: seq<byte>)
    requires |s| % 2 == 1
    ensures WordSum(s) == WordSum(s + [0])
  {
    var t := s + [0];
    if |s| == 1 {
      assert WordSum(t) == Get16(t, 0) + WordSum(t[2..]);
    } else {
      WordSumPadded(s[2..]);
      assert t[2..] == s[2..] + [0];
    }
  }

  // ----- Arithmetic -----

  lemma {:induction false} WordSumBound(s: seq<byte>)
    ensures WordSum(s) <= 0xffff * ((|s| + 1) / 2)
  {
    if |s| > 1 {
      WordSumBound(s[2..]);
    }
  }

  /** Up to 131074 bytes, far beyond any IP datagram, the 32-bit accumulator does not overflow. */
  lemma NoOverflow(s: seq<byte>)
    requires |s| <= 131074
    ensures WordSum(s) < 0x1_0000_0000
  {
    WordSumBound(s);
  }

  lemma {:induction false} WordSumOnes(n: nat)
    ensures WordSum(seq(2 * n, _ => 255)) == 0xffff * n
  {
    if n > 0 {
      var s := seq(2 * n, _ => 255);
      assert s[2..] == seq(2 * (n - 1), _ => 255);
      WordSumOnes(n - 1);
    }
  }

  /** Two bytes more can overflow it. */
  lemma OverflowBeyond()
    ensures WordSum(seq(131076, _ => 255)) >= 0x1_0000_0000
  {
    WordSumOnes(65538);
  }

  /** Two folds lose no carry: the result is congruent to the sum modulo 65535, and 0 only for 0. */
  lemma FoldedIsResidue(sum: U32)
    ensures Folded(sum) % 0xffff == sum % 0xffff
    ensures Folded(sum) == 0 <==> sum == 0
  {
    var hi, lo := sum / 0x1_0000, sum % 0x1_0000;
    assert sum == hi * 0xffff + (hi + lo);
    ResidueShift(hi + lo, hi);
    if hi + lo >= 0x1_0000 {
      ResidueShift(hi + lo - 0xffff, 1);
    }
  }

  lemma ResidueShift(x: nat, k: nat)
    ensures (x + k * 0xffff) % 0xffff == x % 0xffff
  {
  }

  /** For positive sums the fold is determined by the residue. */
  lemma {:induction false} FoldedEqualIff(x: U32, y: U32)
    requires x > 0 && y > 0
    ensures Folded(x) == Folded(y) <==> x % 0xffff == y % 0xffff
  {
    FoldedIsResidue(x);
    FoldedIsResidue(y);
  }

  lemma {:induction false} WordSumSplit(s: seq<byte>, t: seq<byte>)
    requires |s| % 2 == 0
    ensures WordSum(s + t) == WordSum(s) + WordSum(t)
  {
    if s == [] {
      assert s + t == t;
    } else {
      WordSumSplit(s[2..], t);
      assert (s + t)[2..] == s[2..] + t;
    }
  }

  /** Replacing an aligned word changes the sum by the difference. */
  lemma {:induction false} WordSumReplace(s: seq<byte>, k: nat, w: U16)
    requires k % 2 == 0 && k + 2 <= |s|
    ensures WordSum(Spliced(s, k, BE16(w))) == WordSum(s) - Get16(s, k) + w
  {
    hide WordSum, Spliced, BE16, Pair;
    var t := Spliced(s, k, BE16(w));
    SplicedParts(s, k, BE16(w));
    Get16Put16(w, t, k);
    assert s == s[..k] + s[k..] && t == t[..k] + t[k..];
    WordSumSplit(s[..k], s[k..]);
    WordSumSplit(t[..k], t[k..]);
    WordSumStep(s, k);
    WordSumStep(t, k);
  }

  /** Inserting the checksum into its zeroed field makes the whole sum congruent to 0 modulo 65535. */
  lemma ChecksumCancels(s: seq<byte>, k: nat)
    requires k % 2 == 0 && k + 2 <= |s| <= 131074 && Get16(s, k) == 0
    ensures WordSum(Spliced(s, k, BE16(ChecksumOf(s)))) % 0xffff == 0
  {
    hide WordSum, Folded, Spliced, Get16, BE16;
    NoOverflow(s);
    FoldedIsResidue(WordSum(s));
    WordSumReplace(s, k, ChecksumOf(s));
    var f := Folded(WordSum(s));
    assert (WordSum(s) - f) % 0xffff == 0;
    assert WordSum(s) + (0xffff - f) == (WordSum(s) - f) + 0xffff;
  }

  // ----- Pseudo-header and verification -----

  /** An absent address, or the four bytes of an IPv4 address. */
  datatype Addr = NoAddr | IPv4(value: U32)

  function PseudoHeader(src: U32, dst: U32, protocol: byte, frameLength: U16): (s: seq<byte>)
    ensures |s| == 12
  {
    BE32(src) + BE32(dst) + [0, protocol] + BE16(frameLength)
  }

  /** The layout of RFC 9293, section 3.1: both addresses, a zero byte, the protocol and the length. */
  lemma PseudoLayout(src: U32, dst: U32, protocol: byte, frameLength: U16)
    ensures var h := PseudoHeader(src, dst, protocol, frameLength);
            && Get32(h, 0) == src && Get32(h, 4) == dst && h[8] == 0 && h[9] == protocol && Get16(h, 10) == frameLength
  {
    var h := PseudoHeader(src, dst, protocol, frameLength);
    hide BE16, BE32;
    assert h[0..4] == BE32(src) && h[4..8] == BE32(dst) && h[10..12] == BE16(frameLength);
    Get32Put32(src, h, 0);
    Get32Put32(dst, h, 4);
    Get16Put16(frameLength, h, 10);
  }

  lemma HalvesSum(s: seq<byte>)
    requires |s| == 4
    ensures WordSum(s) == Get32(s, 0) / 0x1_0000 + Get32(s, 0) % 0x1_0000
  {
    WordSumStep(s, 0);
    WordSumStep(s, 2);
    WordSumEnd(s, 4);
    assert s[0..] == s;
  }

  /** It adds the four address halves, the protocol number and the length to the word sum of what follows. */
  lemma {:induction false} PseudoSum(src: U32, dst: U32, protocol: byte, frameLength: U16, rest: seq<byte>)
    ensures WordSum(PseudoHeader(src, dst, protocol, frameLength) + rest)
            == src / 0x1_0000 + src % 0x1_0000 + dst / 0x1_0000 + dst % 0x1_0000
               + protocol + frameLength + WordSum(rest)
  {
    var h := PseudoHeader(src, dst, protocol, frameLength);
    PseudoLayout(src, dst, protocol, frameLength);
    assert h == h[..4] + (h[4..8] + (h[8..10] + h[10..12]));
    hide PseudoHeader, Pair;
    WordSumSplit(h, rest);
    WordSumSplit(h[..4], h[4..8] + (h[8..10] + h[10..12]));
    WordSumSplit(h[4..8], h[8..10] + h[10..12]);
    WordSumSplit(h[8..10], h[10..12]);
    PseudoHalves(h);
  }

  lemma PseudoHalves(h: seq<byte>)
    requires |h| == 12 && h[8] == 0
    ensures WordSum(h[..4]) == Get32(h, 0) / 0x1_0000 + Get32(h, 0) % 0x1_0000
    ensures WordSum(h[4..8]) == Get32(h, 4) / 0x1_0000 + Get32(h, 4) % 0x1_0000
    ensures WordSum(h[8..10]) == h[9] && WordSum(h[10..12]) == Get16(h, 10)
  {
    HalvesSum(h[..4]);
    HalvesSum(h[4..8]);
    OneWord(h[8..10]);
    OneWord(h[10..12]);
  }

  lemma OneWord(s: seq<byte>)
    requires |s| == 2
    ensures WordSum(s) == Get16(s, 0)
  {
    assert WordSum(s[2..]) == 0;
  }

  const PSEUDO: nat := 12
  const FIELD: nat := 28  // offset of the checksum field behind the pseudo-header

  /** VerifyChecksum: the field against the checksum of pseudo-header and frame with the field zeroed. */
  predicate Verifies(data: seq<byte>, src: U32, dst: U32, protocol: byte) {
    |data| >= 32 &&
    Get16(data, FIELD) == ChecksumOf(Zeroed(data, src, dst, protocol))
  }

  function Zeroed(data: seq<byte>, src: U32, dst: U32, protocol: byte): (z: seq<byte>)
    requires |data| >= 32
    ensures |z| == |data|
  {
    Spliced(Spliced(data, FIELD, BE16(0)), 0, PseudoHeader(src, dst, protocol, (|data| - PSEUDO) % 0x1_0000))
  }

  /** assemblePseudoHeader for the slice of the first `length` bytes; any length but 12 is an error. */
  method AssemblePseudoHeader(a: array<byte>, length: nat, src: Addr, dst: Addr, protocol: byte, frameLength: U16)
    returns (ok: bool)
    requires length <= a.Length
    modifies a
    ensures ok <==> length == PSEUDO && src.IPv4? && dst.IPv4?
    ensures a[..] == if ok then Spliced(old(a[..]), 0, PseudoHeader(src.value, dst.value, protocol, frameLength))
                     else old(a[..])
    ensures ok ==> Get32(a[..], 0) == src.value && Get32(a[..], 4) == dst.value && a[8] == 0 && a[9] == protocol
                   && Get16(a[..], 10) == frameLength
  {
    if length != PSEUDO || src.NoAddr? || dst.NoAddr? {
      return false;
    }
    PseudoLayout(src.value, dst.value, protocol, frameLength);
    ghost var h := PseudoHeader(src.value, dst.value, protocol, frameLength);
    Put(a, 0, PseudoHeader(src.value, dst.value, protocol, frameLength));
    assert forall i :: 0 <= i < 12 ==> a[..][i] == h[i];
    return true;
  }

  /**
   VerifyChecksum. The first 12 bytes are scratch space for the pseudo-header; the frame behind them
   comes back unchanged, except that a missing address leaves its checksum field zeroed.
   */
  method VerifyChecksum(data: array<byte>, src: Addr, dst: Addr, protocol: byte) returns (valid: bool)
    modifies data
    ensures src.IPv4? && dst.IPv4? ==> valid == Verifies(old(data[..]), src.value, dst.value, protocol)
    ensures src.NoAddr? || dst.NoAddr? ==> !valid
    ensures data.Length < 32 ==> data[..] == old(data[..])
    ensures src.IPv4? && dst.IPv4? && data.Length >= 32 ==> data[PSEUDO..] == old(data[PSEUDO..])
    ensures (src.NoAddr? || dst.NoAddr?) && data.Length >= 32 ==> data[..] == Spliced(old(data[..]), FIELD, BE16(0))
  {
    if data.Length < 32 {
      return false;
    }
    ghost var before := data[..];
    var received := Pair(data[FIELD], data[FIELD + 1]);
    assert received == Get16(before, FIELD);
    Put(data, FIELD, BE16(0));
    var ok := AssemblePseudoHeader(data, PSEUDO, src, dst, protocol, (data.Length - PSEUDO) % 0x1_0000);
    if !ok {
      return false;
    }
    assert data[..] == Zeroed(before, src.value, dst.value, protocol);
    var calculated := CalculateChecksum(data, data.Length);
    assert data[..data.Length] == data[..];
    Put(data, FIELD, BE16(received));
    RestoredField(before, src.value, dst.value, protocol);
    valid := received == calculated;
  }

  lemma RestoredField(data: seq<byte>, src: U32, dst: U32, protocol: byte)
    requires |data| >= 32
    ensures var restored := Spliced(Zeroed(data, src, dst, protocol), FIELD, BE16(Get16(data, FIELD)));
            restored[PSEUDO..] == data[PSEUDO..]
  {
    assert BE16(Get16(data, FIELD)) == data[FIELD..FIELD + 2];
    var z := Zeroed(data, src, dst, protocol);
    assert z[PSEUDO..FIELD] == data[PSEUDO..FIELD] && z[FIELD + 2..] == data[FIELD + 2..];
    assert Spliced(z, FIELD, BE16(Get16(data, FIELD)))[PSEUDO..]
        == z[PSEUDO..FIELD] + data[FIELD..FIELD + 2] + z[FIELD + 2..];
  }

  /** The sum is never 0, because the protocol number or the length is not. */
  lemma ZeroedSumPositive(data: seq<byte>, src: U32, dst: U32, protocol: byte)
    requires 32 <= |data| <= PSEUDO + 0xffff
    ensures WordSum(Zeroed(data, src, dst, protocol)) > 0
  {
    hide WordSum;
    var z := Zeroed(data, src, dst, protocol);
    var length := |data| - PSEUDO;
    assert z == z[..10] + z[10..];
    WordSumSplit(z[..10], z[10..]);
    WordSumStep(z, 10);
    ZeroedLength(data, src, dst, protocol);
  }

  lemma ZeroedLength(data: seq<byte>, src: U32, dst: U32, protocol: byte)
    requires 32 <= |data| <= PSEUDO + 0xffff
    ensures Get16(Zeroed(data, src, dst, protocol), 10) == |data| - PSEUDO
  {
    hide BE32;
    var pseudo := PseudoHeader(src, dst, protocol, |data| - PSEUDO);
    assert pseudo[10..12] == BE16(|data| - PSEUDO);
    Get16Put16(|data| - PSEUDO, pseudo, 10);
  }

  lemma {:induction false} ChecksumEqualIff(y: seq<byte>, z: seq<byte>)
    requires 0 < WordSum(y) < 0x1_0000_0000 && 0 < WordSum(z) < 0x1_0000_0000
    ensures ChecksumOf(y) == ChecksumOf(z) <==> WordSum(y) % 0xffff == WordSum(z) % 0xffff
  {
    hide WordSum, Folded;
    FoldedEqualIff(WordSum(y), WordSum(z));
  }

  /**
   Error detection, exactly: overwriting one aligned word of an accepted frame, other than the checksum
   itself, stays undetected if and only if the new word is congruent to the old one modulo 65535.
   */
  lemma {:induction false} WordChangeDetected(data: seq<byte>, src: U32, dst: U32, protocol: byte, k: nat, w: U16)
    requires 32 <= |data| <= PSEUDO + 0xffff && Verifies(data, src, dst, protocol)
    requires k % 2 == 0 && PSEUDO <= k && k + 2 <= |data| && k != FIELD
    ensures Verifies(Spliced(data, k, BE16(w)), src, dst, protocol) <==> w % 0xffff == Get16(data, k) % 0xffff
  {
    var changed := Spliced(data, k, BE16(w));
    var z, zc := Zeroed(data, src, dst, protocol), Zeroed(changed, src, dst, protocol);
    hide WordSum, ChecksumOf, Zeroed, Spliced, Get16, BE16;
    ZeroedChange(data, src, dst, protocol, k, w);
    WordSumReplace(z, k, w);
    NoOverflow(z);
    NoOverflow(zc);
    ZeroedSumPositive(data, src, dst, protocol);
    ZeroedSumPositive(changed, src, dst, protocol);
    ChecksumEqualIff(z, zc);
    ResidueDifference(WordSum(z), Get16(data, k), w);
  }

  lemma ZeroedChange(data: seq<byte>, src: U32, dst: U32, protocol: byte, k: nat, w: U16)
    requires 32 <= |data|
    requires PSEUDO <= k && k + 2 <= |data| && (k + 2 <= FIELD || FIELD + 2 <= k)
    ensures var changed := Spliced(data, k, BE16(w));
            && Zeroed(changed, src, dst, protocol) == Spliced(Zeroed(data, src, dst, protocol), k, BE16(w))
            && Get16(changed, FIELD) == Get16(data, FIELD)
            && Get16(Zeroed(data, src, dst, protocol), k) == Get16(data, k)
  {
    var zero, pseudo := BE16(0), PseudoHeader(src, dst, protocol, (|data| - PSEUDO) % 0x1_0000);
    if k + 2 <= FIELD {
      SplicedApart(data, k, BE16(w), FIELD, zero);
    } else {
      SplicedApart(data, FIELD, zero, k, BE16(w));
    }
    SplicedApart(Spliced(data, FIELD, zero), 0, pseudo, k, BE16(w));
  }

  lemma ResidueDifference(sum: int, before: U16, after: U16)
    ensures (sum - before + after) % 0xffff == sum % 0xffff <==> after % 0xffff == before % 0xffff
  {
  }

  /** A changed checksum field is always detected. */
  lemma FieldChangeDetected(data: seq<byte>, src: U32, dst: U32, protocol: byte, w: U16)
    requires Verifies(data, src, dst, protocol)
    ensures Verifies(Spliced(data, FIELD, BE16(w)), src, dst, protocol) <==> w == Get16(data, FIELD)
  {
    hide ChecksumOf;
    var changed := Spliced(data, FIELD, BE16(w));
    assert changed[FIELD..FIELD + 2] == BE16(w);
    Get16Put16(w, changed, FIELD);
    assert Spliced(changed, FIELD, BE16(0)) == Spliced(data, FIELD, BE16(0));
    assert Zeroed(changed, src, dst, protocol) == Zeroed(data, src, dst, protocol);
  }
}
