/**
 The sequence-number arithmetic of lib/utils.go: addition modulo 2^32 and the four
 wrap-aware comparisons, and how they relate to unbounded stream offsets.
 */
module Serial {

  const MODULUS: int := 0x1_0000_0000
  const HALF: int := 0x8000_0000

  /** A uint32. */
  type Seq32 = x: int | 0 <= x < 0x1_0000_0000

  function SeqIncrement(s: Seq32): Seq32 {
    (s + 1) % MODULUS
  }

  function SeqIncrementBy(s: Seq32, inc: nat): Seq32 {
    (s + inc) % MODULUS
  }

  /** Go's isGreater: take the shorter way round the circle and see whether it leads from b to a. */
  predicate IsGreater(a: Seq32, b: Seq32) {
    if a == b then
      false
    else
      var diff := if a < b then b - a else a - b;
      var wrapDiff := MODULUS - diff;
      var distance := if diff < wrapDiff then diff else wrapDiff;
      (distance + b) % MODULUS == a
  }

  predicate IsGreaterOrEqual(a: Seq32, b: Seq32) {
    IsGreater(a, b) || a == b
  }

  predicate IsLess(a: Seq32, b: Seq32) {
    !IsGreaterOrEqual(a, b)
  }

  predicate IsLessOrEqual(a: Seq32, b: Seq32) {
    !IsGreater(a, b)
  }

  /** The number a stream offset carries on the wire. */
  function Wire(offset: int): (s: Seq32)
    ensures 0 <= offset < MODULUS ==> s == offset
  {
    offset % MODULUS
  }

  /** isGreater is exactly "ahead by at most half the circle". */
  lemma GreaterIsForwardHalf(a: Seq32, b: Seq32)
    ensures IsGreater(a, b) <==> 0 < (a - b) % MODULUS <= HALF
  {
  }

  /** At a distance of exactly 2^31, and only there, each of two numbers is "greater" than the other. */
  lemma BothGreaterOnlyAntipodal(a: Seq32, b: Seq32)
    ensures IsGreater(a, b) && IsGreater(b, a) <==> a - b == HALF || b - a == HALF
  {
  }

  /** For offsets less than 2^31 apart all four wire comparisons are the unbounded order. */
  lemma SerialOrderLifts(x: int, y: int)
    requires -HALF < x - y < HALF
    ensures IsGreater(Wire(x), Wire(y)) <==> x > y
    ensures IsGreaterOrEqual(Wire(x), Wire(y)) <==> x >= y
    ensures IsLess(Wire(x), Wire(y)) <==> x < y
    ensures IsLessOrEqual(Wire(x), Wire(y)) <==> x <= y
    ensures Wire(x) == Wire(y) <==> x == y
  {
  }

  /** Addition on the wire is addition of offsets, across any number of wraps. */
  lemma IncrementLifts(x: int, inc: nat)
    ensures SeqIncrementBy(Wire(x), inc) == Wire(x + inc)
    ensures SeqIncrement(Wire(x)) == Wire(x + 1)
  {
  }

  /** Inside a window shorter than 2^31 the order is transitive, also after increments that wrap. */
  lemma {:induction false} TransitiveInWindow(lo: int, x: int, y: int, z: int, inc: nat)
    requires lo <= x < lo + HALF && lo <= y < lo + HALF && lo <= z < lo + HALF && z + inc < lo + HALF
    requires IsGreaterOrEqual(Wire(y), Wire(x)) && IsGreater(Wire(z), Wire(y))
    ensures IsGreater(SeqIncrementBy(Wire(z), inc), Wire(x))
  {
    SerialOrderLifts(y, x);
    SerialOrderLifts(z, y);
    SerialOrderLifts(z + inc, x);
    IncrementLifts(z, inc);
  }

  /** Go's raw < on wire numbers is the stream order exactly when no wrap lies between the two offsets. */
  lemma RawOrderIffSameEpoch(x: int, y: int)
    requires x != y && -HALF < x - y < HALF
    ensures (Wire(x) < Wire(y) <==> x < y) <==> x / MODULUS == y / MODULUS
  {
  }
}
