/** Java's fixed-width integer arithmetic, written out over unbounded `int`. */
module JavaInt {

  const TWO_32: int := 0x1_0000_0000
  const MIN_INT: int := -0x8000_0000
  const MAX_INT: int := 0x7FFF_FFFF

  /** A value of Java's `int`. */
  type int32 = v: int | MIN_INT <= v <= MAX_INT

  /** A value of Java's `byte`. */
  type int8 = v: int | -128 <= v < 128

  predicate InInt32(v: int) { MIN_INT <= v <= MAX_INT }

  /** The two's-complement wrap-around of a Java `int` operation whose exact
      result is `v`. */
  function Wrap32(v: int): (r: int32)
    ensures (r - v) % TWO_32 == 0
    ensures InInt32(v) ==> r == v
  {
    (v - MIN_INT) % TWO_32 + MIN_INT
  }

  /** Java's narrowing cast `(byte) v`: keep the low eight bits, read them as signed. */
  function ToByte(v: int): (b: int8)
    ensures (b - v) % 256 == 0
    ensures -128 <= v < 128 ==> b == v
  {
    (v + 128) % 256 - 128
  }

  /** Wrapping only depends on the value modulo 2^32. */
  lemma Wrap32Congruent(u: int, v: int)
    requires (u - v) % TWO_32 == 0
    ensures Wrap32(u) == Wrap32(v)
  {
    var k := (u - v) / TWO_32;
    assert u - MIN_INT == (v - MIN_INT) + k * TWO_32;
    ModShift(v - MIN_INT, k);
  }

  lemma ModShift(a: int, k: int)
    ensures (a + k * TWO_32) % TWO_32 == a % TWO_32
  {
    var q, r := a / TWO_32, a % TWO_32;
    assert a + k * TWO_32 == (q + k) * TWO_32 + r;
  }
}
