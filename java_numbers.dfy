/** Java's fixed-width integers, written out on Dafny's unbounded int. */
module JavaNumbers {

  const TWO_32: int := 0x1_0000_0000
  const TWO_63: int := 0x8000_0000_0000_0000
  const TWO_64: int := 0x1_0000_0000_0000_0000
  const INT_MIN: int := -0x8000_0000

  /** Java `int`. */
  type Int32 = x: int | -0x8000_0000 <= x < 0x8000_0000

  /** Java `long`. */
  type Int64 = x: int | -0x8000_0000_0000_0000 <= x < 0x8000_0000_0000_0000

  /** One unsigned byte of a `byte[]` buffer. */
  type Byte = x: int | 0 <= x < 256

  /** The value Java's 32-bit int arithmetic gives for the mathematical result x. */
  function Wrap32(x: int): (r: Int32)
    ensures (r - x) % TWO_32 == 0
    ensures INT_MIN <= x < -INT_MIN ==> r == x
  {
    (x + 0x8000_0000) % TWO_32 - 0x8000_0000
  }

  /** Two values that differ by a multiple of 2^32 wrap to the same int. */
  lemma {:induction false} WrapCongruent(x: int, y: int)
    requires (x - y) % TWO_32 == 0
    ensures Wrap32(x) == Wrap32(y)
  {
    var q := (x - y) / TWO_32;
    assert x == y + TWO_32 * q;
    var a := y + 0x8000_0000;
    assert (a + TWO_32 * q) % TWO_32 == a % TWO_32 by {
      var s := a % TWO_32;
      var t := a / TWO_32;
      assert a == TWO_32 * t + s && 0 <= s < TWO_32;
      assert a + TWO_32 * q == TWO_32 * (t + q) + s;
    }
  }

  /** Java's unary minus on an int: -Integer.MIN_VALUE is Integer.MIN_VALUE again. */
  function Neg32(x: Int32): (r: Int32)
    ensures x != INT_MIN ==> r == -x
    ensures x == INT_MIN ==> r == INT_MIN
  {
    var negated: int := -(x as int);
    Wrap32(negated)
  }
}
