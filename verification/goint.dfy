/** Go's int64 and its two's-complement arithmetic. */
module GoInt {

  const MinInt64: int := -0x8000_0000_0000_0000
  const MaxInt64: int := 0x7fff_ffff_ffff_ffff
  const MaxUint64: int := 0xffff_ffff_ffff_ffff
  const Modulus: int := 0x1_0000_0000_0000_0000

  /** The values of a Go int64. */
  type int64 = x: int | -0x8000_0000_0000_0000 <= x <= 0x7fff_ffff_ffff_ffff

  /**
   * The int64 that an unbounded result wraps to, as Go's +, - and * do:
   * the only int64 congruent to x modulo 2^64, and x itself when x fits.
   */
  function Wrap64(x: int): (r: int64)
    ensures (r - x) % Modulus == 0
    ensures MinInt64 <= x <= MaxInt64 ==> r == x
  {
    var y := x % Modulus;
    if y <= MaxInt64 then y else y - Modulus
  }
}
