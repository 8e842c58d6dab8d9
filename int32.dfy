/** The two's-complement 32-bit integers of C# `int`, with the unchecked wrap-around of its arithmetic. */
module Int32 {

  const MinValue: int := -0x8000_0000
  const MaxValue: int := 0x7fff_ffff
  const Modulus: int := 0x1_0000_0000

  newtype int32 = x: int | -0x8000_0000 <= x < 0x8000_0000

  /** The 32-bit value that an unchecked C# operation yields for the mathematical result `x`. */
  function Wrap(x: int): (r: int32)
    ensures (r as int - x) % Modulus == 0
    ensures MinValue <= x <= MaxValue ==> r as int == x
  {
    var m := x % Modulus;
    if m > MaxValue then (m - Modulus) as int32 else m as int32
  }

  /** `x++` on a C# `int`. */
  function Inc(x: int32): (r: int32)
    ensures x as int < MaxValue ==> r as int == x as int + 1
    ensures x as int == MaxValue ==> r as int == MinValue
  {
    Wrap(x as int + 1)
  }

  /** `a * b` on two C# `int`s. */
  function Mul(a: int32, b: int32): (r: int32)
    ensures MinValue <= a as int * b as int <= MaxValue ==> r as int == a as int * b as int
  {
    Wrap(a as int * b as int)
  }
}
