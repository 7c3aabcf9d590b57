/** Fixed-width unsigned arithmetic of the C++ code: `unsigned int` is 32 bits and
    `size_t` is 64 bits (LP64). Results wrap modulo 2^width. */
module Words {

  const U32: int := 0x1_0000_0000
  const U64: int := 0x1_0000_0000_0000_0000
  const INT_MAX: int := 0x7FFF_FFFF

  type u32 = x: int | 0 <= x < U32

  predicate IsInt32(x: int) { -0x8000_0000 <= x <= INT_MAX }

  /** An unsigned 32-bit result of a mathematical value. */
  function Wrap32(x: int): (r: u32)
    ensures 0 <= x < U32 ==> r == x
  {
    x % U32
  }

  /** An unsigned 64-bit result of a mathematical value. */
  function Wrap64(x: int): (r: int)
    ensures 0 <= r < U64
    ensures 0 <= x < U64 ==> r == x
  {
    x % U64
  }

  /** A difference that went below zero wraps to the top of the 64-bit range. */
  lemma Wrap64Negative(x: int)
    requires -U64 <= x < 0
    ensures Wrap64(x) == x + U64
  {
  }
}
