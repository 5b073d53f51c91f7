/** Java's 32-bit int, and the narrowing conversion both the compiler and the pattern binder use. */
module JavaInts {

  /** A Java int. */
  newtype Int32 = x: int | -0x8000_0000 <= x < 0x8000_0000

  /** BigDecimal.intValue on an integral literal: the low 32 bits, as a signed int. */
  function Wrap32(n: int): (r: Int32)
    ensures -0x8000_0000 <= n < 0x8000_0000 ==> r as int == n
    ensures (r as int - n) % 0x1_0000_0000 == 0
  {
    var low := n % 0x1_0000_0000;
    (if low < 0x8000_0000 then low else low - 0x1_0000_0000) as Int32
  }
}
