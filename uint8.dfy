/** The C type `uint8_t`, used for every register, buffer cell and RTC counter. */
module Uint8 {

  /** An unsigned 8-bit value. */
  newtype Byte = x: int | 0 <= x < 0x100

  /** Truncation of an integer to its low eight bits, as a C assignment to `uint8_t` does. */
  function Truncate(x: int): (r: Byte)
    ensures 0 <= x < 0x100 ==> r as int == x
    ensures (r as int - x) % 0x100 == 0
  {
    (x % 0x100) as Byte
  }
}
