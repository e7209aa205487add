module Bytes {
  type byte = x: int | 0 <= x < 256

  /** The 16-bit number with the given high and low byte. */
  function Word(hi: byte, lo: byte): (w: nat)
    ensures w < 65536
  {
    (hi as int) * 256 + (lo as int)
  }
}
