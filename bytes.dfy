/** Octets, as Python's `bytes` holds them. */
module Bytes {

  type byte = b: int | 0 <= b < 256

  /** The byte that an ASCII character occupies. */
  function AsciiByte(c: char): (b: byte)
    requires c as int < 128
    ensures b == c as int
  {
    c as int
  }

  /** The character whose code point is the byte value (the identity on ASCII). */
  function ByteChar(b: byte): (c: char)
    ensures c as int == b
  {
    b as char
  }
}
