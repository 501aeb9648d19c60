/** C strings: the bytes before the terminating NUL. */
module Bytes {
  newtype byte = x: int | 0 <= x < 256

  type CString = seq<byte>

  /** A plain `char` read as a number: bytes of 128 and more are negative. */
  function Signed(b: byte): (c: int)
    ensures -128 <= c < 128 && c % 256 == b as int
  {
    if b < 128 then b as int else b as int - 256
  }
}
