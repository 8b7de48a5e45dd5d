/**
 * What the two SFTP stream buffers share with `std::streambuf`: the
 * end-of-file marker of `int_type`, the three seek directions and the
 * conversion of a stream position to the unsigned 64-bit offset libssh2
 * seeks to.
 */
module StreamBuffer {
  /** `traits_type::eof()`. */
  const Eof: int := -1

  /** 2^64: `libssh2_uint64_t` holds the values below it. */
  const Word64: nat := 0x1_0000_0000_0000_0000

  /** `std::ios_base::seekdir`. */
  datatype SeekDir = Beg | Cur | End

  /** The cast `(libssh2_uint64_t)pos`: a negative position wraps around. */
  function ToOffset(pos: int): (r: nat)
    ensures r < Word64
    ensures 0 <= pos < Word64 ==> r == pos
    ensures pos < 0 && -(Word64 as int) <= pos ==> r == Word64 as int + pos
  {
    pos % Word64
  }

  /** `traits_type::to_int_type` of the character a value is stored as: its low eight bits. */
  function ToIntType(value: int): (r: int)
    ensures 0 <= r < 256
    ensures 0 <= value < 256 ==> r == value
  {
    value % 256
  }

  function Min(a: int, b: int): (r: int)
    ensures r <= a && r <= b && (r == a || r == b)
  {
    if a <= b then a else b
  }

  function Max(a: int, b: int): (r: int)
    ensures a <= r && b <= r && (r == a || r == b)
  {
    if a <= b then b else a
  }
}
