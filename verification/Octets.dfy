/** Bytes, and the 32-byte digests that name things. */
module Octets {
  type Byte = x: int | 0 <= x < 256
  type Bytes = seq<Byte>
  type Hash = h: Bytes | |h| == 32 witness seq(32, _ => 0)

  /** All zeros: the parent of genesis, the name of a block still being built, and a padding leaf. */
  function ZeroHash(): Hash {
    seq(32, _ => 0)
  }
}
