/** Bytes. */
module Octets {
  type UInt8 = b: int | 0 <= b < 0x100
  type Bytes = seq<UInt8>
}
