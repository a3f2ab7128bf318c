/** Shared value types: optional results, byte strings and the unsigned integer widths of the source. */
module Prelude {
  datatype Option<+T> = None | Some(value: T)

  /** One octet of a `std::vector<unsigned char>` or of a raw `std::string` payload. */
  type Byte = b: int | 0 <= b < 256

  type Bytes = seq<Byte>

  const TWO_32: int := 0x1_0000_0000
  const TWO_64: int := 0x1_0000_0000_0000_0000

  type Uint32 = n: int | 0 <= n < TWO_32

  type Uint64 = n: int | 0 <= n < TWO_64
}
