/** Byte strings, as the kernel and the Rust side see them. */
module ByteStrings {
  newtype Byte = x: int | 0 <= x < 256
  type Bytes = seq<Byte>
}
