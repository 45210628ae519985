/** Bytes and the sizes the native service bounds. */
module Bytes {
  type Byte = b: int | 0 <= b < 256

  const MEBIBYTE: nat := 1048576
}
