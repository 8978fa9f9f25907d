/** An 8-bit byte. */
module Bytes {
  type Byte = x: int | 0 <= x < 256
}
