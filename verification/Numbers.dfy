/** The smaller, the larger, and what is left of a number in a machine word. */
module Numbers {

  function Min(a: int, b: int): int {
    if a < b then a else b
  }

  function Max(a: int, b: int): int {
    if a < b then b else a
  }

  /** The value an int8_t holds after x is stored in it. */
  function ToInt8(x: int): int {
    (x + 128) % 256 - 128
  }

  function ToUint16(x: int): nat {
    x % 0x1_0000
  }
}
