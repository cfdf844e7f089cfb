/** Bytes and 16-bit registers. */
module Words {
  type Byte = b: int | 0 <= b < 0x100
  type Word = w: int | 0 <= w < 0x10000
}
