/** The byte as both sensor back ends see it: an SPI transfer's element
    and one raw scratchpad byte of the 1-Wire file. */
module Bytes {
  /** An integer in `0..255`, as Python's `bytes` and SPI lists hold them. */
  type Byte = b: int | 0 <= b < 256
}
