/** The ranges of 64-bit integers. */
module Numbers {
  const TWO63: int := 0x8000_0000_0000_0000
  const TWO64: int := 0x1_0000_0000_0000_0000
}
