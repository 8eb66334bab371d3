
module Words {
  /** The number of values of a 32-bit word. */
  const TWO32 := 0x1_0000_0000
}
