module WordSize {

  /** The number of values of a 32-bit word. */
  const WRAP: nat := 0x1_0000_0000
}
