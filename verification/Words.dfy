/** Sizes that several parts share. */
module Words {

  /** How many values a 32-bit unsigned int has. */
  const UINT: nat := 0x1_0000_0000
}
