/** The size of the machine's words. */
module Words {
  /** 2^32 */
  const WORD: nat := 0x1_0000_0000
}
