/** Go's unsigned 64-bit integers. */
module Words {

  const UINT64_END: nat := 0x1_0000_0000_0000_0000

  type uint64 = x: int | 0 <= x < UINT64_END
}
