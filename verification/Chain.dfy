/** What every component takes from the chain. */
module Chain {
  type Address = nat

  /** The largest 256-bit word. */
  const U256_MAX: nat := 0x1_0000000000000000_0000000000000000_0000000000000000_0000000000000000 - 1
}
