/** The Stark field and the machine integers the source computes with. */
module Felts {
  /** The Stark prime, 2^251 + 17 * 2^192 + 1. */
  const PRIME: nat := 0x0800000000000011000000000000000000000000000000000000000000000001

  const TWO_32: nat := 0x1_0000_0000
  const TWO_64: nat := 0x1_0000_0000_0000_0000
  const TWO_128: nat := 0x1_0000_0000_0000_0000_0000_0000_0000_0000
  const TWO_256: nat := 0x1_0000_0000_0000_0000_0000_0000_0000_0000_0000_0000_0000_0000_0000_0000_0000_0000

  type Felt = x: nat | x < PRIME
  type U32 = x: nat | x < TWO_32
  type U64 = x: nat | x < TWO_64
  type U128 = x: nat | x < TWO_128
  type U256 = x: nat | x < TWO_256

  function Add(a: Felt, b: Felt): Felt {
    (a + b) % PRIME
  }

  function Mul(a: Felt, b: Felt): Felt {
    (a * b) % PRIME
  }
}
