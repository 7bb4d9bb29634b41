/** Unsigned 32-bit integers as the driver stores them (`uint32_t`), with explicit wrap-around. */
module UInt32 {

  const Modulus: int := 0x1_0000_0000

  type U32 = x: nat | x < 0x1_0000_0000

  /** Reduces an exact integer result to the value a `uint32_t` holds after the operation. */
  function Wrap(x: int): U32
  {
    x % Modulus
  }
}
