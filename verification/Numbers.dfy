/** Bytes, powers of two, and products kept out of the solver's arithmetic. */
module Numbers {
  type Byte = x: nat | x < 256

  function Pow2(k: nat): (p: nat)
    ensures p > 0
  {
    if k == 0 then 1 else 2 * Pow2(k - 1)
  }

  function Times(a: nat, b: nat): nat { a * b }
}
