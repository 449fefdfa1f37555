/** Unsigned 32-bit masks as the sets of positions of their one bits:
    `a | b` is `a + b`, `a & b` is `a * b`, `a & ~b` is `a - b`,
    `(m & b) != 0` is `m * b != {}`, and `1u << k` is `Bit(k)`. */
module Bits {

  /** A `uint32_t` used as a bit mask. */
  type Mask = m: set<nat> | forall i :: i in m ==> i < 32

  /** `1u << k` */
  function Bit(k: nat): (m: Mask)
    requires k < 32
    ensures forall i :: i in m <==> i == k
  {
    {k}
  }

  /** `(1u << k) - 1`: the bits below `k`. */
  function Below(k: nat): (m: Mask)
    requires k <= 32
    ensures forall i: nat :: i in m <==> i < k
  {
    if k == 0 then {} else Below(k - 1) + {k - 1}
  }
}
