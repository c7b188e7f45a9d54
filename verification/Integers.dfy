/** Machine word sizes and counters that wrap. */
module Integers {
  const U32: nat := 0x1_0000_0000
  const U64: nat := 0x1_0000_0000_0000_0000

  /** A 64-bit length counter: after n bytes in all, and len more. */
  function WrapAdd(ghost n: nat, total: nat, len: nat): (r: nat)
    requires total == n % U64
    ensures r == (n + len) % U64
  {
    (total + len) % U64
  }
}
