/** Octets as numbers, and division facts that the solver needs spelled out. */
module Arithmetic {

  type byte = n: nat | n < 256
  type uint32 = x: int | 0 <= x < 0x1_0000_0000
  type int32 = x: int | -0x8000_0000 <= x < 0x8000_0000

  /** C's division, which truncates toward zero, for a positive divisor. */
  function Quotient(x: int, d: nat): int
    requires d > 0
  {
    if x >= 0 then x / d else -(-x / d)
  }

  function Remainder(x: int, d: nat): int
    requires d > 0
  {
    x - d * Quotient(x, d)
  }

  lemma ProductGap(d: nat, a: int, b: int)
    requires a < b
    ensures d * a + d <= d * b
  {
    var k := b - a - 1;
    assert d * b == d * a + d + d * k && d * k >= 0;
  }

  lemma DivisionUnique(v: int, d: nat, q: int, r: nat)
    requires v == d * q + r && r < d
    ensures v / d == q && v % d == r
  {
    var (q', r') := (v / d, v % d);
    assert v == d * q' + r';
    if q' < q { ProductGap(d, q', q); }
    if q < q' { ProductGap(d, q, q'); }
  }

  function Power256(k: nat): nat { if k == 0 then 1 else 256 * Power256(k - 1) }
}
