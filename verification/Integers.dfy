/** Fixed-width integers of the implementation language. */
module Integers {
  const MAX_INT32 := 0x7fff_ffff
  const TWO_63 := 0x8000_0000_0000_0000

  /** The low 64 bits of an integer read as a signed number. */
  function Int64(x: int): int {
    var low := x % (2 * TWO_63);
    if low < TWO_63 then low else low - 2 * TWO_63
  }

  /** The low 32 bits of an integer read as a signed number. */
  function Int32(x: int): int {
    var low := x % (2 * (MAX_INT32 + 1));
    if low <= MAX_INT32 then low else low - 2 * (MAX_INT32 + 1)
  }

  lemma Int32Keeps(x: int)
    requires 0 <= x <= MAX_INT32
    ensures Int32(x) == x
  {
  }

  /** Cutting a natural number never makes it larger. */
  lemma Int64Below(x: nat)
    ensures Int64(x) <= x < TWO_63 + (x - Int64(x))
  {
  }

  lemma Int64Keeps(x: int)
    requires -TWO_63 <= x < TWO_63
    ensures Int64(x) == x
  {
  }

  lemma Product(a: nat, b: nat)
    ensures a * b >= 0
  {
  }

  lemma Difference(a: int, b: int, c: int)
    ensures (a - b) * c == a * c - b * c
  {
  }

  /** Rounding down a quotient counts how often the divisor fits. */
  lemma DivisionFloors(avail: int, req: int, n: int)
    requires avail >= 0 && req > 0
    ensures n * req <= avail <==> n <= avail / req
  {
    var d := avail / req;
    assert avail == d * req + avail % req;
    if n <= d {
      Difference(d, n, req);
      Product(d - n, req);
    } else {
      Difference(n, d + 1, req);
      Difference(d + 1, d, req);
      Product(n - d - 1, req);
    }
  }

  lemma Distributes(a: nat, b: nat, d: int)
    ensures (a + b) * d == a * d + b * d
    ensures d >= 0 ==> 0 <= a * d && 0 <= b * d
  {
  }
}
