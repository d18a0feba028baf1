/** Machine words, and division by a positive number from multiplication. */
module Arithmetic {

  const TWO_63 := 0x8000_0000_0000_0000
  const TWO_64 := 0x1_0000_0000_0000_0000

  lemma MulSign(a: int, d: int)
    requires d > 0
    ensures a >= 1 ==> a * d >= d
    ensures a <= -1 ==> a * d <= -d
  {
    if a >= 1 { assert a * d == d + (a - 1) * d && (a - 1) * d >= 0; }
    if a <= -1 { assert -a * d == d + (-a - 1) * d && (-a - 1) * d >= 0; }
  }

  lemma Quotient(x: int, d: int, q: int)
    requires d > 0 && 0 <= x - q * d < d
    ensures x / d == q && x % d == x - q * d
  {
    var k, r := x / d, x % d;
    assert x == d * k + r && 0 <= r < d;
    assert (k - q) * d == d * k - q * d;
    MulSign(k - q, d);
  }

  /** The quotient rounded up. */
  function Ceil(n: nat, d: int): nat
    requires d > 0
  {
    (n + d - 1) / d
  }

  lemma CeilSteps(n: nat, d: int)
    requires d > 0
    ensures n == 0 ==> Ceil(n, d) == 0
    ensures 0 < n <= d ==> Ceil(n, d) == 1
    ensures n > d ==> Ceil(n, d) == Ceil(n - d, d) + 1
  {
    if n == 0 {
      Quotient(d - 1, d, 0);
    } else if n <= d {
      Quotient(n + d - 1, d, 1);
    } else {
      var x := n - d + d - 1;
      var k := x / d;
      assert (k + 1) * d == d * k + d;
      Quotient(x + d, d, k + 1);
    }
  }
}
