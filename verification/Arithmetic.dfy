/** Division facts the solver needs to be told. */
module Arithmetic {
  function Pow2(k: nat): (p: nat)
    ensures p >= 1
  {
    if k == 0 then 1 else 2 * Pow2(k - 1)
  }

  lemma MulSign(k: int, d: int)
    requires d >= 1
    ensures k >= 1 ==> k * d >= d
    ensures k <= -1 ==> k * d <= -d
  {
    assert k >= 1 ==> (k - 1) * d >= 0;
    assert k <= -1 ==> (-k - 1) * d >= 0;
  }

  /** Quotient and remainder are unique. */
  lemma DivUnique(x: int, d: int, q: int, r: int)
    requires d >= 1 && x == q * d + r && 0 <= r < d
    ensures x / d == q && x % d == r
  {
    var k := x / d - q;
    assert k * d == r - x % d by {
      assert x == (x / d) * d + x % d;
      assert k * d == (x / d) * d - q * d;
    }
    MulSign(k, d);
  }

  lemma DivMonotone(a: int, b: int, d: int)
    requires d >= 1 && a <= b
    ensures a / d <= b / d
  {
    var k := a / d - b / d;
    assert k * d == (a - a % d) - (b - b % d) by {
      assert k * d == (a / d) * d - (b / d) * d;
    }
    MulSign(k, d);
  }

  lemma DivPlusOne(x: int, d: int)
    requires d >= 1
    ensures (x + d) / d == x / d + 1
  {
    assert (x / d + 1) * d == (x / d) * d + d;
    DivUnique(x + d, d, x / d + 1, x % d);
  }

  /** The successor of x either completes a multiple of d or moves on within it. */
  lemma DivSuccessor(x: int, d: int)
    requires d >= 1
    ensures x % d == d - 1 ==> (x + 1) / d == x / d + 1 && (x + 1) % d == 0
    ensures x % d != d - 1 ==> (x + 1) / d == x / d && (x + 1) % d == x % d + 1
  {
    if x % d == d - 1 {
      assert (x / d + 1) * d == (x / d) * d + d;
      DivUnique(x + 1, d, x / d + 1, 0);
    } else {
      DivUnique(x + 1, d, x / d, x % d + 1);
    }
  }
}
