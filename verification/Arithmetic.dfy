/** Small facts about multiplication and division that the solver does not find alone. */
module Arithmetic {

  lemma MulBounds(m: int, d: int)
    requires d > 0
    ensures m >= 1 ==> m * d >= d
    ensures m <= -1 ==> m * d <= -d
  {
    if m >= 1 {
      assert (m - 1) * d >= 0;
    } else if m <= -1 {
      assert (m + 1) * d <= 0;
    }
  }

  lemma MulMonotone(a: int, b: int, d: nat)
    requires a <= b
    ensures a * d <= b * d
  {
    assert (b - a) * d >= 0;
  }

  /** Quotient and remainder are unique. */
  lemma DivModUnique(x: int, d: nat, quotient: int, remainder: int)
    requires d > 0 && 0 <= remainder < d && x == quotient * d + remainder
    ensures x / d == quotient && x % d == remainder
  {
    assert (x / d - quotient) * d == remainder - x % d;
    MulBounds(x / d - quotient, d);
  }

  lemma DivBelow(x: nat, d: nat, bound: nat)
    requires d > 0 && x < bound * d
    ensures x / d < bound
  {
    assert (x / d - bound) * d == x - x % d - bound * d;
    MulBounds(x / d - bound, d);
  }

  lemma CeilDiv(x: nat, d: nat)
    requires d > 0
    ensures d * ((x + d - 1) / d) >= x
    ensures x > 0 ==> d * ((x + d - 1) / d - 1) < x
  {
    var c := (x + d - 1) / d;
    assert x + d - 1 == d * c + (x + d - 1) % d;
    assert d * (c - 1) == d * c - d;
  }
}
