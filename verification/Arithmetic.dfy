/** Machine words, and the laws of division the other modules use. */
module Arithmetic {

  function Wrap32(n: int): nat { n % 0x1_0000_0000 }

  function Wrap64(n: int): nat { n % 0x1_0000_0000_0000_0000 }

  lemma Scales(a: int, b: int, d: nat)
    requires a <= b
    ensures a * d <= b * d
  {
    assert (b - a) * d >= 0;
  }

  /** Quotient and remainder are unique. */
  lemma DivisionIs(x: int, d: nat, q: int, r: nat)
    requires d > 0 && x == q * d + r && r < d
    ensures x / d == q && x % d == r
  {
    var k, e := x / d, x % d;
    assert k * d + e == x;
    assert (k - q) * d == r - e && (q - k) * d == e - r;
    if k > q {
      Scales(1, k - q, d);
      assert false;
    }
    if k < q {
      Scales(1, q - k, d);
      assert false;
    }
  }

  /** Adding a multiple of `d` leaves the remainder alone. */
  lemma SameRemainder(x: int, y: int, k: int, d: nat)
    requires d > 0 && x == y + k * d
    ensures x % d == y % d
  {
    var q := y / d;
    assert (q + k) * d == q * d + k * d;
    DivisionIs(x, d, q + k, y % d);
  }

  /** Counting up, a remainder grows by one or falls to zero. */
  lemma SuccessorModulo(x: nat, d: nat)
    requires d > 0
    ensures if x % d == d - 1 then (x + 1) % d == 0 && (x + 1) / d == x / d + 1
            else (x + 1) % d == x % d + 1 && (x + 1) / d == x / d
  {
    var q, r := x / d, x % d;
    if r + 1 < d {
      DivisionIs(x + 1, d, q, r + 1);
    } else {
      DivisionIs(x + 1, d, q + 1, 0);
    }
  }
}
