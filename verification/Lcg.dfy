/** The generator inside `host/trace/bbv_count.cc`: the linear congruential step of POSIX
    `drand48`, computed in wrapping 64-bit arithmetic and masked to 48 bits. */
module Lcg {

  import opened Arithmetic

  /** `rng_next` on the state: a wrapping multiply and add, then the mask `2^48 - 1`. */
  function Next(state: nat): nat {
    Wrap64(0x5_DEEC_E66D * state + 0xB) % 0x1_0000_0000_0000
  }

  /** `rng_seed`: the seed shifted left by 16, plus 0x330E, both wrapping. */
  function Seed(seed: nat): nat {
    Wrap64(Wrap64(seed * 0x1_0000) + 0x330E)
  }

  function Iterate(state: nat, n: nat): nat {
    if n == 0 then state else Next(Iterate(state, n - 1))
  }

  /** The low half of `state >> 16`, the only part of a state that is ever used as a weight. */
  function WeightOf(state: nat): nat {
    state / 0x1_0000 % 0x1_0000
  }

  // ---- the weights see only the low 32 bits of a state ----

  /** The 64-bit wrap never shows through the mask. */
  lemma NextIsModulo48(s: nat)
    ensures Next(s) == (0x5_DEEC_E66D * s + 0xB) % 0x1_0000_0000_0000
  {
    var x := 0x5_DEEC_E66D * s + 0xB;
    var q := x / 0x1_0000_0000_0000_0000;
    SameRemainder(x, Wrap64(x), 0x1_0000 * q, 0x1_0000_0000_0000);
  }

  lemma NextKeepsLow32(s: nat, t: nat)
    requires s % 0x1_0000_0000 == t % 0x1_0000_0000
    ensures Next(s) % 0x1_0000_0000 == Next(t) % 0x1_0000_0000
  {
    NextIsModulo48(s);
    NextIsModulo48(t);
    Low32OfStep(s);
    Low32OfStep(t);
  }

  lemma Low32OfStep(s: nat)
    ensures (0x5_DEEC_E66D * s + 0xB) % 0x1_0000_0000_0000 % 0x1_0000_0000
         == (0x5_DEEC_E66D * (s % 0x1_0000_0000) + 0xB) % 0x1_0000_0000
  {
    var q, r := s / 0x1_0000_0000, s % 0x1_0000_0000;
    var x, y := 0x5_DEEC_E66D * s + 0xB, 0x5_DEEC_E66D * r + 0xB;
    SameRemainder(x, y, 0x5_DEEC_E66D * q, 0x1_0000_0000);
    var h := x / 0x1_0000_0000_0000;
    SameRemainder(x, x % 0x1_0000_0000_0000, 0x1_0000 * h, 0x1_0000_0000);
  }

  lemma {:induction false} IterateKeepsLow32(s: nat, t: nat, n: nat)
    requires s % 0x1_0000_0000 == t % 0x1_0000_0000
    ensures Iterate(s, n) % 0x1_0000_0000 == Iterate(t, n) % 0x1_0000_0000
  {
    if n > 0 {
      IterateKeepsLow32(s, t, n - 1);
      NextKeepsLow32(Iterate(s, n - 1), Iterate(t, n - 1));
    }
  }

  lemma Wrap64KeepsLow32(x: nat)
    ensures Wrap64(x) % 0x1_0000_0000 == x % 0x1_0000_0000
  {
    var h := x / 0x1_0000_0000_0000_0000;
    SameRemainder(x, Wrap64(x), 0x1_0000_0000 * h, 0x1_0000_0000);
  }

  lemma ShiftLow32(a: nat)
    ensures a * 0x1_0000 % 0x1_0000_0000 == a % 0x1_0000 * 0x1_0000
  {
    var q, r := a / 0x1_0000, a % 0x1_0000;
    assert a * 0x1_0000 == 0x1_0000_0000 * q + r * 0x1_0000;
  }

  lemma SeedLow32(a: nat)
    ensures Seed(a) % 0x1_0000_0000 == (a % 0x1_0000 * 0x1_0000 + 0x330E) % 0x1_0000_0000
  {
    ShiftLow32(a);
    Wrap64KeepsLow32(a * 0x1_0000);
    Wrap64KeepsLow32(Wrap64(a * 0x1_0000) + 0x330E);
    AddLow32(Wrap64(a * 0x1_0000), a % 0x1_0000 * 0x1_0000);
  }

  lemma AddLow32(x: nat, y: nat)
    requires x % 0x1_0000_0000 == y
    ensures (x + 0x330E) % 0x1_0000_0000 == (y + 0x330E) % 0x1_0000_0000
  {
  }

  /** The weight drawn at step `n` depends on the seed modulo 2^16 only. */
  lemma WeightHasPeriod16(a: nat, b: nat, n: nat)
    requires a % 0x1_0000 == b % 0x1_0000
    ensures WeightOf(Iterate(Seed(a), n)) == WeightOf(Iterate(Seed(b), n))
  {
    SeedLow32(a);
    SeedLow32(b);
    IterateKeepsLow32(Seed(a), Seed(b), n);
    WeightSeesLow32(Iterate(Seed(a), n));
    WeightSeesLow32(Iterate(Seed(b), n));
  }

  lemma WeightSeesLow32(s: nat)
    ensures WeightOf(s) == WeightOf(s % 0x1_0000_0000)
  {
    var q, r := s / 0x1_0000_0000, s % 0x1_0000_0000;
    SameRemainder(s / 0x1_0000, r / 0x1_0000, q, 0x1_0000);
  }

  // ---- the full period ----

  function Pow2(k: nat): nat {
    if k == 0 then 1 else 2 * Pow2(k - 1)
  }

  predicate Divides(d: nat, x: int)
    requires d > 0
  {
    x % d == 0
  }

  lemma {:induction false} Pow2Positive(k: nat)
    ensures Pow2(k) > 0
  {
    if k > 0 { Pow2Positive(k - 1); }
  }

  lemma Pow48()
    ensures Pow2(48) == 0x1_0000_0000_0000
  {
    assert Pow2(8) == 0x100;
    assert Pow2(16) == 0x1_0000;
    assert Pow2(24) == 0x100_0000;
    assert Pow2(32) == 0x1_0000_0000;
    assert Pow2(40) == 0x100_0000_0000;
  }

  /** Halving: `2^(k+1)` divides `2 x` exactly when `2^k` divides `x`. */
  lemma DividesDouble(k: nat, x: int)
    ensures Pow2(k) > 0 && Pow2(k + 1) > 0
    ensures Divides(Pow2(k + 1), 2 * x) <==> Divides(Pow2(k), x)
  {
    Pow2Positive(k);
    var d := Pow2(k);
    var q, r := x / d, x % d;
    assert x == q * d + r;
    assert 2 * x == q * (2 * d) + 2 * r;
    DivisionIs(2 * x, 2 * d, q, 2 * r);
  }

  /** Odd factors do not matter to powers of two. */
  lemma {:induction false} OddFactor(k: nat, x: int, odd: int)
    requires odd % 2 == 1
    ensures Pow2(k) > 0
    ensures Divides(Pow2(k), x * odd) <==> Divides(Pow2(k), x)
  {
    Pow2Positive(k);
    if k > 0 {
      ParityOfProduct(x, odd);
      if x % 2 == 0 {
        var h := x / 2;
        assert x * odd == 2 * (h * odd);
        DividesDouble(k - 1, h * odd);
        DividesDouble(k - 1, h);
        OddFactor(k - 1, h, odd);
      } else {
        OddIsNotDivisible(k, x);
        OddIsNotDivisible(k, x * odd);
      }
    }
  }

  lemma ParityOfProduct(x: int, odd: int)
    requires odd % 2 == 1
    ensures x * odd % 2 == x % 2
  {
    var h := odd / 2;
    assert x * odd == 2 * (x * h) + x;
  }

  lemma OddIsNotDivisible(k: nat, x: int)
    requires k > 0 && x % 2 == 1
    ensures Pow2(k) > 0 && !Divides(Pow2(k), x)
  {
    Pow2Positive(k);
    var d := Pow2(k - 1);
    var q := x / (2 * d);
    assert x == 2 * (d * q) + x % (2 * d);
  }

  /** `1 + A + ... + A^(n-1)`. */
  function Geometric(n: nat): nat {
    if n == 0 then 0 else 0x5_DEEC_E66D * Geometric(n - 1) + 1
  }

  /** `x (A y + e) == A (x y) + x e`. */
  lemma Distribute(x: int, y: int, e: int)
    ensures x * (0x5_DEEC_E66D * y + e) == 0x5_DEEC_E66D * (x * y) + x * e
  {
  }

  lemma {:induction false} GeometricSum(m: nat, n: nat)
    ensures Geometric(m + n) == Geometric(m) + Geometric(n) + 0x5_DEEC_E66C * (Geometric(m) * Geometric(n))
  {
    if n > 0 {
      GeometricSum(m, n - 1);
      assert m + n - 1 == m + (n - 1);
      SumStep(Geometric(m), Geometric(n - 1), Geometric(m + n - 1));
    } else {
      assert Geometric(m) * Geometric(n) == 0;
    }
  }

  lemma SumStep(x: int, y: int, z: int)
    requires z == x + y + 0x5_DEEC_E66C * (x * y)
    ensures 0x5_DEEC_E66D * z + 1
         == x + (0x5_DEEC_E66D * y + 1) + 0x5_DEEC_E66C * (x * (0x5_DEEC_E66D * y + 1))
  {
    Distribute(x, y, 1);
  }

  lemma {:induction false} GeometricParity(n: nat)
    ensures Geometric(n) % 2 == n % 2
  {
    if n > 0 {
      GeometricParity(n - 1);
      StepFlipsParity(Geometric(n - 1));
    }
  }

  lemma StepFlipsParity(g: int)
    ensures (0x5_DEEC_E66D * g + 1) % 2 != g % 2
  {
    var h, r := g / 2, g % 2;
    SameRemainder(0x5_DEEC_E66D * g + 1, r + 1, 0x5_DEEC_E66D * h + 0x2_EF76_7336 * r, 2);
  }

  lemma HalvedSum(g: int)
    ensures 2 * g + 0x5_DEEC_E66C * (g * g) == 2 * (g * (0x2_EF76_7336 * g + 1))
  {
    assert g * (0x2_EF76_7336 * g + 1) == 0x2_EF76_7336 * (g * g) + g;
  }

  lemma CofactorIsOdd(g: int)
    ensures (0x2_EF76_7336 * g + 1) % 2 == 1
  {
    SameRemainder(0x2_EF76_7336 * g + 1, 1, 0x1_77BB_399B * g, 2);
  }

  /** The sum has exactly as many factors of two as its length: the multiplier is 1 modulo 4. */
  lemma {:induction false} GeometricValuation(k: nat, n: nat)
    ensures Pow2(k) > 0
    ensures Divides(Pow2(k), Geometric(n)) <==> Divides(Pow2(k), n)
  {
    Pow2Positive(k);
    if k > 0 {
      GeometricParity(n);
      if n % 2 == 1 {
        OddIsNotDivisible(k, n);
        OddIsNotDivisible(k, Geometric(n));
      } else {
        GeometricValuation(k - 1, n / 2);
        HalveValuation(k - 1, n / 2);
      }
    }
  }

  lemma HalveValuation(k: nat, h: nat)
    requires Pow2(k) > 0 && (Divides(Pow2(k), Geometric(h)) <==> Divides(Pow2(k), h))
    ensures Pow2(k + 1) > 0
    ensures Divides(Pow2(k + 1), Geometric(2 * h)) <==> Divides(Pow2(k + 1), 2 * h)
  {
    var g := Geometric(h);
    GeometricSum(h, h);
    HalvedSum(g);
    CofactorIsOdd(g);
    var odd := 0x2_EF76_7336 * g + 1;
    assert h + h == 2 * h;
    DividesDouble(k, g * odd);
    OddFactor(k, g, odd);
    DividesDouble(k, h);
  }

  /** Closed form of `n` steps, before reduction modulo 2^48. */
  function Leap(x: nat, n: nat): nat {
    x + Geometric(n) * (0x5_DEEC_E66C * x + 0xB)
  }

  lemma {:induction false} IterateIsLeap(x: nat, n: nat)
    requires x < 0x1_0000_0000_0000
    ensures Iterate(x, n) == Leap(x, n) % 0x1_0000_0000_0000
  {
    if n > 0 {
      IterateIsLeap(x, n - 1);
      NextIsModulo48(Iterate(x, n - 1));
      StepModulo48(Leap(x, n - 1));
      LeapStep(x, Geometric(n - 1));
    } else {
      assert Leap(x, 0) == x;
    }
  }

  lemma LeapStep(x: int, g: int)
    ensures x + (0x5_DEEC_E66D * g + 1) * (0x5_DEEC_E66C * x + 0xB)
         == 0x5_DEEC_E66D * (x + g * (0x5_DEEC_E66C * x + 0xB)) + 0xB
  {
    var d := 0x5_DEEC_E66C * x + 0xB;
    Distribute(d, g, 1);
    assert (0x5_DEEC_E66D * g + 1) * d == d * (0x5_DEEC_E66D * g + 1);
    assert d * g == g * d;
  }

  lemma StepModulo48(y: nat)
    ensures (0x5_DEEC_E66D * (y % 0x1_0000_0000_0000) + 0xB) % 0x1_0000_0000_0000
         == (0x5_DEEC_E66D * y + 0xB) % 0x1_0000_0000_0000
  {
    var q, r := y / 0x1_0000_0000_0000, y % 0x1_0000_0000_0000;
    SameRemainder(0x5_DEEC_E66D * y + 0xB, 0x5_DEEC_E66D * r + 0xB, 0x5_DEEC_E66D * q, 0x1_0000_0000_0000);
  }

  lemma OddFactor48(x: int, odd: int)
    requires odd % 2 == 1
    ensures x * odd % 0x1_0000_0000_0000 == 0 <==> x % 0x1_0000_0000_0000 == 0
  {
    Pow48();
    OddFactor(48, x, odd);
  }

  lemma GeometricValuation48(n: nat)
    ensures Geometric(n) % 0x1_0000_0000_0000 == 0 <==> n % 0x1_0000_0000_0000 == 0
  {
    Pow48();
    GeometricValuation(48, n);
  }

  lemma DriftIsOdd(x: nat)
    ensures (0x5_DEEC_E66C * x + 0xB) % 2 == 1
  {
    SameRemainder(0x5_DEEC_E66C * x + 0xB, 1, 0x2_EF76_7336 * x + 5, 2);
  }

  /** Full period: from any 48-bit state, `n` steps come back to it exactly when 2^48 divides `n`. */
  lemma FullPeriod(x: nat, n: nat)
    requires x < 0x1_0000_0000_0000
    ensures Iterate(x, n) == x <==> n % 0x1_0000_0000_0000 == 0
  {
    var d := 0x5_DEEC_E66C * x + 0xB;
    ReturnsIffDivides(x, n, d);
    DriftIsOdd(x);
    OddFactor48(Geometric(n), d);
    GeometricValuation48(n);
  }

  lemma ReturnsIffDivides(x: nat, n: nat, d: nat)
    requires x < 0x1_0000_0000_0000 && d == 0x5_DEEC_E66C * x + 0xB
    ensures Iterate(x, n) == x <==> Geometric(n) * d % 0x1_0000_0000_0000 == 0
  {
    IterateIsLeap(x, n);
    FallsBack(x, Geometric(n) * d, 0x1_0000_0000_0000);
  }

  lemma FallsBack(x: nat, m: nat, d: nat)
    requires x < d
    ensures (x + m) % d == x <==> m % d == 0
  {
    if m % d == 0 { DivisionIs(x + m, d, m / d, x); }
    if (x + m) % d == x { DivisionIs(m, d, (x + m) / d, 0); }
  }

  lemma {:induction false} IterateAdds(x: nat, m: nat, n: nat)
    ensures Iterate(x, m + n) == Iterate(Iterate(x, m), n)
  {
    if n > 0 { IterateAdds(x, m, n - 1); }
  }

  /** Hence no state repeats within 2^48 consecutive draws. */
  lemma DrawsAreDistinct(x: nat, i: nat, j: nat)
    requires i < j < i + 0x1_0000_0000_0000 && x < 0x1_0000_0000_0000
    ensures Iterate(x, i) != Iterate(x, j)
  {
    IterateIsLeap(x, i);
    IterateAdds(x, i, j - i);
    FullPeriod(Iterate(x, i), j - i);
  }

  lemma StepsApart(x: int, y: int)
    requires (0x5_DEEC_E66D * x + 0xB) % 0x1_0000_0000_0000 == (0x5_DEEC_E66D * y + 0xB) % 0x1_0000_0000_0000
    ensures (y - x) * 0x5_DEEC_E66D % 0x1_0000_0000_0000 == 0
  {
    var p, q := 0x5_DEEC_E66D * x + 0xB, 0x5_DEEC_E66D * y + 0xB;
    assert (y - x) * 0x5_DEEC_E66D == q - p;
    SameRemainder(q - p, 0, q / 0x1_0000_0000_0000 - p / 0x1_0000_0000_0000, 0x1_0000_0000_0000);
  }

  /** Different 48-bit states have different successors. */
  lemma NextIsInjective(x: nat, y: nat)
    requires x < y < 0x1_0000_0000_0000
    ensures Next(x) != Next(y)
  {
    NextIsModulo48(x);
    NextIsModulo48(y);
    OddFactor48(y - x, 0x5_DEEC_E66D);
    DivisionIs(y - x, 0x1_0000_0000_0000, 0, y - x);
    if (0x5_DEEC_E66D * x + 0xB) % 0x1_0000_0000_0000 == (0x5_DEEC_E66D * y + 0xB) % 0x1_0000_0000_0000 {
      StepsApart(x, y);
    }
  }

  /** Every 48-bit state is drawn from one: the one a full period less a step before it. */
  lemma NextIsOnto(y: nat)
    requires y < 0x1_0000_0000_0000
    ensures exists x: nat :: x < 0x1_0000_0000_0000 && Next(x) == y
  {
    var m: nat :| m + 1 == 0x1_0000_0000_0000;
    FullPeriod(y, m + 1);
    DivisionIs(m + 1, 0x1_0000_0000_0000, 1, 0);
    IterateIsLeap(y, m);
    LastDraw(y, m);
  }

  lemma LastDraw(y: nat, m: nat)
    requires Iterate(y, m + 1) == y && Iterate(y, m) < 0x1_0000_0000_0000
    ensures exists x: nat :: x < 0x1_0000_0000_0000 && Next(x) == y
  {
    var x := Iterate(y, m);
    assert Next(x) == y;
  }

  // ---- the weights in closed form ----

  /** Bits 16 to 31 of a state. */
  lemma WeightIs(s: nat)
    ensures WeightOf(s) == s % 0x1_0000_0000 / 0x1_0000
    ensures WeightOf(s) * 0x1_0000 + s % 0x1_0000 == s % 0x1_0000_0000
  {
    var q, r := s / 0x1_0000_0000, s % 0x1_0000_0000;
    DivisionIs(s / 0x1_0000, 0x1_0000, q, r / 0x1_0000);
    SameRemainder(s, r, 0x1_0000 * q, 0x1_0000);
  }

  lemma Mod48KeepsLow32(x: nat)
    ensures x % 0x1_0000_0000_0000 % 0x1_0000_0000 == x % 0x1_0000_0000
  {
    SameRemainder(x, x % 0x1_0000_0000_0000, 0x1_0000 * (x / 0x1_0000_0000_0000), 0x1_0000_0000);
  }

  /** The weight of draw `n` from a seed: a closed form without the generator. */
  lemma WeightClosedForm(seed: nat, n: nat)
    ensures WeightOf(Iterate(Seed(seed), n))
         == Leap(seed % 0x1_0000 * 0x1_0000 + 0x330E, n) % 0x1_0000_0000 / 0x1_0000
  {
    var start := seed % 0x1_0000 * 0x1_0000 + 0x330E;
    SeedLow32(seed);
    IterateKeepsLow32(Seed(seed), start, n);
    IterateIsLeap(start, n);
    Mod48KeepsLow32(Leap(start, n));
    WeightIs(Iterate(Seed(seed), n));
  }
}
