/** Sampling memory accesses (`host/pmem.cc`): every `interval`-th access is printed, counted by
    a 32-bit counter that wraps. */
module Pmem {
  import opened Arithmetic

  /** The counter before access number `i`. */
  function CounterAt(i: nat): nat { Wrap32(i) }

  /** Access number `i` is sampled. */
  predicate Sampled(interval: nat, i: nat)
    requires interval > 0
  {
    CounterAt(i) % interval == 0
  }

  /** The samples among the accesses numbered from `first` up to `end`. */
  function Samples(interval: nat, first: nat, end: nat): nat
    requires interval > 0 && first <= end
  {
    if first == end then 0 else Samples(interval, first, end - 1) + if Sampled(interval, end - 1) then 1 else 0
  }

  function CeilDiv(n: nat, d: nat): nat
    requires d > 0
  {
    (n + d - 1) / d
  }

  /** The wrapping increment of the counter. */
  function Advance(count: nat): nat { Wrap32(count + 1) }

  lemma CounterAdvances(i: nat)
    ensures CounterAt(i + 1) == Advance(CounterAt(i))
  {
  }

  /** What counting one access does to the counter and to the number of samples. */
  lemma OneAccess(interval: nat, seen: nat)
    requires interval > 0
    ensures CounterAt(seen + 1) == Advance(CounterAt(seen))
    ensures Samples(interval, 0, seen + 1) == Samples(interval, 0, seen) + if Sampled(interval, seen) then 1 else 0
  {
    CounterAdvances(seen);
  }

  class Sampler {
    const interval: nat
    var on: bool
    var count: nat
    ghost var seen: nat
    var samples: nat

    ghost predicate Valid()
      reads this
    {
      0 < interval < 0x1_0000_0000 && count == CounterAt(seen) && samples == Samples(interval, 0, seen)
    }

    /** `hypercall_pmem_init`. */
    constructor (interval: nat)
      requires 0 < interval < 0x1_0000_0000
      ensures Valid() && on && seen == 0 && this.interval == interval
    {
      this.interval := interval;
      on, count, seen, samples := true, 0, 0, 0;
    }

    /** The counting part of `hypercall_pmem_cb`, under `count_lock`. */
    method Access() returns (sampled: bool)
      requires Valid()
      modifies this
      ensures Valid() && on == old(on) && seen == old(seen) + (if on then 1 else 0)
      ensures sampled <==> on && old(seen) % 0x1_0000_0000 % interval == 0
      ensures samples == old(samples) + if sampled then 1 else 0
    {
      if !on {
        return false;
      }
      OneAccess(interval, seen);
      sampled := count % interval == 0;
      count := Advance(count);
      seen := seen + 1;
      if sampled {
        samples := samples + 1;
      }
    }

    /** `hypercall_pmem_fini`. */
    method Stop()
      requires Valid()
      modifies this`on
      ensures Valid() && !on
    {
      on := false;
    }
  }

  // ---- how many samples ----

  lemma {:induction false} SamplesSplit(interval: nat, a: nat, b: nat, c: nat)
    requires interval > 0 && a <= b <= c
    ensures Samples(interval, a, c) == Samples(interval, a, b) + Samples(interval, b, c)
  {
    if b < c {
      SamplesSplit(interval, a, b, c - 1);
    }
  }

  /** One more access adds to the ceiling exactly when it is a multiple of the interval. */
  lemma CeilSuccessor(n: nat, d: nat)
    requires d > 0
    ensures CeilDiv(n + 1, d) == CeilDiv(n, d) + if n % d == 0 then 1 else 0
  {
    SuccessorModulo(n + d - 1, d);
    AddsOneInterval(n, d);
  }

  lemma AddsOneInterval(n: nat, d: nat)
    requires d > 0
    ensures (n + d) % d == n % d
  {
    DivisionIs(n + d, d, n / d + 1, n % d);
  }

  /** Before the counter wraps the first `n` accesses of a round hold `ceil(n / interval)` samples. */
  lemma {:induction false} RoundSamples(interval: nat, round: nat, n: nat)
    requires interval > 0 && n <= 0x1_0000_0000
    ensures Samples(interval, round * 0x1_0000_0000, round * 0x1_0000_0000 + n) == CeilDiv(n, interval)
  {
    if n > 0 {
      RoundSamples(interval, round, n - 1);
      CeilSuccessor(n - 1, interval);
      CounterInRound(round, n - 1);
    } else {
      DivisionIs(interval - 1, interval, 0, interval - 1);
    }
  }

  lemma CounterInRound(round: nat, n: nat)
    requires n < 0x1_0000_0000
    ensures CounterAt(round * 0x1_0000_0000 + n) == n
  {
  }

  lemma {:induction false} FullRounds(interval: nat, rounds: nat)
    requires interval > 0
    ensures Samples(interval, 0, rounds * 0x1_0000_0000) == rounds * CeilDiv(0x1_0000_0000, interval)
  {
    if rounds > 0 {
      FullRounds(interval, rounds - 1);
      RoundSamples(interval, rounds - 1, 0x1_0000_0000);
      SamplesSplit(interval, 0, (rounds - 1) * 0x1_0000_0000, rounds * 0x1_0000_0000);
      OneMoreRound(rounds, CeilDiv(0x1_0000_0000, interval));
    }
  }

  lemma OneMoreRound(rounds: int, x: int)
    ensures rounds * x == (rounds - 1) * x + x
  {
  }

  /** Closed form for any number of accesses, wraps included: a full ceiling for every round of the
      counter and the ceiling of what is left.  For `n <= 2^32` that is `ceil(n / interval)`. */
  lemma SamplesInFirst(interval: nat, n: nat)
    requires interval > 0
    ensures Samples(interval, 0, n)
         == n / 0x1_0000_0000 * CeilDiv(0x1_0000_0000, interval) + CeilDiv(n % 0x1_0000_0000, interval)
  {
    var q, r := n / 0x1_0000_0000, n % 0x1_0000_0000;
    FullRounds(interval, q);
    RoundSamples(interval, q, r);
    SamplesSplit(interval, 0, q * 0x1_0000_0000, n);
  }

  /** `interval` accesses in a row within one round hold exactly one sample. */
  lemma WindowInRound(interval: nat, round: nat, c: nat)
    requires interval > 0 && c + interval <= 0x1_0000_0000
    ensures Samples(interval, round * 0x1_0000_0000 + c, round * 0x1_0000_0000 + c + interval) == 1
  {
    var base := round * 0x1_0000_0000;
    RoundSamples(interval, round, c);
    RoundSamples(interval, round, c + interval);
    SamplesSplit(interval, base, base + c, base + c + interval);
    CeilOfNext(c, interval);
  }

  lemma CeilOfNext(c: nat, d: nat)
    requires d > 0
    ensures CeilDiv(c + d, d) == CeilDiv(c, d) + 1
  {
    var x := c + d - 1;
    DivisionIs(x + d, d, x / d + 1, x % d);
  }

  lemma CeilMonotone(m: nat, n: nat, d: nat)
    requires d > 0 && m <= n <= m + d
    ensures CeilDiv(m, d) <= CeilDiv(n, d) <= CeilDiv(m, d) + 1
  {
    CeilOfNext(m, d);
    DivMonotone(m + d - 1, n + d - 1, d);
    DivMonotone(n + d - 1, m + d + d - 1, d);
  }

  lemma DivMonotone(x: nat, y: nat, d: nat)
    requires d > 0 && x <= y
    ensures x / d <= y / d
  {
    var p, q := x / d, y / d;
    assert p * d + x % d == x && q * d + y % d == y && (p - q) * d == p * d - q * d;
    if p > q {
      Scales(1, p - q, d);
      assert false;
    }
  }

  /** Any `interval` consecutive accesses hold at least one sample and at most two; two only when the
      counter wraps among them. */
  lemma WindowBounds(interval: nat, i: nat)
    requires 0 < interval < 0x1_0000_0000
    ensures 1 <= Samples(interval, i, i + interval) <= 2
    ensures CounterAt(i) + interval <= 0x1_0000_0000 ==> Samples(interval, i, i + interval) == 1
  {
    var round, c := i / 0x1_0000_0000, i % 0x1_0000_0000;
    if c + interval <= 0x1_0000_0000 {
      WindowInRound(interval, round, c);
    } else {
      WindowAcrossWrap(interval, round, c);
    }
  }

  lemma WindowAcrossWrap(interval: nat, round: nat, c: nat)
    requires 0 < interval < 0x1_0000_0000 && c < 0x1_0000_0000 < c + interval
    ensures var i := round * 0x1_0000_0000 + c; 1 <= Samples(interval, i, i + interval) <= 2
  {
    var base, next := round * 0x1_0000_0000, (round + 1) * 0x1_0000_0000;
    var i := base + c;
    var after := i + interval - next;
    RoundSamples(interval, round, c);
    RoundSamples(interval, round, 0x1_0000_0000);
    SamplesSplit(interval, base, i, next);
    CeilMonotone(c, 0x1_0000_0000, interval);
    RoundSamples(interval, round + 1, after);
    SamplesSplit(interval, i, next, i + interval);
    CeilMonotone(1, after, interval);
    CeilMonotone(0, after, interval);
    DivisionIs(interval, interval, 1, 0);
    DivisionIs(interval - 1, interval, 0, interval - 1);
  }
}
