/** Basic-block vectors (`host/trace/bbv_count.cc`): a random projection onto 16 dimensions
    whose matrix is regenerated from the block address on every call. */
module BbvCount {
  import opened Arithmetic
  import opened Counting
  import opened Lcg

  const NUM_BBV := 16

  datatype Call = Call(address: nat, count: nat)

  /** The projection matrix: dimension `4k + j` of an address is bits 16 to 31 of the
      `(k+1)`-th generator state seeded from `address + j`. */
  function Weight(address: nat, d: nat): nat {
    WeightOf(LaneState(address, d % 4, d / 4 + 1))
  }

  /** The state of lane `j` after `n` draws. */
  function LaneState(address: nat, j: nat, n: nat): nat {
    Iterate(Seed(Wrap64(address + j)), n)
  }

  lemma RoundIndex(d: nat, k: nat, j: nat)
    requires j < 4 && d == 4 * k + j
    ensures d / 4 == k && d % 4 == j
  {
  }

  lemma LaneDraws(address: nat, k: nat, j: nat, d: nat)
    requires j < 4 && d == 4 * k + j
    ensures LaneState(address, j, k + 1) == Next(LaneState(address, j, k))
    ensures Weight(address, d) == WeightOf(LaneState(address, j, k + 1))
  {
    RoundIndex(d, k, j);
    WeightOfLane(address, d, j, k + 1);
    IterateStep(Seed(Wrap64(address + j)), k);
  }

  lemma WeightOfLane(address: nat, d: nat, j: nat, n: nat)
    requires d % 4 == j && d / 4 + 1 == n
    ensures Weight(address, d) == WeightOf(LaneState(address, j, n))
  {
  }

  lemma LanesStart(address: nat)
    ensures LaneState(address, 0, 0) == Seed(Wrap64(address)) && LaneState(address, 1, 0) == Seed(Wrap64(address + 1))
    ensures LaneState(address, 2, 0) == Seed(Wrap64(address + 2))
    ensures LaneState(address, 3, 0) == Seed(Wrap64(address + 3))
  {
  }

  lemma IterateStep(s: nat, n: nat)
    ensures Iterate(s, n + 1) == Next(Iterate(s, n))
  {
  }

  /** One wrapping multiply and add of `Bbv::count`. */
  function Accumulate(sum: nat, weight: nat, count: nat): nat {
    Wrap64(sum + Wrap64(weight * count))
  }

  /** The vector `v` after a call with these weights has reached its first `n` dimensions. */
  function Reached(v: seq<nat>, weights: seq<nat>, count: nat, n: nat): (r: seq<nat>)
    requires n <= |v| == |weights|
    ensures |r| == |v|
  {
    if n == 0 then v
    else
      var r := Reached(v, weights, count, n - 1);
      r[n - 1 := Accumulate(r[n - 1], weights[n - 1], count)]
  }

  lemma {:induction false} ReachedAt(v: seq<nat>, weights: seq<nat>, count: nat, n: nat, d: nat)
    requires n <= |v| == |weights| && d < |v|
    ensures Reached(v, weights, count, n)[d] == if d < n then Accumulate(v[d], weights[d], count) else v[d]
  {
    if n > 0 { ReachedAt(v, weights, count, n - 1, d); }
  }

  /** One row of the projection matrix. */
  ghost predicate WeightsOf(weights: seq<nat>, address: nat) {
    && |weights| == NUM_BBV
    && forall d: nat {:trigger Weight(address, d)} :: d < NUM_BBV ==> weights[d] == Weight(address, d)
  }

  function Term(d: nat): Call -> int {
    (c: Call) => Weight(c.address, d) * c.count
  }

  function CountOf(c: Call): int { c.count }

  lemma WrapAdds(x: int, w: nat, c: nat)
    requires x >= 0
    ensures Accumulate(Wrap64(x), w, c) == Wrap64(x + w * c)
  {
    WrapSum(x, w * c);
  }

  /** Adding a call's term to a dimension keeps it equal to the wrapped sum. */
  lemma TermPush(calls: seq<Call>, c: Call, d: nat)
    requires Sum(Term(d), calls) >= 0
    ensures Sum(Term(d), calls + [c]) >= 0
    ensures Accumulate(Wrap64(Sum(Term(d), calls)), Weight(c.address, d), c.count) == Wrap64(Sum(Term(d), calls + [c]))
  {
    SumPush(Term(d), calls, c);
    Product(Weight(c.address, d), c.count);
    WrapAdds(Sum(Term(d), calls), Weight(c.address, d), c.count);
  }

  lemma WrapLeft(x: nat, y: nat)
    ensures Wrap64(Wrap64(x) + y) == Wrap64(x + y)
  {
    SameRemainder(x + y, Wrap64(x) + y, x / 0x1_0000_0000_0000_0000, 0x1_0000_0000_0000_0000);
  }

  lemma WrapSum(x: nat, y: nat)
    ensures Wrap64(Wrap64(x) + Wrap64(y)) == Wrap64(x + y)
  {
    WrapLeft(x, Wrap64(y));
    WrapLeft(y, x);
  }

  lemma TermsAreNonNegative(calls: seq<Call>, d: nat)
    ensures Sum(Term(d), calls) >= 0 && Sum(CountOf, calls) >= 0
  {
    forall k | 0 <= k < |calls| ensures Term(d)(calls[k]) >= 0 {
      Product(Weight(calls[k].address, d), calls[k].count);
    }
    SumNonNegative(Term(d), calls);
    SumNonNegative(CountOf, calls);
  }

  lemma Product(x: nat, y: nat)
    ensures x * y >= 0
  {
  }

  /** Every dimension is the weighted sum of the counts, modulo 2^64. */
  ghost predicate Projected(v: seq<nat>, calls: seq<Call>) {
    && |v| == NUM_BBV
    && forall d :: 0 <= d < NUM_BBV ==> Sum(Term(d), calls) >= 0 && v[d] == Wrap64(Sum(Term(d), calls))
  }

  lemma ProjectedPush(v: seq<nat>, v': seq<nat>, weights: seq<nat>, calls: seq<Call>, c: Call)
    requires Projected(v, calls) && WeightsOf(weights, c.address) && v' == Reached(v, weights, c.count, NUM_BBV)
    ensures Projected(v', calls + [c])
  {
    forall d | 0 <= d < NUM_BBV
      ensures Sum(Term(d), calls + [c]) >= 0 && v'[d] == Wrap64(Sum(Term(d), calls + [c]))
    {
      ReachedAt(v, weights, c.count, NUM_BBV, d);
      TermPush(calls, c, d);
    }
  }

  // ---- the projection in closed form ----

  /** The weight of dimension `4k + j`, without the generator: bits 16 to 31 of what `k + 1` steps of
      `x -> 0x5DEECE66D x + 0xB` make of the low 16 bits of `address + j`, shifted left by 16, plus 0x330E. */
  function MatrixEntry(address: nat, k: nat, j: nat): nat {
    Leap((address + j) % 0x1_0000 * 0x1_0000 + 0x330E, k + 1) % 0x1_0000_0000 / 0x1_0000
  }

  function EntryTerm(k: nat, j: nat): Call -> int {
    (c: Call) => MatrixEntry(c.address, k, j) * c.count
  }

  lemma WeightIsEntry(address: nat, k: nat, j: nat)
    requires j < 4
    ensures Weight(address, 4 * k + j) == MatrixEntry(address, k, j)
  {
    RoundIndex(4 * k + j, k, j);
    LanePeriod(address, j);
    LaneResidue(address, j);
    WeightClosedForm(Wrap64(address + j), k + 1);
  }

  lemma LaneResidue(address: nat, j: nat)
    requires j < 4
    ensures (address % 0x1_0000 + j) % 0x1_0000 == (address + j) % 0x1_0000
  {
  }

  lemma {:induction false} SumInClosedForm(calls: seq<Call>, k: nat, j: nat)
    requires j < 4
    ensures Sum(Term(4 * k + j), calls) == Sum(EntryTerm(k, j), calls)
  {
    if calls != [] {
      var n := |calls| - 1;
      SumInClosedForm(calls[..n], k, j);
      WeightIsEntry(calls[n].address, k, j);
    }
  }

  /** What the vector is, with the machine words spelled out. */
  ghost predicate InClosedForm(v: seq<nat>, instrs: nat, calls: seq<Call>) {
    && |v| == 16 && instrs == Sum(CountOf, calls) % 0x1_0000_0000_0000_0000
    && forall k: nat, j: nat {:trigger EntryTerm(k, j)} :: k < 4 && j < 4 ==>
         v[4 * k + j] == Sum(EntryTerm(k, j), calls) % 0x1_0000_0000_0000_0000
  }

  lemma ClosedForm(v: seq<nat>, instrs: nat, calls: seq<Call>)
    requires Projected(v, calls) && Totalled(instrs, calls)
    ensures InClosedForm(v, instrs, calls)
  {
    forall k: nat, j: nat {:trigger EntryTerm(k, j)} | k < 4 && j < 4
      ensures v[4 * k + j] == Sum(EntryTerm(k, j), calls) % 0x1_0000_0000_0000_0000
    {
      SumInClosedForm(calls, k, j);
    }
  }

  lemma NothingProjected(v: seq<nat>)
    requires |v| == NUM_BBV && forall d :: 0 <= d < NUM_BBV ==> v[d] == 0
    ensures Projected(v, [])
  {
  }

  /** The instruction count is the sum of the counts, modulo 2^64. */
  ghost predicate Totalled(instrs: nat, calls: seq<Call>) {
    Sum(CountOf, calls) >= 0 && instrs == Wrap64(Sum(CountOf, calls))
  }

  lemma TotalledPush(instrs: nat, calls: seq<Call>, c: Call)
    requires Totalled(instrs, calls)
    ensures Totalled(Wrap64(instrs + c.count), calls + [c])
  {
    SumPush(CountOf, calls, c);
    WrapLeft(Sum(CountOf, calls), c.count);
  }

  class Bbv {
    var instrs: nat
    const counts: array<nat>
    ghost var calls: seq<Call>

    ghost predicate Valid()
      reads this, counts
    {
      counts.Length == NUM_BBV && Projected(counts[..], calls) && Totalled(instrs, calls)
    }

    constructor ()
      ensures Valid() && calls == [] && fresh(counts)
    {
      instrs := 0;
      counts := new nat[NUM_BBV](_ => 0);
      calls := [];
    }

    /** `rng_next`: steps the state it is given and returns it shifted right by 16. */
    static method RngNext(state: nat) returns (state': nat, r: nat)
      ensures state' == Next(state) && r == state' / 0x1_0000
    {
      state' := Wrap64(0x5_DEEC_E66D * state + 0xB) % 0x1_0000_0000_0000;
      r := state' / 0x1_0000;
    }

    /** One of the four interleaved lanes: draw the next weight and add it in. */
    method Lane(ghost address: nat, ghost k: nat, ghost j: nat, d: nat, state: nat, count: nat,
                ghost was: seq<nat>, ghost weights: seq<nat>)
        returns (state': nat)
      requires j < 4 && d == 4 * k + j && d < counts.Length == |was| == |weights| && WeightsOf(weights, address)
      requires state == LaneState(address, j, k) && counts[..] == Reached(was, weights, count, d)
      modifies counts
      ensures state' == LaneState(address, j, k + 1) && counts[..] == Reached(was, weights, count, d + 1)
    {
      LaneDraws(address, k, j, d);
      var weight;
      state', weight := RngNext(state);
      counts[d] := Accumulate(counts[d], weight % 0x1_0000, count);
    }

    static method Seeds(address: nat) returns (s0: nat, s1: nat, s2: nat, s3: nat)
      ensures s0 == LaneState(address, 0, 0) && s1 == LaneState(address, 1, 0)
      ensures s2 == LaneState(address, 2, 0) && s3 == LaneState(address, 3, 0)
    {
      s0, s1 := Seed(Wrap64(address)), Seed(Wrap64(address + 1));
      s2, s3 := Seed(Wrap64(address + 2)), Seed(Wrap64(address + 3));
      LanesStart(address);
    }

    /** The loop of `Bbv::count`: four dimensions a round, one from each lane, each with its own weight. */
    method Project(address: nat, count: nat, ghost weights: seq<nat>)
      requires counts.Length == NUM_BBV && WeightsOf(weights, address)
      modifies counts
      ensures counts[..] == Reached(old(counts[..]), weights, count, NUM_BBV)
    {
      ghost var was := counts[..];
      var s0, s1, s2, s3 := Seeds(address);
      var i := 0;
      ghost var k: nat := 0;
      while i < NUM_BBV
        invariant i == 4 * k && i <= NUM_BBV && counts[..] == Reached(was, weights, count, i)
        invariant s0 == LaneState(address, 0, k) && s1 == LaneState(address, 1, k)
        invariant s2 == LaneState(address, 2, k) && s3 == LaneState(address, 3, k)
      {
        s0 := Lane(address, k, 0, i, s0, count, was, weights);
        s1 := Lane(address, k, 1, i + 1, s1, count, was, weights);
        s2 := Lane(address, k, 2, i + 2, s2, count, was, weights);
        s3 := Lane(address, k, 3, i + 3, s3, count, was, weights);
        i := i + 4;
        k := k + 1;
      }
    }

    method Count(address: nat, count: nat)
      requires Valid() && address < 0x1_0000_0000_0000_0000 && count < 0x1_0000_0000_0000_0000
      modifies this, counts
      ensures Valid() && calls == old(calls) + [Call(address, count)]
      ensures InClosedForm(counts[..], instrs, calls)
    {
      ghost var c := Call(address, count);
      ghost var weights := seq(NUM_BBV, d requires 0 <= d < NUM_BBV => Weight(address, d));
      TotalledPush(instrs, calls, c);
      instrs := Wrap64(instrs + count);
      ghost var was := counts[..];
      Project(address, count, weights);
      ProjectedPush(was, counts[..], weights, calls, c);
      calls := calls + [c];
      ClosedForm(counts[..], instrs, calls);
    }

    method Clear()
      requires Valid()
      modifies this, counts
      ensures Valid() && calls == [] && instrs == 0
    {
      instrs := 0;
      for i := 0 to NUM_BBV
        invariant instrs == 0
        invariant forall d :: 0 <= d < i ==> counts[d] == 0
      {
        counts[i] := 0;
      }
      calls := [];
      NothingProjected(counts[..]);
    }
  }

  // ---- what the projection can and cannot tell apart ----

  /** The projection has period 2^16: all 16 weights of an address depend on its low 16 bits only. */
  lemma WeightsHavePeriod(a: nat, b: nat, d: nat)
    requires a % 0x1_0000 == b % 0x1_0000
    ensures Weight(a, d) == Weight(b, d)
  {
    LanePeriod(a, d % 4);
    LanePeriod(b, d % 4);
    WeightHasPeriod16(Wrap64(a + d % 4), Wrap64(b + d % 4), d / 4 + 1);
  }

  lemma LanePeriod(a: nat, j: nat)
    requires j < 4
    ensures Wrap64(a + j) % 0x1_0000 == (a % 0x1_0000 + j) % 0x1_0000
  {
    var h := (a + j) / 0x1_0000_0000_0000_0000;
    assert a + j == 0x1_0000 * (0x1_0000_0000_0000 * h) + Wrap64(a + j);
  }

  /** Neighbouring blocks share weights: lane `j` of an address is lane `j'` of the address that
      is `j - j'` further on. */
  lemma LanesOverlap(a: nat, k: nat, j: nat, i: nat)
    requires i <= j < 4
    ensures Weight(a, 4 * k + j) == Weight(a + (j - i), 4 * k + i)
  {
    assert (4 * k + j) % 4 == j && (4 * k + j) / 4 == k;
    assert (4 * k + i) % 4 == i && (4 * k + i) / 4 == k;
  }

  function Keyed(k: nat): Call -> int {
    (c: Call) => if c.address % 0x1_0000 == k then c.count else 0
  }

  /** The counts of the calls, grouped by the low 16 bits of the address. */
  function Grouped(calls: seq<Call>, d: nat, n: nat): int {
    if n == 0 then 0 else Grouped(calls, d, n - 1) + Weight(n - 1, d) * Sum(Keyed(n - 1), calls)
  }

  lemma {:induction false} GroupedPush(calls: seq<Call>, c: Call, d: nat, n: nat)
    ensures Grouped(calls + [c], d, n)
         == Grouped(calls, d, n) + if c.address % 0x1_0000 < n then Weight(c.address % 0x1_0000, d) * c.count else 0
  {
    if n > 0 {
      GroupedPush(calls, c, d, n - 1);
      SumPush(Keyed(n - 1), calls, c);
      Spread(Weight(n - 1, d), Sum(Keyed(n - 1), calls), Keyed(n - 1)(c));
    }
  }

  lemma Spread(w: int, x: int, y: int)
    ensures w * (x + y) == w * x + w * y
  {
  }

  lemma {:induction false} GroupedNothing(d: nat, n: nat)
    ensures Grouped([], d, n) == 0
  {
    if n > 0 { GroupedNothing(d, n - 1); }
  }

  lemma {:induction false} SumIsGrouped(calls: seq<Call>, d: nat, keys: nat)
    requires keys == 0x1_0000
    ensures Sum(Term(d), calls) == Grouped(calls, d, keys)
  {
    if calls == [] {
      GroupedNothing(d, keys);
    } else {
      var n := |calls| - 1;
      SumIsGrouped(calls[..n], d, keys);
      GroupedStep(calls[..n], calls[n], d, keys);
      assert calls == calls[..n] + [calls[n]];
    }
  }

  lemma GroupedStep(calls: seq<Call>, c: Call, d: nat, keys: nat)
    requires keys == 0x1_0000 && Sum(Term(d), calls) == Grouped(calls, d, keys)
    ensures Sum(Term(d), calls + [c]) == Grouped(calls + [c], d, keys)
  {
    SumPush(Term(d), calls, c);
    GroupedPush(calls, c, d, keys);
    TermByKey(c, d);
  }

  lemma TermByKey(c: Call, d: nat)
    ensures Term(d)(c) == Weight(c.address % 0x1_0000, d) * c.count
  {
    WeightsHavePeriod(c.address, c.address % 0x1_0000, d);
  }

  predicate Congruent(x: int, y: int) {
    (x - y) % 0x1_0000_0000_0000_0000 == 0
  }

  lemma CongruentAdds(x: int, y: int, u: int, v: int, w: int)
    requires Congruent(x, y) && Congruent(u, v)
    ensures Congruent(x + w * u, y + w * v)
  {
    var m := (u - v) / 0x1_0000_0000_0000_0000;
    assert w * u - w * v == w * (u - v);
    assert w * (0x1_0000_0000_0000_0000 * m) == 0x1_0000_0000_0000_0000 * (w * m);
  }

  lemma CongruentWraps(x: nat, y: nat)
    requires Congruent(x, y)
    ensures Wrap64(x) == Wrap64(y)
  {
  }

  lemma {:induction false} GroupedCongruent(xs: seq<Call>, ys: seq<Call>, d: nat, n: nat)
    requires forall k: nat :: Congruent(Sum(Keyed(k), xs), Sum(Keyed(k), ys))
    ensures Congruent(Grouped(xs, d, n), Grouped(ys, d, n))
  {
    if n > 0 {
      GroupedCongruent(xs, ys, d, n - 1);
      CongruentAdds(Grouped(xs, d, n - 1), Grouped(ys, d, n - 1),
                    Sum(Keyed(n - 1), xs), Sum(Keyed(n - 1), ys), Weight(n - 1, d));
    }
  }

  /** The vector is a function of the totals per low 16 address bits, modulo 2^64: two histories
      with the same totals give the same 16 dimensions. */
  lemma SameTotalsSameVector(xs: seq<Call>, ys: seq<Call>, d: nat)
    requires forall k: nat :: Congruent(Sum(Keyed(k), xs), Sum(Keyed(k), ys))
    ensures Sum(Term(d), xs) >= 0 && Sum(Term(d), ys) >= 0
    ensures Wrap64(Sum(Term(d), xs)) == Wrap64(Sum(Term(d), ys))
  {
    TermsAreNonNegative(xs, d);
    TermsAreNonNegative(ys, d);
    var keys: nat :| keys == 0x1_0000;
    SumIsGrouped(xs, d, keys);
    SumIsGrouped(ys, d, keys);
    GroupedCongruent(xs, ys, d, keys);
    CongruentWraps(Sum(Term(d), xs), Sum(Term(d), ys));
  }

  /** The order of the calls does not matter. */
  lemma OrderDoesNotMatter(xs: seq<Call>, ys: seq<Call>, d: nat)
    requires multiset(xs) == multiset(ys)
    ensures Sum(Term(d), xs) == Sum(Term(d), ys)
  {
    SumPermutes(Term(d), xs, ys);
  }

  /** Two calls whose addresses agree in their low 16 bits may be merged into one. */
  lemma CallsMerge(xs: seq<Call>, a: nat, b: nat, m: nat, n: nat, d: nat)
    requires a % 0x1_0000 == b % 0x1_0000
    ensures var split, merged := xs + [Call(a, m), Call(b, n)], xs + [Call(a, Wrap64(m + n))];
            && Sum(Term(d), split) >= 0 && Sum(Term(d), merged) >= 0
            && Wrap64(Sum(Term(d), split)) == Wrap64(Sum(Term(d), merged))
  {
    var one := xs + [Call(a, m)];
    assert xs + [Call(a, m), Call(b, n)] == one + [Call(b, n)];
    forall k: nat
      ensures Congruent(Sum(Keyed(k), xs + [Call(a, m), Call(b, n)]), Sum(Keyed(k), xs + [Call(a, Wrap64(m + n))]))
    {
      SumPush(Keyed(k), xs, Call(a, m));
      SumPush(Keyed(k), one, Call(b, n));
      SumPush(Keyed(k), xs, Call(a, Wrap64(m + n)));
    }
    SameTotalsSameVector(xs + [Call(a, m), Call(b, n)], xs + [Call(a, Wrap64(m + n))], d);
  }
}
