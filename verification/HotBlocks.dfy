/** Hot blocks: what `block_cnt` counts over a run, and the ten entries `recorder_stop` prints. */
module HotBlocks {
  import opened Counting
  import opened Trace
  import opened TraceFrames
  import opened TraceSteps

  // ---- the total ----

  /** The sum of all values of a row. */
  ghost function Total(m: map<Word, nat>): nat
    decreases |m|
  {
    if m == map[] then 0
    else
      var k :| k in m;
      assert |m - {k}| < |m| by { Shrinks(m, k); }
      m[k] + Total(m - {k})
  }

  lemma Shrinks(m: map<Word, nat>, k: Word)
    requires k in m
    ensures |m - {k}| == |m| - 1
  {
    assert (m - {k}).Keys == m.Keys - {k};
    assert |m| == |m.Keys| && |m - {k}| == |(m - {k}).Keys|;
  }

  /** Any entry may be taken out first. */
  lemma {:induction false} TotalWithout(m: map<Word, nat>, k: Word)
    requires k in m
    ensures Total(m) == m[k] + Total(m - {k})
    decreases |m|
  {
    var j :| j in m && Total(m) == m[j] + Total(m - {j});
    if j != k {
      Shrinks(m, j);
      Shrinks(m, k);
      TotalWithout(m - {j}, k);
      TotalWithout(m - {k}, j);
      assert m - {j} - {k} == m - {k} - {j};
    }
  }

  lemma TotalBumped(m: map<Word, nat>, k: Word)
    ensures Total(m[k := (if k in m then m[k] else 0) + 1]) == Total(m) + 1
  {
    var m' := m[k := (if k in m then m[k] else 0) + 1];
    TotalWithout(m', k);
    if k in m {
      TotalWithout(m, k);
      assert m' - {k} == m - {k};
    } else {
      assert m' - {k} == m;
    }
  }

  /** A block entered under the address space of interest. */
  predicate IsStudiedEntry(m: Micro) {
    m.Fired? && m.cb.HotBlocks? && m.env.pgd == m.env.roiCr3
  }

  lemma OthersLeaveBlocks(s: Vcpu, m: Micro)
    requires !IsStudiedEntry(m)
    ensures Do(s, m).blocks == s.blocks
  {
    if m.Fired? { ExecIsFramed(s, m.cb, m.env, m.op); }
  }

  /** Over any run the values of `block_cnt` add up to the blocks entered under `roi_cr3`, and each
      is positive. */
  lemma {:induction false} BlockCountsAddUp(ms: seq<Micro>)
    ensures var m := Play(STARTED, ms).blocks;
            Total(m) == Count(IsStudiedEntry, ms) && forall k :: k in m ==> m[k] > 0
  {
    if ms != [] {
      var n := |ms| - 1;
      BlockCountsAddUp(ms[..n]);
      var s := Play(STARTED, ms[..n]);
      if IsStudiedEntry(ms[n]) {
        TotalBumped(s.blocks, ms[n].cb.vaddr);
      } else {
        OthersLeaveBlocks(s, ms[n]);
      }
    }
  }

  predicate EntersBlock(m: Micro, k: Word) {
    IsStudiedEntry(m) && m.cb.vaddr == k
  }

  function Entering(k: Word): Micro -> bool {
    (m: Micro) => EntersBlock(m, k)
  }

  function CountOfBlock(m: map<Word, nat>, k: Word): nat {
    if k in m then m[k] else 0
  }

  /** Over any run each block's value is the number of times that block was entered under `roi_cr3`. */
  lemma {:induction false} BlockCountsAreExact(ms: seq<Micro>, k: Word)
    ensures CountOfBlock(Play(STARTED, ms).blocks, k) == Count(Entering(k), ms)
  {
    if ms != [] {
      var n := |ms| - 1;
      BlockCountsAreExact(ms[..n], k);
      if !IsStudiedEntry(ms[n]) {
        OthersLeaveBlocks(Play(STARTED, ms[..n]), ms[n]);
      }
    }
  }

  // ---- the printout ----

  type Entry = (Word, nat)

  predicate Descending(es: seq<Entry>) {
    forall i, j :: 0 <= i < j < |es| ==> es[i].1 >= es[j].1
  }

  predicate DistinctBlocks(es: seq<Entry>) {
    forall i, j :: 0 <= i < j < |es| ==> es[i].0 != es[j].0
  }

  predicate EntriesOf(es: seq<Entry>, cnt: map<Word, nat>) {
    forall i :: 0 <= i < |es| ==> es[i].0 in cnt && cnt[es[i].0] == es[i].1
  }

  predicate Lists(es: seq<Entry>, k: Word) {
    exists i :: 0 <= i < |es| && es[i].0 == k
  }

  /** The largest entries of a row, at most `limit` of them, in descending order. */
  predicate Ranking(cnt: map<Word, nat>, es: seq<Entry>, limit: nat) {
    && |es| == (if |cnt| < limit then |cnt| else limit)
    && EntriesOf(es, cnt) && DistinctBlocks(es) && Descending(es)
    && forall k, i :: k in cnt && !Lists(es, k) && 0 <= i < |es| ==> cnt[k] <= es[i].1
  }

  function Blocks(es: seq<Entry>): set<Word> {
    set i | 0 <= i < |es| :: es[i].0
  }

  lemma {:induction false} DistinctBlocksCount(es: seq<Entry>)
    requires DistinctBlocks(es)
    ensures |Blocks(es)| == |es|
  {
    if es != [] {
      var n := |es| - 1;
      DistinctBlocksCount(es[..n]);
      assert es == es[..n] + [es[n]];
      assert Blocks(es) == Blocks(es[..n]) + {es[n].0};
      assert es[n].0 !in Blocks(es[..n]);
    }
  }

  lemma SubsetCount(a: set<Word>, b: set<Word>)
    requires a <= b
    ensures |a| <= |b|
  {
    assert b == a + (b - a);
  }

  /** A block counted more often than the `i`-th printed one is printed before it. */
  lemma PrintedBefore(cnt: map<Word, nat>, q: seq<Entry>, limit: nat, i: nat, k: Word)
    requires Ranking(cnt, q, limit) && i < |q| && k in cnt && cnt[k] > q[i].1
    ensures k in Blocks(q[..i])
  {
    assert Lists(q, k);
    var y :| 0 <= y < |q| && q[y].0 == k;
    assert y < i;
    assert q[..i][y].0 == k;
  }

  lemma PlaceOf(es: seq<Entry>, n: nat, k: Word) returns (x: nat)
    requires n <= |es| && k in Blocks(es[..n])
    ensures x < n && es[x].0 == k
  {
    x :| 0 <= x < |es[..n]| && es[..n][x].0 == k;
  }

  lemma BeatenBefore(cnt: map<Word, nat>, p: seq<Entry>, q: seq<Entry>, limit: nat, i: nat, x: nat)
    requires Ranking(cnt, p, limit) && Ranking(cnt, q, limit) && x <= i < |p| && |p| == |q| && p[i].1 > q[i].1
    ensures p[x].0 in Blocks(q[..i])
  {
    assert p[x].1 >= p[i].1;
    PrintedBefore(cnt, q, limit, i, p[x].0);
  }

  /** If `p` beats `q` at position `i`, everything `p` lists so far is among the first `i` of `q`. */
  lemma BeatenIsListed(cnt: map<Word, nat>, p: seq<Entry>, q: seq<Entry>, limit: nat, i: nat)
    requires Ranking(cnt, p, limit) && Ranking(cnt, q, limit) && i < |p| && |p| == |q| && p[i].1 > q[i].1
    ensures Blocks(p[..i + 1]) <= Blocks(q[..i])
  {
    forall k | k in Blocks(p[..i + 1]) ensures k in Blocks(q[..i]) {
      var x := PlaceOf(p, i + 1, k);
      BeatenBefore(cnt, p, q, limit, i, x);
    }
  }

  lemma RankedBefore(cnt: map<Word, nat>, p: seq<Entry>, q: seq<Entry>, limit: nat, i: nat)
    requires Ranking(cnt, p, limit) && Ranking(cnt, q, limit) && i < |p| && |p| == |q|
    ensures p[i].1 <= q[i].1
  {
    DistinctBlocksCount(p[..i + 1]);
    DistinctBlocksCount(q[..i]);
    if p[i].1 > q[i].1 {
      BeatenIsListed(cnt, p, q, limit, i);
      SubsetCount(Blocks(p[..i + 1]), Blocks(q[..i]));
      assert false;
    }
  }

  /** Ties may be printed in any order, but the counts printed are determined by the row. */
  lemma RankingIsDetermined(cnt: map<Word, nat>, p: seq<Entry>, q: seq<Entry>, limit: nat)
    requires Ranking(cnt, p, limit) && Ranking(cnt, q, limit)
    ensures |p| == |q| && forall i :: 0 <= i < |p| ==> p[i].1 == q[i].1
  {
    forall i | 0 <= i < |p| ensures p[i].1 == q[i].1 {
      RankedBefore(cnt, p, q, limit, i);
      RankedBefore(cnt, q, p, limit, i);
    }
  }

  /** Inserting into the multimap ordered by descending count. */
  method Insert(es: seq<Entry>, e: Entry) returns (more: seq<Entry>, ghost at: nat)
    requires Descending(es)
    ensures at <= |es| && more == es[..at] + [e] + es[at..] && Descending(more)
  {
    var i := 0;
    while i < |es| && es[i].1 >= e.1
      invariant i <= |es| && forall k :: 0 <= k < i ==> es[k].1 >= e.1
    {
      i := i + 1;
    }
    more := es[..i] + [e] + es[i..];
    at := i;
  }

  lemma Inserted(cnt: map<Word, nat>, rest: map<Word, nat>, es: seq<Entry>, more: seq<Entry>, e: Entry, at: nat)
    requires at <= |es| && more == es[..at] + [e] + es[at..]
    requires EntriesOf(es, cnt) && DistinctBlocks(es) && e.0 in cnt && cnt[e.0] == e.1 && !Lists(es, e.0)
    ensures EntriesOf(more, cnt) && DistinctBlocks(more)
    ensures forall k :: Lists(more, k) <==> Lists(es, k) || k == e.0
  {
    forall k ensures Lists(more, k) <==> Lists(es, k) || k == e.0 {
      if Lists(es, k) {
        var i :| 0 <= i < |es| && es[i].0 == k;
        assert more[if i < at then i else i + 1].0 == k;
      }
      assert more[at].0 == e.0;
    }
  }

  /** All entries of a row, by descending count. */
  predicate Sorted(cnt: map<Word, nat>, es: seq<Entry>) {
    && EntriesOf(es, cnt) && DistinctBlocks(es) && Descending(es)
    && |es| == |cnt| && forall k :: k in cnt ==> Lists(es, k)
  }

  /** The transform of `recorder_stop` into a multimap. */
  method SortByCount(cnt: map<Word, nat>) returns (sorted: seq<Entry>)
    ensures Sorted(cnt, sorted)
  {
    var rest := cnt;
    sorted := [];
    while rest.Keys != {}
      invariant rest.Keys <= cnt.Keys && forall k :: k in rest ==> rest[k] == cnt[k]
      invariant EntriesOf(sorted, cnt) && DistinctBlocks(sorted) && Descending(sorted)
      invariant forall k :: k in cnt ==> (Lists(sorted, k) <==> k !in rest)
      invariant |sorted| + |rest| == |cnt|
      decreases |rest|
    {
      var k :| k in rest;
      ghost var at;
      ghost var before := sorted;
      sorted, at := Insert(sorted, (k, rest[k]));
      Inserted(cnt, rest, before, sorted, (k, rest[k]), at);
      Shrinks(rest, k);
      rest := rest - {k};
    }
    assert |rest| == |rest.Keys|;
  }

  /** The transform and the printing loop of `recorder_stop`: the ten hottest blocks. */
  method PrintHotBlocks(cnt: map<Word, nat>) returns (printed: seq<Entry>)
    ensures Ranking(cnt, printed, 10)
  {
    var sorted := SortByCount(cnt);
    printed := [];
    var i := 0;
    while i < |sorted| && i < 10
      invariant i <= |sorted| && i <= 10 && printed == sorted[..i]
    {
      printed := printed + [sorted[i]];
      i := i + 1;
    }
    TopOfAll(cnt, sorted, i);
  }

  lemma TopOfAll(cnt: map<Word, nat>, sorted: seq<Entry>, n: nat)
    requires Sorted(cnt, sorted) && n == (if |cnt| < 10 then |cnt| else 10)
    ensures Ranking(cnt, sorted[..n], 10)
  {
    var top := sorted[..n];
    PrefixLists(sorted, n);
    forall k, i | k in cnt && !Lists(top, k) && 0 <= i < |top| ensures cnt[k] <= top[i].1 {
      var j :| 0 <= j < |sorted| && sorted[j].0 == k;
      assert cnt[k] == sorted[j].1 && j >= n;
    }
  }

  lemma PrefixLists(sorted: seq<Entry>, n: nat)
    requires n <= |sorted|
    ensures forall j :: 0 <= j < n ==> Lists(sorted[..n], sorted[j].0)
  {
    forall j | 0 <= j < n ensures Lists(sorted[..n], sorted[j].0) {
      assert sorted[..n][j] == sorted[j];
    }
  }
}
