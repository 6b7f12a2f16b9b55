/** What the histogram's report says: which addresses a bin stands for, that only non-zero bins are
    printed, and in which order one flush lists them. */
module McountReport {
  import opened Arithmetic
  import opened Counting
  import opened Mcount
  import opened McountLedger
  import opened McountSolo

  // ---- bins and addresses ----

  /** Bin `bin` stands for `memBin` bytes, from `bin * memBin` on. */
  lemma LocateIsTheBin(memBin: nat, io: bool, kernel: bool, paddr: nat, bin: nat)
    requires memBin > 0
    ensures Locate(memBin, io, kernel, paddr) == Access(io, kernel, bin)
            <==> bin * memBin <= paddr < bin * memBin + memBin
  {
    if bin * memBin <= paddr < bin * memBin + memBin {
      DivisionIs(paddr, memBin, bin, paddr - bin * memBin);
    }
  }

  /** A row has as many bins as fit into memory. */
  lemma RowsCoverMemory(ncores: nat, accBin: nat, memBin: nat, totalMem: nat)
    requires memBin > 0
    ensures var cfg := Configure(ncores, accBin, memBin, totalMem);
            && cfg.ncores == ncores && cfg.accBin == accBin
            && cfg.bins * memBin <= totalMem < cfg.bins * memBin + memBin
  {
    assert totalMem == totalMem / memBin * memBin + totalMem % memBin;
  }

  // ---- one flush ----

  /** Kernel before user, then by core, then by bin. */
  predicate Earlier(a: Cell, b: Cell) {
    if a.kernel != b.kernel then a.kernel
    else a.core < b.core || (a.core == b.core && a.bin < b.bin)
  }

  predicate InOrder(es: seq<Printed>) {
    forall i, j :: 0 <= i < j < |es| ==> Earlier(es[i].cell, es[j].cell)
  }

  ghost predicate Lists(es: seq<Printed>, listed: Printed -> bool) {
    InOrder(es) && forall e: Printed :: e in es <==> listed(e)
  }

  lemma ListsJoin(a: seq<Printed>, b: seq<Printed>, p: Printed -> bool, q: Printed -> bool, r: Printed -> bool)
    requires Lists(a, p) && Lists(b, q) && forall e: Printed :: r(e) <==> p(e) || q(e)
    requires forall d: Printed, e: Printed :: p(d) && q(e) ==> Earlier(d.cell, e.cell)
    ensures Lists(a + b, r)
  {
    forall i, j | 0 <= i < j < |a + b| ensures Earlier((a + b)[i].cell, (a + b)[j].cell) {
      if i < |a| <= j {
        assert a[i] in a && b[j - |a|] in b;
      }
    }
  }

  /** A non-zero bin of the first `j` of a row. */
  function OfRow(kernel: bool, core: nat, row: seq<nat>, j: nat): Printed -> bool
    requires j <= |row|
  {
    (e: Printed) => e.cell.kernel == kernel && e.cell.core == core && e.cell.bin < j
                    && e.count == row[e.cell.bin] && e.count != 0
  }

  function OfTable(kernel: bool, t: seq<seq<nat>>, i: nat): Printed -> bool
    requires i <= |t|
  {
    (e: Printed) => e.cell.kernel == kernel && e.cell.core < i && e.cell.bin < |t[e.cell.core]|
                    && e.count == t[e.cell.core][e.cell.bin] && e.count != 0
  }

  lemma {:induction false} RowLists(kernel: bool, core: nat, row: seq<nat>, j: nat)
    requires j <= |row|
    ensures Lists(RowEntries(kernel, core, row, j), OfRow(kernel, core, row, j))
  {
    if j > 0 {
      RowLists(kernel, core, row, j - 1);
      var e := Printed(Cell(kernel, core, j - 1), row[j - 1]);
      var last := if e.count != 0 then [e] else [];
      ListsJoin(RowEntries(kernel, core, row, j - 1), last, OfRow(kernel, core, row, j - 1),
                (d: Printed) => e.count != 0 && d == e, OfRow(kernel, core, row, j));
    }
  }

  lemma {:induction false} TableLists(kernel: bool, t: seq<seq<nat>>, i: nat)
    requires i <= |t|
    ensures Lists(TableEntries(kernel, t, i), OfTable(kernel, t, i))
  {
    if i > 0 {
      var row := t[i - 1];
      TableLists(kernel, t, i - 1);
      RowLists(kernel, i - 1, row, |row|);
      ListsJoin(TableEntries(kernel, t, i - 1), RowEntries(kernel, i - 1, row, |row|), OfTable(kernel, t, i - 1),
                OfRow(kernel, i - 1, row, |row|), OfTable(kernel, t, i));
    }
  }

  /** A bin that is not zero, and its count. */
  ghost predicate NonZero(s: State, e: Printed)
    requires Sized(s)
  {
    InRange(s.cfg, e.cell) && e.count == At(s, e.cell) && e.count != 0
  }

  /** A flush adds to the report exactly the bins that are not zero, with what they hold, the kernel's
      before the users', by core and by bin; and leaves every bin zero. */
  lemma FlushListsNonZeroBins(s: State) returns (es: seq<Printed>)
    requires Sized(s)
    ensures Flushed(s).report == s.report + es && InOrder(es)
    ensures forall e: Printed :: e in es <==> NonZero(s, e)
    ensures Sized(Flushed(s)) && forall c: Cell :: InRange(s.cfg, c) ==> At(Flushed(s), c) == 0
  {
    es := FlushEntries(s);
    var k, u := s.tables.kernel, s.tables.user;
    Associates(s.report, TableEntries(true, k, |k|), TableEntries(false, u, |u|));
    FlushClears(s);
  }

  lemma FlushClears(s: State)
    requires Sized(s)
    ensures Sized(Flushed(s)) && forall c: Cell :: InRange(s.cfg, c) ==> At(Flushed(s), c) == 0
  {
  }

  lemma FlushEntries(s: State) returns (es: seq<Printed>)
    requires Sized(s)
    ensures var k, u := s.tables.kernel, s.tables.user;
            es == TableEntries(true, k, |k|) + TableEntries(false, u, |u|)
    ensures InOrder(es) && forall e: Printed :: e in es <==> NonZero(s, e)
  {
    var k, u := s.tables.kernel, s.tables.user;
    TableLists(true, k, |k|);
    TableLists(false, u, |u|);
    es := TableEntries(true, k, |k|) + TableEntries(false, u, |u|);
    ListsJoin(TableEntries(true, k, |k|), TableEntries(false, u, |u|), OfTable(true, k, |k|), OfTable(false, u, |u|),
              (e: Printed) => OfTable(true, k, |k|)(e) || OfTable(false, u, |u|)(e));
    forall e: Printed ensures e in es <==> NonZero(s, e) {
      assert e in es <==> OfTable(true, k, |k|)(e) || OfTable(false, u, |u|)(e);
    }
  }

  // ---- whole runs ----

  ghost predicate RealEntries(s: State) {
    forall i :: 0 <= i < |s.report| ==> InRange(s.cfg, s.report[i].cell) && 0 < s.report[i].count < 0x1_0000_0000
  }

  lemma PrintBinIsReal(s: State, core: nat)
    requires Sized(s) && ExactInv(s) && core < |s.vcpus| && s.vcpus[core].Printing? && RealEntries(s)
    ensures RealEntries(PrintBin(s, core))
  {
    var Printing(a, k, i, j) := s.vcpus[core];
    if InRange(s.cfg, Cell(k, i, j)) {
      assert CellExact(s, Cell(k, i, j));
    }
  }

  lemma OthersPrintNothing(s: State, act: Action)
    requires Sized(s) && PcsInRange(s) && Enabled(s, act) && !act.Start?
    requires !(act.Advance? && s.vcpus[act.core].Printing?)
    ensures Next(s, act).report == s.report && Next(s, act).cfg == s.cfg
  {
  }

  lemma StepPrintsReal(s: State, act: Action)
    requires Accounted(s) && Enabled(s, act) && RealEntries(s)
    ensures RealEntries(Next(s, act))
  {
    if act.Advance? && s.vcpus[act.core].Printing? {
      PrintBinIsReal(s, act.core);
    } else if !act.Start? {
      OthersPrintNothing(s, act);
    }
  }

  /** In every run, every entry ever printed is of a bin of the set-up, and a positive 32-bit count. */
  lemma {:induction false} EntriesAreReal(run: seq<State>, n: nat)
    requires IsRun(run) && n < |run|
    ensures RealEntries(run[n])
  {
    if n > 0 {
      EntriesAreReal(run, n - 1);
      EveryStateIsAccounted(run, n - 1);
      assert Steps(run[n - 1], run[n]);
      var act :| Enabled(run[n - 1], act) && run[n] == Next(run[n - 1], act);
      StepPrintsReal(run[n - 1], act);
    }
  }
}
