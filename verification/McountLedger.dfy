/** Exact counts, the bound on what waits in the bins, and the ledger of `acc_cnt`,
    in every run of the histogram protocol. */
module McountLedger {
  import opened Arithmetic
  import opened Counting
  import opened Mcount
  import opened McountProofs
  import opened McountRows

  // ---- the backlog ----

  /** Has incremented `acc_cnt` and not yet recorded its access. */
  predicate Counted(pc: Pc) { !pc.Outside? && !pc.Checked? }

  predicate IsChecked(pc: Pc) { pc.Checked? }

  function Load(s: State): int {
    Resident(s.tables) + Count(Counted, s.vcpus)
  }

  /** Every unflushed multiple of `accBin` is held by a distinct waiting vcpu. */
  ghost predicate BacklogInv(s: State)
    requires s.cfg.Valid()
  {
    && (s.on ==> Load(s) <= Count(Waiting, s.vcpus) * s.cfg.accBin + Phase(s) + s.cfg.ncores)
    && (!s.on ==> Load(s) + Count(IsChecked, s.vcpus) < s.cfg.Backlog())
  }

  // ---- exact counts ----

  function CountOf(p: Printed): int { p.count }

  function Share(c: Cell): Printed -> int {
    (p: Printed) => if p.cell == c then p.count else 0
  }

  /** What the report says about `c` so far. */
  function PrintedOf(report: seq<Printed>, c: Cell): int {
    Sum(Share(c), report)
  }

  predicate Clears(pc: Pc, c: Cell) {
    pc.Clearing? && Cell(pc.kernel, pc.core, pc.bin) == c
  }

  predicate BeingCleared(vcpus: seq<Pc>, c: Cell) {
    exists i :: 0 <= i < |vcpus| && Clears(vcpus[i], c)
  }

  /** Printed and resident; a bin that a flusher printed and has not yet cleared counts once. */
  ghost function Balance(s: State, c: Cell): int
    requires Sized(s) && InRange(s.cfg, c)
  {
    PrintedOf(s.report, c) + if BeingCleared(s.vcpus, c) then 0 else At(s, c)
  }

  /** The bins cannot wrap: the peak of a row fits a `uint32_t`. */
  predicate Narrow(cfg: Config) { Peak(cfg) < 0x1_0000_0000 }

  ghost predicate CellExact(s: State, c: Cell)
    requires Sized(s) && InRange(s.cfg, c)
  {
    var lost := Accesses(s.past.done, c) - Balance(s, c);
    lost >= 0 && lost % 0x1_0000_0000 == 0 && (Narrow(s.cfg) ==> lost == 0)
  }

  ghost predicate ExactInv(s: State)
    requires Sized(s)
  {
    forall c :: InRange(s.cfg, c) ==> CellExact(s, c) && At(s, c) < 0x1_0000_0000
  }

  // ---- the ledger of acc_cnt ----

  ghost predicate LedgerInv(s: State) {
    && s.past.increments == |s.past.done| + s.past.ios + Count(Counted, s.vcpus) + s.past.dropped
    && s.accCnt == Wrap64(s.past.increments)
    && s.ioCnt == Wrap64(s.past.ios)
    && (s.past.dropped > 0 ==> !s.on)
  }

  /** With `waiting` in the bins every recorded access is accounted for, up to the wraps of bins. */
  ghost predicate Conserved(s: State, waiting: int) {
    var lost := |s.past.done| - Sum(CountOf, s.report) - waiting;
    lost >= 0 && lost % 0x1_0000_0000 == 0 && (Narrow(s.cfg) ==> lost == 0)
  }

  /** The report and the bins together hold every recorded access; a bin that was printed and is
      not yet cleared counts once. */
  ghost predicate TotalInv(s: State)
    requires Sized(s) && PcsInRange(s)
  {
    && ((forall i :: 0 <= i < |s.vcpus| ==> !s.vcpus[i].Clearing?) ==> Conserved(s, Resident(s.tables)))
    && (forall i :: 0 <= i < |s.vcpus| && s.vcpus[i].Clearing? ==> Conserved(s, ResidentBut(s, s.vcpus[i])))
  }

  /** What waits in the bins but for the one a flusher printed. */
  function ResidentBut(s: State, pc: Pc): int
    requires Sized(s) && pc.Clearing? && InRange(s.cfg, Cell(pc.kernel, pc.core, pc.bin))
  {
    Resident(s.tables) - At(s, Cell(pc.kernel, pc.core, pc.bin))
  }

  ghost predicate Balanced(s: State) {
    Safe(s) && BacklogInv(s) && ExactInv(s) && LedgerInv(s) && TotalInv(s)
  }

  ghost predicate Accounted(s: State) {
    Balanced(s) && RowInv(s)
  }

  /** The waiting accesses and those in flight never exceed the backlog. */
  lemma LoadIsBounded(s: State)
    requires Sized(s) && BacklogInv(s)
    ensures s.on ==> Load(s) + 1 <= (s.cfg.ncores + 1) * s.cfg.accBin + s.cfg.ncores
    ensures Load(s) < s.cfg.Backlog()
  {
    Scales(Count(Waiting, s.vcpus), s.cfg.ncores, s.cfg.accBin);
  }

  lemma CountsMove(s: State, core: nat, pc: Pc)
    requires core < |s.vcpus|
    ensures Count(Counted, s.vcpus[core := pc]) + (if Counted(s.vcpus[core]) then 1 else 0)
         == Count(Counted, s.vcpus) + (if Counted(pc) then 1 else 0)
    ensures Count(Waiting, s.vcpus[core := pc]) + (if Waiting(s.vcpus[core]) then 1 else 0)
         == Count(Waiting, s.vcpus) + (if Waiting(pc) then 1 else 0)
    ensures Count(IsChecked, s.vcpus[core := pc]) + (if IsChecked(s.vcpus[core]) then 1 else 0)
         == Count(IsChecked, s.vcpus) + (if IsChecked(pc) then 1 else 0)
  {
    CountUpdate(Counted, s.vcpus, core, pc);
    CountUpdate(Waiting, s.vcpus, core, pc);
    CountUpdate(IsChecked, s.vcpus, core, pc);
  }

  lemma ClearsUnchanged(vcpus: seq<Pc>, core: nat, pc: Pc)
    requires core < |vcpus| && !vcpus[core].Clearing? && !pc.Clearing?
    ensures forall c :: BeingCleared(vcpus[core := pc], c) <==> BeingCleared(vcpus, c)
  {
    forall c ensures BeingCleared(vcpus[core := pc], c) <==> BeingCleared(vcpus, c) {
      if BeingCleared(vcpus, c) {
        var i :| 0 <= i < |vcpus| && Clears(vcpus[i], c);
        assert Clears(vcpus[core := pc][i], c);
      }
    }
  }

  // ---- every step keeps the accounts ----

  /** Steps that leave the tables and the report alone keep the counts exact. */
  lemma QuietStepKeepsExact(s: State, core: nat, s': State)
    requires Safe(s) && ExactInv(s) && TotalInv(s) && Sized(s') && PcsInRange(s')
    requires core < |s.vcpus| && core < |s'.vcpus| && s'.vcpus == s.vcpus[core := s'.vcpus[core]]
    requires !s.vcpus[core].Clearing? && !s'.vcpus[core].Clearing?
    requires s'.cfg == s.cfg && s'.tables == s.tables && s'.report == s.report && s'.past.done == s.past.done
    ensures ExactInv(s') && TotalInv(s')
  {
    ClearsUnchanged(s.vcpus, core, s'.vcpus[core]);
    SameCellsStayExact(s, s');
    QuietKeepsRest(s, core, s');
    QuietKeepsWhole(s, core, s');
  }

  lemma QuietKeepsRest(s: State, core: nat, s': State)
    requires Sized(s) && PcsInRange(s) && Sized(s') && PcsInRange(s') && TotalInv(s)
    requires core < |s.vcpus| && core < |s'.vcpus| && s'.vcpus == s.vcpus[core := s'.vcpus[core]]
    requires !s'.vcpus[core].Clearing?
    requires s'.cfg == s.cfg && s'.tables == s.tables && s'.report == s.report && s'.past.done == s.past.done
    ensures forall i :: 0 <= i < |s'.vcpus| && s'.vcpus[i].Clearing? ==> Conserved(s', ResidentBut(s', s'.vcpus[i]))
  {
    forall i | 0 <= i < |s'.vcpus| && s'.vcpus[i].Clearing? ensures Conserved(s', ResidentBut(s', s'.vcpus[i])) {
      assert s'.vcpus[i] == s.vcpus[i];
      SameConserved(s, s', ResidentBut(s, s.vcpus[i]));
    }
  }

  lemma SameConserved(s: State, s': State, waiting: int)
    requires s'.cfg == s.cfg && s'.report == s.report && s'.past.done == s.past.done
    ensures Conserved(s', waiting) <==> Conserved(s, waiting)
  {
  }

  lemma SameCellsStayExact(s: State, s': State)
    requires Sized(s) && Sized(s') && s'.cfg == s.cfg && s'.tables == s.tables && s'.report == s.report
    requires s'.past.done == s.past.done && ExactInv(s)
    requires forall c :: BeingCleared(s'.vcpus, c) <==> BeingCleared(s.vcpus, c)
    ensures ExactInv(s')
  {
    forall c | InRange(s'.cfg, c) ensures CellExact(s', c) && At(s', c) < 0x1_0000_0000 {
      assert CellExact(s, c);
    }
  }

  lemma QuietKeepsWhole(s: State, core: nat, s': State)
    requires Sized(s) && PcsInRange(s) && Sized(s') && PcsInRange(s') && TotalInv(s)
    requires core < |s.vcpus| && core < |s'.vcpus| && s'.vcpus == s.vcpus[core := s'.vcpus[core]]
    requires !s.vcpus[core].Clearing?
    requires s'.cfg == s.cfg && s'.tables == s.tables && s'.report == s.report && s'.past.done == s.past.done
    ensures (forall i :: 0 <= i < |s'.vcpus| ==> !s'.vcpus[i].Clearing?) ==> Conserved(s', Resident(s'.tables))
  {
    SameConserved(s, s', Resident(s.tables));
    if forall i :: 0 <= i < |s'.vcpus| ==> !s'.vcpus[i].Clearing? {
      forall i | 0 <= i < |s.vcpus| ensures !s.vcpus[i].Clearing? {
        assert i != core ==> s.vcpus[i] == s'.vcpus[i];
      }
    }
  }

  lemma WrapSuccessor(n: nat)
    ensures Wrap64(Wrap64(n) + 1) == Wrap64(n + 1)
  {
  }

  /** The arithmetic of one increment: either the phase advances or a waiter appears. */
  lemma IncrementArithmetic(load: int, w: nat, phase: nat, phase': nat, accBin: nat, ncores: nat)
    requires load <= w * accBin + phase + ncores && phase < accBin
    requires phase' == 0 || phase' == phase + 1
    ensures load + 1 <= (if phase' == 0 then w + 1 else w) * accBin + phase' + ncores
  {
    assert (w + 1) * accBin == w * accBin + accBin;
  }

  lemma CountStepBacklog(s: State, core: nat)
    requires Sized(s) && BacklogInv(s) && s.accCnt < 0x1_0000_0000_0000_0000
    requires core < |s.vcpus| && s.vcpus[core].Checked?
    ensures BacklogInv(CountAccess(s, core))
  {
    var s' := CountAccess(s, core);
    CountsMove(s, core, s'.vcpus[core]);
    NextPhase(s.accCnt, s.cfg.accBin);
    if s.on {
      IncrementArithmetic(Load(s), Count(Waiting, s.vcpus), Phase(s), Phase(s'), s.cfg.accBin, s.cfg.ncores);
    }
  }

  lemma CountAccessBalances(s: State, core: nat)
    requires Accounted(s) && core < |s.vcpus| && s.vcpus[core].Checked?
    ensures Balanced(CountAccess(s, core))
  {
    var s' := CountAccess(s, core);
    CountAccessIsSafe(s, core);
    QuietStepKeepsExact(s, core, s');
    CountStepBacklog(s, core);
    CountAccessKeepsLedger(s, core);
  }

  lemma CountAccessKeepsLedger(s: State, core: nat)
    requires Sized(s) && LedgerInv(s) && core < |s.vcpus| && s.vcpus[core].Checked?
    ensures LedgerInv(CountAccess(s, core))
  {
    CountsMove(s, core, CountAccess(s, core).vcpus[core]);
    WrapSuccessor(s.past.increments);
  }

  /** Steps that neither elect nor admit a vcpu cannot break the bound by shrinking the load. */
  lemma BacklogShrinks(s: State, s': State)
    requires Sized(s) && BacklogInv(s) && s'.cfg == s.cfg && s'.on == s.on && s'.accCnt == s.accCnt
    requires Load(s') <= Load(s)
    requires Count(Waiting, s'.vcpus) == Count(Waiting, s.vcpus)
    requires Count(IsChecked, s'.vcpus) == Count(IsChecked, s.vcpus)
    ensures BacklogInv(s')
  {
  }

  lemma RecordKeepsBacklog(s: State, core: nat)
    requires Sized(s) && BacklogInv(s) && core < |s.vcpus| && s.vcpus[core].Recording?
    ensures BacklogInv(Record(s, core))
  {
    CountsMove(s, core, Record(s, core).vcpus[core]);
    BacklogShrinks(s, Record(s, core));
  }

  lemma RecordKeepsLedger(s: State, core: nat)
    requires LedgerInv(s) && core < |s.vcpus| && s.vcpus[core].Recording?
    ensures LedgerInv(Record(s, core))
  {
    CountsMove(s, core, Record(s, core).vcpus[core]);
    WrapSuccessor(s.past.ios);
  }

  lemma TakeExclusiveBalances(s: State, core: nat)
    requires Accounted(s) && core < |s.vcpus| && s.vcpus[core].Elected? && s.lock == Lock(0, false)
    ensures Balanced(TakeExclusive(s, core))
  {
    var s' := TakeExclusive(s, core);
    TakeExclusiveIsSafe(s, core);
    QuietStepKeepsExact(s, core, s');
    CountsMove(s, core, s'.vcpus[core]);
  }

  lemma RecheckBalances(s: State, core: nat)
    requires Accounted(s) && core < |s.vcpus| && s.vcpus[core].Rechecking?
    ensures Balanced(Recheck(s, core))
  {
    var s' := Recheck(s, core);
    RecheckIsSafe(s, core);
    QuietStepKeepsExact(s, core, s');
    CountsMove(s, core, s'.vcpus[core]);
  }

  lemma RecordBalances(s: State, core: nat)
    requires Accounted(s) && core < |s.vcpus| && s.vcpus[core].Recording? && (s.vcpus[core].a.io || !s.lock.writer)
    ensures Balanced(Record(s, core))
  {
    var s' := Record(s, core);
    RecordIsSafe(s, core);
    QuietStepKeepsExact(s, core, s');
    RecordKeepsBacklog(s, core);
    RecordKeepsLedger(s, core);
  }

  lemma ReadBinBalances(s: State, core: nat)
    requires Accounted(s) && core < |s.vcpus| && s.vcpus[core].Reading?
    ensures Balanced(ReadBin(s, core))
  {
    var s' := ReadBin(s, core);
    ReadBinIsSafe(s, core);
    QuietStepKeepsExact(s, core, s');
    CountsMove(s, core, s'.vcpus[core]);
  }

  lemma PrintBinBalances(s: State, core: nat)
    requires Accounted(s) && core < |s.vcpus| && s.vcpus[core].Printing?
    ensures Balanced(PrintBin(s, core))
  {
    var s' := PrintBin(s, core);
    PrintBinIsSafe(s, core);
    CountsMove(s, core, s'.vcpus[core]);
    if InRange(s.cfg, Cell(s.vcpus[core].kernel, s.vcpus[core].core, s.vcpus[core].bin)) {
      PrintingKeepsExact(s, core);
    } else {
      QuietStepKeepsExact(s, core, s');
      if s'.vcpus[core].Recording? {
        FinishedFlushIsEmpty(s, core);
        FlushEndsAWait(s, core);
      }
    }
  }

  /** A finished flush gives back one multiple of `accBin` and leaves nothing in the bins. */
  lemma FlushEndsAWait(s: State, core: nat)
    requires Sized(s) && BacklogInv(s) && core < |s.vcpus| && s.vcpus[core].Printing?
    requires Resident(s.tables) == 0 && PrintBin(s, core).vcpus[core].Recording?
    ensures BacklogInv(PrintBin(s, core))
  {
    var s' := PrintBin(s, core);
    CountsMove(s, core, s'.vcpus[core]);
    Scales(0, Count(Waiting, s'.vcpus), s.cfg.accBin);
  }

  /** `s'` is `s` after the flusher `core` printed the bin `here`. */
  ghost predicate PrintedHere(s: State, core: nat, here: Cell, s': State) {
    && Sized(s) && Sized(s') && InRange(s.cfg, here)
    && s'.cfg == s.cfg && s'.tables == s.tables && s'.past == s.past
    && s'.report == (if At(s, here) != 0 then s.report + [Printed(here, At(s, here))] else s.report)
    && core < |s'.vcpus| && Clears(s'.vcpus[core], here)
    && (forall j :: 0 <= j < |s.vcpus| ==> !s.vcpus[j].Clearing?)
    && (forall j :: 0 <= j < |s'.vcpus| && j != core ==> !s'.vcpus[j].Clearing?)
  }

  lemma PrintingKeepsCells(s: State, core: nat, here: Cell, s': State)
    requires PrintedHere(s, core, here, s') && ExactInv(s)
    ensures ExactInv(s')
  {
    forall c | InRange(s'.cfg, c) ensures CellExact(s', c) && At(s', c) < 0x1_0000_0000 {
      assert CellExact(s, c);
      PrintingKeepsBalance(s, core, here, s', c);
    }
  }

  /** What is printed is no longer counted as resident. */
  lemma PrintingKeepsBalance(s: State, core: nat, here: Cell, s': State, c: Cell)
    requires PrintedHere(s, core, here, s') && InRange(s.cfg, c)
    ensures Balance(s', c) == Balance(s, c)
  {
    SumPush(Share(c), s.report, Printed(here, At(s, here)));
    assert !BeingCleared(s.vcpus, c);
    if c == here {
      assert BeingCleared(s'.vcpus, c);
    } else {
      assert !BeingCleared(s'.vcpus, c);
    }
  }

  lemma PrintingKeepsTotal(s: State, core: nat, here: Cell, s': State)
    requires PrintedHere(s, core, here, s') && PcsInRange(s) && TotalInv(s) && PcsInRange(s')
    ensures TotalInv(s')
  {
    PrintedIsOff(s, here, s', Resident(s.tables));
    assert ResidentBut(s', s'.vcpus[core]) == Resident(s.tables) - At(s, here);
  }

  lemma PrintedIsOff(s: State, here: Cell, s': State, waiting: int)
    requires Sized(s) && InRange(s.cfg, here) && s'.cfg == s.cfg && s'.past == s.past && Conserved(s, waiting)
    requires s'.report == (if At(s, here) != 0 then s.report + [Printed(here, At(s, here))] else s.report)
    ensures Conserved(s', waiting - At(s, here))
  {
    SumPush(CountOf, s.report, Printed(here, At(s, here)));
  }

  lemma PrintingKeepsExact(s: State, core: nat)
    requires Accounted(s) && core < |s.vcpus| && s.vcpus[core].Printing?
    requires InRange(s.cfg, Cell(s.vcpus[core].kernel, s.vcpus[core].core, s.vcpus[core].bin))
    requires Safe(PrintBin(s, core))
    ensures ExactInv(PrintBin(s, core)) && TotalInv(PrintBin(s, core))
  {
    var here := Cell(s.vcpus[core].kernel, s.vcpus[core].core, s.vcpus[core].bin);
    FlusherIsAlone(s, core);
    PrintingKeepsCells(s, core, here, PrintBin(s, core));
    PrintingKeepsTotal(s, core, here, PrintBin(s, core));
  }

  /** `s'` is `s` after the flusher `core` cleared the bin `here` that it had printed. */
  ghost predicate ClearedHere(s: State, core: nat, here: Cell, s': State) {
    && Sized(s) && Sized(s') && InRange(s.cfg, here) && s'.cfg == s.cfg && s'.report == s.report && s'.past == s.past
    && s'.tables == Put(s.cfg, s.tables, here, 0)
    && core < |s.vcpus| && Clears(s.vcpus[core], here)
    && (forall j :: 0 <= j < |s.vcpus| && j != core ==> !s.vcpus[j].Clearing?)
    && (forall j :: 0 <= j < |s'.vcpus| ==> !s'.vcpus[j].Clearing?)
  }

  lemma ClearingKeepsCells(s: State, core: nat, here: Cell, s': State)
    requires ClearedHere(s, core, here, s') && ExactInv(s)
    ensures ExactInv(s')
  {
    forall c | InRange(s'.cfg, c) ensures CellExact(s', c) && At(s', c) < 0x1_0000_0000 {
      assert CellExact(s, c);
      assert !BeingCleared(s'.vcpus, c);
      if c != here {
        assert !BeingCleared(s.vcpus, c);
      }
    }
  }

  lemma ClearBinBalances(s: State, core: nat)
    requires Accounted(s) && core < |s.vcpus| && s.vcpus[core].Clearing?
    ensures Balanced(ClearBin(s, core))
  {
    var s' := ClearBin(s, core);
    ClearBinIsSafe(s, core);
    CountsMove(s, core, s'.vcpus[core]);
    var here := Cell(s.vcpus[core].kernel, s.vcpus[core].core, s.vcpus[core].bin);
    FlusherIsAlone(s, core);
    PutResident(s.cfg, s.tables, here, 0);
    ClearingKeepsCells(s, core, here, s');
    ClearingKeepsTotal(s, core, here, s');
  }

  lemma ClearingKeepsTotal(s: State, core: nat, here: Cell, s': State)
    requires ClearedHere(s, core, here, s') && PcsInRange(s) && PcsInRange(s') && TotalInv(s)
    ensures TotalInv(s')
  {
    PutResident(s.cfg, s.tables, here, 0);
    SameConserved(s, s', ResidentBut(s, s.vcpus[core]));
  }

  lemma StoreBinBalances(s: State, core: nat)
    requires Accounted(s) && core < |s.vcpus| && s.vcpus[core].Storing?
    ensures Balanced(StoreBin(s, core))
  {
    var s' := StoreBin(s, core);
    StoreBinIsSafe(s, core);
    CountsMove(s, core, s'.vcpus[core]);
    StoringKeepsExact(s, core);
  }

  /** `s'` is `s` after a bin went from `n` to `n + 1`, with no flush about. */
  ghost predicate StoredHere(s: State, k: Arrival, s': State) {
    var here := CellOf(k.core, k.a);
    && !k.a.io && Sized(s) && Sized(s') && InRange(s.cfg, here) && s'.cfg == s.cfg && s'.report == s.report
    && s'.tables == Put(s.cfg, s.tables, here, Wrap32(At(s, here) + 1))
    && s'.past.done == s.past.done + [k]
    && (forall c :: !BeingCleared(s.vcpus, c) && !BeingCleared(s'.vcpus, c))
    && (Narrow(s.cfg) ==> At(s, here) + 1 < 0x1_0000_0000)
  }

  /** A memory access counts at its own bin and at no other. */
  lemma DonePush(done: seq<Arrival>, k: Arrival, c: Cell)
    requires !k.a.io
    ensures Accesses(done + [k], c) == Accesses(done, c) + if c == CellOf(k.core, k.a) then 1 else 0
  {
    assert (done + [k])[..|done|] == done;
  }

  lemma StoringKeepsCells(s: State, k: Arrival, s': State)
    requires StoredHere(s, k, s') && ExactInv(s)
    ensures ExactInv(s')
  {
    forall c | InRange(s'.cfg, c) ensures CellExact(s', c) && At(s', c) < 0x1_0000_0000 {
      assert CellExact(s, c);
      DonePush(s.past.done, k, c);
    }
  }

  /** One more access recorded, and one more in the bins, or 2^32 - 1 fewer. */
  lemma StoringConserves(s: State, k: Arrival, s': State)
    requires StoredHere(s, k, s') && Conserved(s, Resident(s.tables)) && At(s, CellOf(k.core, k.a)) < 0x1_0000_0000
    ensures Conserved(s', Resident(s'.tables))
  {
    var here := CellOf(k.core, k.a);
    var was := At(s, here);
    PutResident(s.cfg, s.tables, here, Wrap32(was + 1));
    StoredWraps(was);
    assert |s'.past.done| == |s.past.done| + 1;
  }

  lemma StoredWraps(n: nat)
    requires n < 0x1_0000_0000
    ensures Wrap32(n + 1) == if n + 1 < 0x1_0000_0000 then n + 1 else 0
  {
  }

  lemma StoringKeepsExact(s: State, core: nat)
    requires Accounted(s) && core < |s.vcpus| && s.vcpus[core].Storing?
    requires Safe(StoreBin(s, core))
    ensures ExactInv(StoreBin(s, core)) && TotalInv(StoreBin(s, core))
    ensures Resident(StoreBin(s, core).tables) <= Resident(s.tables) + 1
  {
    SharerKeepsFlushersOut(s, core);
    var here := CellOf(core, s.vcpus[core].a);
    PutResident(s.cfg, s.tables, here, Wrap32(At(s, here) + 1));
    StoredWraps(At(s, here));
    StoringBelowPeak(s, core);
    ClearsUnchanged(s.vcpus, core, Outside);
    StoringKeepsCells(s, Arrival(core, s.vcpus[core].a), StoreBin(s, core));
    StoringConserves(s, Arrival(core, s.vcpus[core].a), StoreBin(s, core));
  }

  lemma FreshIsAccounted(cfg: Config)
    requires cfg.Valid()
    ensures Accounted(Fresh(cfg))
  {
    var s := Fresh(cfg);
    FreshIsSafe(cfg);
    FreshKeepsRows(cfg);
    NothingResident(cfg, s.tables);
    CountNone(Counted, s.vcpus);
    forall c ensures !BeingCleared(s.vcpus, c) {
    }
  }

  lemma CallBalances(s: State, core: nat, a: Access)
    requires Accounted(s) && core < |s.vcpus| && s.vcpus[core].Outside? && Fits(s.cfg, a) && s.on
    ensures Balanced(WithPc(s, core, Checked(a)))
  {
    CallIsSafe(s, core, a);
    CountsMove(s, core, Checked(a));
    QuietStepKeepsExact(s, core, WithPc(s, core, Checked(a)));
  }

  /** Turning the mode off freezes the load: only the callbacks already admitted can add to it. */
  lemma StopBalances(s: State)
    requires Accounted(s) && s.controller.Resting?
    ensures Balanced(s.(on := false, controller := Stopped))
  {
    LoadIsBounded(s);
    StepIsSafe(s, Stop);
    assert s.(on := false, controller := Stopped) == Next(s, Stop);
    ExactIgnoresTheController(s, Next(s, Stop));
  }

  lemma ExactIgnoresTheController(s: State, s': State)
    requires Sized(s) && PcsInRange(s) && ExactInv(s) && TotalInv(s) && Sized(s') && PcsInRange(s')
    requires s'.cfg == s.cfg && s'.tables == s.tables && s'.report == s.report
    requires s'.past == s.past && s'.vcpus == s.vcpus
    ensures ExactInv(s') && TotalInv(s')
  {
    SameCellsStayExact(s, s');
    SameConserved(s, s', Resident(s.tables));
    forall i | 0 <= i < |s'.vcpus| && s'.vcpus[i].Clearing? ensures Conserved(s', ResidentBut(s', s'.vcpus[i])) {
      SameConserved(s, s', ResidentBut(s, s.vcpus[i]));
    }
  }

  lemma ControlBalances(s: State)
    requires Accounted(s) && Enabled(s, Control)
    ensures Balanced(ControlTick(s))
  {
    ControlIsSafe(s);
    ExactIgnoresTheController(s, ControlTick(s));
  }

  lemma TickBalances(s: State, core: nat)
    requires Accounted(s) && Enabled(s, Advance(core))
    ensures Balanced(Tick(s, core))
  {
    match s.vcpus[core]
    case Checked(_) => CountAccessBalances(s, core);
    case Elected(_) => TakeExclusiveBalances(s, core);
    case Rechecking(_) => RecheckBalances(s, core);
    case Printing(_, _, _, _) => PrintBinBalances(s, core);
    case Clearing(_, _, _, _) => ClearBinBalances(s, core);
    case Recording(_) => RecordBalances(s, core);
    case Reading(_) => ReadBinBalances(s, core);
    case Storing(_, _) => StoreBinBalances(s, core);
  }

  lemma StepBalances(s: State, act: Action)
    requires Accounted(s) && Enabled(s, act)
    ensures Accounted(Next(s, act))
  {
    StepKeepsRows(s, act);
    match act
    case Call(core, a) => if s.on { CallBalances(s, core, a); }
    case Advance(core) => TickBalances(s, core);
    case Stop => StopBalances(s);
    case Control => ControlBalances(s);
    case Start(cfg) => FreshIsAccounted(cfg);
  }

  // ---- whole runs ----

  /** Every state of every run is accounted for. */
  lemma {:induction false} EveryStateIsAccounted(run: seq<State>, n: nat)
    requires IsRun(run) && n < |run|
    ensures Accounted(run[n])
  {
    if n == 0 {
      var cfg: Config :| cfg.Valid() && run[0] == Fresh(cfg);
      FreshIsAccounted(cfg);
    } else {
      EveryStateIsAccounted(run, n - 1);
      assert Steps(run[n - 1], run[n]);
      var act :| Enabled(run[n - 1], act) && run[n] == Next(run[n - 1], act);
      StepBalances(run[n - 1], act);
    }
  }

  /** No split increment is lost: a vcpu about to write a bin still sees the value it read, no
      matter what ran in between. */
  lemma NoLostUpdate(run: seq<State>, n: nat, core: nat)
    requires IsRun(run) && n < |run| && core < |run[n].vcpus| && run[n].vcpus[core].Storing?
    ensures Sized(run[n]) && PcsInRange(run[n])
    ensures run[n].vcpus[core].seen == At(run[n], CellOf(core, run[n].vcpus[core].a))
    ensures forall j :: 0 <= j < |run[n].vcpus| ==> !Excludes(run[n].vcpus[j])
  {
    EveryStateIsAccounted(run, n);
    SharerKeepsFlushersOut(run[n], core);
  }

  /** The bins never hold more than the backlog, and less while the mode is on. */
  lemma BacklogIsBounded(run: seq<State>, n: nat)
    requires IsRun(run) && n < |run|
    ensures var s := run[n];
            && (s.on ==> Resident(s.tables) < (s.cfg.ncores + 1) * s.cfg.accBin + s.cfg.ncores)
            && Resident(s.tables) < s.cfg.Backlog()
  {
    EveryStateIsAccounted(run, n);
    LoadIsBounded(run[n]);
  }

  /** `acc_cnt` is, modulo 2^64, the accesses recorded, to devices, in flight and dropped by a
      flusher that found the mode off; and those recorded are in the report or in the bins, where
      a bin that a flusher printed and has not yet cleared counts once. */
  lemma AccCntLedger(run: seq<State>, n: nat)
    requires IsRun(run) && n < |run|
    ensures var s := run[n];
            && s.accCnt == (|s.past.done| + s.past.ios + Count(Counted, s.vcpus) + s.past.dropped)
                           % 0x1_0000_0000_0000_0000
            && s.ioCnt == s.past.ios % 0x1_0000_0000_0000_0000
            && (s.past.dropped > 0 ==> !s.on)
            && Sized(s) && PcsInRange(s)
            && ((forall i :: 0 <= i < |s.vcpus| ==> !s.vcpus[i].Clearing?) ==> Conserved(s, Resident(s.tables)))
            && (forall i :: 0 <= i < |s.vcpus| && s.vcpus[i].Clearing? ==>
                  Conserved(s, ResidentBut(s, s.vcpus[i])))
  {
    EveryStateIsAccounted(run, n);
  }

  /** The bins of one core never hold more than the peak. */
  lemma RowsStayBelowThePeak(run: seq<State>, n: nat, core: nat)
    requires IsRun(run) && n < |run| && core < run[n].cfg.ncores
    ensures Sized(run[n]) && RowOf(run[n], core) <= Peak(run[n].cfg)
  {
    EveryStateIsAccounted(run, n);
    assert RowLoad(run[n], core) <= Peak(run[n].cfg);
  }

  /** What one step may do to the report, short of starting a new one. */
  ghost predicate ReportStep(s: State, s': State) {
    && (s'.report != s.report ==> s.open && s'.open && exists i :: 0 <= i < |s.vcpus| && Flushing(s.vcpus[i]))
    && (s'.summary != s.summary ==> s.open && !s'.open)
    && (!s.open ==> !s'.open)
    && (s.open && !s'.open ==>
          !s'.on && s'.summary == [(s.accCnt, s.ioCnt)] && s'.report == s.report && NoFlusher(s) && NoFlusher(s'))
  }

  ghost predicate NoFlusher(s: State) {
    forall i :: 0 <= i < |s.vcpus| ==> !Excludes(s.vcpus[i])
  }

  lemma TickReports(s: State, core: nat)
    requires Safe(s) && Enabled(s, Advance(core))
    ensures ReportStep(s, Tick(s, core))
  {
  }

  lemma ControlReports(s: State)
    requires Safe(s) && Enabled(s, Control)
    ensures ReportStep(s, ControlTick(s))
  {
    if s.controller.Summarising? {
      forall i | 0 <= i < |s.vcpus| ensures !Excludes(s.vcpus[i]) {
        if Excludes(s.vcpus[i]) { FlusherIsAlone(s, i); }
      }
    }
  }

  lemma StepReports(s: State, act: Action)
    requires Safe(s) && Enabled(s, act) && !act.Start?
    ensures ReportStep(s, Next(s, act))
  {
    match act
    case Call(_, _) =>
    case Advance(core) => TickReports(s, core);
    case Stop =>
    case Control => ControlReports(s);
  }

  /** Report lifetime.  Between two starts the report is written only by a flusher and only
      while it is open; closing it writes the one summary, with the mode off and no flusher
      anywhere; and a closed report stays closed. */
  lemma ReportLifetime(run: seq<State>, n: nat)
    requires IsRun(run) && 0 < n < |run| && !(exists cfg: Config :: cfg.Valid() && run[n] == Fresh(cfg))
    ensures ReportStep(run[n - 1], run[n])
  {
    EveryStateIsAccounted(run, n - 1);
    assert Steps(run[n - 1], run[n]);
    var act :| Enabled(run[n - 1], act) && run[n] == Next(run[n - 1], act);
    StepReports(run[n - 1], act);
  }

  /** One core with one bin and a flush every two accesses, after its first access to kernel
      memory: `bin` is what the bin holds. */
  function OneCore(pc: Pc, accCnt: nat, readers: nat, bin: nat, done: seq<Arrival>): State {
    State(Config(1, 2, 1), true, true, Tables([[bin]], [[0]]), accCnt, 0, Lock(readers, false), [pc], Resting,
          [], [], Past(done, accCnt, 0, 0))
  }

  lemma StartOneCore() returns (start: State)
    ensures start == Fresh(Config(1, 2, 1)) && start == OneCore(Outside, 0, 0, 0, [])
    ensures IsRun([start]) && Sized(start) && PcsInRange(start)
  {
    start := Fresh(Config(1, 2, 1));
    assert start.tables.kernel[0] == [0] && start.tables.user[0] == [0];
    assert start.tables.kernel == [[0]] && start.tables.user == [[0]] && start.vcpus == [Outside];
    assert IsRun([start]);
  }

  lemma StoreOne(a: Access)
    requires a == Access(false, true, 0)
    ensures var s := OneCore(Storing(a, 0), 1, 1, 0, []);
            Sized(s) && PcsInRange(s) && StoreBin(s, 0) == OneCore(Outside, 1, 0, 1, [Arrival(0, a)])
  {
    var t: seq<seq<nat>> := [[0]];
    var row: seq<nat> := t[0][0 := 1];
    assert row == [1] && SetBin(t, 0, 0, 1) == [row];
  }

  lemma OneCounted(a: Access) returns (run: seq<State>)
    requires a == Access(false, true, 0)
    ensures IsRun(run) && run[|run| - 1] == OneCore(Recording(a), 1, 0, 0, [])
    ensures Sized(run[|run| - 1]) && PcsInRange(run[|run| - 1])
  {
    var start := StartOneCore();
    run := [start];
    run := Extend(run, Call(0, a), OneCore(Checked(a), 0, 0, 0, []));
    run := Extend(run, Advance(0), OneCore(Recording(a), 1, 0, 0, []));
  }

  lemma OneAccess() returns (run: seq<State>)
    ensures IsRun(run) && run[|run| - 1] == OneCore(Outside, 1, 0, 1, [Arrival(0, Access(false, true, 0))])
  {
    var a := Access(false, true, 0);
    run := OneCounted(a);
    run := Extend(run, Advance(0), OneCore(Reading(a), 1, 1, 0, []));
    run := Extend(run, Advance(0), OneCore(Storing(a, 0), 1, 1, 0, []));
    StoreOne(a);
    run := Extend(run, Advance(0), OneCore(Outside, 1, 0, 1, [Arrival(0, Access(false, true, 0))]));
  }

  /** A run that ends with a closed report from which a completed access is missing. */
  lemma StoppingLosesTheBins() returns (run: seq<State>)
    ensures IsRun(run)
    ensures var last := run[|run| - 1];
            !last.open && |last.past.done| == 1 && last.report == [] && Resident(last.tables) == 1
  {
    run := OneAccess();
    var s := run[|run| - 1];
    run := Extend(run, Stop, s.(on := false, controller := Stopped));
    run := Extend(run, Control, s.(on := false, lock := Lock(1, false), controller := Summarising));
    run := Extend(run, Control,
                  s.(on := false, open := false, lock := Lock(1, false), controller := Releasing, summary := [(1, 0)]));
    EveryStateIsAccounted(run, |run| - 1);
    assert Sum(CountOf, run[|run| - 1].report) == 0;
  }

  /** A run may go on with any enabled action. */
  lemma Extend(run: seq<State>, act: Action, s': State) returns (longer: seq<State>)
    requires IsRun(run) && Sized(run[|run| - 1]) && PcsInRange(run[|run| - 1]) && Enabled(run[|run| - 1], act)
    requires s' == Next(run[|run| - 1], act)
    ensures longer == run + [s'] && IsRun(longer) && Sized(s') && PcsInRange(s')
  {
    longer := run + [s'];
    forall i | 0 < i < |longer| ensures Steps(longer[i - 1], longer[i]) {
      if i < |run| {
        assert Steps(run[i - 1], run[i]);
      }
    }
    EveryStateIsAccounted(longer, |run|);
  }
}
