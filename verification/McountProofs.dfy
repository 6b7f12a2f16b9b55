/** What the histogram protocol keeps in every run, under every interleaving. */
module McountProofs {
  import opened Arithmetic
  import opened Counting
  import opened Mcount

  // ---- index safety ----

  /** A bin index never leaves the table exactly when the bin size divides the memory size. */
  lemma BinIndexIsSafe(totalMem: nat, memBin: nat)
    requires memBin > 0
    ensures (forall paddr: nat :: paddr < totalMem ==> paddr / memBin < totalMem / memBin) <==> totalMem % memBin == 0
  {
    var q := totalMem / memBin;
    assert totalMem == q * memBin + totalMem % memBin;
    if totalMem % memBin == 0 {
      forall paddr: nat | paddr < totalMem ensures paddr / memBin < q {
        BinBelow(paddr, memBin, q);
      }
    } else {
      var last: nat := totalMem - 1;
      assert last == q * memBin + (totalMem % memBin - 1);
      DivisionIs(last, memBin, q, totalMem % memBin - 1);
      assert last < totalMem && !(last / memBin < q);
    }
  }

  lemma BinBelow(x: nat, d: nat, q: nat)
    requires d > 0 && x < q * d
    ensures x / d < q
  {
    var k := x / d;
    assert k * d + x % d == x;
    if k >= q {
      Scales(q, k, d);
      assert false;
    }
  }

  /** Every memory address of the machine has a bin exactly when the bin size divides the memory size. */
  lemma EveryAddressHasABin(ncores: nat, accBin: nat, memBin: nat, totalMem: nat, kernel: bool)
    requires memBin > 0
    ensures (forall paddr: nat :: paddr < totalMem ==>
               Fits(Configure(ncores, accBin, memBin, totalMem), Locate(memBin, false, kernel, paddr)))
            <==> totalMem % memBin == 0
  {
    BinIndexIsSafe(totalMem, memBin);
    if totalMem % memBin != 0 {
      var paddr: nat :| paddr < totalMem && !(paddr / memBin < totalMem / memBin);
      assert !Fits(Configure(ncores, accBin, memBin, totalMem), Locate(memBin, false, kernel, paddr));
    }
  }

  // ---- the total waiting in the bins ----

  function Value(n: nat): int { n }

  function RowTotal(row: seq<nat>): int { Sum(Value, row) }

  function Resident(m: Tables): int {
    Sum(RowTotal, m.kernel) + Sum(RowTotal, m.user)
  }

  lemma SetBinTotal(t: seq<seq<nat>>, core: nat, bin: nat, v: nat)
    requires core < |t| && bin < |t[core]|
    ensures Sum(RowTotal, SetBin(t, core, bin, v)) == Sum(RowTotal, t) - t[core][bin] + v
  {
    SumUpdate(Value, t[core], bin, v);
    var row: seq<nat> := t[core][bin := v];
    SumUpdate(RowTotal, t, core, row);
  }

  lemma PutResident(cfg: Config, m: Tables, c: Cell, v: nat)
    requires TablesShaped(cfg, m) && InRange(cfg, c)
    ensures Resident(Put(cfg, m, c, v)) == Resident(m) - Get(cfg, m, c) + v
  {
    SetBinTotal(if c.kernel then m.kernel else m.user, c.core, c.bin, v);
  }

  lemma TotalIsNonNegative(t: seq<seq<nat>>)
    ensures Sum(RowTotal, t) >= 0
    ensures forall i :: 0 <= i < |t| ==> RowTotal(t[i]) >= 0
  {
    forall i | 0 <= i < |t| ensures RowTotal(t[i]) >= 0 {
      SumNonNegative(Value, t[i]);
    }
    SumNonNegative(RowTotal, t);
  }

  lemma ResidentBoundsCell(cfg: Config, m: Tables, c: Cell)
    requires TablesShaped(cfg, m) && InRange(cfg, c)
    ensures Get(cfg, m, c) <= Resident(m)
  {
    TotalIsNonNegative(m.kernel);
    TotalIsNonNegative(m.user);
    var t := if c.kernel then m.kernel else m.user;
    SumBoundsTerm(RowTotal, t, c.core);
    SumBoundsTerm(Value, t[c.core], c.bin);
  }

  lemma ZeroTable(t: seq<seq<nat>>)
    requires forall i, j :: 0 <= i < |t| && 0 <= j < |t[i]| ==> t[i][j] == 0
    ensures Sum(RowTotal, t) == 0
  {
    forall i | 0 <= i < |t| ensures RowTotal(t[i]) == 0 {
      SumZero(Value, t[i]);
    }
    SumZero(RowTotal, t);
  }

  lemma NothingResident(cfg: Config, m: Tables)
    requires TablesShaped(cfg, m) && forall c :: InRange(cfg, c) ==> Get(cfg, m, c) == 0
    ensures Resident(m) == 0
  {
    forall i, j | 0 <= i < cfg.ncores && 0 <= j < cfg.bins
      ensures m.kernel[i][j] == 0 && m.user[i][j] == 0
    {
      assert Get(cfg, m, Cell(true, i, j)) == 0;
      assert Get(cfg, m, Cell(false, i, j)) == 0;
    }
    ZeroTable(m.kernel);
    ZeroTable(m.user);
  }

  // ---- the reader/writer lock ----

  predicate Shares(pc: Pc) { pc.Reading? || pc.Storing? }

  predicate Excludes(pc: Pc) { pc.Rechecking? || pc.Printing? || pc.Clearing? }

  predicate Flushing(pc: Pc) { pc.Printing? || pc.Clearing? }

  predicate ControllerShares(c: Controller) { c.Summarising? || c.Releasing? }

  ghost predicate LockInv(s: State) {
    && s.lock.readers == Count(Shares, s.vcpus) + (if ControllerShares(s.controller) then 1 else 0)
    && Count(Excludes, s.vcpus) == (if s.lock.writer then 1 else 0)
    && (s.lock.writer ==> s.lock.readers == 0)
  }

  /** Mutual exclusion: a flusher is alone, and nobody holds the shared lock beside it. */
  lemma FlusherIsAlone(s: State, i: nat)
    requires LockInv(s) && i < |s.vcpus| && Excludes(s.vcpus[i])
    ensures s.lock == Lock(0, true) && !ControllerShares(s.controller)
    ensures forall j :: 0 <= j < |s.vcpus| && j != i ==> !Excludes(s.vcpus[j])
    ensures forall j :: 0 <= j < |s.vcpus| ==> !Shares(s.vcpus[j])
  {
    CountMember(Excludes, s.vcpus, i);
    forall j | 0 <= j < |s.vcpus| ensures !Shares(s.vcpus[j]) {
      if Shares(s.vcpus[j]) { CountMember(Shares, s.vcpus, j); }
    }
    forall j | 0 <= j < |s.vcpus| && j != i ensures !Excludes(s.vcpus[j]) {
      if Excludes(s.vcpus[j]) {
        CountTwo(Excludes, s.vcpus, if i < j then i else j, if i < j then j else i);
      }
    }
  }

  lemma SharerKeepsFlushersOut(s: State, i: nat)
    requires LockInv(s) && i < |s.vcpus| && Shares(s.vcpus[i])
    ensures !s.lock.writer && s.lock.readers > 0
    ensures forall j :: 0 <= j < |s.vcpus| ==> !Excludes(s.vcpus[j])
  {
    CountMember(Shares, s.vcpus, i);
    forall j | 0 <= j < |s.vcpus| ensures !Excludes(s.vcpus[j]) {
      if Excludes(s.vcpus[j]) { CountMember(Excludes, s.vcpus, j); }
    }
  }

  ghost predicate Structure(s: State) {
    Sized(s) && PcsInRange(s) && LockInv(s)
  }

  // ---- the report is open whenever it is written ----

  ghost predicate ReportInv(s: State) {
    && (s.on ==> s.open && s.controller.Resting?)
    && (s.controller.Resting? && s.open ==> s.on)
    && (s.controller.Summarising? ==> s.open)
    && (s.controller.Releasing? ==> !s.open)
    && (forall i :: 0 <= i < |s.vcpus| && Flushing(s.vcpus[i]) ==> s.open)
    && |s.summary| == (if s.open then 0 else 1)
  }

  // ---- no increment is lost, and a flush leaves zeros behind ----

  ghost predicate ReadsAreCurrent(s: State)
    requires Sized(s) && PcsInRange(s)
  {
    forall i :: 0 <= i < |s.vcpus| && s.vcpus[i].Storing? ==>
      s.vcpus[i].seen == At(s, CellOf(i, s.vcpus[i].a))
  }

  /** `c` comes before (`kernel`, `core`, `bin`) in flush order. */
  predicate Before(c: Cell, kernel: bool, core: nat, bin: nat) {
    if c.kernel != kernel then c.kernel
    else c.core < core || (c.core == core && c.bin < bin)
  }

  predicate Passed(pc: Pc, c: Cell) {
    Flushing(pc) && Before(c, pc.kernel, pc.core, pc.bin)
  }

  ghost predicate FlushLeavesZeros(s: State)
    requires Sized(s)
  {
    forall i, c :: 0 <= i < |s.vcpus| && InRange(s.cfg, c) && Passed(s.vcpus[i], c) ==> At(s, c) == 0
  }

  ghost predicate Safe(s: State) {
    Structure(s) && ReportInv(s) && ReadsAreCurrent(s) && FlushLeavesZeros(s)
  }

  /** Moving one vcpu keeps the lock counts when the lock moves with it. */
  lemma MoveKeepsLock(s: State, core: nat, s': State)
    requires LockInv(s) && core < |s.vcpus| && core < |s'.vcpus|
    requires s'.vcpus == s.vcpus[core := s'.vcpus[core]] && s'.controller == s.controller
    requires s'.lock.readers - s.lock.readers
          == (if Shares(s'.vcpus[core]) then 1 else 0) - (if Shares(s.vcpus[core]) then 1 else 0)
    requires (if s'.lock.writer then 1 else 0) - (if s.lock.writer then 1 else 0)
          == (if Excludes(s'.vcpus[core]) then 1 else 0) - (if Excludes(s.vcpus[core]) then 1 else 0)
    requires s'.lock.writer ==> s'.lock.readers == 0
    ensures LockInv(s')
  {
    CountUpdate(Shares, s.vcpus, core, s'.vcpus[core]);
    CountUpdate(Excludes, s.vcpus, core, s'.vcpus[core]);
  }

  lemma CountAccessIsSafe(s: State, core: nat)
    requires Safe(s) && core < |s.vcpus| && s.vcpus[core].Checked?
    ensures Safe(CountAccess(s, core))
  {
    MoveKeepsLock(s, core, CountAccess(s, core));
  }

  lemma TakeExclusiveIsSafe(s: State, core: nat)
    requires Safe(s) && core < |s.vcpus| && s.vcpus[core].Elected? && s.lock == Lock(0, false)
    ensures Safe(TakeExclusive(s, core))
  {
    MoveKeepsLock(s, core, TakeExclusive(s, core));
  }

  lemma RecheckIsSafe(s: State, core: nat)
    requires Safe(s) && core < |s.vcpus| && s.vcpus[core].Rechecking?
    ensures Safe(Recheck(s, core))
  {
    FlusherIsAlone(s, core);
    MoveKeepsLock(s, core, Recheck(s, core));
  }

  lemma PrintBinIsSafe(s: State, core: nat)
    requires Safe(s) && core < |s.vcpus| && s.vcpus[core].Printing?
    ensures Safe(PrintBin(s, core))
  {
    FlusherIsAlone(s, core);
    MoveKeepsLock(s, core, PrintBin(s, core));
    PrintBinKeepsZeros(s, core);
  }

  lemma ZerosStay(s: State, core: nat, s': State)
    requires Sized(s) && Sized(s') && s'.cfg == s.cfg && s'.tables == s.tables && FlushLeavesZeros(s)
    requires core < |s.vcpus| && core < |s'.vcpus| && s'.vcpus == s.vcpus[core := s'.vcpus[core]]
    requires forall c :: InRange(s.cfg, c) && Passed(s'.vcpus[core], c) ==> Passed(s.vcpus[core], c)
    ensures FlushLeavesZeros(s')
  {
    forall i, c | 0 <= i < |s'.vcpus| && InRange(s.cfg, c) && Passed(s'.vcpus[i], c) ensures At(s', c) == 0 {
      assert Passed(s.vcpus[i], c);
    }
  }

  lemma NextPassesNoMore(cfg: Config, a: Access, kernel: bool, core: nat, bin: nat, c: Cell)
    requires InRange(cfg, c) && !InRange(cfg, Cell(kernel, core, bin))
    requires Passed(NextPrint(cfg, a, kernel, core, bin), c)
    ensures Passed(Printing(a, kernel, core, bin), c)
  {
  }

  lemma PrintBinKeepsZeros(s: State, core: nat)
    requires Structure(s) && FlushLeavesZeros(s) && core < |s.vcpus| && s.vcpus[core].Printing?
    ensures FlushLeavesZeros(PrintBin(s, core))
  {
    var s' := PrintBin(s, core);
    var Printing(a, k, i, j) := s.vcpus[core];
    forall c | InRange(s.cfg, c) && Passed(s'.vcpus[core], c) ensures Passed(s.vcpus[core], c) {
      if !InRange(s.cfg, Cell(k, i, j)) {
        NextPassesNoMore(s.cfg, a, k, i, j, c);
      }
    }
    ZerosStay(s, core, s');
  }

  lemma ClearBinIsSafe(s: State, core: nat)
    requires Safe(s) && core < |s.vcpus| && s.vcpus[core].Clearing?
    ensures Safe(ClearBin(s, core))
  {
    FlusherIsAlone(s, core);
    MoveKeepsLock(s, core, ClearBin(s, core));
  }

  lemma RecordIsSafe(s: State, core: nat)
    requires Safe(s) && core < |s.vcpus| && s.vcpus[core].Recording? && (s.vcpus[core].a.io || !s.lock.writer)
    ensures Safe(Record(s, core))
  {
    MoveKeepsLock(s, core, Record(s, core));
  }

  lemma ReadBinIsSafe(s: State, core: nat)
    requires Safe(s) && core < |s.vcpus| && s.vcpus[core].Reading?
    ensures Safe(ReadBin(s, core))
  {
    SharerKeepsFlushersOut(s, core);
    MoveKeepsLock(s, core, ReadBin(s, core));
  }

  lemma StoreBinIsSafe(s: State, core: nat)
    requires Safe(s) && core < |s.vcpus| && s.vcpus[core].Storing?
    ensures Safe(StoreBin(s, core))
  {
    SharerKeepsFlushersOut(s, core);
    MoveKeepsLock(s, core, StoreBin(s, core));
  }

  lemma FreshIsSafe(cfg: Config)
    requires cfg.Valid()
    ensures Safe(Fresh(cfg))
  {
    CountNone(Shares, Fresh(cfg).vcpus);
    CountNone(Excludes, Fresh(cfg).vcpus);
  }

  lemma CallIsSafe(s: State, core: nat, a: Access)
    requires Safe(s) && core < |s.vcpus| && s.vcpus[core].Outside? && Fits(s.cfg, a)
    ensures Safe(WithPc(s, core, Checked(a)))
  {
    MoveKeepsLock(s, core, WithPc(s, core, Checked(a)));
  }

  lemma ControlIsSafe(s: State)
    requires Safe(s) && Enabled(s, Control)
    ensures Safe(ControlTick(s))
  {
    if s.controller.Summarising? {
      forall i | 0 <= i < |s.vcpus| ensures !Flushing(s.vcpus[i]) {
        if Flushing(s.vcpus[i]) { FlusherIsAlone(s, i); }
      }
    }
  }

  /** Every step keeps the lock discipline, the open report, the current reads and the zeros. */
  lemma StepIsSafe(s: State, act: Action)
    requires Safe(s) && Enabled(s, act)
    ensures Safe(Next(s, act))
  {
    match act
    case Call(core, a) => if s.on { CallIsSafe(s, core, a); }
    case Advance(core) => TickIsSafe(s, core);
    case Stop =>
    case Control => ControlIsSafe(s);
    case Start(cfg) => FreshIsSafe(cfg);
  }

  lemma TickIsSafe(s: State, core: nat)
    requires Safe(s) && Enabled(s, Advance(core))
    ensures Safe(Tick(s, core))
  {
    match s.vcpus[core]
    case Checked(_) => CountAccessIsSafe(s, core);
    case Elected(_) => TakeExclusiveIsSafe(s, core);
    case Rechecking(_) => RecheckIsSafe(s, core);
    case Printing(_, _, _, _) => PrintBinIsSafe(s, core);
    case Clearing(_, _, _, _) => ClearBinIsSafe(s, core);
    case Recording(_) => RecordIsSafe(s, core);
    case Reading(_) => ReadBinIsSafe(s, core);
    case Storing(_, _) => StoreBinIsSafe(s, core);
  }

  /** When a flush is over, every bin of every core is zero. */
  lemma FinishedFlushIsEmpty(s: State, i: nat)
    requires Safe(s) && i < |s.vcpus| && s.vcpus[i].Printing?
    requires !s.vcpus[i].kernel && s.vcpus[i].core >= s.cfg.ncores
    ensures Resident(s.tables) == 0 && forall c :: InRange(s.cfg, c) ==> At(s, c) == 0
  {
    forall c | InRange(s.cfg, c) ensures At(s, c) == 0 {
      assert Passed(s.vcpus[i], c);
    }
    NothingResident(s.cfg, s.tables);
  }

  // ---- nobody waits for ever ----

  /** Somebody holds the lock in a way that `p` describes. */
  lemma SomeMember(p: Pc -> bool, vcpus: seq<Pc>) returns (i: nat)
    requires Count(p, vcpus) > 0
    ensures i < |vcpus| && p(vcpus[i])
  {
    if forall k :: 0 <= k < |vcpus| ==> !p(vcpus[k]) {
      CountNone(p, vcpus);
    }
    i :| i < |vcpus| && p(vcpus[i]);
  }

  ghost predicate CanGoOn(s: State)
    requires Sized(s)
  {
    Enabled(s, Control) || exists core: nat :: core < |s.vcpus| && Enabled(s, Advance(core))
  }

  /** Whoever holds the lock can go on. */
  lemma HolderGoesOn(s: State)
    requires Safe(s) && s.lock != Lock(0, false)
    ensures CanGoOn(s)
  {
    if s.lock.writer {
      var i := SomeMember(Excludes, s.vcpus);
      assert Enabled(s, Advance(i));
    } else if !ControllerShares(s.controller) {
      var i := SomeMember(Shares, s.vcpus);
      assert Enabled(s, Advance(i));
    }
  }

  /** No deadlock: while a callback or the stop is under way, some step of one of them is enabled. */
  lemma NeverStuck(s: State)
    requires Safe(s) && (!s.controller.Resting? || exists i :: 0 <= i < |s.vcpus| && !s.vcpus[i].Outside?)
    ensures CanGoOn(s)
  {
    if s.lock != Lock(0, false) {
      HolderGoesOn(s);
    } else if s.controller.Resting? {
      var i :| 0 <= i < |s.vcpus| && !s.vcpus[i].Outside?;
      assert Enabled(s, Advance(i));
    }
  }

  ghost predicate Somebody(p: Pc -> bool, s: State) {
    exists i :: 0 <= i < |s.vcpus| && p(s.vcpus[i])
  }

  lemma LockShowsHolders(s: State)
    requires LockInv(s)
    ensures s.lock.writer <==> Somebody(Excludes, s)
    ensures s.lock.readers == 0 <==> !Somebody(Shares, s) && !ControllerShares(s.controller)
  {
    if s.lock.writer { var i := SomeMember(Excludes, s.vcpus); }
    if Count(Shares, s.vcpus) > 0 { var i := SomeMember(Shares, s.vcpus); }
    if Somebody(Excludes, s) {
      var i :| 0 <= i < |s.vcpus| && Excludes(s.vcpus[i]);
      CountMember(Excludes, s.vcpus, i);
    }
    if Somebody(Shares, s) {
      var i :| 0 <= i < |s.vcpus| && Shares(s.vcpus[i]);
      CountMember(Shares, s.vcpus, i);
    }
  }

  /** Nobody waits but for a holder of the lock: a callback waits for a flush only while another
      flushes or records or the stop writes its summary, for a record in a bin only while another
      flushes, and never otherwise; nor does the stop.  So recorders do not exclude each other. */
  lemma WaitsOnlyForHolders(s: State, core: nat)
    requires Safe(s) && core < |s.vcpus|
    ensures Enabled(s, Advance(core))
            <==> var pc := s.vcpus[core];
                 && !pc.Outside?
                 && (pc.Elected? ==> !Somebody(Excludes, s) && !Somebody(Shares, s) && !ControllerShares(s.controller))
                 && (pc.Recording? && !pc.a.io ==> !Somebody(Excludes, s))
    ensures Enabled(s, Control)
            <==> !s.controller.Resting? && (s.controller.Stopped? && s.open ==> !Somebody(Excludes, s))
    ensures Enabled(s, Stop) <==> s.controller.Resting?
    ensures forall a: Access :: Enabled(s, Call(core, a)) <==> s.vcpus[core].Outside? && (a.io || a.bin < s.cfg.bins)
  {
    LockShowsHolders(s);
  }
}
