/** How much a core's row of bins can hold: the exact peak, in every run of the histogram protocol. */
module McountRows {
  import opened Arithmetic
  import opened Counting
  import opened Mcount
  import opened McountProofs

  /** Holds or wants the exclusive lock. */
  predicate Waiting(pc: Pc) { pc.Elected? || Excludes(pc) }

  predicate IsOutside(pc: Pc) { pc.Outside? }

  /** Counted, not elected, and not yet recorded. */
  predicate InFlight(pc: Pc) { pc.Recording? || Shares(pc) }

  function Phase(s: State): nat
    requires s.cfg.Valid()
  {
    s.accCnt % s.cfg.accBin
  }

  lemma NextPhase(accCnt: nat, accBin: nat)
    requires accBin > 0 && accCnt < 0x1_0000_0000_0000_0000
    ensures var n := Wrap64(accCnt + 1);
            n % accBin == 0 || n % accBin == accCnt % accBin + 1
  {
    NextCount(accCnt);
    if accCnt + 1 < 0x1_0000_0000_0000_0000 {
      SuccessorModulo(accCnt, accBin);
    } else {
      DivisionIs(0, accBin, 0, 0);
    }
  }

  lemma NextCount(accCnt: nat)
    requires accCnt < 0x1_0000_0000_0000_0000
    ensures Wrap64(accCnt + 1) == if accCnt + 1 < 0x1_0000_0000_0000_0000 then accCnt + 1 else 0
  {
  }

  /** What waits in the bins of one core. */
  function RowOf(s: State, core: nat): int
    requires Sized(s) && core < s.cfg.ncores
  {
    RowTotal(s.tables.kernel[core]) + RowTotal(s.tables.user[core])
  }

  /** With the access the core is about to record. */
  function RowLoad(s: State, core: nat): int
    requires Sized(s) && core < s.cfg.ncores
  {
    RowOf(s, core) + if InFlight(s.vcpus[core]) then 1 else 0
  }

  /** The most a row ever holds: between two multiples of `accBin` its core records `accBin - 1`
      accesses, and only the other cores can hold multiples back. */
  function Peak(cfg: Config): int {
    cfg.ncores * (cfg.accBin - 1) + 1
  }

  /** The vcpus that hold a multiple back, or gave one up when the mode was off. */
  function Held(s: State): nat {
    Count(Waiting, s.vcpus) + s.past.dropped
  }

  /** What a row can hold while `held` multiples are held back. */
  function Room(cfg: Config, held: nat, phase: nat): int {
    held * (cfg.accBin - 1) + phase + 1
  }

  ghost predicate RowInv(s: State)
    requires Sized(s)
  {
    && s.accCnt < 0x1_0000_0000_0000_0000
    && s.past.dropped <= Count(IsOutside, s.vcpus) && (s.on ==> s.past.dropped == 0)
    && forall c :: 0 <= c < s.cfg.ncores ==>
         RowLoad(s, c) <= Room(s.cfg, Held(s), Phase(s)) && RowLoad(s, c) <= Peak(s.cfg)
  }

  // ---- rows and tables ----

  lemma PutRow(s: State, c: Cell, v: nat, s': State)
    requires Sized(s) && Sized(s') && InRange(s.cfg, c) && s'.cfg == s.cfg && s'.tables == Put(s.cfg, s.tables, c, v)
    ensures RowOf(s', c.core) == RowOf(s, c.core) - At(s, c) + v
    ensures forall k :: 0 <= k < s.cfg.ncores && k != c.core ==> RowOf(s', k) == RowOf(s, k)
  {
    SumUpdate(Value, if c.kernel then s.tables.kernel[c.core] else s.tables.user[c.core], c.bin, v);
  }

  lemma RowBoundsCell(s: State, c: Cell)
    requires Sized(s) && InRange(s.cfg, c)
    ensures At(s, c) <= RowOf(s, c.core)
  {
    TotalIsNonNegative(s.tables.kernel);
    TotalIsNonNegative(s.tables.user);
    SumBoundsTerm(Value, if c.kernel then s.tables.kernel[c.core] else s.tables.user[c.core], c.bin);
  }

  lemma EmptyRows(s: State)
    requires Sized(s) && forall c :: InRange(s.cfg, c) ==> At(s, c) == 0
    ensures forall k :: 0 <= k < s.cfg.ncores ==> RowOf(s, k) == 0
  {
    forall k | 0 <= k < s.cfg.ncores ensures RowOf(s, k) == 0 {
      forall j | 0 <= j < s.cfg.bins ensures s.tables.kernel[k][j] == 0 && s.tables.user[k][j] == 0 {
        assert At(s, Cell(true, k, j)) == 0 && At(s, Cell(false, k, j)) == 0;
      }
      SumZero(Value, s.tables.kernel[k]);
      SumZero(Value, s.tables.user[k]);
    }
  }

  // ---- every step keeps the rows within their room ----

  lemma HeldMoves(s: State, core: nat, pc: Pc)
    requires core < |s.vcpus|
    ensures Count(Waiting, s.vcpus[core := pc]) + (if Waiting(s.vcpus[core]) then 1 else 0)
         == Count(Waiting, s.vcpus) + (if Waiting(pc) then 1 else 0)
    ensures Count(IsOutside, s.vcpus[core := pc]) + (if IsOutside(s.vcpus[core]) then 1 else 0)
         == Count(IsOutside, s.vcpus) + (if IsOutside(pc) then 1 else 0)
  {
    CountUpdate(Waiting, s.vcpus, core, pc);
    CountUpdate(IsOutside, s.vcpus, core, pc);
  }

  /** Steps that change neither the multiples held back nor the phase, and add to no row. */
  lemma RowsStay(s: State, s': State)
    requires Sized(s) && RowInv(s) && Sized(s') && s'.cfg == s.cfg && s'.accCnt == s.accCnt && Held(s') == Held(s)
    requires s'.past.dropped <= Count(IsOutside, s'.vcpus) && (s'.on ==> s'.past.dropped == 0)
    requires forall c :: 0 <= c < s.cfg.ncores ==> RowLoad(s', c) <= RowLoad(s, c)
    ensures RowInv(s')
  {
  }

  /** A core that is neither outside nor waiting leaves at most the others to hold multiples back. */
  lemma OthersHold(s: State, core: nat)
    requires Sized(s) && RowInv(s) && core < |s.vcpus| && !s.vcpus[core].Outside? && !Waiting(s.vcpus[core])
    ensures Held(s) + 1 <= s.cfg.ncores
  {
    HeldMoves(s, core, Outside);
    CountDisjoint(Waiting, IsOutside, s.vcpus[core := Outside]);
  }

  lemma RoomGrows(cfg: Config, held: nat, phase: nat)
    requires cfg.Valid() && phase < cfg.accBin
    ensures Room(cfg, held, phase) <= Room(cfg, held + 1, 0)
    ensures held + 1 <= cfg.ncores ==> Room(cfg, held, phase) <= Peak(cfg)
  {
    var a := cfg.accBin - 1;
    assert (held + 1) * a == held * a + a;
    if held + 1 <= cfg.ncores { Scales(held + 1, cfg.ncores, a); }
  }

  lemma RoomIsPositive(cfg: Config, held: nat, phase: nat)
    requires cfg.Valid()
    ensures Room(cfg, held, phase) >= 1 && Peak(cfg) >= 1
  {
    Scales(0, held, cfg.accBin - 1);
    Scales(0, cfg.ncores, cfg.accBin - 1);
  }

  /** The arithmetic of one increment that elects nobody. */
  lemma AdvancedRoom(cfg: Config, held: nat, phase: nat, load: int)
    requires cfg.Valid() && phase + 1 < cfg.accBin && held + 1 <= cfg.ncores && load <= Room(cfg, held, phase)
    ensures load + 1 <= Room(cfg, held, phase + 1) && load + 1 <= Peak(cfg)
  {
    RoomGrows(cfg, held, phase + 1);
  }

  lemma ElectedKeepsRows(s: State, core: nat, s': State)
    requires Sized(s) && RowInv(s) && core < |s.vcpus| && s.vcpus[core].Checked?
    requires s' == CountAccess(s, core) && s'.vcpus[core].Elected? && Phase(s') == 0
    ensures RowInv(s')
  {
    HeldMoves(s, core, s'.vcpus[core]);
    RoomGrows(s.cfg, Held(s), Phase(s));
    RowsUnmoved(s, core, s');
  }

  /** Waiting instead of calling puts nothing in flight. */
  lemma RowsUnmoved(s: State, core: nat, s': State)
    requires Sized(s) && Sized(s') && s'.cfg == s.cfg && s'.tables == s.tables && core < |s.vcpus| && core < |s'.vcpus|
    requires s'.vcpus == s.vcpus[core := s'.vcpus[core]] && InFlight(s'.vcpus[core]) == InFlight(s.vcpus[core])
    ensures forall c :: 0 <= c < s.cfg.ncores ==> RowLoad(s', c) == RowLoad(s, c)
  {
    forall c | 0 <= c < s.cfg.ncores ensures RowLoad(s', c) == RowLoad(s, c) {
      assert RowOf(s', c) == RowOf(s, c);
    }
  }

  lemma AdmittedKeepsRows(s: State, core: nat, s': State)
    requires Sized(s) && RowInv(s) && core < |s.vcpus| && s.vcpus[core].Checked?
    requires s' == CountAccess(s, core) && s'.vcpus[core].Recording? && Phase(s') == Phase(s) + 1
    ensures RowInv(s')
  {
    HeldMoves(s, core, s'.vcpus[core]);
    OthersHold(s, core);
    forall c | 0 <= c < s.cfg.ncores
      ensures RowLoad(s', c) <= Room(s'.cfg, Held(s'), Phase(s')) && RowLoad(s', c) <= Peak(s'.cfg)
    {
      assert RowOf(s', c) == RowOf(s, c);
      AdvancedRoom(s.cfg, Held(s), Phase(s), RowLoad(s, c));
    }
  }

  lemma CountAccessKeepsRows(s: State, core: nat)
    requires Sized(s) && RowInv(s) && core < |s.vcpus| && s.vcpus[core].Checked?
    ensures RowInv(CountAccess(s, core))
  {
    var s' := CountAccess(s, core);
    NextPhase(s.accCnt, s.cfg.accBin);
    if s'.vcpus[core].Elected? {
      ElectedKeepsRows(s, core, s');
    } else {
      AdmittedKeepsRows(s, core, s');
    }
  }

  lemma RecheckKeepsRows(s: State, core: nat)
    requires Sized(s) && RowInv(s) && core < |s.vcpus| && s.vcpus[core].Rechecking?
    ensures RowInv(Recheck(s, core))
  {
    var s' := Recheck(s, core);
    HeldMoves(s, core, s'.vcpus[core]);
    RowsStay(s, s');
  }

  lemma PrintBinKeepsRows(s: State, core: nat)
    requires Safe(s) && RowInv(s) && core < |s.vcpus| && s.vcpus[core].Printing?
    ensures RowInv(PrintBin(s, core))
  {
    var s' := PrintBin(s, core);
    HeldMoves(s, core, s'.vcpus[core]);
    if s'.vcpus[core].Recording? {
      FinishedFlushIsEmpty(s, core);
      EmptyRows(s');
      RoomIsPositive(s.cfg, Held(s'), Phase(s'));
    } else {
      RowsStay(s, s');
    }
  }

  lemma ClearBinKeepsRows(s: State, core: nat)
    requires Sized(s) && PcsInRange(s) && RowInv(s) && core < |s.vcpus| && s.vcpus[core].Clearing?
    ensures RowInv(ClearBin(s, core))
  {
    var s' := ClearBin(s, core);
    HeldMoves(s, core, s'.vcpus[core]);
    PutRow(s, Cell(s.vcpus[core].kernel, s.vcpus[core].core, s.vcpus[core].bin), 0, s');
    RowsStay(s, s');
  }

  lemma StoreBinKeepsRows(s: State, core: nat)
    requires Safe(s) && RowInv(s) && core < |s.vcpus| && s.vcpus[core].Storing?
    ensures RowInv(StoreBin(s, core))
  {
    var s' := StoreBin(s, core);
    HeldMoves(s, core, Outside);
    var c := CellOf(core, s.vcpus[core].a);
    PutRow(s, c, Wrap32(At(s, c) + 1), s');
    RowsStay(s, s');
  }

  /** Steps of one vcpu that leave the tables alone and stay on the same side of the wait. */
  lemma PlainStepKeepsRows(s: State, core: nat, s': State)
    requires Sized(s) && RowInv(s) && Sized(s') && s'.cfg == s.cfg && s'.tables == s.tables && s'.accCnt == s.accCnt
    requires core < |s.vcpus| && core < |s'.vcpus| && s'.vcpus == s.vcpus[core := s'.vcpus[core]]
    requires Waiting(s'.vcpus[core]) == Waiting(s.vcpus[core])
    requires InFlight(s'.vcpus[core]) ==> InFlight(s.vcpus[core])
    requires s.vcpus[core].Outside? && !s'.vcpus[core].Outside? ==> s.on
    requires s'.past.dropped == s.past.dropped && s'.on == s.on
    ensures RowInv(s')
  {
    HeldMoves(s, core, s'.vcpus[core]);
    RowsStay(s, s');
  }

  lemma TickKeepsRows(s: State, core: nat)
    requires Safe(s) && RowInv(s) && Enabled(s, Advance(core))
    ensures RowInv(Tick(s, core))
  {
    match s.vcpus[core]
    case Checked(_) => CountAccessKeepsRows(s, core);
    case Elected(_) => PlainStepKeepsRows(s, core, TakeExclusive(s, core));
    case Rechecking(_) => RecheckKeepsRows(s, core);
    case Printing(_, _, _, _) => PrintBinKeepsRows(s, core);
    case Clearing(_, _, _, _) => ClearBinKeepsRows(s, core);
    case Recording(_) => PlainStepKeepsRows(s, core, Record(s, core));
    case Reading(_) => PlainStepKeepsRows(s, core, ReadBin(s, core));
    case Storing(_, _) => StoreBinKeepsRows(s, core);
  }

  lemma FreshKeepsRows(cfg: Config)
    requires cfg.Valid()
    ensures RowInv(Fresh(cfg))
  {
    var s := Fresh(cfg);
    EmptyRows(s);
    RoomIsPositive(cfg, Held(s), Phase(s));
  }

  /** No step takes a row beyond its room, nor beyond the peak. */
  lemma StepKeepsRows(s: State, act: Action)
    requires Safe(s) && RowInv(s) && Enabled(s, act)
    ensures RowInv(Next(s, act))
  {
    match act
    case Call(core, a) => if s.on { PlainStepKeepsRows(s, core, WithPc(s, core, Checked(a))); }
    case Advance(core) => TickKeepsRows(s, core);
    case Stop => RowsStay(s, Next(s, Stop));
    case Control => RowsStay(s, Next(s, Control));
    case Start(cfg) => FreshKeepsRows(cfg);
  }

  /** A vcpu about to write a bin finds it below the peak. */
  lemma StoringBelowPeak(s: State, core: nat)
    requires Sized(s) && PcsInRange(s) && RowInv(s) && core < |s.vcpus| && s.vcpus[core].Storing?
    ensures At(s, CellOf(core, s.vcpus[core].a)) + 1 <= Peak(s.cfg)
  {
    RowBoundsCell(s, CellOf(core, s.vcpus[core].a));
    assert RowLoad(s, core) <= Peak(s.cfg);
  }
}
