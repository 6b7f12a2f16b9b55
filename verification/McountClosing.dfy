/** What a report is missing when the plugin is stopped: `hypercall_mcount_fini` does no last flush. */
module McountClosing {
  import opened Arithmetic
  import opened Counting
  import opened Mcount
  import opened McountProofs
  import opened McountLedger
  import opened McountLosses
  import opened McountSolo
  import opened McountPlugin

  /** The report holds every completed access, bin by bin. */
  ghost predicate Complete(s: State) {
    forall c :: InRange(s.cfg, c) ==> PrintedOf(s.report, c) == Accesses(s.past.done, c)
  }

  /** Every access is in the report or in the bins. */
  ghost predicate Exact(s: State)
    requires Sized(s)
  {
    forall c :: InRange(s.cfg, c) ==> PrintedOf(s.report, c) + At(s, c) == Accesses(s.past.done, c)
  }

  lemma CompleteIffEmpty(s: State)
    requires Sized(s) && Exact(s)
    ensures Complete(s) <==> Resident(s.tables) == 0
  {
    if Complete(s) {
      forall c | InRange(s.cfg, c) ensures At(s, c) == 0 {
        assert PrintedOf(s.report, c) + At(s, c) == Accesses(s.past.done, c);
      }
      NothingResident(s.cfg, s.tables);
    }
    if Resident(s.tables) == 0 {
      forall c | InRange(s.cfg, c) ensures PrintedOf(s.report, c) == Accesses(s.past.done, c) {
        ResidentBoundsCell(s.cfg, s.tables, c);
      }
    }
  }

  // ---- any interleaving ----

  /** A flusher came to the end of its flush. */
  predicate Flushes(s: State, s': State) {
    exists i :: 0 <= i < |s.vcpus| && i < |s'.vcpus| && s.vcpus[i].Printing? && s'.vcpus[i].Recording?
  }

  /** The accesses recorded since the start, or since the last flush was over. */
  ghost function RecordedSince(run: seq<State>, n: nat): int
    requires n < |run|
  {
    if n == 0 || Starts(run[n]) || Flushes(run[n - 1], run[n]) then 0
    else RecordedSince(run, n - 1) + |run[n].past.done| - |run[n - 1].past.done|
  }

  /** How often a bin wrapped in that time. */
  ghost function OverflowsSince(run: seq<State>, n: nat): nat
    requires n < |run|
  {
    if n == 0 || Starts(run[n]) || Flushes(run[n - 1], run[n]) then 0
    else OverflowsSince(run, n - 1) + if Wraps(run[n - 1], run[n]) then 1 else 0
  }

  predicate Calm(s: State) {
    forall i :: 0 <= i < |s.vcpus| ==> !Flushing(s.vcpus[i])
  }

  /** What a step does to the bins, seen where no flush is under way. */
  ghost predicate AddsWhatItRecords(s: State, s': State) {
    Calm(s') ==>
      if Starts(s') || Flushes(s, s') then Resident(s'.tables) == 0
      else
        && Calm(s)
        && Resident(s'.tables) - Resident(s.tables)
           == |s'.past.done| - |s.past.done| - if Wraps(s, s') then 0x1_0000_0000 else 0
  }

  lemma StoringAdds(s: State, core: nat)
    requires Accounted(s) && core < |s.vcpus| && s.vcpus[core].Storing?
    ensures AddsWhatItRecords(s, StoreBin(s, core))
  {
    var c := CellOf(core, s.vcpus[core].a);
    SharerKeepsFlushersOut(s, core);
    assert CellExact(s, c);
    StoredWraps(At(s, c));
    OnlyHereWraps(s, core, c);
    PutResident(s.cfg, s.tables, c, Wrap32(At(s, c) + 1));
    FreshHoldsNothing(StoreBin(s, core));
  }

  lemma FreshHoldsNothing(s: State)
    ensures Starts(s) ==> Resident(s.tables) == 0
  {
    if Starts(s) {
      var cfg: Config :| cfg.Valid() && s == Fresh(cfg);
      NothingResident(cfg, s.tables);
    }
  }

  lemma PrintingAdds(s: State, core: nat)
    requires Accounted(s) && core < |s.vcpus| && s.vcpus[core].Printing?
    ensures AddsWhatItRecords(s, PrintBin(s, core))
  {
    var s' := PrintBin(s, core);
    if s'.vcpus[core].Recording? {
      FinishedFlushIsEmpty(s, core);
      assert Flushes(s, s');
    } else {
      assert Flushing(s'.vcpus[core]);
    }
  }

  /** Steps of one vcpu that leave the bins and what was recorded alone. */
  lemma PlainStepAdds(s: State, core: nat, s': State)
    requires core < |s.vcpus| && core < |s'.vcpus| && s'.vcpus == s.vcpus[core := s'.vcpus[core]]
    requires !Flushing(s.vcpus[core]) && !s.vcpus[core].Storing?
    requires s'.tables == s.tables && s'.past.done == s.past.done
    ensures AddsWhatItRecords(s, s')
  {
    FreshHoldsNothing(s');
    NobodyWraps(s, core, s');
    if Calm(s') {
      forall i | 0 <= i < |s.vcpus| ensures !Flushing(s.vcpus[i]) {
        assert i != core ==> s.vcpus[i] == s'.vcpus[i];
      }
    }
  }

  lemma TickAdds(s: State, core: nat)
    requires Accounted(s) && Enabled(s, Advance(core))
    ensures AddsWhatItRecords(s, Tick(s, core))
  {
    match s.vcpus[core]
    case Checked(_) => PlainStepAdds(s, core, CountAccess(s, core));
    case Elected(_) => PlainStepAdds(s, core, TakeExclusive(s, core));
    case Rechecking(_) => PlainStepAdds(s, core, Recheck(s, core));
    case Printing(_, _, _, _) => PrintingAdds(s, core);
    case Clearing(_, _, _, _) => assert Flushing(ClearBin(s, core).vcpus[core]);
    case Recording(_) => PlainStepAdds(s, core, Record(s, core));
    case Reading(_) => PlainStepAdds(s, core, ReadBin(s, core));
    case Storing(_, _) => StoringAdds(s, core);
  }

  lemma StepAdds(s: State, act: Action)
    requires Accounted(s) && Enabled(s, act)
    ensures AddsWhatItRecords(s, Next(s, act))
  {
    match act
    case Call(core, a) =>
      if s.on { PlainStepAdds(s, core, WithPc(s, core, Checked(a))); } else { FreshHoldsNothing(s); }
    case Advance(core) => TickAdds(s, core);
    case Stop => FreshHoldsNothing(Next(s, Stop));
    case Control => FreshHoldsNothing(Next(s, Control));
    case Start(cfg) => FreshHoldsNothing(Fresh(cfg));
  }

  /** With no flush under way the bins hold what was recorded since the last one, less 2^32 for every
      time a bin wrapped since. */
  lemma {:induction false} BinsHoldWhatCameSince(run: seq<State>, n: nat)
    requires IsRun(run) && n < |run| && Calm(run[n])
    ensures Resident(run[n].tables) == RecordedSince(run, n) - 0x1_0000_0000 * OverflowsSince(run, n)
  {
    if n == 0 {
      FreshHoldsNothing(run[0]);
    } else {
      EveryStateIsAccounted(run, n - 1);
      assert Steps(run[n - 1], run[n]);
      var act :| Enabled(run[n - 1], act) && run[n] == Next(run[n - 1], act);
      StepAdds(run[n - 1], act);
      if !Starts(run[n]) && !Flushes(run[n - 1], run[n]) {
        BinsHoldWhatCameSince(run, n - 1);
      }
    }
  }

  /** No store since the start wrapped a bin. */
  ghost predicate NeverWrapped(run: seq<State>, n: nat)
    requires n < |run|
  {
    forall c :: InRange(run[n].cfg, c) ==> Overflows(run, n, c) == 0
  }

  lemma WrappedCell(s: State, s': State) returns (c: Cell)
    requires Sized(s) && PcsInRange(s) && Wraps(s, s')
    ensures InRange(s.cfg, c) && WrapsAt(s, c, s')
  {
    var i :| 0 <= i < |s.vcpus| && WrapsBy(s, i, s');
    c := CellOf(i, s.vcpus[i].a);
  }

  lemma SameSetUp(run: seq<State>, n: nat)
    requires IsRun(run) && 0 < n < |run| && !Starts(run[n])
    ensures run[n].cfg == run[n - 1].cfg && Sized(run[n - 1]) && PcsInRange(run[n - 1])
  {
    EveryStateIsAccounted(run, n - 1);
    assert Steps(run[n - 1], run[n]);
    var act :| Enabled(run[n - 1], act) && run[n] == Next(run[n - 1], act);
    StartOrSame(run[n - 1], act);
  }

  /** A bin that wrapped since the last flush wrapped since the start. */
  lemma {:induction false} WrappedSomewhere(run: seq<State>, n: nat)
    requires IsRun(run) && n < |run| && OverflowsSince(run, n) > 0
    ensures !NeverWrapped(run, n)
  {
    SameSetUp(run, n);
    if Wraps(run[n - 1], run[n]) {
      var c := WrappedCell(run[n - 1], run[n]);
      assert Overflows(run, n, c) > 0;
    } else {
      WrappedSomewhere(run, n - 1);
      var c :| InRange(run[n - 1].cfg, c) && Overflows(run, n - 1, c) != 0;
      assert Overflows(run, n, c) > 0;
    }
  }

  lemma CalmAccount(run: seq<State>, n: nat, c: Cell)
    requires IsRun(run) && n < |run| && Calm(run[n]) && InRange(run[n].cfg, c)
    ensures Sized(run[n])
    ensures Accesses(run[n].past.done, c)
         == PrintedOf(run[n].report, c) + At(run[n], c) + 0x1_0000_0000 * Overflows(run, n, c)
  {
    WrapsAreLosses(run, n, c);
    assert !BeingCleared(run[n].vcpus, c);
  }

  lemma CompleteMeansKept(run: seq<State>, n: nat)
    requires IsRun(run) && n < |run| && Calm(run[n]) && Complete(run[n])
    ensures NeverWrapped(run, n) && Resident(run[n].tables) == 0
  {
    EveryStateIsAccounted(run, n);
    forall c | InRange(run[n].cfg, c) ensures Overflows(run, n, c) == 0 && At(run[n], c) == 0 {
      CalmAccount(run, n, c);
    }
    NothingResident(run[n].cfg, run[n].tables);
  }

  lemma KeptMeansComplete(run: seq<State>, n: nat)
    requires IsRun(run) && n < |run| && Calm(run[n]) && NeverWrapped(run, n) && Resident(run[n].tables) == 0
    ensures Complete(run[n])
  {
    EveryStateIsAccounted(run, n);
    forall c | InRange(run[n].cfg, c) ensures PrintedOf(run[n].report, c) == Accesses(run[n].past.done, c) {
      CalmAccount(run, n, c);
      ResidentBoundsCell(run[n].cfg, run[n].tables, c);
    }
  }

  /** Under any interleaving and for any set-up a closed report holds every completed access, bin by
      bin, exactly when no store since the start wrapped a bin and none was recorded after the last
      flush was over. */
  lemma ClosedReportIsComplete(run: seq<State>, n: nat)
    requires IsRun(run) && n < |run| && !run[n].open
    ensures Complete(run[n]) <==> NeverWrapped(run, n) && RecordedSince(run, n) == 0
  {
    EveryStateIsAccounted(run, n);
    assert Calm(run[n]);
    BinsHoldWhatCameSince(run, n);
    if OverflowsSince(run, n) > 0 { WrappedSomewhere(run, n); }
    if Complete(run[n]) { CompleteMeansKept(run, n); }
    if NeverWrapped(run, n) && RecordedSince(run, n) == 0 { KeptMeansComplete(run, n); }
  }

  lemma NarrowNeverWraps(run: seq<State>, n: nat)
    requires IsRun(run) && n < |run| && Narrow(run[n].cfg)
    ensures NeverWrapped(run, n)
  {
    EveryStateIsAccounted(run, n);
    forall c | InRange(run[n].cfg, c) ensures Overflows(run, n, c) == 0 {
      HistogramIsExact(run, n, c);
    }
  }

  /** When the peak of a row fits 32 bits: exactly when none was recorded after the last flush. */
  lemma NarrowReportIsComplete(run: seq<State>, n: nat)
    requires IsRun(run) && n < |run| && !run[n].open && Narrow(run[n].cfg)
    ensures Complete(run[n]) <==> RecordedSince(run, n) == 0
    ensures Sum(CountOf, run[n].report) == |run[n].past.done| <==> RecordedSince(run, n) == 0
    ensures RecordedSince(run, n) == Resident(run[n].tables)
  {
    EveryStateIsAccounted(run, n);
    NarrowNeverWraps(run, n);
    ClosedReportIsComplete(run, n);
    assert Calm(run[n]);
    BinsHoldWhatCameSince(run, n);
    if OverflowsSince(run, n) > 0 { WrappedSomewhere(run, n); }
  }

  // ---- callbacks that do not overlap ----

  predicate AllFit(cfg: Config, calls: seq<Arrival>) {
    forall i :: 0 <= i < |calls| ==> calls[i].core < cfg.ncores && Fits(cfg, calls[i].a)
  }

  /** The calls since the last multiple of `acc_bin`, that one included. */
  function SinceMultiple(accBin: nat, calls: seq<Arrival>): seq<Arrival>
    requires accBin > 0
  {
    if calls == [] then []
    else
      var n := |calls| - 1;
      (if Wrap64(|calls|) % accBin == 0 then [] else SinceMultiple(accBin, calls[..n])) + [calls[n]]
  }

  predicate ToDevices(calls: seq<Arrival>) {
    forall i :: 0 <= i < |calls| ==> calls[i].a.io
  }

  predicate ToMemory(c: Arrival) { !c.a.io }

  predicate ToDevice(c: Arrival) { c.a.io }

  lemma PrintedPush(report: seq<Printed>, e: Printed, c: Cell)
    ensures PrintedOf(report + [e], c) == PrintedOf(report, c) + if e.cell == c then e.count else 0
  {
    SumPush(Share(c), report, e);
  }

  /** What is printed of a cell by printing rows and tables. */
  lemma {:induction false} RowPrints(kernel: bool, core: nat, row: seq<nat>, j: nat, c: Cell)
    requires j <= |row|
    ensures PrintedOf(RowEntries(kernel, core, row, j), c)
         == if c.kernel == kernel && c.core == core && c.bin < j then row[c.bin] else 0
  {
    if j > 0 {
      RowPrints(kernel, core, row, j - 1, c);
      var before, e := RowEntries(kernel, core, row, j - 1), Printed(Cell(kernel, core, j - 1), row[j - 1]);
      PrintedPush(before, e, c);
      assert before + [] == before;
      assert RowEntries(kernel, core, row, j) == if e.count != 0 then before + [e] else before;
    }
  }

  lemma {:induction false} TablePrints(kernel: bool, t: seq<seq<nat>>, i: nat, c: Cell)
    requires i <= |t| && (c.core < |t| ==> c.bin < |t[c.core]|)
    ensures PrintedOf(TableEntries(kernel, t, i), c) == if c.kernel == kernel && c.core < i then t[c.core][c.bin] else 0
  {
    if i > 0 {
      TablePrints(kernel, t, i - 1, c);
      RowPrints(kernel, i - 1, t[i - 1], |t[i - 1]|, c);
      SumAppend(Share(c), TableEntries(kernel, t, i - 1), RowEntries(kernel, i - 1, t[i - 1], |t[i - 1]|));
    }
  }

  lemma FlushMoves(s: State, c: Cell)
    requires Sized(s) && InRange(s.cfg, c)
    ensures Sized(Flushed(s)) && At(Flushed(s), c) == 0
    ensures PrintedOf(Flushed(s).report, c) == PrintedOf(s.report, c) + At(s, c)
  {
    var k, u := s.tables.kernel, s.tables.user;
    TablePrints(true, k, |k|, c);
    TablePrints(false, u, |u|, c);
    SumAppend(Share(c), s.report, TableEntries(true, k, |k|));
    SumAppend(Share(c), s.report + TableEntries(true, k, |k|), TableEntries(false, u, |u|));
  }

  lemma BaseIsExact(s: State)
    requires Sized(s) && Exact(s)
    ensures Sized(Base(s)) && Exact(Base(s))
    ensures Resident(Base(s).tables) == if Elects(s) then 0 else Resident(s.tables)
  {
    if Elects(s) {
      AllCleared(s.tables.kernel);
      AllCleared(s.tables.user);
      forall c | InRange(s.cfg, c) ensures PrintedOf(Base(s).report, c) + At(Base(s), c) == Accesses(s.past.done, c) {
        FlushMoves(Tallied(s), c);
        assert PrintedOf(s.report, c) + At(s, c) == Accesses(s.past.done, c);
      }
    } else {
      forall c | InRange(s.cfg, c) ensures PrintedOf(Base(s).report, c) + At(Base(s), c) == Accesses(s.past.done, c) {
        assert At(Base(s), c) == At(s, c);
        assert PrintedOf(s.report, c) + At(s, c) == Accesses(s.past.done, c);
      }
    }
  }

  lemma StoredIsExact(s: State, here: Cell, k: Arrival, s': State)
    requires Sized(s) && Sized(s') && Exact(s) && InRange(s.cfg, here) && s'.cfg == s.cfg && s'.report == s.report
    requires here == CellOf(k.core, k.a) && !k.a.io && s'.past.done == s.past.done + [k]
    requires s'.tables == Put(s.cfg, s.tables, here, At(s, here) + 1)
    ensures Exact(s')
  {
    forall c | InRange(s.cfg, c) ensures PrintedOf(s'.report, c) + At(s', c) == Accesses(s'.past.done, c) {
      assert PrintedOf(s.report, c) + At(s, c) == Accesses(s.past.done, c);
      DonePush(s.past.done, k, c);
    }
  }

  lemma RecordedIsExact(s: State, core: nat, a: Access)
    requires Sized(s) && Exact(s) && core < s.cfg.ncores && Fits(s.cfg, a) && Resident(s.tables) + 1 < 0x1_0000_0000
    ensures Sized(Recorded(s, core, a)) && Exact(Recorded(s, core, a))
    ensures Resident(Recorded(s, core, a).tables) == Resident(s.tables) + if a.io then 0 else 1
  {
    if !a.io {
      var here := CellOf(core, a);
      ResidentBoundsCell(s.cfg, s.tables, here);
      assert Wrap32(At(s, here) + 1) == At(s, here) + 1 by { StoredWraps(At(s, here)); }
      PutResident(s.cfg, s.tables, here, At(s, here) + 1);
      StoredIsExact(s, here, Arrival(core, a), Recorded(s, core, a));
    }
  }

  /** `c` was accessed by these calls, and its bin holds those since the last multiple. */
  ghost predicate TalliedAt(s: State, calls: seq<Arrival>, c: Cell)
    requires s.cfg.Valid() && Sized(s) && InRange(s.cfg, c)
  {
    && Accesses(s.past.done, c) == Accesses(calls, c)
    && At(s, c) == Accesses(SinceMultiple(s.cfg.accBin, calls), c)
  }

  /** The plugin after these calls: exact, and holding the memory accesses since the last multiple. */
  ghost predicate After(s: State, cfg: Config, calls: seq<Arrival>) {
    && cfg.Valid() && InStep(s, cfg, calls) && DevicesCounted(s, calls)
    && forall c :: InRange(cfg, c) ==> TalliedAt(s, calls, c)
  }

  /** The devices' counter, and no summary yet. */
  predicate DevicesCounted(s: State, calls: seq<Arrival>) {
    s.ioCnt == Wrap64(Count(ToDevice, calls)) && s.summary == []
  }

  ghost predicate InStep(s: State, cfg: Config, calls: seq<Arrival>)
    requires cfg.Valid()
  {
    && s.cfg == cfg && Sized(s) && SoloInv(s) && Exact(s) && s.on && s.accCnt == Wrap64(|calls|)
    && Resident(s.tables) == Count(ToMemory, SinceMultiple(cfg.accBin, calls))
  }

  lemma OneMoreCall(s: State, cfg: Config, calls: seq<Arrival>, c: Arrival)
    requires After(s, cfg, calls) && c.core < cfg.ncores && Fits(cfg, c.a)
    ensures After(Solo(s, c.core, c.a), cfg, calls + [c])
  {
    StaysInStep(s, cfg, calls, c);
    CountsDevices(s, calls, c);
    forall k | InRange(cfg, k) ensures TalliedAt(Solo(s, c.core, c.a), calls + [c], k) {
      TalliesOneMore(s, calls, c, k);
    }
  }

  lemma StaysInStep(s: State, cfg: Config, calls: seq<Arrival>, c: Arrival)
    requires cfg.Valid() && InStep(s, cfg, calls) && c.core < cfg.ncores && Fits(cfg, c.a)
    ensures InStep(Solo(s, c.core, c.a), cfg, calls + [c])
  {
    SoloKeepsBound(s, c.core, c.a);
    SoloIsExact(s, c.core, c.a);
    SoloCounts(s, c.core, c.a);
    NextCall(cfg.accBin, calls, c, ToMemory);
  }

  lemma CountsDevices(s: State, calls: seq<Arrival>, c: Arrival)
    requires Sized(s) && s.on && c.core < s.cfg.ncores && Fits(s.cfg, c.a) && DevicesCounted(s, calls)
    ensures DevicesCounted(Solo(s, c.core, c.a), calls + [c])
  {
    SoloCounts(s, c.core, c.a);
    assert (calls + [c])[..|calls|] == calls;
    WrapSuccessor(Count(ToDevice, calls));
  }

  lemma ElectsOnMultiples(s: State, calls: seq<Arrival>)
    requires s.cfg.Valid() && s.accCnt == Wrap64(|calls|)
    ensures Elects(s) <==> Wrap64(|calls| + 1) % s.cfg.accBin == 0
  {
    WrapSuccessor(|calls|);
  }

  lemma TalliesOneMore(s: State, calls: seq<Arrival>, c: Arrival, k: Cell)
    requires Sized(s) && SoloInv(s) && s.on && s.accCnt == Wrap64(|calls|)
    requires c.core < s.cfg.ncores && Fits(s.cfg, c.a) && InRange(s.cfg, k) && TalliedAt(s, calls, k)
    ensures var t := Solo(s, c.core, c.a); Sized(t) && t.cfg == s.cfg && TalliedAt(t, calls + [c], k)
  {
    SoloTallies(s, c.core, c.a, k);
    NextCall(s.cfg.accBin, calls, c, AccessAt(k));
    ElectsOnMultiples(s, calls);
    TallyAdds(s, Solo(s, c.core, c.a), calls, c, k);
  }

  lemma TallyAdds(s: State, t: State, calls: seq<Arrival>, c: Arrival, k: Cell)
    requires Sized(s) && Sized(t) && t.cfg == s.cfg && InRange(s.cfg, k) && TalliedAt(s, calls, k)
    requires var here := if IsAt(c, k) then 1 else 0;
             var since := Accesses(SinceMultiple(s.cfg.accBin, calls + [c]), k);
             && Accesses(t.past.done, k) == Accesses(s.past.done, k) + here
             && Accesses(calls + [c], k) == Accesses(calls, k) + here
             && (since == here + if Elects(s) then 0 else Accesses(SinceMultiple(s.cfg.accBin, calls), k))
             && At(t, k) == here + if Elects(s) then 0 else At(s, k)
    ensures TalliedAt(t, calls + [c], k)
  {
  }

  /** One callback alone: what it does to one bin. */
  lemma SoloTallies(s: State, core: nat, a: Access, c: Cell)
    requires Sized(s) && SoloInv(s) && s.on && core < s.cfg.ncores && Fits(s.cfg, a) && InRange(s.cfg, c)
    ensures var t, here := Solo(s, core, a), !a.io && CellOf(core, a) == c;
            && Sized(t) && t.cfg == s.cfg
            && Accesses(t.past.done, c) == Accesses(s.past.done, c) + (if here then 1 else 0)
            && At(t, c) == (if Elects(s) then 0 else At(s, c)) + (if here then 1 else 0)
  {
    BaseLoad(s);
    FlushMoves(Tallied(s), c);
    RecordedTallies(Base(s), core, a, c);
  }

  lemma RecordedTallies(s: State, core: nat, a: Access, c: Cell)
    requires Sized(s) && core < s.cfg.ncores && Fits(s.cfg, a) && InRange(s.cfg, c)
    requires Resident(s.tables) + 1 < 0x1_0000_0000
    ensures var t, here := Recorded(s, core, a), !a.io && CellOf(core, a) == c;
            && Sized(t)
            && Accesses(t.past.done, c) == Accesses(s.past.done, c) + (if here then 1 else 0)
            && At(t, c) == At(s, c) + (if here then 1 else 0)
  {
    if !a.io {
      var there := CellOf(core, a);
      ResidentBoundsCell(s.cfg, s.tables, there);
      assert Wrap32(At(s, there) + 1) == At(s, there) + 1 by { StoredWraps(At(s, there)); }
      DonePush(s.past.done, Arrival(core, a), c);
    }
  }

  lemma SoloCounts(s: State, core: nat, a: Access)
    requires Sized(s) && s.on && core < s.cfg.ncores && Fits(s.cfg, a)
    ensures var t := Solo(s, core, a); t.cfg == s.cfg && t.on && t.accCnt == Wrap64(s.accCnt + 1)
    ensures var t := Solo(s, core, a);
            t.summary == s.summary && t.ioCnt == if a.io then Wrap64(s.ioCnt + 1) else s.ioCnt
    ensures Elects(s) <==> Wrap64(s.accCnt + 1) % s.cfg.accBin == 0
  {
  }

  /** One callback alone: a multiple empties the bins first, and a memory access adds one. */
  lemma SoloIsExact(s: State, core: nat, a: Access)
    requires Sized(s) && SoloInv(s) && Exact(s) && s.on && core < s.cfg.ncores && Fits(s.cfg, a)
    ensures Sized(Solo(s, core, a)) && Exact(Solo(s, core, a))
    ensures Resident(Solo(s, core, a).tables) == (if Elects(s) then 0 else Resident(s.tables)) + if a.io then 0 else 1
  {
    BaseLoad(s);
    BaseIsExact(s);
    RecordedIsExact(Base(s), core, a);
  }

  lemma NextCall(accBin: nat, calls: seq<Arrival>, c: Arrival, p: Arrival -> bool)
    requires accBin > 0
    ensures Wrap64(|calls + [c]|) == Wrap64(Wrap64(|calls|) + 1)
    ensures Count(p, calls + [c]) == Count(p, calls) + if p(c) then 1 else 0
    ensures Count(p, SinceMultiple(accBin, calls + [c]))
         == (if Wrap64(|calls| + 1) % accBin == 0 then 0 else Count(p, SinceMultiple(accBin, calls)))
            + if p(c) then 1 else 0
  {
    var more := calls + [c];
    assert more[..|more| - 1] == calls;
    WrapSuccessor(|calls|);
    var since := if Wrap64(|more|) % accBin == 0 then [] else SinceMultiple(accBin, calls);
    assert (since + [c])[..|since|] == since;
  }

  lemma NoCallYet(cfg: Config)
    requires cfg.Valid()
    ensures After(Fresh(cfg), cfg, [])
  {
    NothingResident(cfg, Fresh(cfg).tables);
    assert forall c :: InRange(cfg, c) ==> TalliedAt(Fresh(cfg), [], c);
  }

  lemma {:induction false} NoneToMemory(calls: seq<Arrival>)
    ensures Count(ToMemory, calls) == 0 <==> ToDevices(calls)
  {
    if calls != [] { NoneToMemory(calls[..|calls| - 1]); }
  }

  /** In these terms: what is printed and what is missing of each cell. */
  lemma PrintedByCalls(s: State, cfg: Config, calls: seq<Arrival>)
    requires cfg.Valid() && After(s, cfg, calls)
    ensures forall c :: InRange(cfg, c) ==>
              PrintedOf(s.report, c) + Accesses(SinceMultiple(cfg.accBin, calls), c) == Accesses(calls, c)
    ensures (forall c :: InRange(cfg, c) ==> PrintedOf(s.report, c) == Accesses(calls, c))
            <==> ToDevices(SinceMultiple(cfg.accBin, calls))
  {
    forall c | InRange(cfg, c)
      ensures PrintedOf(s.report, c) + Accesses(SinceMultiple(cfg.accBin, calls), c) == Accesses(calls, c)
      ensures Accesses(calls, c) == Accesses(s.past.done, c)
    {
      assert TalliedAt(s, calls, c);
      assert PrintedOf(s.report, c) + At(s, c) == Accesses(s.past.done, c);
    }
    CompleteIffEmpty(s);
    NoneToMemory(SinceMultiple(cfg.accBin, calls));
  }

  /** In terms of all accesses: the report is complete exactly when nothing is left in the bins. */
  lemma CompleteByCalls(s: State, cfg: Config, calls: seq<Arrival>)
    requires cfg.Valid() && After(s, cfg, calls)
    ensures Complete(s) <==> ToDevices(SinceMultiple(cfg.accBin, calls))
  {
    CompleteIffEmpty(s);
    NoneToMemory(SinceMultiple(cfg.accBin, calls));
  }

  /** Starting, and one callback after the other. */
  method CountAll(cfg: Config, calls: seq<Arrival>) returns (p: Plugin)
    requires cfg.Valid() && AllFit(cfg, calls)
    ensures fresh(p) && p.Valid() && p.cfg == cfg && After(p.View(), cfg, calls)
  {
    p := new Plugin(cfg);
    NoCallYet(cfg);
    for k := 0 to |calls|
      invariant p.Valid() && fresh(p) && p.cfg == cfg && After(p.View(), cfg, calls[..k])
    {
      assert calls[..k + 1] == calls[..k] + [calls[k]];
      OneMoreCall(p.View(), cfg, calls[..k], calls[k]);
      p.Callback(calls[k].core, calls[k].a);
    }
    assert calls[..|calls|] == calls;
  }

  /** Starting, calling and stopping, one thing at a time: of each cell the report misses exactly the
      memory accesses since the last multiple of `acc_bin`, that one included; so it is complete
      exactly when all of these went to devices. */
  method CountAndStop(cfg: Config, calls: seq<Arrival>) returns (p: Plugin)
    requires cfg.Valid() && AllFit(cfg, calls)
    ensures fresh(p) && !p.open && p.cfg == cfg
    ensures p.summary == [(|calls| % 0x1_0000_0000_0000_0000, Count(ToDevice, calls) % 0x1_0000_0000_0000_0000)]
    ensures forall c :: InRange(cfg, c) ==>
              PrintedOf(p.report, c) + Accesses(SinceMultiple(cfg.accBin, calls), c) == Accesses(calls, c)
    ensures (forall c :: InRange(cfg, c) ==> PrintedOf(p.report, c) == Accesses(calls, c))
            <==> ToDevices(SinceMultiple(cfg.accBin, calls))
    ensures Complete(p.View()) <==> ToDevices(SinceMultiple(cfg.accBin, calls))
  {
    p := CountAll(cfg, calls);
    CompleteByCalls(p.View(), cfg, calls);
    PrintedByCalls(p.View(), cfg, calls);
    p.Fini();
  }
}
