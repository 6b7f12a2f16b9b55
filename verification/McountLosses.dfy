/** What the histogram loses, and when: exactly 2^32 accesses each time a bin wraps. */
module McountLosses {
  import opened Arithmetic
  import opened Mcount
  import opened McountProofs
  import opened McountLedger

  // ---- what a step does to a bin's account ----

  /** A vcpu stores a bin that it read full. */
  predicate WrapsBy(s: State, i: nat, s': State)
    requires i < |s.vcpus|
  {
    s.vcpus[i].Storing? && s.vcpus[i].seen == 0xffff_ffff && i < |s'.vcpus| && s'.vcpus[i].Outside?
  }

  predicate WrapsAt(s: State, c: Cell, s': State) {
    exists i :: 0 <= i < |s.vcpus| && WrapsBy(s, i, s') && CellOf(i, s.vcpus[i].a) == c
  }

  predicate Wraps(s: State, s': State) {
    exists i :: 0 <= i < |s.vcpus| && WrapsBy(s, i, s')
  }

  /** Accesses at `c` that are neither in the report nor in the bin. */
  ghost function Lost(s: State, c: Cell): int
    requires Sized(s) && InRange(s.cfg, c)
  {
    Accesses(s.past.done, c) - Balance(s, c)
  }

  /** The step loses 2^32 accesses of `c` if it wraps the bin, and none otherwise. */
  ghost predicate LosesAsItWraps(s: State, c: Cell, s': State)
    requires Sized(s) && InRange(s.cfg, c)
  {
    && Sized(s') && s'.cfg == s.cfg
    && Lost(s', c) == Lost(s, c) + (if WrapsAt(s, c, s') then 0x1_0000_0000 else 0)
  }

  lemma NobodyWraps(s: State, core: nat, s': State)
    requires core < |s.vcpus| && core < |s'.vcpus| && s'.vcpus == s.vcpus[core := s'.vcpus[core]]
    requires !s.vcpus[core].Storing?
    ensures !Wraps(s, s') && forall c :: !WrapsAt(s, c, s')
  {
  }

  lemma PlainStepLoses(s: State, core: nat, s': State, c: Cell)
    requires Sized(s) && Sized(s') && InRange(s.cfg, c) && s'.cfg == s.cfg && s'.tables == s.tables
    requires s'.report == s.report && s'.past.done == s.past.done
    requires core < |s.vcpus| && core < |s'.vcpus| && s'.vcpus == s.vcpus[core := s'.vcpus[core]]
    requires !s.vcpus[core].Storing? && !s.vcpus[core].Clearing? && !s'.vcpus[core].Clearing?
    ensures LosesAsItWraps(s, c, s')
  {
    NobodyWraps(s, core, s');
    ClearsUnchanged(s.vcpus, core, s'.vcpus[core]);
  }

  lemma PrintingLoses(s: State, core: nat, c: Cell)
    requires Safe(s) && core < |s.vcpus| && s.vcpus[core].Printing? && InRange(s.cfg, c)
    ensures LosesAsItWraps(s, c, PrintBin(s, core))
  {
    var s' := PrintBin(s, core);
    var here := Cell(s.vcpus[core].kernel, s.vcpus[core].core, s.vcpus[core].bin);
    FlusherIsAlone(s, core);
    NobodyWraps(s, core, s');
    if InRange(s.cfg, here) {
      PrintingKeepsBalance(s, core, here, s', c);
    } else {
      PlainStepLoses(s, core, s', c);
    }
  }

  lemma ClearingLoses(s: State, core: nat, c: Cell)
    requires Safe(s) && core < |s.vcpus| && s.vcpus[core].Clearing? && InRange(s.cfg, c)
    ensures LosesAsItWraps(s, c, ClearBin(s, core))
  {
    var s' := ClearBin(s, core);
    var here := Cell(s.vcpus[core].kernel, s.vcpus[core].core, s.vcpus[core].bin);
    FlusherIsAlone(s, core);
    NobodyWraps(s, core, s');
    assert !BeingCleared(s'.vcpus, c);
    if c == here {
      assert BeingCleared(s.vcpus, c);
    } else {
      assert !BeingCleared(s.vcpus, c);
    }
  }

  /** A store loses 2^32 accesses of its bin exactly when the bin was full. */
  lemma StoringLoses(s: State, core: nat, c: Cell)
    requires Accounted(s) && core < |s.vcpus| && s.vcpus[core].Storing? && InRange(s.cfg, c)
    ensures LosesAsItWraps(s, c, StoreBin(s, core))
  {
    var s' := StoreBin(s, core);
    var here := CellOf(core, s.vcpus[core].a);
    SharerKeepsFlushersOut(s, core);
    ClearsUnchanged(s.vcpus, core, Outside);
    assert CellExact(s, here);
    StoredWraps(At(s, here));
    OnlyHereWraps(s, core, c);
    DonePush(s.past.done, Arrival(core, s.vcpus[core].a), c);
    assert !BeingCleared(s.vcpus, c);
  }

  lemma OnlyHereWraps(s: State, core: nat, c: Cell)
    requires Safe(s) && core < |s.vcpus| && s.vcpus[core].Storing?
    ensures WrapsAt(s, c, StoreBin(s, core))
            <==> c == CellOf(core, s.vcpus[core].a) && At(s, CellOf(core, s.vcpus[core].a)) == 0xffff_ffff
    ensures Wraps(s, StoreBin(s, core)) <==> At(s, CellOf(core, s.vcpus[core].a)) == 0xffff_ffff
  {
    var s' := StoreBin(s, core);
    assert WrapsBy(s, core, s') <==> At(s, CellOf(core, s.vcpus[core].a)) == 0xffff_ffff;
    forall i | 0 <= i < |s.vcpus| && i != core ensures !WrapsBy(s, i, s') {
      assert s'.vcpus[i] == s.vcpus[i];
    }
  }

  lemma TickLoses(s: State, core: nat, c: Cell)
    requires Accounted(s) && Enabled(s, Advance(core)) && InRange(s.cfg, c)
    ensures LosesAsItWraps(s, c, Tick(s, core))
  {
    match s.vcpus[core]
    case Checked(_) => PlainStepLoses(s, core, CountAccess(s, core), c);
    case Elected(_) => PlainStepLoses(s, core, TakeExclusive(s, core), c);
    case Rechecking(_) => PlainStepLoses(s, core, Recheck(s, core), c);
    case Printing(_, _, _, _) => PrintingLoses(s, core, c);
    case Clearing(_, _, _, _) => ClearingLoses(s, core, c);
    case Recording(_) => PlainStepLoses(s, core, Record(s, core), c);
    case Reading(_) => PlainStepLoses(s, core, ReadBin(s, core), c);
    case Storing(_, _) => StoringLoses(s, core, c);
  }

  /** A step other than a start loses 2^32 accesses of a bin if it wraps the bin, and none otherwise. */
  lemma StepLoses(s: State, act: Action, c: Cell)
    requires Accounted(s) && Enabled(s, act) && !act.Start? && InRange(s.cfg, c)
    ensures LosesAsItWraps(s, c, Next(s, act))
  {
    match act
    case Call(core, a) => if s.on { PlainStepLoses(s, core, WithPc(s, core, Checked(a)), c); }
    case Advance(core) => TickLoses(s, core, c);
    case Stop =>
    case Control =>
  }

  // ---- whole runs ----

  ghost predicate Starts(s: State) {
    exists cfg: Config :: cfg.Valid() && s == Fresh(cfg)
  }

  /** How often the bin of `c` wrapped since the start. */
  ghost function Overflows(run: seq<State>, n: nat, c: Cell): nat
    requires n < |run|
  {
    if n == 0 || Starts(run[n]) then 0
    else Overflows(run, n - 1, c) + if WrapsAt(run[n - 1], c, run[n]) then 1 else 0
  }

  lemma FreshLosesNothing(s: State, c: Cell)
    requires Starts(s) && InRange(s.cfg, c)
    ensures Sized(s) && Lost(s, c) == 0
  {
    var cfg: Config :| cfg.Valid() && s == Fresh(cfg);
    assert !BeingCleared(s.vcpus, c);
  }

  lemma StartOrSame(s: State, act: Action)
    requires Sized(s) && PcsInRange(s) && Enabled(s, act)
    ensures act.Start? ==> Starts(Next(s, act))
    ensures !act.Start? ==> Next(s, act).cfg == s.cfg
  {
  }

  lemma NextLoses(s: State, c: Cell, s': State)
    requires Accounted(s) && Steps(s, s') && !Starts(s') && InRange(s'.cfg, c)
    ensures InRange(s.cfg, c) && LosesAsItWraps(s, c, s')
  {
    var act :| Enabled(s, act) && s' == Next(s, act);
    StartOrSame(s, act);
    StepLoses(s, act, c);
  }

  /** Every wrap since the start lost 2^32 accesses, and nothing else lost any. */
  lemma {:induction false} WrapsAreLosses(run: seq<State>, n: nat, c: Cell)
    requires IsRun(run) && n < |run| && InRange(run[n].cfg, c)
    ensures Sized(run[n]) && Lost(run[n], c) == 0x1_0000_0000 * Overflows(run, n, c)
  {
    if n == 0 || Starts(run[n]) {
      FreshLosesNothing(run[n], c);
    } else {
      EveryStateIsAccounted(run, n - 1);
      NextLoses(run[n - 1], c, run[n]);
      WrapsAreLosses(run, n - 1, c);
    }
  }

  /** What losing `wraps` times 2^32 accesses means for the account of a bin. */
  ghost predicate AccountOf(s: State, c: Cell, wraps: nat)
    requires Sized(s) && InRange(s.cfg, c)
  {
    && Accesses(s.past.done, c) == Balance(s, c) + 0x1_0000_0000 * wraps
    && (Balance(s, c) == Accesses(s.past.done, c) <==> wraps == 0)
    && (Narrow(s.cfg) ==> Balance(s, c) == Accesses(s.past.done, c))
    && (Accesses(s.past.done, c) - Balance(s, c)) % 0x1_0000_0000 == 0
  }

  lemma AccountFollows(s: State, c: Cell, wraps: nat)
    requires Sized(s) && InRange(s.cfg, c) && Lost(s, c) == 0x1_0000_0000 * wraps
    requires Narrow(s.cfg) ==> Lost(s, c) == 0
    ensures AccountOf(s, c, wraps)
  {
    WholeWraps(Lost(s, c), wraps);
  }

  lemma WholeWraps(lost: int, wraps: nat)
    requires lost == 0x1_0000_0000 * wraps
    ensures lost % 0x1_0000_0000 == 0 && (lost == 0 <==> wraps == 0)
  {
    DivisionIs(lost, 0x1_0000_0000, wraps, 0);
  }

  lemma NarrowLosesNothing(run: seq<State>, n: nat, c: Cell)
    requires IsRun(run) && n < |run| && InRange(run[n].cfg, c) && Narrow(run[n].cfg)
    ensures Sized(run[n]) && Lost(run[n], c) == 0
  {
    EveryStateIsAccounted(run, n);
    assert CellExact(run[n], c);
  }

  /** Histogram exactness.  In every state of every run and for every core, privilege and bin, the
      accesses completed there are what the report printed, what the bin holds, and 2^32 for every
      time the bin wrapped: so the bin is exact exactly when none of its stores wrapped.  None ever
      does when the peak of a row fits 32 bits. */
  lemma HistogramIsExact(run: seq<State>, n: nat, c: Cell)
    requires IsRun(run) && n < |run| && Sized(run[n]) && InRange(run[n].cfg, c)
    ensures AccountOf(run[n], c, Overflows(run, n, c))
  {
    WrapsAreLosses(run, n, c);
    if Narrow(run[n].cfg) { NarrowLosesNothing(run, n, c); }
    AccountFollows(run[n], c, Overflows(run, n, c));
  }
}
