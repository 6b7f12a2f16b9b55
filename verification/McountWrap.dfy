/** When the bins of the histogram can wrap: a run that wraps one, for every set-up in which the
    peak of a row does not fit 32 bits. */
module McountWrap {
  import opened Arithmetic
  import opened Mcount
  import opened McountRows
  import opened McountLedger
  import opened McountLosses
  import opened McountSolo

  function Memory(): Access { Access(false, true, 0) }

  function Device(): Access { Access(true, true, 0) }

  function Bin(): Cell { Cell(true, 0, 0) }

  /** The others are parked, and the first core is about to do the next access. */
  ghost predicate Alone(s: State, cfg: Config) {
    && s.cfg == cfg && cfg.bins > 0 && LoneFlusher(s, 0, Memory()) && s.vcpus[0].Outside?
    && s.on && s.lock == Lock(0, false) && s.controller.Resting? && s.report == []
  }

  /** The first core has put `k` accesses in its bin, and the next `stalled` cores hold a multiple back. */
  ghost predicate Filled(s: State, cfg: Config, k: nat, stalled: nat) {
    && Alone(s, cfg)
    && (forall i :: stalled < i < |s.vcpus| ==> s.vcpus[i].Outside?)
    && At(s, Bin()) == Wrap32(k) && Accesses(s.past.done, Bin()) == k
    && s.accCnt == cfg.accBin - 1 + k + stalled
    && 0 <= Spare(cfg, k, stalled) <= cfg.accBin - 1
  }

  /** Accesses since the last multiple. */
  function Spare(cfg: Config, k: nat, stalled: nat): int {
    k - 1 - stalled * (cfg.accBin - 1)
  }

  // ---- the first core's own flush ----

  ghost predicate Devices(s: State, cfg: Config, n: nat) {
    && Alone(s, cfg) && (forall i :: 0 <= i < |s.vcpus| ==> s.vcpus[i].Outside?)
    && (forall c :: InRange(cfg, c) ==> At(s, c) == 0) && s.past.done == [] && s.accCnt == n
  }

  /** Device accesses move the counter and nothing else. */
  lemma {:induction false} ReachDevices(cfg: Config, n: nat) returns (s: State)
    requires cfg.Valid() && cfg.ncores > 0 && cfg.bins > 0 && n < cfg.accBin
    ensures Leads(Fresh(cfg), s) && Devices(s, cfg, n)
  {
    if n == 0 {
      s := Fresh(cfg);
      LeadsHere(s);
    } else {
      var s0 := ReachDevices(cfg, n - 1);
      s := OneDevice(s0, cfg, n - 1);
    }
  }

  lemma OneDevice(s0: State, cfg: Config, n: nat) returns (s: State)
    requires cfg.Valid() && Devices(s0, cfg, n) && n + 1 < cfg.accBin && Leads(Fresh(cfg), s0)
    ensures Leads(Fresh(cfg), s) && Devices(s, cfg, n + 1)
  {
    DivisionIs(n + 1, cfg.accBin, 0, n + 1);
    LoneIsARun(s0, 0, Device());
    s := Solo(s0, 0, Device());
    LeadsFurther(Fresh(cfg), s0, s);
    assert s == Recorded(Tallied(s0), 0, Device());
  }

  lemma LeadsFurther(s: State, m: State, t: State)
    requires Leads(s, m) && Leads(m, t)
    ensures Leads(s, t)
  {
    var p :| Path(p, s, m);
    var q :| Path(q, m, t);
    var r := p + q[1..];
    forall i | 0 < i < |r| ensures Steps(r[i - 1], r[i]) {
      if i < |p| {
        assert Steps(p[i - 1], p[i]);
      } else {
        assert Steps(q[i - |p|], q[i - |p| + 1]);
      }
    }
    assert Path(r, s, t);
  }

  lemma {:induction false} EmptyRowPrintsNothing(kernel: bool, core: nat, row: seq<nat>, j: nat)
    requires j <= |row| && forall y :: 0 <= y < |row| ==> row[y] == 0
    ensures RowEntries(kernel, core, row, j) == []
  {
    if j > 0 { EmptyRowPrintsNothing(kernel, core, row, j - 1); }
  }

  lemma {:induction false} EmptyTablePrintsNothing(kernel: bool, t: seq<seq<nat>>, i: nat)
    requires i <= |t| && forall x, y :: 0 <= x < |t| && 0 <= y < |t[x]| ==> t[x][y] == 0
    ensures TableEntries(kernel, t, i) == []
  {
    if i > 0 {
      EmptyTablePrintsNothing(kernel, t, i - 1);
      EmptyRowPrintsNothing(kernel, i - 1, t[i - 1], |t[i - 1]|);
    }
  }

  lemma EmptyFlush(s: State)
    requires Sized(s) && forall c :: InRange(s.cfg, c) ==> At(s, c) == 0
    ensures Sized(Flushed(s)) && Flushed(s).report == s.report
    ensures forall c :: InRange(s.cfg, c) ==> At(Flushed(s), c) == 0
  {
    forall x, y | 0 <= x < s.cfg.ncores && 0 <= y < s.cfg.bins
      ensures s.tables.kernel[x][y] == 0 && s.tables.user[x][y] == 0
    {
      assert At(s, Cell(true, x, y)) == 0 && At(s, Cell(false, x, y)) == 0;
    }
    EmptyTablePrintsNothing(true, s.tables.kernel, |s.tables.kernel|);
    EmptyTablePrintsNothing(false, s.tables.user, |s.tables.user|);
  }

  /** The first core is elected, flushes nothing, and records its access after the flush. */
  lemma FirstRecorded(s0: State, cfg: Config) returns (s: State)
    requires cfg.Valid() && Devices(s0, cfg, cfg.accBin - 1) && Leads(Fresh(cfg), s0)
    ensures Leads(Fresh(cfg), s) && Filled(s, cfg, 1, 0)
  {
    DivisionIs(cfg.accBin, cfg.accBin, 1, 0);
    LoneIsARun(s0, 0, Memory());
    s := Solo(s0, 0, Memory());
    LeadsFurther(Fresh(cfg), s0, s);
    EmptyFlush(Tallied(s0));
    assert s == Recorded(Flushed(Tallied(s0)), 0, Memory());
  }

  // ---- filling the bin ----

  lemma WrapNext(k: nat)
    ensures Wrap32(Wrap32(k) + 1) == Wrap32(k + 1)
  {
    SameRemainder(k + 1, Wrap32(k) + 1, k / 0x1_0000_0000, 0x1_0000_0000);
  }

  lemma CountsOn(cfg: Config, k: nat, stalled: nat)
    requires cfg.Valid() && 0 <= Spare(cfg, k, stalled) <= cfg.accBin - 1
    ensures (cfg.accBin - 1 + k + stalled + 1) % cfg.accBin
         == if Spare(cfg, k, stalled) == cfg.accBin - 1 then 0 else Spare(cfg, k, stalled) + 1
  {
    var a, p := cfg.accBin, Spare(cfg, k, stalled);
    assert stalled * a == stalled * (a - 1) + stalled;
    if p == a - 1 {
      assert (stalled + 2) * a == stalled * a + 2 * a;
      DivisionIs(a - 1 + k + stalled + 1, a, stalled + 2, 0);
    } else {
      assert (stalled + 1) * a == stalled * a + a;
      DivisionIs(a - 1 + k + stalled + 1, a, stalled + 1, p + 1);
    }
  }

  lemma FewStall(cfg: Config, k: nat, stalled: nat)
    requires cfg.accBin >= 2 && Spare(cfg, k, stalled) >= 0
    ensures stalled < k
  {
    assert stalled * (cfg.accBin - 1) >= stalled;
  }

  lemma RecordsOneMore(s0: State, cfg: Config, k: nat, stalled: nat) returns (s: State)
    requires cfg.Valid() && cfg.accBin >= 2 && Filled(s0, cfg, k, stalled) && Leads(Fresh(cfg), s0)
    requires Spare(cfg, k, stalled) < cfg.accBin - 1 && k < 0x1_0000_0000
    ensures Leads(Fresh(cfg), s) && Filled(s, cfg, k + 1, stalled)
  {
    FewStall(cfg, k, stalled);
    CountsOn(cfg, k, stalled);
    LoneIsARun(s0, 0, Memory());
    s := Solo(s0, 0, Memory());
    LeadsFurther(Fresh(cfg), s0, s);
    WrapNext(k);
    assert s == Recorded(Tallied(s0), 0, Memory());
  }

  /** The next core takes the multiple, and waits for a lock it is not let take. */
  lemma OneMoreStalls(s0: State, cfg: Config, k: nat, stalled: nat) returns (s: State)
    requires cfg.Valid() && cfg.accBin >= 2 && Filled(s0, cfg, k, stalled) && Leads(Fresh(cfg), s0)
    requires Spare(cfg, k, stalled) == cfg.accBin - 1 && k < 0x1_0000_0000 && stalled + 1 < cfg.ncores
    ensures Leads(Fresh(cfg), s) && Filled(s, cfg, k, stalled + 1)
  {
    FewStall(cfg, k, stalled);
    CountsOn(cfg, k, stalled);
    var i, a := stalled + 1, Memory();
    LeadsOn(Fresh(cfg), s0, Call(i, a));
    var c := WithPc(s0, i, Checked(a));
    LeadsOn(Fresh(cfg), c, Advance(i));
    s := CountAccess(c, i);
    assert s == WithPc(Tallied(s0), i, Elected(a));
    assert (stalled + 1) * (cfg.accBin - 1) == stalled * (cfg.accBin - 1) + (cfg.accBin - 1);
  }

  lemma AnotherIsLeft(cfg: Config, k: nat, stalled: nat)
    requires cfg.Valid() && Spare(cfg, k, stalled) == cfg.accBin - 1 && k + 1 <= Peak(cfg)
    ensures stalled + 1 < cfg.ncores
  {
    var a := cfg.accBin - 1;
    assert (stalled + 1) * a == stalled * a + a;
    if stalled + 1 >= cfg.ncores { Scales(cfg.ncores, stalled + 1, a); }
  }

  /** Up to the peak, the first core can record any number of accesses that nobody flushes. */
  lemma {:induction false} ReachFilled(cfg: Config, k: nat) returns (s: State, stalled: nat)
    requires cfg.Valid() && cfg.accBin >= 2 && cfg.ncores > 0 && cfg.bins > 0
    requires 0 < k <= Peak(cfg) && k <= 0x1_0000_0000
    ensures Leads(Fresh(cfg), s) && Filled(s, cfg, k, stalled)
  {
    if k == 1 {
      stalled := 0;
      s := ReachDevices(cfg, cfg.accBin - 1);
      s := FirstRecorded(s, cfg);
    } else {
      s, stalled := ReachFilled(cfg, k - 1);
      if Spare(cfg, k - 1, stalled) == cfg.accBin - 1 {
        AnotherIsLeft(cfg, k - 1, stalled);
        s := OneMoreStalls(s, cfg, k - 1, stalled);
        stalled := stalled + 1;
      }
      s := RecordsOneMore(s, cfg, k - 1, stalled);
    }
  }

  // ---- exactness, if and only if ----

  /** In every state of every run of this set-up every bin is exact. */
  ghost predicate AlwaysExact(cfg: Config) {
    forall run: seq<State>, n: nat, c: Cell ::
      IsRun(run) && n < |run| && run[n].cfg == cfg && Sized(run[n]) && InRange(cfg, c) ==>
        Balance(run[n], c) == Accesses(run[n].past.done, c)
  }

  lemma WideWraps(cfg: Config)
    requires cfg.Valid() && cfg.ncores > 0 && cfg.bins > 0 && !Narrow(cfg)
    ensures !AlwaysExact(cfg)
  {
    var k: nat :| k == 0x1_0000_0000;
    assert cfg.accBin >= 2;
    var s, stalled := ReachFilled(cfg, k);
    var p :| Path(p, Fresh(cfg), s);
    assert IsRun(p) && p[|p| - 1] == s;
    assert !BeingCleared(s.vcpus, Bin());
    var last: State := p[|p| - 1];
    assert last == s && last.cfg == cfg && Sized(last) && InRange(cfg, Bin());
    assert Balance(last, Bin()) == 0 && Accesses(last.past.done, Bin()) == k;
  }

  /** The histogram is exact in every run, whatever the interleaving, exactly when the peak of a row
      fits in 32 bits: `ncores * (acc_bin - 1) + 1 < 2^32`. */
  lemma ExactIffNarrow(cfg: Config)
    requires cfg.Valid() && cfg.ncores > 0 && cfg.bins > 0
    ensures AlwaysExact(cfg) <==> Narrow(cfg)
  {
    if Narrow(cfg) {
      forall run: seq<State>, n: nat, c: Cell |
        IsRun(run) && n < |run| && run[n].cfg == cfg && Sized(run[n]) && InRange(cfg, c)
        ensures Balance(run[n], c) == Accesses(run[n].past.done, c)
      {
        HistogramIsExact(run, n, c);
      }
    } else {
      WideWraps(cfg);
    }
  }
}
