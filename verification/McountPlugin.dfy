/** The histogram plugin as the object it is when callbacks do not overlap: rows updated in
    place, and the two nested loops of `flush`. */
module McountPlugin {
  import opened Arithmetic
  import opened Mcount
  import opened McountProofs
  import opened McountSolo

  class Plugin {
    const cfg: Config
    var on: bool
    var open: bool
    var kmaps: seq<seq<nat>>
    var umaps: seq<seq<nat>>
    var accCnt: nat
    var ioCnt: nat
    var report: seq<Printed>
    var summary: seq<(nat, nat)>
    ghost var past: Past

    /** The state of the interleaved protocol this object stands for. */
    ghost function View(): State
      reads this
    {
      State(cfg, on, open, Tables(kmaps, umaps), accCnt, ioCnt, Lock(0, false),
            AllOutside(cfg.ncores), Resting, report, summary, past)
    }

    ghost predicate Valid()
      reads this
    {
      Sized(View()) && SoloInv(View()) && (on ==> open)
    }

    constructor (cfg: Config)
      requires cfg.Valid()
      ensures Valid() && View() == Fresh(cfg)
    {
      this.cfg := cfg;
      on, open := true, true;
      kmaps, umaps := ZeroRows(cfg), ZeroRows(cfg);
      accCnt, ioCnt, report, summary := 0, 0, [], [];
      past := Past([], 0, 0, 0);
      new;
      NothingResident(cfg, View().tables);
    }

    /** The inner loop of `flush`: print and clear row `i`, `maps` being `was` with the rows
        before it cleared. */
    method FlushRow(kernel: bool, i: nat, maps: seq<seq<nat>>, ghost was: seq<seq<nat>>)
      returns (cleared: seq<seq<nat>>)
      requires i < |was| && maps == ClearedTo(was, i, 0)
      modifies this`report
      ensures cleared == ClearedTo(was, i + 1, 0)
      ensures report == old(report) + RowEntries(kernel, i, was[i], |was[i]|)
    {
      cleared := maps;
      for j := 0 to |maps[i]|
        invariant cleared == ClearedTo(was, i, j)
        invariant report == old(report) + RowEntries(kernel, i, was[i], j)
      {
        ClearNext(was, i, j);
        if cleared[i][j] != 0 {
          report := report + [Printed(Cell(kernel, i, j), cleared[i][j])];
        }
        cleared := SetBin(cleared, i, j, 0);
      }
      RowCleared(was, i);
    }

    /** `flush` on one of the two maps: print every non-zero bin in order, and clear every bin. */
    method Flush(kernel: bool, maps: seq<seq<nat>>) returns (cleared: seq<seq<nat>>)
      modifies this`report
      ensures cleared == ClearedTo(maps, |maps|, 0)
      ensures report == old(report) + TableEntries(kernel, maps, |maps|)
    {
      cleared := maps;
      NothingCleared(maps);
      for i := 0 to |maps|
        invariant cleared == ClearedTo(maps, i, 0)
        invariant report == old(report) + TableEntries(kernel, maps, i)
      {
        cleared := FlushRow(kernel, i, cleared, maps);
      }
    }

    method FlushBoth()
      requires Sized(View())
      modifies this`kmaps, this`umaps, this`report
      ensures View() == Flushed(old(View()))
    {
      kmaps := Flush(true, kmaps);
      umaps := Flush(false, umaps);
    }

    /** `hypercall_mcount_cb`, uninterrupted: exactly the one-go step of the protocol, never more
        than `accBin` accesses left in the bins, and no bin wraps. */
    method Callback(core: nat, a: Access)
      requires Valid() && core < cfg.ncores && Fits(cfg, a)
      modifies this
      ensures Valid() && View() == Solo(old(View()), core, a)
      ensures Resident(View().tables) <= cfg.accBin
    {
      SoloKeepsBound(View(), core, a);
      if on {
        Count();
        Record(core, a);
      }
    }

    /** The start of the callback: count the access and flush on every multiple of `accBin`. */
    method Count()
      requires Sized(View())
      modifies this`accCnt, this`past, this`kmaps, this`umaps, this`report
      ensures View() == Base(old(View()))
    {
      accCnt := Wrap64(accCnt + 1);
      past := past.(increments := past.increments + 1);
      if accCnt % cfg.accBin == 0 {
        FlushBoth();
      }
    }

    /** The end of the callback: one more access to a device, or in one bin. */
    method Record(core: nat, a: Access)
      requires Sized(View()) && core < cfg.ncores && Fits(cfg, a)
      modifies this`ioCnt, this`kmaps, this`umaps, this`past
      ensures View() == Recorded(old(View()), core, a)
    {
      if a.io {
        ioCnt := Wrap64(ioCnt + 1);
        past := past.(ios := past.ios + 1);
      } else {
        if a.kernel {
          kmaps := SetBin(kmaps, core, a.bin, Wrap32(kmaps[core][a.bin] + 1));
        } else {
          umaps := SetBin(umaps, core, a.bin, Wrap32(umaps[core][a.bin] + 1));
        }
        past := past.(done := past.done + [Arrival(core, a)]);
      }
    }

    /** `hypercall_mcount_fini`: the mode goes off, an open report gets its summary and is closed;
        what the bins hold is left there. */
    method Fini()
      requires Valid()
      modifies this
      ensures Valid() && !on && !open
      ensures View() == Finished(old(View()))
    {
      on := false;
      if open {
        summary := summary + [(accCnt, ioCnt)];
        open := false;
      }
    }
  }
}
