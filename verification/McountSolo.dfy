/** One callback that nothing interrupts: what it does in one go, why that is a run of the
    interleaved protocol, and the tighter bound that holds when all callbacks run this way. */
module McountSolo {
  import opened Arithmetic
  import opened Counting
  import opened Mcount
  import opened McountProofs
  import opened McountRows

  // ---- what the flush loops print and clear ----

  /** The entries of the first `j` bins of a row. */
  function RowEntries(kernel: bool, core: nat, row: seq<nat>, j: nat): seq<Printed>
    requires j <= |row|
  {
    if j == 0 then []
    else
      RowEntries(kernel, core, row, j - 1)
      + if row[j - 1] != 0 then [Printed(Cell(kernel, core, j - 1), row[j - 1])] else []
  }

  /** The entries of the first `i` rows of a table. */
  function TableEntries(kernel: bool, t: seq<seq<nat>>, i: nat): seq<Printed>
    requires i <= |t|
  {
    if i == 0 then [] else TableEntries(kernel, t, i - 1) + RowEntries(kernel, i - 1, t[i - 1], |t[i - 1]|)
  }

  /** `t` with the first `i` rows and the first `j` bins of row `i` cleared. */
  function ClearedTo(t: seq<seq<nat>>, i: nat, j: nat): (r: seq<seq<nat>>)
    ensures |r| == |t| && forall x :: 0 <= x < |t| ==> |r[x]| == |t[x]|
  {
    seq(|t|, x requires 0 <= x < |t| =>
      seq(|t[x]|, y requires 0 <= y < |t[x]| => if x < i || (x == i && y < j) then 0 else t[x][y]))
  }

  lemma ClearNext(t: seq<seq<nat>>, i: nat, j: nat)
    requires i < |t| && j < |t[i]|
    ensures SetBin(ClearedTo(t, i, j), i, j, 0) == ClearedTo(t, i, j + 1)
    ensures ClearedTo(t, i, j)[i][j] == t[i][j]
  {
    var a, b := SetBin(ClearedTo(t, i, j), i, j, 0), ClearedTo(t, i, j + 1);
    forall x | 0 <= x < |t| ensures a[x] == b[x] {
    }
  }

  lemma RowCleared(t: seq<seq<nat>>, i: nat)
    requires i < |t|
    ensures ClearedTo(t, i, |t[i]|) == ClearedTo(t, i + 1, 0)
  {
    var a, b := ClearedTo(t, i, |t[i]|), ClearedTo(t, i + 1, 0);
    forall x | 0 <= x < |t| ensures a[x] == b[x] {
    }
  }

  lemma NothingCleared(t: seq<seq<nat>>)
    ensures ClearedTo(t, 0, 0) == t
  {
    forall x | 0 <= x < |t| ensures ClearedTo(t, 0, 0)[x] == t[x] {
    }
  }

  lemma AllCleared(t: seq<seq<nat>>)
    ensures Sum(RowTotal, ClearedTo(t, |t|, 0)) == 0
  {
    ZeroTable(ClearedTo(t, |t|, 0));
  }

  // ---- a callback that runs alone ----

  /** The tables and the report after both flushes. */
  function Flushed(s: State): State {
    var m := s.tables;
    s.(tables := Tables(ClearedTo(m.kernel, |m.kernel|, 0), ClearedTo(m.user, |m.user|, 0)),
       report := s.report + TableEntries(true, m.kernel, |m.kernel|) + TableEntries(false, m.user, |m.user|))
  }

  function Elects(s: State): bool
    requires s.cfg.Valid()
  {
    Wrap64(s.accCnt + 1) % s.cfg.accBin == 0
  }

  function Recorded(s: State, core: nat, a: Access): State
    requires Sized(s) && core < s.cfg.ncores && Fits(s.cfg, a)
  {
    if a.io then s.(ioCnt := Wrap64(s.ioCnt + 1), past := s.past.(ios := s.past.ios + 1))
    else
      var c := CellOf(core, a);
      s.(tables := Put(s.cfg, s.tables, c, Wrap32(At(s, c) + 1)),
         past := s.past.(done := s.past.done + [Arrival(core, a)]))
  }

  function Tallied(s: State): State {
    s.(accCnt := Wrap64(s.accCnt + 1), past := s.past.(increments := s.past.increments + 1))
  }

  /** The tables a lone callback records in: as they were, or cleared if it is the flusher. */
  function Base(s: State): State
    requires s.cfg.Valid()
  {
    if Elects(s) then Flushed(Tallied(s)) else Tallied(s)
  }

  /** `hypercall_mcount_cb` in one go. */
  function Solo(s: State, core: nat, a: Access): State
    requires Sized(s) && core < s.cfg.ncores && Fits(s.cfg, a)
  {
    if !s.on then s
    else
      Recorded(Base(s), core, a)
  }

  // ---- the bound when callbacks run one at a time ----

  predicate Quiet(s: State) {
    && s.lock == Lock(0, false) && s.controller.Resting?
    && forall i :: 0 <= i < |s.vcpus| ==> s.vcpus[i].Outside?
  }

  /** No more waits in the bins than accesses since the last multiple of `accBin`, and one. */
  ghost predicate SoloInv(s: State)
    requires Sized(s)
  {
    && s.accCnt < 0x1_0000_0000_0000_0000
    && Resident(s.tables) <= Phase(s) + 1
  }

  lemma BaseLoad(s: State)
    requires Sized(s) && SoloInv(s)
    ensures Sized(Base(s)) && Resident(Base(s).tables) <= Phase(Base(s))
    ensures Base(s).accCnt < 0x1_0000_0000_0000_0000
  {
    NextPhase(s.accCnt, s.cfg.accBin);
    if Elects(s) {
      AllCleared(s.tables.kernel);
      AllCleared(s.tables.user);
    }
  }

  lemma RecordedLoad(s: State, core: nat, a: Access)
    requires Sized(s) && core < s.cfg.ncores && Fits(s.cfg, a) && Resident(s.tables) + 1 < 0x1_0000_0000
    ensures Sized(Recorded(s, core, a)) && Resident(Recorded(s, core, a).tables) <= Resident(s.tables) + 1
    ensures !a.io ==> At(Recorded(s, core, a), CellOf(core, a)) == At(s, CellOf(core, a)) + 1
  {
    if !a.io {
      var c := CellOf(core, a);
      ResidentBoundsCell(s.cfg, s.tables, c);
      PutResident(s.cfg, s.tables, c, Wrap32(At(s, c) + 1));
    }
  }

  /** Callbacks that run one at a time never leave more than `accBin` in the bins, so a
      `uint32_t` bin never wraps: every recorded access adds exactly one. */
  lemma SoloKeepsBound(s: State, core: nat, a: Access)
    requires Sized(s) && SoloInv(s) && core < s.cfg.ncores && Fits(s.cfg, a)
    ensures Sized(Solo(s, core, a)) && SoloInv(Solo(s, core, a))
    ensures Resident(Solo(s, core, a).tables) <= s.cfg.accBin
    ensures s.on && !a.io ==>
              Sized(Base(s)) && At(Solo(s, core, a), CellOf(core, a)) == At(Base(s), CellOf(core, a)) + 1
  {
    if s.on {
      BaseLoad(s);
      RecordedLoad(Base(s), core, a);
    }
  }


  // ---- a lone callback is a run of the protocol ----

  ghost predicate Path(p: seq<State>, s: State, s': State) {
    && |p| > 0 && p[0] == s && p[|p| - 1] == s'
    && forall i :: 0 < i < |p| ==> Steps(p[i - 1], p[i])
  }

  ghost predicate Leads(s: State, s': State) {
    exists p :: Path(p, s, s')
  }

  lemma LeadsHere(s: State)
    ensures Leads(s, s)
  {
    assert Path([s], s, s);
  }

  lemma LeadsOn(s: State, m: State, act: Action)
    requires Leads(s, m) && Sized(m) && PcsInRange(m) && Enabled(m, act)
    ensures Leads(s, Next(m, act))
  {
    var p :| Path(p, s, m);
    var q := p + [Next(m, act)];
    forall i | 0 < i < |q| ensures Steps(q[i - 1], q[i]) {
      if i < |p| {
        assert Steps(p[i - 1], p[i]);
      }
    }
    assert Path(q, s, Next(m, act));
  }

  /** What a flush has printed of `t` when it stands at row `i`, bin `j`. */
  function EntriesTo(kernel: bool, t: seq<seq<nat>>, i: nat, j: nat): seq<Printed>
    requires i <= |t| && (i < |t| ==> j <= |t[i]|)
  {
    TableEntries(kernel, t, i) + if i < |t| then RowEntries(kernel, i, t[i], j) else []
  }

  predicate Position(cfg: Config, i: nat, j: nat) {
    i <= cfg.ncores && j <= (if i < cfg.ncores then cfg.bins else 0)
  }

  /** A lone flusher that started from `s` and stands at (`kernel`, `i`, `j`). */
  function Midway(s: State, core: nat, a: Access, kernel: bool, i: nat, j: nat): State
    requires Sized(s) && core < |s.vcpus| && Position(s.cfg, i, j)
  {
    var m, n := s.tables, s.cfg.ncores;
    var mid := if kernel
      then s.(tables := m.(kernel := ClearedTo(m.kernel, i, j)), report := s.report + EntriesTo(true, m.kernel, i, j))
      else s.(tables := Tables(ClearedTo(m.kernel, n, 0), ClearedTo(m.user, i, j)),
              report := s.report + TableEntries(true, m.kernel, n) + EntriesTo(false, m.user, i, j));
    WithPc(mid.(lock := Lock(0, true)), core, Printing(a, kernel, i, j))
  }

  /** Nothing runs beside `core`: the others are outside, or wait for the lock and are not let run. */
  ghost predicate LoneFlusher(s: State, core: nat, a: Access) {
    && Sized(s) && core < |s.vcpus| && Fits(s.cfg, a)
    && forall i :: 0 <= i < |s.vcpus| && i != core ==> Parked(s.cfg, s.vcpus[i])
  }

  predicate Parked(cfg: Config, pc: Pc) { pc.Outside? || (pc.Elected? && Fits(cfg, pc.a)) }

  lemma MidwayIsWellFormed(s: State, core: nat, a: Access, kernel: bool, i: nat, j: nat)
    requires LoneFlusher(s, core, a) && Position(s.cfg, i, j)
    ensures Sized(Midway(s, core, a, kernel, i, j)) && PcsInRange(Midway(s, core, a, kernel, i, j))
    ensures Enabled(Midway(s, core, a, kernel, i, j), Advance(core))
  {
  }

  /** Printing and clearing one bin moves the flusher one bin on. */
  lemma FlushOneBin(s: State, core: nat, a: Access, kernel: bool, i: nat, j: nat)
    requires LoneFlusher(s, core, a) && i < s.cfg.ncores && j < s.cfg.bins
    requires var m := Midway(s, core, a, kernel, i, j);
             Sized(m) && PcsInRange(m) && m.vcpus[core] == Printing(a, kernel, i, j)
    ensures var p := PrintBin(Midway(s, core, a, kernel, i, j), core);
            && Sized(p) && PcsInRange(p) && p.vcpus[core].Clearing?
            && ClearBin(p, core) == Midway(s, core, a, kernel, i, j + 1)
  {
    var m := Midway(s, core, a, kernel, i, j);
    ClearNext(if kernel then s.tables.kernel else s.tables.user, i, j);
    FlushOneEntry(s, core, a, kernel, i, j);
    var p := PrintBin(m, core);
    assert p.vcpus == m.vcpus[core := Clearing(a, kernel, i, j)];
    assert ClearBin(p, core).vcpus == Midway(s, core, a, kernel, i, j + 1).vcpus;
  }

  lemma EntriesNext(kernel: bool, t: seq<seq<nat>>, i: nat, j: nat, before: seq<Printed>)
    requires i < |t| && j < |t[i]|
    ensures before + EntriesTo(kernel, t, i, j + 1)
         == before + EntriesTo(kernel, t, i, j) + if t[i][j] != 0 then [Printed(Cell(kernel, i, j), t[i][j])] else []
  {
  }

  lemma FlushOneEntry(s: State, core: nat, a: Access, kernel: bool, i: nat, j: nat)
    requires LoneFlusher(s, core, a) && i < s.cfg.ncores && j < s.cfg.bins
    requires var m := Midway(s, core, a, kernel, i, j);
             Sized(m) && m.vcpus[core] == Printing(a, kernel, i, j)
    ensures PrintBin(Midway(s, core, a, kernel, i, j), core).report == Midway(s, core, a, kernel, i, j + 1).report
  {
    var k, n := s.tables.kernel, s.cfg.ncores;
    var t := if kernel then k else s.tables.user;
    var before := if kernel then s.report else s.report + TableEntries(true, k, n);
    EntriesNext(kernel, t, i, j, before);
    ClearNext(t, i, j);
    var m := Midway(s, core, a, kernel, i, j);
    assert At(m, Cell(kernel, i, j)) == t[i][j];
  }

  /** At the end of a row the flusher moves to the next one. */
  lemma FlushNextRow(s: State, core: nat, a: Access, kernel: bool, i: nat)
    requires LoneFlusher(s, core, a) && i < s.cfg.ncores
    ensures var m := Midway(s, core, a, kernel, i, s.cfg.bins);
            Sized(m) && PrintBin(m, core) == Midway(s, core, a, kernel, i + 1, 0)
  {
    MidwayIsWellFormed(s, core, a, kernel, i, s.cfg.bins);
    var t := if kernel then s.tables.kernel else s.tables.user;
    RowCleared(t, i);
    assert EntriesTo(kernel, t, i, s.cfg.bins) == EntriesTo(kernel, t, i + 1, 0);
    assert PrintBin(Midway(s, core, a, kernel, i, s.cfg.bins), core).vcpus
        == Midway(s, core, a, kernel, i + 1, 0).vcpus;
  }

  /** After the last kernel row the flusher turns to the user rows. */
  lemma FlushNextTable(s: State, core: nat, a: Access)
    requires LoneFlusher(s, core, a)
    ensures var m := Midway(s, core, a, true, s.cfg.ncores, 0);
            Sized(m) && PrintBin(m, core) == Midway(s, core, a, false, 0, 0)
  {
    var n := s.cfg.ncores;
    MidwayIsWellFormed(s, core, a, true, n, 0);
    NothingCleared(s.tables.user);
    assert EntriesTo(true, s.tables.kernel, n, 0) == TableEntries(true, s.tables.kernel, n);
    assert EntriesTo(false, s.tables.user, 0, 0) == [];
    assert PrintBin(Midway(s, core, a, true, n, 0), core).vcpus == Midway(s, core, a, false, 0, 0).vcpus;
  }

  /** From `start` some run leads the lone flusher here. */
  ghost predicate Gets(start: State, s: State, core: nat, a: Access, kernel: bool, i: nat, j: nat)
    requires Sized(s) && core < |s.vcpus|
  {
    Position(s.cfg, i, j) && Leads(start, Midway(s, core, a, kernel, i, j))
  }

  lemma ReachBin(start: State, s: State, core: nat, a: Access, kernel: bool, i: nat, j: nat)
    requires LoneFlusher(s, core, a) && i < s.cfg.ncores && j < s.cfg.bins
    requires Gets(start, s, core, a, kernel, i, j)
    ensures Gets(start, s, core, a, kernel, i, j + 1)
  {
    var m := Midway(s, core, a, kernel, i, j);
    MidwayIsWellFormed(s, core, a, kernel, i, j);
    FlushOneBin(s, core, a, kernel, i, j);
    LeadsOn(start, m, Advance(core));
    LeadsOn(start, PrintBin(m, core), Advance(core));
  }

  lemma ReachRow(start: State, s: State, core: nat, a: Access, kernel: bool, i: nat)
    requires LoneFlusher(s, core, a) && i < s.cfg.ncores
    requires Gets(start, s, core, a, kernel, i, s.cfg.bins)
    ensures Gets(start, s, core, a, kernel, i + 1, 0)
  {
    MidwayIsWellFormed(s, core, a, kernel, i, s.cfg.bins);
    FlushNextRow(s, core, a, kernel, i);
    LeadsOn(start, Midway(s, core, a, kernel, i, s.cfg.bins), Advance(core));
  }

  lemma ReachTable(start: State, s: State, core: nat, a: Access)
    requires LoneFlusher(s, core, a) && Gets(start, s, core, a, true, s.cfg.ncores, 0)
    ensures Gets(start, s, core, a, false, 0, 0)
  {
    MidwayIsWellFormed(s, core, a, true, s.cfg.ncores, 0);
    FlushNextTable(s, core, a);
    LeadsOn(start, Midway(s, core, a, true, s.cfg.ncores, 0), Advance(core));
  }

  /** The bins of a row, one after the other. */
  lemma {:induction false} RowReaches(start: State, s: State, core: nat, a: Access, kernel: bool, i: nat, j: nat)
    requires LoneFlusher(s, core, a) && i < s.cfg.ncores && j <= s.cfg.bins && Gets(start, s, core, a, kernel, i, 0)
    ensures Gets(start, s, core, a, kernel, i, j)
    decreases j
  {
    if j > 0 {
      var before: nat := j - 1;
      RowReaches(start, s, core, a, kernel, i, before);
      ReachBin(start, s, core, a, kernel, i, before);
      assert before + 1 == j;
    }
  }

  lemma ReachNextRow(start: State, s: State, core: nat, a: Access, kernel: bool, i: nat)
    requires LoneFlusher(s, core, a) && i < s.cfg.ncores && Gets(start, s, core, a, kernel, i, 0)
    ensures Gets(start, s, core, a, kernel, i + 1, 0)
  {
    RowReaches(start, s, core, a, kernel, i, s.cfg.bins);
    ReachRow(start, s, core, a, kernel, i);
  }

  lemma {:induction false} TableReaches(start: State, s: State, core: nat, a: Access, kernel: bool, i: nat)
    requires LoneFlusher(s, core, a) && i <= s.cfg.ncores && Gets(start, s, core, a, kernel, 0, 0)
    ensures Gets(start, s, core, a, kernel, i, 0)
  {
    if i > 0 {
      TableReaches(start, s, core, a, kernel, i - 1);
      ReachNextRow(start, s, core, a, kernel, i - 1);
    }
  }

  /** The flusher reaches every position. */
  lemma FlushReaches(start: State, s: State, core: nat, a: Access, kernel: bool, i: nat, j: nat)
    requires LoneFlusher(s, core, a) && Position(s.cfg, i, j)
    requires Gets(start, s, core, a, true, 0, 0)
    ensures Gets(start, s, core, a, kernel, i, j)
  {
    if !kernel {
      TableReaches(start, s, core, a, true, s.cfg.ncores);
      ReachTable(start, s, core, a);
    }
    TableReaches(start, s, core, a, kernel, i);
    if j > 0 { RowReaches(start, s, core, a, kernel, i, j); }
  }

  /** An elected vcpu that nothing interrupts flushes both tables. */
  lemma ElectedFlushes(start: State, s: State, core: nat, a: Access)
    requires LoneFlusher(s, core, a) && s.on && s.lock == Lock(0, false)
    requires Leads(start, WithPc(s, core, Elected(a)))
    ensures Leads(start, WithPc(Flushed(s), core, Recording(a)))
  {
    var e := WithPc(s, core, Elected(a));
    LeadsOn(start, e, Advance(core));
    var r := TakeExclusive(e, core);
    LeadsOn(start, r, Advance(core));
    NothingCleared(s.tables.kernel);
    var first := Midway(s, core, a, true, 0, 0);
    assert EntriesTo(true, s.tables.kernel, 0, 0) == [];
    assert Recheck(r, core).vcpus == first.vcpus;
    assert Recheck(r, core) == first;
    FlushReaches(start, s, core, a, false, s.cfg.ncores, 0);
    FlushEnds(start, s, core, a);
  }

  lemma FlushEnds(start: State, s: State, core: nat, a: Access)
    requires LoneFlusher(s, core, a) && s.lock == Lock(0, false)
    requires Leads(start, Midway(s, core, a, false, s.cfg.ncores, 0))
    ensures Leads(start, WithPc(Flushed(s), core, Recording(a)))
  {
    var n := s.cfg.ncores;
    var last := Midway(s, core, a, false, n, 0);
    MidwayIsWellFormed(s, core, a, false, n, 0);
    LeadsOn(start, last, Advance(core));
    assert EntriesTo(false, s.tables.user, n, 0) == TableEntries(false, s.tables.user, n);
    assert PrintBin(last, core).vcpus == WithPc(Flushed(s), core, Recording(a)).vcpus;
    assert PrintBin(last, core) == WithPc(Flushed(s), core, Recording(a));
  }

  /** A vcpu that nothing interrupts records its access. */
  lemma RecordingRecords(start: State, s: State, core: nat, a: Access)
    requires LoneFlusher(s, core, a) && s.vcpus[core].Outside? && s.lock == Lock(0, false)
    requires Leads(start, WithPc(s, core, Recording(a)))
    ensures Leads(start, Recorded(s, core, a))
  {
    var r := WithPc(s, core, Recording(a));
    LeadsOn(start, r, Advance(core));
    if a.io {
      assert Record(r, core).vcpus == s.vcpus;
    } else {
      assert Record(r, core).vcpus == s.vcpus[core := Reading(a)];
      ReadingRecords(start, s, core, a);
    }
  }

  lemma ReadingRecords(start: State, s: State, core: nat, a: Access)
    requires LoneFlusher(s, core, a) && s.vcpus[core].Outside? && s.lock == Lock(0, false) && !a.io
    requires Leads(start, WithPc(s.(lock := Lock(1, false)), core, Reading(a)))
    ensures Leads(start, Recorded(s, core, a))
  {
    var x := WithPc(s.(lock := Lock(1, false)), core, Reading(a));
    LeadsOn(start, x, Advance(core));
    var y := ReadBin(x, core);
    assert y.vcpus[core] == Storing(a, At(s, CellOf(core, a)));
    LeadsOn(start, y, Advance(core));
    assert StoreBin(y, core).vcpus == s.vcpus;
    assert StoreBin(y, core) == Recorded(s, core, a);
  }

  /** The one-go callback is faithful: the interleaved protocol can do exactly that, by letting no
      other vcpu run, wherever the others are parked. */
  lemma LoneIsARun(s: State, core: nat, a: Access)
    requires LoneFlusher(s, core, a) && s.vcpus[core].Outside? && s.lock == Lock(0, false)
    ensures Leads(s, Solo(s, core, a))
  {
    LeadsHere(s);
    if s.on {
      LeadsOn(s, s, Call(core, a));
      var c := WithPc(s, core, Checked(a));
      LeadsOn(s, c, Advance(core));
      var counted := Tallied(s);
      if Elects(s) {
        assert CountAccess(c, core) == WithPc(counted, core, Elected(a));
        ElectedFlushes(s, counted, core, a);
        RecordingRecords(s, Flushed(counted), core, a);
      } else {
        assert CountAccess(c, core) == WithPc(counted, core, Recording(a));
        RecordingRecords(s, counted, core, a);
      }
    }
  }

  /** `hypercall_mcount_fini` in one go. */
  function Finished(s: State): State {
    s.(on := false, open := false, summary := if s.open then s.summary + [(s.accCnt, s.ioCnt)] else s.summary)
  }

  /** It is faithful too: the controller's steps, with nothing in between. */
  lemma FiniIsARun(s: State)
    requires Sized(s) && PcsInRange(s) && Quiet(s)
    ensures Leads(s, Finished(s))
  {
    LeadsHere(s);
    LeadsOn(s, s, Stop);
    var s1 := Next(s, Stop);
    LeadsOn(s, s1, Control);
    if s.open {
      var s2 := ControlTick(s1);
      LeadsOn(s, s2, Control);
      LeadsOn(s, ControlTick(s2), Control);
      assert ControlTick(ControlTick(s2)) == Finished(s);
    } else {
      assert ControlTick(s1) == Finished(s);
    }
  }
}
