/** The memory-access histogram of `host/mcount.cc` as a concurrent protocol.

    Every virtual CPU may be inside `hypercall_mcount_cb` at once.  One step of the
    machine is one shared access: the mode test, the atomic increment of the access
    counter, taking or releasing `flush_mtx`, reading a bin, writing a bin, printing a
    bin, clearing a bin.  A controller runs `hypercall_mcount_fini` beside them. */
module Mcount {
  import opened Arithmetic
  import opened Counting

  /** What `hypercall_mcount_init` fixes: the cores, the flush period, the length of a row. */
  datatype Config = Config(ncores: nat, accBin: nat, bins: nat) {
    /** The flush period is a non-zero `uint32_t`. */
    predicate Valid() {
      0 < accBin < 0x1_0000_0000
    }

    /** No more accesses than this ever wait in the bins. */
    function Backlog(): nat {
      (ncores + 1) * accBin + 2 * ncores
    }
  }

  /** The rows have one bin for every `memBin` bytes of memory. */
  function Configure(ncores: nat, accBin: nat, memBin: nat, totalMem: nat): Config
    requires memBin > 0
  {
    Config(ncores, accBin, totalMem / memBin)
  }

  /** One memory access: to a device or to memory, from the kernel or not, and the bin its
      physical address falls in. */
  datatype Access = Access(io: bool, kernel: bool, bin: nat)

  function Locate(memBin: nat, io: bool, kernel: bool, paddr: nat): Access
    requires memBin > 0
  {
    Access(io, kernel, paddr / memBin)
  }

  /** One bin: `kmaps[core][bin]` or `umaps[core][bin]`. */
  datatype Cell = Cell(kernel: bool, core: nat, bin: nat)

  /** Where a virtual CPU is inside `hypercall_mcount_cb`. */
  datatype Pc =
    | Outside
    | Checked(a: Access)                                           // the mode test passed
    | Elected(a: Access)                                           // wants the exclusive lock
    | Rechecking(a: Access)                                        // holds it, before the second test
    | Printing(a: Access, kernel: bool, core: nat, bin: nat)       // flushing, next bin to print
    | Clearing(a: Access, kernel: bool, core: nat, bin: nat)       // that bin printed, not yet zero
    | Recording(a: Access)                                         // wants the shared lock
    | Reading(a: Access)                                           // holds it, before the bin is read
    | Storing(a: Access, seen: nat)                                // the bin read, not yet written

  datatype Controller = Resting | Stopped | Summarising | Releasing

  /** One `bin: count` entry of the report. */
  datatype Printed = Printed(cell: Cell, count: nat)

  /** `kmaps` and `umaps`. */
  datatype Tables = Tables(kernel: seq<seq<nat>>, user: seq<seq<nat>>)

  /** `flush_mtx`: how many hold it shared, and whether one holds it exclusively. */
  datatype Lock = Lock(readers: nat, writer: bool)

  /** A memory access of a core. */
  datatype Arrival = Arrival(core: nat, a: Access)

  /** What happened so far, used only to state what the protocol promises; no step reads it.  `done`
      are the accesses to memory that were recorded, as the guest made them. */
  datatype Past = Past(done: seq<Arrival>, increments: nat, ios: nat, dropped: nat)

  datatype State = State(
    cfg: Config,
    on: bool,
    open: bool,
    tables: Tables,
    accCnt: nat,
    ioCnt: nat,
    lock: Lock,
    vcpus: seq<Pc>,
    controller: Controller,
    report: seq<Printed>,
    summary: seq<(nat, nat)>,
    past: Past)

  // ---- the tables ----

  predicate InRange(cfg: Config, c: Cell) {
    c.core < cfg.ncores && c.bin < cfg.bins
  }

  predicate Shaped(cfg: Config, t: seq<seq<nat>>) {
    |t| == cfg.ncores && forall i :: 0 <= i < |t| ==> |t[i]| == cfg.bins
  }

  predicate TablesShaped(cfg: Config, m: Tables) {
    Shaped(cfg, m.kernel) && Shaped(cfg, m.user)
  }

  predicate Sized(s: State) {
    s.cfg.Valid() && |s.vcpus| == s.cfg.ncores && TablesShaped(s.cfg, s.tables)
  }

  function Get(cfg: Config, m: Tables, c: Cell): nat
    requires TablesShaped(cfg, m) && InRange(cfg, c)
  {
    if c.kernel then m.kernel[c.core][c.bin] else m.user[c.core][c.bin]
  }

  function SetBin(t: seq<seq<nat>>, core: nat, bin: nat, v: nat): seq<seq<nat>>
    requires core < |t| && bin < |t[core]|
  {
    var row: seq<nat> := t[core][bin := v];
    t[core := row]
  }

  function Put(cfg: Config, m: Tables, c: Cell, v: nat): (m': Tables)
    requires TablesShaped(cfg, m) && InRange(cfg, c)
    ensures TablesShaped(cfg, m')
    ensures forall d: Cell :: InRange(cfg, d) ==> Get(cfg, m', d) == if d == c then v else Get(cfg, m, d)
  {
    if c.kernel then m.(kernel := SetBin(m.kernel, c.core, c.bin, v))
    else m.(user := SetBin(m.user, c.core, c.bin, v))
  }

  function At(s: State, c: Cell): nat
    requires Sized(s) && InRange(s.cfg, c)
  {
    Get(s.cfg, s.tables, c)
  }

  function CellOf(core: nat, a: Access): Cell {
    Cell(a.kernel, core, a.bin)
  }

  /** An access to memory by this core, with this privilege, in this bin. */
  predicate IsAt(k: Arrival, c: Cell) {
    !k.a.io && k.core == c.core && k.a.kernel == c.kernel && k.a.bin == c.bin
  }

  function AccessAt(c: Cell): Arrival -> bool {
    (k: Arrival) => IsAt(k, c)
  }

  /** How many of these accesses are to memory, by this core, with this privilege, in this bin. */
  function Accesses(calls: seq<Arrival>, c: Cell): nat {
    Count(AccessAt(c), calls)
  }

  /** An access the plugin can index a bin for. */
  predicate Fits(cfg: Config, a: Access) {
    a.io || a.bin < cfg.bins
  }

  // ---- the machine ----

  datatype Action =
    | Call(core: nat, a: Access)   // an access reaches the callback and tests the mode
    | Advance(core: nat)           // the next step of that core's callback
    | Stop                         // the controller begins hypercall_mcount_fini
    | Control                      // the next step of hypercall_mcount_fini
    | Start(cfg: Config)           // hypercall_mcount_init, with no callback running

  function AllOutside(ncores: nat): seq<Pc> { seq(ncores, _ => Outside) }

  function ZeroRows(cfg: Config): seq<seq<nat>> { seq(cfg.ncores, _ => seq(cfg.bins, _ => 0)) }

  /** The state after `hypercall_mcount_init`. */
  function Fresh(cfg: Config): State
    requires cfg.Valid()
  {
    State(cfg, true, true, Tables(ZeroRows(cfg), ZeroRows(cfg)), 0, 0, Lock(0, false), AllOutside(cfg.ncores),
          Resting, [], [], Past([], 0, 0, 0))
  }

  /** The next bin after (`kernel`, `core`, `bin`) in the order the two `flush` calls visit them. */
  function NextPrint(cfg: Config, a: Access, kernel: bool, core: nat, bin: nat): Pc
  {
    if core >= cfg.ncores && kernel then Printing(a, false, 0, 0)
    else if bin >= cfg.bins then Printing(a, kernel, core + 1, 0)
    else Printing(a, kernel, core, bin + 1)
  }

  predicate Enabled(s: State, act: Action)
    requires Sized(s)
  {
    match act
    case Call(core, a) => core < |s.vcpus| && s.vcpus[core].Outside? && Fits(s.cfg, a)
    case Advance(core) =>
      && core < |s.vcpus|
      && (match s.vcpus[core]
          case Outside => false
          case Elected(_) => s.lock == Lock(0, false)
          case Recording(a) => a.io || !s.lock.writer
          case _ => true)
    case Stop => s.controller.Resting?
    case Control =>
      (match s.controller
       case Resting => false
       case Stopped => s.open ==> !s.lock.writer
       case _ => true)
    case Start(cfg) =>
      cfg.Valid() && s.controller.Resting? && forall i :: 0 <= i < |s.vcpus| ==> s.vcpus[i].Outside?
  }

  /** The pc of every flusher and of every vcpu holding the shared lock indexes the tables. */
  predicate PcsInRange(s: State)
    requires Sized(s)
  {
    forall i :: 0 <= i < |s.vcpus| ==> PcInRange(s.cfg, i, s.vcpus[i])
  }

  predicate PcInRange(cfg: Config, core: nat, pc: Pc)
  {
    match pc
    case Outside => true
    case Printing(a, _, _, _) => Fits(cfg, a)
    case Clearing(a, k, i, j) => Fits(cfg, a) && InRange(cfg, Cell(k, i, j))
    case Reading(a) => core < cfg.ncores && !a.io && InRange(cfg, CellOf(core, a))
    case Storing(a, _) => core < cfg.ncores && !a.io && InRange(cfg, CellOf(core, a))
    case _ => Fits(cfg, pc.a)
  }

  function WithPc(s: State, core: nat, pc: Pc): State
    requires core < |s.vcpus|
  {
    s.(vcpus := s.vcpus[core := pc])
  }

  // One function for each step of `hypercall_mcount_cb` on `core`.

  function CountAccess(s: State, core: nat): State
    requires Sized(s) && core < |s.vcpus| && s.vcpus[core].Checked?
  {
    var a, n := s.vcpus[core].a, Wrap64(s.accCnt + 1);
    var counted := s.(accCnt := n, past := s.past.(increments := s.past.increments + 1));
    WithPc(counted, core, if n % s.cfg.accBin == 0 then Elected(a) else Recording(a))
  }

  function TakeExclusive(s: State, core: nat): State
    requires core < |s.vcpus| && s.vcpus[core].Elected?
  {
    WithPc(s.(lock := Lock(0, true)), core, Rechecking(s.vcpus[core].a))
  }

  function Recheck(s: State, core: nat): State
    requires core < |s.vcpus| && s.vcpus[core].Rechecking?
  {
    if s.on then WithPc(s, core, Printing(s.vcpus[core].a, true, 0, 0))
    else WithPc(s.(lock := Lock(0, false), past := s.past.(dropped := s.past.dropped + 1)), core, Outside)
  }

  function PrintBin(s: State, core: nat): State
    requires Sized(s) && core < |s.vcpus| && s.vcpus[core].Printing?
  {
    var Printing(a, k, i, j) := s.vcpus[core];
    if InRange(s.cfg, Cell(k, i, j)) then
      var n := At(s, Cell(k, i, j));
      var printed := if n != 0 then s.report + [Printed(Cell(k, i, j), n)] else s.report;
      WithPc(s.(report := printed), core, Clearing(a, k, i, j))
    else if i >= s.cfg.ncores && !k then WithPc(s.(lock := Lock(0, false)), core, Recording(a))
    else WithPc(s, core, NextPrint(s.cfg, a, k, i, j))
  }

  function ClearBin(s: State, core: nat): State
    requires Sized(s) && PcsInRange(s) && core < |s.vcpus| && s.vcpus[core].Clearing?
  {
    var Clearing(a, k, i, j) := s.vcpus[core];
    WithPc(s.(tables := Put(s.cfg, s.tables, Cell(k, i, j), 0)), core, NextPrint(s.cfg, a, k, i, j))
  }

  function Record(s: State, core: nat): State
    requires core < |s.vcpus| && s.vcpus[core].Recording?
  {
    var a := s.vcpus[core].a;
    if a.io then WithPc(s.(ioCnt := Wrap64(s.ioCnt + 1), past := s.past.(ios := s.past.ios + 1)), core, Outside)
    else WithPc(s.(lock := s.lock.(readers := s.lock.readers + 1)), core, Reading(a))
  }

  function ReadBin(s: State, core: nat): State
    requires Sized(s) && PcsInRange(s) && core < |s.vcpus| && s.vcpus[core].Reading?
  {
    var a := s.vcpus[core].a;
    WithPc(s, core, Storing(a, At(s, CellOf(core, a))))
  }

  function LeaveShared(l: Lock): Lock {
    l.(readers := if l.readers > 0 then l.readers - 1 else 0)
  }

  function StoreBin(s: State, core: nat): State
    requires Sized(s) && PcsInRange(s) && core < |s.vcpus| && s.vcpus[core].Storing?
  {
    var Storing(a, seen) := s.vcpus[core];
    var c := CellOf(core, a);
    WithPc(s.(tables := Put(s.cfg, s.tables, c, Wrap32(seen + 1)), lock := LeaveShared(s.lock),
              past := s.past.(done := s.past.done + [Arrival(core, a)])),
           core, Outside)
  }

  function Tick(s: State, core: nat): State
    requires Sized(s) && PcsInRange(s) && core < |s.vcpus|
  {
    match s.vcpus[core]
    case Outside => s
    case Checked(_) => CountAccess(s, core)
    case Elected(_) => TakeExclusive(s, core)
    case Rechecking(_) => Recheck(s, core)
    case Printing(_, _, _, _) => PrintBin(s, core)
    case Clearing(_, _, _, _) => ClearBin(s, core)
    case Recording(_) => Record(s, core)
    case Reading(_) => ReadBin(s, core)
    case Storing(_, _) => StoreBin(s, core)
  }

  /** One step of `hypercall_mcount_fini`. */
  function ControlTick(s: State): State {
    match s.controller
    case Resting => s
    case Stopped =>
      if s.open then s.(lock := s.lock.(readers := s.lock.readers + 1), controller := Summarising)
      else s.(controller := Resting)
    case Summarising =>
      s.(summary := s.summary + [(s.accCnt, s.ioCnt)], open := false, controller := Releasing)
    case Releasing => s.(lock := LeaveShared(s.lock), controller := Resting)
  }

  function Next(s: State, act: Action): State
    requires Sized(s) && PcsInRange(s) && Enabled(s, act)
  {
    match act
    case Call(core, a) => if s.on then WithPc(s, core, Checked(a)) else s
    case Advance(core) => Tick(s, core)
    case Stop => s.(on := false, controller := Stopped)
    case Control => ControlTick(s)
    case Start(cfg) => Fresh(cfg)
  }

  ghost predicate Steps(s: State, s': State) {
    Sized(s) && PcsInRange(s) && exists act :: Enabled(s, act) && s' == Next(s, act)
  }

  /** A run: it begins after `init` and every state follows from the one before. */
  ghost predicate IsRun(run: seq<State>) {
    && |run| > 0
    && (exists cfg: Config :: cfg.Valid() && run[0] == Fresh(cfg))
    && forall i :: 0 < i < |run| ==> Steps(run[i - 1], run[i])
  }
}
