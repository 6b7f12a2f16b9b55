/** The trace recorder of `host/trace`: guest translation blocks, the callbacks that
    `vcpu_tb_trans_cb` attaches to them, and what each callback does to one virtual CPU's
    record and to its event stream.

    The page directory, the privilege, and the globals `roi_cr3`, `magic` and `current_mode`
    are inputs to every callback. */
module Trace {
  import opened Arithmetic

  type Word = nat

  const FLOW_CONTROL: nat := 1000
  const FLOW_CONTROL_FF: nat := 100000

  datatype Mode = Icount | Memory | Detailed

  /** What a callback can read besides the vcpu's own record. */
  datatype Env = Env(inKernel: bool, pgd: Word, roiCr3: Word, magic: Word, mode: Mode) {
    /** `in_roi`. */
    predicate InRoi() {
      roiCr3 == 0 || (!inKernel && pgd == roiCr3)
    }

    /** The page directory is the one under study. */
    predicate Studied() {
      pgd == roiCr3
    }

    function CachePgd(): Word {
      if inKernel then 0 else pgd
    }
  }

  // ---- the guest ----

  datatype Insn = Insn(vaddr: Word, next: Word, ram: Word, cmpxchg: bool)

  /** The second page of a block that crosses a page boundary. */
  datatype SecondPage = OnePage | SecondPage(vaddr: Word, ram: Word, host: Word)

  datatype Block = Block(
    vaddr: Word,
    nextPc: Word,
    insns: seq<Insn>,
    branch: bool,
    pause: bool,
    ram: Word,
    host: Word,
    second: SecondPage)
  {
    /** A translated block has at least one instruction. */
    predicate Valid() { |insns| > 0 }

    function Last(): Insn
      requires Valid()
    {
      insns[|insns| - 1]
    }
  }

  datatype MemOp = MemOp(store: bool, vaddr: Word, paddr: Word)

  // ---- the event stream ----

  datatype Kind = MemRead | MemWrite | BranchTaken | BranchNotTaken

  /** A `Sync` paces the detailed mode, or drains `icount_reported` in the cache-only mode.
      The stream itself does not tell the two apart; `amount` is what was drained. */
  datatype Why = Pace | Drain(amount: nat)

  datatype Command =
    | ModeMagic(mode: Mode)
    | Gmm(op: nat, segment: Word, arg: Word)
    | Message(kind: nat, payload1: Word, payload2: Word)
    | End

  datatype Event =
    | InstructionCount(count: nat)
    | CacheOnly(count: nat, kind: Kind, pc: Word, addr: Word)
    | Translate(vaddr: Word, paddr: Word)
    | Sync(why: Why)
    | InstructionBegin(pc: Word, length: Word)
    | InstructionEnd
    | InstructionAbort
    | InstructionMem(vaddr: Word)
    | InstructionBranch(taken: bool)
    | VCPUIdle
    | VCPUResume
    | SendICache(vaddr: Word, host: Word, pgd: Word)
    | FlushICache(pgd: Word)
    | Control(command: Command)

  // ---- the record of one vcpu ----

  datatype Branch = Branch(addr: Word, target: Word, fallthrough: Word)

  datatype Counters = Counters(
    icount: nat,
    cacheonly: nat,
    pending: nat,
    detailed: nat,
    reported: nat,
    loads: nat,
    stores: nat,
    user: nat,
    other: nat)

  /** `thread_data_t` together with the vcpu's row of `block_cnt` and its output.  `sound` is
      false once an assertion of the source has failed. */
  datatype Vcpu = Vcpu(
    pc: Word,
    tbVaddr1: Word,
    tbVaddr2: Word,
    br: Branch,
    n: Counters,
    target: nat,
    idle: bool,
    capturing: bool,
    sound: bool,
    blocks: map<Word, nat>,
    output: seq<Event>)

  /** After `thread_data_reset`. */
  const NO_COUNTERS := Counters(0, 0, 0, 0, 0, 0, 0, 0, 0)
  const STARTED := Vcpu(0, 0, 0, Branch(0, 0, 0), NO_COUNTERS, 0, true, false, true, map[], [])

  function Emit(s: Vcpu, es: seq<Event>): Vcpu {
    s.(output := s.output + es)
  }

  // ---- the callbacks ----

  datatype Callback =
    | HotBlocks(vaddr: Word)
    | CountInsns(n: nat)
    | CountInsn
    | BranchAt(vaddr: Word)
    | BranchRam(ram: Word)
    | MemUpdatePc(vaddr: Word)
    | MemSendCacheonly(ram: Word)
    | UpdateTarget(vaddr: Word)
    | UpdateFallthrough(pc: Word)
    | BranchCacheonly(ram: Word)
    | BranchDetailed
    | Itlb1(ram: Word)
    | Vaddr2(vaddr: Word)
    | Itlb2(ram: Word)
    | SendICache1(host: Word)
    | SendICache2(host: Word)
    | UpdatePc(vaddr: Word)
    | InsnItlb(ram: Word)
    | PcNext(next: Word)
    | MemSendDetailed
    | Cmpxchg
    | Pause

  function DoHotBlocks(s: Vcpu, env: Env, vaddr: Word): Vcpu {
    if env.Studied() then s.(blocks := s.blocks[vaddr := (if vaddr in s.blocks then s.blocks[vaddr] else 0) + 1])
    else s
  }

  function DoCountInsns(s: Vcpu, n: nat): Vcpu {
    var reported := s.n.reported + n;
    var s1 := s.(n := s.n.(icount := s.n.icount + n, reported := reported));
    if reported > FLOW_CONTROL_FF then Emit(s1.(n := s1.n.(reported := 0)), [InstructionCount(reported)]) else s1
  }

  function DoCountInsn(s: Vcpu): Vcpu {
    s.(n := s.n.(pending := s.n.pending + 1))
  }

  /** A paced `Sync`: the next one is due `FlowControl` instructions from here. */
  function PaceHere(s: Vcpu): Vcpu {
    Emit(s.(target := s.n.detailed + FLOW_CONTROL), [Sync(Pace)])
  }

  function DoPause(s: Vcpu): Vcpu {
    if s.idle then s else PaceHere(s)
  }

  function DoCmpxchg(s: Vcpu): Vcpu {
    if s.idle || s.capturing then s else PaceHere(s)
  }

  /** Moves the pending instructions to the reported ones. */
  function Settle(s: Vcpu): Vcpu {
    s.(n := s.n.(cacheonly := s.n.cacheonly + s.n.pending, reported := s.n.reported + s.n.pending, pending := 0))
  }

  function DrainIfDue(s: Vcpu): Vcpu {
    if s.n.reported > FLOW_CONTROL_FF then Emit(s.(n := s.n.(reported := 0)), [Sync(Drain(s.n.reported))]) else s
  }

  function DoMemSendCacheonly(s: Vcpu, op: MemOp, ram: Word): Vcpu {
    var kind := if op.store then MemWrite else MemRead;
    var s1 := Emit(s, [Translate(op.vaddr, op.paddr)]);
    var s2 := if s.n.pending != 0 then Settle(Emit(s1, [Translate(s.pc, ram)])) else s1;
    DrainIfDue(Emit(s2, [CacheOnly(s.n.pending, kind, s.pc, op.vaddr)]))
  }

  function DoBranchCacheonly(s: Vcpu, ram: Word): Vcpu {
    if s.br.addr == 0 then s
    else
      var kind := if s.br.target == s.br.fallthrough then BranchNotTaken else BranchTaken;
      var s1 := s.(sound := s.sound && s.br.fallthrough != 0, br := s.br.(addr := 0, fallthrough := 0));
      DrainIfDue(Settle(Emit(s1, [Translate(s.br.target, ram), CacheOnly(s.n.pending, kind, s.br.addr, s.br.target)])))
  }

  function DoUpdatePc(s: Vcpu, env: Env, vaddr: Word): Vcpu {
    var s1 := Emit(s.(pc := vaddr), [InstructionEnd]);
    if s.idle then s1
    else
      var n := s.n.(detailed := s.n.detailed + 1);
      var s2 := s1.(n := if env.Studied() then n.(user := n.user + 1) else n.(other := n.other + 1));
      if n.detailed > s.target then Emit(s2.(target := s.target + FLOW_CONTROL), [Sync(Pace)]) else s2
  }

  function DoPcNext(s: Vcpu, env: Env, next: Word): Vcpu {
    if env.InRoi() && !s.capturing then Emit(s, [InstructionBegin(s.pc, Wrap64(next - s.pc))]) else s
  }

  predicate IsMagicStore(env: Env, op: MemOp) {
    env.InRoi() && op.vaddr == env.magic && op.store
  }

  function DoMemSendDetailed(s: Vcpu, env: Env, op: MemOp): Vcpu {
    var s1 := if IsMagicStore(env, op) then Emit(s.(capturing := !s.capturing), [InstructionAbort]) else s;
    var n := s.n;
    var n1 := if !env.inKernel && env.Studied()
              then (if op.store then n.(stores := n.stores + 1) else n.(loads := n.loads + 1)) else n;
    Emit(s1.(n := n1), [Translate(op.vaddr, op.paddr), InstructionMem(op.vaddr)])
  }

  function DoBranchDetailed(s: Vcpu, env: Env): Vcpu {
    if s.br.addr == 0 then s
    else
      var taken := s.br.target != s.br.fallthrough;
      var s1 := s.(sound := s.sound && s.br.fallthrough != 0, br := s.br.(addr := 0, fallthrough := 0));
      var s2 :=
        if env.InRoi() then (if s.idle then Emit(s1.(idle := false), [VCPUResume]) else s1)
        else (if !s.idle then Emit(s1.(idle := true), [InstructionEnd, VCPUIdle]) else s1);
      Emit(s2, [InstructionBranch(taken)])
  }

  function IfInRoi(s: Vcpu, env: Env, e: Event): Vcpu {
    if env.InRoi() then Emit(s, [e]) else s
  }

  /** What one callback does.  `op` is the memory operation, for the memory callbacks. */
  function Exec(s: Vcpu, cb: Callback, env: Env, op: MemOp): Vcpu {
    match cb
    case HotBlocks(vaddr) => DoHotBlocks(s, env, vaddr)
    case CountInsns(n) => DoCountInsns(s, n)
    case CountInsn => DoCountInsn(s)
    case BranchAt(vaddr) => s.(br := s.br.(addr := vaddr))
    case BranchRam(ram) => Emit(s, [Translate(s.br.addr, ram)])
    case MemUpdatePc(vaddr) => s.(pc := vaddr)
    case MemSendCacheonly(ram) => DoMemSendCacheonly(s, op, ram)
    case UpdateTarget(vaddr) => s.(br := s.br.(target := vaddr), tbVaddr1 := vaddr)
    case UpdateFallthrough(pc) => s.(br := s.br.(fallthrough := pc))
    case BranchCacheonly(ram) => DoBranchCacheonly(s, ram)
    case BranchDetailed => DoBranchDetailed(s, env)
    case Itlb1(ram) => IfInRoi(s, env, Translate(s.tbVaddr1, ram))
    case Vaddr2(vaddr) => s.(tbVaddr2 := vaddr)
    case Itlb2(ram) => IfInRoi(s, env, Translate(s.tbVaddr2, ram))
    case SendICache1(host) => IfInRoi(s, env, SendICache(s.tbVaddr1, host, env.CachePgd()))
    case SendICache2(host) => IfInRoi(s, env, SendICache(s.tbVaddr2, host, env.CachePgd()))
    case UpdatePc(vaddr) => DoUpdatePc(s, env, vaddr)
    case InsnItlb(ram) => IfInRoi(s, env, Translate(s.pc, ram))
    case PcNext(next) => DoPcNext(s, env, next)
    case MemSendDetailed => DoMemSendDetailed(s, env, op)
    case Cmpxchg => DoCmpxchg(s)
    case Pause => DoPause(s)
  }

  // ---- what reaches the record from outside the blocks ----

  datatype Outside =
    | Idle(env: Env)          // vcpu_idle_cb
    | Resume                  // vcpu_resume_cb
    | Interrupt(env: Env)     // vcpu_interrupt_cb and vcpu_interrupt_ret_cb
    | ExecSyscall(env: Env)   // vcpu_syscall_cb for execve and execveat
    | Reset                   // the deferred part of recorder_reset
    | Commanded(command: Command)

  function React(s: Vcpu, o: Outside): Vcpu {
    match o
    case Idle(env) =>
      var s1 := if env.mode.Detailed? then Emit(s, [InstructionEnd]) else s;
      if s1.idle then s1 else Emit(s1.(idle := true), [VCPUIdle])
    case Resume => if s.idle then Emit(s.(idle := false), [VCPUResume]) else s
    case Interrupt(env) => if env.mode.Detailed? then Emit(s, [InstructionEnd]) else s
    case ExecSyscall(env) => if env.mode.Detailed? then Emit(s, [FlushICache(env.pgd)]) else s
    case Reset => s.(n := NO_COUNTERS)
    case Commanded(command) => Emit(s, [Control(command)])
  }

  // ---- instrumentation ----

  /** The callbacks of one instruction: on execution, and on each memory operation. */
  datatype Hooks = Hooks(exec: seq<Callback>, mem: seq<Callback>)

  /** The callbacks of a block: on entry, and per instruction. */
  datatype Instrumented = Instrumented(entry: seq<Callback>, insns: seq<Hooks>)

  function BranchHooks(tb: Block, mode: Mode, insn: Insn): seq<Callback> {
    if !tb.branch then []
    else if mode.Memory? then [BranchAt(insn.vaddr), BranchRam(insn.ram)]
    else [BranchAt(insn.vaddr)]
  }

  function LastHooks(tb: Block, mode: Mode, insn: Insn): seq<Callback> {
    match mode
    case Icount => []
    case Memory => BranchHooks(tb, mode, insn)
    case Detailed => (if tb.pause then [Pause] else []) + BranchHooks(tb, mode, insn)
  }

  function InsnHooks(mode: Mode, insn: Insn): Hooks {
    match mode
    case Icount => Hooks([], [])
    case Memory => Hooks([CountInsn], [MemUpdatePc(insn.vaddr), MemSendCacheonly(insn.ram)])
    case Detailed =>
      Hooks([UpdatePc(insn.vaddr), InsnItlb(insn.ram), PcNext(insn.next)] + (if insn.cmpxchg then [Cmpxchg] else []),
            [MemSendDetailed])
  }

  function FallthroughHook(tb: Block): seq<Callback> {
    if tb.branch then [UpdateFallthrough(tb.nextPc)] else []
  }

  function SecondPageHooks(second: SecondPage): seq<Callback> {
    match second
    case OnePage => []
    case SecondPage(vaddr, ram, host) => [Vaddr2(vaddr), Itlb2(ram), SendICache2(host)]
  }

  function EntryHooks(tb: Block, mode: Mode): seq<Callback>
    requires tb.Valid()
  {
    [HotBlocks(tb.vaddr)] +
    match mode
    case Icount => [CountInsns(|tb.insns|)]
    case Memory => [UpdateTarget(tb.vaddr), BranchCacheonly(tb.Last().ram)] + FallthroughHook(tb)
    case Detailed =>
      [UpdateTarget(tb.vaddr), BranchDetailed, Itlb1(tb.ram), SendICache1(tb.host)]
      + SecondPageHooks(tb.second) + FallthroughHook(tb)
  }

  /** The hooks of instruction `i`; the last one carries those of the block's end as well. */
  function HooksAt(tb: Block, mode: Mode, i: nat): Hooks
    requires i < |tb.insns|
  {
    var h := InsnHooks(mode, tb.insns[i]);
    if i == |tb.insns| - 1 then h.(exec := h.exec + LastHooks(tb, mode, tb.insns[i])) else h
  }

  /** What `vcpu_tb_trans_cb` attaches to a block in a mode. */
  function Instrument(tb: Block, mode: Mode): Instrumented
    requires tb.Valid()
  {
    Instrumented(EntryHooks(tb, mode), seq(|tb.insns|, i requires 0 <= i < |tb.insns| => HooksAt(tb, mode, i)))
  }

  // ---- runs ----

  /** One execution of an instruction: the oracle while it starts, and its memory operations. */
  datatype InsnVisit = InsnVisit(env: Env, ops: seq<(MemOp, Env)>)

  /** One execution of a block translated in `mode`: it may be left after any instruction. */
  datatype Visit = Visit(tb: Block, mode: Mode, env: Env, insns: seq<InsnVisit>) {
    predicate Valid() {
      tb.Valid() && |insns| <= |tb.insns|
    }

    /** The last instruction was begun. */
    predicate Completed() { |insns| == |tb.insns| }
  }

  const NO_OP := MemOp(false, 0, 0)

  function ExecAll(s: Vcpu, cbs: seq<Callback>, env: Env, op: MemOp): Vcpu
    decreases |cbs|
  {
    if cbs == [] then s else ExecAll(Exec(s, cbs[0], env, op), cbs[1..], env, op)
  }

  lemma {:induction false} ExecAllAppend(s: Vcpu, a: seq<Callback>, b: seq<Callback>, env: Env, op: MemOp)
    ensures ExecAll(s, a + b, env, op) == ExecAll(ExecAll(s, a, env, op), b, env, op)
    decreases |a|
  {
    if a == [] {
      assert a + b == b;
    } else {
      assert (a + b)[1..] == a[1..] + b;
      ExecAllAppend(Exec(s, a[0], env, op), a[1..], b, env, op);
    }
  }

  lemma ExecOne(s: Vcpu, cb: Callback, env: Env, op: MemOp)
    ensures ExecAll(s, [cb], env, op) == Exec(s, cb, env, op)
  {
    assert [cb][1..] == [];
  }

  /** Running a callback in front of the others. */
  lemma ExecFirst(s: Vcpu, cb: Callback, cbs: seq<Callback>, env: Env, op: MemOp)
    ensures ExecAll(s, [cb] + cbs, env, op) == ExecAll(Exec(s, cb, env, op), cbs, env, op)
  {
    assert ([cb] + cbs)[1..] == cbs;
  }

  lemma ExecThree(s: Vcpu, a: Callback, b: Callback, c: Callback, env: Env, op: MemOp)
    ensures ExecAll(s, [a, b, c], env, op) == Exec(Exec(Exec(s, a, env, op), b, env, op), c, env, op)
  {
    assert [a, b, c] == [a] + ([b] + [c]);
    ExecFirst(s, a, [b] + [c], env, op);
    ExecFirst(Exec(s, a, env, op), b, [c], env, op);
    ExecOne(Exec(Exec(s, a, env, op), b, env, op), c, env, op);
  }

  function ExecOps(s: Vcpu, cbs: seq<Callback>, ops: seq<(MemOp, Env)>): Vcpu
    decreases |ops|
  {
    if ops == [] then s else ExecOps(ExecAll(s, cbs, ops[0].1, ops[0].0), cbs, ops[1..])
  }

  function ExecInsn(s: Vcpu, h: Hooks, v: InsnVisit): Vcpu {
    ExecOps(ExecAll(s, h.exec, v.env, NO_OP), h.mem, v.ops)
  }

  function ExecInsns(s: Vcpu, hooks: seq<Hooks>, vs: seq<InsnVisit>): Vcpu
    requires |vs| <= |hooks|
  {
    if vs == [] then s
    else
      var n := |vs| - 1;
      ExecInsn(ExecInsns(s, hooks, vs[..n]), hooks[n], vs[n])
  }

  /** The last instruction of a partly executed block runs after the others. */
  lemma ExecInsnsStep(s: Vcpu, tb: Block, mode: Mode, vs: seq<InsnVisit>, n: nat)
    requires tb.Valid() && |vs| == n + 1 <= |tb.insns|
    ensures ExecInsns(s, Instrument(tb, mode).insns, vs)
         == ExecInsn(ExecInsns(s, Instrument(tb, mode).insns, vs[..n]), HooksAt(tb, mode, n), vs[n])
  {
  }

  function ExecVisit(s: Vcpu, v: Visit): Vcpu
    requires v.Valid()
  {
    var it := Instrument(v.tb, v.mode);
    ExecInsns(ExecAll(s, it.entry, v.env, NO_OP), it.insns, v.insns)
  }

  /** A run of one vcpu: block visits, in any mixture of modes, and what comes in between. */
  datatype Item = Ran(visit: Visit) | Came(outside: Outside)

  predicate ValidRun(run: seq<Item>) {
    forall i :: 0 <= i < |run| && run[i].Ran? ==> run[i].visit.Valid()
  }

  function Step(s: Vcpu, item: Item): Vcpu
    requires item.Ran? ==> item.visit.Valid()
  {
    match item
    case Ran(v) => ExecVisit(s, v)
    case Came(o) => React(s, o)
  }

  function Run(s: Vcpu, run: seq<Item>): Vcpu
    requires ValidRun(run)
  {
    if run == [] then s else Step(Run(s, run[..|run| - 1]), run[|run| - 1])
  }
}
