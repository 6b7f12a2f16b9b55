/** The trace recorder as the program it is: callbacks that update one vcpu's record in place,
    and the loops that register and run them, each proved against its function in `Trace`. */
module TraceRecorder {
  import opened Arithmetic
  import opened Trace

  /** `thread_data_t`, the vcpu's row of `block_cnt` and its writer; the counters and the branch
      registers are grouped. */
  class ThreadData {
    var pc: Word
    var tbVaddr1: Word
    var tbVaddr2: Word
    var br: Branch
    var n: Counters
    var flowcontrolTarget: nat
    var idle: bool
    var capturing: bool
    var assertionsHeld: bool
    var blockCnt: map<Word, nat>
    var output: seq<Event>

    function View(): Vcpu
      reads this
    {
      Vcpu(pc, tbVaddr1, tbVaddr2, br, n, flowcontrolTarget, idle, capturing, assertionsHeld, blockCnt, output)
    }

    /** `thread_data_reset` for one vcpu. */
    constructor ()
      ensures View() == STARTED
    {
      pc, tbVaddr1, tbVaddr2, br, n, flowcontrolTarget := 0, 0, 0, Branch(0, 0, 0), NO_COUNTERS, 0;
      idle, capturing, assertionsHeld, blockCnt, output := true, false, true, map[], [];
    }

    method Write(e: Event)
      modifies this`output
      ensures View() == Emit(old(View()), [e])
    {
      output := output + [e];
    }

    method TbExecCountInsns(count: nat)
      modifies this`n, this`output
      ensures View() == DoCountInsns(old(View()), count)
    {
      n := n.(icount := n.icount + count, reported := n.reported + count);
      if n.reported > FLOW_CONTROL_FF {
        Write(InstructionCount(n.reported));
        n := n.(reported := 0);
      }
    }

    method TbExecHotBlocks(env: Env, vaddr: Word)
      modifies this`blockCnt
      ensures View() == DoHotBlocks(old(View()), env, vaddr)
    {
      if env.pgd == env.roiCr3 {
        blockCnt := blockCnt[vaddr := (if vaddr in blockCnt then blockCnt[vaddr] else 0) + 1];
      }
    }

    method InsnExecPause()
      modifies this`flowcontrolTarget, this`output
      ensures View() == DoPause(old(View()))
    {
      if !idle {
        Write(Sync(Pace));
        flowcontrolTarget := n.detailed + FLOW_CONTROL;
      }
    }

    method InsnExecCmpxchg()
      modifies this`flowcontrolTarget, this`output
      ensures View() == DoCmpxchg(old(View()))
    {
      if !idle && !capturing {
        Write(Sync(Pace));
        flowcontrolTarget := n.detailed + FLOW_CONTROL;
      }
    }

    method DrainReported()
      modifies this`n, this`output
      ensures View() == DrainIfDue(old(View()))
    {
      if n.reported > FLOW_CONTROL_FF {
        Write(Sync(Drain(n.reported)));
        n := n.(reported := 0);
      }
    }

    method SettlePending(pending: nat)
      requires pending == n.pending
      modifies this`n
      ensures View() == Settle(old(View()))
    {
      n := n.(cacheonly := n.cacheonly + pending, reported := n.reported + pending, pending := 0);
    }

    method MemSendCacheonlyCb(op: MemOp, ram: Word)
      modifies this`n, this`output
      ensures View() == DoMemSendCacheonly(old(View()), op, ram)
    {
      var kind := if op.store then MemWrite else MemRead;
      var pending := n.pending;
      Write(Translate(op.vaddr, op.paddr));
      if pending != 0 {
        Write(Translate(pc, ram));
        SettlePending(pending);
      }
      Write(CacheOnly(pending, kind, pc, op.vaddr));
      DrainReported();
    }

    method TbExecBranchCacheonly(ram: Word)
      modifies this`n, this`output, this`br, this`assertionsHeld
      ensures View() == DoBranchCacheonly(old(View()), ram)
    {
      if br.addr != 0 {
        var pending := n.pending;
        assertionsHeld := assertionsHeld && br.fallthrough != 0;
        var kind := if br.target == br.fallthrough then BranchNotTaken else BranchTaken;
        WriteTwo(Translate(br.target, ram), CacheOnly(pending, kind, br.addr, br.target));
        SettlePending(pending);
        br := br.(addr := 0, fallthrough := 0);
        DrainReported();
      }
    }

    method WriteTwo(e: Event, f: Event)
      modifies this`output
      ensures View() == Emit(old(View()), [e, f])
    {
      Write(e);
      Write(f);
    }

    method CountDetailed(env: Env)
      modifies this`n
      ensures n == (var m := old(n).(detailed := old(n).detailed + 1);
                    if env.Studied() then m.(user := m.user + 1) else m.(other := m.other + 1))
    {
      n := n.(detailed := n.detailed + 1);
      if env.pgd == env.roiCr3 {
        n := n.(user := n.user + 1);
      } else {
        n := n.(other := n.other + 1);
      }
    }

    method InsnExecUpdatePc(env: Env, vaddr: Word)
      modifies this`pc, this`n, this`flowcontrolTarget, this`output
      ensures View() == DoUpdatePc(old(View()), env, vaddr)
    {
      Write(InstructionEnd);
      pc := vaddr;
      if !idle {
        CountDetailed(env);
        if n.detailed > flowcontrolTarget {
          Write(Sync(Pace));
          flowcontrolTarget := flowcontrolTarget + FLOW_CONTROL;
        }
      }
    }

    method InsnExecPcNext(env: Env, next: Word)
      modifies this`output
      ensures View() == DoPcNext(old(View()), env, next)
    {
      if env.InRoi() && !capturing {
        Write(InstructionBegin(pc, Wrap64(next - pc)));
      }
    }

    method CountAccess(env: Env, store: bool)
      modifies this`n
      ensures n == if env.inKernel || !env.Studied() then old(n)
                   else if store then old(n).(stores := old(n).stores + 1) else old(n).(loads := old(n).loads + 1)
    {
      if !env.inKernel && env.pgd == env.roiCr3 {
        if store {
          n := n.(stores := n.stores + 1);
        } else {
          n := n.(loads := n.loads + 1);
        }
      }
    }

    method MemSendDetailedCb(env: Env, op: MemOp)
      modifies this`capturing, this`n, this`output
      ensures View() == DoMemSendDetailed(old(View()), env, op)
    {
      if env.InRoi() && op.vaddr == env.magic && op.store {
        Write(InstructionAbort);
        if !capturing {
          capturing := true;
        } else {
          capturing := false;
        }
      }
      CountAccess(env, op.store);
      WriteTwo(Translate(op.vaddr, op.paddr), InstructionMem(op.vaddr));
    }

    /** The idle/resume half of `tb_exec_branch_detailed`. */
    method FollowRoi(env: Env)
      modifies this`idle, this`output
      ensures View() ==
        if env.InRoi() then (if old(idle) then Emit(old(View()).(idle := false), [VCPUResume]) else old(View()))
        else (if !old(idle) then Emit(old(View()).(idle := true), [InstructionEnd, VCPUIdle]) else old(View()))
    {
      if env.InRoi() {
        if idle {
          Write(VCPUResume);
          idle := false;
        }
      } else if !idle {
        WriteTwo(InstructionEnd, VCPUIdle);
        idle := true;
      }
    }

    method TbExecBranchDetailed(env: Env)
      modifies this`idle, this`output, this`br, this`assertionsHeld
      ensures View() == DoBranchDetailed(old(View()), env)
    {
      if br.addr != 0 {
        assertionsHeld := assertionsHeld && br.fallthrough != 0;
        var taken := br.target != br.fallthrough;
        FollowRoi(env);
        Write(InstructionBranch(taken));
        br := br.(addr := 0, fallthrough := 0);
      }
    }

    method WriteInRoi(env: Env, e: Event)
      modifies this`output
      ensures View() == IfInRoi(old(View()), env, e)
    {
      if env.InRoi() {
        Write(e);
      }
    }

    static predicate IsDetailed(cb: Callback) {
      cb.BranchDetailed? || cb.UpdatePc? || cb.PcNext? || cb.MemSendDetailed? || cb.Cmpxchg? || cb.Pause?
    }

    /** Runs one registered callback of the detailed mode. */
    method FireDetailed(cb: Callback, env: Env, op: MemOp)
      requires IsDetailed(cb)
      modifies this
      ensures View() == Exec(old(View()), cb, env, op)
    {
      match cb
      case BranchDetailed => TbExecBranchDetailed(env);
      case UpdatePc(vaddr) => InsnExecUpdatePc(env, vaddr);
      case PcNext(next) => InsnExecPcNext(env, next);
      case MemSendDetailed => MemSendDetailedCb(env, op);
      case Cmpxchg => InsnExecCmpxchg();
      case Pause => InsnExecPause();
    }

    static predicate IsFetch(cb: Callback) {
      cb.Itlb1? || cb.Itlb2? || cb.SendICache1? || cb.SendICache2? || cb.InsnItlb?
    }

    /** Runs one registered callback that reports an instruction fetch. */
    method FireFetch(cb: Callback, env: Env, op: MemOp)
      requires IsFetch(cb)
      modifies this
      ensures View() == Exec(old(View()), cb, env, op)
    {
      match cb
      case Itlb1(ram) => WriteInRoi(env, Translate(tbVaddr1, ram));
      case Itlb2(ram) => WriteInRoi(env, Translate(tbVaddr2, ram));
      case SendICache1(host) => WriteInRoi(env, SendICache(tbVaddr1, host, env.CachePgd()));
      case SendICache2(host) => WriteInRoi(env, SendICache(tbVaddr2, host, env.CachePgd()));
      case InsnItlb(ram) => WriteInRoi(env, Translate(pc, ram));
    }

    /** Runs one registered callback that counts, or that prepares a report of the cache-only mode. */
    method FireCacheonly(cb: Callback, env: Env, op: MemOp)
      requires !IsFetch(cb) && !IsDetailed(cb)
      modifies this
      ensures View() == Exec(old(View()), cb, env, op)
    {
      match cb
      case HotBlocks(vaddr) => TbExecHotBlocks(env, vaddr);
      case CountInsns(count) => TbExecCountInsns(count);
      case CountInsn => n := n.(pending := n.pending + 1);
      case BranchAt(vaddr) => br := br.(addr := vaddr);
      case BranchRam(ram) => Write(Translate(br.addr, ram));
      case MemUpdatePc(vaddr) => pc := vaddr;
      case MemSendCacheonly(ram) => MemSendCacheonlyCb(op, ram);
      case UpdateTarget(vaddr) => br, tbVaddr1 := br.(target := vaddr), vaddr;
      case UpdateFallthrough(next) => br := br.(fallthrough := next);
      case BranchCacheonly(ram) => TbExecBranchCacheonly(ram);
      case Vaddr2(vaddr) => tbVaddr2 := vaddr;
    }

    /** Runs one registered callback. */
    method Fire(cb: Callback, env: Env, op: MemOp)
      modifies this
      ensures View() == Exec(old(View()), cb, env, op)
    {
      if IsFetch(cb) {
        FireFetch(cb, env, op);
      } else if IsDetailed(cb) {
        FireDetailed(cb, env, op);
      } else {
        FireCacheonly(cb, env, op);
      }
    }

    /** `vcpu_idle_cb`. */
    method VcpuIdle(env: Env)
      modifies this`idle, this`output
      ensures View() == React(old(View()), Idle(env))
    {
      if env.mode.Detailed? {
        Write(InstructionEnd);
      }
      if !idle {
        Write(VCPUIdle);
        idle := true;
      }
    }

    /** What reaches the record from outside the blocks. */
    method Receive(o: Outside)
      modifies this
      ensures View() == React(old(View()), o)
    {
      match o
      case Idle(env) => VcpuIdle(env);
      case Resume =>
        if idle {
          Write(VCPUResume);
          idle := false;
        }
      case Interrupt(env) =>
        if env.mode.Detailed? {
          Write(InstructionEnd);
        }
      case ExecSyscall(env) =>
        if env.mode.Detailed? {
          Write(FlushICache(env.pgd));
        }
      case Reset => n := NO_COUNTERS;
      case Commanded(command) => Write(Control(command));
    }
  }

  // ---- registration ----

  /** The loop over the instructions of a block in the two instrumenting modes. */
  method RegisterInsns(tb: Block, mode: Mode) returns (hooks: seq<Hooks>)
    ensures |hooks| == |tb.insns| && forall i :: 0 <= i < |hooks| ==> hooks[i] == InsnHooks(mode, tb.insns[i])
  {
    hooks := [];
    for i := 0 to |tb.insns|
      invariant |hooks| == i && forall k :: 0 <= k < i ==> hooks[k] == InsnHooks(mode, tb.insns[k])
    {
      var insn := tb.insns[i];
      var h := Hooks([], []);
      if mode.Memory? {
        h := h.(exec := h.exec + [CountInsn]);
        h := h.(mem := h.mem + [MemUpdatePc(insn.vaddr)]);
        h := h.(mem := h.mem + [MemSendCacheonly(insn.ram)]);
      } else if mode.Detailed? {
        h := h.(exec := h.exec + [UpdatePc(insn.vaddr)]);
        h := h.(exec := h.exec + [InsnItlb(insn.ram)]);
        h := h.(exec := h.exec + [PcNext(insn.next)]);
        h := h.(mem := h.mem + [MemSendDetailed]);
        if insn.cmpxchg {
          h := h.(exec := h.exec + [Cmpxchg]);
        }
      }
      hooks := hooks + [h];
    }
  }

  /** The callbacks registered on the last instruction after the loop. */
  method RegisterLast(tb: Block, mode: Mode, hooks: seq<Hooks>) returns (more: seq<Hooks>)
    requires tb.Valid() && |hooks| == |tb.insns|
    ensures var last := hooks[|hooks| - 1];
            more == hooks[|hooks| - 1 := last.(exec := last.exec + LastHooks(tb, mode, tb.Last()))]
  {
    var n := |hooks| - 1;
    var insn := tb.insns[n];
    var h := hooks[n];
    if mode.Detailed? && tb.pause {
      h := h.(exec := h.exec + [Pause]);
    }
    if !mode.Icount? && tb.branch {
      h := h.(exec := h.exec + [BranchAt(insn.vaddr)]);
      if mode.Memory? {
        h := h.(exec := h.exec + [BranchRam(insn.ram)]);
      }
    }
    more := hooks[n := h];
    assert h.exec == hooks[n].exec + LastHooks(tb, mode, insn);
  }

  /** `vcpu_tb_trans_cb`: registers the callbacks of a block for a mode, in order. */
  method TbTrans(tb: Block, mode: Mode) returns (it: Instrumented)
    requires tb.Valid()
    ensures it == Instrument(tb, mode)
  {
    var entry := [HotBlocks(tb.vaddr)];
    var hooks := RegisterInsns(tb, mode);
    hooks := RegisterLast(tb, mode, hooks);
    match mode {
      case Icount =>
        entry := entry + [CountInsns(|tb.insns|)];
      case Memory =>
        entry := entry + [UpdateTarget(tb.vaddr)];
        entry := entry + [BranchCacheonly(tb.insns[|tb.insns| - 1].ram)];
      case Detailed =>
        entry := entry + [UpdateTarget(tb.vaddr)];
        entry := entry + [BranchDetailed];
        entry := entry + [Itlb1(tb.ram)];
        entry := entry + [SendICache1(tb.host)];
        match tb.second {
          case OnePage =>
          case SecondPage(vaddr, ram, host) =>
            entry := entry + [Vaddr2(vaddr)];
            entry := entry + [Itlb2(ram)];
            entry := entry + [SendICache2(host)];
        }
    }
    if !mode.Icount? && tb.branch {
      entry := entry + [UpdateFallthrough(tb.nextPc)];
    }
    it := Instrumented(entry, hooks);
    assert entry == EntryHooks(tb, mode);
    assert it.insns == Instrument(tb, mode).insns;
  }

  // ---- execution ----

  method FireAll(td: ThreadData, cbs: seq<Callback>, env: Env, op: MemOp)
    modifies td
    ensures td.View() == ExecAll(old(td.View()), cbs, env, op)
  {
    for i := 0 to |cbs|
      invariant ExecAll(td.View(), cbs[i..], env, op) == ExecAll(old(td.View()), cbs, env, op)
    {
      td.Fire(cbs[i], env, op);
      assert cbs[i..][1..] == cbs[i + 1..];
    }
  }

  method FireInsn(td: ThreadData, hooks: Hooks, v: InsnVisit)
    modifies td
    ensures td.View() == ExecInsn(old(td.View()), hooks, v)
  {
    FireAll(td, hooks.exec, v.env, NO_OP);
    ghost var begun := td.View();
    for i := 0 to |v.ops|
      invariant ExecOps(td.View(), hooks.mem, v.ops[i..]) == ExecOps(begun, hooks.mem, v.ops)
    {
      FireAll(td, hooks.mem, v.ops[i].1, v.ops[i].0);
      assert v.ops[i..][1..] == v.ops[i + 1..];
    }
  }

  /** Translates a block and runs as much of it as the visit says. */
  method RunVisit(td: ThreadData, v: Visit)
    requires v.Valid()
    modifies td
    ensures td.View() == ExecVisit(old(td.View()), v)
  {
    var it := TbTrans(v.tb, v.mode);
    FireAll(td, it.entry, v.env, NO_OP);
    ghost var entered := td.View();
    for i := 0 to |v.insns|
      invariant td.View() == ExecInsns(entered, it.insns, v.insns[..i])
    {
      FireInsn(td, it.insns[i], v.insns[i]);
      assert v.insns[..i + 1][..i] == v.insns[..i];
    }
    assert v.insns[..|v.insns|] == v.insns;
  }
}
