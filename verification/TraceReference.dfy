/** The recorder without callbacks: what a visit of a block, and what comes from outside, add to the
    stream and do to the counters, told by instruction and access.  The recorder with its
    callbacks and registers refines it, event by event, in every run. */
module TraceReference {
  import opened Arithmetic
  import opened Trace
  import opened TraceCacheOnly
  import opened TraceRegion

  // ---- the reference ----

  /** All that the next events depend on, but for the branch that is pending. */
  datatype Meter = Meter(idle: bool, capturing: bool, sound: bool, target: nat, n: Counters)

  /** What was added to the stream, and the meter after it. */
  datatype Tale = Tale(m: Meter, es: seq<Event>)

  function Quiet(m: Meter): Tale { Tale(m, []) }

  function Then(a: Tale, b: Tale): Tale { Tale(b.m, a.es + b.es) }

  /** A fast visit counts the whole block, and reports once more than 100000 are due. */
  function FastVisit(m: Meter, tb: Block): Tale {
    var due := m.n.reported + |tb.insns|;
    var counted := m.n.(icount := m.n.icount + |tb.insns|, reported := if due > 100_000 then 0 else due);
    Tale(m.(n := counted), if due > 100_000 then [InstructionCount(due)] else [])
  }

  /** A cache-only event settles the pending instructions, and synchronises once more than 100000 are due. */
  function Report(m: Meter, es: seq<Event>): Tale {
    var due := m.n.reported + m.n.pending;
    var settled := m.n.(cacheonly := m.n.cacheonly + m.n.pending, pending := 0,
                        reported := if due > 100_000 then 0 else due);
    Tale(m.(n := settled), es + if due > 100_000 then [Sync(Drain(due))] else [])
  }

  function CacheAccess(m: Meter, insn: Insn, op: MemOp): Tale {
    Report(m, [Translate(op.vaddr, op.paddr)]
              + (if m.n.pending > 0 then [Translate(insn.vaddr, insn.ram)] else [])
              + [CacheOnly(m.n.pending, if op.store then MemWrite else MemRead, insn.vaddr, op.vaddr)])
  }

  function CacheAccesses(m: Meter, insn: Insn, ops: seq<(MemOp, Env)>): Tale
    decreases |ops|
  {
    if ops == [] then Quiet(m)
    else
      var first := CacheAccess(m, insn, ops[0].0);
      Then(first, CacheAccesses(first.m, insn, ops[1..]))
  }

  /** An instruction is pending from its start; a branch at the end of the block is translated. */
  function CacheInsn(m: Meter, tb: Block, i: nat, v: InsnVisit): Tale
    requires i < |tb.insns|
  {
    var insn := tb.insns[i];
    var begun := Tale(m.(n := m.n.(pending := m.n.pending + 1)),
                      if tb.branch && i + 1 == |tb.insns| then [Translate(insn.vaddr, insn.ram)] else []);
    Then(begun, CacheAccesses(begun.m, insn, v.ops))
  }

  function CacheBody(m: Meter, tb: Block, vs: seq<InsnVisit>): Tale
    requires |vs| <= |tb.insns|
  {
    if vs == [] then Quiet(m)
    else
      var n := |vs| - 1;
      var before := CacheBody(m, tb, vs[..n]);
      Then(before, CacheInsn(before.m, tb, n, vs[n]))
  }

  /** A pending branch whose block does not go on anywhere breaks the recorder's assertion. */
  function Checked(m: Meter, prev: Maybe): Meter
    requires LeavesBranch(prev)
  {
    m.(sound := m.sound && prev.visit.tb.nextPc != 0)
  }

  function CacheEntry(m: Meter, prev: Maybe, tb: Block): Tale
    requires tb.Valid()
  {
    if LeavesBranch(prev) then
      var kind := if tb.vaddr == prev.visit.tb.nextPc then BranchNotTaken else BranchTaken;
      Report(Checked(m, prev), [Translate(tb.vaddr, tb.Last().ram),
                                CacheOnly(m.n.pending, kind, prev.visit.tb.Last().vaddr, tb.vaddr)])
    else Quiet(m)
  }

  /** A synchronisation that sets the pace: the next is due 1000 instructions from here. */
  function Paced(m: Meter): Tale {
    Tale(m.(target := m.n.detailed + 1000), [Sync(Pace)])
  }

  /** Every detailed instruction ends the one before; awake it is counted, and may be over the target. */
  function Ended(m: Meter, env: Env): Tale {
    if m.idle then Tale(m, [InstructionEnd])
    else
      var n := m.n.(detailed := m.n.detailed + 1);
      var counted := if env.pgd == env.roiCr3 then n.(user := n.user + 1) else n.(other := n.other + 1);
      if n.detailed > m.target then Tale(m.(n := counted, target := m.target + 1000), [InstructionEnd] + [Sync(Pace)])
      else Tale(m.(n := counted), [InstructionEnd])
  }

  function Fetched(m: Meter, insn: Insn, env: Env): seq<Event> {
    if !Inside(env) then []
    else [Translate(insn.vaddr, insn.ram)]
         + if m.capturing then [] else [InstructionBegin(insn.vaddr, Wrap64(insn.next - insn.vaddr))]
  }

  /** A cmpxchg synchronises awake and while not capturing, a pause at the end of the block awake. */
  function Atomic(m: Meter, insn: Insn): Tale {
    if insn.cmpxchg && !m.idle && !m.capturing then Paced(m) else Quiet(m)
  }

  function Paused(m: Meter, tb: Block, i: nat): Tale {
    if tb.pause && i + 1 == |tb.insns| && !m.idle then Paced(m) else Quiet(m)
  }

  function OpTale(m: Meter, op: MemOp, env: Env): Tale {
    var turned := if TurnsCapture(env, op) then m.(capturing := !m.capturing) else m;
    var n := if env.inKernel || env.pgd != env.roiCr3 then m.n
             else if op.store then m.n.(stores := m.n.stores + 1) else m.n.(loads := m.n.loads + 1);
    Tale(turned.(n := n), (if TurnsCapture(env, op) then [InstructionAbort] else [])
                          + [Translate(op.vaddr, op.paddr), InstructionMem(op.vaddr)])
  }

  function OpsTale(m: Meter, ops: seq<(MemOp, Env)>): Tale
    decreases |ops|
  {
    if ops == [] then Quiet(m)
    else
      var first := OpTale(m, ops[0].0, ops[0].1);
      Then(first, OpsTale(first.m, ops[1..]))
  }

  /** An instruction up to its memory operations. */
  function Started(m: Meter, tb: Block, i: nat, env: Env): Tale
    requires i < |tb.insns|
  {
    var ended := Ended(m, env);
    var atomic := Atomic(ended.m, tb.insns[i]);
    Then(Tale(ended.m, ended.es + Fetched(ended.m, tb.insns[i], env)), Then(atomic, Paused(atomic.m, tb, i)))
  }

  function DetailedInsn(m: Meter, tb: Block, i: nat, v: InsnVisit): Tale
    requires i < |tb.insns|
  {
    var started := Started(m, tb, i, v.env);
    Then(started, OpsTale(started.m, v.ops))
  }

  function DetailedBody(m: Meter, tb: Block, vs: seq<InsnVisit>): Tale
    requires |vs| <= |tb.insns|
  {
    if vs == [] then Quiet(m)
    else
      var n := |vs| - 1;
      var before := DetailedBody(m, tb, vs[..n]);
      Then(before, DetailedInsn(before.m, tb, n, vs[n]))
  }

  /** The page directory that goes with a line of the instruction cache: none for the kernel. */
  function LinePgd(env: Env): Word { if env.inKernel then 0 else env.pgd }

  /** In the region of interest each page of the block is translated, and its line is sent. */
  function FirstLine(tb: Block, env: Env): seq<Event> {
    if !Inside(env) then [] else [Translate(tb.vaddr, tb.ram), SendICache(tb.vaddr, tb.host, LinePgd(env))]
  }

  function SecondLine(tb: Block, env: Env): seq<Event> {
    if !Inside(env) || tb.second.OnePage? then []
    else [Translate(tb.second.vaddr, tb.second.ram), SendICache(tb.second.vaddr, tb.second.host, LinePgd(env))]
  }

  function Lines(tb: Block, env: Env): seq<Event> { FirstLine(tb, env) + SecondLine(tb, env) }

  /** After a branch, entering the region wakes the vcpu and leaving it puts it to sleep. */
  function BranchTale(m: Meter, prev: Maybe, tb: Block, env: Env): Tale {
    if LeavesBranch(prev) then
      Tale(Checked(m, prev).(idle := !Inside(env)),
           (if Inside(env) then (if m.idle then [VCPUResume] else [])
            else if m.idle then [] else [InstructionEnd, VCPUIdle])
           + [InstructionBranch(tb.vaddr != prev.visit.tb.nextPc)])
    else Quiet(m)
  }

  function EntryTale(m: Meter, prev: Maybe, tb: Block, env: Env): Tale {
    var branched := BranchTale(m, prev, tb, env);
    Tale(branched.m, branched.es + Lines(tb, env))
  }

  function VisitTale(m: Meter, prev: Maybe, v: Visit): Tale
    requires v.Valid()
  {
    match v.mode
    case Icount => FastVisit(m, v.tb)
    case Memory => var entry := CacheEntry(m, prev, v.tb); Then(entry, CacheBody(entry.m, v.tb, v.insns))
    case Detailed =>
      var entry := EntryTale(m, prev, v.tb, v.env);
      Then(entry, DetailedBody(entry.m, v.tb, v.insns))
  }

  function OutsideTale(m: Meter, o: Outside): Tale {
    match o
    case Idle(env) =>
      Tale(m.(idle := true), (if env.mode.Detailed? then [InstructionEnd] else []) + if m.idle then [] else [VCPUIdle])
    case Resume => Tale(m.(idle := false), if m.idle then [VCPUResume] else [])
    case Interrupt(env) => Tale(m, if env.mode.Detailed? then [InstructionEnd] else [])
    case ExecSyscall(env) => Tale(m, if env.mode.Detailed? then [FlushICache(env.pgd)] else [])
    case Reset => Quiet(m.(n := Counters(0, 0, 0, 0, 0, 0, 0, 0, 0)))
    case Commanded(command) => Tale(m, [Control(command)])
  }

  function ItemTale(m: Meter, prev: Maybe, item: Item): Tale
    requires item.Ran? ==> item.visit.Valid()
  {
    match item
    case Ran(v) => VisitTale(m, prev, v)
    case Came(o) => OutsideTale(m, o)
  }

  /** What a run adds to the stream of a vcpu that starts with no branch pending. */
  function RunTale(m: Meter, run: seq<Item>): Tale
    requires ValidRun(run)
  {
    if run == [] then Quiet(m)
    else
      var n := |run| - 1;
      var before := RunTale(m, run[..n]);
      Then(before, ItemTale(before.m, Previous(run[..n]), run[n]))
  }

  // ---- the refinement ----

  function MeterOf(s: Vcpu): Meter { Meter(s.idle, s.capturing, s.sound, s.target, s.n) }

  ghost predicate Tells(s: Vcpu, t: Vcpu, tale: Tale) {
    t.output == s.output + tale.es && MeterOf(t) == tale.m
  }

  lemma TellsOn(s: Vcpu, t: Vcpu, u: Vcpu, a: Tale, b: Tale)
    requires Tells(s, t, a) && Tells(t, u, b)
    ensures Tells(s, u, Then(a, b))
  {
    assert s.output + a.es + b.es == s.output + (a.es + b.es);
  }

  lemma TellsNothing(s: Vcpu)
    ensures Tells(s, s, Quiet(MeterOf(s)))
  {
    assert s.output + [] == s.output;
  }

  // ---- fast visits ----

  lemma FastVisitTells(s: Vcpu, v: Visit)
    requires v.Valid() && v.mode.Icount?
    ensures Tells(s, ExecVisit(s, v), FastVisit(MeterOf(s), v.tb))
  {
    var s1 := DoHotBlocks(s, v.env, v.tb.vaddr);
    assert EntryHooks(v.tb, Icount) == [HotBlocks(v.tb.vaddr)] + [CountInsns(|v.tb.insns|)];
    ExecFirst(s, HotBlocks(v.tb.vaddr), [CountInsns(|v.tb.insns|)], v.env, NO_OP);
    ExecOne(s1, CountInsns(|v.tb.insns|), v.env, NO_OP);
    FastBodyRuns(DoCountInsns(s1, |v.tb.insns|), v.tb, v.insns);
    assert s.output + [] == s.output;
  }

  lemma {:induction false} FastBodyRuns(s: Vcpu, tb: Block, vs: seq<InsnVisit>)
    requires tb.Valid() && |vs| <= |tb.insns|
    ensures ExecInsns(s, Instrument(tb, Icount).insns, vs) == s
  {
    if vs != [] {
      var n := |vs| - 1;
      FastBodyRuns(s, tb, vs[..n]);
      ExecInsnsStep(s, tb, Icount, vs, n);
      NoHooks(s, vs[n].ops);
    }
  }

  lemma {:induction false} NoHooks(s: Vcpu, ops: seq<(MemOp, Env)>)
    ensures ExecOps(s, [], ops) == s
    decreases |ops|
  {
    if ops != [] { NoHooks(s, ops[1..]); }
  }

  // ---- cache-only visits ----

  /** Settling and draining, after the events. */
  lemma ReportTells(s: Vcpu, es: seq<Event>, t: Vcpu)
    requires t == DrainIfDue(Settle(Emit(s, es)))
    ensures Tells(s, t, Report(MeterOf(s), es))
  {
    assert s.output + es + [Sync(Drain(s.n.reported + s.n.pending))]
        == s.output + (es + [Sync(Drain(s.n.reported + s.n.pending))]);
    assert es + [] == es;
  }

  lemma CacheAccessTells(s: Vcpu, insn: Insn, op: MemOp, env: Env)
    ensures Tells(s, ExecAll(s, [MemUpdatePc(insn.vaddr), MemSendCacheonly(insn.ram)], env, op),
                  CacheAccess(MeterOf(s), insn, op))
  {
    var s1 := s.(pc := insn.vaddr);
    var kind := if op.store then MemWrite else MemRead;
    var first, last := [Translate(op.vaddr, op.paddr)], [CacheOnly(s.n.pending, kind, insn.vaddr, op.vaddr)];
    var pc: seq<Event> := if s.n.pending > 0 then [Translate(insn.vaddr, insn.ram)] else [];
    assert [MemUpdatePc(insn.vaddr), MemSendCacheonly(insn.ram)]
        == [MemUpdatePc(insn.vaddr)] + [MemSendCacheonly(insn.ram)];
    ExecFirst(s, MemUpdatePc(insn.vaddr), [MemSendCacheonly(insn.ram)], env, op);
    ExecOne(s1, MemSendCacheonly(insn.ram), env, op);
    assert s.output + first + pc + last == s.output + (first + pc + last);
    assert s.output + first + [] == s.output + first;
    assert DoMemSendCacheonly(s1, op, insn.ram) == DrainIfDue(Settle(Emit(s1, first + pc + last)));
    ReportTells(s1, first + pc + last, DoMemSendCacheonly(s1, op, insn.ram));
  }

  lemma {:induction false} CacheAccessesTell(s: Vcpu, insn: Insn, ops: seq<(MemOp, Env)>)
    ensures Tells(s, ExecOps(s, [MemUpdatePc(insn.vaddr), MemSendCacheonly(insn.ram)], ops),
                  CacheAccesses(MeterOf(s), insn, ops))
    decreases |ops|
  {
    if ops == [] {
      TellsNothing(s);
    } else {
      var cbs := [MemUpdatePc(insn.vaddr), MemSendCacheonly(insn.ram)];
      var s1 := ExecAll(s, cbs, ops[0].1, ops[0].0);
      CacheAccessTells(s, insn, ops[0].0, ops[0].1);
      CacheAccessesTell(s1, insn, ops[1..]);
      TellsOn(s, s1, ExecOps(s1, cbs, ops[1..]), CacheAccess(MeterOf(s), insn, ops[0].0),
              CacheAccesses(MeterOf(s1), insn, ops[1..]));
    }
  }

  lemma CacheInsnBegins(s: Vcpu, tb: Block, i: nat, env: Env)
    requires i < |tb.insns|
    ensures var insn := tb.insns[i];
            Tells(s, ExecAll(s, HooksAt(tb, Memory, i).exec, env, NO_OP),
                  Tale(MeterOf(s).(n := s.n.(pending := s.n.pending + 1)),
                       if tb.branch && i + 1 == |tb.insns| then [Translate(insn.vaddr, insn.ram)] else []))
  {
    var insn := tb.insns[i];
    assert s.output + [] == s.output;
    if tb.branch && i + 1 == |tb.insns| {
      assert HooksAt(tb, Memory, i).exec == [CountInsn, BranchAt(insn.vaddr), BranchRam(insn.ram)];
      ExecThree(s, CountInsn, BranchAt(insn.vaddr), BranchRam(insn.ram), env, NO_OP);
    } else {
      assert HooksAt(tb, Memory, i).exec == [CountInsn];
      ExecOne(s, CountInsn, env, NO_OP);
    }
  }

  lemma CacheInsnTells(s: Vcpu, tb: Block, i: nat, v: InsnVisit)
    requires i < |tb.insns|
    ensures Tells(s, ExecInsn(s, HooksAt(tb, Memory, i), v), CacheInsn(MeterOf(s), tb, i, v))
  {
    var insn := tb.insns[i];
    var s1 := ExecAll(s, HooksAt(tb, Memory, i).exec, v.env, NO_OP);
    var begun := Tale(MeterOf(s).(n := s.n.(pending := s.n.pending + 1)),
                      if tb.branch && i + 1 == |tb.insns| then [Translate(insn.vaddr, insn.ram)] else []);
    CacheInsnBegins(s, tb, i, v.env);
    CacheAccessesTell(s1, insn, v.ops);
    CacheMemoryHooks(tb, i);
    TellsOn(s, s1, ExecOps(s1, HooksAt(tb, Memory, i).mem, v.ops), begun, CacheAccesses(MeterOf(s1), insn, v.ops));
  }

  lemma CacheMemoryHooks(tb: Block, i: nat)
    requires i < |tb.insns|
    ensures HooksAt(tb, Memory, i).mem == [MemUpdatePc(tb.insns[i].vaddr), MemSendCacheonly(tb.insns[i].ram)]
  {
  }

  lemma {:induction false} CacheBodyTells(s: Vcpu, tb: Block, vs: seq<InsnVisit>)
    requires tb.Valid() && |vs| <= |tb.insns|
    ensures Tells(s, ExecInsns(s, Instrument(tb, Memory).insns, vs), CacheBody(MeterOf(s), tb, vs))
  {
    if vs == [] {
      TellsNothing(s);
    } else {
      var n := |vs| - 1;
      var t := ExecInsns(s, Instrument(tb, Memory).insns, vs[..n]);
      CacheBodyTells(s, tb, vs[..n]);
      ExecInsnsStep(s, tb, Memory, vs, n);
      CacheInsnTells(t, tb, n, vs[n]);
      TellsOn(s, t, ExecInsn(t, HooksAt(tb, Memory, n), vs[n]), CacheBody(MeterOf(s), tb, vs[..n]),
              CacheInsn(MeterOf(t), tb, n, vs[n]));
    }
  }

  lemma CacheBranchTells(s: Vcpu, prev: Maybe, tb: Block)
    requires Remembers(s, prev) && tb.Valid() && s.br.target == tb.vaddr
    ensures Tells(s, DoBranchCacheonly(s, tb.Last().ram), CacheEntry(MeterOf(s), prev, tb))
  {
    if LeavesBranch(prev) {
      var kind := if s.br.target == s.br.fallthrough then BranchNotTaken else BranchTaken;
      var es := [Translate(s.br.target, tb.Last().ram), CacheOnly(s.n.pending, kind, s.br.addr, s.br.target)];
      var s1 := s.(sound := s.sound && s.br.fallthrough != 0, br := s.br.(addr := 0, fallthrough := 0));
      ReportTells(s1, es, DoBranchCacheonly(s, tb.Last().ram));
    } else {
      TellsNothing(s);
    }
  }

  lemma FallthroughTellsNothing(s: Vcpu, tb: Block, env: Env)
    ensures var t := ExecAll(s, FallthroughHook(tb), env, NO_OP); t.output == s.output && MeterOf(t) == MeterOf(s)
  {
    if tb.branch { ExecOne(s, UpdateFallthrough(tb.nextPc), env, NO_OP); }
  }

  lemma CacheEntryTells(s: Vcpu, prev: Maybe, tb: Block, env: Env)
    requires Remembers(s, prev) && tb.Valid()
    ensures Tells(s, ExecAll(s, EntryHooks(tb, Memory), env, NO_OP), CacheEntry(MeterOf(s), prev, tb))
  {
    var a, b, c := HotBlocks(tb.vaddr), UpdateTarget(tb.vaddr), BranchCacheonly(tb.Last().ram);
    var s1 := Exec(Exec(s, a, env, NO_OP), b, env, NO_OP);
    assert EntryHooks(tb, Memory) == [a, b, c] + FallthroughHook(tb);
    ExecAllAppend(s, [a, b, c], FallthroughHook(tb), env, NO_OP);
    ExecThree(s, a, b, c, env, NO_OP);
    CacheBranchTells(s1, prev, tb);
    FallthroughTellsNothing(DoBranchCacheonly(s1, tb.Last().ram), tb, env);
  }

  // ---- detailed visits ----

  lemma EndedTells(s: Vcpu, env: Env, vaddr: Word)
    ensures Tells(s, DoUpdatePc(s, env, vaddr), Ended(MeterOf(s), env)) && DoUpdatePc(s, env, vaddr).pc == vaddr
  {
    assert s.output + [InstructionEnd] + [Sync(Pace)] == s.output + ([InstructionEnd] + [Sync(Pace)]);
  }

  lemma FetchedTells(s: Vcpu, insn: Insn, env: Env)
    requires s.pc == insn.vaddr
    ensures Tells(s, DoPcNext(IfInRoi(s, env, Translate(s.pc, insn.ram)), env, insn.next),
                  Tale(MeterOf(s), Fetched(MeterOf(s), insn, env)))
  {
    var a, b := Translate(s.pc, insn.ram), InstructionBegin(s.pc, Wrap64(insn.next - s.pc));
    RegionIsInside(env);
    assert s.output + [a] + [b] == s.output + ([a] + [b]);
    assert s.output + [] == s.output && [a] + [] == [a];
  }

  lemma HeadTells(s: Vcpu, insn: Insn, env: Env)
    ensures var ended := Ended(MeterOf(s), env);
            Tells(s, ExecAll(s, [UpdatePc(insn.vaddr), InsnItlb(insn.ram), PcNext(insn.next)], env, NO_OP),
                  Tale(ended.m, ended.es + Fetched(ended.m, insn, env)))
  {
    var ended := Ended(MeterOf(s), env);
    var s1 := DoUpdatePc(s, env, insn.vaddr);
    var s2 := DoPcNext(IfInRoi(s1, env, Translate(s1.pc, insn.ram)), env, insn.next);
    ExecThree(s, UpdatePc(insn.vaddr), InsnItlb(insn.ram), PcNext(insn.next), env, NO_OP);
    EndedTells(s, env, insn.vaddr);
    FetchedTells(s1, insn, env);
    TellsOn(s, s1, s2, ended, Tale(ended.m, Fetched(ended.m, insn, env)));
  }

  lemma AtomicTells(s: Vcpu, insn: Insn, env: Env)
    ensures Tells(s, ExecAll(s, if insn.cmpxchg then [Cmpxchg] else [], env, NO_OP), Atomic(MeterOf(s), insn))
  {
    TellsNothing(s);
    if insn.cmpxchg { ExecOne(s, Cmpxchg, env, NO_OP); }
  }

  lemma PauseTells(s: Vcpu, tb: Block, i: nat, env: Env)
    requires i < |tb.insns|
    ensures Tells(s, ExecAll(s, if i == |tb.insns| - 1 then LastHooks(tb, Detailed, tb.insns[i]) else [], env, NO_OP),
                  Paused(MeterOf(s), tb, i))
  {
    TellsNothing(s);
    if i == |tb.insns| - 1 {
      var pause := if tb.pause then [Pause] else [];
      var branch := BranchHooks(tb, Detailed, tb.insns[i]);
      ExecAllAppend(s, pause, branch, env, NO_OP);
      if tb.pause { ExecOne(s, Pause, env, NO_OP); }
      var t := ExecAll(s, pause, env, NO_OP);
      if tb.branch { ExecOne(t, BranchAt(tb.insns[i].vaddr), env, NO_OP); }
    }
  }

  lemma DetailedHooks(tb: Block, i: nat)
    requires i < |tb.insns|
    ensures var insn := tb.insns[i];
            HooksAt(tb, Detailed, i).exec
            == [UpdatePc(insn.vaddr), InsnItlb(insn.ram), PcNext(insn.next)]
               + ((if insn.cmpxchg then [Cmpxchg] else [])
                  + if i == |tb.insns| - 1 then LastHooks(tb, Detailed, insn) else [])
    ensures HooksAt(tb, Detailed, i).mem == [MemSendDetailed]
  {
  }

  lemma StartedTells(s: Vcpu, tb: Block, i: nat, env: Env)
    requires i < |tb.insns|
    ensures Tells(s, ExecAll(s, HooksAt(tb, Detailed, i).exec, env, NO_OP), Started(MeterOf(s), tb, i, env))
  {
    var insn := tb.insns[i];
    var head := [UpdatePc(insn.vaddr), InsnItlb(insn.ram), PcNext(insn.next)];
    var atomic := if insn.cmpxchg then [Cmpxchg] else [];
    var last := if i == |tb.insns| - 1 then LastHooks(tb, Detailed, insn) else [];
    var s1 := ExecAll(s, head, env, NO_OP);
    var s2 := ExecAll(s1, atomic, env, NO_OP);
    var s3 := ExecAll(s2, last, env, NO_OP);
    DetailedHooks(tb, i);
    ExecAllAppend(s, head, atomic + last, env, NO_OP);
    ExecAllAppend(s1, atomic, last, env, NO_OP);
    HeadTells(s, insn, env);
    AtomicTells(s1, insn, env);
    PauseTells(s2, tb, i, env);
    TellsOn(s1, s2, s3, Atomic(MeterOf(s1), insn), Paused(MeterOf(s2), tb, i));
    var ended := Ended(MeterOf(s), env);
    TellsOn(s, s1, s3, Tale(ended.m, ended.es + Fetched(ended.m, insn, env)),
            Then(Atomic(MeterOf(s1), insn), Paused(MeterOf(s2), tb, i)));
  }

  lemma AccessTells(s: Vcpu, op: MemOp, env: Env)
    ensures Tells(s, DoMemSendDetailed(s, env, op), OpTale(MeterOf(s), op, env))
  {
    var both := [Translate(op.vaddr, op.paddr), InstructionMem(op.vaddr)];
    MagicTurnsCapture(env, op);
    assert s.output + [InstructionAbort] + both == s.output + ([InstructionAbort] + both);
    assert [] + both == both;
  }

  lemma {:induction false} AccessesTell(s: Vcpu, ops: seq<(MemOp, Env)>)
    ensures Tells(s, ExecOps(s, [MemSendDetailed], ops), OpsTale(MeterOf(s), ops))
    decreases |ops|
  {
    if ops == [] {
      TellsNothing(s);
    } else {
      var op, env := ops[0].0, ops[0].1;
      var s1 := DoMemSendDetailed(s, env, op);
      ExecOne(s, MemSendDetailed, env, op);
      AccessTells(s, op, env);
      AccessesTell(s1, ops[1..]);
      TellsOn(s, s1, ExecOps(s1, [MemSendDetailed], ops[1..]), OpTale(MeterOf(s), op, env),
              OpsTale(MeterOf(s1), ops[1..]));
    }
  }

  lemma DetailedInsnTells(s: Vcpu, tb: Block, i: nat, v: InsnVisit)
    requires i < |tb.insns|
    ensures Tells(s, ExecInsn(s, HooksAt(tb, Detailed, i), v), DetailedInsn(MeterOf(s), tb, i, v))
  {
    var s1 := ExecAll(s, HooksAt(tb, Detailed, i).exec, v.env, NO_OP);
    StartedTells(s, tb, i, v.env);
    AccessesTell(s1, v.ops);
    DetailedHooks(tb, i);
    TellsOn(s, s1, ExecOps(s1, [MemSendDetailed], v.ops), Started(MeterOf(s), tb, i, v.env),
            OpsTale(MeterOf(s1), v.ops));
  }

  lemma {:induction false} DetailedBodyTells(s: Vcpu, tb: Block, vs: seq<InsnVisit>)
    requires tb.Valid() && |vs| <= |tb.insns|
    ensures Tells(s, ExecInsns(s, Instrument(tb, Detailed).insns, vs), DetailedBody(MeterOf(s), tb, vs))
  {
    if vs == [] {
      TellsNothing(s);
    } else {
      var n := |vs| - 1;
      var t := ExecInsns(s, Instrument(tb, Detailed).insns, vs[..n]);
      DetailedBodyTells(s, tb, vs[..n]);
      ExecInsnsStep(s, tb, Detailed, vs, n);
      DetailedInsnTells(t, tb, n, vs[n]);
      TellsOn(s, t, ExecInsn(t, HooksAt(tb, Detailed, n), vs[n]), DetailedBody(MeterOf(s), tb, vs[..n]),
              DetailedInsn(MeterOf(t), tb, n, vs[n]));
    }
  }

  lemma BranchedTells(s: Vcpu, prev: Maybe, tb: Block, env: Env)
    requires Remembers(s, prev) && s.br.target == tb.vaddr
    ensures Tells(s, DoBranchDetailed(s, env), BranchTale(MeterOf(s), prev, tb, env))
  {
    RegionIsInside(env);
    TellsNothing(s);
    if LeavesBranch(prev) {
      var e := InstructionBranch(s.br.target != s.br.fallthrough);
      assert s.output + [VCPUResume] + [e] == s.output + ([VCPUResume] + [e]);
      assert s.output + [InstructionEnd, VCPUIdle] + [e] == s.output + ([InstructionEnd, VCPUIdle] + [e]);
      assert [] + [e] == [e];
    }
  }

  lemma FirstLineTells(s: Vcpu, tb: Block, env: Env)
    requires s.tbVaddr1 == tb.vaddr
    ensures var t := ExecAll(s, [Itlb1(tb.ram), SendICache1(tb.host)], env, NO_OP);
            Tells(s, t, Tale(MeterOf(s), FirstLine(tb, env)))
  {
    RegionIsInside(env);
    assert [Itlb1(tb.ram), SendICache1(tb.host)] == [Itlb1(tb.ram)] + [SendICache1(tb.host)];
    ExecFirst(s, Itlb1(tb.ram), [SendICache1(tb.host)], env, NO_OP);
    ExecOne(Exec(s, Itlb1(tb.ram), env, NO_OP), SendICache1(tb.host), env, NO_OP);
    assert s.output + [] == s.output;
  }

  lemma SecondLineTells(s: Vcpu, tb: Block, env: Env)
    ensures Tells(s, ExecAll(s, SecondPageHooks(tb.second), env, NO_OP), Tale(MeterOf(s), SecondLine(tb, env)))
  {
    RegionIsInside(env);
    TellsNothing(s);
    if tb.second.SecondPage? {
      ExecThree(s, Vaddr2(tb.second.vaddr), Itlb2(tb.second.ram), SendICache2(tb.second.host), env, NO_OP);
    }
  }

  function LineHooks(tb: Block): seq<Callback> {
    [Itlb1(tb.ram), SendICache1(tb.host)] + SecondPageHooks(tb.second)
  }

  lemma LinesTell(s: Vcpu, tb: Block, env: Env)
    requires s.tbVaddr1 == tb.vaddr
    ensures Tells(s, ExecAll(s, LineHooks(tb), env, NO_OP), Tale(MeterOf(s), Lines(tb, env)))
  {
    var first := [Itlb1(tb.ram), SendICache1(tb.host)];
    var s1 := ExecAll(s, first, env, NO_OP);
    var line := FirstLine(tb, env);
    ExecAllAppend(s, first, SecondPageHooks(tb.second), env, NO_OP);
    FirstLineTells(s, tb, env);
    SecondLineTells(s1, tb, env);
    TellsOn(s, s1, ExecAll(s1, SecondPageHooks(tb.second), env, NO_OP), Tale(MeterOf(s), line),
            Tale(MeterOf(s), SecondLine(tb, env)));
  }

  lemma DetailedEntryHooks(tb: Block)
    requires tb.Valid()
    ensures EntryHooks(tb, Detailed)
         == [HotBlocks(tb.vaddr), UpdateTarget(tb.vaddr), BranchDetailed]
            + (LineHooks(tb) + FallthroughHook(tb))
  {
  }

  lemma DetailedEntryRuns(s: Vcpu, tb: Block, env: Env)
    requires tb.Valid()
    ensures var s1 := Exec(Exec(s, HotBlocks(tb.vaddr), env, NO_OP), UpdateTarget(tb.vaddr), env, NO_OP);
            var s3 := ExecAll(DoBranchDetailed(s1, env), LineHooks(tb), env, NO_OP);
            ExecAll(s, EntryHooks(tb, Detailed), env, NO_OP) == ExecAll(s3, FallthroughHook(tb), env, NO_OP)
  {
    var first := [HotBlocks(tb.vaddr), UpdateTarget(tb.vaddr), BranchDetailed];
    DetailedEntryHooks(tb);
    ExecAllAppend(s, first, LineHooks(tb) + FallthroughHook(tb), env, NO_OP);
    ExecThree(s, HotBlocks(tb.vaddr), UpdateTarget(tb.vaddr), BranchDetailed, env, NO_OP);
    ExecAllAppend(ExecAll(s, first, env, NO_OP), LineHooks(tb), FallthroughHook(tb), env, NO_OP);
  }

  lemma LookupsTellNothing(s: Vcpu, tb: Block, env: Env)
    ensures var t := Exec(Exec(s, HotBlocks(tb.vaddr), env, NO_OP), UpdateTarget(tb.vaddr), env, NO_OP);
            && t.output == s.output && MeterOf(t) == MeterOf(s) && t.tbVaddr1 == tb.vaddr
            && t.br == s.br.(target := tb.vaddr)
  {
  }

  lemma DetailedEntryTells(s: Vcpu, prev: Maybe, tb: Block, env: Env)
    requires Remembers(s, prev) && tb.Valid()
    ensures Tells(s, ExecAll(s, EntryHooks(tb, Detailed), env, NO_OP), EntryTale(MeterOf(s), prev, tb, env))
  {
    var s1 := Exec(Exec(s, HotBlocks(tb.vaddr), env, NO_OP), UpdateTarget(tb.vaddr), env, NO_OP);
    var s2 := DoBranchDetailed(s1, env);
    var s3 := ExecAll(s2, LineHooks(tb), env, NO_OP);
    DetailedEntryRuns(s, tb, env);
    LookupsTellNothing(s, tb, env);
    BranchedTells(s1, prev, tb, env);
    BranchKeepsPage(s1, env);
    LinesTell(s2, tb, env);
    TellsOn(s1, s2, s3, BranchTale(MeterOf(s1), prev, tb, env), Tale(MeterOf(s2), Lines(tb, env)));
    FallthroughTellsNothing(s3, tb, env);
  }

  lemma BranchKeepsPage(s: Vcpu, env: Env)
    ensures DoBranchDetailed(s, env).tbVaddr1 == s.tbVaddr1
  {
  }

  // ---- whole runs ----

  lemma VisitTells(s: Vcpu, prev: Maybe, v: Visit)
    requires Remembers(s, prev) && v.Valid()
    ensures Tells(s, ExecVisit(s, v), VisitTale(MeterOf(s), prev, v))
  {
    var s1 := ExecAll(s, EntryHooks(v.tb, v.mode), v.env, NO_OP);
    match v.mode
    case Icount => FastVisitTells(s, v);
    case Memory =>
      CacheEntryTells(s, prev, v.tb, v.env);
      CacheBodyTells(s1, v.tb, v.insns);
      TellsOn(s, s1, ExecVisit(s, v), CacheEntry(MeterOf(s), prev, v.tb), CacheBody(MeterOf(s1), v.tb, v.insns));
    case Detailed =>
      DetailedEntryTells(s, prev, v.tb, v.env);
      DetailedBodyTells(s1, v.tb, v.insns);
      TellsOn(s, s1, ExecVisit(s, v), EntryTale(MeterOf(s), prev, v.tb, v.env),
              DetailedBody(MeterOf(s1), v.tb, v.insns));
  }

  lemma OutsideTells(s: Vcpu, o: Outside)
    ensures Tells(s, React(s, o), OutsideTale(MeterOf(s), o))
  {
    assert s.output + [] == s.output;
    assert s.output + [InstructionEnd] + [VCPUIdle] == s.output + ([InstructionEnd] + [VCPUIdle]);
  }

  /** The recorder refines the reference: in every run, with any mixture of modes, it writes exactly
      the reference's events, all of them and in this order, and its counters, target, flags and
      assertions are the reference's. */
  lemma {:induction false} RunTells(s: Vcpu, run: seq<Item>)
    requires ValidRun(run) && s.br.addr == 0
    ensures Tells(s, Run(s, run), RunTale(MeterOf(s), run))
  {
    if run == [] {
      TellsNothing(s);
    } else {
      var n := |run| - 1;
      var t, prev := Run(s, run[..n]), Previous(run[..n]);
      RunTells(s, run[..n]);
      BranchIsRemembered(s, run[..n]);
      if run[n].Ran? { VisitTells(t, prev, run[n].visit); } else { OutsideTells(t, run[n].outside); }
      TellsOn(s, t, Run(s, run), RunTale(MeterOf(s), run[..n]), ItemTale(MeterOf(t), prev, run[n]));
    }
  }

  /** From `thread_data_reset` on, the whole stream of any run is what the reference tells, starting
      idle, not capturing, with no counts and no target. */
  lemma FromResetTells(run: seq<Item>)
    requires ValidRun(run)
    ensures var tale := RunTale(Meter(true, false, true, 0, Counters(0, 0, 0, 0, 0, 0, 0, 0, 0)), run);
            Run(STARTED, run).output == tale.es && MeterOf(Run(STARTED, run)) == tale.m
  {
    RunTells(STARTED, run);
  }
}
