/** The detailed stream as one ordered account: how the beginnings and endings of instructions, their
    memory operations, the branches between blocks, and idling and resuming follow each other in any
    run, with any mixture of modes. */
module TraceDetailedOrder {
  import opened Arithmetic
  import opened Counting
  import opened Trace
  import opened TraceFrames
  import opened TraceRegion
  import opened TraceCacheOnly
  import opened TraceDetailed
  import opened TraceDetailedData

  // ---- the specification ----

  /** A memory operation; a store to `magic` in the region of interest aborts the instruction first. */
  function OpStory(op: MemOp, env: Env): seq<Event> {
    (if TurnsCapture(env, op) then [InstructionAbort] else []) + [InstructionMem(op.vaddr)]
  }

  function OpsStory(ops: seq<(MemOp, Env)>): seq<Event> {
    if ops == [] then [] else OpStory(ops[0].0, ops[0].1) + OpsStory(ops[1..])
  }

  /** What decides what is told next: whether the vcpu idles, and whether it captures. */
  datatype Mood = Mood(idle: bool, capturing: bool)

  /** A store to `magic` in the region of interest turns capturing on or off. */
  function OpsTurn(m: Mood, ops: seq<(MemOp, Env)>): Mood
    decreases |ops|
  {
    if ops == [] then m else OpsTurn(OpTurns(m, ops[0].0, ops[0].1), ops[1..])
  }

  function OpTurns(m: Mood, op: MemOp, env: Env): Mood {
    if TurnsCapture(env, op) then m.(capturing := !m.capturing) else m
  }

  function BodyTurns(m: Mood, vs: seq<InsnVisit>): Mood {
    if vs == [] then m else OpsTurn(BodyTurns(m, vs[..|vs| - 1]), vs[|vs| - 1].ops)
  }

  /** An instruction in the region of interest begins unless the vcpu captures. */
  function BeginStory(m: Mood, insn: Insn, env: Env): seq<Event> {
    if Inside(env) && !m.capturing then [InstructionBegin(insn.vaddr, Wrap64(insn.next - insn.vaddr))] else []
  }

  /** An instruction ends the one before, begins if it is to be reported, and accesses memory. */
  function InsnStory(m: Mood, insn: Insn, v: InsnVisit): seq<Event> {
    [InstructionEnd] + BeginStory(m, insn, v.env) + OpsStory(v.ops)
  }

  function BodyStory(m: Mood, insns: seq<Insn>, vs: seq<InsnVisit>): seq<Event>
    requires |vs| <= |insns|
  {
    if vs == [] then []
    else
      var n := |vs| - 1;
      BodyStory(m, insns, vs[..n]) + InsnStory(BodyTurns(m, vs[..n]), insns[n], vs[n])
  }

  /** Entering or leaving the region of interest wakes the vcpu or puts it to sleep. */
  function RegionStory(idle: bool, env: Env): seq<Event> {
    if Inside(env) then (if idle then [VCPUResume] else [])
    else if idle then [] else [InstructionEnd] + [VCPUIdle]
  }

  /** A block that follows a branch looks at the region, and reports the branch. */
  function EntryStory(prev: Maybe, m: Mood, v: Visit): seq<Event> {
    if LeavesBranch(prev)
    then RegionStory(m.idle, v.env) + [InstructionBranch(v.tb.vaddr != prev.visit.tb.nextPc)] else []
  }

  function EntryTurns(prev: Maybe, m: Mood, v: Visit): Mood {
    if LeavesBranch(prev) then m.(idle := !Inside(v.env)) else m
  }

  function OutsideStory(idle: bool, o: Outside): seq<Event> {
    match o
    case Idle(env) => (if env.mode.Detailed? then [InstructionEnd] else []) + if idle then [] else [VCPUIdle]
    case Resume => if idle then [VCPUResume] else []
    case Interrupt(env) => if env.mode.Detailed? then [InstructionEnd] else []
    case _ => []
  }

  function OutsideTurns(m: Mood, o: Outside): Mood {
    m.(idle := o.Idle? || (m.idle && !o.Resume?))
  }

  function ItemStory(prev: Maybe, m: Mood, item: Item): seq<Event>
    requires item.Ran? ==> item.visit.Valid()
  {
    match item
    case Ran(v) =>
      if v.mode.Detailed? then EntryStory(prev, m, v) + BodyStory(EntryTurns(prev, m, v), v.tb.insns, v.insns) else []
    case Came(o) => OutsideStory(m.idle, o)
  }

  function ItemTurns(prev: Maybe, m: Mood, item: Item): Mood {
    match item
    case Ran(v) => if v.mode.Detailed? then BodyTurns(EntryTurns(prev, m, v), v.insns) else m
    case Came(o) => OutsideTurns(m, o)
  }

  function RunTurns(m: Mood, run: seq<Item>): Mood {
    if run == [] then m
    else
      var n := |run| - 1;
      ItemTurns(Previous(run[..n]), RunTurns(m, run[..n]), run[n])
  }

  /** What the stream is to tell of a run. */
  function RunStory(m: Mood, run: seq<Item>): seq<Event>
    requires ValidRun(run)
  {
    if run == [] then []
    else
      var n := |run| - 1;
      RunStory(m, run[..n]) + ItemStory(Previous(run[..n]), RunTurns(m, run[..n]), run[n])
  }

  predicate IsTold(e: Event) {
    || e.InstructionBegin? || e.InstructionEnd? || e.InstructionAbort? || e.InstructionMem? || e.InstructionBranch?
    || e.VCPUIdle? || e.VCPUResume?
  }

  function Story(s: Vcpu): seq<Event> { Select(IsTold, s.output) }

  function MoodOf(s: Vcpu): Mood { Mood(s.idle, s.capturing) }

  /** `t` tells `es` more than `s`, and its mood is `m`. */
  ghost predicate Tells(s: Vcpu, t: Vcpu, es: seq<Event>, m: Mood) {
    Story(t) == Story(s) + es && MoodOf(t) == m
  }

  // ---- steps that tell nothing ----

  predicate Neutral(cb: Callback) { !cb.UpdatePc? && !cb.PcNext? && !cb.MemSendDetailed? && !cb.BranchDetailed? }

  predicate AllNeutral(cbs: seq<Callback>) {
    forall i :: 0 <= i < |cbs| ==> Neutral(cbs[i])
  }

  ghost predicate TellsNothing(s: Vcpu, t: Vcpu) {
    Story(t) == Story(s) && MoodOf(t) == MoodOf(s)
  }

  lemma {:induction false} NeutralAll(s: Vcpu, cbs: seq<Callback>, env: Env, op: MemOp)
    requires AllNeutral(cbs)
    ensures TellsNothing(s, ExecAll(s, cbs, env, op))
    decreases |cbs|
  {
    if cbs != [] {
      ExecIsFramed(s, cbs[0], env, op);
      ExecAddsNone(IsTold, s, cbs[0], env, op);
      SelectUnchanged(IsTold, s, Exec(s, cbs[0], env, op));
      NeutralAll(Exec(s, cbs[0], env, op), cbs[1..], env, op);
    }
  }

  lemma {:induction false} NeutralOps(s: Vcpu, cbs: seq<Callback>, ops: seq<(MemOp, Env)>)
    requires AllNeutral(cbs)
    ensures TellsNothing(s, ExecOps(s, cbs, ops))
    decreases |ops|
  {
    if ops != [] {
      NeutralAll(s, cbs, ops[0].1, ops[0].0);
      NeutralOps(ExecAll(s, cbs, ops[0].1, ops[0].0), cbs, ops[1..]);
    }
  }

  lemma TellsOn(s: Vcpu, t: Vcpu, u: Vcpu, es: seq<Event>, more: seq<Event>, m: Mood)
    requires Story(t) == Story(s) + es && Tells(t, u, more, m)
    ensures Tells(s, u, es + more, m)
  {
    Associates(Story(s), es, more);
  }

  // ---- one instruction ----

  lemma EndTells(s: Vcpu, env: Env, vaddr: Word)
    ensures var t := DoUpdatePc(s, env, vaddr);
            Tells(s, t, [InstructionEnd], MoodOf(s)) && t.pc == vaddr
  {
    var ended := s.output + [InstructionEnd];
    UpdatePcWrites(s, env, vaddr);
    UpdatePcIsFramed(s, env, vaddr);
    SelectPush(IsTold, s.output, InstructionEnd);
    SelectPush(IsTold, ended, Sync(Pace));
  }

  lemma FetchTellsNothing(s: Vcpu, env: Env, ram: Word)
    ensures var t := IfInRoi(s, env, Translate(s.pc, ram)); TellsNothing(s, t) && t.pc == s.pc
  {
    SelectPush(IsTold, s.output, Translate(s.pc, ram));
  }

  lemma BeginTells(s: Vcpu, insn: Insn, env: Env)
    requires s.pc == insn.vaddr
    ensures Tells(s, DoPcNext(s, env, insn.next), BeginStory(MoodOf(s), insn, env), MoodOf(s))
  {
    SelectPush(IsTold, s.output, InstructionBegin(s.pc, Wrap64(insn.next - s.pc)));
    assert Story(s) + [] == Story(s);
  }

  lemma HeadTells(s: Vcpu, insn: Insn, env: Env)
    ensures Tells(s, ExecAll(s, Head(insn), env, NO_OP), [InstructionEnd] + BeginStory(MoodOf(s), insn, env), MoodOf(s))
  {
    var s1 := DoUpdatePc(s, env, insn.vaddr);
    var s2 := IfInRoi(s1, env, Translate(s1.pc, insn.ram));
    HeadRuns(s, insn, env);
    EndTells(s, env, insn.vaddr);
    FetchTellsNothing(s1, env, insn.ram);
    BeginTells(s2, insn, env);
    TellsOn(s, s2, DoPcNext(s2, env, insn.next), [InstructionEnd], BeginStory(MoodOf(s), insn, env), MoodOf(s));
  }

  lemma TailIsNeutral(tb: Block, i: nat)
    requires i < |tb.insns|
    ensures AllNeutral(Tail(tb, i))
  {
  }

  lemma AccessTells(s: Vcpu, out: seq<Event>, es: seq<Event>, op: MemOp)
    requires Select(IsTold, out) == Story(s) + es
    ensures Select(IsTold, out + [Translate(op.vaddr, op.paddr)] + [InstructionMem(op.vaddr)])
         == Story(s) + (es + [InstructionMem(op.vaddr)])
  {
    SelectPush(IsTold, out, Translate(op.vaddr, op.paddr));
    SelectPush(IsTold, out + [Translate(op.vaddr, op.paddr)], InstructionMem(op.vaddr));
    Associates(Story(s), es, [InstructionMem(op.vaddr)]);
  }

  lemma MemAddsToStory(s: Vcpu, env: Env, op: MemOp)
    ensures Story(DoMemSendDetailed(s, env, op)) == Story(s) + OpStory(op, env)
  {
    var abort: seq<Event> := if TurnsCapture(env, op) then [InstructionAbort] else [];
    assert s.output + [] == s.output && Story(s) + [] == Story(s);
    SelectPush(IsTold, s.output, InstructionAbort);
    AccessTells(s, s.output + abort, abort, op);
    MemSendWrites(s, env, op, s.output + abort);
  }

  lemma MemTurns(s: Vcpu, env: Env, op: MemOp)
    ensures MoodOf(DoMemSendDetailed(s, env, op)) == OpTurns(MoodOf(s), op, env)
  {
  }

  lemma OpsUnfold(s: Vcpu, ops: seq<(MemOp, Env)>)
    requires ops != []
    ensures ExecOps(s, [MemSendDetailed], ops)
         == ExecOps(DoMemSendDetailed(s, ops[0].1, ops[0].0), [MemSendDetailed], ops[1..])
  {
    ExecOne(s, MemSendDetailed, ops[0].1, ops[0].0);
  }

  lemma {:induction false} OpsTell(s: Vcpu, ops: seq<(MemOp, Env)>)
    ensures Tells(s, ExecOps(s, [MemSendDetailed], ops), OpsStory(ops), OpsTurn(MoodOf(s), ops))
    decreases |ops|
  {
    if ops == [] {
      assert Story(s) + [] == Story(s);
    } else {
      var op, env := ops[0].0, ops[0].1;
      var s1 := DoMemSendDetailed(s, env, op);
      MemAddsToStory(s, env, op);
      MemTurns(s, env, op);
      OpsTell(s1, ops[1..]);
      OpsUnfold(s, ops);
      TellsOn(s, s1, ExecOps(s, [MemSendDetailed], ops), OpStory(op, env), OpsStory(ops[1..]), OpsTurn(MoodOf(s), ops));
    }
  }

  lemma InsnTells(s: Vcpu, tb: Block, i: nat, v: InsnVisit)
    requires i < |tb.insns|
    ensures Tells(s, ExecInsn(s, HooksAt(tb, Detailed, i), v), InsnStory(MoodOf(s), tb.insns[i], v),
                  OpsTurn(MoodOf(s), v.ops))
  {
    var insn, tail := tb.insns[i], Tail(tb, i);
    var s1 := ExecAll(s, Head(insn), v.env, NO_OP);
    var s2 := ExecAll(s1, tail, v.env, NO_OP);
    HooksAreHeadAndTail(tb, i);
    ExecAllAppend(s, Head(insn), tail, v.env, NO_OP);
    HeadTells(s, insn, v.env);
    TailIsNeutral(tb, i);
    NeutralAll(s1, tail, v.env, NO_OP);
    OpsTell(s2, v.ops);
    HooksSendMemory(tb, i);
    TellsOn(s, s2, ExecOps(s2, [MemSendDetailed], v.ops), [InstructionEnd] + BeginStory(MoodOf(s), insn, v.env),
            OpsStory(v.ops), OpsTurn(MoodOf(s), v.ops));
  }

  lemma HooksSendMemory(tb: Block, i: nat)
    requires i < |tb.insns|
    ensures HooksAt(tb, Detailed, i).mem == [MemSendDetailed]
  {
  }

  // ---- blocks ----

  lemma OneMoreInsn(s: Vcpu, t: Vcpu, tb: Block, i: nat, v: InsnVisit, es: seq<Event>, m: Mood)
    requires Tells(s, t, es, m) && i < |tb.insns|
    ensures Tells(s, ExecInsn(t, HooksAt(tb, Detailed, i), v), es + InsnStory(m, tb.insns[i], v), OpsTurn(m, v.ops))
  {
    InsnTells(t, tb, i, v);
    TellsOn(s, t, ExecInsn(t, HooksAt(tb, Detailed, i), v), es, InsnStory(m, tb.insns[i], v), OpsTurn(m, v.ops));
  }

  /** Any prefix of a block in the detailed mode tells its instructions one after the other. */
  lemma {:induction false} InsnsTell(s: Vcpu, tb: Block, vs: seq<InsnVisit>)
    requires tb.Valid() && |vs| <= |tb.insns|
    ensures Tells(s, ExecInsns(s, Instrument(tb, Detailed).insns, vs), BodyStory(MoodOf(s), tb.insns, vs),
                  BodyTurns(MoodOf(s), vs))
  {
    if vs == [] {
      assert Story(s) + [] == Story(s);
    } else {
      var n := |vs| - 1;
      InsnsTell(s, tb, vs[..n]);
      ExecInsnsStep(s, tb, Detailed, vs, n);
      OneMoreInsn(s, ExecInsns(s, Instrument(tb, Detailed).insns, vs[..n]), tb, n, vs[n],
                  BodyStory(MoodOf(s), tb.insns, vs[..n]), BodyTurns(MoodOf(s), vs[..n]));
    }
  }

  lemma RegionTells(s: Vcpu, env: Env)
    ensures Select(IsTold, s.output + RegionStory(s.idle, env)) == Story(s) + RegionStory(s.idle, env)
  {
    SelectAppend(IsTold, s.output, RegionStory(s.idle, env));
    SelectAll(IsTold, RegionStory(s.idle, env));
  }

  lemma BranchTellsWrites(s: Vcpu, env: Env)
    requires s.br.addr != 0
    ensures var t := DoBranchDetailed(s, env);
            && t.output == s.output + RegionStory(s.idle, env) + [InstructionBranch(s.br.target != s.br.fallthrough)]
            && t.idle == !Inside(env) && t.capturing == s.capturing
  {
    assert s.output + [] == s.output;
  }

  lemma BranchTells(s: Vcpu, env: Env)
    requires s.br.addr != 0
    ensures Tells(s, DoBranchDetailed(s, env),
                  RegionStory(s.idle, env) + [InstructionBranch(s.br.target != s.br.fallthrough)],
                  MoodOf(s).(idle := !Inside(env)))
  {
    var e := InstructionBranch(s.br.target != s.br.fallthrough);
    BranchTellsWrites(s, env);
    RegionTells(s, env);
    SelectPush(IsTold, s.output + RegionStory(s.idle, env), e);
    Associates(Story(s), RegionStory(s.idle, env), [e]);
  }

  function EntryTail(tb: Block): seq<Callback> {
    [Itlb1(tb.ram), SendICache1(tb.host)] + SecondPageHooks(tb.second) + FallthroughHook(tb)
  }

  lemma EntryIsBranchAndTail(tb: Block)
    requires tb.Valid()
    ensures EntryHooks(tb, Detailed)
         == [HotBlocks(tb.vaddr), UpdateTarget(tb.vaddr)] + ([BranchDetailed] + EntryTail(tb))
    ensures AllNeutral([HotBlocks(tb.vaddr), UpdateTarget(tb.vaddr)]) && AllNeutral(EntryTail(tb))
  {
  }

  lemma EntryStarts(s: Vcpu, tb: Block, env: Env)
    ensures var t := ExecAll(s, [HotBlocks(tb.vaddr), UpdateTarget(tb.vaddr)], env, NO_OP);
            t.br == s.br.(target := tb.vaddr)
  {
    assert [HotBlocks(tb.vaddr), UpdateTarget(tb.vaddr)] == [HotBlocks(tb.vaddr)] + [UpdateTarget(tb.vaddr)];
    ExecFirst(s, HotBlocks(tb.vaddr), [UpdateTarget(tb.vaddr)], env, NO_OP);
    ExecOne(Exec(s, HotBlocks(tb.vaddr), env, NO_OP), UpdateTarget(tb.vaddr), env, NO_OP);
  }

  lemma EntryTells(s: Vcpu, prev: Maybe, v: Visit)
    requires Remembers(s, prev) && v.Valid() && v.mode.Detailed?
    ensures Tells(s, ExecAll(s, EntryHooks(v.tb, Detailed), v.env, NO_OP), EntryStory(prev, MoodOf(s), v),
                  EntryTurns(prev, MoodOf(s), v))
  {
    var first := [HotBlocks(v.tb.vaddr), UpdateTarget(v.tb.vaddr)];
    var s1 := ExecAll(s, first, v.env, NO_OP);
    EntryIsBranchAndTail(v.tb);
    ExecAllAppend(s, first, [BranchDetailed] + EntryTail(v.tb), v.env, NO_OP);
    ExecFirst(s1, BranchDetailed, EntryTail(v.tb), v.env, NO_OP);
    EntryStarts(s, v.tb, v.env);
    NeutralAll(s, first, v.env, NO_OP);
    NeutralAll(DoBranchDetailed(s1, v.env), EntryTail(v.tb), v.env, NO_OP);
    if LeavesBranch(prev) {
      BranchTells(s1, v.env);
    } else {
      assert Story(s) + [] == Story(s);
    }
  }

  lemma OtherHooksAreNeutral(tb: Block, mode: Mode, i: nat)
    requires i < |tb.insns| && !mode.Detailed?
    ensures AllNeutral(HooksAt(tb, mode, i).exec) && AllNeutral(HooksAt(tb, mode, i).mem)
  {
  }

  lemma {:induction false} OtherInsnsTellNothing(s: Vcpu, tb: Block, mode: Mode, vs: seq<InsnVisit>)
    requires tb.Valid() && |vs| <= |tb.insns| && !mode.Detailed?
    ensures TellsNothing(s, ExecInsns(s, Instrument(tb, mode).insns, vs))
  {
    if vs != [] {
      var n := |vs| - 1;
      OtherInsnsTellNothing(s, tb, mode, vs[..n]);
      ExecInsnsStep(s, tb, mode, vs, n);
      OtherHooksAreNeutral(tb, mode, n);
      var s1 := ExecInsns(s, Instrument(tb, mode).insns, vs[..n]);
      NeutralAll(s1, HooksAt(tb, mode, n).exec, vs[n].env, NO_OP);
      NeutralOps(ExecAll(s1, HooksAt(tb, mode, n).exec, vs[n].env, NO_OP), HooksAt(tb, mode, n).mem, vs[n].ops);
    }
  }

  lemma OtherEntryIsNeutral(tb: Block, mode: Mode)
    requires tb.Valid() && !mode.Detailed?
    ensures AllNeutral(EntryHooks(tb, mode))
  {
  }

  lemma OtherVisitTellsNothing(s: Vcpu, v: Visit)
    requires v.Valid() && !v.mode.Detailed?
    ensures TellsNothing(s, ExecVisit(s, v))
  {
    OtherEntryIsNeutral(v.tb, v.mode);
    NeutralAll(s, EntryHooks(v.tb, v.mode), v.env, NO_OP);
    OtherInsnsTellNothing(ExecAll(s, EntryHooks(v.tb, v.mode), v.env, NO_OP), v.tb, v.mode, v.insns);
  }

  lemma VisitTells(s: Vcpu, prev: Maybe, v: Visit)
    requires Remembers(s, prev) && v.Valid() && v.mode.Detailed?
    ensures Tells(s, ExecVisit(s, v), ItemStory(prev, MoodOf(s), Ran(v)), ItemTurns(prev, MoodOf(s), Ran(v)))
  {
    var s1, m := ExecAll(s, EntryHooks(v.tb, Detailed), v.env, NO_OP), EntryTurns(prev, MoodOf(s), v);
    EntryTells(s, prev, v);
    InsnsTell(s1, v.tb, v.insns);
    TellsOn(s, s1, ExecVisit(s, v), EntryStory(prev, MoodOf(s), v), BodyStory(m, v.tb.insns, v.insns),
            BodyTurns(m, v.insns));
  }

  lemma EndPush(s: Vcpu)
    ensures Story(Emit(s, [InstructionEnd])) == Story(s) + [InstructionEnd]
  {
    SelectPush(IsTold, s.output, InstructionEnd);
  }

  lemma IdleTells(s: Vcpu, env: Env)
    ensures var t := React(s, Idle(env));
            Story(t) == Story(s) + OutsideStory(s.idle, Idle(env)) && t.idle && t.capturing == s.capturing
  {
    var s1 := if env.mode.Detailed? then Emit(s, [InstructionEnd]) else s;
    EndPush(s);
    SelectPush(IsTold, s1.output, VCPUIdle);
  }

  lemma ResumeTells(s: Vcpu)
    ensures var t := React(s, Resume);
            Story(t) == Story(s) + OutsideStory(s.idle, Resume) && !t.idle && t.capturing == s.capturing
  {
    SelectPush(IsTold, s.output, VCPUResume);
    assert Story(s) + [] == Story(s);
  }

  lemma OtherArrivalTells(s: Vcpu, o: Outside)
    requires !o.Idle? && !o.Resume?
    ensures var t := React(s, o);
            Story(t) == Story(s) + OutsideStory(s.idle, o) && t.idle == s.idle && t.capturing == s.capturing
  {
    ReactIsFramed(s, o);
    if o.Interrupt? {
      EndPush(s);
      assert Story(s) + [] == Story(s);
    } else {
      ReactAddsNone(IsTold, s, o);
      SelectUnchanged(IsTold, s, React(s, o));
    }
  }

  lemma OutsideTells(s: Vcpu, o: Outside)
    ensures Tells(s, React(s, o), OutsideStory(s.idle, o), OutsideTurns(MoodOf(s), o))
  {
    match o
    case Idle(env) => IdleTells(s, env);
    case Resume => ResumeTells(s);
    case _ => OtherArrivalTells(s, o);
  }

  // ---- whole runs ----

  lemma ItemTells(s: Vcpu, prev: Maybe, item: Item)
    requires Remembers(s, prev) && (item.Ran? ==> item.visit.Valid())
    ensures Tells(s, Step(s, item), ItemStory(prev, MoodOf(s), item), ItemTurns(prev, MoodOf(s), item))
  {
    if item.Came? {
      OutsideTells(s, item.outside);
    } else if item.visit.mode.Detailed? {
      VisitTells(s, prev, item.visit);
    } else {
      OtherVisitTellsNothing(s, item.visit);
      assert Story(s) + [] == Story(s);
    }
  }

  /** In order, the detailed stream tells exactly: for every instruction of a detailed visit the end of
      the one before, its own beginning, if it is to be reported, and its memory operations; on entry,
      after a branch, the change of region and the branch; and idling, resuming and interrupts. */
  lemma {:induction false} DetailedOrderIsExact(s: Vcpu, run: seq<Item>)
    requires ValidRun(run) && s.br.addr == 0
    ensures Tells(s, Run(s, run), RunStory(MoodOf(s), run), RunTurns(MoodOf(s), run))
  {
    if run == [] {
      assert Story(s) + [] == Story(s);
    } else {
      var n := |run| - 1;
      var t, prev, m := Run(s, run[..n]), Previous(run[..n]), RunTurns(MoodOf(s), run[..n]);
      DetailedOrderIsExact(s, run[..n]);
      BranchIsRemembered(s, run[..n]);
      ItemTells(t, prev, run[n]);
      TellsOn(s, t, Run(s, run), RunStory(MoodOf(s), run[..n]), ItemStory(prev, m, run[n]), RunTurns(MoodOf(s), run));
    }
  }

  // ---- the grammar of the stream ----

  predicate StartsOrGoesOn(e: Event) {
    e.InstructionEnd? || e.InstructionBegin? || e.InstructionMem?
  }

  /** What may come right after what: a beginning only after an end, an abort and a memory operation
      only within an instruction, and after an abort its memory operation. */
  predicate MayFollow(a: Event, b: Event) {
    && (b.InstructionBegin? ==> a.InstructionEnd?)
    && (b.InstructionAbort? ==> StartsOrGoesOn(a))
    && (b.InstructionMem? ==> StartsOrGoesOn(a) || a.InstructionAbort?)
    && (a.InstructionAbort? ==> b.InstructionMem?)
  }

  /** Such a stream, that does not start within an instruction nor stop after an abort. */
  predicate Grammatical(es: seq<Event>) {
    && (forall i :: 0 < i < |es| ==> MayFollow(es[i - 1], es[i]))
    && (es != [] ==> !es[0].InstructionBegin? && !es[0].InstructionAbort? && !es[0].InstructionMem?)
    && (es != [] ==> !es[|es| - 1].InstructionAbort?)
  }

  lemma GrammarJoins(a: seq<Event>, b: seq<Event>)
    requires Grammatical(a) && Grammatical(b)
    ensures Grammatical(a + b)
  {
  }

  lemma {:induction false} GrammarTakesOps(es: seq<Event>, ops: seq<(MemOp, Env)>)
    requires Grammatical(es) && es != [] && StartsOrGoesOn(es[|es| - 1])
    ensures Grammatical(es + OpsStory(ops))
    decreases |ops|
  {
    if ops == [] {
      assert es + [] == es;
    } else {
      GrammarTakesOps(es + OpStory(ops[0].0, ops[0].1), ops[1..]);
      Associates(es, OpStory(ops[0].0, ops[0].1), OpsStory(ops[1..]));
    }
  }

  lemma InsnIsGrammatical(m: Mood, insn: Insn, v: InsnVisit)
    ensures Grammatical(InsnStory(m, insn, v))
  {
    GrammarTakesOps([InstructionEnd] + BeginStory(m, insn, v.env), v.ops);
  }

  lemma {:induction false} BodyIsGrammatical(m: Mood, insns: seq<Insn>, vs: seq<InsnVisit>)
    requires |vs| <= |insns|
    ensures Grammatical(BodyStory(m, insns, vs))
  {
    if vs != [] {
      var n := |vs| - 1;
      var before := BodyTurns(m, vs[..n]);
      BodyIsGrammatical(m, insns, vs[..n]);
      InsnIsGrammatical(before, insns[n], vs[n]);
      GrammarJoins(BodyStory(m, insns, vs[..n]), InsnStory(before, insns[n], vs[n]));
    }
  }

  lemma ItemIsGrammatical(prev: Maybe, m: Mood, item: Item)
    requires item.Ran? ==> item.visit.Valid()
    ensures Grammatical(ItemStory(prev, m, item))
  {
    if item.Ran? && item.visit.mode.Detailed? {
      var v := item.visit;
      var entered := EntryTurns(prev, m, v);
      BodyIsGrammatical(entered, v.tb.insns, v.insns);
      GrammarJoins(EntryStory(prev, m, v), BodyStory(entered, v.tb.insns, v.insns));
    }
  }

  lemma {:induction false} StoryIsGrammatical(m: Mood, run: seq<Item>)
    requires ValidRun(run)
    ensures Grammatical(RunStory(m, run))
  {
    if run != [] {
      var n := |run| - 1;
      var prev, before := Previous(run[..n]), RunTurns(m, run[..n]);
      StoryIsGrammatical(m, run[..n]);
      ItemIsGrammatical(prev, before, run[n]);
      GrammarJoins(RunStory(m, run[..n]), ItemStory(prev, before, run[n]));
    }
  }

  /** In the stream of any run every beginning comes right after an end, and every memory operation
      stands with its own instruction: no branch, idling or resuming comes between. */
  lemma StreamIsGrammatical(s: Vcpu, run: seq<Item>)
    requires ValidRun(run) && s.br.addr == 0 && Grammatical(Story(s))
    ensures Grammatical(Story(Run(s, run)))
  {
    DetailedOrderIsExact(s, run);
    StoryIsGrammatical(MoodOf(s), run);
    GrammarJoins(Story(s), RunStory(MoodOf(s), run));
  }
}
