/** The detailed instruction stream: exactly which instructions it begins, and how beginnings,
    endings and idling are bracketed, in any run with any mixture of modes. */
module TraceDetailed {
  import opened Arithmetic
  import opened Counting
  import opened Trace
  import opened TraceFrames
  import opened TraceRegion
  import opened TraceSteps

  // ---- the specification ----

  /** In-region stores to `magic` among memory operations. */
  function Toggles(ops: seq<(MemOp, Env)>): nat {
    if ops == [] then 0 else (if TurnsCapture(ops[0].1, ops[0].0) then 1 else 0) + Toggles(ops[1..])
  }

  function BodyToggles(vs: seq<InsnVisit>): nat {
    if vs == [] then 0 else BodyToggles(vs[..|vs| - 1]) + Toggles(vs[|vs| - 1].ops)
  }

  function ItemToggles(item: Item): nat {
    if item.Ran? && item.visit.mode.Detailed? then BodyToggles(item.visit.insns) else 0
  }

  /** Stores to `magic` in the region of interest, over the detailed visits of a run. */
  function RunToggles(run: seq<Item>): nat {
    if run == [] then 0 else RunToggles(run[..|run| - 1]) + ItemToggles(run[|run| - 1])
  }

  /** An instruction is begun in the stream when it starts in the region of interest while an even
      number of stores to `magic` lie behind it. */
  function InsnBegins(insn: Insn, env: Env, toggles: nat): seq<Event> {
    if Inside(env) && toggles % 2 == 0 then [InstructionBegin(insn.vaddr, Wrap64(insn.next - insn.vaddr))] else []
  }

  function BodyBegins(insns: seq<Insn>, vs: seq<InsnVisit>, toggles: nat): seq<Event>
    requires |vs| <= |insns|
  {
    if vs == [] then []
    else
      var n := |vs| - 1;
      BodyBegins(insns, vs[..n], toggles) + InsnBegins(insns[n], vs[n].env, toggles + BodyToggles(vs[..n]))
  }

  function RunBegins(run: seq<Item>): seq<Event>
    requires ValidRun(run)
  {
    if run == [] then []
    else
      var n := |run| - 1;
      RunBegins(run[..n]) +
      if run[n].Ran? && run[n].visit.mode.Detailed?
      then BodyBegins(run[n].visit.tb.insns, run[n].visit.insns, RunToggles(run[..n])) else []
  }

  predicate IsBegin(e: Event) { e.InstructionBegin? }

  predicate IsMark(e: Event) { e.InstructionBegin? || e.InstructionEnd? }

  function Begins(s: Vcpu): seq<Event> { Select(IsBegin, s.output) }

  /** The beginnings and endings, without the events between them. */
  function Marks(s: Vcpu): seq<Event> { Select(IsMark, s.output) }

  /** No beginning follows another without an ending between them. */
  predicate Bracketed(marks: seq<Event>) {
    forall i :: 0 < i < |marks| && marks[i].InstructionBegin? ==> marks[i - 1].InstructionEnd?
  }

  // ---- steps that begin nothing ----

  ghost predicate Follows(base: seq<Event>, s: Vcpu, begins: seq<Event>, toggles: nat) {
    Begins(s) == base + begins && (s.capturing <==> toggles % 2 == 1) && Bracketed(Marks(s))
  }

  predicate Benign(cb: Callback) { !cb.PcNext? && !cb.MemSendDetailed? }

  predicate AllBenign(cbs: seq<Callback>) {
    forall i :: 0 <= i < |cbs| ==> Benign(cbs[i])
  }

  ghost predicate BeginsNothing(s: Vcpu, t: Vcpu) {
    AddsNone(IsBegin, s, t) && t.capturing == s.capturing
  }

  lemma {:induction false} NoBeginsSelected(es: seq<Event>)
    requires forall i :: 0 <= i < |es| ==> !es[i].InstructionBegin?
    ensures forall i :: 0 <= i < |Select(IsMark, es)| ==> Select(IsMark, es)[i].InstructionEnd?
  {
    if es != [] { NoBeginsSelected(es[..|es| - 1]); }
  }

  /** Steps that begin nothing keep the account. */
  lemma BenignKeeps(base: seq<Event>, s: Vcpu, t: Vcpu, begins: seq<Event>, toggles: nat)
    requires Follows(base, s, begins, toggles) && BeginsNothing(s, t)
    ensures Follows(base, t, begins, toggles)
  {
    var es := t.output[|s.output|..];
    assert t.output == s.output + es;
    SelectAppend(IsBegin, s.output, es);
    SelectNone(IsBegin, es);
    SelectAppend(IsMark, s.output, es);
    NoBeginsSelected(es);
  }

  lemma UpdatePcBegins(s: Vcpu, env: Env, vaddr: Word)
    ensures BeginsNothing(s, DoUpdatePc(s, env, vaddr))
  {
  }

  lemma InRoiBegins(s: Vcpu, env: Env, e: Event)
    requires !e.InstructionBegin?
    ensures BeginsNothing(s, IfInRoi(s, env, e))
  {
  }

  lemma BenignExec(s: Vcpu, cb: Callback, env: Env, op: MemOp)
    requires Benign(cb)
    ensures BeginsNothing(s, Exec(s, cb, env, op))
  {
    ExecIsFramed(s, cb, env, op);
    ExecAddsNone(IsBegin, s, cb, env, op);
  }

  lemma {:induction false} BenignAll(base: seq<Event>, s: Vcpu, cbs: seq<Callback>, env: Env, op: MemOp,
                                     begins: seq<Event>, toggles: nat)
    requires AllBenign(cbs) && Follows(base, s, begins, toggles)
    ensures Follows(base, ExecAll(s, cbs, env, op), begins, toggles)
    decreases |cbs|
  {
    if cbs != [] {
      BenignExec(s, cbs[0], env, op);
      BenignKeeps(base, s, Exec(s, cbs[0], env, op), begins, toggles);
      BenignAll(base, Exec(s, cbs[0], env, op), cbs[1..], env, op, begins, toggles);
    }
  }

  lemma {:induction false} BenignOps(base: seq<Event>, s: Vcpu, cbs: seq<Callback>, ops: seq<(MemOp, Env)>,
                                     begins: seq<Event>, toggles: nat)
    requires AllBenign(cbs) && Follows(base, s, begins, toggles)
    ensures Follows(base, ExecOps(s, cbs, ops), begins, toggles)
    decreases |ops|
  {
    if ops != [] {
      BenignAll(base, s, cbs, ops[0].1, ops[0].0, begins, toggles);
      BenignOps(base, ExecAll(s, cbs, ops[0].1, ops[0].0), cbs, ops[1..], begins, toggles);
    }
  }

  // ---- one instruction in the detailed mode ----

  /** The end-of-instruction mark that `insn_exec_update_pc` writes first. */
  lemma UpdatePcEnds(s: Vcpu, env: Env, vaddr: Word)
    ensures var t := DoUpdatePc(s, env, vaddr);
            t.pc == vaddr && t.capturing == s.capturing && Marks(t) == Marks(s) + [InstructionEnd]
  {
    var ended := s.output + [InstructionEnd];
    UpdatePcWrites(s, env, vaddr);
    SelectPush(IsMark, s.output, InstructionEnd);
    SelectPush(IsMark, ended, Sync(Pace));
  }

  lemma UpdatePcWrites(s: Vcpu, env: Env, vaddr: Word)
    ensures var t, ended := DoUpdatePc(s, env, vaddr), s.output + [InstructionEnd];
            t.pc == vaddr && t.capturing == s.capturing && (t.output == ended || t.output == ended + [Sync(Pace)])
  {
  }

  lemma InRoiKeepsMarks(s: Vcpu, env: Env, e: Event)
    requires !IsMark(e)
    ensures Marks(IfInRoi(s, env, e)) == Marks(s)
  {
    SelectPush(IsMark, s.output, e);
  }

  /** Ending the instruction before, translating, and beginning this one. */
  lemma HeadBegins(base: seq<Event>, s: Vcpu, insn: Insn, env: Env, begins: seq<Event>, toggles: nat)
    requires Follows(base, s, begins, toggles)
    ensures var s1 := DoUpdatePc(s, env, insn.vaddr);
            var s2 := IfInRoi(s1, env, Translate(s1.pc, insn.ram));
            Follows(base, DoPcNext(s2, env, insn.next), begins + InsnBegins(insn, env, toggles), toggles)
  {
    var s1 := DoUpdatePc(s, env, insn.vaddr);
    var s2 := IfInRoi(s1, env, Translate(s1.pc, insn.ram));
    UpdatePcBegins(s, env, insn.vaddr);
    BenignKeeps(base, s, s1, begins, toggles);
    InRoiBegins(s1, env, Translate(s1.pc, insn.ram));
    BenignKeeps(base, s1, s2, begins, toggles);
    UpdatePcEnds(s, env, insn.vaddr);
    InRoiKeepsMarks(s1, env, Translate(s1.pc, insn.ram));
    BeginAfterEnd(base, s2, env, insn, begins, toggles);
  }

  lemma BracketedPush(marks: seq<Event>, e: Event)
    requires Bracketed(marks) && (e.InstructionBegin? ==> marks != [] && marks[|marks| - 1].InstructionEnd?)
    ensures Bracketed(marks + [e])
  {
  }

  lemma BeginFollows(base: seq<Event>, s: Vcpu, e: Event, begins: seq<Event>, toggles: nat)
    requires Follows(base, s, begins, toggles) && e.InstructionBegin?
    requires Marks(s) != [] && Marks(s)[|Marks(s)| - 1] == InstructionEnd
    ensures Follows(base, Emit(s, [e]), begins + [e], toggles)
  {
    SelectPush(IsBegin, s.output, e);
    SelectPush(IsMark, s.output, e);
    BracketedPush(Marks(s), e);
    Associates(base, begins, [e]);
  }

  lemma BeginAfterEnd(base: seq<Event>, s: Vcpu, env: Env, insn: Insn, begins: seq<Event>, toggles: nat)
    requires Follows(base, s, begins, toggles) && s.pc == insn.vaddr
    requires Marks(s) != [] && Marks(s)[|Marks(s)| - 1] == InstructionEnd
    ensures Follows(base, DoPcNext(s, env, insn.next), begins + InsnBegins(insn, env, toggles), toggles)
  {
    var e := InstructionBegin(insn.vaddr, Wrap64(insn.next - insn.vaddr));
    if env.InRoi() && !s.capturing {
      BeginFollows(base, s, e, begins, toggles);
    } else {
      assert begins + [] == begins;
    }
  }

  lemma MemSendToggles(base: seq<Event>, s: Vcpu, env: Env, op: MemOp, begins: seq<Event>, toggles: nat)
    requires Follows(base, s, begins, toggles)
    ensures Follows(base, DoMemSendDetailed(s, env, op), begins, toggles + if TurnsCapture(env, op) then 1 else 0)
  {
    var t := DoMemSendDetailed(s, env, op);
    assert AddsNone(IsBegin, s, t);
    BenignKeeps(base, s, t.(capturing := s.capturing), begins, toggles);
  }

  lemma {:induction false} OpsToggle(base: seq<Event>, s: Vcpu, ops: seq<(MemOp, Env)>, begins: seq<Event>,
                                     toggles: nat)
    requires Follows(base, s, begins, toggles)
    ensures Follows(base, ExecOps(s, [MemSendDetailed], ops), begins, toggles + Toggles(ops))
    decreases |ops|
  {
    if ops != [] {
      ExecOne(s, MemSendDetailed, ops[0].1, ops[0].0);
      MemSendToggles(base, s, ops[0].1, ops[0].0, begins, toggles);
      OpsToggle(base, DoMemSendDetailed(s, ops[0].1, ops[0].0), ops[1..], begins,
                toggles + if TurnsCapture(ops[0].1, ops[0].0) then 1 else 0);
    }
  }

  function Head(insn: Insn): seq<Callback> {
    [UpdatePc(insn.vaddr), InsnItlb(insn.ram), PcNext(insn.next)]
  }

  function Tail(tb: Block, i: nat): seq<Callback>
    requires i < |tb.insns|
  {
    (if tb.insns[i].cmpxchg then [Cmpxchg] else [])
    + if i == |tb.insns| - 1 then LastHooks(tb, Detailed, tb.insns[i]) else []
  }

  lemma HooksAreHeadAndTail(tb: Block, i: nat)
    requires i < |tb.insns|
    ensures HooksAt(tb, Detailed, i).exec == Head(tb.insns[i]) + Tail(tb, i) && AllBenign(Tail(tb, i))
  {
  }

  lemma HeadRuns(s: Vcpu, insn: Insn, env: Env)
    ensures var s1 := DoUpdatePc(s, env, insn.vaddr);
            ExecAll(s, Head(insn), env, NO_OP)
            == DoPcNext(IfInRoi(s1, env, Translate(s1.pc, insn.ram)), env, insn.next)
  {
    ExecThree(s, UpdatePc(insn.vaddr), InsnItlb(insn.ram), PcNext(insn.next), env, NO_OP);
  }

  lemma DetailedExecBegins(base: seq<Event>, s: Vcpu, tb: Block, i: nat, env: Env, begins: seq<Event>, toggles: nat)
    requires Follows(base, s, begins, toggles) && i < |tb.insns|
    ensures Follows(base, ExecAll(s, HooksAt(tb, Detailed, i).exec, env, NO_OP),
                    begins + InsnBegins(tb.insns[i], env, toggles), toggles)
  {
    var insn := tb.insns[i];
    var tail := Tail(tb, i);
    HooksAreHeadAndTail(tb, i);
    ExecAllAppend(s, Head(insn), tail, env, NO_OP);
    HeadRuns(s, insn, env);
    HeadBegins(base, s, insn, env, begins, toggles);
    var begun := begins + InsnBegins(insn, env, toggles);
    BenignAll(base, ExecAll(s, Head(insn), env, NO_OP), tail, env, NO_OP, begun, toggles);
  }

  lemma DetailedInsnBegins(base: seq<Event>, s: Vcpu, tb: Block, i: nat, v: InsnVisit, begins: seq<Event>, toggles: nat)
    requires Follows(base, s, begins, toggles) && i < |tb.insns|
    ensures Follows(base, ExecInsn(s, HooksAt(tb, Detailed, i), v),
                    begins + InsnBegins(tb.insns[i], v.env, toggles), toggles + Toggles(v.ops))
  {
    DetailedExecBegins(base, s, tb, i, v.env, begins, toggles);
    var s1 := ExecAll(s, HooksAt(tb, Detailed, i).exec, v.env, NO_OP);
    OpsToggle(base, s1, v.ops, begins + InsnBegins(tb.insns[i], v.env, toggles), toggles);
  }

  lemma {:induction false} DetailedInsnsBegin(base: seq<Event>, s: Vcpu, tb: Block, vs: seq<InsnVisit>,
                                              begins: seq<Event>, toggles: nat)
    requires Follows(base, s, begins, toggles) && tb.Valid() && |vs| <= |tb.insns|
    ensures Follows(base, ExecInsns(s, Instrument(tb, Detailed).insns, vs),
                    begins + BodyBegins(tb.insns, vs, toggles), toggles + BodyToggles(vs))
  {
    if vs == [] {
      assert begins + [] == begins;
    } else {
      var n := |vs| - 1;
      DetailedInsnsBegin(base, s, tb, vs[..n], begins, toggles);
      var s1 := ExecInsns(s, Instrument(tb, Detailed).insns, vs[..n]);
      var b1, t1 := begins + BodyBegins(tb.insns, vs[..n], toggles), toggles + BodyToggles(vs[..n]);
      DetailedInsnBegins(base, s1, tb, n, vs[n], b1, t1);
      ExecInsnsStep(s, tb, Detailed, vs, n);
      Associates(begins, BodyBegins(tb.insns, vs[..n], toggles), InsnBegins(tb.insns[n], vs[n].env, t1));
    }
  }

  // ---- blocks in the other modes ----

  lemma {:induction false} OtherInsnsBegin(base: seq<Event>, s: Vcpu, tb: Block, mode: Mode, vs: seq<InsnVisit>,
                                           begins: seq<Event>, toggles: nat)
    requires Follows(base, s, begins, toggles) && tb.Valid() && |vs| <= |tb.insns| && !mode.Detailed?
    ensures Follows(base, ExecInsns(s, Instrument(tb, mode).insns, vs), begins, toggles)
  {
    if vs != [] {
      var n := |vs| - 1;
      OtherInsnsBegin(base, s, tb, mode, vs[..n], begins, toggles);
      var s1 := ExecInsns(s, Instrument(tb, mode).insns, vs[..n]);
      var h := HooksAt(tb, mode, n);
      BenignAll(base, s1, h.exec, vs[n].env, NO_OP, begins, toggles);
      BenignOps(base, ExecAll(s1, h.exec, vs[n].env, NO_OP), h.mem, vs[n].ops, begins, toggles);
    }
  }

  lemma VisitBegins(base: seq<Event>, s: Vcpu, v: Visit, begins: seq<Event>, toggles: nat)
    requires Follows(base, s, begins, toggles) && v.Valid()
    ensures if v.mode.Detailed?
            then Follows(base, ExecVisit(s, v), begins + BodyBegins(v.tb.insns, v.insns, toggles),
                         toggles + BodyToggles(v.insns))
            else Follows(base, ExecVisit(s, v), begins, toggles)
  {
    BenignAll(base, s, EntryHooks(v.tb, v.mode), v.env, NO_OP, begins, toggles);
    var s1 := ExecAll(s, EntryHooks(v.tb, v.mode), v.env, NO_OP);
    if v.mode.Detailed? {
      DetailedInsnsBegin(base, s1, v.tb, v.insns, begins, toggles);
    } else {
      OtherInsnsBegin(base, s1, v.tb, v.mode, v.insns, begins, toggles);
    }
  }

  lemma OutsideBeginsNothing(s: Vcpu, o: Outside)
    ensures BeginsNothing(s, React(s, o))
  {
    ReactIsFramed(s, o);
    ReactAddsNone(IsBegin, s, o);
  }

  // ---- whole runs ----

  lemma RunPush(run: seq<Item>, item: Item)
    requires ValidRun(run) && (item.Ran? ==> item.visit.Valid()) && ValidRun(run + [item])
    ensures RunBegins(run + [item]) == RunBegins(run) + if item.Ran? && item.visit.mode.Detailed?
            then BodyBegins(item.visit.tb.insns, item.visit.insns, RunToggles(run)) else []
    ensures RunToggles(run + [item]) == RunToggles(run) + ItemToggles(item)
  {
    assert (run + [item])[..|run|] == run;
  }

  lemma ItemFollows(base: seq<Event>, s: Vcpu, item: Item, begins: seq<Event>, toggles: nat)
    requires Follows(base, s, begins, toggles) && (item.Ran? ==> item.visit.Valid())
    ensures Follows(base, Step(s, item), begins + if item.Ran? && item.visit.mode.Detailed?
                    then BodyBegins(item.visit.tb.insns, item.visit.insns, toggles) else [],
                    toggles + ItemToggles(item))
  {
    assert begins + [] == begins;
    if item.Ran? {
      VisitBegins(base, s, item.visit, begins, toggles);
    } else {
      OutsideBeginsNothing(s, item.outside);
      BenignKeeps(base, s, React(s, item.outside), begins, toggles);
    }
  }

  lemma ItemBegins(base: seq<Event>, s: Vcpu, run: seq<Item>, item: Item)
    requires ValidRun(run) && (item.Ran? ==> item.visit.Valid()) && ValidRun(run + [item])
    requires Follows(base, s, RunBegins(run), RunToggles(run))
    ensures Follows(base, Step(s, item), RunBegins(run + [item]), RunToggles(run + [item]))
  {
    ItemFollows(base, s, item, RunBegins(run), RunToggles(run));
    RunPush(run, item);
  }

  /** The detailed stream begins exactly the instructions that started in the region of interest at
      even parity of the stores to `magic`, each with its own address and length, in order; a vcpu
      captures exactly at odd parity; and no beginning follows another without an ending. */
  lemma {:induction false} DetailedStreamIsExact(s: Vcpu, run: seq<Item>)
    requires ValidRun(run) && !s.capturing && Bracketed(Marks(s))
    ensures var t := Run(s, run);
            && Begins(t) == Begins(s) + RunBegins(run)
            && (t.capturing <==> RunToggles(run) % 2 == 1)
            && Bracketed(Marks(t))
  {
    if run == [] {
      assert Begins(s) + [] == Begins(s);
    } else {
      var n := |run| - 1;
      DetailedStreamIsExact(s, run[..n]);
      assert run == run[..n] + [run[n]];
      ItemBegins(Begins(s), Run(s, run[..n]), run[..n], run[n]);
    }
  }

  // ---- idling in the detailed mode ----

  /** Every `VCPUIdle` from position `from` on comes right after an `InstructionEnd`. */
  predicate IdleFollowsEnd(out: seq<Event>, from: nat) {
    forall i :: from <= i < |out| && out[i].VCPUIdle? ==> i > 0 && out[i - 1].InstructionEnd?
  }

  predicate IsIdle(e: Event) { e.VCPUIdle? }

  lemma BranchDetailedIdles(s: Vcpu, env: Env, from: nat)
    requires IdleFollowsEnd(s.output, from) && from <= |s.output|
    ensures var out := DoBranchDetailed(s, env).output; from <= |out| && IdleFollowsEnd(out, from)
  {
  }

  lemma ArrivalIdles(s: Vcpu, o: Outside, from: nat)
    requires IdleFollowsEnd(s.output, from) && from <= |s.output|
    requires o.Idle? ==> o.env.mode.Detailed?
    ensures from <= |React(s, o).output| && IdleFollowsEnd(React(s, o).output, from)
  {
  }

  lemma StepIdles(s: Vcpu, m: Micro, from: nat)
    requires IdleFollowsEnd(s.output, from) && from <= |s.output|
    requires m.Arrived? && m.outside.Idle? ==> m.outside.env.mode.Detailed?
    ensures from <= |Do(s, m).output| && IdleFollowsEnd(Do(s, m).output, from)
  {
    if m.Arrived? {
      ArrivalIdles(s, m.outside, from);
    } else if m.cb.BranchDetailed? {
      BranchDetailedIdles(s, m.env, from);
    } else {
      ExecAddsNone(IsIdle, s, m.cb, m.env, m.op);
      SilentIdles(s, Do(s, m), from);
    }
  }

  lemma SilentIdles(s: Vcpu, t: Vcpu, from: nat)
    requires IdleFollowsEnd(s.output, from) && from <= |s.output| && AddsNone(IsIdle, s, t)
    ensures from <= |t.output| && IdleFollowsEnd(t.output, from)
  {
  }

  /** While the current mode is the detailed one, every `VCPUIdle` immediately follows an
      `InstructionEnd`, whatever callbacks run and in whatever order. */
  lemma {:induction false} IdleEndsAnInstruction(s: Vcpu, ms: seq<Micro>)
    requires forall i :: 0 <= i < |ms| && ms[i].Arrived? && ms[i].outside.Idle? ==> ms[i].outside.env.mode.Detailed?
    ensures |s.output| <= |Play(s, ms).output| && IdleFollowsEnd(Play(s, ms).output, |s.output|)
  {
    if ms != [] {
      var n := |ms| - 1;
      IdleEndsAnInstruction(s, ms[..n]);
      StepIdles(Play(s, ms[..n]), ms[n], |s.output|);
    }
  }
}
