/** What the detailed stream says about memory and branches: in any run, with any mixture of
    modes, exactly the memory operations of the detailed visits and the branches into them. */
module TraceDetailedData {
  import opened Counting
  import opened Trace
  import opened TraceFrames
  import opened TraceCacheOnly

  // ---- the specification ----

  function Mems(ops: seq<(MemOp, Env)>): seq<Event> {
    if ops == [] then [] else [InstructionMem(ops[0].0.vaddr)] + Mems(ops[1..])
  }

  function BodyMems(vs: seq<InsnVisit>): seq<Event> {
    if vs == [] then [] else BodyMems(vs[..|vs| - 1]) + Mems(vs[|vs| - 1].ops)
  }

  /** A branch was taken when it did not lead to the block after it. */
  function BranchEvent(prev: Maybe, tb: Block): seq<Event> {
    if LeavesBranch(prev) then [InstructionBranch(tb.vaddr != prev.visit.tb.nextPc)] else []
  }

  function Sends(prev: Maybe, item: Item): seq<Event> {
    if item.Ran? && item.visit.mode.Detailed?
    then BranchEvent(prev, item.visit.tb) + BodyMems(item.visit.insns) else []
  }

  function RunSends(run: seq<Item>): seq<Event> {
    if run == [] then []
    else
      var n := |run| - 1;
      RunSends(run[..n]) + Sends(Previous(run[..n]), run[n])
  }

  predicate IsData(e: Event) { e.InstructionMem? || e.InstructionBranch? }

  function Data(s: Vcpu): seq<Event> {
    Select(IsData, s.output)
  }

  // ---- callbacks that send neither ----

  predicate Silent(cb: Callback) { !cb.MemSendDetailed? && !cb.BranchDetailed? }

  predicate AllSilent(cbs: seq<Callback>) {
    forall i :: 0 <= i < |cbs| ==> Silent(cbs[i])
  }

  lemma {:induction false} SilentAll(s: Vcpu, cbs: seq<Callback>, env: Env, op: MemOp)
    requires AllSilent(cbs)
    ensures Data(ExecAll(s, cbs, env, op)) == Data(s)
    decreases |cbs|
  {
    if cbs != [] {
      ExecAddsNone(IsData, s, cbs[0], env, op);
      SelectUnchanged(IsData, s, Exec(s, cbs[0], env, op));
      SilentAll(Exec(s, cbs[0], env, op), cbs[1..], env, op);
    }
  }

  lemma {:induction false} SilentOps(s: Vcpu, cbs: seq<Callback>, ops: seq<(MemOp, Env)>)
    requires AllSilent(cbs)
    ensures Data(ExecOps(s, cbs, ops)) == Data(s)
    decreases |ops|
  {
    if ops != [] {
      SilentAll(s, cbs, ops[0].1, ops[0].0);
      SilentOps(ExecAll(s, cbs, ops[0].1, ops[0].0), cbs, ops[1..]);
    }
  }

  // ---- the two that do ----

  lemma MemSends(s: Vcpu, env: Env, op: MemOp)
    ensures Data(DoMemSendDetailed(s, env, op)) == Data(s) + [InstructionMem(op.vaddr)]
  {
    var out := s.output + if IsMagicStore(env, op) then [InstructionAbort] else [];
    SelectPush(IsData, s.output, InstructionAbort);
    assert s.output + [] == s.output;
    SelectPush(IsData, out, Translate(op.vaddr, op.paddr));
    SelectPush(IsData, out + [Translate(op.vaddr, op.paddr)], InstructionMem(op.vaddr));
    MemSendWrites(s, env, op, out);
  }

  lemma MemSendWrites(s: Vcpu, env: Env, op: MemOp, out: seq<Event>)
    requires out == s.output + if IsMagicStore(env, op) then [InstructionAbort] else []
    ensures DoMemSendDetailed(s, env, op).output == out + [Translate(op.vaddr, op.paddr)] + [InstructionMem(op.vaddr)]
  {
  }

  lemma {:induction false} OpsSend(s: Vcpu, ops: seq<(MemOp, Env)>)
    ensures Data(ExecOps(s, [MemSendDetailed], ops)) == Data(s) + Mems(ops)
    decreases |ops|
  {
    if ops == [] {
      assert Data(s) + [] == Data(s);
    } else {
      var op, env := ops[0].0, ops[0].1;
      ExecOne(s, MemSendDetailed, env, op);
      MemSends(s, env, op);
      OpsSend(DoMemSendDetailed(s, env, op), ops[1..]);
      Associates(Data(s), [InstructionMem(op.vaddr)], Mems(ops[1..]));
    }
  }

  /** What `tb_exec_branch_detailed` writes before the branch. */
  function RoiEvents(s: Vcpu, env: Env): seq<Event> {
    if env.InRoi() then (if s.idle then [VCPUResume] else [])
    else (if !s.idle then [InstructionEnd, VCPUIdle] else [])
  }

  lemma BranchWrites(s: Vcpu, env: Env)
    requires s.br.addr != 0
    ensures DoBranchDetailed(s, env).output
         == s.output + RoiEvents(s, env) + [InstructionBranch(s.br.target != s.br.fallthrough)]
  {
    assert s.output + [] == s.output;
  }

  lemma RoiSendsNothing(out: seq<Event>, s: Vcpu, env: Env)
    ensures Select(IsData, out + RoiEvents(s, env)) == Select(IsData, out)
  {
    SelectAppend(IsData, out, RoiEvents(s, env));
    SelectNone(IsData, RoiEvents(s, env));
  }

  lemma BranchSends(s: Vcpu, env: Env)
    requires s.br.addr != 0
    ensures Data(DoBranchDetailed(s, env)) == Data(s) + [InstructionBranch(s.br.target != s.br.fallthrough)]
  {
    var roi, e := RoiEvents(s, env), InstructionBranch(s.br.target != s.br.fallthrough);
    BranchWrites(s, env);
    RoiSendsNothing(s.output, s, env);
    SelectPush(IsData, s.output + roi, e);
  }

  // ---- blocks ----

  /** Entering a block in the detailed mode reports the branch the previous one left. */
  lemma EntrySends(s: Vcpu, prev: Maybe, tb: Block, env: Env)
    requires Remembers(s, prev) && tb.Valid()
    ensures Data(ExecAll(s, EntryHooks(tb, Detailed), env, NO_OP)) == Data(s) + BranchEvent(prev, tb)
  {
    var tail := DetailedTail(tb);
    EntryHooksSplit(tb);
    ExecFirst(s, HotBlocks(tb.vaddr), [UpdateTarget(tb.vaddr)] + ([BranchDetailed] + tail), env, NO_OP);
    var s1 := DoHotBlocks(s, env, tb.vaddr);
    ExecFirst(s1, UpdateTarget(tb.vaddr), [BranchDetailed] + tail, env, NO_OP);
    var s2 := Exec(s1, UpdateTarget(tb.vaddr), env, NO_OP);
    ExecFirst(s2, BranchDetailed, tail, env, NO_OP);
    SilentAll(DoBranchDetailed(s2, env), tail, env, NO_OP);
    if LeavesBranch(prev) {
      BranchSends(s2, env);
    } else {
      assert Data(s) + [] == Data(s);
    }
  }

  lemma EntryHooksSplit(tb: Block)
    requires tb.Valid()
    ensures EntryHooks(tb, Detailed)
         == [HotBlocks(tb.vaddr)] + ([UpdateTarget(tb.vaddr)] + ([BranchDetailed] + DetailedTail(tb)))
    ensures AllSilent(DetailedTail(tb))
  {
  }

  lemma DetailedHooksAreSilent(tb: Block, i: nat)
    requires i < |tb.insns|
    ensures AllSilent(HooksAt(tb, Detailed, i).exec) && HooksAt(tb, Detailed, i).mem == [MemSendDetailed]
  {
  }

  /** Any prefix of a block in the detailed mode sends its memory operations. */
  lemma {:induction false} InsnsSend(s: Vcpu, tb: Block, vs: seq<InsnVisit>)
    requires tb.Valid() && |vs| <= |tb.insns|
    ensures Data(ExecInsns(s, Instrument(tb, Detailed).insns, vs)) == Data(s) + BodyMems(vs)
  {
    if vs == [] {
      assert Data(s) + [] == Data(s);
    } else {
      var n := |vs| - 1;
      InsnsSend(s, tb, vs[..n]);
      ExecInsnsStep(s, tb, Detailed, vs, n);
      DetailedHooksAreSilent(tb, n);
      var s1 := ExecInsns(s, Instrument(tb, Detailed).insns, vs[..n]);
      SilentAll(s1, HooksAt(tb, Detailed, n).exec, vs[n].env, NO_OP);
      OpsSend(ExecAll(s1, HooksAt(tb, Detailed, n).exec, vs[n].env, NO_OP), vs[n].ops);
      Associates(Data(s), BodyMems(vs[..n]), Mems(vs[n].ops));
    }
  }

  lemma OtherHooksAreSilent(tb: Block, mode: Mode, i: nat)
    requires i < |tb.insns| && !mode.Detailed?
    ensures AllSilent(HooksAt(tb, mode, i).exec) && AllSilent(HooksAt(tb, mode, i).mem)
  {
  }

  lemma {:induction false} OtherInsnsSendNothing(s: Vcpu, tb: Block, mode: Mode, vs: seq<InsnVisit>)
    requires tb.Valid() && |vs| <= |tb.insns| && !mode.Detailed?
    ensures Data(ExecInsns(s, Instrument(tb, mode).insns, vs)) == Data(s)
  {
    if vs != [] {
      var n := |vs| - 1;
      OtherInsnsSendNothing(s, tb, mode, vs[..n]);
      ExecInsnsStep(s, tb, mode, vs, n);
      OtherHooksAreSilent(tb, mode, n);
      var s1 := ExecInsns(s, Instrument(tb, mode).insns, vs[..n]);
      SilentAll(s1, HooksAt(tb, mode, n).exec, vs[n].env, NO_OP);
      SilentOps(ExecAll(s1, HooksAt(tb, mode, n).exec, vs[n].env, NO_OP), HooksAt(tb, mode, n).mem, vs[n].ops);
    }
  }

  lemma VisitSends(s: Vcpu, prev: Maybe, v: Visit)
    requires Remembers(s, prev) && v.Valid()
    ensures Data(ExecVisit(s, v)) == Data(s) + Sends(prev, Ran(v))
  {
    var s1 := ExecAll(s, EntryHooks(v.tb, v.mode), v.env, NO_OP);
    if v.mode.Detailed? {
      EntrySends(s, prev, v.tb, v.env);
      InsnsSend(s1, v.tb, v.insns);
      Associates(Data(s), BranchEvent(prev, v.tb), BodyMems(v.insns));
    } else {
      SilentAll(s, EntryHooks(v.tb, v.mode), v.env, NO_OP);
      OtherInsnsSendNothing(s1, v.tb, v.mode, v.insns);
      assert Data(s) + [] == Data(s);
    }
  }

  /** The memory and branch events of the detailed stream are exactly: every memory operation of a
      detailed visit, and on entry to one the branch left by the nearest visit before it that was
      instrumented for branches, taken iff it did not fall through. */
  lemma {:induction false} DetailedDataIsExact(s: Vcpu, run: seq<Item>)
    requires ValidRun(run) && s.br.addr == 0
    ensures Data(Run(s, run)) == Data(s) + RunSends(run)
  {
    if run == [] {
      assert Data(s) + [] == Data(s);
    } else {
      var n := |run| - 1;
      var before, prev := Run(s, run[..n]), Previous(run[..n]);
      DetailedDataIsExact(s, run[..n]);
      BranchIsRemembered(s, run[..n]);
      if run[n].Ran? {
        VisitSends(before, prev, run[n].visit);
      } else {
        ReactAddsNone(IsData, before, run[n].outside);
        SelectUnchanged(IsData, before, React(before, run[n].outside));
        assert Data(before) + [] == Data(before);
      }
      Associates(Data(s), RunSends(run[..n]), Sends(prev, run[n]));
    }
  }

  // ---- the guest's own account ----

  function GuestBranchEvent(before: Maybe, tb: Block): seq<Event> {
    if GuestLeaves(before) then [InstructionBranch(tb.vaddr != before.visit.tb.nextPc)] else []
  }

  function GuestSends(before: Maybe, item: Item): seq<Event> {
    if item.Ran? && item.visit.mode.Detailed?
    then GuestBranchEvent(before, item.visit.tb) + BodyMems(item.visit.insns) else []
  }

  function RunGuestSends(run: seq<Item>): seq<Event> {
    if run == [] then []
    else
      var n := |run| - 1;
      RunGuestSends(run[..n]) + GuestSends(Before(run[..n]), run[n])
  }

  lemma SendsAlike(run: seq<Item>, item: Item)
    ensures var sends, guest := Sends(Previous(run), item), GuestSends(Before(run), item);
            if LeapsAt(run + [item], |run|, Detailed) then |sends| == |guest| + 1
            else if ZeroAt(run + [item], |run|, Detailed) then |sends| + 1 == |guest|
            else sends == guest
  {
    Last(run, item);
    PreviousIsBefore(run);
  }

  /** The two accounts agree after every item of the run. */
  predicate AgreeThroughout(run: seq<Item>) {
    run == [] || (AgreeThroughout(run[..|run| - 1]) && RunSends(run) == RunGuestSends(run))
  }

  lemma {:induction false} AgreeUnlessLeapOrZero(run: seq<Item>)
    ensures AgreeThroughout(run) <==> !Leaps(run, Detailed) && !Zeros(run, Detailed)
  {
    if run != [] {
      var n := |run| - 1;
      var rest, item := run[..n], run[n];
      assert run == rest + [item];
      AgreeUnlessLeapOrZero(rest);
      LeapsGrows(rest, item, Detailed);
      ZerosGrows(rest, item, Detailed);
      SendsAlike(rest, item);
      Cancels(RunSends(rest), Sends(Previous(rest), item), GuestSends(Before(rest), item));
    }
  }

  /** The memory and branch events are what the guest really did, after every item of the run. */
  ghost predicate Truthful(s: Vcpu, run: seq<Item>)
    requires ValidRun(run)
  {
    && (run != [] ==> Truthful(s, run[..|run| - 1]))
    && Data(Run(s, run)) == Data(s) + RunGuestSends(run)
  }

  lemma {:induction false} TruthfulIffAgree(s: Vcpu, run: seq<Item>)
    requires ValidRun(run) && s.br.addr == 0
    ensures Truthful(s, run) <==> AgreeThroughout(run)
  {
    DetailedDataIsExact(s, run);
    Cancels(Data(s), RunSends(run), RunGuestSends(run));
    if run != [] {
      TruthfulIffAgree(s, run[..|run| - 1]);
    }
  }

  /** The memory and branch events are what the guest really did, at every moment of the run, exactly
      when no detailed visit comes straight after a fast-forwarded block while a branch from before
      the fast-forwarding is pending, nor straight after an instrumented block left by a branch at
      address zero. */
  lemma DetailedBranchAcrossAGap(s: Vcpu, run: seq<Item>)
    requires ValidRun(run) && s.br.addr == 0
    ensures Truthful(s, run) <==> !Leaps(run, Detailed) && !Zeros(run, Detailed)
  {
    TruthfulIffAgree(s, run);
    AgreeUnlessLeapOrZero(run);
  }

  lemma SendsPush(run: seq<Item>, item: Item)
    ensures RunSends(run + [item]) == RunSends(run) + Sends(Previous(run), item)
    ensures RunGuestSends(run + [item]) == RunGuestSends(run) + GuestSends(Before(run), item)
    ensures Previous(run + [item])
         == if item.Ran? && !item.visit.mode.Icount? then Somebody(item.visit) else Previous(run)
    ensures Before(run + [item]) == if item.Ran? then Somebody(item.visit) else Before(run)
  {
    Last(run, item);
  }

  lemma MissesABranch(a: Visit, b: Visit) returns (run: seq<Item>)
    requires a.Valid() && b.Valid() && a.mode.Memory? && b.mode.Detailed? && b.insns == []
    requires a.Completed() && a.tb.branch && a.tb.Last().vaddr == 0
    ensures run == [Ran(a)] + [Ran(b)] && Zeros(run, Detailed)
    ensures RunSends(run) == [] && RunGuestSends(run) == [InstructionBranch(b.tb.vaddr != a.tb.nextPc)]
  {
    var nothing: seq<Item> := [];
    SendsPush(nothing, Ran(a));
    assert nothing + [Ran(a)] == [Ran(a)];
    SendsPush([Ran(a)], Ran(b));
    run := [Ran(a)] + [Ran(b)];
    assert run[..1] == [Ran(a)] && ZeroAt(run, 1, Detailed);
  }

  lemma RepeatsABranch(run: seq<Item>, m: Visit, f: Visit, d: Visit) returns (longer: seq<Item>)
    requires m.Valid() && f.Valid() && d.Valid()
    requires m.mode.Memory? && f.mode.Icount? && d.mode.Detailed? && d.insns == [] && LeavesBranch(Somebody(m))
    ensures longer == run + [Ran(m)] + [Ran(f)] + [Ran(d)] && Leaps(longer, Detailed)
    ensures RunSends(longer) == RunSends(run) + [InstructionBranch(d.tb.vaddr != m.tb.nextPc)]
    ensures RunGuestSends(longer) == RunGuestSends(run)
  {
    NothingSent(run, Ran(m));
    NothingSent(run + [Ran(m)], Ran(f));
    var before := run + [Ran(m)] + [Ran(f)];
    EntersAfterGap(before, m, f, d);
    longer := before + [Ran(d)];
  }

  lemma NothingSent(run: seq<Item>, item: Item)
    requires item.Ran? && !item.visit.mode.Detailed?
    ensures RunSends(run + [item]) == RunSends(run) && RunGuestSends(run + [item]) == RunGuestSends(run)
    ensures Previous(run + [item]) == if item.visit.mode.Icount? then Previous(run) else Somebody(item.visit)
    ensures Before(run + [item]) == Somebody(item.visit)
  {
    SendsPush(run, item);
  }

  lemma EntersAfterGap(run: seq<Item>, m: Visit, f: Visit, d: Visit)
    requires Previous(run) == Somebody(m) && Before(run) == Somebody(f) && f.mode.Icount? && LeavesBranch(Somebody(m))
    requires d.mode.Detailed? && d.insns == []
    ensures RunSends(run + [Ran(d)]) == RunSends(run) + [InstructionBranch(d.tb.vaddr != m.tb.nextPc)]
    ensures RunGuestSends(run + [Ran(d)]) == RunGuestSends(run) && Leaps(run + [Ran(d)], Detailed)
  {
    SendsPush(run, Ran(d));
    assert (run + [Ran(d)])[..|run|] == run && LeapsAt(run + [Ran(d)], |run|, Detailed);
  }

  /** At the end of a run the two errors can cancel, because the events carry no address: `b` misses
      the branch at zero of `a`, and `d` repeats that of `m` across the gap `f`. */
  lemma TwoErrorsCancel(a: Visit, b: Visit, m: Visit, f: Visit, d: Visit)
    requires a.Valid() && b.Valid() && m.Valid() && f.Valid() && d.Valid()
    requires a.mode.Memory? && b.mode.Detailed? && m.mode.Memory? && f.mode.Icount? && d.mode.Detailed?
    requires a.Completed() && a.tb.branch && a.tb.Last().vaddr == 0 && b.insns == [] && d.insns == []
    requires LeavesBranch(Somebody(m)) && ((b.tb.vaddr != a.tb.nextPc) <==> (d.tb.vaddr != m.tb.nextPc))
    ensures var run := [Ran(a), Ran(b), Ran(m), Ran(f), Ran(d)];
            && RunSends(run) == RunGuestSends(run)
            && Leaps(run, Detailed) && Zeros(run, Detailed)
  {
    var first := MissesABranch(a, b);
    var run := RepeatsABranch(first, m, f, d);
    assert run == [Ran(a), Ran(b), Ran(m), Ran(f), Ran(d)];
    ZerosGrows(first, Ran(m), Detailed);
    ZerosGrows(first + [Ran(m)], Ran(f), Detailed);
    ZerosGrows(first + [Ran(m)] + [Ran(f)], Ran(d), Detailed);
  }
}
