/** The detailed mode of the trace recorder: pacing, the idle/resume protocol and capture,
    after any sequence of callbacks whatever. */
module TracePacing {
  import opened Counting
  import opened Trace
  import opened TraceFrames
  import opened TraceRegion
  import opened TraceSteps

  // ---- which steps matter ----

  predicate Lively(e: Event) {
    e.VCPUIdle? || e.VCPUResume? || (e.Sync? && e.why.Pace?)
  }

  predicate TouchesDetail(m: Micro) {
    if m.Arrived? then m.outside.Reset? || m.outside.Idle? || m.outside.Resume?
    else m.cb.UpdatePc? || m.cb.Pause? || m.cb.Cmpxchg? || m.cb.BranchDetailed?
  }

  ghost predicate SameDetail(s: Vcpu, t: Vcpu) {
    t.n.detailed == s.n.detailed && t.target == s.target && t.idle == s.idle && AddsNone(Lively, s, t)
  }

  lemma ExecLeavesDetail(s: Vcpu, cb: Callback, env: Env, op: MemOp)
    requires !TouchesDetail(Fired(cb, env, op))
    ensures SameDetail(s, Exec(s, cb, env, op))
  {
    ExecIsFramed(s, cb, env, op);
    ExecAddsNone(Lively, s, cb, env, op);
  }

  lemma OtherStepsLeaveDetail(s: Vcpu, m: Micro)
    requires !TouchesDetail(m)
    ensures SameDetail(s, Do(s, m))
  {
    if m.Fired? { ExecLeavesDetail(s, m.cb, m.env, m.op); }
  }

  // ---- pacing ----

  function IsPace(e: Event): int {
    if e.Sync? && e.why.Pace? then 1 else 0
  }

  /** The `Sync`s of the detailed mode so far. */
  function Paces(s: Vcpu): int {
    Sum(IsPace, s.output)
  }

  predicate IsPaceSync(e: Event) { e == Sync(Pace) }

  lemma PaceEmitted(s: Vcpu, e: Event)
    ensures Paces(Emit(s, [e])) == Paces(s) + IsPace(e)
  {
    SumPush(IsPace, s.output, e);
  }

  lemma AddsNoPace(s: Vcpu, t: Vcpu)
    requires AddsNone(IsPaceSync, s, t)
    ensures Paces(t) == Paces(s)
  {
    SumUnchanged(IsPace, IsPaceSync, s, t);
  }

  predicate Counts(s: Vcpu, m: Micro) {
    m.Fired? && m.cb.UpdatePc? && !s.idle
  }

  /** What a step other than a reset does to the pace. */
  ghost predicate PacedStep(s: Vcpu, m: Micro, t: Vcpu) {
    && t.n.detailed == s.n.detailed + (if Counts(s, m) then 1 else 0)
    && ((Paces(t) == Paces(s) && t.target == s.target && t.n.detailed <= t.target)
        || (Paces(t) == Paces(s) + 1 && t.n.detailed <= t.target <= t.n.detailed + FLOW_CONTROL
            && t.target <= s.target + FLOW_CONTROL))
  }

  lemma UpdatePcPaces(s: Vcpu, env: Env, vaddr: Word)
    requires s.n.detailed <= s.target
    ensures var t := DoUpdatePc(s, env, vaddr);
            var n := if s.idle then s.n.detailed else s.n.detailed + 1;
            && t.n.detailed == n
            && (n <= s.target ==> t.target == s.target && Paces(t) == Paces(s))
            && (n > s.target ==> t.target == s.target + FLOW_CONTROL && Paces(t) == Paces(s) + 1)
  {
    var s1 := Emit(s.(pc := vaddr), [InstructionEnd]);
    PaceEmitted(s, InstructionEnd);
    PaceEmitted(s1, Sync(Pace));
    assert s1.output + [Sync(Pace)] == Emit(s1, [Sync(Pace)]).output;
  }

  lemma PaceHerePaces(s: Vcpu)
    ensures var t := PaceHere(s);
            && Paces(t) == Paces(s) + 1 && t.n == s.n && t.target == s.n.detailed + FLOW_CONTROL
  {
    PaceEmitted(s.(target := s.n.detailed + FLOW_CONTROL), Sync(Pace));
  }

  lemma StepIsPaced(s: Vcpu, m: Micro)
    requires !(m.Arrived? && m.outside.Reset?) && s.n.detailed <= s.target
    ensures PacedStep(s, m, Do(s, m))
  {
    if !TouchesDetail(m) {
      OtherStepsLeaveDetail(s, m);
      SumUnchanged(IsPace, Lively, s, Do(s, m));
    } else if m.Arrived? {
      AddsNoPace(s, React(s, m.outside));
    } else {
      FiringIsPaced(s, m.cb, m.env, m.op);
    }
  }

  lemma BranchDetailedPaces(s: Vcpu, env: Env)
    ensures var t := DoBranchDetailed(s, env);
            Paces(t) == Paces(s) && t.n == s.n && t.target == s.target
  {
    BranchDetailedIsFramed(s, env);
    AddsNoPace(s, DoBranchDetailed(s, env));
  }

  lemma FiringIsPaced(s: Vcpu, cb: Callback, env: Env, op: MemOp)
    requires TouchesDetail(Fired(cb, env, op)) && s.n.detailed <= s.target
    ensures PacedStep(s, Fired(cb, env, op), Exec(s, cb, env, op))
  {
    match cb
    case UpdatePc(vaddr) => UpdatePcPaces(s, env, vaddr);
    case Pause => PaceHerePaces(s);
    case Cmpxchg => PaceHerePaces(s);
    case BranchDetailed => BranchDetailedPaces(s, env);
  }

  /** Flow control over all runs, resets included: the detailed count never passes the target, and
      the target is paid for by `FLOW_CONTROL` per paced `Sync` since the start. */
  lemma {:induction false} FlowControlBound(ms: seq<Micro>)
    ensures var t := Play(STARTED, ms);
            t.n.detailed <= t.target <= FLOW_CONTROL * Paces(t)
  {
    if ms != [] {
      var n := |ms| - 1;
      FlowControlBound(ms[..n]);
      var s := Play(STARTED, ms[..n]);
      if ms[n] == Arrived(Reset) {
        assert Do(s, ms[n]).output == s.output;
      } else {
        StepIsPaced(s, ms[n]);
      }
    }
  }

  /** Counted instructions since the last paced `Sync`. */
  function Gap(s: Vcpu, ms: seq<Micro>): nat {
    if ms == [] then 0
    else
      var before := ms[..|ms| - 1];
      var m := ms[|ms| - 1];
      if Paces(Play(s, ms)) > Paces(Play(s, before)) then 0
      else Gap(s, before) + if Counts(Play(s, before), m) then 1 else 0
  }

  /** The gap and what is left of the target stay within `FlowControl`. */
  ghost predicate Spaced(s: Vcpu, ms: seq<Micro>) {
    var t := Play(s, ms);
    t.n.detailed <= t.target && Gap(s, ms) + t.target <= t.n.detailed + FLOW_CONTROL
  }

  lemma SpacedStep(s: Vcpu, ms: seq<Micro>, m: Micro)
    requires Spaced(s, ms) && !(m.Arrived? && m.outside.Reset?)
    ensures Spaced(s, ms + [m])
  {
    GapGrows(s, ms, m);
    StepIsPaced(Play(s, ms), m);
  }

  lemma {:induction false} SpacedStaysSpaced(s: Vcpu, before: seq<Micro>, ms: seq<Micro>)
    requires NoReset(ms) && Spaced(s, before)
    ensures Spaced(s, before + ms) && Gap(s, before + ms) <= FLOW_CONTROL
  {
    if ms == [] {
      assert before + ms == before;
    } else {
      var n := |ms| - 1;
      SpacedStaysSpaced(s, before, ms[..n]);
      SpacedStep(s, before + ms[..n], ms[n]);
      assert ms == ms[..n] + [ms[n]];
      Associates(before, ms[..n], [ms[n]]);
    }
  }

  lemma GapGrows(s: Vcpu, ms: seq<Micro>, m: Micro)
    ensures Play(s, ms + [m]) == Do(Play(s, ms), m)
    ensures Gap(s, ms + [m])
         == if Paces(Do(Play(s, ms), m)) > Paces(Play(s, ms)) then 0
            else Gap(s, ms) + if Counts(Play(s, ms), m) then 1 else 0
  {
    assert (ms + [m])[..|ms|] == ms;
  }

  /** With no reset, at most `FlowControl` instructions are counted after a paced `Sync` before the
      one that brings the next. */
  lemma PacesAreClose(s: Vcpu, ms: seq<Micro>)
    requires NoReset(ms) && s.n.detailed <= s.target <= s.n.detailed + FLOW_CONTROL
    ensures Gap(s, ms) <= FLOW_CONTROL
    ensures var t := Play(s, ms);
            t.n.detailed <= t.target && Gap(s, ms) + t.target <= t.n.detailed + FLOW_CONTROL
  {
    assert [] + ms == ms;
    SpacedStaysSpaced(s, [], ms);
  }

  // ---- the pace after a reset ----

  /** No reset, and nothing that restarts the pace by itself. */
  predicate Unhurried(ms: seq<Micro>) {
    forall i :: 0 <= i < |ms| ==> LeavesPace(ms[i])
  }

  predicate LeavesPace(m: Micro) {
    if m.Arrived? then !m.outside.Reset? else !m.cb.Pause? && !m.cb.Cmpxchg?
  }

  /** The instructions counted along the way. */
  function Counted(s: Vcpu, ms: seq<Micro>): nat {
    if ms == [] then 0
    else
      var n := |ms| - 1;
      Counted(s, ms[..n]) + if Counts(Play(s, ms[..n]), ms[n]) then 1 else 0
  }

  lemma UnhurriedStep(s: Vcpu, m: Micro)
    requires LeavesPace(m) && s.n.detailed <= s.target
    ensures var t := Do(s, m);
            && t.n.detailed == s.n.detailed + (if Counts(s, m) then 1 else 0) && t.n.detailed <= t.target
            && (if t.n.detailed <= s.target then Paces(t) == Paces(s) && t.target == s.target
                else Paces(t) == Paces(s) + 1 && t.target > s.target)
  {
    if !TouchesDetail(m) {
      OtherStepsLeaveDetail(s, m);
      SumUnchanged(IsPace, Lively, s, Do(s, m));
    } else if m.Arrived? {
      AddsNoPace(s, React(s, m.outside));
    } else if m.cb.UpdatePc? {
      UpdatePcPaces(s, m.env, m.cb.vaddr);
    } else {
      BranchDetailedPaces(s, m.env);
    }
  }

  /** The target says exactly how many more instructions come before the next paced `Sync`. */
  lemma {:induction false} TargetIsTheDistance(s: Vcpu, ms: seq<Micro>)
    requires Unhurried(ms) && s.n.detailed <= s.target
    ensures var t := Play(s, ms);
            && t.n.detailed == s.n.detailed + Counted(s, ms) && t.n.detailed <= t.target
            && (if t.n.detailed <= s.target then Paces(t) == Paces(s) && t.target == s.target
                else Paces(t) > Paces(s) && t.target > s.target)
  {
    if ms != [] {
      var n := |ms| - 1;
      TargetIsTheDistance(s, ms[..n]);
      UnhurriedStep(Play(s, ms[..n]), ms[n]);
    }
  }

  /** A reset clears the counters but not the target.  Whatever runs after it, short of another
      reset and of what restarts the pace, brings no paced `Sync` exactly as long as no more
      instructions are counted than the target that was built up before the reset. */
  lemma ResetStallsThePace(s: Vcpu, ms: seq<Micro>)
    requires Unhurried(ms)
    ensures var r := React(s, Reset);
            Paces(Play(r, ms)) == Paces(r) <==> Counted(r, ms) <= s.target
  {
    TargetIsTheDistance(React(s, Reset), ms);
  }

  predicate IsUpdate(m: Micro) { m.Fired? && m.cb.UpdatePc? }

  /** Callbacks of a guest that stays in the region of interest and restarts no pace. */
  predicate Steady(ms: seq<Micro>) {
    forall i :: 0 <= i < |ms| ==> ms[i].Fired? && ms[i].env.InRoi() && LeavesPace(ms[i])
  }

  lemma {:induction false} SteadyCounts(s: Vcpu, ms: seq<Micro>)
    requires Steady(ms) && !s.idle
    ensures !Play(s, ms).idle && Counted(s, ms) == Count(IsUpdate, ms)
  {
    if ms != [] {
      var n := |ms| - 1;
      SteadyCounts(s, ms[..n]);
      ExecIsFramed(Play(s, ms[..n]), ms[n].cb, ms[n].env, ms[n].op);
    }
  }

  /** One visit of a block with one plain instruction, everything in the region of interest. */
  function PlainVisit(): Visit {
    var env := Env(false, 0, 0, 0, Detailed);
    Visit(Block(0, 0, [Insn(0, 0, 0, false)], false, false, 0, 0, OnePage), Detailed, env, [InsnVisit(env, [])])
  }

  lemma PlainHooks(v: Visit)
    requires v == PlainVisit()
    ensures v.Valid()
    ensures var it := Instrument(v.tb, v.mode);
            && it.entry == [HotBlocks(0), UpdateTarget(0), BranchDetailed, Itlb1(0), SendICache1(0)]
            && |it.insns| == 1 && it.insns[0].exec == [UpdatePc(0), InsnItlb(0), PcNext(0)]
  {
  }

  /** What a plain visit fires: entry callbacks, then those of its instruction. */
  lemma PlainFires() returns (v: Visit, entry: seq<Callback>, exec: seq<Callback>)
    ensures v.Valid() && v.env.InRoi()
    ensures FiredItem(Ran(v)) == FiredAll(entry, v.env, NO_OP) + FiredAll(exec, v.env, NO_OP)
    ensures entry == [HotBlocks(0), UpdateTarget(0), BranchDetailed, Itlb1(0), SendICache1(0)]
    ensures exec == [UpdatePc(0), InsnItlb(0), PcNext(0)]
  {
    v := PlainVisit();
    PlainHooks(v);
    var it := Instrument(v.tb, v.mode);
    entry, exec := it.entry, it.insns[0].exec;
    assert v.insns[..0] == [] && FiredOps(it.insns[0].mem, v.insns[0].ops) == [];
    assert FiredInsns(it.insns, v.insns) == FiredAll(exec, v.env, NO_OP);
  }

  lemma SteadyAll(cbs: seq<Callback>, env: Env, op: MemOp)
    requires env.InRoi() && forall i :: 0 <= i < |cbs| ==> !cbs[i].Pause? && !cbs[i].Cmpxchg?
    ensures Steady(FiredAll(cbs, env, op))
  {
    FiredAllAre(cbs, env, op);
  }

  lemma OneUpdateFires(entry: seq<Callback>, exec: seq<Callback>, env: Env)
    requires forall i :: 0 <= i < |entry| ==> !entry[i].UpdatePc?
    requires |exec| == 3 && exec[0].UpdatePc? && !exec[1].UpdatePc? && !exec[2].UpdatePc?
    ensures Count(IsUpdate, FiredAll(entry, env, NO_OP) + FiredAll(exec, env, NO_OP)) == 1
  {
    FiredAllAre(entry, env, NO_OP);
    FiredAllAre(exec, env, NO_OP);
    CountNone(IsUpdate, FiredAll(entry, env, NO_OP));
    CountOneUpdate(FiredAll(entry, env, NO_OP), FiredAll(exec, env, NO_OP));
  }

  lemma {:induction false} FiredAllAre(cbs: seq<Callback>, env: Env, op: MemOp)
    ensures FiredAll(cbs, env, op) == seq(|cbs|, i requires 0 <= i < |cbs| => Fired(cbs[i], env, op))
    decreases |cbs|
  {
    if cbs != [] { FiredAllAre(cbs[1..], env, op); }
  }

  lemma CountOneUpdate(entry: seq<Micro>, insn: seq<Micro>)
    requires Count(IsUpdate, entry) == 0 && |insn| == 3 && IsUpdate(insn[0]) && !IsUpdate(insn[1]) && !IsUpdate(insn[2])
    ensures Count(IsUpdate, entry + insn) == 1
  {
    var a, b, c := entry + [insn[0]], entry + [insn[0]] + [insn[1]], entry + insn;
    assert a[..|a| - 1] == entry;
    assert Count(IsUpdate, a) == 1;
    assert b[..|b| - 1] == a;
    assert Count(IsUpdate, b) == 1;
    assert c == b + [insn[2]] && c[..|c| - 1] == b;
  }

  /** Resuming, and `n` visits of a block. */
  function Visits(v: Visit, n: nat): seq<Item> {
    if n == 0 then [Came(Resume)] else Visits(v, n - 1) + [Ran(v)]
  }

  function Resumed(more: seq<Micro>, n: nat): seq<Micro> {
    if n == 0 then [Arrived(Resume)] else Resumed(more, n - 1) + more
  }

  lemma FiredPush(run: seq<Item>, item: Item)
    requires ValidRun(run) && (item.Ran? ==> item.visit.Valid())
    ensures ValidRun(run + [item]) && FiredRun(run + [item]) == FiredRun(run) + FiredItem(item)
  {
    assert (run + [item])[..|run|] == run;
  }

  lemma ResumeFires(run: seq<Item>, item: Item)
    requires run == [item] && item == Came(Resume)
    ensures ValidRun(run) && FiredRun(run) == [Arrived(Resume)]
  {
    var before := run[..0];
    assert run == before + [item];
    FiredPush(before, item);
  }

  lemma {:induction false} VisitsFire(v: Visit, n: nat)
    requires v.Valid()
    ensures ValidRun(Visits(v, n)) && FiredRun(Visits(v, n)) == Resumed(FiredItem(Ran(v)), n)
  {
    if n == 0 {
      ResumeFires(Visits(v, 0), Came(Resume));
    } else {
      VisitsFire(v, n - 1);
      FiredPush(Visits(v, n - 1), Ran(v));
    }
  }

  lemma ResumeWakes(s: Vcpu, m: Micro)
    requires m == Arrived(Resume)
    ensures !Play(s, [m]).idle && Counted(s, [m]) == 0
  {
    PlayOne(s, m);
    assert [m][..0] == [];
    assert !Counts(s, m);
  }

  /** These steps count `n` instructions, restart no pace, and leave the vcpu awake. */
  ghost predicate CountsAwake(s: Vcpu, ms: seq<Micro>, n: nat) {
    Unhurried(ms) && Counted(s, ms) == n && !Play(s, ms).idle
  }

  lemma CountsAwakeMore(s: Vcpu, ms: seq<Micro>, more: seq<Micro>, n: nat)
    requires CountsAwake(s, ms, n) && Steady(more) && Count(IsUpdate, more) == 1
    ensures CountsAwake(s, ms + more, n + 1)
  {
    CountsOneMore(s, ms, more);
    SteadyIsUnhurried(ms, more);
  }

  lemma ResumeCountsAwake(s: Vcpu, ms: seq<Micro>)
    requires ms == [Arrived(Resume)]
    ensures CountsAwake(s, ms, 0)
  {
    ResumeWakes(s, ms[0]);
    assert ms == [ms[0]];
  }

  /** Visits that count one instruction each count `n`. */
  lemma {:induction false} ResumedCounts(s: Vcpu, more: seq<Micro>, n: nat)
    requires Steady(more) && Count(IsUpdate, more) == 1
    ensures CountsAwake(s, Resumed(more, n), n)
  {
    if n == 0 {
      ResumeCountsAwake(s, Resumed(more, n));
    } else {
      ResumedCounts(s, more, n - 1);
      CountsAwakeMore(s, Resumed(more, n - 1), more, n - 1);
    }
  }

  lemma SteadyIsUnhurried(ms: seq<Micro>, more: seq<Micro>)
    requires Unhurried(ms) && Steady(more)
    ensures Unhurried(ms + more)
  {
  }

  lemma CountsOneMore(s: Vcpu, ms: seq<Micro>, more: seq<Micro>)
    requires Steady(more) && Count(IsUpdate, more) == 1 && !Play(s, ms).idle
    ensures Counted(s, ms + more) == Counted(s, ms) + 1 && !Play(s, ms + more).idle
  {
    SteadyCounts(Play(s, ms), more);
    PlayAppend(s, ms, more);
    CountedAppend(s, ms, more);
  }

  /** There is a run that counts any number of instructions and restarts no pace. */
  lemma SteadyRun(s: Vcpu, n: nat) returns (run: seq<Item>)
    ensures ValidRun(run) && NoReset(FiredRun(run)) && Unhurried(FiredRun(run)) && Counted(s, FiredRun(run)) == n
  {
    var v, entry, exec := PlainFires();
    SteadyAll(entry, v.env, NO_OP);
    SteadyAll(exec, v.env, NO_OP);
    OneUpdateFires(entry, exec, v.env);
    run := Visits(v, n);
    VisitsFire(v, n);
    ResumedCounts(s, FiredItem(Ran(v)), n);
  }

  lemma {:induction false} CountedAppend(s: Vcpu, a: seq<Micro>, b: seq<Micro>)
    ensures Counted(s, a + b) == Counted(s, a) + Counted(Play(s, a), b)
  {
    if b == [] {
      assert a + b == a;
    } else {
      var n := |b| - 1;
      CountedAppend(s, a, b[..n]);
      PlayAppend(s, a, b[..n]);
      assert (a + b)[..|a + b| - 1] == a + b[..n];
    }
  }

  lemma CountedGrows(s: Vcpu, ms: seq<Micro>, m: Micro)
    ensures Counted(s, ms + [m]) == Counted(s, ms) + if Counts(Play(s, ms), m) then 1 else 0
  {
    assert (ms + [m])[..|ms|] == ms;
  }

  lemma GapCountsOne(s: Vcpu, ms: seq<Micro>, m: Micro)
    requires LeavesPace(m)
    requires var t := Play(s, ms); t.n.detailed + (if Counts(t, m) then 1 else 0) <= t.target
    ensures Gap(s, ms + [m]) == Gap(s, ms) + if Counts(Play(s, ms), m) then 1 else 0
  {
    UnhurriedStep(Play(s, ms), m);
    GapGrows(s, ms, m);
  }

  lemma GapCountsStep(s: Vcpu, before: seq<Micro>, ms: seq<Micro>, m: Micro)
    requires Unhurried(ms) && LeavesPace(m)
    requires var r := Play(s, before); r.n.detailed + Counted(r, ms + [m]) <= r.target
    ensures Gap(s, before + ms + [m]) - Gap(s, before + ms)
         == Counted(Play(s, before), ms + [m]) - Counted(Play(s, before), ms)
  {
    var r := Play(s, before);
    CountedGrows(r, ms, m);
    TargetIsTheDistance(r, ms);
    PlayAppend(s, before, ms);
    GapCountsOne(s, before + ms, m);
  }

  /** While no paced `Sync` comes the gap is what was counted. */
  lemma {:induction false} GapCounts(s: Vcpu, before: seq<Micro>, ms: seq<Micro>)
    requires Unhurried(ms)
    requires var r := Play(s, before); r.n.detailed + Counted(r, ms) <= r.target
    ensures Gap(s, before + ms) == Gap(s, before) + Counted(Play(s, before), ms)
  {
    if ms == [] {
      assert before + ms == before;
    } else {
      var rest, m := ms[..|ms| - 1], ms[|ms| - 1];
      assert ms == rest + [m] && before + ms == before + rest + [m];
      CountedGrows(Play(s, before), rest, m);
      GapCounts(s, before, rest);
      GapCountsStep(s, before, rest, m);
    }
  }

  /** Every run after the reset keeps the paced `Sync`s within `FlowControl + 1` counted instructions. */
  ghost predicate KeepsSpacing(s: Vcpu, before: seq<Micro>) {
    forall run: seq<Item> :: ValidRun(run) && NoReset(FiredRun(run)) ==>
      Gap(s, before + [Arrived(Reset)] + FiredRun(run)) <= FLOW_CONTROL
  }

  lemma GapOverReset(s: Vcpu, before: seq<Micro>)
    ensures Play(s, before + [Arrived(Reset)]) == React(Play(s, before), Reset)
    ensures Gap(s, before + [Arrived(Reset)]) == Gap(s, before)
  {
    GapGrows(s, before, Arrived(Reset));
  }

  lemma GapOfTarget(s: Vcpu, before: seq<Micro>, ms: seq<Micro>)
    requires Unhurried(ms) && Counted(React(Play(s, before), Reset), ms) == Play(s, before).target
    ensures Gap(s, before + [Arrived(Reset)] + ms) == Gap(s, before) + Play(s, before).target
  {
    GapOverReset(s, before);
    GapCounts(s, before + [Arrived(Reset)], ms);
  }

  lemma LateAfterReset(s: Vcpu, before: seq<Micro>)
    requires Gap(s, before) + Play(s, before).target > FLOW_CONTROL
    ensures !KeepsSpacing(s, before)
  {
    var t := Play(s, before);
    var run := SteadyRun(React(t, Reset), t.target);
    GapOfTarget(s, before, FiredRun(run));
  }

  lemma CloseAfterReset(s: Vcpu, before: seq<Micro>, ms: seq<Micro>)
    requires Gap(s, before) + Play(s, before).target <= FLOW_CONTROL && NoReset(ms)
    ensures Gap(s, before + [Arrived(Reset)] + ms) <= FLOW_CONTROL
  {
    GapOverReset(s, before);
    SpacedStaysSpaced(s, before + [Arrived(Reset)], ms);
  }

  /** The spacing of `FlowControl + 1` survives a reset, for every run that may follow, exactly when
      the instructions since the last paced `Sync` and the target carried over come to no more than
      `FlowControl`. */
  lemma SpacingSurvivesReset(s: Vcpu, before: seq<Micro>)
    ensures KeepsSpacing(s, before) <==> Gap(s, before) + Play(s, before).target <= FLOW_CONTROL
  {
    if Gap(s, before) + Play(s, before).target <= FLOW_CONTROL {
      forall run: seq<Item> | ValidRun(run) && NoReset(FiredRun(run))
        ensures Gap(s, before + [Arrived(Reset)] + FiredRun(run)) <= FLOW_CONTROL
      {
        CloseAfterReset(s, before, FiredRun(run));
      }
    } else {
      LateAfterReset(s, before);
    }
  }

  // ---- the idle/resume protocol ----

  /** The last of the `VCPUIdle` and `VCPUResume` events is a resume. */
  predicate Awake(out: seq<Event>) {
    out != [] &&
    var e := out[|out| - 1];
    if e.VCPUIdle? then false else if e.VCPUResume? then true else Awake(out[..|out| - 1])
  }

  /** `e` may follow `out`: idle only when awake, resume only when not, paced syncs only when awake. */
  predicate Proper(out: seq<Event>, e: Event) {
    match e
    case VCPUIdle => Awake(out)
    case VCPUResume => !Awake(out)
    case Sync(Pace) => Awake(out)
    case _ => true
  }

  predicate Protocol(out: seq<Event>) {
    forall i :: 0 <= i < |out| ==> Proper(out[..i], out[i])
  }

  lemma ProtocolPush(out: seq<Event>, e: Event)
    requires Protocol(out) && Proper(out, e)
    ensures Protocol(out + [e])
    ensures Awake(out + [e]) == if e.VCPUIdle? then false else if e.VCPUResume? then true else Awake(out)
  {
    var longer := out + [e];
    forall i | 0 <= i < |longer| ensures Proper(longer[..i], longer[i]) {
      assert longer[..i] == out[..i];
    }
    assert longer[..|longer| - 1] == out;
  }

  lemma {:induction false} ProtocolIgnores(out: seq<Event>, es: seq<Event>)
    requires Protocol(out) && forall i :: 0 <= i < |es| ==> !Lively(es[i])
    ensures Protocol(out + es) && Awake(out + es) == Awake(out)
  {
    if es == [] {
      assert out + es == out;
    } else {
      var n := |es| - 1;
      ProtocolIgnores(out, es[..n]);
      ProtocolPush(out + es[..n], es[n]);
      assert out + es == out + es[..n] + [es[n]];
    }
  }

  ghost predicate LifeInv(s: Vcpu) {
    Protocol(s.output) && (s.idle <==> !Awake(s.output))
  }

  lemma NeutralKeepsLife(s: Vcpu, t: Vcpu)
    requires LifeInv(s) && t.idle == s.idle && AddsNone(Lively, s, t)
    ensures LifeInv(t)
  {
    var es := t.output[|s.output|..];
    ProtocolIgnores(s.output, es);
    assert t.output == s.output + es;
  }

  /** Appending one lively event that the protocol allows, and setting `idle` with it. */
  lemma EmitKeepsLife(s: Vcpu, e: Event, idle: bool)
    requires LifeInv(s) && Proper(s.output, e)
    requires idle == if e.VCPUIdle? then true else if e.VCPUResume? then false else s.idle
    ensures LifeInv(Emit(s.(idle := idle), [e]))
  {
    ProtocolPush(s.output, e);
  }

  lemma UpdatePcKeepsLife(s: Vcpu, env: Env, vaddr: Word)
    requires LifeInv(s)
    ensures LifeInv(DoUpdatePc(s, env, vaddr))
  {
    var s1 := Emit(s.(pc := vaddr), [InstructionEnd]);
    NeutralKeepsLife(s, s1);
    if !s.idle {
      EmitKeepsLife(s1, Sync(Pace), false);
    }
  }

  lemma GoingIdleKeepsProtocol(out: seq<Event>, e: Event)
    requires Protocol(out) && Awake(out) && !Lively(e)
    ensures Protocol(out + [InstructionEnd, VCPUIdle] + [e]) && !Awake(out + [InstructionEnd, VCPUIdle] + [e])
  {
    ProtocolPush(out, InstructionEnd);
    ProtocolPush(out + [InstructionEnd], VCPUIdle);
    assert out + [InstructionEnd] + [VCPUIdle] == out + [InstructionEnd, VCPUIdle];
    ProtocolPush(out + [InstructionEnd, VCPUIdle], e);
  }

  lemma BranchDetailedKeepsLife(s: Vcpu, env: Env)
    requires LifeInv(s)
    ensures LifeInv(DoBranchDetailed(s, env))
  {
    if s.br.addr != 0 {
      var e := InstructionBranch(s.br.target != s.br.fallthrough);
      if env.InRoi() && s.idle {
        ProtocolPush(s.output, VCPUResume);
        ProtocolPush(s.output + [VCPUResume], e);
      } else if !env.InRoi() && !s.idle {
        GoingIdleKeepsProtocol(s.output, e);
      } else {
        ProtocolPush(s.output, e);
      }
    }
  }

  lemma IdleKeepsLife(s: Vcpu, env: Env)
    requires LifeInv(s)
    ensures LifeInv(React(s, Idle(env)))
  {
    var s1 := if env.mode.Detailed? then Emit(s, [InstructionEnd]) else s;
    NeutralKeepsLife(s, s1);
    if !s1.idle {
      EmitKeepsLife(s1, VCPUIdle, true);
    }
  }

  lemma PaceHereKeepsLife(s: Vcpu)
    requires LifeInv(s) && !s.idle
    ensures LifeInv(PaceHere(s))
  {
    EmitKeepsLife(s.(target := s.n.detailed + FLOW_CONTROL), Sync(Pace), false);
  }

  lemma FiringKeepsLife(s: Vcpu, cb: Callback, env: Env, op: MemOp)
    requires LifeInv(s) && TouchesDetail(Fired(cb, env, op))
    ensures LifeInv(Exec(s, cb, env, op))
  {
    match cb
    case UpdatePc(vaddr) => UpdatePcKeepsLife(s, env, vaddr);
    case BranchDetailed => BranchDetailedKeepsLife(s, env);
    case Pause => if !s.idle { PaceHereKeepsLife(s); }
    case Cmpxchg => if !s.idle { PaceHereKeepsLife(s); }
  }

  lemma ArrivalKeepsLife(s: Vcpu, o: Outside)
    requires LifeInv(s) && TouchesDetail(Arrived(o))
    ensures LifeInv(React(s, o))
  {
    match o
    case Idle(env) => IdleKeepsLife(s, env);
    case Resume => if s.idle { EmitKeepsLife(s, VCPUResume, false); }
    case Reset =>
  }

  lemma StepKeepsLife(s: Vcpu, m: Micro)
    requires LifeInv(s)
    ensures LifeInv(Do(s, m))
  {
    if !TouchesDetail(m) {
      OtherStepsLeaveDetail(s, m);
      NeutralKeepsLife(s, Do(s, m));
    } else if m.Arrived? {
      ArrivalKeepsLife(s, m.outside);
    } else {
      FiringKeepsLife(s, m.cb, m.env, m.op);
    }
  }

  /** In every run the `VCPUIdle` and `VCPUResume` events alternate, starting with a resume; `idle`
      holds exactly when the last of them is not a resume; and every paced `Sync` falls where the
      vcpu is awake. */
  lemma {:induction false} IdleResumeProtocol(ms: seq<Micro>)
    ensures var t := Play(STARTED, ms);
            Protocol(t.output) && (t.idle <==> !Awake(t.output))
  {
    if ms != [] {
      var n := |ms| - 1;
      IdleResumeProtocol(ms[..n]);
      StepKeepsLife(Play(STARTED, ms[..n]), ms[n]);
    }
  }

  // ---- capture ----

  predicate IsToggle(m: Micro) {
    m.Fired? && m.cb.MemSendDetailed? && TurnsCapture(m.env, m.op)
  }

  lemma StepTogglesCapture(s: Vcpu, m: Micro)
    ensures Do(s, m).capturing == if IsToggle(m) then !s.capturing else s.capturing
  {
    if m.Fired? { ExecIsFramed(s, m.cb, m.env, m.op); }
  }

  /** A vcpu captures exactly when it has stored to `magic` an odd number of times in the region of
      interest, as seen in the detailed mode. */
  lemma {:induction false} CaptureParity(ms: seq<Micro>)
    ensures Play(STARTED, ms).capturing <==> Count(IsToggle, ms) % 2 == 1
  {
    if ms != [] {
      var n := |ms| - 1;
      CaptureParity(ms[..n]);
      StepTogglesCapture(Play(STARTED, ms[..n]), ms[n]);
    }
  }

  lemma CmpxchgPaces(s: Vcpu)
    ensures Paces(DoCmpxchg(s)) == Paces(s) + 1 <==> !s.idle && !s.capturing
  {
    PaceHerePaces(s);
  }

  /** If `fires`, one paced `Sync` and the next is due 1000 instructions on; otherwise nothing changes. */
  ghost predicate RestartsPace(s: Vcpu, t: Vcpu, fires: bool) {
    && t.output == s.output + (if fires then [Sync(Pace)] else [])
    && t == s.(output := t.output, target := if fires then s.n.detailed + 1000 else s.target)
  }

  /** A `pause` brings a `Sync` exactly to a vcpu that is awake, and restarts the pace there. */
  lemma PauseSyncsWhileAwake(ms: seq<Micro>, env: Env, op: MemOp)
    ensures var s := Play(STARTED, ms);
            Paces(Do(s, Fired(Pause, env, op))) == Paces(s) + 1 <==> Awake(s.output)
    ensures var s := Play(STARTED, ms);
            RestartsPace(s, Do(s, Fired(Pause, env, op)), Awake(s.output))
  {
    var s := Play(STARTED, ms);
    IdleResumeProtocol(ms);
    PauseFires(s, env, op);
  }

  /** A `cmpxchg` brings a `Sync` exactly to a vcpu that is awake and at even parity. */
  lemma CmpxchgSyncsAtEvenParity(ms: seq<Micro>, env: Env, op: MemOp)
    ensures var s := Play(STARTED, ms);
            Paces(Do(s, Fired(Cmpxchg, env, op))) == Paces(s) + 1
            <==> Awake(s.output) && Count(IsToggle, ms) % 2 == 0
    ensures var s := Play(STARTED, ms);
            RestartsPace(s, Do(s, Fired(Cmpxchg, env, op)), Awake(s.output) && Count(IsToggle, ms) % 2 == 0)
  {
    var s := Play(STARTED, ms);
    CaptureParity(ms);
    IdleResumeProtocol(ms);
    CmpxchgFires(s, env, op);
  }

  lemma CmpxchgFires(s: Vcpu, env: Env, op: MemOp)
    ensures Paces(Do(s, Fired(Cmpxchg, env, op))) == Paces(s) + 1 <==> !s.idle && !s.capturing
    ensures RestartsPace(s, Do(s, Fired(Cmpxchg, env, op)), !s.idle && !s.capturing)
  {
    CmpxchgPaces(s);
    assert s.output + [] == s.output;
  }

  lemma PauseFires(s: Vcpu, env: Env, op: MemOp)
    ensures Paces(Do(s, Fired(Pause, env, op))) == Paces(s) + 1 <==> !s.idle
    ensures RestartsPace(s, Do(s, Fired(Pause, env, op)), !s.idle)
  {
    PaceHerePaces(s);
    assert s.output + [] == s.output;
  }

  // ---- what is printed when a detailed recording stops ----

  predicate IsUserAccess(m: Micro, store: bool) {
    m.Fired? && m.cb.MemSendDetailed? && !m.env.inKernel && m.env.pgd == m.env.roiCr3 && m.op.store == store
  }

  function Accessing(store: bool): Micro -> bool {
    (m: Micro) => IsUserAccess(m, store)
  }

  /** The instructions begun while awake, under the page directory under study or under another. */
  function Begun(s: Vcpu, ms: seq<Micro>, studied: bool): nat {
    if ms == [] then 0
    else
      var n := |ms| - 1;
      Begun(s, ms[..n], studied) + if BeginsAwake(Play(s, ms[..n]), ms[n], studied) then 1 else 0
  }

  predicate BeginsAwake(s: Vcpu, m: Micro, studied: bool) {
    Counts(s, m) && (m.env.pgd == m.env.roiCr3) == studied
  }

  lemma StepMixes(s: Vcpu, m: Micro)
    requires !(m.Arrived? && m.outside.Reset?)
    ensures var t := Do(s, m);
            && t.n.user == s.n.user + (if BeginsAwake(s, m, true) then 1 else 0)
            && t.n.other == s.n.other + (if BeginsAwake(s, m, false) then 1 else 0)
            && t.n.loads == s.n.loads + (if IsUserAccess(m, false) then 1 else 0)
            && t.n.stores == s.n.stores + (if IsUserAccess(m, true) then 1 else 0)
  {
    if m.Fired? { ExecIsFramed(s, m.cb, m.env, m.op); }
  }

  /** The four numbers printed for a vcpu, since a reset or the start: the instructions it began
      while awake, in the program under study and elsewhere, and the program's loads and stores in
      user mode. */
  lemma {:induction false} MixIsExact(s: Vcpu, ms: seq<Micro>)
    requires NoReset(ms) && s.n == NO_COUNTERS
    ensures var n := Play(s, ms).n;
            && n.user == Begun(s, ms, true) && n.other == Begun(s, ms, false)
            && n.loads == Count(Accessing(false), ms) && n.stores == Count(Accessing(true), ms)
  {
    if ms != [] {
      var n := |ms| - 1;
      MixIsExact(s, ms[..n]);
      StepMixes(Play(s, ms[..n]), ms[n]);
    }
  }
}
