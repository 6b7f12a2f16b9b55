/** The cache-only stream: its events after any run, in any mixture of modes, read directly off the
    run; and exactly when that is what the guest really did. */
module TraceCacheOnly {
  import opened Counting
  import opened Trace
  import opened TraceFrames

  // ---- the specification ----

  /** What a guest run consists of, as far as the cache-only stream is concerned. */
  datatype Happening =
    | Began                                                       // an instruction began
    | Accessed(pc: Word, store: bool, addr: Word)                 // it accessed memory
    | Branched(pc: Word, target: Word, fallthrough: Word)         // a branch went to a block
    | Forgot                                                      // the counters were reset

  datatype Maybe = Nobody | Somebody(visit: Visit)

  function Accesses(pc: Word, ops: seq<(MemOp, Env)>): seq<Happening> {
    if ops == [] then [] else [Accessed(pc, ops[0].0.store, ops[0].0.vaddr)] + Accesses(pc, ops[1..])
  }

  /** The instructions begun in a visit, each followed by its memory operations. */
  function Body(insns: seq<Insn>, vs: seq<InsnVisit>): seq<Happening>
    requires |vs| <= |insns|
  {
    if vs == [] then []
    else
      var n := |vs| - 1;
      Body(insns, vs[..n]) + [Began] + Accesses(insns[n].vaddr, vs[n].ops)
  }

  /** `prev` ended by beginning its branch, and the branch is not at address zero. */
  predicate LeavesBranch(prev: Maybe) {
    && prev.Somebody? && prev.visit.Valid()
    && prev.visit.Completed() && prev.visit.tb.branch && prev.visit.tb.Last().vaddr != 0
  }

  function BranchInto(prev: Maybe, tb: Block): seq<Happening> {
    if LeavesBranch(prev) then [Branched(prev.visit.tb.Last().vaddr, tb.vaddr, prev.visit.tb.nextPc)] else []
  }

  /** The last block visit whose instrumentation looks at branches. */
  function Previous(run: seq<Item>): Maybe {
    if run == [] then Nobody
    else
      var item := run[|run| - 1];
      if item.Ran? && !item.visit.mode.Icount? then Somebody(item.visit) else Previous(run[..|run| - 1])
  }

  function Happens(prev: Maybe, item: Item): seq<Happening>
    requires item.Ran? ==> item.visit.Valid()
  {
    match item
    case Ran(v) => if v.mode.Memory? then BranchInto(prev, v.tb) + Body(v.tb.insns, v.insns) else []
    case Came(o) => if o.Reset? then [Forgot] else []
  }

  function History(run: seq<Item>): seq<Happening>
    requires ValidRun(run)
  {
    if run == [] then []
    else
      var n := |run| - 1;
      History(run[..n]) + Happens(Previous(run[..n]), run[n])
  }

  /** Instructions begun since the last report. */
  function Since(hs: seq<Happening>): nat {
    if hs == [] then 0
    else if hs[|hs| - 1].Began? then Since(hs[..|hs| - 1]) + 1 else 0
  }

  /** The events the run calls for: every access and every branch, with the number of
      instructions begun since the event before. */
  function Reports(hs: seq<Happening>): seq<Event> {
    if hs == [] then []
    else
      var before := hs[..|hs| - 1];
      Reports(before) +
      match hs[|hs| - 1]
      case Accessed(pc, store, addr) => [CacheOnly(Since(before), if store then MemWrite else MemRead, pc, addr)]
      case Branched(pc, target, fallthrough) =>
        [CacheOnly(Since(before), if target != fallthrough then BranchTaken else BranchNotTaken, pc, target)]
      case _ => []
  }

  /** The visit at `i` finds a pending branch whose fall-through address is zero. */
  predicate TripsAt(run: seq<Item>, i: nat)
    requires i < |run|
  {
    run[i].Ran? && !run[i].visit.mode.Icount?
    && LeavesBranch(Previous(run[..i])) && Previous(run[..i]).visit.tb.nextPc == 0
  }

  predicate Trips(run: seq<Item>) {
    exists i :: 0 <= i < |run| && TripsAt(run, i)
  }

  // ---- the relation kept between the record and the guest's run ----

  predicate IsCacheOnly(e: Event) { e.CacheOnly? }

  function Stream(s: Vcpu): seq<Event> {
    Select(IsCacheOnly, s.output)
  }

  /** The stream is `base` and the reports of `hs`; the pending count is what `hs` left over. */
  ghost predicate Tracks(base: seq<Event>, s: Vcpu, hs: seq<Happening>) {
    Stream(s) == base + Reports(hs) && s.n.pending == Since(hs)
  }

  /** The branch registers say which branch `prev` left behind. */
  ghost predicate Remembers(s: Vcpu, prev: Maybe) {
    if LeavesBranch(prev)
    then s.br.addr == prev.visit.tb.Last().vaddr && s.br.fallthrough == prev.visit.tb.nextPc
    else s.br.addr == 0
  }

  // ---- single steps ----

  lemma EmitOther(s: Vcpu, e: Event)
    requires !e.CacheOnly?
    ensures Stream(Emit(s, [e])) == Stream(s)
  {
    SelectPush(IsCacheOnly, s.output, e);
  }

  lemma EmitReport(s: Vcpu, e: Event)
    requires e.CacheOnly?
    ensures Stream(Emit(s, [e])) == Stream(s) + [e]
  {
    SelectPush(IsCacheOnly, s.output, e);
  }

  lemma Last<T>(hs: seq<T>, h: T)
    ensures (hs + [h])[..|hs + [h]| - 1] == hs && (hs + [h])[|hs + [h]| - 1] == h
  {
  }

  lemma TrackBegan(base: seq<Event>, s: Vcpu, hs: seq<Happening>)
    requires Tracks(base, s, hs)
    ensures Tracks(base, DoCountInsn(s), hs + [Began])
  {
    Last(hs, Began);
  }

  lemma DrainIsSilent(s: Vcpu)
    ensures var t := DrainIfDue(s);
            Stream(t) == Stream(s) && t.n.pending == s.n.pending && t.br == s.br && t.sound == s.sound && t.pc == s.pc
  {
    EmitOther(s.(n := s.n.(reported := 0)), Sync(Drain(s.n.reported)));
  }

  /** Writing the report a happening calls for, and starting to count again. */
  lemma Reported(base: seq<Event>, s: Vcpu, t: Vcpu, hs: seq<Happening>, h: Happening, e: Event)
    requires Tracks(base, s, hs) && Stream(t) == Stream(s) + [e] && t.n.pending == 0
    requires match h
             case Accessed(pc, store, addr) =>
               e == CacheOnly(s.n.pending, if store then MemWrite else MemRead, pc, addr)
             case Branched(pc, target, fallthrough) =>
               e == CacheOnly(s.n.pending, if target != fallthrough then BranchTaken else BranchNotTaken, pc, target)
             case _ => false
    ensures Tracks(base, t, hs + [h])
  {
    Last(hs, h);
    assert base + Reports(hs) + [e] == base + (Reports(hs) + [e]);
  }

  lemma TrackAccess(base: seq<Event>, s: Vcpu, hs: seq<Happening>, op: MemOp, ram: Word)
    requires Tracks(base, s, hs)
    ensures var t := DoMemSendCacheonly(s, op, ram);
            && Tracks(base, t, hs + [Accessed(s.pc, op.store, op.vaddr)])
            && t.br == s.br && t.sound == s.sound && t.pc == s.pc
  {
    var e := CacheOnly(s.n.pending, if op.store then MemWrite else MemRead, s.pc, op.vaddr);
    var s1 := Emit(s, [Translate(op.vaddr, op.paddr)]);
    EmitOther(s, Translate(op.vaddr, op.paddr));
    EmitOther(s1, Translate(s.pc, ram));
    var s2 := if s.n.pending != 0 then Settle(Emit(s1, [Translate(s.pc, ram)])) else s1;
    EmitReport(s2, e);
    DrainIsSilent(Emit(s2, [e]));
    Reported(base, s, DoMemSendCacheonly(s, op, ram), hs, Accessed(s.pc, op.store, op.vaddr), e);
  }

  lemma TrackBranch(base: seq<Event>, s: Vcpu, hs: seq<Happening>, ram: Word)
    requires Tracks(base, s, hs) && s.br.addr != 0
    ensures var t := DoBranchCacheonly(s, ram);
            && Tracks(base, t, hs + [Branched(s.br.addr, s.br.target, s.br.fallthrough)])
            && t.br.addr == 0 && (t.sound <==> s.sound && s.br.fallthrough != 0)
  {
    var h := Branched(s.br.addr, s.br.target, s.br.fallthrough);
    var kind := if s.br.target == s.br.fallthrough then BranchNotTaken else BranchTaken;
    var e := CacheOnly(s.n.pending, kind, s.br.addr, s.br.target);
    var s1 := s.(sound := s.sound && s.br.fallthrough != 0, br := s.br.(addr := 0, fallthrough := 0));
    EmitOther(s1, Translate(s.br.target, ram));
    var s2 := Emit(s1, [Translate(s.br.target, ram)]);
    EmitReport(s2, e);
    assert s1.output + [Translate(s.br.target, ram), e] == s2.output + [e];
    DrainIsSilent(Settle(Emit(s1, [Translate(s.br.target, ram), e])));
    Reported(base, s, DoBranchCacheonly(s, ram), hs, h, e);
  }

  // ---- blocks in the cache-only mode ----

  lemma {:induction false} TrackOps(base: seq<Event>, s: Vcpu, hs: seq<Happening>, insn: Insn, ops: seq<(MemOp, Env)>)
    requires Tracks(base, s, hs)
    ensures var t := ExecOps(s, InsnHooks(Memory, insn).mem, ops);
            Tracks(base, t, hs + Accesses(insn.vaddr, ops)) && t.br == s.br && t.sound == s.sound
    decreases |ops|
  {
    if ops == [] {
      assert hs + [] == hs;
    } else {
      var cbs := InsnHooks(Memory, insn).mem;
      var op, env := ops[0].0, ops[0].1;
      ExecFirst(s, MemUpdatePc(insn.vaddr), [MemSendCacheonly(insn.ram)], env, op);
      ExecOne(s.(pc := insn.vaddr), MemSendCacheonly(insn.ram), env, op);
      assert cbs == [MemUpdatePc(insn.vaddr)] + [MemSendCacheonly(insn.ram)];
      TrackAccess(base, s.(pc := insn.vaddr), hs, op, insn.ram);
      var h := Accessed(insn.vaddr, op.store, op.vaddr);
      TrackOps(base, ExecAll(s, cbs, env, op), hs + [h], insn, ops[1..]);
      Associates(hs, [h], Accesses(insn.vaddr, ops[1..]));
    }
  }

  /** Beginning instruction `i`: one more pending; the last one of a branch block leaves its address. */
  lemma TrackExec(base: seq<Event>, s: Vcpu, hs: seq<Happening>, tb: Block, i: nat, env: Env)
    requires Tracks(base, s, hs) && i < |tb.insns|
    ensures var t := ExecAll(s, HooksAt(tb, Memory, i).exec, env, NO_OP);
            && Tracks(base, t, hs + [Began]) && t.sound == s.sound
            && t.br == (if i == |tb.insns| - 1 && tb.branch then s.br.(addr := tb.insns[i].vaddr) else s.br)
  {
    var insn := tb.insns[i];
    TrackBegan(base, s, hs);
    var s1 := DoCountInsn(s);
    if i == |tb.insns| - 1 && tb.branch {
      assert HooksAt(tb, Memory, i).exec == [CountInsn] + ([BranchAt(insn.vaddr)] + [BranchRam(insn.ram)]);
      ExecFirst(s, CountInsn, [BranchAt(insn.vaddr)] + [BranchRam(insn.ram)], env, NO_OP);
      ExecFirst(s1, BranchAt(insn.vaddr), [BranchRam(insn.ram)], env, NO_OP);
      var s2 := s1.(br := s1.br.(addr := insn.vaddr));
      ExecOne(s2, BranchRam(insn.ram), env, NO_OP);
      EmitOther(s2, Translate(insn.vaddr, insn.ram));
    } else {
      assert HooksAt(tb, Memory, i).exec == [CountInsn];
      ExecOne(s, CountInsn, env, NO_OP);
    }
  }

  ghost predicate BranchAfter(s: Vcpu, tb: Block, n: nat, before: Branch) {
    s.br == if n > 0 && n == |tb.insns| && tb.branch then before.(addr := tb.insns[n - 1].vaddr) else before
  }

  lemma TrackInsn(base: seq<Event>, s: Vcpu, hs: seq<Happening>, tb: Block, n: nat, v: InsnVisit, before: Branch)
    requires Tracks(base, s, hs) && tb.Valid() && n < |tb.insns| && BranchAfter(s, tb, n, before)
    ensures var t := ExecInsn(s, HooksAt(tb, Memory, n), v);
            && Tracks(base, t, hs + [Began] + Accesses(tb.insns[n].vaddr, v.ops)) && t.sound == s.sound
            && BranchAfter(t, tb, n + 1, before)
  {
    TrackExec(base, s, hs, tb, n, v.env);
    TrackOps(base, ExecAll(s, HooksAt(tb, Memory, n).exec, v.env, NO_OP), hs + [Began], tb.insns[n], v.ops);
  }

  lemma {:induction false} TrackInsns(base: seq<Event>, s: Vcpu, hs: seq<Happening>, tb: Block, vs: seq<InsnVisit>)
    requires Tracks(base, s, hs) && tb.Valid() && |vs| <= |tb.insns|
    ensures var t := ExecInsns(s, Instrument(tb, Memory).insns, vs);
            Tracks(base, t, hs + Body(tb.insns, vs)) && t.sound == s.sound && BranchAfter(t, tb, |vs|, s.br)
  {
    if vs == [] {
      assert hs + [] == hs;
    } else {
      var n := |vs| - 1;
      TrackInsns(base, s, hs, tb, vs[..n]);
      var s1 := ExecInsns(s, Instrument(tb, Memory).insns, vs[..n]);
      var hs1 := hs + Body(tb.insns, vs[..n]);
      TrackInsn(base, s1, hs1, tb, n, vs[n], s.br);
      ExecInsnsStep(s, tb, Memory, vs, n);
      Associates4(hs, Body(tb.insns, vs[..n]), [Began], Accesses(tb.insns[n].vaddr, vs[n].ops));
    }
  }

  lemma MemoryEntryHooks(tb: Block)
    requires tb.Valid()
    ensures EntryHooks(tb, Memory)
         == [HotBlocks(tb.vaddr)]
            + ([UpdateTarget(tb.vaddr)] + ([BranchCacheonly(tb.Last().ram)] + FallthroughHook(tb)))
  {
  }

  /** Entering a block reports the branch the previous one left, and tests its fall-through. */
  lemma TrackEntry(base: seq<Event>, s: Vcpu, hs: seq<Happening>, prev: Maybe, tb: Block, env: Env)
    requires Tracks(base, s, hs) && Remembers(s, prev) && tb.Valid()
    ensures var t := ExecAll(s, EntryHooks(tb, Memory), env, NO_OP);
            && Tracks(base, t, hs + BranchInto(prev, tb)) && t.br.addr == 0
            && (tb.branch ==> t.br.fallthrough == tb.nextPc)
            && (t.sound <==> s.sound && !(LeavesBranch(prev) && prev.visit.tb.nextPc == 0))
  {
    var ram := tb.Last().ram;
    var rest := FallthroughHook(tb);
    MemoryEntryHooks(tb);
    ExecFirst(s, HotBlocks(tb.vaddr), [UpdateTarget(tb.vaddr)] + ([BranchCacheonly(ram)] + rest), env, NO_OP);
    var s1 := DoHotBlocks(s, env, tb.vaddr);
    ExecFirst(s1, UpdateTarget(tb.vaddr), [BranchCacheonly(ram)] + rest, env, NO_OP);
    var s2 := Exec(s1, UpdateTarget(tb.vaddr), env, NO_OP);
    ExecFirst(s2, BranchCacheonly(ram), rest, env, NO_OP);
    var s3 := DoBranchCacheonly(s2, ram);
    if LeavesBranch(prev) {
      TrackBranch(base, s2, hs, ram);
    } else {
      assert hs + [] == hs;
    }
    if tb.branch {
      ExecOne(s3, UpdateFallthrough(tb.nextPc), env, NO_OP);
    }
  }

  /** A block that set its fall-through on entry and left `br` as `BranchAfter` says is remembered. */
  lemma VisitIsRemembered(s: Vcpu, v: Visit, before: Branch)
    requires v.Valid() && !v.mode.Icount? && BranchAfter(s, v.tb, |v.insns|, before)
    requires before.addr == 0 && (v.tb.branch ==> before.fallthrough == v.tb.nextPc)
    ensures Remembers(s, Somebody(v))
  {
  }

  predicate TripsOn(prev: Maybe) {
    LeavesBranch(prev) && prev.visit.tb.nextPc == 0
  }

  lemma TrackMemoryVisit(base: seq<Event>, s: Vcpu, hs: seq<Happening>, prev: Maybe, v: Visit)
    requires Tracks(base, s, hs) && Remembers(s, prev) && v.Valid() && v.mode.Memory?
    ensures var t := ExecVisit(s, v);
            && Tracks(base, t, hs + Happens(prev, Ran(v))) && Remembers(t, Somebody(v))
            && (t.sound <==> s.sound && !TripsOn(prev))
  {
    TrackEntry(base, s, hs, prev, v.tb, v.env);
    var s1 := ExecAll(s, EntryHooks(v.tb, Memory), v.env, NO_OP);
    TrackInsns(base, s1, hs + BranchInto(prev, v.tb), v.tb, v.insns);
    VisitIsRemembered(ExecVisit(s, v), v, s1.br);
    Associates(hs, BranchInto(prev, v.tb), Body(v.tb.insns, v.insns));
  }

  // ---- blocks in the other modes, and what comes between blocks ----

  /** Nothing the cache-only stream depends on changed. */
  ghost predicate Same(s: Vcpu, t: Vcpu) {
    Stream(t) == Stream(s) && t.n.pending == s.n.pending && t.br == s.br && t.sound == s.sound
  }

  predicate Quiet(cb: Callback) {
    match cb
    case CountInsn => false
    case BranchAt(_) => false
    case UpdateTarget(_) => false
    case UpdateFallthrough(_) => false
    case BranchCacheonly(_) => false
    case BranchDetailed => false
    case MemSendCacheonly(_) => false
    case _ => true
  }

  predicate AllQuiet(cbs: seq<Callback>) {
    forall i :: 0 <= i < |cbs| ==> Quiet(cbs[i])
  }

  lemma QuietExec(s: Vcpu, cb: Callback, env: Env, op: MemOp)
    requires Quiet(cb)
    ensures Same(s, Exec(s, cb, env, op))
  {
    ExecIsFramed(s, cb, env, op);
    ExecAddsNone(IsCacheOnly, s, cb, env, op);
    SelectUnchanged(IsCacheOnly, s, Exec(s, cb, env, op));
  }

  lemma {:induction false} QuietAll(s: Vcpu, cbs: seq<Callback>, env: Env, op: MemOp)
    requires AllQuiet(cbs)
    ensures Same(s, ExecAll(s, cbs, env, op))
    decreases |cbs|
  {
    if cbs != [] {
      QuietExec(s, cbs[0], env, op);
      QuietAll(Exec(s, cbs[0], env, op), cbs[1..], env, op);
    }
  }

  lemma {:induction false} QuietOps(s: Vcpu, cbs: seq<Callback>, ops: seq<(MemOp, Env)>)
    requires AllQuiet(cbs)
    ensures Same(s, ExecOps(s, cbs, ops))
    decreases |ops|
  {
    if ops != [] {
      QuietAll(s, cbs, ops[0].1, ops[0].0);
      QuietOps(ExecAll(s, cbs, ops[0].1, ops[0].0), cbs, ops[1..]);
    }
  }

  lemma {:induction false} IcountInsns(s: Vcpu, tb: Block, vs: seq<InsnVisit>)
    requires tb.Valid() && |vs| <= |tb.insns|
    ensures Same(s, ExecInsns(s, Instrument(tb, Icount).insns, vs))
  {
    if vs != [] {
      var n := |vs| - 1;
      IcountInsns(s, tb, vs[..n]);
      var s1 := ExecInsns(s, Instrument(tb, Icount).insns, vs[..n]);
      var h := HooksAt(tb, Icount, n);
      assert h == Hooks([], []);
      QuietAll(s1, h.exec, vs[n].env, NO_OP);
      QuietOps(ExecAll(s1, h.exec, vs[n].env, NO_OP), h.mem, vs[n].ops);
    }
  }

  lemma IcountVisit(s: Vcpu, v: Visit)
    requires v.Valid() && v.mode.Icount?
    ensures Same(s, ExecVisit(s, v))
  {
    QuietAll(s, EntryHooks(v.tb, Icount), v.env, NO_OP);
    IcountInsns(ExecAll(s, EntryHooks(v.tb, Icount), v.env, NO_OP), v.tb, v.insns);
  }

  /** In the detailed mode only the last instruction of a branch block touches the branch registers. */
  lemma DetailedExec(s: Vcpu, tb: Block, i: nat, env: Env)
    requires i < |tb.insns|
    ensures var t := ExecAll(s, HooksAt(tb, Detailed, i).exec, env, NO_OP);
            && Stream(t) == Stream(s) && t.n.pending == s.n.pending && t.sound == s.sound
            && t.br == (if i == |tb.insns| - 1 && tb.branch then s.br.(addr := tb.insns[i].vaddr) else s.br)
  {
    var quiet := QuietHooks(tb, i);
    var leave := BranchAt(tb.insns[i].vaddr);
    DetailedHooks(tb, i);
    QuietAll(s, quiet, env, NO_OP);
    if i == |tb.insns| - 1 && tb.branch {
      ExecAllAppend(s, quiet, [leave], env, NO_OP);
      ExecOne(ExecAll(s, quiet, env, NO_OP), leave, env, NO_OP);
    }
  }

  function QuietHooks(tb: Block, i: nat): seq<Callback>
    requires i < |tb.insns|
  {
    InsnHooks(Detailed, tb.insns[i]).exec + if i == |tb.insns| - 1 && tb.pause then [Pause] else []
  }

  lemma DetailedHooks(tb: Block, i: nat)
    requires i < |tb.insns|
    ensures AllQuiet(QuietHooks(tb, i))
    ensures HooksAt(tb, Detailed, i).exec
         == if i == |tb.insns| - 1 && tb.branch then QuietHooks(tb, i) + [BranchAt(tb.insns[i].vaddr)]
            else QuietHooks(tb, i)
  {
  }

  lemma {:induction false} DetailedInsns(s: Vcpu, tb: Block, vs: seq<InsnVisit>)
    requires tb.Valid() && |vs| <= |tb.insns|
    ensures var t := ExecInsns(s, Instrument(tb, Detailed).insns, vs);
            && Stream(t) == Stream(s) && t.n.pending == s.n.pending && t.sound == s.sound
            && BranchAfter(t, tb, |vs|, s.br)
  {
    if vs != [] {
      var n := |vs| - 1;
      DetailedInsns(s, tb, vs[..n]);
      var s1 := ExecInsns(s, Instrument(tb, Detailed).insns, vs[..n]);
      var h := HooksAt(tb, Detailed, n);
      DetailedExec(s1, tb, n, vs[n].env);
      QuietOps(ExecAll(s1, h.exec, vs[n].env, NO_OP), h.mem, vs[n].ops);
      ExecInsnsStep(s, tb, Detailed, vs, n);
    }
  }

  lemma BranchDetailedFrame(s: Vcpu, env: Env)
    ensures var t := DoBranchDetailed(s, env);
            && Stream(t) == Stream(s) && t.n.pending == s.n.pending
            && t.br.addr == 0 && (t.sound <==> s.sound && (s.br.addr == 0 || s.br.fallthrough != 0))
  {
    SelectUnchanged(IsCacheOnly, s, DoBranchDetailed(s, env));
  }

  /** The callbacks after `BranchDetailed` on entry only set the fall-through address. */
  lemma DetailedEntryTail(s: Vcpu, tb: Block, env: Env)
    ensures var t := ExecAll(s, DetailedTail(tb), env, NO_OP);
            && Stream(t) == Stream(s) && t.n.pending == s.n.pending && t.sound == s.sound
            && t.br == if tb.branch then s.br.(fallthrough := tb.nextPc) else s.br
  {
    var quiet := [Itlb1(tb.ram), SendICache1(tb.host)] + SecondPageHooks(tb.second);
    ExecAllAppend(s, quiet, FallthroughHook(tb), env, NO_OP);
    QuietAll(s, quiet, env, NO_OP);
    if tb.branch {
      ExecOne(ExecAll(s, quiet, env, NO_OP), UpdateFallthrough(tb.nextPc), env, NO_OP);
    }
  }

  function DetailedTail(tb: Block): seq<Callback> {
    [Itlb1(tb.ram), SendICache1(tb.host)] + SecondPageHooks(tb.second) + FallthroughHook(tb)
  }

  lemma DetailedEntry(s: Vcpu, prev: Maybe, tb: Block, env: Env)
    requires Remembers(s, prev) && tb.Valid()
    ensures var t := ExecAll(s, EntryHooks(tb, Detailed), env, NO_OP);
            && Stream(t) == Stream(s) && t.n.pending == s.n.pending && t.br.addr == 0
            && (tb.branch ==> t.br.fallthrough == tb.nextPc)
            && (t.sound <==> s.sound && !TripsOn(prev))
  {
    var rest := DetailedTail(tb);
    var head := [HotBlocks(tb.vaddr), UpdateTarget(tb.vaddr), BranchDetailed];
    assert EntryHooks(tb, Detailed) == head + rest;
    ExecAllAppend(s, head, rest, env, NO_OP);
    DetailedEntryHead(s, tb, env);
    DetailedEntryTail(ExecAll(s, head, env, NO_OP), tb, env);
  }

  lemma DetailedEntryHead(s: Vcpu, tb: Block, env: Env)
    ensures var t := ExecAll(s, [HotBlocks(tb.vaddr), UpdateTarget(tb.vaddr), BranchDetailed], env, NO_OP);
            && Stream(t) == Stream(s) && t.n.pending == s.n.pending
            && t.br.addr == 0 && (t.sound <==> s.sound && (s.br.addr == 0 || s.br.fallthrough != 0))
  {
    ExecThree(s, HotBlocks(tb.vaddr), UpdateTarget(tb.vaddr), BranchDetailed, env, NO_OP);
    BranchDetailedFrame(Exec(DoHotBlocks(s, env, tb.vaddr), UpdateTarget(tb.vaddr), env, NO_OP), env);
  }

  lemma DetailedVisit(s: Vcpu, prev: Maybe, v: Visit)
    requires Remembers(s, prev) && v.Valid() && v.mode.Detailed?
    ensures var t := ExecVisit(s, v);
            && Stream(t) == Stream(s) && t.n.pending == s.n.pending && Remembers(t, Somebody(v))
            && (t.sound <==> s.sound && !TripsOn(prev))
  {
    DetailedEntry(s, prev, v.tb, v.env);
    var s1 := ExecAll(s, EntryHooks(v.tb, Detailed), v.env, NO_OP);
    DetailedInsns(s1, v.tb, v.insns);
    VisitIsRemembered(ExecVisit(s, v), v, s1.br);
  }

  lemma OutsideIsQuiet(s: Vcpu, o: Outside)
    ensures var t := React(s, o);
            && Stream(t) == Stream(s) && t.br == s.br && t.sound == s.sound
            && t.n.pending == (if o.Reset? then 0 else s.n.pending)
  {
    ReactIsFramed(s, o);
    ReactAddsNone(IsCacheOnly, s, o);
    SelectUnchanged(IsCacheOnly, s, React(s, o));
  }

  // ---- whole runs ----

  ghost predicate Reflects(base: seq<Event>, s: Vcpu, run: seq<Item>)
    requires ValidRun(run)
  {
    Tracks(base, s, History(run)) && Remembers(s, Previous(run))
  }

  lemma StepReflects(base: seq<Event>, s: Vcpu, run: seq<Item>, item: Item)
    requires ValidRun(run + [item]) && ValidRun(run) && Reflects(base, s, run)
    requires item.Ran? ==> item.visit.Valid()
    ensures Reflects(base, Step(s, item), run + [item])
    ensures Step(s, item).sound <==> s.sound && !(item.Ran? && !item.visit.mode.Icount? && TripsOn(Previous(run)))
  {
    var hs, prev := History(run), Previous(run);
    Last(run, item);
    assert hs + [] == hs;
    match item
    case Ran(v) =>
      if v.mode.Icount? {
        IcountVisit(s, v);
      } else if v.mode.Memory? {
        TrackMemoryVisit(base, s, hs, prev, v);
      } else {
        DetailedVisit(s, prev, v);
      }
    case Came(o) =>
      OutsideIsQuiet(s, o);
      Last(hs, Forgot);
  }

  lemma TripsGrows(run: seq<Item>, item: Item)
    ensures Trips(run + [item]) <==> Trips(run) || TripsAt(run + [item], |run|)
  {
    var longer := run + [item];
    forall i | 0 <= i < |run| ensures TripsAt(run, i) <==> TripsAt(longer, i) {
      assert longer[..i] == run[..i];
    }
    if Trips(run) {
      var i :| 0 <= i < |run| && TripsAt(run, i);
      assert TripsAt(longer, i);
    }
  }

  /** The cache-only stream is read off the run.  From a record with no pending branch and no
      pending instructions, after any run in any mixture of modes the stream has grown by exactly
      the reports of `History`, where a branch leads to the next visit instrumented for branches;
      the instructions begun since the last report are pending; and the assertions of the recorder
      all held exactly when no instrumented block was entered over a branch whose fall-through
      address is zero. */
  lemma {:induction false} CacheOnlyIsFaithful(s: Vcpu, run: seq<Item>)
    requires ValidRun(run) && s.br.addr == 0 && s.n.pending == 0
    ensures var t := Run(s, run);
            && Stream(t) == Stream(s) + Reports(History(run))
            && t.n.pending == Since(History(run))
            && Remembers(t, Previous(run))
            && (t.sound <==> s.sound && !Trips(run))
  {
    if run == [] {
      assert Stream(s) + [] == Stream(s);
    } else {
      var n := |run| - 1;
      CacheOnlyIsFaithful(s, run[..n]);
      assert run == run[..n] + [run[n]];
      StepReflects(Stream(s), Run(s, run[..n]), run[..n], run[n]);
      TripsGrows(run[..n], run[n]);
    }
  }

  function Begun(n: nat): seq<Happening> {
    if n == 0 then [] else Begun(n - 1) + [Began]
  }

  lemma {:induction false} BegunOnly(n: nat)
    ensures Reports(Begun(n)) == [] && Since(Begun(n)) == n
  {
    if n > 0 {
      BegunOnly(n - 1);
      Last(Begun(n - 1), Began);
    }
  }

  /** Whatever is pending, the branch registers remember the last instrumented visit. */
  lemma {:induction false} BranchIsRemembered(s: Vcpu, run: seq<Item>)
    requires ValidRun(run) && s.br.addr == 0
    ensures Remembers(Run(s, run), Previous(run))
  {
    if run != [] {
      var n := |run| - 1;
      BranchIsRemembered(s, run[..n]);
      ItemIsRemembered(Run(s, run[..n]), Previous(run[..n]), run[n]);
    }
  }

  lemma ItemIsRemembered(s: Vcpu, prev: Maybe, item: Item)
    requires Remembers(s, prev) && (item.Ran? ==> item.visit.Valid())
    ensures Remembers(Step(s, item), if item.Ran? && !item.visit.mode.Icount? then Somebody(item.visit) else prev)
  {
    match item
    case Ran(v) =>
      if v.mode.Icount? {
        IcountVisit(s, v);
      } else if v.mode.Memory? {
        BegunOnly(s.n.pending);
        assert Stream(s) + [] == Stream(s);
        TrackMemoryVisit(Stream(s), s, Begun(s.n.pending), prev, v);
      } else {
        DetailedVisit(s, prev, v);
      }
    case Came(o) => OutsideIsQuiet(s, o);
  }

  /** The branch a block reports was left by the nearest visit before it that was instrumented
      for branches, whatever came in between. */
  lemma {:induction false} PreviousIsNearest(run: seq<Item>, i: nat)
    requires i < |run| && run[i].Ran? && !run[i].visit.mode.Icount?
    requires forall k :: i < k < |run| ==> run[k].Came? || run[k].visit.mode.Icount?
    ensures Previous(run) == Somebody(run[i].visit)
  {
    if i < |run| - 1 {
      PreviousIsNearest(run[..|run| - 1], i);
    }
  }

  // ---- the guest's own account ----

  /** The last block visit, whatever its instrumentation. */
  function Before(run: seq<Item>): Maybe {
    if run == [] then Nobody
    else
      var item := run[|run| - 1];
      if item.Ran? then Somebody(item.visit) else Before(run[..|run| - 1])
  }

  predicate FastForwarded(before: Maybe) { before.Somebody? && before.visit.mode.Icount? }

  /** The guest left `before` by its branch, and `before` was instrumented. */
  predicate GuestLeaves(before: Maybe) {
    && before.Somebody? && before.visit.Valid() && !FastForwarded(before)
    && before.visit.Completed() && before.visit.tb.branch
  }

  /** The branch the guest took from the block before, if that block was instrumented for branches. */
  function GuestBranch(before: Maybe, tb: Block): seq<Happening> {
    if GuestLeaves(before) then [Branched(before.visit.tb.Last().vaddr, tb.vaddr, before.visit.tb.nextPc)] else []
  }

  function GuestHappens(before: Maybe, item: Item): seq<Happening>
    requires item.Ran? ==> item.visit.Valid()
  {
    match item
    case Ran(v) => if v.mode.Memory? then GuestBranch(before, v.tb) + Body(v.tb.insns, v.insns) else []
    case Came(o) => if o.Reset? then [Forgot] else []
  }

  /** What the guest really did: every branch leads to the block that ran next. */
  function GuestHistory(run: seq<Item>): seq<Happening>
    requires ValidRun(run)
  {
    if run == [] then []
    else
      var n := |run| - 1;
      GuestHistory(run[..n]) + GuestHappens(Before(run[..n]), run[n])
  }

  /** The visit at `i`, in mode `mode`, comes straight after a fast-forwarded block while a branch
      from before the fast-forwarding is pending. */
  predicate LeapsAt(run: seq<Item>, i: nat, mode: Mode)
    requires i < |run|
  {
    run[i].Ran? && run[i].visit.mode == mode && FastForwarded(Before(run[..i])) && LeavesBranch(Previous(run[..i]))
  }

  predicate Leaps(run: seq<Item>, mode: Mode) {
    exists i :: 0 <= i < |run| && LeapsAt(run, i, mode)
  }

  /** The visit at `i`, in mode `mode`, comes straight after an instrumented block that the guest
      left by a branch at address zero. */
  predicate ZeroAt(run: seq<Item>, i: nat, mode: Mode)
    requires i < |run|
  {
    run[i].Ran? && run[i].visit.mode == mode
    && GuestLeaves(Before(run[..i])) && Before(run[..i]).visit.tb.Last().vaddr == 0
  }

  predicate Zeros(run: seq<Item>, mode: Mode) {
    exists i :: 0 <= i < |run| && ZeroAt(run, i, mode)
  }

  lemma PrefixesAgree(run: seq<Item>, item: Item, mode: Mode, i: nat)
    requires i < |run|
    ensures LeapsAt(run + [item], i, mode) <==> LeapsAt(run, i, mode)
    ensures ZeroAt(run + [item], i, mode) <==> ZeroAt(run, i, mode)
  {
    assert (run + [item])[..i] == run[..i];
  }

  lemma LeapsGrows(run: seq<Item>, item: Item, mode: Mode)
    ensures Leaps(run + [item], mode) <==> Leaps(run, mode) || LeapsAt(run + [item], |run|, mode)
  {
    var longer := run + [item];
    forall i | 0 <= i < |run| ensures LeapsAt(run, i, mode) <==> LeapsAt(longer, i, mode) {
      PrefixesAgree(run, item, mode, i);
    }
    if Leaps(run, mode) {
      var i :| 0 <= i < |run| && LeapsAt(run, i, mode);
      assert LeapsAt(longer, i, mode);
    }
  }

  lemma ZerosGrows(run: seq<Item>, item: Item, mode: Mode)
    ensures Zeros(run + [item], mode) <==> Zeros(run, mode) || ZeroAt(run + [item], |run|, mode)
  {
    var longer := run + [item];
    forall i | 0 <= i < |run| ensures ZeroAt(run, i, mode) <==> ZeroAt(longer, i, mode) {
      PrefixesAgree(run, item, mode, i);
    }
    if Zeros(run, mode) {
      var i :| 0 <= i < |run| && ZeroAt(run, i, mode);
      assert ZeroAt(longer, i, mode);
    }
  }

  /** The recorder's idea of the block before is the guest's, unless that block was fast-forwarded. */
  lemma {:induction false} PreviousIsBefore(run: seq<Item>)
    ensures FastForwarded(Before(run)) || Previous(run) == Before(run)
  {
    if run != [] {
      PreviousIsBefore(run[..|run| - 1]);
    }
  }

  predicate IsReported(h: Happening) { h.Accessed? || h.Branched? }

  lemma {:induction false} ReportsAppend(a: seq<Happening>, b: seq<Happening>)
    ensures |Reports(a + b)| == |Reports(a)| + Count(IsReported, b)
  {
    if b == [] {
      assert a + b == a;
    } else {
      var n := |b| - 1;
      ReportsAppend(a, b[..n]);
      assert a + b == a + b[..n] + [b[n]];
      Last(a + b[..n], b[n]);
    }
  }

  lemma OneMoreReport(h: Happening, hs: seq<Happening>)
    requires IsReported(h)
    ensures Count(IsReported, [h] + hs) == 1 + Count(IsReported, hs)
  {
    ReportsAppend([], [h] + hs);
    ReportsAppend([h], hs);
    assert [] + ([h] + hs) == [h] + hs;
    ReportsAppend([], [h]);
    assert [] + [h] == [h] && [h][..0] == [];
  }

  /** One more item: both accounts grow alike, or the recorder's has one report too many, or it
      lacks the branch at address zero. */
  lemma HappensAlike(run: seq<Item>, item: Item)
    requires ValidRun(run) && (item.Ran? ==> item.visit.Valid())
    ensures var happens, guest := Happens(Previous(run), item), GuestHappens(Before(run), item);
            if LeapsAt(run + [item], |run|, Memory) then Count(IsReported, happens) == Count(IsReported, guest) + 1
            else if ZeroAt(run + [item], |run|, Memory) then guest != [] && IsZeroBranch(guest[0])
            else happens == guest
  {
    Last(run, item);
    PreviousIsBefore(run);
    if LeapsAt(run + [item], |run|, Memory) {
      var prev, v := Previous(run), item.visit;
      var h := Branched(prev.visit.tb.Last().vaddr, v.tb.vaddr, prev.visit.tb.nextPc);
      OneMoreReport(h, Body(v.tb.insns, v.insns));
      assert [] + Body(v.tb.insns, v.insns) == Body(v.tb.insns, v.insns);
    }
  }

  predicate IsZeroBranch(h: Happening) { h.Branched? && h.pc == 0 }

  predicate IsZeroReport(e: Event) { e.CacheOnly? && (e.kind.BranchTaken? || e.kind.BranchNotTaken?) && e.pc == 0 }

  predicate HasZero(hs: seq<Happening>) {
    exists i :: 0 <= i < |hs| && IsZeroBranch(hs[i])
  }

  predicate ReportsZero(es: seq<Event>) {
    exists i :: 0 <= i < |es| && IsZeroReport(es[i])
  }

  /** A branch at address zero shows in the reports, and nothing else does so. */
  lemma {:induction false} ZeroShows(hs: seq<Happening>)
    ensures ReportsZero(Reports(hs)) <==> HasZero(hs)
  {
    if hs != [] {
      var n := |hs| - 1;
      ZeroShows(hs[..n]);
      assert hs == hs[..n] + [hs[n]];
      ZeroShowsLast(hs[..n], hs[n]);
    }
  }

  lemma ZeroShowsLast(hs: seq<Happening>, h: Happening)
    ensures ReportsZero(Reports(hs + [h])) <==> ReportsZero(Reports(hs)) || IsZeroBranch(h)
    ensures HasZero(hs + [h]) <==> HasZero(hs) || IsZeroBranch(h)
  {
    Last(hs, h);
    HasZeroAppend(hs, [h]);
    var es, more := Reports(hs), Reports(hs + [h]);
    assert es <= more && |more| <= |es| + 1;
    if ReportsZero(es) {
      var i :| 0 <= i < |es| && IsZeroReport(es[i]);
      assert IsZeroReport(more[i]);
    }
    if IsZeroBranch(h) { assert IsZeroReport(more[|es|]); }
  }

  lemma HasZeroAppend(a: seq<Happening>, b: seq<Happening>)
    ensures HasZero(a + b) <==> HasZero(a) || HasZero(b)
  {
    if HasZero(a) {
      var i :| 0 <= i < |a| && IsZeroBranch(a[i]);
      assert IsZeroBranch((a + b)[i]);
    }
    if HasZero(b) {
      var i :| 0 <= i < |b| && IsZeroBranch(b[i]);
      assert IsZeroBranch((a + b)[|a| + i]);
    }
  }

  lemma {:induction false} BodyHasNoBranch(insns: seq<Insn>, vs: seq<InsnVisit>)
    requires |vs| <= |insns|
    ensures forall i :: 0 <= i < |Body(insns, vs)| ==> !Body(insns, vs)[i].Branched?
  {
    if vs != [] {
      var n := |vs| - 1;
      BodyHasNoBranch(insns, vs[..n]);
      AccessesHaveNoBranch(insns[n].vaddr, vs[n].ops);
    }
  }

  lemma {:induction false} AccessesHaveNoBranch(pc: Word, ops: seq<(MemOp, Env)>)
    ensures forall i :: 0 <= i < |Accesses(pc, ops)| ==> Accesses(pc, ops)[i].Accessed?
  {
    if ops != [] { AccessesHaveNoBranch(pc, ops[1..]); }
  }

  /** The recorder never reports a branch at address zero. */
  lemma {:induction false} HistoryHasNoZero(run: seq<Item>)
    requires ValidRun(run)
    ensures !HasZero(History(run))
  {
    if run != [] {
      var n := |run| - 1;
      HistoryHasNoZero(run[..n]);
      HasZeroAppend(History(run[..n]), Happens(Previous(run[..n]), run[n]));
      HappensNoZero(Previous(run[..n]), run[n]);
    }
  }

  lemma HappensNoZero(prev: Maybe, item: Item)
    requires item.Ran? ==> item.visit.Valid()
    ensures !HasZero(Happens(prev, item))
  {
    if item.Ran? {
      BodyHasNoBranch(item.visit.tb.insns, item.visit.insns);
    }
  }

  /** The guest's account has one exactly when a visit comes after such a branch. */
  lemma {:induction false} GuestHasZero(run: seq<Item>)
    requires ValidRun(run) && Zeros(run, Memory)
    ensures HasZero(GuestHistory(run))
  {
    var n := |run| - 1;
    var rest, item := run[..n], run[n];
    assert run == rest + [item];
    ZerosGrows(rest, item, Memory);
    HistoryGrows(rest, item);
    HasZeroAppend(GuestHistory(rest), GuestHappens(Before(rest), item));
    if Zeros(rest, Memory) {
      GuestHasZero(rest);
    } else {
      HappensAlike(rest, item);
      PreviousIsBefore(rest);
      Last(rest, item);
      assert IsZeroBranch(GuestHappens(Before(rest), item)[0]);
    }
  }

  lemma HistoryGrows(run: seq<Item>, item: Item)
    requires ValidRun(run) && ValidRun(run + [item]) && (item.Ran? ==> item.visit.Valid())
    ensures History(run + [item]) == History(run) + Happens(Previous(run), item)
    ensures GuestHistory(run + [item]) == GuestHistory(run) + GuestHappens(Before(run), item)
  {
    Last(run, item);
  }

  /** Without branches at address zero the recorder's account is the guest's until a visit leaps a
      gap, and too long from then on. */
  lemma {:induction false} HistoriesCompare(run: seq<Item>)
    requires ValidRun(run) && !Zeros(run, Memory)
    ensures if Leaps(run, Memory) then |Reports(History(run))| > |Reports(GuestHistory(run))|
            else History(run) == GuestHistory(run)
  {
    if run != [] {
      var n := |run| - 1;
      var rest, item := run[..n], run[n];
      assert run == rest + [item];
      ZerosGrows(rest, item, Memory);
      HistoriesCompare(rest);
      LeapsGrows(rest, item, Memory);
      HappensAlike(rest, item);
      HistoryGrows(rest, item);
      ReportsAppend(History(rest), Happens(Previous(rest), item));
      ReportsAppend(GuestHistory(rest), GuestHappens(Before(rest), item));
    }
  }

  lemma HistoriesDiffer(run: seq<Item>)
    requires ValidRun(run)
    ensures Reports(History(run)) == Reports(GuestHistory(run)) <==> !Leaps(run, Memory) && !Zeros(run, Memory)
    ensures History(run) == GuestHistory(run) <==> !Leaps(run, Memory) && !Zeros(run, Memory)
  {
    if Zeros(run, Memory) {
      GuestHasZero(run);
      ZeroShows(GuestHistory(run));
      HistoryHasNoZero(run);
      ZeroShows(History(run));
    } else {
      HistoriesCompare(run);
    }
  }

  /** The cache-only stream is what the guest really did, every branch with the block that ran next,
      exactly when no cache-only visit comes straight after a fast-forwarded block while a branch
      from before the fast-forwarding is pending, nor straight after an instrumented block left by a
      branch at address zero. */
  lemma BranchAcrossAGap(s: Vcpu, run: seq<Item>)
    requires ValidRun(run) && s.br.addr == 0 && s.n.pending == 0
    ensures History(run) == GuestHistory(run) <==> !Leaps(run, Memory) && !Zeros(run, Memory)
    ensures Stream(Run(s, run)) == Stream(s) + Reports(GuestHistory(run))
            <==> !Leaps(run, Memory) && !Zeros(run, Memory)
  {
    CacheOnlyIsFaithful(s, run);
    HistoriesDiffer(run);
    Cancels(Stream(s), Reports(History(run)), Reports(GuestHistory(run)));
  }

  /** A run without fast-forwarded blocks never leaps. */
  lemma {:induction false} NothingToLeap(run: seq<Item>, mode: Mode)
    requires forall i :: 0 <= i < |run| && run[i].Ran? ==> !run[i].visit.mode.Icount?
    ensures !Leaps(run, mode) && !FastForwarded(Before(run))
  {
    if run != [] {
      var n := |run| - 1;
      NothingToLeap(run[..n], mode);
      assert run == run[..n] + [run[n]];
      LeapsGrows(run[..n], run[n], mode);
    }
  }

  /** The recorder names the first block after the gap, although the guest went from `a` to `f`. */
  lemma FirstBlockAfterAGap(a: Visit, f: Visit, b: Visit)
    requires a.Valid() && f.Valid() && b.Valid()
    requires a.mode.Memory? && f.mode.Icount? && b.mode.Memory? && LeavesBranch(Somebody(a))
    ensures Leaps([Ran(a), Ran(f), Ran(b)], Memory)
    ensures History([Ran(a), Ran(f), Ran(b)])
         == Body(a.tb.insns, a.insns) + [Branched(a.tb.Last().vaddr, b.tb.vaddr, a.tb.nextPc)]
            + Body(b.tb.insns, b.insns)
  {
    var r1, r2, r3 := [Ran(a)], [Ran(a), Ran(f)], [Ran(a), Ran(f), Ran(b)];
    assert r1[..0] == [] && r2[..1] == r1 && r3[..2] == r2;
    assert History(r1) == Body(a.tb.insns, a.insns);
    assert History(r2) == History(r1);
    assert Previous(r2) == Somebody(a);
    assert History(r3) == History(r2) + Happens(Previous(r2), Ran(b));
    assert LeapsAt(r3, 2, Memory);
  }
}
