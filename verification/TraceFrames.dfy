/** Frames of the callbacks: which events each may write and which parts of the record it may
    change.  Everything a callback is said to leave alone elsewhere follows from here. */
module TraceFrames {
  import opened Counting
  import opened Trace

  // ---- events ----

  /** `t`'s output is `s`'s with events appended, none of which satisfies `p`. */
  ghost predicate AddsNone(p: Event -> bool, s: Vcpu, t: Vcpu) {
    s.output <= t.output && forall i :: |s.output| <= i < |t.output| ==> !p(t.output[i])
  }

  lemma SumUnchanged(f: Event -> int, p: Event -> bool, s: Vcpu, t: Vcpu)
    requires AddsNone(p, s, t) && forall e: Event :: !p(e) ==> f(e) == 0
    ensures Sum(f, t.output) == Sum(f, s.output)
  {
    var es := t.output[|s.output|..];
    assert t.output == s.output + es;
    SumAppend(f, s.output, es);
    SumZero(f, es);
  }

  lemma SelectUnchanged(p: Event -> bool, s: Vcpu, t: Vcpu)
    requires AddsNone(p, s, t)
    ensures Select(p, t.output) == Select(p, s.output)
  {
    var es := t.output[|s.output|..];
    assert t.output == s.output + es;
    SelectAppend(p, s.output, es);
    SelectNone(p, es);
  }

  predicate IsFetch(cb: Callback) {
    cb.Itlb1? || cb.Itlb2? || cb.SendICache1? || cb.SendICache2? || cb.InsnItlb?
  }

  predicate ReportsCacheonly(cb: Callback) { cb.MemSendCacheonly? || cb.BranchCacheonly? }

  /** The kinds of events a callback may write. */
  predicate Writes(cb: Callback, e: Event) {
    match e
    case InstructionCount(_) => cb.CountInsns?
    case CacheOnly(_, _, _, _) => ReportsCacheonly(cb)
    case Translate(_, _) =>
      cb.BranchRam? || cb.Itlb1? || cb.Itlb2? || cb.InsnItlb? || ReportsCacheonly(cb) || cb.MemSendDetailed?
    case Sync(why) => if why.Drain? then ReportsCacheonly(cb) else cb.UpdatePc? || cb.Pause? || cb.Cmpxchg?
    case InstructionBegin(_, _) => cb.PcNext?
    case InstructionEnd => cb.UpdatePc? || cb.BranchDetailed?
    case InstructionAbort => cb.MemSendDetailed?
    case InstructionMem(_) => cb.MemSendDetailed?
    case InstructionBranch(_) => cb.BranchDetailed?
    case VCPUIdle => cb.BranchDetailed?
    case VCPUResume => cb.BranchDetailed?
    case SendICache(_, _, _) => cb.SendICache1? || cb.SendICache2?
    case _ => false
  }

  /** Only events that `cb` may write are appended. */
  ghost predicate Appends(cb: Callback, s: Vcpu, t: Vcpu) {
    s.output <= t.output && forall i :: |s.output| <= i < |t.output| ==> Writes(cb, t.output[i])
  }

  // ---- the record ----

  predicate MovesBranch(cb: Callback) {
    cb.BranchAt? || cb.UpdateTarget? || cb.UpdateFallthrough? || cb.BranchCacheonly? || cb.BranchDetailed?
  }

  predicate MovesTarget(cb: Callback) { cb.UpdatePc? || cb.Pause? || cb.Cmpxchg? }

  /** What `cb` leaves alone of the record, but for its counters. */
  predicate LeavesRecord(cb: Callback, env: Env, s: Vcpu, t: Vcpu) {
    && (!(cb.HotBlocks? && env.Studied()) ==> t.blocks == s.blocks)
    && (!MovesBranch(cb) ==> t.br == s.br)
    && (!cb.BranchCacheonly? && !cb.BranchDetailed? ==> t.sound == s.sound)
    && (!cb.BranchDetailed? ==> t.idle == s.idle)
    && (!cb.MemSendDetailed? ==> t.capturing == s.capturing)
    && (!MovesTarget(cb) ==> t.target == s.target)
  }

  /** Which counters `cb` leaves alone. */
  predicate LeavesCounters(cb: Callback, m: Counters, n: Counters) {
    && (!cb.CountInsns? ==> n.icount == m.icount)
    && (!ReportsCacheonly(cb) ==> n.cacheonly == m.cacheonly)
    && (!ReportsCacheonly(cb) && !cb.CountInsn? ==> n.pending == m.pending)
    && (!ReportsCacheonly(cb) && !cb.CountInsns? ==> n.reported == m.reported)
    && (!cb.UpdatePc? ==> n.detailed == m.detailed && n.user == m.user && n.other == m.other)
    && (!cb.MemSendDetailed? ==> n.loads == m.loads && n.stores == m.stores)
  }

  ghost predicate Framed(cb: Callback, env: Env, s: Vcpu, t: Vcpu) {
    Appends(cb, s, t) && LeavesRecord(cb, env, s, t) && LeavesCounters(cb, s.n, t.n)
  }

  // ---- every callback keeps to its frame ----

  lemma InRoiIsFramed(cb: Callback, s: Vcpu, env: Env, e: Event)
    requires Writes(cb, e)
    ensures Framed(cb, env, s, IfInRoi(s, env, e))
  {
  }

  lemma FetchIsFramed(s: Vcpu, cb: Callback, env: Env, op: MemOp)
    requires IsFetch(cb)
    ensures Framed(cb, env, s, Exec(s, cb, env, op))
  {
    match cb
    case Itlb1(ram) => InRoiIsFramed(cb, s, env, Translate(s.tbVaddr1, ram));
    case Itlb2(ram) => InRoiIsFramed(cb, s, env, Translate(s.tbVaddr2, ram));
    case SendICache1(host) => InRoiIsFramed(cb, s, env, SendICache(s.tbVaddr1, host, env.CachePgd()));
    case SendICache2(host) => InRoiIsFramed(cb, s, env, SendICache(s.tbVaddr2, host, env.CachePgd()));
    case InsnItlb(ram) => InRoiIsFramed(cb, s, env, Translate(s.pc, ram));
  }

  lemma UpdatePcIsFramed(s: Vcpu, env: Env, vaddr: Word)
    ensures Framed(UpdatePc(vaddr), env, s, DoUpdatePc(s, env, vaddr))
  {
  }

  lemma BranchDetailedAppends(s: Vcpu, env: Env)
    ensures Appends(BranchDetailed, s, DoBranchDetailed(s, env))
  {
  }

  lemma BranchDetailedIsFramed(s: Vcpu, env: Env)
    ensures Framed(BranchDetailed, env, s, DoBranchDetailed(s, env))
  {
    BranchDetailedAppends(s, env);
  }

  lemma MemSendDetailedIsFramed(s: Vcpu, env: Env, op: MemOp)
    ensures Framed(MemSendDetailed, env, s, DoMemSendDetailed(s, env, op))
  {
  }

  lemma MemSendCacheonlyAppends(s: Vcpu, op: MemOp, ram: Word)
    ensures Appends(MemSendCacheonly(ram), s, DoMemSendCacheonly(s, op, ram))
  {
  }

  lemma MemSendCacheonlyIsFramed(s: Vcpu, env: Env, op: MemOp, ram: Word)
    ensures Framed(MemSendCacheonly(ram), env, s, DoMemSendCacheonly(s, op, ram))
  {
    MemSendCacheonlyAppends(s, op, ram);
  }

  lemma BranchCacheonlyAppends(s: Vcpu, ram: Word)
    ensures Appends(BranchCacheonly(ram), s, DoBranchCacheonly(s, ram))
  {
  }

  lemma BranchCacheonlyIsFramed(s: Vcpu, env: Env, ram: Word)
    ensures Framed(BranchCacheonly(ram), env, s, DoBranchCacheonly(s, ram))
  {
    BranchCacheonlyAppends(s, ram);
  }

  predicate Sets(cb: Callback) {
    cb.HotBlocks? || cb.CountInsn? || cb.BranchAt? || cb.MemUpdatePc? || cb.UpdateTarget? || cb.UpdateFallthrough?
    || cb.Vaddr2?
  }

  lemma SetterIsFramed(s: Vcpu, cb: Callback, env: Env, op: MemOp)
    requires Sets(cb)
    ensures Framed(cb, env, s, Exec(s, cb, env, op))
  {
  }

  lemma CountInsnsIsFramed(s: Vcpu, env: Env, n: nat)
    ensures Framed(CountInsns(n), env, s, DoCountInsns(s, n))
  {
  }

  lemma PcNextIsFramed(s: Vcpu, env: Env, next: Word)
    ensures Framed(PcNext(next), env, s, DoPcNext(s, env, next))
  {
  }

  lemma PaceHereIsFramed(s: Vcpu, cb: Callback, env: Env)
    requires cb.Pause? || cb.Cmpxchg?
    ensures Framed(cb, env, s, PaceHere(s)) && Framed(cb, env, s, s)
  {
  }

  lemma OtherIsFramed(s: Vcpu, cb: Callback, env: Env, op: MemOp)
    requires cb.CountInsns? || cb.BranchRam? || cb.PcNext? || cb.Cmpxchg? || cb.Pause?
    ensures Framed(cb, env, s, Exec(s, cb, env, op))
  {
    match cb
    case CountInsns(n) => CountInsnsIsFramed(s, env, n);
    case PcNext(next) => PcNextIsFramed(s, env, next);
    case BranchRam(ram) =>
    case _ => PaceHereIsFramed(s, cb, env);
  }

  /** Every callback only appends events of its own kinds, and changes only its own parts of the record. */
  lemma ExecIsFramed(s: Vcpu, cb: Callback, env: Env, op: MemOp)
    ensures Framed(cb, env, s, Exec(s, cb, env, op))
  {
    if IsFetch(cb) {
      FetchIsFramed(s, cb, env, op);
    } else if cb.UpdatePc? {
      UpdatePcIsFramed(s, env, cb.vaddr);
    } else if cb.BranchDetailed? {
      BranchDetailedIsFramed(s, env);
    } else if cb.MemSendDetailed? {
      MemSendDetailedIsFramed(s, env, op);
    } else if cb.MemSendCacheonly? {
      MemSendCacheonlyIsFramed(s, env, op, cb.ram);
    } else if cb.BranchCacheonly? {
      BranchCacheonlyIsFramed(s, env, cb.ram);
    } else if Sets(cb) {
      SetterIsFramed(s, cb, env, op);
    } else {
      OtherIsFramed(s, cb, env, op);
    }
  }

  lemma ExecAddsNone(p: Event -> bool, s: Vcpu, cb: Callback, env: Env, op: MemOp)
    requires forall e: Event :: Writes(cb, e) ==> !p(e)
    ensures AddsNone(p, s, Exec(s, cb, env, op))
  {
    ExecIsFramed(s, cb, env, op);
  }

  // ---- what comes from outside the blocks ----

  predicate Brings(o: Outside, e: Event) {
    match o
    case Idle(_) => e.InstructionEnd? || e.VCPUIdle?
    case Resume => e.VCPUResume?
    case Interrupt(_) => e.InstructionEnd?
    case ExecSyscall(_) => e.FlushICache?
    case Reset => false
    case Commanded(_) => e.Control?
  }

  /** Only a reset changes the counters, only idling and resuming `idle`; nothing else is touched. */
  lemma ReactIsFramed(s: Vcpu, o: Outside)
    ensures var t := React(s, o);
            && s.output <= t.output && (forall i :: |s.output| <= i < |t.output| ==> Brings(o, t.output[i]))
            && t.n == (if o.Reset? then NO_COUNTERS else s.n)
            && t == s.(n := t.n, idle := t.idle, output := t.output)
            && (!o.Idle? && !o.Resume? ==> t.idle == s.idle)
  {
  }

  lemma ReactAddsNone(p: Event -> bool, s: Vcpu, o: Outside)
    requires forall e: Event :: Brings(o, e) ==> !p(e)
    ensures AddsNone(p, s, React(s, o))
  {
    ReactIsFramed(s, o);
  }
}
