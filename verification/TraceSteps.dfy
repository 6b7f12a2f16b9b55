/** The trace recorder at the grain of single callbacks, in any order: what every callback
    keeps, and the accounts that hold after any number of them. */
module TraceSteps {
  import opened Counting
  import opened Trace
  import opened TraceFrames

  /** One thing that happens to a vcpu's record. */
  datatype Micro =
    | Fired(cb: Callback, env: Env, op: MemOp)
    | Arrived(outside: Outside)

  function Do(s: Vcpu, m: Micro): Vcpu {
    match m
    case Fired(cb, env, op) => Exec(s, cb, env, op)
    case Arrived(o) => React(s, o)
  }

  function Play(s: Vcpu, ms: seq<Micro>): Vcpu {
    if ms == [] then s else Do(Play(s, ms[..|ms| - 1]), ms[|ms| - 1])
  }

  lemma {:induction false} PlayAppend(s: Vcpu, a: seq<Micro>, b: seq<Micro>)
    ensures Play(s, a + b) == Play(Play(s, a), b)
  {
    if b == [] {
      assert a + b == a;
    } else {
      var n := |b| - 1;
      PlayAppend(s, a, b[..n]);
      assert (a + b)[..|a + b| - 1] == a + b[..n];
    }
  }

  // ---- every run of blocks is such a sequence ----

  function FiredAll(cbs: seq<Callback>, env: Env, op: MemOp): seq<Micro> {
    if cbs == [] then [] else [Fired(cbs[0], env, op)] + FiredAll(cbs[1..], env, op)
  }

  function FiredOps(cbs: seq<Callback>, ops: seq<(MemOp, Env)>): seq<Micro> {
    if ops == [] then [] else FiredAll(cbs, ops[0].1, ops[0].0) + FiredOps(cbs, ops[1..])
  }

  function FiredInsns(hooks: seq<Hooks>, vs: seq<InsnVisit>): seq<Micro>
    requires |vs| <= |hooks|
  {
    if vs == [] then []
    else
      var n := |vs| - 1;
      FiredInsns(hooks, vs[..n]) + (FiredAll(hooks[n].exec, vs[n].env, NO_OP) + FiredOps(hooks[n].mem, vs[n].ops))
  }

  function FiredItem(item: Item): seq<Micro>
    requires item.Ran? ==> item.visit.Valid()
  {
    match item
    case Ran(v) =>
      var it := Instrument(v.tb, v.mode);
      FiredAll(it.entry, v.env, NO_OP) + FiredInsns(it.insns, v.insns)
    case Came(o) => [Arrived(o)]
  }

  function FiredRun(run: seq<Item>): seq<Micro>
    requires ValidRun(run)
  {
    if run == [] then [] else FiredRun(run[..|run| - 1]) + FiredItem(run[|run| - 1])
  }

  lemma PlayOne(s: Vcpu, m: Micro)
    ensures Play(s, [m]) == Do(s, m)
  {
    assert [m][..0] == [];
  }

  lemma {:induction false} PlaysAll(s: Vcpu, cbs: seq<Callback>, env: Env, op: MemOp)
    ensures Play(s, FiredAll(cbs, env, op)) == ExecAll(s, cbs, env, op)
    decreases |cbs|
  {
    if cbs != [] {
      PlayAppend(s, [Fired(cbs[0], env, op)], FiredAll(cbs[1..], env, op));
      PlayOne(s, Fired(cbs[0], env, op));
      PlaysAll(Exec(s, cbs[0], env, op), cbs[1..], env, op);
    }
  }

  lemma {:induction false} PlaysOps(s: Vcpu, cbs: seq<Callback>, ops: seq<(MemOp, Env)>)
    ensures Play(s, FiredOps(cbs, ops)) == ExecOps(s, cbs, ops)
    decreases |ops|
  {
    if ops != [] {
      PlayAppend(s, FiredAll(cbs, ops[0].1, ops[0].0), FiredOps(cbs, ops[1..]));
      PlaysAll(s, cbs, ops[0].1, ops[0].0);
      PlaysOps(ExecAll(s, cbs, ops[0].1, ops[0].0), cbs, ops[1..]);
    }
  }

  lemma {:induction false} PlaysInsns(s: Vcpu, hooks: seq<Hooks>, vs: seq<InsnVisit>)
    requires |vs| <= |hooks|
    ensures Play(s, FiredInsns(hooks, vs)) == ExecInsns(s, hooks, vs)
  {
    if vs != [] {
      var n := |vs| - 1;
      var h, v := hooks[n], vs[n];
      PlaysInsns(s, hooks, vs[..n]);
      var s1 := ExecInsns(s, hooks, vs[..n]);
      PlayAppend(s, FiredInsns(hooks, vs[..n]), FiredAll(h.exec, v.env, NO_OP) + FiredOps(h.mem, v.ops));
      PlayAppend(s1, FiredAll(h.exec, v.env, NO_OP), FiredOps(h.mem, v.ops));
      PlaysAll(s1, h.exec, v.env, NO_OP);
      PlaysOps(ExecAll(s1, h.exec, v.env, NO_OP), h.mem, v.ops);
    }
  }

  /** Whatever holds after every sequence of callbacks holds after every run of blocks. */
  lemma {:induction false} RunIsAPlay(s: Vcpu, run: seq<Item>)
    requires ValidRun(run)
    ensures Run(s, run) == Play(s, FiredRun(run))
  {
    if run != [] {
      var n := |run| - 1;
      RunIsAPlay(s, run[..n]);
      var s1 := Run(s, run[..n]);
      PlayAppend(s, FiredRun(run[..n]), FiredItem(run[n]));
      match run[n]
      case Ran(v) =>
        var it := Instrument(v.tb, v.mode);
        PlayAppend(s1, FiredAll(it.entry, v.env, NO_OP), FiredInsns(it.insns, v.insns));
        PlaysAll(s1, it.entry, v.env, NO_OP);
        PlaysInsns(ExecAll(s1, it.entry, v.env, NO_OP), it.insns, v.insns);
      case Came(o) =>
        PlayOne(s1, Arrived(o));
    }
  }

  // ---- instruction ledgers ----

  predicate CountsInsns(e: Event) {
    e.InstructionCount? || e.CacheOnly? || (e.Sync? && e.why.Drain?)
  }

  /** What an event says about `icount_reported`. */
  function Reported(e: Event): int {
    match e
    case InstructionCount(n) => n
    case Sync(Drain(n)) => n
    case _ => 0
  }

  function CacheOnlyCount(e: Event): int {
    if e.CacheOnly? then e.count else 0
  }

  function IsReport(e: Event): int {
    if e.InstructionCount? || (e.Sync? && e.why.Drain?) then 1 else 0
  }

  predicate TouchesLedger(m: Micro) {
    if m.Arrived? then m.outside.Reset?
    else m.cb.CountInsns? || m.cb.CountInsn? || m.cb.MemSendCacheonly? || m.cb.BranchCacheonly?
  }

  ghost predicate SameLedger(s: Vcpu, t: Vcpu) {
    && t.n.icount == s.n.icount && t.n.cacheonly == s.n.cacheonly
    && t.n.pending == s.n.pending && t.n.reported == s.n.reported
    && AddsNone(CountsInsns, s, t)
  }

  lemma ExecLeavesLedger(s: Vcpu, cb: Callback, env: Env, op: MemOp)
    requires !TouchesLedger(Fired(cb, env, op))
    ensures SameLedger(s, Exec(s, cb, env, op))
  {
    ExecIsFramed(s, cb, env, op);
    ExecAddsNone(CountsInsns, s, cb, env, op);
  }

  lemma ReactLeavesLedger(s: Vcpu, o: Outside)
    requires !o.Reset?
    ensures SameLedger(s, React(s, o))
  {
    ReactIsFramed(s, o);
    ReactAddsNone(CountsInsns, s, o);
  }

  lemma SumEmit(f: Event -> int, s: Vcpu, e: Event)
    ensures Sum(f, Emit(s, [e]).output) == Sum(f, s.output) + f(e)
  {
    SumPush(f, s.output, e);
  }

  /** What the accounts of one record say: reported, reports made, and the cache-only counts. */
  datatype Books = Books(drained: int, reports: int, events: int)

  function BooksOf(s: Vcpu): Books {
    Books(Sum(Reported, s.output), Sum(IsReport, s.output), Sum(CacheOnlyCount, s.output))
  }

  lemma SameLedgerSameBooks(s: Vcpu, t: Vcpu)
    requires SameLedger(s, t)
    ensures BooksOf(t) == BooksOf(s)
  {
    SumUnchanged(Reported, CountsInsns, s, t);
    SumUnchanged(IsReport, CountsInsns, s, t);
    SumUnchanged(CacheOnlyCount, CountsInsns, s, t);
  }

  lemma EmitBooks(s: Vcpu, e: Event)
    ensures BooksOf(Emit(s, [e]))
         == Books(BooksOf(s).drained + Reported(e), BooksOf(s).reports + IsReport(e),
                  BooksOf(s).events + CacheOnlyCount(e))
  {
    SumEmit(Reported, s, e);
    SumEmit(IsReport, s, e);
    SumEmit(CacheOnlyCount, s, e);
  }

  /** How many instructions a step adds to `icount_reported`. */
  function Increment(s: Vcpu, m: Micro): nat {
    if m.Arrived? then 0
    else
      match m.cb
      case CountInsns(n) => n
      case MemSendCacheonly(_) => s.n.pending
      case BranchCacheonly(_) => if s.br.addr == 0 then 0 else s.n.pending
      case _ => 0
  }

  /** Adding `k` to `icount_reported` reports everything as soon as that exceeds the threshold. */
  ghost predicate Reports(s: Vcpu, t: Vcpu, k: nat) {
    var r := s.n.reported + k;
    var b, b' := BooksOf(s), BooksOf(t);
    if r > FLOW_CONTROL_FF then t.n.reported == 0 && b'.drained == b.drained + r && b'.reports == b.reports + 1
    else t.n.reported == r && b'.drained == b.drained && b'.reports == b.reports
  }

  lemma DrainReports(s: Vcpu, t: Vcpu, k: nat)
    requires BooksOf(t).drained == BooksOf(s).drained && BooksOf(t).reports == BooksOf(s).reports
    requires t.n.reported == s.n.reported + k
    ensures var u := DrainIfDue(t);
            && Reports(s, u, k) && BooksOf(u).events == BooksOf(t).events
            && u.n == t.n.(reported := u.n.reported)
  {
    EmitBooks(t.(n := t.n.(reported := 0)), Sync(Drain(t.n.reported)));
  }

  lemma CountInsnsReports(s: Vcpu, n: nat)
    ensures var t := DoCountInsns(s, n);
            && Reports(s, t, n) && BooksOf(t).events == BooksOf(s).events
            && t.n == s.n.(icount := s.n.icount + n, reported := t.n.reported)
  {
    var r := s.n.reported + n;
    EmitBooks(s.(n := s.n.(icount := s.n.icount + n, reported := 0)), InstructionCount(r));
  }

  lemma MemSendReports(s: Vcpu, op: MemOp, ram: Word)
    ensures var t := DoMemSendCacheonly(s, op, ram);
            && Reports(s, t, s.n.pending) && BooksOf(t).events == BooksOf(s).events + s.n.pending
            && t.n == s.n.(cacheonly := s.n.cacheonly + s.n.pending, pending := 0, reported := t.n.reported)
  {
    var kind := if op.store then MemWrite else MemRead;
    var s1 := Emit(s, [Translate(op.vaddr, op.paddr)]);
    EmitBooks(s, Translate(op.vaddr, op.paddr));
    EmitBooks(s1, Translate(s.pc, ram));
    var s2 := if s.n.pending != 0 then Settle(Emit(s1, [Translate(s.pc, ram)])) else s1;
    EmitBooks(s2, CacheOnly(s.n.pending, kind, s.pc, op.vaddr));
    DrainReports(s, Emit(s2, [CacheOnly(s.n.pending, kind, s.pc, op.vaddr)]), s.n.pending);
  }

  lemma BranchReports(s: Vcpu, ram: Word)
    requires s.br.addr != 0
    ensures var t := DoBranchCacheonly(s, ram);
            && Reports(s, t, s.n.pending) && BooksOf(t).events == BooksOf(s).events + s.n.pending
            && t.n == s.n.(cacheonly := s.n.cacheonly + s.n.pending, pending := 0, reported := t.n.reported)
  {
    var kind := if s.br.target == s.br.fallthrough then BranchNotTaken else BranchTaken;
    var e := CacheOnly(s.n.pending, kind, s.br.addr, s.br.target);
    var s1 := s.(sound := s.sound && s.br.fallthrough != 0, br := s.br.(addr := 0, fallthrough := 0));
    var s2 := Emit(s1, [Translate(s.br.target, ram)]);
    EmitBooks(s1, Translate(s.br.target, ram));
    EmitBooks(s2, e);
    assert s1.output + [Translate(s.br.target, ram), e] == s2.output + [e];
    DrainReports(s, Settle(Emit(s1, [Translate(s.br.target, ram), e])), s.n.pending);
  }

  /** What every step but a reset does to the accounts. */
  ghost predicate Booked(s: Vcpu, m: Micro, t: Vcpu) {
    var k := Increment(s, m);
    var fast := if m.Fired? && m.cb.CountInsns? then m.cb.n else 0;
    var one := if m.Fired? && m.cb.CountInsn? then 1 else 0;
    && Reports(s, t, k)
    && t.n.icount == s.n.icount + fast
    && t.n.cacheonly == s.n.cacheonly + k - fast
    && t.n.pending == s.n.pending + one - (k - fast)
    && BooksOf(t).events == BooksOf(s).events + k - fast
  }

  lemma LedgerStepIsBooked(s: Vcpu, cb: Callback, env: Env, op: MemOp)
    requires TouchesLedger(Fired(cb, env, op)) && s.n.reported <= FLOW_CONTROL_FF
    ensures Booked(s, Fired(cb, env, op), Exec(s, cb, env, op))
  {
    match cb
    case CountInsns(n) => CountInsnsReports(s, n);
    case CountInsn =>
    case MemSendCacheonly(ram) => MemSendReports(s, op, ram);
    case BranchCacheonly(ram) => if s.br.addr != 0 { BranchReports(s, ram); }
  }

  lemma OtherStepIsBooked(s: Vcpu, m: Micro, t: Vcpu)
    requires !TouchesLedger(m) && SameLedger(s, t) && s.n.reported <= FLOW_CONTROL_FF
    ensures Booked(s, m, t)
  {
    SameLedgerSameBooks(s, t);
  }

  lemma StepIsBooked(s: Vcpu, m: Micro)
    requires !(m.Arrived? && m.outside.Reset?) && s.n.reported <= FLOW_CONTROL_FF
    ensures Booked(s, m, Do(s, m))
  {
    if TouchesLedger(m) {
      LedgerStepIsBooked(s, m.cb, m.env, m.op);
    } else {
      if m.Fired? { ExecLeavesLedger(s, m.cb, m.env, m.op); } else { ReactLeavesLedger(s, m.outside); }
      OtherStepIsBooked(s, m, Do(s, m));
    }
  }

  predicate NoReset(ms: seq<Micro>) {
    forall i :: 0 <= i < |ms| ==> !(ms[i].Arrived? && ms[i].outside.Reset?)
  }

  /** Instructions counted one by one in the cache-only mode. */
  predicate IsCountInsn(m: Micro) { m.Fired? && m.cb.CountInsn? }

  function FastCount(m: Micro): int {
    if m.Fired? && m.cb.CountInsns? then m.cb.n else 0
  }

  /** Since a reset, or since the start: every instruction counted in the fast mode is in `icount`,
      every one counted in the cache-only mode is in `icount_cacheonly` or pending, the `CacheOnly`
      events account for the first, and what `InstructionCount` and draining `Sync`s reported,
      with what is still to report, is the sum of both. */
  lemma {:induction false} InstructionLedger(s: Vcpu, ms: seq<Micro>)
    requires NoReset(ms) && s.n == NO_COUNTERS
    ensures var t := Play(s, ms);
            && t.n.icount == Sum(FastCount, ms)
            && t.n.cacheonly + t.n.pending == Count(IsCountInsn, ms)
            && BooksOf(t).events - BooksOf(s).events == t.n.cacheonly
            && BooksOf(t).drained - BooksOf(s).drained + t.n.reported == t.n.icount + t.n.cacheonly
            && t.n.reported <= FLOW_CONTROL_FF
  {
    if ms != [] {
      var n := |ms| - 1;
      InstructionLedger(s, ms[..n]);
      StepIsBooked(Play(s, ms[..n]), ms[n]);
    }
  }

  /** The same ledger, over any sequence, counted from its last reset. */
  lemma LedgerSinceReset(s: Vcpu, before: seq<Micro>, after: seq<Micro>)
    requires NoReset(after)
    ensures var s1 := Play(s, before + [Arrived(Reset)]);
            var t := Play(s, before + [Arrived(Reset)] + after);
            && t.n.icount == Sum(FastCount, after)
            && t.n.cacheonly + t.n.pending == Count(IsCountInsn, after)
            && BooksOf(t).events - BooksOf(s1).events == t.n.cacheonly
            && BooksOf(t).drained - BooksOf(s1).drained + t.n.reported == t.n.icount + t.n.cacheonly
  {
    PlayAppend(s, before, [Arrived(Reset)]);
    PlayOne(Play(s, before), Arrived(Reset));
    PlayAppend(s, before + [Arrived(Reset)], after);
    InstructionLedger(Play(s, before + [Arrived(Reset)]), after);
  }

  /** No single step adds more than `most` instructions. */
  ghost predicate SmallSteps(s: Vcpu, ms: seq<Micro>, most: nat) {
    forall k :: 0 <= k < |ms| ==> Increment(Play(s, ms[..k]), ms[k]) <= most
  }

  /** `d` reports of more than the threshold and at most `most` above it. */
  predicate Within(d: int, drained: int, most: nat) {
    d >= 0 && d * (FLOW_CONTROL_FF + 1) <= drained <= d * (FLOW_CONTROL_FF + most)
  }

  lemma OneMoreReport(d: int, drained: int, r: int, most: nat)
    requires Within(d, drained, most) && FLOW_CONTROL_FF < r <= FLOW_CONTROL_FF + most
    ensures Within(d + 1, drained + r, most)
  {
    assert (d + 1) * (FLOW_CONTROL_FF + most) == d * (FLOW_CONTROL_FF + most) + (FLOW_CONTROL_FF + most);
  }

  function ReportsMade(s: Vcpu, t: Vcpu): int { BooksOf(t).reports - BooksOf(s).reports }

  function Drained(s: Vcpu, t: Vcpu): int { BooksOf(t).drained - BooksOf(s).drained }

  lemma StepKeepsWithin(s: Vcpu, s1: Vcpu, t: Vcpu, k: nat, most: nat)
    requires s1.n.reported <= FLOW_CONTROL_FF && Reports(s1, t, k) && k <= most
    requires Within(ReportsMade(s, s1), Drained(s, s1), most)
    ensures t.n.reported <= FLOW_CONTROL_FF && Within(ReportsMade(s, t), Drained(s, t), most)
  {
    if s1.n.reported + k > FLOW_CONTROL_FF {
      OneMoreReport(ReportsMade(s, s1), Drained(s, s1), s1.n.reported + k, most);
    }
  }

  lemma SmallStepsBefore(s: Vcpu, ms: seq<Micro>, most: nat)
    requires SmallSteps(s, ms, most) && ms != []
    ensures SmallSteps(s, ms[..|ms| - 1], most)
    ensures Increment(Play(s, ms[..|ms| - 1]), ms[|ms| - 1]) <= most
  {
    var before := ms[..|ms| - 1];
    forall k | 0 <= k < |before| ensures Increment(Play(s, before[..k]), before[k]) <= most {
      assert before[..k] == ms[..k];
    }
  }

  /** Report drain bounds.  Between resets the unreported count never exceeds the threshold, every
      report exceeds it, and so `d` reports amount to between `d (FF + 1)` and `d (FF + most)`
      instructions. */
  lemma {:induction false} DrainBounds(s: Vcpu, ms: seq<Micro>, most: nat)
    requires NoReset(ms) && SmallSteps(s, ms, most) && s.n.reported <= FLOW_CONTROL_FF
    ensures Play(s, ms).n.reported <= FLOW_CONTROL_FF
    ensures Within(ReportsMade(s, Play(s, ms)), Drained(s, Play(s, ms)), most)
  {
    if ms != [] {
      var n := |ms| - 1;
      SmallStepsBefore(s, ms, most);
      DrainBounds(s, ms[..n], most);
      var s1 := Play(s, ms[..n]);
      StepIsBooked(s1, ms[n]);
      StepKeepsWithin(s, s1, Play(s, ms), Increment(s1, ms[n]), most);
    }
  }
}
