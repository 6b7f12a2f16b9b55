/** What the counters hold after any run, in any mixture of modes, read off the run: instructions and
    accesses of visits, and blocks entered. */
module TraceCounts {
  import opened Counting
  import opened Trace
  import opened TraceFrames
  import opened TraceCacheOnly
  import opened TraceRegion
  import opened TraceReference

  // ---- the specification ----

  predicate IsReset(item: Item) { item.Came? && item.outside.Reset? }

  /** The instructions of the blocks visited in the fast mode since the last reset: whole blocks, even
      if they were left early. */
  function FastInsns(run: seq<Item>): nat {
    if run == [] then 0
    else
      var item := run[|run| - 1];
      if IsReset(item) then 0
      else FastInsns(run[..|run| - 1]) + if item.Ran? && item.visit.mode.Icount? then |item.visit.tb.insns| else 0
  }

  /** The instructions begun in cache-only visits since the last reset. */
  function CacheInsns(run: seq<Item>): nat {
    if run == [] then 0
    else
      var item := run[|run| - 1];
      if IsReset(item) then 0
      else CacheInsns(run[..|run| - 1]) + if item.Ran? && item.visit.mode.Memory? then |item.visit.insns| else 0
  }

  /** Whether the vcpu is idle after an item: a detailed visit that follows a branch settles it. */
  function Dozes(prev: Maybe, idle: bool, item: Item): bool {
    match item
    case Ran(v) => if v.mode.Detailed? && LeavesBranch(prev) then !Inside(v.env) else idle
    case Came(o) => o.Idle? || (idle && !o.Resume?)
  }

  function RunDozes(idle: bool, run: seq<Item>): bool {
    if run == [] then idle
    else
      var n := |run| - 1;
      Dozes(Previous(run[..n]), RunDozes(idle, run[..n]), run[n])
  }

  predicate IsStudied(v: InsnVisit) { v.env.pgd == v.env.roiCr3 }

  predicate IsForeign(v: InsnVisit) { v.env.pgd != v.env.roiCr3 }

  /** The instructions satisfying `p` begun awake in detailed visits since the last reset. */
  function AwakeInsns(p: InsnVisit -> bool, idle: bool, run: seq<Item>): nat {
    if run == [] then 0
    else
      var n := |run| - 1;
      if IsReset(run[n]) then 0
      else
        AwakeInsns(p, idle, run[..n])
        + if run[n].Ran? && run[n].visit.mode.Detailed? && !RunDozes(idle, run) then Count(p, run[n].visit.insns) else 0
  }

  predicate IsUserOp(store: bool, op: (MemOp, Env)) {
    op.0.store == store && op.1.pgd == op.1.roiCr3 && !op.1.inKernel
  }

  function UserOp(store: bool): ((MemOp, Env)) -> bool {
    (op: (MemOp, Env)) => IsUserOp(store, op)
  }

  function BodyOps(store: bool, vs: seq<InsnVisit>): nat {
    if vs == [] then 0 else BodyOps(store, vs[..|vs| - 1]) + Count(UserOp(store), vs[|vs| - 1].ops)
  }

  /** The loads, or the stores, of the program of interest in detailed visits since the last reset. */
  function UserOps(store: bool, run: seq<Item>): nat {
    if run == [] then 0
    else
      var item := run[|run| - 1];
      if IsReset(item) then 0
      else
        UserOps(store, run[..|run| - 1])
        + if item.Ran? && item.visit.mode.Detailed? then BodyOps(store, item.visit.insns) else 0
  }

  /** Every instruction. */
  predicate IsAny(v: InsnVisit) { true }

  /** What the counters should be. */
  ghost predicate Counted(n: Counters, idle: bool, run: seq<Item>) {
    && n.icount == FastInsns(run) && n.cacheonly + n.pending == CacheInsns(run)
    && n.detailed == AwakeInsns(IsAny, idle, run)
    && n.user == AwakeInsns(IsStudied, idle, run) && n.other == AwakeInsns(IsForeign, idle, run)
    && n.loads == UserOps(false, run) && n.stores == UserOps(true, run)
  }

  // ---- visits ----

  /** `k` instructions were counted in the cache-only mode, and nothing else. */
  predicate CacheGrows(m: Meter, m': Meter, k: nat) {
    && m'.idle == m.idle && m'.n.cacheonly + m'.n.pending == m.n.cacheonly + m.n.pending + k
    && m'.n == m.n.(cacheonly := m'.n.cacheonly, pending := m'.n.pending, reported := m'.n.reported)
  }

  lemma {:induction false} CacheAccessesGrow(m: Meter, insn: Insn, ops: seq<(MemOp, Env)>)
    ensures CacheGrows(m, CacheAccesses(m, insn, ops).m, 0)
    decreases |ops|
  {
    if ops != [] { CacheAccessesGrow(CacheAccess(m, insn, ops[0].0).m, insn, ops[1..]); }
  }

  lemma {:induction false} CacheBodyGrows(m: Meter, tb: Block, vs: seq<InsnVisit>)
    requires |vs| <= |tb.insns|
    ensures CacheGrows(m, CacheBody(m, tb, vs).m, |vs|)
  {
    if vs != [] {
      var n := |vs| - 1;
      var before := CacheBody(m, tb, vs[..n]).m;
      CacheBodyGrows(m, tb, vs[..n]);
      CacheAccessesGrow(before.(n := before.n.(pending := before.n.pending + 1)), tb.insns[n], vs[n].ops);
    }
  }

  /** These instructions were counted in the detailed mode, and nothing else. */
  predicate DetailedGrows(m: Meter, m': Meter, vs: seq<InsnVisit>) {
    && m'.idle == m.idle
    && m'.n.detailed == m.n.detailed + (if m.idle then 0 else |vs|)
    && m'.n.user == m.n.user + (if m.idle then 0 else Count(IsStudied, vs))
    && m'.n.other == m.n.other + (if m.idle then 0 else Count(IsForeign, vs))
    && m'.n.loads == m.n.loads + BodyOps(false, vs) && m'.n.stores == m.n.stores + BodyOps(true, vs)
    && m'.n == m.n.(detailed := m'.n.detailed, user := m'.n.user, other := m'.n.other,
                    loads := m'.n.loads, stores := m'.n.stores)
  }

  lemma StartedGrows(m: Meter, tb: Block, i: nat, env: Env)
    requires i < |tb.insns|
    ensures var m', awake := Started(m, tb, i, env).m, if m.idle then 0 else 1;
            && m'.idle == m.idle
            && m'.n == m.n.(detailed := m.n.detailed + awake,
                            user := m.n.user + if env.pgd == env.roiCr3 then awake else 0,
                            other := m.n.other + if env.pgd != env.roiCr3 then awake else 0)
  {
  }

  lemma {:induction false} AccessedGrows(m: Meter, ops: seq<(MemOp, Env)>)
    ensures var m' := OpsTale(m, ops).m;
            && m'.idle == m.idle
            && m'.n == m.n.(loads := m.n.loads + Count(UserOp(false), ops),
                            stores := m.n.stores + Count(UserOp(true), ops))
    decreases |ops|
  {
    if ops != [] {
      AccessedGrows(OpTale(m, ops[0].0, ops[0].1).m, ops[1..]);
      CountFirst(UserOp(false), ops);
      CountFirst(UserOp(true), ops);
    }
  }

  lemma {:induction false} CountFirst<T>(p: T -> bool, s: seq<T>)
    requires s != []
    ensures Count(p, s) == (if p(s[0]) then 1 else 0) + Count(p, s[1..])
    decreases |s|
  {
    var n := |s| - 1;
    if n > 0 {
      CountFirst(p, s[..n]);
      assert s[..n][1..] == s[1..][..n - 1];
    }
  }

  /** One instruction more. */
  predicate OneMore(m: Meter, m': Meter, v: InsnVisit) {
    var awake := if m.idle then 0 else 1;
    && m'.idle == m.idle
    && m'.n == m.n.(detailed := m.n.detailed + awake,
                    user := m.n.user + (if v.env.pgd == v.env.roiCr3 then awake else 0),
                    other := m.n.other + (if v.env.pgd != v.env.roiCr3 then awake else 0),
                    loads := m.n.loads + Count(UserOp(false), v.ops),
                    stores := m.n.stores + Count(UserOp(true), v.ops))
  }

  lemma InsnIsOneMore(m: Meter, tb: Block, i: nat, v: InsnVisit)
    requires i < |tb.insns|
    ensures OneMore(m, DetailedInsn(m, tb, i, v).m, v)
  {
    StartedGrows(m, tb, i, v.env);
    AccessedGrows(Started(m, tb, i, v.env).m, v.ops);
  }

  lemma OneMoreGrows(m: Meter, m1: Meter, m2: Meter, vs: seq<InsnVisit>, v: InsnVisit)
    requires DetailedGrows(m, m1, vs) && OneMore(m1, m2, v)
    ensures DetailedGrows(m, m2, vs + [v])
  {
    assert (vs + [v])[..|vs|] == vs;
  }

  lemma {:induction false} DetailedBodyGrows(m: Meter, tb: Block, vs: seq<InsnVisit>)
    requires |vs| <= |tb.insns|
    ensures DetailedGrows(m, DetailedBody(m, tb, vs).m, vs)
  {
    if vs != [] {
      var n := |vs| - 1;
      var before := DetailedBody(m, tb, vs[..n]).m;
      DetailedBodyGrows(m, tb, vs[..n]);
      InsnIsOneMore(before, tb, n, vs[n]);
      OneMoreGrows(m, before, DetailedInsn(before, tb, n, vs[n]).m, vs[..n], vs[n]);
      assert vs == vs[..n] + [vs[n]];
    }
  }

  lemma {:induction false} AllAreAny(vs: seq<InsnVisit>)
    ensures Count(IsAny, vs) == |vs|
  {
    if vs != [] { AllAreAny(vs[..|vs| - 1]); }
  }

  lemma VisitCounts(m: Meter, prev: Maybe, v: Visit)
    requires v.Valid()
    ensures var m' := VisitTale(m, prev, v).m;
            match v.mode
            case Icount =>
              m'.idle == m.idle && m'.n == m.n.(icount := m.n.icount + |v.tb.insns|, reported := m'.n.reported)
            case Memory => CacheGrows(m, m', |v.insns|)
            case Detailed => DetailedGrows(m.(idle := Dozes(prev, m.idle, Ran(v))), m', v.insns)
  {
    match v.mode
    case Icount =>
    case Memory => CacheBodyGrows(CacheEntry(m, prev, v.tb).m, v.tb, v.insns);
    case Detailed => DetailedBodyGrows(EntryTale(m, prev, v.tb, v.env).m, v.tb, v.insns);
  }

  // ---- whole runs ----

  lemma FastIsCounted(n: Counters, n': Counters, idle: bool, run: seq<Item>, v: Visit)
    requires Counted(n, idle, run) && v.mode.Icount?
    requires n' == n.(icount := n.icount + |v.tb.insns|, reported := n'.reported)
    ensures Counted(n', idle, run + [Ran(v)])
  {
    assert (run + [Ran(v)])[..|run|] == run;
  }

  lemma CacheIsCounted(m: Meter, m': Meter, idle: bool, run: seq<Item>, v: Visit)
    requires Counted(m.n, idle, run) && v.mode.Memory? && CacheGrows(m, m', |v.insns|)
    ensures Counted(m'.n, idle, run + [Ran(v)])
  {
    assert (run + [Ran(v)])[..|run|] == run;
  }

  lemma DetailedIsCounted(m: Meter, m': Meter, idle: bool, run: seq<Item>, v: Visit)
    requires Counted(m.n, idle, run) && v.mode.Detailed? && DetailedGrows(m, m', v.insns)
    requires m.idle == RunDozes(idle, run + [Ran(v)])
    ensures Counted(m'.n, idle, run + [Ran(v)])
  {
    assert (run + [Ran(v)])[..|run|] == run;
    AllAreAny(v.insns);
  }

  lemma DozesPush(idle: bool, run: seq<Item>, item: Item)
    ensures RunDozes(idle, run + [item]) == Dozes(Previous(run), RunDozes(idle, run), item)
  {
    assert (run + [item])[..|run|] == run;
  }

  lemma VisitIsCounted(m: Meter, idle: bool, run: seq<Item>, v: Visit)
    requires v.Valid() && Counted(m.n, idle, run) && m.idle == RunDozes(idle, run)
    ensures var m' := VisitTale(m, Previous(run), v).m;
            Counted(m'.n, idle, run + [Ran(v)]) && m'.idle == RunDozes(idle, run + [Ran(v)])
  {
    var m' := VisitTale(m, Previous(run), v).m;
    VisitCounts(m, Previous(run), v);
    DozesPush(idle, run, Ran(v));
    match v.mode
    case Icount => FastIsCounted(m.n, m'.n, idle, run, v);
    case Memory => CacheIsCounted(m, m', idle, run, v);
    case Detailed => DetailedIsCounted(m.(idle := Dozes(Previous(run), m.idle, Ran(v))), m', idle, run, v);
  }

  lemma OutsideIsCounted(m: Meter, idle: bool, run: seq<Item>, o: Outside)
    requires Counted(m.n, idle, run) && m.idle == RunDozes(idle, run)
    ensures var m' := OutsideTale(m, o).m;
            Counted(m'.n, idle, run + [Came(o)]) && m'.idle == RunDozes(idle, run + [Came(o)])
  {
    assert (run + [Came(o)])[..|run|] == run;
  }

  lemma {:induction false} TaleIsCounted(m: Meter, run: seq<Item>)
    requires ValidRun(run) && m.n == Counters(0, 0, 0, 0, 0, 0, 0, 0, 0)
    ensures var m' := RunTale(m, run).m; Counted(m'.n, m.idle, run) && m'.idle == RunDozes(m.idle, run)
  {
    if run != [] {
      var n := |run| - 1;
      var before := RunTale(m, run[..n]).m;
      TaleIsCounted(m, run[..n]);
      assert run == run[..n] + [run[n]];
      if run[n].Ran? {
        VisitIsCounted(before, m.idle, run[..n], run[n].visit);
      } else {
        OutsideIsCounted(before, m.idle, run[..n], run[n].outside);
      }
    }
  }

  /** After any run from a record without counts, in any mixture of modes: `icount` is the sum of the
      lengths of the blocks visited in the fast mode, `icount_cacheonly` and the pending instructions
      together those begun in cache-only visits, `icount_detailed` those begun awake in detailed
      visits, split by the page directory they ran under, and `loads` and `stores` the program's
      accesses in user mode; all since the last reset. */
  lemma CountersAreExact(s: Vcpu, run: seq<Item>)
    requires ValidRun(run) && s.br.addr == 0 && s.n == Counters(0, 0, 0, 0, 0, 0, 0, 0, 0)
    ensures Counted(Run(s, run).n, s.idle, run)
    ensures Run(s, run).idle == RunDozes(s.idle, run)
  {
    RunTells(s, run);
    TaleIsCounted(MeterOf(s), run);
  }

  // ---- blocks ----

  predicate IsEntry(item: Item, k: Word) {
    item.Ran? && item.visit.tb.vaddr == k && item.visit.env.pgd == item.visit.env.roiCr3
  }

  function EntryOf(k: Word): Item -> bool {
    (item: Item) => IsEntry(item, k)
  }

  function CountIn(m: map<Word, nat>, k: Word): nat {
    if k in m then m[k] else 0
  }

  predicate NotHot(cb: Callback) { !cb.HotBlocks? }

  predicate NoneHot(cbs: seq<Callback>) {
    forall i :: 0 <= i < |cbs| ==> NotHot(cbs[i])
  }

  lemma {:induction false} OthersLeaveBlocks(s: Vcpu, cbs: seq<Callback>, env: Env, op: MemOp)
    requires NoneHot(cbs)
    ensures ExecAll(s, cbs, env, op).blocks == s.blocks
    decreases |cbs|
  {
    if cbs != [] {
      ExecIsFramed(s, cbs[0], env, op);
      OthersLeaveBlocks(Exec(s, cbs[0], env, op), cbs[1..], env, op);
    }
  }

  lemma {:induction false} OpsLeaveBlocks(s: Vcpu, cbs: seq<Callback>, ops: seq<(MemOp, Env)>)
    requires NoneHot(cbs)
    ensures ExecOps(s, cbs, ops).blocks == s.blocks
    decreases |ops|
  {
    if ops != [] {
      OthersLeaveBlocks(s, cbs, ops[0].1, ops[0].0);
      OpsLeaveBlocks(ExecAll(s, cbs, ops[0].1, ops[0].0), cbs, ops[1..]);
    }
  }

  lemma InsnHooksAreNotHot(tb: Block, mode: Mode, i: nat)
    requires i < |tb.insns|
    ensures NoneHot(HooksAt(tb, mode, i).exec) && NoneHot(HooksAt(tb, mode, i).mem)
  {
  }

  lemma {:induction false} BodyLeavesBlocks(s: Vcpu, tb: Block, mode: Mode, vs: seq<InsnVisit>)
    requires tb.Valid() && |vs| <= |tb.insns|
    ensures ExecInsns(s, Instrument(tb, mode).insns, vs).blocks == s.blocks
  {
    if vs != [] {
      var n := |vs| - 1;
      var t := ExecInsns(s, Instrument(tb, mode).insns, vs[..n]);
      var h := HooksAt(tb, mode, n);
      BodyLeavesBlocks(s, tb, mode, vs[..n]);
      ExecInsnsStep(s, tb, mode, vs, n);
      InsnHooksAreNotHot(tb, mode, n);
      OthersLeaveBlocks(t, h.exec, vs[n].env, NO_OP);
      OpsLeaveBlocks(ExecAll(t, h.exec, vs[n].env, NO_OP), h.mem, vs[n].ops);
    }
  }

  lemma EntryStartsHot(tb: Block, mode: Mode)
    requires tb.Valid()
    ensures EntryHooks(tb, mode)[0] == HotBlocks(tb.vaddr) && NoneHot(EntryHooks(tb, mode)[1..])
  {
  }

  lemma VisitCountsItsBlock(s: Vcpu, v: Visit, k: Word)
    requires v.Valid()
    ensures CountIn(ExecVisit(s, v).blocks, k) == CountIn(s.blocks, k) + if IsEntry(Ran(v), k) then 1 else 0
  {
    var hooks := EntryHooks(v.tb, v.mode);
    EntryStartsHot(v.tb, v.mode);
    OthersLeaveBlocks(Exec(s, hooks[0], v.env, NO_OP), hooks[1..], v.env, NO_OP);
    BodyLeavesBlocks(ExecAll(s, hooks, v.env, NO_OP), v.tb, v.mode, v.insns);
  }

  lemma ItemCountsItsBlock(s: Vcpu, item: Item, k: Word)
    requires item.Ran? ==> item.visit.Valid()
    ensures CountIn(Step(s, item).blocks, k) == CountIn(s.blocks, k) + if IsEntry(item, k) then 1 else 0
  {
    if item.Ran? { VisitCountsItsBlock(s, item.visit, k); }
  }

  /** After any run each block's value is the number of visits of the block, in whatever mode, that
      were entered under the page directory of interest. */
  lemma {:induction false} BlockEntriesAreCounted(s: Vcpu, run: seq<Item>, k: Word)
    requires ValidRun(run) && s.blocks == map[]
    ensures CountIn(Run(s, run).blocks, k) == Count(EntryOf(k), run)
  {
    if run != [] {
      var n := |run| - 1;
      BlockEntriesAreCounted(s, run[..n], k);
      ItemCountsItsBlock(Run(s, run[..n]), run[n], k);
    }
  }
}
