/** One more instruction of a detailed visit, after any run: whether it begins in the stream, which
    synchronisations it brings, and how entering its block wakes the vcpu or puts it to sleep. */
module TraceInstructions {
  import opened Counting
  import opened Trace
  import opened TraceSteps
  import opened TraceCacheOnly
  import opened TracePacing
  import opened TraceDetailed
  import Reference = TraceReference

  /** The run goes on into a visit and executes its first `i` instructions. */
  function Into(run: seq<Item>, v: Visit, i: nat): seq<Item>
    requires i <= |v.insns|
  {
    run + [Ran(v.(insns := v.insns[..i]))]
  }

  /** One more instruction runs its own hooks on what was there before. */
  lemma OneMoreInsn(s: Vcpu, run: seq<Item>, v: Visit, i: nat)
    requires ValidRun(run) && v.Valid() && v.mode.Detailed? && i < |v.insns|
    ensures ValidRun(Into(run, v, i)) && ValidRun(Into(run, v, i + 1))
    ensures Run(s, Into(run, v, i + 1))
         == ExecInsn(Run(s, Into(run, v, i)), HooksAt(v.tb, Detailed, i), v.insns[i])
  {
    var before, after := v.(insns := v.insns[..i]), v.(insns := v.insns[..i + 1]);
    assert Into(run, v, i)[..|run|] == run && Into(run, v, i + 1)[..|run|] == run;
    assert after.insns[..i] == before.insns;
    ExecInsnsStep(ExecAll(Run(s, run), EntryHooks(v.tb, Detailed), v.env, NO_OP), v.tb, Detailed, after.insns, i);
  }

  // ---- beginnings ----

  lemma TogglesInto(run: seq<Item>, v: Visit, i: nat)
    requires i <= |v.insns| && v.mode.Detailed?
    ensures RunToggles(Into(run, v, i)) == RunToggles(run) + BodyToggles(v.insns[..i])
  {
    assert Into(run, v, i)[..|run|] == run;
  }

  lemma StreamParity(s: Vcpu, run: seq<Item>, toggles: nat)
    requires ValidRun(run) && !s.capturing && Bracketed(Marks(s)) && toggles == RunToggles(run)
    ensures var t := Run(s, run); (t.capturing <==> toggles % 2 == 1) && Bracketed(Marks(t))
  {
    DetailedStreamIsExact(s, run);
  }

  /** A vcpu captures after an odd number of stores to `magic`. */
  lemma CapturesAtOddParity(s: Vcpu, run: seq<Item>, v: Visit, i: nat, toggles: nat)
    requires ValidRun(run) && v.Valid() && v.mode.Detailed? && i <= |v.insns| && !s.capturing && Bracketed(Marks(s))
    requires toggles == RunToggles(run) + BodyToggles(v.insns[..i])
    ensures ValidRun(Into(run, v, i))
    ensures var t := Run(s, Into(run, v, i)); (t.capturing <==> toggles % 2 == 1) && Bracketed(Marks(t))
  {
    TogglesInto(run, v, i);
    StreamParity(s, Into(run, v, i), toggles);
  }

  lemma InsnBeginsHere(s: Vcpu, tb: Block, i: nat, v: InsnVisit, toggles: nat)
    requires i < |tb.insns| && (s.capturing <==> toggles % 2 == 1) && Bracketed(Marks(s))
    ensures Begins(ExecInsn(s, HooksAt(tb, Detailed, i), v)) == Begins(s) + InsnBegins(tb.insns[i], v.env, toggles)
  {
    assert Begins(s) + [] == Begins(s);
    DetailedInsnBegins(Begins(s), s, tb, i, v, [], toggles);
    assert [] + InsnBegins(tb.insns[i], v.env, toggles) == InsnBegins(tb.insns[i], v.env, toggles);
  }

  /** The region, the parity and the length, spelled out. */
  lemma InsnBeginsIff(insn: Insn, env: Env, toggles: nat)
    ensures InsnBegins(insn, env, toggles)
         == if (env.roiCr3 == 0 || (!env.inKernel && env.pgd == env.roiCr3)) && toggles % 2 == 0
            then [InstructionBegin(insn.vaddr, (insn.next - insn.vaddr) % 0x1_0000_0000_0000_0000)] else []
  {
  }

  /** An instruction begins in the stream exactly if no page directory is set, or it runs in user mode
      under the one that is, after an even number of stores to `magic`; with its address and length. */
  lemma InsnBeginsInRegion(s: Vcpu, run: seq<Item>, v: Visit, i: nat, toggles: nat)
    requires ValidRun(run) && v.Valid() && v.mode.Detailed? && i < |v.insns| && !s.capturing && Bracketed(Marks(s))
    requires toggles == RunToggles(run) + BodyToggles(v.insns[..i])
    ensures ValidRun(Into(run, v, i)) && ValidRun(Into(run, v, i + 1))
    ensures var insn, env := v.tb.insns[i], v.insns[i].env;
            Begins(Run(s, Into(run, v, i + 1)))
            == Begins(Run(s, Into(run, v, i)))
               + if (env.roiCr3 == 0 || (!env.inKernel && env.pgd == env.roiCr3)) && toggles % 2 == 0
                 then [InstructionBegin(insn.vaddr, (insn.next - insn.vaddr) % 0x1_0000_0000_0000_0000)] else []
  {
    OneMoreInsn(s, run, v, i);
    CapturesAtOddParity(s, run, v, i, toggles);
    InsnBeginsHere(Run(s, Into(run, v, i)), v.tb, i, v.insns[i], toggles);
    InsnBeginsIff(v.tb.insns[i], v.insns[i].env, toggles);
  }

  // ---- entering and leaving the region ----

  /** Entering a block after a branch leaves the vcpu idle exactly if a page directory is set and the
      block runs in the kernel or under another one; without a branch nothing changes. */
  lemma EntrySettlesIdle(s: Vcpu, run: seq<Item>, v: Visit)
    requires ValidRun(run) && v.Valid() && v.mode.Detailed? && s.br.addr == 0
    ensures ValidRun(Into(run, v, 0))
    ensures var env := v.env;
            Run(s, Into(run, v, 0)).idle
            == if LeavesBranch(Previous(run)) then env.roiCr3 != 0 && (env.inKernel || env.pgd != env.roiCr3)
               else Run(s, run).idle
  {
    var t := v.(insns := v.insns[..0]);
    assert Into(run, v, 0)[..|run|] == run;
    BranchIsRemembered(s, run);
    Reference.DetailedEntryTells(Run(s, run), Previous(run), v.tb, v.env);
    var entered := ExecAll(Run(s, run), EntryHooks(v.tb, Detailed), v.env, NO_OP);
    assert ExecInsns(entered, Instrument(v.tb, Detailed).insns, t.insns) == entered;
  }

  // ---- synchronisations ----

  lemma AccessesBringNoPace(m: Reference.Meter, ops: seq<(MemOp, Env)>)
    ensures Sum(IsPace, Reference.OpsTale(m, ops).es) == 0 && Reference.OpsTale(m, ops).m.target == m.target
    decreases |ops|
  {
    if ops != [] {
      var first := Reference.OpTale(m, ops[0].0, ops[0].1);
      var rest := Reference.OpsTale(first.m, ops[1..]);
      AccessesBringNoPace(first.m, ops[1..]);
      SumZero(IsPace, first.es);
      SumAppend(IsPace, first.es, rest.es);
    }
  }

  predicate Overdue(m: Reference.Meter) { !m.idle && m.n.detailed + 1 > m.target }

  function One(b: bool): nat { if b then 1 else 0 }

  lemma EndedPaces(m: Reference.Meter, env: Env)
    ensures var t := Reference.Ended(m, env);
            Sum(IsPace, t.es) == One(Overdue(m)) && t.m.idle == m.idle && t.m.capturing == m.capturing
  {
    SumPush(IsPace, [InstructionEnd], Sync(Pace));
    SumPush(IsPace, [], InstructionEnd);
    assert [] + [InstructionEnd] == [InstructionEnd];
  }

  lemma FetchedPaces(m: Reference.Meter, insn: Insn, env: Env)
    ensures Sum(IsPace, Reference.Fetched(m, insn, env)) == 0
  {
    SumZero(IsPace, Reference.Fetched(m, insn, env));
  }

  lemma RestartPaces(m: Reference.Meter, tb: Block, i: nat)
    requires i < |tb.insns|
    ensures var a := Reference.Atomic(m, tb.insns[i]);
            var p := Reference.Paused(a.m, tb, i);
            var atomic := tb.insns[i].cmpxchg && !m.idle && !m.capturing;
            var pause := tb.pause && i + 1 == |tb.insns| && !m.idle;
            && Sum(IsPace, a.es) == One(atomic) && Sum(IsPace, p.es) == One(pause)
            && p.m.n == m.n && (atomic || pause ==> p.m.target == m.n.detailed + 1000)
  {
    SumPush(IsPace, [], Sync(Pace));
    assert [] + [Sync(Pace)] == [Sync(Pace)];
  }

  /** The paced synchronisations of one instruction, in the reference. */
  lemma StartedPaces(m: Reference.Meter, tb: Block, i: nat, env: Env)
    requires i < |tb.insns|
    ensures var t := Reference.Started(m, tb, i, env);
            var atomic := tb.insns[i].cmpxchg && !m.idle && !m.capturing;
            var pause := tb.pause && i + 1 == |tb.insns| && !m.idle;
            && Sum(IsPace, t.es) == One(Overdue(m)) + One(atomic) + One(pause)
            && (atomic || pause ==> t.m.target == t.m.n.detailed + 1000)
  {
    var ended := Reference.Ended(m, env);
    var fetched := Reference.Fetched(ended.m, tb.insns[i], env);
    var atomic := Reference.Atomic(ended.m, tb.insns[i]);
    var pause := Reference.Paused(atomic.m, tb, i);
    EndedPaces(m, env);
    FetchedPaces(ended.m, tb.insns[i], env);
    RestartPaces(ended.m, tb, i);
    SumAppend(IsPace, ended.es, fetched);
    SumAppend(IsPace, atomic.es, pause.es);
    SumAppend(IsPace, ended.es + fetched, atomic.es + pause.es);
  }

  lemma InsnPaces(s: Vcpu, tb: Block, i: nat, v: InsnVisit)
    requires i < |tb.insns|
    ensures var t := ExecInsn(s, HooksAt(tb, Detailed, i), v);
            var atomic := tb.insns[i].cmpxchg && !s.idle && !s.capturing;
            var pause := tb.pause && i + 1 == |tb.insns| && !s.idle;
            && Paces(t) == Paces(s) + One(!s.idle && s.n.detailed + 1 > s.target) + One(atomic) + One(pause)
            && (atomic || pause ==> t.target == t.n.detailed + 1000)
  {
    var m := Reference.MeterOf(s);
    var started := Reference.Started(m, tb, i, v.env);
    var accessed := Reference.OpsTale(started.m, v.ops);
    Reference.DetailedInsnTells(s, tb, i, v);
    StartedPaces(m, tb, i, v.env);
    AccessesBringNoPace(started.m, v.ops);
    AccessesKeepDetailed(started.m, v.ops);
    SumAppend(IsPace, started.es, accessed.es);
    SumAppend(IsPace, s.output, started.es + accessed.es);
  }

  lemma {:induction false} AccessesKeepDetailed(m: Reference.Meter, ops: seq<(MemOp, Env)>)
    ensures Reference.OpsTale(m, ops).m.n.detailed == m.n.detailed
    decreases |ops|
  {
    if ops != [] { AccessesKeepDetailed(Reference.OpTale(m, ops[0].0, ops[0].1).m, ops[1..]); }
  }

  lemma AwakeMeansNotIdle(run: seq<Item>)
    requires ValidRun(run)
    ensures Run(STARTED, run).idle <==> !Awake(Run(STARTED, run).output)
  {
    RunIsAPlay(STARTED, run);
    IdleResumeProtocol(FiredRun(run));
  }

  /** One more instruction of a detailed visit, after any run, brings exactly these paced
      synchronisations: one if the vcpu is awake and the instruction is over the target, one if it is a
      cmpxchg, awake and after an even number of stores to `magic`, and one if it ends a block with a
      pause, awake.  The latter two restart the pace. */
  lemma InsnSyncs(run: seq<Item>, v: Visit, i: nat, toggles: nat)
    requires ValidRun(run) && v.Valid() && v.mode.Detailed? && i < |v.insns|
    requires toggles == RunToggles(run) + BodyToggles(v.insns[..i])
    ensures ValidRun(Into(run, v, i)) && ValidRun(Into(run, v, i + 1))
    ensures var s, t := Run(STARTED, Into(run, v, i)), Run(STARTED, Into(run, v, i + 1));
            var awake := Awake(s.output);
            var atomic := v.tb.insns[i].cmpxchg && awake && toggles % 2 == 0;
            var pause := v.tb.pause && i + 1 == |v.tb.insns| && awake;
            && Paces(t) == Paces(s) + One(awake && s.n.detailed + 1 > s.target) + One(atomic) + One(pause)
            && (atomic || pause ==> t.target == t.n.detailed + 1000)
  {
    OneMoreInsn(STARTED, run, v, i);
    AwakeMeansNotIdle(Into(run, v, i));
    CapturesAtOddParity(STARTED, run, v, i, toggles);
    InsnPaces(Run(STARTED, Into(run, v, i)), v.tb, i, v.insns[i]);
  }
}
