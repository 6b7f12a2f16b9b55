/** The region of interest, as the specifications of the stream mean it: spelled with what the
    callbacks are told, and without the recorder's own test. */
module TraceRegion {
  import opened Trace

  /** Everything, if no page directory is set; otherwise what runs in user mode under it. */
  predicate Inside(env: Env) {
    env.roiCr3 != 0 ==> env.pgd == env.roiCr3 && !env.inKernel
  }

  /** A store to `magic` in the region of interest. */
  predicate TurnsCapture(env: Env, op: MemOp) {
    op.store && op.vaddr == env.magic && Inside(env)
  }

  lemma RegionIsInside(env: Env)
    ensures env.InRoi() <==> Inside(env)
  {
  }

  lemma MagicTurnsCapture(env: Env, op: MemOp)
    ensures IsMagicStore(env, op) <==> TurnsCapture(env, op)
  {
  }
}
