# Verified model of the tracing plugins

The repository is a set of QEMU plugins, and a small guest program that talks to them.  While a
guest machine runs, the plugins count its memory accesses (`host/mcount.cc`), sample them
(`host/pmem.cc`), record what every virtual CPU executes for an architecture simulator
(`host/trace/`), and take commands from inside the guest (`guest/hypersh.h`).  This project
models the stateful cores of these plugins and proves what they guarantee.

* **Trace recorder** (`Trace`, `TraceRecorder`, `TraceCacheOnly`, `TraceSteps`, `TracePacing`,
  `TraceDetailed`, `TraceDetailedData`, `TraceDetailedOrder`, `TraceReference`, `TraceRegion`,
  `TraceCounts`, `TraceInstructions`, `TraceFrames`, `HotBlocks`).  Guest translation blocks are
  instrumented as `vcpu_tb_trans_cb` does it; a visit runs the callbacks of a block and may leave
  it after any instruction; visits in any mixture of modes, idling, resuming, interrupts, resets
  and commands make a run.  `ThreadData` is the vcpu's record, updated in place by one method per
  callback and proved equal to the functions of `Trace`.  `TraceReference` tells the same without
  callbacks and registers, by instruction and access, and the recorder refines it: in every run it
  writes exactly the reference's events, all of them and in order.  The theorems say what the
  cache-only and the detailed streams contain after any run, and exactly when that is what the guest
  really did; what the instruction counters hold, and that they balance; which synchronisations an
  instruction brings and how far apart they are; and how idling and capturing proceed.
* **Access histogram** (`Mcount`, `McountProofs`, `McountRows`, `McountLedger`, `McountLosses`,
  `McountReport`, `McountSolo`, `McountWrap`, `McountPlugin`, `McountClosing`).  The callbacks of
  all vcpus and the controller that stops the plugin interleave at every shared access; the
  increment of a bin is a read and a write.  The theorems hold in every state of every run: nobody is stuck, no increment is lost, the
  backlog is bounded, a bin is exact if and only if it never wrapped, `acc_cnt` balances, the
  report is written only while it is open, and what a closed report misses is known.  `Plugin` is
  the same code as an object whose callbacks do not overlap; a callback and a stop of it are runs
  of the interleaved protocol.
* **Basic-block vectors** (`Lcg`, `BbvCount`).  The projection is the weighted sum modulo 2^64, with
  the weights in closed form; they have period 2^16 in the address; the generator has full period
  2^48.
* **Lifecycle** (`Lifecycle`).  Starting, stopping and the deferred reset, what becomes of
  every writer, and which commands find one.
* **Commands** (`Commands`, `CommandRoundTrip`, `CommandLines`, `CommandService`).  Printing in the
  guest, the 50-byte buffer, splitting, `strtol` with base 0, decoding, and the vcpu's writer:
  exactly which commands arrive.
* **Sampling** (`Pmem`).  How many samples any number of accesses brings, across the wrap of the
  32-bit counter.

`Arithmetic` and `Counting` hold the laws of division and machine words, and of counting, summing
and filtering over sequences, that the others use.

Where a property one would expect is false of the code, the project says exactly when it holds:

* Every branch is reported once, with the block the guest ran next, in the cache-only and in the
  detailed mode, if and only if no visit in that mode comes straight after a fast-forwarded block
  while a branch from before the fast-forwarding is pending, nor straight after an instrumented
  block left by a branch at address zero (`TraceCacheOnly.BranchAcrossAGap`,
  `TraceDetailedData.DetailedBranchAcrossAGap`).  In the detailed mode this is meant at every moment
  of the run, because at its end the two errors can cancel (`TraceDetailedData.TwoErrorsCancel`).  A
  run without fast-forwarded blocks never meets the first condition (`TraceCacheOnly.NothingToLeap`),
  and three blocks are enough to meet it (`TraceCacheOnly.FirstBlockAfterAGap`).
* The recorder's assertion on the fall-through address fails exactly when a branch whose next pc
  is zero is followed by an instrumented block (`TraceCacheOnly.CacheOnlyIsFaithful`).
* `trace reset` clears the instruction counters but not the flow-control target.  Until another
  reset, or a pause or a cmpxchg that restarts the pace, the next synchronisation comes exactly when
  more instructions are counted than that target (`TracePacing.ResetStallsThePace`), and the spacing
  of `FlowControl + 1` survives the reset, for every run that may follow, if and only if the
  instructions since the last synchronisation and the target carried over come to no more than
  `FlowControl` (`TracePacing.SpacingSurvivesReset`).
* Stopping the histogram plugin does not flush.  Under any interleaving and in any set-up a closed
  report holds every access if and only if no store since the start wrapped a bin and no access was
  recorded after the last flush (`McountClosing.ClosedReportIsComplete`); when callbacks do not
  overlap, if and only if every access since the last multiple of `acc_bin`, that one included, went
  to a device (`McountClosing.CountAndStop`); `McountLedger.StoppingLosesTheBins` is a run that
  loses one.
* Bin indices stay inside the tables if and only if `mem_bin` divides `total_mem`
  (`McountProofs.EveryAddressHasABin`).
* A bin and its lines in the report account for every access completed there if and only if no
  store wrapped the bin since the start, and each wrap loses 2^32 (`McountLosses.HistogramIsExact`).
  None ever does, in any run of a set-up, if and only if `ncores * (acc_bin - 1) + 1` is below 2^32;
  otherwise there is a run that wraps one (`McountWrap.ExactIffNarrow`).
* A recording that nobody stops goes on if and only if no deferred reset was left to run when it
  started, or none did run (`Lifecycle.Recorder.StartAndRun`);
  `Lifecycle.SecondStopEndsTheNextRecording` is a run in which one ends.
* A gmm command finds a writer if and only if a recording is under way, that is, one was started
  and no reset ran since (`Lifecycle.RecordingMeans`, `Lifecycle.Recorder.Run`); without one the
  plugin goes through a null pointer.
* A guest command arrives intact if and only if a recording is under way, its numbers are below
  2^63 and its text fits in 49 characters, and, for a message, the mode is the detailed one
  (`CommandService`); a negative segment policy is taken for an option and never arrives.

## Model

| member | source | states |
|---|---|---|
| TraceCacheOnly.CacheOnlyIsFaithful | host/trace/callbacks.cc:91-175 | for every run in any mixture of modes, each block left after any instruction, the `CacheOnly` events are exactly the reports of a history read off the guest's run, in which a branch leads from the last visit instrumented for branches to the next such visit (instructions begun since the event before, kind, accessing or branching pc, data or target address); the rest is pending, and the recorder's assertions held iff no instrumented block was entered over a branch with a zero fall-through |
| TraceCacheOnly.PreviousIsNearest | host/trace/callbacks.cc:468-521 | the branch a block reports was left by the nearest earlier visit that was instrumented for branches |
| TraceCacheOnly.BranchAcrossAGap | host/trace/callbacks.cc:143-175 | for every run the cache-only stream is what the guest really did, every branch, at whatever address, leading to the block that ran next, iff no cache-only visit comes straight after a fast-forwarded block while a branch from before it is pending, nor straight after an instrumented block left by a branch at address zero |
| TraceCacheOnly.NothingToLeap | host/trace/callbacks.cc:462-467 | a run without fast-forwarded blocks never meets that condition |
| TraceCacheOnly.FirstBlockAfterAGap | host/trace/callbacks.cc:462-467 | three visits that do: the branch is reported with the first block after the gap |
| TraceCacheOnly.BranchIsRemembered | host/trace/callbacks.cc:132-151 | after any run, whatever is pending, the branch registers hold the branch of the last visit instrumented for branches, and no other |
| TraceFrames.ExecIsFramed | host/trace/callbacks.cc:30-379 | every callback only appends events, only of its own kinds, and leaves the block counts, the branch registers, `idle`, `capturing`, the flow-control target and the counters alone but for those that are its own |
| TraceCacheOnly.TrackAccess | host/trace/callbacks.cc:98-130 | one memory operation extends the stream by exactly the report of that access, whether or not instructions were pending or a drain is due |
| TraceCacheOnly.TrackBranch | host/trace/callbacks.cc:143-175 | one completed branch extends the stream by exactly its report, clears the branch, and keeps soundness iff the fall-through is not zero |
| TraceCacheOnly.TrackEntry | host/trace/callbacks.cc:492-520 | the entry callbacks, in their registered order, report the branch the previous block left before they set the new fall-through |
| TraceCacheOnly.TrackInsns | host/trace/callbacks.cc:469-490 | the instruction callbacks of any prefix of a block yield one beginning per instruction and one access per memory operation, in order |
| TraceCacheOnly.DetailedInsns | host/trace/callbacks.cc:523-561 | any prefix of a block in the detailed mode leaves the cache-only stream and the pending count alone and touches the branch registers only at the last instruction |
| TraceRecorder.TbTrans | host/trace/callbacks.cc:449-625 | the registration loops attach exactly the callback lists of `Instrument`, in order; by `TraceReference.RunTells` these write what the reference says |
| TraceRecorder.RunVisit | host/trace/callbacks.cc:449-625 | translating a block and running any prefix of it has the effect the proofs about runs use |
| TraceReference.RunTells | host/trace/callbacks.cc:14-625 | the recorder refines a reference without callbacks: for every run in any mixture of modes the whole stream, every kind of event with all its fields and in order, is what the reference tells by instruction and access, and the counters, the flow-control target, `idle`, `capturing` and the outcome of the assertions are the reference's |
| TraceReference.FromResetTells | host/trace/control.cc:47-78 | so from `thread_data_reset` on: idle, not capturing, no counts and no target |
| TraceReference.DetailedEntryTells | host/trace/callbacks.cc:563-619 | entering a detailed block settles idling, reports the branch, and translates and sends the line of each of its pages if it is in the region of interest |
| TraceReference.DetailedInsnTells | host/trace/callbacks.cc:193-320 | one detailed instruction: the end of the one before, the count and the pace, the fetch, the beginning, a cmpxchg or pause, and its memory operations, in this order |
| TraceReference.CacheAccessTells | host/trace/callbacks.cc:98-130 | one cache-only access translates the address, translates the instruction if any are pending, reports, settles, and drains when due |
| TraceRegion.RegionIsInside | host/trace/callbacks.cc:14-19 | the recorder's test is the region the specifications mean: everything if no page directory is set, otherwise user mode under it |
| TraceCounts.CountersAreExact | host/trace/callbacks.cc:30-235 | after any run, since the last reset: `icount` is the sum of the lengths of the blocks visited in the fast mode, `icount_cacheonly` plus pending the instructions begun in cache-only visits, `icount_detailed` those begun awake in detailed visits, `icount_user` and `icount_other` their split by page directory, `loads` and `stores` the accesses in user mode under `roi_cr3` |
| TraceCounts.BlockEntriesAreCounted | host/trace/callbacks.cc:46-50 | after any run `block_cnt` of a block is the number of its visits, in whatever mode, entered under `roi_cr3` |
| TraceInstructions.InsnBeginsInRegion | host/trace/callbacks.cc:219-231 | after any run, the next instruction of a detailed visit begins in the stream iff `roi_cr3` is zero or it runs in user mode under it, and an even number of stores to `magic` lie behind |
| TraceInstructions.EntrySettlesIdle | host/trace/callbacks.cc:322-356 | entering a block after a branch leaves the vcpu idle iff `roi_cr3` is set and the block runs in the kernel or under another page directory |
| TraceInstructions.InsnSyncs | host/trace/callbacks.cc:62-83 | after any run, the next instruction of a detailed visit brings one paced `Sync` if it is over the target awake, one if it is a cmpxchg awake at even parity, one if it ends a pause block awake, and no others; the latter two set the target to `icount_detailed + 1000` |
| TraceRecorder.ThreadData.constructor | host/trace/control.cc:47-78 | the record after `thread_data_reset`: no counts, idle, not capturing |
| TraceRecorder.ThreadData.Fire | host/trace/callbacks.cc:30-379 | every callback does to the record in place what its function does to the value |
| TraceRecorder.ThreadData.Receive | host/trace/callbacks.cc:393-436 | interrupts, exec system calls, idling, resuming, resets and commands, as the run sees them |
| TraceSteps.RunIsAPlay | host/trace/callbacks.cc:449-625 | every run of blocks is a sequence of single callbacks, so what holds after all sequences holds after all runs |
| TraceSteps.InstructionLedger | host/trace/callbacks.cc:30-55 | since the start: `icount` is what the fast mode counted, `icount_cacheonly` plus pending is what the cache-only mode counted, the `CacheOnly` events sum to the first, and reported plus still to report is `icount + icount_cacheonly`; which instructions these are is `TraceCounts.CountersAreExact` |
| TraceSteps.LedgerSinceReset | host/trace/control.cc:304-317 | the same ledger counted from the last reset, after any sequence of callbacks |
| TraceSteps.DrainBounds | host/trace/callbacks.cc:35-42 | between resets the unreported count stays at most `FlowControlFF`, and `d` reports amount to between `d (FlowControlFF + 1)` and `d (FlowControlFF + most)` instructions |
| TracePacing.FlowControlBound | host/trace/callbacks.cc:193-217 | in every reachable state, resets included, `icount_detailed <= flowcontrol_target <= FlowControl * Syncs` |
| TracePacing.PacesAreClose | host/trace/callbacks.cc:210-215 | with no reset at most `FlowControl` instructions are counted after a `Sync` before the one that brings the next |
| TracePacing.ResetStallsThePace | host/trace/control.cc:304-317 | whatever runs after a reset, short of another reset, a pause or a cmpxchg, brings no `Sync` iff no more instructions are counted along it than the target from before the reset |
| TracePacing.SpacingSurvivesReset | host/trace/control.cc:295-318 | every run after a reset keeps at most `FlowControl` counted instructions between one `Sync` and the one that brings the next iff those since the last `Sync` and the target carried over come to no more |
| TracePacing.IdleResumeProtocol | host/trace/callbacks.cc:337-348 | in every run idle and resume events alternate starting with a resume, `idle` holds iff the last is not a resume, and every detailed `Sync` falls while awake |
| TracePacing.CaptureParity | host/trace/callbacks.cc:270-302 | a vcpu captures iff it made an odd number of in-region stores to `magic` in the detailed mode |
| TracePacing.CmpxchgSyncsAtEvenParity | host/trace/callbacks.cc:71-83 | after any run a `cmpxchg` brings a `Sync` iff the vcpu is awake and at even parity, and then the next is due 1000 instructions on; otherwise it changes nothing |
| TracePacing.PauseSyncsWhileAwake | host/trace/callbacks.cc:62-69 | after any run a `pause` brings a `Sync` iff the vcpu is awake, and then the next is due 1000 instructions on; otherwise it changes nothing |
| TraceDetailed.DetailedStreamIsExact | host/trace/callbacks.cc:193-239 | for every run the `InstructionBegin` events are exactly those of the instructions started in the region of interest at even parity, with their address and length, in order, and no beginning follows another without an end between them |
| TraceDetailed.IdleEndsAnInstruction | host/trace/callbacks.cc:322-356 | in the detailed mode every `VCPUIdle` comes right after an `InstructionEnd` |
| TraceDetailedData.DetailedDataIsExact | host/trace/callbacks.cc:241-356 | for every run in any mixture of modes the `InstructionMem` and `InstructionBranch` events are exactly, in order, every memory operation of a detailed visit, and on entry to one the branch left by the nearest instrumented visit before it, taken iff it did not fall through |
| TraceDetailedData.DetailedBranchAcrossAGap | host/trace/callbacks.cc:563-619 | they are what the guest really did at every moment of the run iff no detailed visit comes straight after a fast-forwarded block while a branch from before it is pending, nor straight after an instrumented block left by a branch at address zero |
| TraceDetailedData.TwoErrorsCancel | host/trace/callbacks.cc:322-356 | five visits that meet both conditions and yet end with the same events: one branch is missed and another reported twice |
| TraceDetailedData.EntrySends | host/trace/callbacks.cc:563-619 | the entry callbacks, in their registered order, report the branch the previous block left, once |
| TraceDetailedData.InsnsSend | host/trace/callbacks.cc:539-542 | any prefix of a block sends each memory operation of its instructions once, in order |
| TraceDetailedOrder.DetailedOrderIsExact | host/trace/callbacks.cc:193-356 | for every run in any mixture of modes, the ordered sequence of `InstructionBegin`, `InstructionEnd`, `InstructionAbort`, `InstructionMem`, `InstructionBranch`, `VCPUIdle` and `VCPUResume` events is exactly the one read off the run: per instruction the end of the one before, its beginning if reported, its memory operations with their aborts; per entry after a branch the change of region and the branch; and what comes from outside |
| TraceDetailedOrder.StreamIsGrammatical | host/trace/callbacks.cc:193-302 | in any run every beginning comes right after an end, an abort right before its memory operation, and a memory operation only within the bracket of its own instruction |
| TraceDetailedOrder.InsnsTell | host/trace/callbacks.cc:523-561 | any prefix of a block in the detailed mode tells its instructions one after the other, each with its memory operations, and turns capturing on and off as they say |
| TracePacing.MixIsExact | host/trace/callbacks.cc:202-208 | since a reset the four printed numbers are exactly the instructions begun awake under the page directory of interest and elsewhere, and that program's loads and stores in user mode |
| HotBlocks.BlockCountsAreExact | host/trace/callbacks.cc:46-50 | over any run each block's value is the number of times that block was entered under `roi_cr3` |
| HotBlocks.BlockCountsAddUp | host/trace/callbacks.cc:46-50 | over any run the values of `block_cnt` sum to the blocks entered under `roi_cr3`, and none is zero |
| HotBlocks.RankingIsDetermined | host/trace/control.cc:155-173 | two printouts that are rankings of the same row print the same counts in the same order |
| HotBlocks.SortByCount | host/trace/control.cc:155-162 | the multimap holds every entry of the row once, by descending count |
| HotBlocks.PrintHotBlocks | host/trace/control.cc:164-173 | the printout is the min(10, n) largest entries, distinct, in descending order |
| HotBlocks.Insert | host/trace/control.cc:158-162 | inserting keeps the descending order and adds exactly the entry |
| McountProofs.BinIndexIsSafe | host/mcount.cc:62-70 | `paddr / mem_bin` stays inside the tables for all addresses iff `mem_bin` divides `total_mem` |
| McountProofs.EveryAddressHasABin | host/mcount.cc:122-130 | every non-device access fits its table iff `mem_bin` divides `total_mem` |
| McountReport.LocateIsTheBin | host/mcount.cc:122-130 | bin `b` stands for the addresses from `b * mem_bin` up to `(b + 1) * mem_bin` |
| McountReport.RowsCoverMemory | host/mcount.cc:62-70 | a row has as many bins as fit into memory |
| McountReport.FlushListsNonZeroBins | host/mcount.cc:110-170 | one flush adds to the report exactly the bins that are not zero, with their counts, kernel before user, by core and by bin, and leaves every bin zero |
| McountReport.EntriesAreReal | host/mcount.cc:157-170 | in every run every entry ever printed is of a bin of the set-up and a positive 32-bit count |
| McountProofs.FlusherIsAlone | host/mcount.cc:110-130 | while a vcpu flushes, no other flushes and none writes a bin |
| McountProofs.StepIsSafe | host/mcount.cc:97-131 | every step of every vcpu and of the controller keeps the lock discipline, the open report, the values read and the zeros already written |
| McountProofs.FinishedFlushIsEmpty | host/mcount.cc:157-170 | when a flush is over every bin of every core is zero |
| McountProofs.NeverStuck | host/mcount.cc:97-131 | from every safe state in which a callback or the stop is under way, some step of one of them is enabled |
| McountProofs.WaitsOnlyForHolders | host/mcount.cc:79-131 | in every safe state a callback or the stop can step iff it wants no lock, or no one holds the lock in a way that excludes it: recorders exclude flushers only, a flusher everybody |
| McountRows.StepKeepsRows | host/mcount.cc:97-131 | every step keeps each core's row, with the access it is about to record, within what the multiples of `acc_bin` held back by waiting vcpus leave room for |
| McountLedger.EveryStateIsAccounted | host/mcount.cc:97-131 | in every state of every run the exact counts, the backlog bound and the ledger of `acc_cnt` hold together |
| McountLedger.StepBalances | host/mcount.cc:97-131 | every step keeps the exact counts, the backlog bound and the ledger |
| McountLosses.HistogramIsExact | host/mcount.cc:97-131 | in every state of every run, for every core, privilege and bin, the memory accesses made by that core, with that privilege, in that bin and completed are those printed, those in the bin, and 2^32 for every store that wrapped the bin since the start: so the bin is exact iff none wrapped it, which never happens when the peak of a row fits 32 bits |
| McountLosses.StepLoses | host/mcount.cc:97-131 | a step loses 2^32 accesses of a bin if it stores a full bin there, and none otherwise |
| McountLosses.WrapsAreLosses | host/mcount.cc:122-130 | what is missing from a bin and its lines in the report is 2^32 times the number of its wraps since the start |
| McountLedger.RowsStayBelowThePeak | host/mcount.cc:110-131 | under every interleaving one core's bins never hold more than `ncores * (acc_bin - 1) + 1` |
| McountWrap.ExactIffNarrow | host/mcount.cc:97-131 | every bin is exact in every state of every run of a set-up iff `ncores * (acc_bin - 1) + 1` is below 2^32; otherwise a run wraps one |
| McountWrap.ReachFilled | host/mcount.cc:110-131 | up to that peak, and to 2^32, some interleaving lets one core record any number of accesses in one bin that nobody flushes |
| McountLedger.NoLostUpdate | host/mcount.cc:122-130 | a vcpu about to write a bin still sees the value it read, whatever ran in between, and nobody flushes |
| McountLedger.BacklogIsBounded | host/mcount.cc:110-131 | while the mode is on the bins hold less than `(ncores + 1) * acc_bin + ncores` |
| McountLedger.AccCntLedger | host/mcount.cc:110-131 | `acc_cnt` is the recorded, device, in-flight and dropped accesses, dropped only once the mode is off; those recorded are in the report or in the bins, exactly when the peak of a row fits 32 bits and modulo 2^32 always, a bin printed and not yet cleared counting once |
| McountLedger.ReportLifetime | host/mcount.cc:79-131 | the report is written only by a flusher and only while open; it is closed with the mode off and no flusher anywhere, with one summary of the two counters; and it stays closed |
| McountClosing.ClosedReportIsComplete | host/mcount.cc:79-95 | under every interleaving and in every set-up a closed report holds every completed access, bin by bin, iff no store since the start wrapped a bin and none was recorded after the last flush was over |
| McountClosing.NarrowReportIsComplete | host/mcount.cc:79-95 | in set-ups where the peak of a row fits 32 bits: iff none was recorded after the last flush, and those are all that is missing |
| McountClosing.BinsHoldWhatCameSince | host/mcount.cc:157-170 | in every set-up, whenever no flush is under way the bins hold as many accesses as were recorded since the last one, less 2^32 for every store since that wrapped |
| McountClosing.CountAndStop | host/mcount.cc:44-131 | when callbacks do not overlap, the stopped plugin has printed for each bin the memory calls of that core, privilege and bin, less those since the last multiple of `acc_bin`, that one included; so it printed all of them iff every call since then went to a device; its summary is the number of calls and of device calls, modulo 2^64 |
| McountLedger.StoppingLosesTheBins | host/mcount.cc:79-95 | a concrete run that ends with a closed report without a completed access |
| McountSolo.SoloKeepsBound | host/mcount.cc:97-131 | callbacks that run one at a time never leave more than `acc_bin` in the bins, and every recorded access adds exactly one |
| McountSolo.LoneIsARun | host/mcount.cc:97-131 | the uninterrupted callback is a run of the interleaved protocol, wherever the other vcpus wait |
| McountSolo.FiniIsARun | host/mcount.cc:79-95 | so is an uninterrupted stop |
| McountSolo.FlushReaches | host/mcount.cc:157-170 | an uninterrupted flusher visits every bin of both tables in order |
| McountPlugin.Plugin.constructor | host/mcount.cc:44-77 | a start opens the report and zeroes bins and counters |
| McountPlugin.Plugin.Flush | host/mcount.cc:157-170 | prints every non-zero bin in order and zeroes every bin |
| McountPlugin.Plugin.FlushRow | host/mcount.cc:161-167 | prints and zeroes one row and leaves the others |
| McountPlugin.Plugin.Count | host/mcount.cc:110-120 | counts the access and flushes both maps on every multiple of `acc_bin` |
| McountPlugin.Plugin.Record | host/mcount.cc:122-130 | one more device access, or one more in exactly one bin |
| McountPlugin.Plugin.Callback | host/mcount.cc:97-131 | the whole callback is the one-go step, and at most `acc_bin` accesses stay in the bins |
| McountPlugin.Plugin.Fini | host/mcount.cc:79-95 | mode off, summary once, report closed, bins left as they are |
| Lcg.NextIsModulo48 | host/trace/bbv_count.cc:11-15 | the 64-bit wrap never shows through the 48-bit mask |
| Lcg.NextIsInjective | host/trace/bbv_count.cc:11-15 | different 48-bit states are followed by different states |
| Lcg.NextIsOnto | host/trace/bbv_count.cc:11-15 | every 48-bit state follows one: with the row before, the step permutes them |
| Lcg.GeometricValuation | host/trace/bbv_count.cc:6-13 | the sum of the first n powers of the multiplier has exactly as many factors of two as n |
| Lcg.FullPeriod | host/trace/bbv_count.cc:6-13 | n steps return to the state they started from iff 2^48 divides n |
| Lcg.DrawsAreDistinct | host/trace/bbv_count.cc:6-13 | no state repeats within 2^48 draws |
| Lcg.WeightHasPeriod16 | host/trace/bbv_count.cc:11-19 | every weight depends on the seeding address modulo 2^16 only |
| Lcg.WeightClosedForm | host/trace/bbv_count.cc:11-19 | the weight of any draw from any seed, without the generator: bits 16 to 31 of `x + (A - 1) x G + C G`, `x` the low 16 bits of the seed shifted left by 16 plus 0x330E, `G` the sum of the first powers of the multiplier |
| Lcg.WeightIs | host/trace/bbv_count.cc:38-48 | a weight is bits 16 to 31 of the state |
| BbvCount.Bbv.Lane | host/trace/bbv_count.cc:40-48 | one draw of one lane adds exactly the next dimension's weighted count |
| BbvCount.Bbv.Project | host/trace/bbv_count.cc:38-49 | the four interleaved lanes reach all 16 dimensions, each from its own weight |
| BbvCount.Bbv.Count | host/trace/bbv_count.cc:28-50 | after any calls every dimension is the sum of the counts, each weighted by the closed-form matrix entry of its address, modulo 2^64, and the instruction count the sum of the counts |
| BbvCount.Bbv.Clear | host/trace/bbv_count.cc:52-58 | the vector of no calls |
| BbvCount.WeightIsEntry | host/trace/bbv_count.cc:38-48 | dimension `4k + j` of an address weighs what `k + 1` steps make of the low 16 bits of `address + j`, in closed form |
| BbvCount.ReachedAt | host/trace/bbv_count.cc:39-49 | each dimension receives exactly its own term once |
| BbvCount.ProjectedPush | host/trace/bbv_count.cc:28-50 | a call keeps every dimension equal to the wrapped weighted sum |
| BbvCount.WeightsHavePeriod | host/trace/bbv_count.cc:38-48 | all 16 weights of an address depend on it modulo 2^16 only |
| BbvCount.LanesOverlap | host/trace/bbv_count.cc:38-48 | neighbouring addresses share weights, lane by lane |
| BbvCount.SameTotalsSameVector | host/trace/bbv_count.cc:28-50 | histories with the same totals per low 16 address bits give the same vector |
| BbvCount.OrderDoesNotMatter | host/trace/bbv_count.cc:28-50 | permuted calls give the same sums |
| BbvCount.CallsMerge | host/trace/bbv_count.cc:28-50 | two calls whose addresses agree modulo 2^16 may be merged, wrap of the count included |
| Lifecycle.Recorder.constructor | host/trace/control.cc:45 | nothing is recorded before the first start |
| Lifecycle.Recorder.Start | host/trace/control.cc:80-126 | one new writer per vcpu and two files each, or nothing when already recording |
| Lifecycle.RecordingListsEveryFile | host/trace/control.cc:101-112 | while recording the fifo and the response of every vcpu are listed, each once, and nothing else |
| Lifecycle.Recorder.Stop | host/trace/control.cc:128-143 | while recording, writes an end to the caller's stream and defers one reset |
| Lifecycle.Recorder.DeferredReset | host/trace/control.cc:143-183 | afterwards every writer ever opened was aborted and deleted exactly once |
| Lifecycle.Recorder.CloseFile | host/trace/control.cc:394-404 | closing twice closes once |
| Lifecycle.Recorder.OpenFile | host/trace/control.cc:406-430 | a new writer, the old one closed first |
| Lifecycle.Recorder.ResetRecords | host/trace/control.cc:47-78 | forgetting the writers loses none, because there is none |
| Lifecycle.Recorder.Run | host/trace/control.cc:80-212 | any sequence of starts, stops, deferred resets and gmm commands keeps `2 * smp_vcpus` files while recording and none otherwise, and every writer closed exactly once unless in use; it is carried out to its end iff each gmm command comes while there is a recording, and otherwise ends at the first that finds no writer |
| Lifecycle.Recorder.Output | host/trace/control.cc:186-201 | the slot of a vcpu holds a writer iff there is a recording, and that writer is not closed |
| Lifecycle.Recorder.Carry | host/trace/control.cc:80-212 | each command moves the recorder as the specification says, and only a gmm command without a recording fails |
| Lifecycle.RecordingMeans | host/trace/control.cc:80-184 | after any commands there is a recording iff one was there or was started and no deferred reset ran since, whoever asked for it |
| Lifecycle.AccountsAfterClose | host/trace/control.cc:394-404 | closing a live writer keeps the accounts of all writers |
| Lifecycle.AccountsAfterOpen | host/trace/control.cc:406-430 | opening a writer keeps the accounts of all writers |
| Lifecycle.Recorder.StartAndRun | host/trace/control.cc:80-183 | a recording that nobody stops is still the same one after any starts and deferred resets iff no reset was left to run when it started, or none did run |
| Lifecycle.SecondStopEndsTheNextRecording | host/trace/control.cc:128-183 | two stops, a reset and a start: the second deferred reset ends the new recording |
| Commands.SegCreate | guest/hypersh.h:64-69 | the command text, cut to 49 characters |
| Commands.SegAssign | guest/hypersh.h:71-76 | the command text, cut to 49 characters |
| Commands.SegDelete | guest/hypersh.h:78-83 | the command text, cut to 49 characters |
| Commands.UserMsg | guest/hypersh.h:85-90 | the command text, cut to 49 characters |
| Commands.SetMagic | guest/hypersh.h:48-52 | the command text, cut to 49 characters |
| Commands.Snprintf | guest/hypersh.h:66-67 | the buffer holds as much of the text as fits before the terminating NUL |
| CommandRoundTrip.ParseDigits | guest/hypersh.h:67 | parsing the printed digits of any number gives it back |
| CommandRoundTrip.LeadingDigit | guest/hypersh.h:74 | printed positive numbers have no leading zero, so base 0 never takes them for octal |
| CommandRoundTrip.PointerParses | host/trace/control.cc:355-357 | `strtol` recovers a printed pointer, clamped to a `long` |
| CommandRoundTrip.CutDigits | guest/hypersh.h:67 | cutting hexadecimal digits off the end always makes a smaller number |
| CommandRoundTrip.CreateRoundTrip | host/trace/control.cc:351-357 | `seg_create` arrives intact iff both numbers are below 2^63 and the text fits in 49 characters, as it does for sizes below 2^44; cut or not, it arrives as a create command |
| CommandRoundTrip.AssignRoundTrip | host/trace/control.cc:332-357 | `seg_assign` arrives intact iff the address is below 2^63 and the policy not negative; a negative policy never arrives |
| CommandRoundTrip.DeleteRoundTrip | host/trace/control.cc:351-357 | `seg_delete` arrives intact iff the address is below 2^63 |
| CommandRoundTrip.MessageRoundTrip | host/trace/control.cc:196-201 | `user_msg` arrives intact iff the mode is detailed, both payloads are below 2^63 and the text fits |
| CommandRoundTrip.SyncArrives | host/trace/control.cc:202-207 | a gmm sync arrives in the detailed mode only, whatever its two arguments are |
| CommandRoundTrip.SyncRoundTrip | guest/hypersh.h:92-96 | the text `gmm_sync` sends arrives so |
| CommandRoundTrip.MagicRoundTrip | host/trace/control.cc:359-362 | `set_magic` sets the address iff it is below 2^63 |
| CommandLines.WordsAreTheLine | host/trace/control.cc:320-335 | any line is split into plain words that are together the line without blanks, one for each place where a word starts |
| CommandLines.OperandsAreTheOthers | host/trace/control.cc:328-337 | the operands are the words that do not look like options, in their order |
| CommandLines.ParseStops | host/trace/control.cc:355-357 | a number ends at the first character that is not a digit of its base |
| CommandLines.OctalParses | host/trace/control.cc:355-357 | a leading zero means octal |
| CommandLines.EitherCaseParses | host/trace/control.cc:355-357 | a zero and an x of either case mean hexadecimal |
| CommandLines.SignedParses | host/trace/control.cc:355-357 | a sign in front of a decimal counts, saturating as a `long` |
| CommandLines.ClampSaturates | host/trace/control.cc:355-357 | `strtol` saturates at both ends of a `long` |
| CommandLines.UnsignedOfLong | host/trace/control.cc:186-187 | a `long` given as a `uint64_t` keeps its value or is 2^64 more |
| CommandLines.WrittenIff | host/trace/control.cc:186-366 | any line whatever brings an event to the stream iff it is a gmm command of the trace plugin with four operands and one of the five names, and for a message or a synchronisation the mode is the detailed one |
| CommandService.RecorderGmm | host/trace/control.cc:186-212 | writes what the command's name, arguments and the mode call for if there is a recording, goes through a null pointer if there is none, and does nothing for an unknown name or a message outside the detailed mode |
| CommandService.PluginControl | host/trace/control.cc:320-366 | decodes a command line and carries out its gmm command on the vcpu's writer, if there is one |
| CommandService.Send | host/trace/control.cc:186-207 | an event is written to the vcpu's own writer iff there is a recording |
| CommandService.CreateSegment | guest/hypersh.h:64-69 | from the guest's call to the stream: exactly the command is written iff there is a recording and it survives the round trip; without a recording the writer is null |
| CommandService.AssignSegment | guest/hypersh.h:71-76 | likewise; a negative policy leaves the record unchanged |
| CommandService.DeleteSegment | guest/hypersh.h:78-83 | likewise |
| CommandService.SendMessage | guest/hypersh.h:85-90 | likewise; outside the detailed mode the record is unchanged, recording or not |
| CommandService.SyncMemory | guest/hypersh.h:92-96 | `gmm_sync` writes its one message in the detailed mode while there is a recording; without one the writer is null, and in the other modes nothing happens |
| Pmem.Sampler.constructor | host/pmem.cc:23-32 | sampling starts with the counter at zero |
| Pmem.Sampler.Access | host/pmem.cc:45-78 | an access is sampled iff the wrapped number of accesses before it is a multiple of the interval |
| Pmem.Sampler.Stop | host/pmem.cc:34-43 | no more samples, the counts unchanged |
| Pmem.SamplesInFirst | host/pmem.cc:57-77 | closed form for any number of accesses, wraps included; `ceil(n / interval)` up to 2^32 |
| Pmem.WindowBounds | host/pmem.cc:57-77 | any `interval` consecutive accesses hold one or two samples, and exactly one when the counter does not wrap among them |
| Pmem.FullRounds | host/pmem.cc:57-77 | every full round of the counter brings `ceil(2^32 / interval)` samples |

## Left out

- `Sift::Writer`, the named pipes, `fopen`, `fprintf`, `mkdtemp`, `unlink` and the simulator at the other end: a writer is its sequence of events, a report its sequence of entries, and opening always succeeds.
- The emulator itself: it is assumed that the entry callbacks of a block run first and in registration order, then per instruction its execution callbacks and its memory callbacks once per memory operation; that a vcpu's callbacks run on one thread; and that the deferred parts of stop and reset run alone.  Which blocks still run after a mode switch is not claimed; every mixture is covered.
- The page directory, the privilege, `roi_cr3`, `magic` and `current_mode` are inputs to every callback, constant during the callbacks of one event (a block entry, an instruction, a memory operation).
- TraceCacheOnly.CacheOnlyIsFaithful: starts from a record with no pending branch and no pending instructions, as `thread_data_reset` leaves it; the target a block reports is translated with the last instruction's address, as in the source.
- TraceDetailed.IdleEndsAnInstruction: is about callbacks while the current mode is the detailed one; in the other modes `vcpu_idle_cb` writes no `InstructionEnd`.
- TraceSteps.InstructionLedger: counters are unbounded; the wrap of the recorder's 64-bit counters is not modelled.  A `Sync` carries why it was sent, which the real stream does not show.
- The contents of instruction-cache lines and physical addresses, which come from host memory, are numbers handed through.  A block has at least one instruction.
- CommandService.RecorderGmm: what the plugin does after going through a null pointer is not modelled.  `Sift::Writer` is not part of this model, so neither is what it makes of a command that a vcpu sends between its own stop and the deferred reset, behind the `End` of its stream.  The mode is an input, because `current_mode` outlives the recording it was set in.
- The fields of `thread_data_t` that nothing reads (the captured addresses, `enabled`, `blocknum`, `thread_num`); the counters and the branch registers of `ThreadData` are grouped into two records.
- `recorder_mode`, the switch between modes and its flush of translated blocks, `any_thread_in_detail`, and the commented-out memory access functions.
- Mcount: a start is taken to happen while no callback runs; `acc_bin` and `mem_bin` are positive, `mem_bin` divides `total_mem` and device addresses aside every address is below it.  The mode flag is read and written in single steps.  Tags and the command line of the plugin are not part of this model.
- BbvCount: addresses and counts are 64-bit; the class has no caller in the repository.
- Lifecycle.Recorder.Stop: every call of `qemu_plugin_reset` is taken to queue a callback of its own.  The emulator's side of that call is not part of this repository; if it ignored a request while one is queued, the second reset of `Lifecycle.SecondStopEndsTheNextRecording` would not run.
- Lifecycle.Recorder.OpenFile: the writer's failure to open is only printed by the source, and is left out, as is the count of blocks in `++blocknum`.
- Command splitting covers plain words separated by spaces; quoting and escaping of `g_shell_parse_argv` and the `-d` option of `getopt` are left out.  `%p` prints as in the GNU C library.  A `magic` command without an address is not given a meaning.  `user_msg_double` is left out: it is `user_msg` with the bits of a floating-point number.
- The attribute filter and the printed line of `host/pmem.cc` decide what one sample prints and change no state.  `host/slomo.cc`, the dispatch of `host/hypersh.cc` and the interactive loop of `guest/hypersh.c` only pass values on to the emulator, to a plugin or to the host, none of which is part of this model.
