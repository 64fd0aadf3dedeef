# Swift-GPUSim: a verified model of the memory pipeline

Swift-GPUSim is a cycle-driven GPU simulator.  Its memory system is a chain of small state machines:
the load/store units of an SM, the L1 with its MSHR, a crossbar with two subnets, L2 slices, DRAM
channels, and the way back to the warp that waits.  This project models that chain, together with the
parts of the front end that feed it, and proves what every run keeps, for each part and for the whole GPU.

`dafny verify dfyconfig.toml` checks everything.

## The parts

- **GPU** (`GpuPackets`, `GpuMemory`, `SmTraffic`, `Gpu`, `GpuEvents`, `GpuSteps`, `GpuSmSteps`, `GpuRuns`,
  `GpuTheorems`).  All
  parts together: an event is the turn of one channel with its slices, of both subnets, or of one SM, and the loop of
  gpu_cycle is one order of such events.  From the initial spawn on, in any order, no SM ever fails, each packet that an
  SM pops is one that it waits for, and each request is in exactly one place; only an L2-to-DRAM queue can overflow.
- **SM** (`Warps`, `Sm`, `Ledger`, `SmInv`, `SmRuns`, `SmBlocks`, `SmTiming`, `SmHits`, `SmCompletion`, `SmLog`,
  `SmUnits`, `SmIssue`, `SmLoads`, `SmSchedule`, `SmCycle`, `StreamingMultiprocessors`).  `Sm` is one
  `sm_cycle` as functions over the SM's state; the packets that left its L1 and have not come back are the
  sequence `below`, from which the crossbar may return any one.  Every `exit(1)`, null pointer, out-of-range
  access and assert of the source is a `Fault`.  `SmInv` proves that no run reaches one, by an invariant that
  balances, for every block, warp and completion slot, the warp's own counters against the requests found in
  the queues.  `SmCycle` says what each phase of a cycle makes of the SM without using the functions or their loops:
  `SmHits` which sectors hit over a whole run and when hits are answered, `SmCompletion` when a load is complete,
  `SmLoads` which requests each instruction makes, and `SmSchedule` which instructions issue.  The class has the
  source's methods and loops, each equal to its function.
- **L1** (`CacheConfig`, `TagStore`, `TagHistory`, `TagFills`, `TagArrays`, `Mshr`, `L1Cache`, `L1Service`,
  `L1DataCaches`).  The tag array with its sets,
  ways, sectors and replacement is shown to be a map from line addresses to sector states, and its replacement to be LRU or
  FIFO over whole runs; the MSHR entries are shown to be exactly the loads in transit.
- **Crossbar** (`Crossbar`, `CrossbarRuns`, `XbarRouters`, `Interconnect`).  The arbitration loop equals one
  simultaneous step; over runs every flow is a FIFO and waiting is bounded.
- **L2 and DRAM** (`L2Cache`, `L2Service`, `L2DataCaches`, `Fifo`, `FifoPipelines`, `Dram`, `DramInv`, `DramChannels`,
  `MemoryPartitions`, `MemoryRuns`).  Each queue of a DRAM channel is a window of the log of accepted requests,
  so its latency is an exact constant; with the L2 slices on top, every request is answered exactly once.
- **Addresses and front end** (`Words`, `AddressDecode`, `Scoreboard`, `TraceReader`, `Dispatch`,
  `AddressCompression`).

Code that the source writes as expressions is a function here; objects that it updates are classes whose methods
carry the loops and are proved equal to specification functions.  Faults are error values; only fifo_pipeline's
own `push` demands the room that the source asserts, and the channel functions turn its absence into a fault.

## What a reader may not expect

- *The unguarded L2-to-DRAM queue.*  A slice pushes its misses without asking for room (`swift-sim/cache.h:566-568`),
  and slice 1 of a channel always goes first.  So when both slices miss in every cycle, slice 0 is never served, and after
  999999 cycles its next push runs into the assert: `DramInv.OverflowHappens`, `DramInv.SteadyMissesOverflow`.  This is the
  only assert that can fire, and `DramInv.OverflowIff` and `GpuTheorems.OnlyOverflowFails` say exactly when.
- *Tags in the L2.*  The source's store to a missing sector picks an idle way and does not set its tag
  (`swift-sim/cache.cpp:441-453`), so two ways can hold one line.  `TagStore.SectorMissStoreDuplicatesATag` shows it on a
  two-way cache.  An idle way still has tag 0, so the tags stay in order if and only if the address maps to the set of
  address 0 and line 0 is not cached (`TagStore.SectorMissStoreIff`).  What the L2 proofs use, that no sector is reserved
  between operations, holds all the same.
- *Polynomial set hash.*  The hash always makes six bits.  They stay in range if and only if there are at least 64
  sets (`CacheConfig.HashInRangeIff`), name the line together with the upper bits if and only if there are at most 64
  (`CacheConfig.HashNamesTheLineIff`), and reach every set if and only if there are exactly 64
  (`CacheConfig.HashReachesEverySetIff`).
- *EXIT or BAR with a destination* waits for itself (`Scoreboard.SelfDependencyIff`).  Its own completion time does not
  exist yet, so check_dependency reads past the end of `completions` (`swift-sim/gpu.cpp:366-368`); the check is never
  passed (`Scoreboard.SelfDependencyFaults`).
- *Atomics without a memory record* dereference a null pointer: `SmRuns.AtomicFailsIff`.
  `TraceReader.TraceMakesProgramOk` shows that traces joined as the readers do it never contain one.
- *Atomics with an empty record* queue no request, so nothing ever sets their completion time, and an instruction that
  depends on one never issues: `SmLoads.EmptyAtomicBlocks`.  Every other load, store or atomic is complete once it has
  requested something and is owed nothing (`SmLoads.AnsweredIsComplete`).
- *Stores that the L2 writes into an idle way* are found by later requests if and only if the line was not cached, or
  is line 0 and the idle way comes before the one that holds it (`TagFills.IdleStoreHitsIff`): the same forgotten tag.
- *DRAM with CL = 0* takes as long as with CL = 1, hence the `max(CL, 1)` in the latency.
- *Retirement.*  The completion time of a load can become finite before its last sector is requested.  The retire
  test is nevertheless exact (`SmRuns.RetiresIff`).

## Model

| member | source | states |
|---|---|---|
| `GpuTheorems.OnlyOverflowFails` | swift-sim/gpu.cpp:23-44 | In every state of every run of the whole GPU from the initial spawn, with the turns of SMs, subnets and channels in any order and nothing assumed of replies or pointers, every SM can have its turn and the subnets can advance; the turn of a channel fails if and only if a slice with a miss has no room in its queue, and then with that overflow |
| `GpuTheorems.EveryOrderRuns` | swift-sim/gpu.cpp:23-44 | Every sequence of events, in whatever order, with at most 999999 turns of each channel, is the sequence of events of a run: nothing fails |
| `GpuTheorems.EveryReplyIsAwaited` | swift-sim/gpu.cpp:142-145 | The packet that an SM pops is one that it sent, with the same id, address, warp and completion slot; it is never a write-through copy, and it finds its MSHR entry with live warps or its waiting warp |
| `GpuTheorems.EveryRequestIsInOnePlace` | swift-sim/gpu.cpp:23-44 | Of the requests that look alike to their SM, copies aside, those not yet answered are on the request subnet, or in the one slice of their address or its channel, or on the reply subnet: each in exactly one place, and no other slice holds any |
| `GpuTheorems.FinishedSmLeavesNothing` | swift-sim/gpu.cpp:40-42 | When sm_active is false nothing that would be answered to the SM is left on the subnets, in a slice or in a channel |
| `GpuTheorems.EarlyIsRoomy` | swift-sim/cache.h:534-535 | A channel that had fewer than 999999 turns has room for the next misses, so that nothing at all can fail |
| `GpuTheorems.BlocksAreNotShared` | swift-sim/gpu.cpp:163-168 | In a run of the whole GPU no block is ever in two SMs, at whatever times, or above the pointer, and no SM exceeds its maximum |
| `GpuTheorems.LoopIsShort` | swift-sim/gpu.cpp:23-44 | The order of gpu_cycle gives every component one turn per cycle, so these results hold of its loop for 2^31 - 2 cycles |
| `GpuTheorems.RunKeeps` | swift-sim/gpu.cpp:23-44 | Every state of a run satisfies the invariant of the whole GPU |
| `GpuRuns.StartExists` | swift-sim/gpu.cpp:569-591 | Whatever SMs the initial spawn leaves, they are the SMs of a GPU at its start |
| `GpuRuns.FreshSettles` | swift-sim/gpu.cpp:569-591 | The state after the initial spawn satisfies the invariant |
| `GpuRuns.StepKeepsInv` | swift-sim/gpu.cpp:31-39 | Each event keeps the invariant and moves only the clock of its component |
| `GpuSteps.MemoryKeeps` | swift-sim/cache.cpp:663-676 | The turn of a channel with its slices keeps the invariant of the GPU |
| `GpuSteps.RepliesBelong` | swift-sim/cache.cpp:353-376 | Every packet that a slice pushes is for the SM that sent it, from the slice of its address, and no copy |
| `GpuSmSteps.SmKeeps` | swift-sim/gpu.cpp:132-174 | The turn of an SM never fails, whatever it pops from the subnet, and keeps the invariant of the GPU |
| `GpuSmSteps.ReplyIsKnown` | swift-sim/gpu.cpp:142-145 | An SM pops a packet if and only if that is one of the packets it has below |
| `GpuSmSteps.SentIsAddressed` | swift-sim/cache.cpp:334-347 | What an SM pushes is its own, aimed at the bank and the slice of its address |
| `GpuEvents.MemoryEventIs` | swift-sim/cache.cpp:353-404 | The turn of a channel: each of its slices takes the first packet of its output, if there is one, the partition goes on with them, each slice's replies join its input on the other subnet in order, and nothing else changes |
| `GpuEvents.SmEventIs` | swift-sim/gpu.cpp:132-174 | The turn of an SM: while it is active it takes the first packet of its output, if there is one, and sends the head of its miss queue, if its input has room, to the slice of its address; otherwise the subnets stay |
| `GpuMemory.PartitionOkIff` | swift-sim/cache.cpp:617-676 | A cycle of a channel with its slices succeeds if and only if every slice with a miss has room for it |
| `GpuMemory.PartitionBalances` | swift-sim/cache.cpp:353-404 | What a slice and its channel held or received they hold or have replied, for every request as its SM sees it |
| `SmTraffic.CycleTraffic` | swift-sim/gpu.cpp:132-174 | In a cycle of an active SM exactly the popped packet leaves those it waits for and the routed head of the miss queue joins them; an inactive SM pops and sends nothing |
| `SmRuns.NoRunFails` | swift-sim/gpu.cpp:132-174 | From a fresh SM, no run of fewer than 2^31 - 1 cycles reaches an exit, a null warp, a missing block, a bad completion index, an aborted probe or a fill without an index; the ledger of outstanding requests balances at the end |
| `SmInv.RunSettles` | swift-sim/gpu.cpp:132-174 | The same from any state that satisfies the invariant, for any sequence of allowed replies, crossbar states and block counters |
| `SmInv.CycleSettles` | swift-sim/gpu.cpp:132-174 | One sm_cycle never faults and keeps the whole invariant |
| `SmCycle.CycleIs` | swift-sim/gpu.cpp:132-174 | One sm_cycle of an active SM, phase by phase: the due answers leave, the popped packet is taken, the head of the miss queue is sent, every bank has its turn, exactly the blocks without warps go, every load/store unit has its turn, the next blocks arrive as many as fit, and the scheduler visits every block; an inactive SM does nothing |
| `SmRuns.SpawnedSettles` | swift-sim/gpu.cpp:569-591 | The state after the initial spawn satisfies the invariant |
| `SmRuns.CountersMean` | swift-sim/kernel.h:179-197 | For each live warp, pending_request[ci] is the number of its requests in the bank queues, the MSHR lists, l1_to_sm and forwarded stores in flight; m_pending_mem_request_num is their sum; pending_inst is the number of units that hold the warp; completions.size() is warp_point |
| `SmRuns.RetiresIff` | swift-sim/gpu.cpp:192-199 | A warp passes the retire test if and only if all its instructions are issued, no container holds a request of it and no unit works for it |
| `SmInv.RetiringWarpIsOwedNothing` | swift-sim/gpu.cpp:192-199 | No reply is owed to a warp that retires |
| `SmRuns.RequestsAreWaitedFor` | swift-sim/gpu.cpp:268-341 | Every request queued, merged, served or forwarded has a live warp with a positive counter for it |
| `SmRuns.ReplyFindsItsWarps` | swift-sim/gpu.cpp:294-341 | A reply finds a non-empty MSHR entry whose warps are all live, or its waiting warp: block deletion never loses one |
| `SmRuns.InactiveSmIsDone` | swift-sim/gpu.h:136-150 | When sm_active is false, all queues and the MSHR are empty and below travel only copies that nobody answers |
| `SmRuns.AtomicFailsIff` | swift-sim/gpu.cpp:683-709 | An atomic instruction dereferences null if and only if no record carries its (pc, pc_index) |
| `SmInv.WriteBackHitsSettles` | swift-sim/gpu.cpp:268-292 | write_back never faults and keeps the invariant |
| `SmCycle.AnswersLeave` | swift-sim/gpu.cpp:268-292 | write_back takes exactly the due answers from l1_to_sm, in order, and one request off the counter of each one's slot |
| `SmHits.HitsLeave` | swift-sim/gpu.cpp:268-292 | Because answers are queued in order of their ready times, the front-only loop releases exactly those that are due in this cycle, max(l1_hit_latency, 1) after their access |
| `SmInv.DrainSettles` | swift-sim/gpu.cpp:298-319 | The drain loop of a load reply never faults, removes exactly the entry of the sector, fills the sector once, however many requests it releases, and leaves everything else outside the warps |
| `SmHits.ReplyFills` | swift-sim/gpu.cpp:294-341 | A popped load fills its sector and empties its entry; a popped store leaves the L1 alone |
| `SmHits.CycleHits` | swift-sim/gpu.cpp:132-174 | In a cycle the answers that leave are exactly those due, no other is lost or late, and a sector hits afterwards if and only if its load came back in this cycle, or it hit before and its line is not the one victim |
| `SmHits.RunHits` | swift-sim/cache.cpp:349-351 | Over every run a sector hits at the end if and only if some load of it came back and its line was not thrown out since, or it hit at the start and its line never was |
| `SmHits.FreshRunHits` | swift-sim/cache.cpp:349-351 | The same from a fresh SM: loads that came back are all that ever hits |
| `SmInv.ReplySettles` | swift-sim/gpu.cpp:294-341 | write_back_request_l2 never faults for any reply but a write-through copy, and keeps the invariant |
| `SmCycle.ReplyIsTaken` | swift-sim/gpu.cpp:294-341 | The popped packet leaves those below; a load takes all requests of its entry off their slots and fills the sector, a store takes its own |
| `SmCompletion.MemoryReplies` | swift-sim/gpu.cpp:268-341 | In the memory half of a cycle the counter of each slot of each live warp only falls, and the completion time becomes this cycle if and only if the counter fell to 0 in it; nothing else of a warp changes |
| `SmLoads.CycleCompletes` | swift-sim/gpu.cpp:268-341 | Over a whole cycle the completion time of an existing slot stays, unless the last request came back: then it is this cycle |
| `SmLoads.AnsweredIsComplete` | swift-sim/gpu.cpp:277-280 | In every state of a run a load, store or atomic that has requested something and is owed nothing is complete by now |
| `SmLoads.DependantIsFree` | swift-sim/gpu.cpp:362-371 | So an instruction all of whose dependencies are answered, or over their known latency, passes check_dependency |
| `SmLoads.EmptyAtomicBlocks` | swift-sim/gpu.cpp:683-709 | An instruction of unknown latency with nothing to request is an atomic with an empty record; it never completes, and no dependant of it passes check_dependency |
| `SmInv.AccessMovesTicket` | swift-sim/cache.cpp:205-314 | An L1 access that is not refused moves its request to exactly one container that owes it an answer |
| `SmInv.AccessBankSettles` | swift-sim/cache.cpp:316-332 | One bank of l1_cache_cycle never faults and keeps the invariant |
| `SmHits.EveryBankIsServed` | swift-sim/cache.cpp:316-332 | In l1_cache_cycle the front request of every bank leaves, unless it is a load that misses and finds no room in the MSHR; an MSHR that is full stays full |
| `SmCycle.BanksHaveTheirTurns` | swift-sim/cache.cpp:316-332 | Every bank has one turn, in order, in which its front request is served exactly as `L1Service.AccessServes` and `L1Service.AccessTags` say |
| `SmInv.SendMissSettles` | swift-sim/cache.cpp:334-347 | Sending the head of the miss queue, with the bank of its address, keeps the invariant |
| `SmInv.DeleteInactiveSettles` | swift-sim/gpu.cpp:374-384 | Deleting blocks without warps keeps the invariant |
| `SmInv.UnitCycleSettles` | swift-sim/gpu.cpp:595-638 | unit_cycle finds its warp alive and its bank in range and keeps the invariant; what it sends is in `SmUnits.UnitTurn` |
| `SmUnits.UnitTurn` | swift-sim/gpu.cpp:595-638 | A turn of a load/store unit sends at most one request: for the next address and sector of its record, to the bank of that sector, a read if and only if the record is a load, not atomic, for its own block, warp and slot; it does so unless the unit is idle or the bank is taken in this cycle; the last request frees the unit in that cycle |
| `SmUnits.EveryUnitHasItsTurn` | swift-sim/gpu.cpp:152-161 | In a cycle the unit of every subcore has its turn, in order, with the banks taken by those before it |
| `SmLoads.RunLogged` | swift-sim/gpu.cpp:595-638 | Over every run the requests queued in each cycle, in the order of their ids, join the bank queues, and with this log every slot of every live warp has requested the first so many of its targets in order |
| `SmLoads.InstructionRequests` | swift-sim/gpu.cpp:595-729 | In every state of a run the requests of an issued instruction are the first of its coalesced list, in order, reads for a load, writes for a store, atomic writes for an atomic; all of them once no unit holds the instruction, and as many as mem_fetch_point until then |
| `SmLoads.StartLogged` | swift-sim/gpu.cpp:569-591 | The state after the initial spawn has requested nothing |
| `SmIssue.AtomicsQueue` | swift-sim/gpu.cpp:683-709 | process_ATOM_ATOMG queues one written, atomic request for every sector of the record at once, in order, each in the bank of its sector |
| `SmInv.DispatchSettles` | swift-sim/gpu.cpp:163-168 | The dispatch loop keeps the invariant |
| `SmCycle.BlocksAreTaken` | swift-sim/gpu.cpp:163-168 | The dispatch loop takes the next blocks of the kernel, with all their warps at the first instruction, until m_max_blocks or the end of the kernel |
| `SmInv.RetireSettles` | swift-sim/gpu.cpp:192-199 | Erasing a retired warp keeps the invariant |
| `SmInv.IssueSettles` | swift-sim/gpu.cpp:242-266 | issue_inst never faults and keeps the invariant |
| `SmIssue.IssueIs` | swift-sim/gpu.cpp:242-266 | issue_inst on a free unit: the warp moves on by one instruction and gets its completion time, the unit is taken for 32 / width or 4 cycles more or until every request is out, an atomic queues its requests, and nothing else changes |
| `SmInv.DepsInBounds` | swift-sim/gpu.cpp:362-371 | check_dependency never reads out of bounds, and holds if and only if all dependencies are complete |
| `SmInv.VisitBlocksSettles` | swift-sim/gpu.cpp:176-240 | schedule_warps_in_subcores never faults and keeps the invariant; what it issues is in `SmSchedule.ScheduleIs` |
| `SmSchedule.PickIs` | swift-sim/gpu.cpp:218-227 | The search fails if and only if no subcore left has the unit free, and otherwise finds the least such subcore |
| `SmSchedule.BlockVisited` | swift-sim/gpu.cpp:189-236 | In a block the first warp issues that has an instruction left, all dependencies complete and a subcore left with the unit free; it issues in the least such subcore, which is then taken; the warps before it that retire are gone and later ones untouched; if no warp may issue, all that retire are gone |
| `SmSchedule.ScheduleIs` | swift-sim/gpu.cpp:176-240 | The scheduler visits every block of the SM so, in order, each with the subcores that the blocks before it have left |
| `SmSchedule.LeftOverHasIssued` | swift-sim/gpu.cpp:176-240 | No subcore is left idle: a block that after the pass still has a warp that could issue in a subcore left has issued one in this pass |
| `SmSchedule.ActiveIs` | swift-sim/gpu.cpp:178-186 | A subcore takes part if and only if one of its units is free |
| `SmBlocks.CycleTakes` | swift-sim/gpu.cpp:132-174 | A cycle takes exactly the blocks that the pointer passes, keeps no others but its own, and never exceeds m_max_blocks |
| `SmTiming.RunIsTimely` | swift-sim/gpu.cpp:132-174 | Over every run, with the cycles in which each instruction of each warp really issued: an instruction of known latency completes that latency after its issue, and no instruction issues before the known completion of anything it depends on |
| `SmTiming.IssuedExitFollowsAllWrites` | swift-sim/kernel.cpp:48-53 | In any state of a run, for any warp: every earlier register write of known latency was complete in the cycle in which an EXIT or BAR issued |
| `SmTiming.IssuedFollowsItsOperands` | swift-sim/kernel.cpp:30-42 | So was every earlier write, of known latency, of a register that an issued instruction reads or writes |
| `SmTiming.StartIsTimely` | swift-sim/gpu.cpp:569-591 | The state after the initial spawn is timely, with nothing issued |
| `SmTiming.SharedLatencySteps` | swift-sim/gpu.cpp:661-681 | The latency of a shared-memory access grows with its active threads, in steps at the powers of 2 from 8 to 69 cycles |
| `SmTiming.IssueTimely` | swift-sim/gpu.cpp:242-266 | issue_inst after a passed dependency check adds the present cycle to the issue cycles of its warp and of no other |
| `StreamingMultiprocessors.StreamingMultiprocessor.Simulate` | swift-sim/gpu.cpp:132-174 | The object, driven for any number of cycles by allowed inputs, never fails and ends in the state of the run |
| `StreamingMultiprocessors.StreamingMultiprocessor.SmCycle` | swift-sim/gpu.cpp:132-174 | sm_cycle with its order of phases equals the cycle function |
| `StreamingMultiprocessors.StreamingMultiprocessor.WriteBack` | swift-sim/gpu.cpp:268-292 | The write_back loop equals its function, whose effect is `SmCycle.AnswersLeave` |
| `StreamingMultiprocessors.StreamingMultiprocessor.WriteBackRequestL2` | swift-sim/gpu.cpp:294-341 | write_back_request_l2 equals its function |
| `StreamingMultiprocessors.StreamingMultiprocessor.Drain` | swift-sim/gpu.cpp:298-319 | The drain loop, filling after each release, equals its function, whose effect is `SmInv.DrainSettles` |
| `StreamingMultiprocessors.StreamingMultiprocessor.L1CacheCycle` | swift-sim/cache.cpp:316-332 | The bank loop equals its function |
| `StreamingMultiprocessors.StreamingMultiprocessor.DelInactiveBlocks` | swift-sim/gpu.cpp:374-384 | Exactly the blocks without warps disappear |
| `StreamingMultiprocessors.StreamingMultiprocessor.UnitCycle` | swift-sim/gpu.cpp:595-638 | unit_cycle equals its function, whose effect is `SmUnits.UnitTurn` |
| `StreamingMultiprocessors.StreamingMultiprocessor.DispatchBlocks` | swift-sim/gpu.cpp:163-168 | The dispatch loop equals its function |
| `StreamingMultiprocessors.StreamingMultiprocessor.CheckDependency` | swift-sim/gpu.cpp:362-371 | The backward dependency loop equals its function |
| `StreamingMultiprocessors.StreamingMultiprocessor.ProcessLds` | swift-sim/gpu.cpp:642-729 | LdStInst::process and its three branches |
| `StreamingMultiprocessors.StreamingMultiprocessor.IssueInst` | swift-sim/gpu.cpp:242-266 | issue_inst for one dispatch per warp |
| `StreamingMultiprocessors.StreamingMultiprocessor.ScheduleBlock` | swift-sim/gpu.cpp:189-236 | The warp loop in order of warp ids, all of which the invariant keeps below warpLimit, equals its function, whose effect is `SmSchedule.BlockVisited` |
| `StreamingMultiprocessors.StreamingMultiprocessor.ScheduleWarpsInSubcores` | swift-sim/gpu.cpp:176-240 | The block loop over the free subcores |
| `StreamingMultiprocessors.StreamingMultiprocessor.SmActive` | swift-sim/gpu.h:136-150 | True if and only if some warp is left or some block is not dispatched |
| `Warps.GetMemInst` | swift-sim/kernel.h:170-177 | The search loop returns the first record with the key |
| `Warps.DecreaseKeepsCounters` | swift-sim/kernel.h:187-197 | A positive counter can be decreased: it alone falls by one, the sum follows, and when it falls to 0 the completion time of its slot, and no other, becomes the present cycle |
| `Warps.RetiredOwesNothing` | swift-sim/kernel.h:179-197 | When the total is 0 every counter is 0 |
| `L1Cache.AccessOutcome` | swift-sim/cache.cpp:205-314 | An access never aborts, hits if and only if its sector hits, and is refused if and only if it is a missing load with a full MSHR |
| `L1Cache.AccessKeeps` | swift-sim/cache.cpp:205-314 | cache_access keeps the L1 invariant: tags in order, MSHR within its limits, entries equal to the loads in transit, no pending sector a hit |
| `L1Service.AccessServes` | swift-sim/cache.cpp:205-314 | A hit is answered with ready time now + l1_hit_latency; a store hit that is written through sends a copy; a store that misses and the first load of a sector go to the miss queue; a load that misses joins the entry of its sector; nothing else |
| `L1Service.AccessTags` | swift-sim/cache.cpp:205-314 | A hit changes only the line that holds the sector: a load refreshes it, a store marks the sector modified, and refreshes it unless it is written through; a miss changes no line |
| `L1Service.FilledLinesHit` | swift-sim/cache.cpp:349-351 | After a returned load the cache is the abstract fill of what it was: its sector hits, and every other sector as before, unless its line is the one victim |
| `SmRuns.MissesAreSentOnce` | swift-sim/cache.cpp:273-309 | After every run a sector has an MSHR entry if and only if exactly one load of it is in the miss queue or below, and then it does not hit; no other sector has a load in transit |
| `L1Cache.SendKeeps` | swift-sim/cache.cpp:334-347 | Sending a miss keeps the L1 invariant |
| `L1Cache.ReturnHasEntry` | swift-sim/gpu.cpp:298-300 | A returning load has an MSHR entry |
| `L1Cache.DrainKeeps` | swift-sim/gpu.cpp:298-319 | Draining an entry and filling its sector keeps the L1 invariant |
| `L1DataCaches.L1DataCache.CacheAccess` | swift-sim/cache.cpp:205-314 | cache_access with its updates in place equals its function |
| `Mshr.MshrTable.Drain` | swift-sim/gpu.cpp:300-319 | Merged requests come out in arrival order, the entry goes, all others stay |
| `Mshr.MshrTable.NextAccess` | swift-sim/cache.cpp:71-80 | The oldest request leaves, and the entry with its last request |
| `Mshr.MshrTable.AddRequest` | swift-sim/cache.cpp:63-68 | A request joins the list of its entry |
| `Mshr.FullIff` | swift-sim/cache.cpp:54-68 | The table is full for a request if and only if adding it would exceed a limit |
| `Mshr.EntriesAreQueues` | swift-sim/cache.cpp:63-80 | A new request comes last in its entry, the oldest leaves first, the entry goes with its last request, and other entries stay |
| `MemFetch.SectorAddrDecodes` | swift-sim/mem_fetch.cpp:23-23 | The sector address determines line and sector |
| `TagStore.ProbeIsDefinite` | swift-sim/cache.cpp:97-164 | Without reserved sectors a probe hits or misses a sector in the first way that holds the line, or names the victim: the last way of the set without a valid sector, or else the first of its oldest lines; it never fails or aborts |
| `TagStore.ProbeRefinesLookup` | swift-sim/cache.cpp:97-164 | A probe hits if and only if the abstract map holds the sector, and tells the kinds of miss apart by it |
| `TagStore.FillRefines` | swift-sim/cache.cpp:187-196 | A fill is an abstract fill: the sector becomes valid and at most the victim line leaves the map |
| `TagStore.FillHits` | swift-sim/cache.cpp:187-196 | After a fill a sector hits if and only if it was filled, or hit before and did not belong to the evicted line |
| `TagFills.FilledHits` | swift-sim/cache.cpp:187-196 | Even where a line is in two ways, after a fill its sector hits, in the way that was filled |
| `TagFills.FillTwice` | swift-sim/cache.cpp:187-196 | Filling a sector again at once changes nothing |
| `TagFills.FillKeepsOthers` | swift-sim/cache.cpp:187-196 | Every other sector hits as before, unless its line was the victim |
| `TagStore.VictimIsOldest` | swift-sim/cache.cpp:123-163 | A valid line is replaced only when no way is invalid, and its stamp is minimal in the set |
| `TagStore.AccessRefines` | swift-sim/cache.cpp:168-185 | An access changes no sector of the map |
| `TagStore.StoreHitRefines` | swift-sim/cache.cpp:225-239 | Marking a hit sector modified changes only that sector |
| `TagStore.OperationsSettle` | swift-sim/cache.cpp:166-196 | In any L1 or L2 run, accesses and fills leave no sector reserved and a fill always has an index |
| `TagStore.StoresSettle` | swift-sim/cache.cpp:438-453 | So do store hits and the L2 stores on idle lines |
| `TagStore.IdleMeans` | swift-sim/cache.cpp:82-95 | The idle search returns the first way of the set without a valid sector, if there is one |
| `TagStore.LineMissStoreKeepsTags` | swift-sim/cache.cpp:441-453 | A line-miss store on an idle way keeps tags distinct and at home |
| `TagStore.SectorMissStoreIff` | swift-sim/cache.cpp:441-453 | A sector-miss store on an idle way keeps the tags in order if and only if the address maps to the set of address 0 and line 0 is not cached |
| `MemoryRuns.IdleWaysHaveTagZero` | swift-sim/cache.cpp:441-453 | In every run of an L2 slice a way without a valid sector still has tag 0 |
| `TagStore.SectorMissStoreDuplicatesATag` | swift-sim/cache.cpp:441-453 | Two stores to one line of a fresh two-way set leave the line in both ways |
| `TagFills.IdleStoreHitsIff` | swift-sim/cache.cpp:438-453 | A store written into an idle way is found afterwards if and only if its line was not cached, or is line 0 and the idle way comes before the way that holds it |
| `TagHistory.RunIsStamped` | swift-sim/cache.cpp:166-196 | Over every run of accesses, fills and store hits, tags stay distinct and at home, and the stamps of a line are the times of its last use and of its arrival |
| `TagHistory.VictimIsLeastRecent` | swift-sim/cache.cpp:123-163 | LRU replaces the least recently used line of the set, FIFO the one that arrived first, and only from a full set |
| `TagHistory.FillStamps` | swift-sim/cache.h:324-357 | A fill stamps exactly the line it brings in |
| `TagArrays.TagArray.Probe` | swift-sim/cache.cpp:97-164 | The way loop equals the probe function |
| `TagArrays.TagArray.Access` | swift-sim/cache.cpp:166-185 | tag_array_access equals its function |
| `TagArrays.TagArray.Fill` | swift-sim/cache.cpp:187-196 | tag_array_fill equals its function |
| `TagArrays.TagArray.ProbeIdle` | swift-sim/cache.cpp:82-95 | tag_array_probe_idle equals its function |
| `CacheConfig.LogB2` | swift-sim/cache.cpp:15-38 | LOGB2(v) is floor(log2 v) for every 32-bit v |
| `CacheConfig.SetIndexInRange` | swift-sim/cache.h:150-178 | The linear index, and the hash of 64 sets or more, stay below the number of sets |
| `CacheConfig.SetIndexOfLine` | swift-sim/cache.h:150-178 | The index depends only on the line address |
| `CacheConfig.UpperBitsAndSetNameTheLine` | swift-sim/cache.h:150-178 | For fixed upper bits different lines have different sets, so upper bits and set identify the line |
| `CacheConfig.EverySetIsReached` | swift-sim/cache.h:150-178 | For fixed upper bits every set is reached, so with the row above the index permutes the sets |
| `CacheConfig.HashInRangeIff` | swift-sim/cache.h:154-174 | The polynomial hash stays in range for all addresses if and only if there are at least 64 sets |
| `CacheConfig.HashNamesTheLineIff` | swift-sim/cache.h:154-174 | Upper bits and hashed set identify the line if and only if there are at most 64 sets |
| `CacheConfig.HashReachesEverySetIff` | swift-sim/cache.h:154-174 | The hash reaches every set for all upper bits if and only if there are exactly 64 |
| `CacheConfig.TagClearsOffset` | swift-sim/cache.h:138-148 | The 64-bit masks of tag and block_addr clear exactly the line offset, and that of mshr_addr the sector offset, which a sector address does not have |
| `CacheConfig.ShiftsAreDivisions` | swift-sim/cache.h:150-158 | The shifts are quotients and the mask is the remainder: the line number is sets times upper bits plus linear index |
| `Crossbar.OutputReceivesIff` | swift-sim/crossbar.cpp:80-114 | An output receives a packet if and only if it had room and some head was for it; the winner is the first such input in round-robin order |
| `Crossbar.ConflictsExact` | swift-sim/crossbar.cpp:80-114 | The conflict counter grows by the heads for granted outputs minus the grants |
| `Crossbar.OutputsStayBounded` | swift-sim/crossbar.cpp:92-98 | Output occupancy never exceeds its limit |
| `Crossbar.WinnerIsFirst` | swift-sim/crossbar.cpp:86-98 | The winner has a head for the output, the output has room, and no input visited earlier has such a head |
| `Crossbar.VisitsInOrder` | swift-sim/crossbar.cpp:86-87 | The inputs are visited upwards from next_node_id and around the end |
| `XbarRouters.XbarRouter.RRAdvance` | swift-sim/crossbar.cpp:80-114 | The loop with its issued flags and counters equals the simultaneous step |
| `XbarRouters.XbarRouter.Push` | swift-sim/crossbar.cpp:49-52 | A packet joins its input queue |
| `XbarRouters.XbarRouter.Pop` | swift-sim/crossbar.cpp:54-61 | The head of an output queue leaves |
| `CrossbarRuns.FlowsAreFifo` | swift-sim/crossbar.cpp:49-114 | Over every run, what was pushed from one input for one output is what was popped, then what is in flight, in the same order |
| `CrossbarRuns.PoppedByItsDevice` | swift-sim/crossbar.cpp:54-61 | A packet is popped only by the device it is for |
| `CrossbarRuns.BoundedWaiting` | swift-sim/crossbar.cpp:80-114 | With room at every Advance, the packet at position p of an input has moved after (p + 1) * total_nodes Advances, whatever is pushed and popped meanwhile |
| `CrossbarRuns.AdvanceKeepsFlow` | swift-sim/crossbar.cpp:92-98 | An Advance neither loses nor reorders any flow |
| `Interconnect.DeliveredIff` | swift-sim/crossbar.cpp:167-188 | Packets between an SM and a slice are received once, in order; between two SMs or two slices none is ever received |
| `Interconnect.GuardedInputsStayBounded` | swift-sim/crossbar.cpp:63-67 | When every push to an input is guarded by HasBuffer, its queue never exceeds the limit |
| `Interconnect.LocalInterconnect.Push` | swift-sim/crossbar.cpp:167-180 | Push chooses the subnet by the sender |
| `Interconnect.LocalInterconnect.Pop` | swift-sim/crossbar.cpp:182-188 | Pop chooses the subnet by the receiver |
| `Interconnect.LocalInterconnect.Advance` | swift-sim/crossbar.cpp:190-194 | Both subnets advance |
| `Fifo.ExactFifo` | swift-sim/delayqueue.h:71-157 | Over any history of pushes, pops and resizes the payloads are an exact FIFO and minLen <= length <= maxLen |
| `Fifo.PushAppends` | swift-sim/delayqueue.h:71-87 | A push appends its payload whether it takes a new cell or overwrites an empty tail |
| `Fifo.PopRemoves` | swift-sim/delayqueue.h:89-115 | A pop removes exactly the head cell |
| `Fifo.SetMinLengthMeans` | swift-sim/delayqueue.h:125-157 | set_min_length keeps the payloads, adds or trims only empty cells at the end, and shrinks to max(new minimum, last payload + 1) |
| `FifoPipelines.FifoPipeline.constructor` | swift-sim/delayqueue.h:51-61 | min_len empty cells |
| `FifoPipelines.FifoPipeline.Push` | swift-sim/delayqueue.h:71-87 | push on the linked list |
| `FifoPipelines.FifoPipeline.Pop` | swift-sim/delayqueue.h:89-115 | pop on the linked list, with the refill |
| `FifoPipelines.FifoPipeline.SetMinLength` | swift-sim/delayqueue.h:125-157 | set_min_length on the linked list; its shrink loop terminates |
| `DramInv.ExactLatency` | swift-sim/cache.cpp:617-660 | In each cycle of every run a slice sends precisely what the channel accepted for it l2_miss_latency + max(CL, 1) + 2 cycles before, and nothing else |
| `DramInv.OverflowIff` | swift-sim/cache.cpp:617-676 | From every state of a run the next cycle succeeds if and only if every slice with a miss has room for it once the channel has taken its request; nothing else can fail |
| `DramInv.SteadyMissesOverflow` | swift-sim/cache.h:566-568 | When both slices miss in every cycle, the 1000000th miss of slice 0 overflows its queue |
| `DramInv.OverflowHappens` | swift-sim/cache.h:566-568 | Such a run exists, so the overflow is real |
| `DramInv.StepOkIff` | swift-sim/cache.cpp:617-676 | A step from any state of the invariant: its exact result, or the overflow |
| `MemoryRuns.MissesAreInRange` | swift-sim/mem_fetch.cpp:58-62 | Because requests carry the bank of their address, every miss of a run is for an existing bank |
| `DramInv.EveryMissReturnsOnceInOrder` | swift-sim/cache.cpp:617-676 | The misses a slice queued are those it has answered, then those in the channel, then those still queued: none lost, doubled or reordered |
| `DramInv.StepKeeps` | swift-sim/cache.cpp:617-676 | The inductive invariant: rwq is a window of CL log entries, mrqq and returnq hold at most one request, no bank holds one, dram_L2_queue is empty |
| `DramInv.DramCycleShifts` | swift-sim/dram.cpp:55-83 | One dram_t cycle moves the delay line by one place |
| `DramInv.EnterOnTime` | swift-sim/cache.cpp:651-659 | A request enters the channel exactly l2_miss_latency cycles after it was accepted |
| `DramInv.RoomForManyCycles` | swift-sim/cache.h:534-535 | Within 999999 cycles the L2-to-DRAM queue always has room |
| `DramChannels.DramT.Cycle` | swift-sim/dram.cpp:55-83 | dram_t::cycle over the queue objects and the bank array equals its function |
| `DramChannels.DramT.SchedulerFifo` | swift-sim/dram.cpp:179-194 | scheduler_fifo equals its function |
| `DramChannels.NewDram` | swift-sim/dram.cpp:14-53 | The constructed channel has CL empty cells and idle banks |
| `MemoryPartitions.MemoryChannel.Cycle` | swift-sim/cache.cpp:663-676 | A channel and the DRAM side of its slices for one cycle |
| `MemoryPartitions.MemoryChannel.DramCycle` | swift-sim/cache.cpp:617-660 | dram_cycle with its arbitration loop equals its function |
| `MemoryPartitions.MemoryChannel.CycleOfRun` | swift-sim/cache.cpp:617-676 | A cycle of the object never fails and its outputs are exactly those due |
| `MemoryRuns.AnsweredExactlyOnce` | swift-sim/cache.cpp:353-517 | For every request as its SM sees it (id, SM, address, sector, block, warp, completion slot), from fresh slices and a fresh channel: those that reached a slice, write-through copies aside, were replied to exactly once with that very record, or are in the slice, or in its DRAM channel |
| `MemoryRuns.CopiesAreNeverAnswered` | swift-sim/cache.cpp:427-470 | No WRITE_THROUGH_L2 request is ever replied to |
| `L2Cache.CycleKeeps` | swift-sim/cache.cpp:353-404 | l2_cache_cycle never fails and keeps the invariant |
| `L2Cache.CycleBalances` | swift-sim/cache.cpp:353-404 | l2_cache_cycle conserves the requests that look alike to their SM: what arrives or returns from DRAM is replied, sent to DRAM or still inside |
| `L2Cache.AccessKeeps` | swift-sim/cache.cpp:406-517 | cache_access never aborts, is refused if and only if it is a missing load with a full MSHR, and keeps the invariant |
| `L2Cache.ReleaseAllIsExact` | swift-sim/cache.cpp:367-387 | Because each reply queue is sorted by ready time, the front-only loops release exactly the ready replies |
| `L2Cache.DrainKeeps` | swift-sim/cache.cpp:358-362 | The MSHR drain always succeeds, never replies, and removes exactly its entry; what it fills is in `L2Service.DrainIsFill` |
| `L2Service.DrainIsFill` | swift-sim/cache.cpp:358-362 | However many requests an entry holds, draining it is one fill of its sector |
| `L2Service.ReturnFills` | swift-sim/cache.cpp:353-365 | After DRAM has returned a load with an entry its sector hits; every other sector as before, unless its line was the victim |
| `L2Service.CycleServes` | swift-sim/cache.cpp:353-404 | One l2_cache_cycle, exactly: the returned request and the answers that are ready leave, the returned sector is filled, and then the front request, the arrival included, is served unless it is refused |
| `L2Service.ReturnedThenHits` | swift-sim/cache.cpp:353-404 | A request for the sector that has just been filled is a hit: it is answered, and nothing goes to DRAM |
| `L2Service.AccessServes` | swift-sim/cache.cpp:406-517 | A hit is answered after exactly its latency, that of the TLB for a store whose page was not known and that of a hit otherwise, in the queue of that latency; a miss, and only a miss, goes to DRAM; a load miss joins the entry of its sector; a copy is neither answered nor sent |
| `L2Service.AccessTags` | swift-sim/cache.cpp:406-517 | A hit stamps only the line that holds the sector, and a store marks the sector modified; a store that misses is written into an idle way of the set, if there is one; a load that misses changes no line |
| `L2Service.CycleIsPunctual` | swift-sim/cache.cpp:367-387 | All answers that leave in a cycle are due then, and all that stay are due later: an answer leaves max(latency, 1) cycles after its access |
| `MemoryRuns.AnswersLeaveOnTime` | swift-sim/cache.cpp:353-404 | In every cycle of every run a slice sends what DRAM returns to it and then exactly the answers due in that cycle |
| `MemoryRuns.ReturnedSectorIsServed` | swift-sim/cache.cpp:353-404 | In every run, when DRAM returns a load that an entry waits for, the next request for its sector is answered by the slice |
| `L2Cache.AccessBalances` | swift-sim/cache.cpp:406-517 | An accepted request is queued for its SM, or sent to DRAM, or is a silent copy: exactly one |
| `L2Cache.SilentStaysSilent` | swift-sim/cache.cpp:427-470 | A write-through copy is neither replied to nor sent to DRAM |
| `L2Cache.MissIsFront` | swift-sim/cache.cpp:396-402 | What goes to DRAM is the front request of the input queue |
| `L2DataCaches.L2DataCache.L2CacheCycle` | swift-sim/cache.cpp:353-404 | l2_cache_cycle with its loops equals its function, whose effect is `L2Service.CycleServes` |
| `L2DataCaches.L2DataCache.CacheAccess` | swift-sim/cache.cpp:406-517 | cache_access in place equals its function |
| `L2DataCaches.L2DataCache.SendL2ToSm` | swift-sim/cache.h:553-564 | send_l2_to_sm picks the queue by the latency |
| `AddressDecode.DecodeIsLossless` | swift-sim/mem_fetch.cpp:51-56 | Channel and rest give the address back, for any number of channels |
| `AddressDecode.DecodeIsOnto` | swift-sim/mem_fetch.cpp:51-56 | Every channel and rest come from exactly one address |
| `AddressDecode.NodeAndBankInRange` | swift-sim/mem_fetch.cpp:58-62 | The node is in [sm_num, sm_num + 2n), its slice belongs to the decoded chip, and the bank is below 16 |
| `AddressDecode.LineSharesBankAndRow` | swift-sim/mem_fetch.cpp:51-62 | All sectors of a 128-byte line share chip, bank, row and slice |
| `AddressDecode.PackBits` | swift-sim/mem_fetch.cpp:65-76 | The bit loop equals parallel extraction and stays below 2^popcount(mask) |
| `AddressDecode.GetMaskLimit` | swift-sim/mem_fetch.cpp:78-95 | The window is the smallest that holds all mask bits |
| `AddressDecode.DepositExtract` | swift-sim/mem_fetch.cpp:65-76 | Depositing the extracted bits gives val & mask |
| `AddressDecode.ExtractDeposit` | swift-sim/mem_fetch.cpp:65-76 | Extracting deposited bits gives them back |
| `AddressDecode.GetMemSubPartitionId` | swift-sim/mem_fetch.cpp:34-63 | The decode with its loops equals the decode function |
| `Scoreboard.GetInstDependency` | swift-sim/kernel.cpp:30-56 | The one-pass map yields each dependency list in its order and with its repetitions: the last writers of the destinations, of the sources, and for EXIT and BAR of every register of the map, in the order of its keys |
| `Scoreboard.ListIsExact` | swift-sim/kernel.cpp:30-56 | The list contains exactly the last earlier writer of each operand, and for EXIT and BAR the last writer of every register |
| `Scoreboard.KeysAreTheWritten` | swift-sim/kernel.cpp:43-52 | The keys of the map are the registers written so far, each once, in increasing order |
| `Scoreboard.SelfDependencyIff` | swift-sim/kernel.cpp:43-52 | An instruction waits for itself if and only if it is EXIT or BAR and has a destination; all other dependencies are earlier |
| `Scoreboard.SelfDependencyFaults` | swift-sim/gpu.cpp:362-371 | The check of such an instruction is never passed: when all else is complete it reads past the completion times |
| `Scoreboard.OperandsAreSettled` | swift-sim/kernel.cpp:30-42 | In an honoured schedule an instruction issues only after every earlier write of its registers, not just the last, is done |
| `Scoreboard.ExitWaitsForAllWrites` | swift-sim/kernel.cpp:48-53 | EXIT and BAR issue only after every earlier register write is done |
| `Scoreboard.IssueExtends` | swift-sim/gpu.cpp:362-371 | An instruction that passes check_dependency at some time extends an honoured schedule by exactly that time |
| `TraceReader.NumberOccurrences` | swift-sim/trace_reader.cpp:102-113 | pc_index is the number of earlier occurrences of the key |
| `TraceReader.KeyAndIndexAreUnique` | swift-sim/trace_reader.cpp:102-113 | A key and its index name one line |
| `TraceReader.FilterKeepsNumbering` | swift-sim/kernel.cpp:85-95 | Restricting a trace to some keys keeps their numbering |
| `TraceReader.JoinIsExact` | swift-sim/kernel.h:170-177 | get_mem_inst returns an instruction's own record, and none for an instruction without one |
| `TraceReader.Coalesce` | swift-sim/kernel.cpp:97-113 | The coalesced list has exactly the touched sectors, each once, in order of first occurrence |
| `TraceReader.TraceMakesProgramOk` | swift-sim/kernel.cpp:5-56 | Warps built by the readers satisfy what the SM theorems ask of a kernel |
| `Dispatch.FirstSpawnBlock` | swift-sim/gpu.cpp:569-591 | The initial spawn gives out exactly the first min(grid, active SMs * max_blocks) blocks, each to one SM, none with more than max_blocks |
| `Dispatch.EveryBlockHasOneSm` | swift-sim/gpu.cpp:163-168 | Over every run of the SMs a block is only ever held by one SM, no SM holds a block at or above the pointer or more than its maximum |
| `Dispatch.EveryPassedBlockWasGiven` | swift-sim/gpu.cpp:163-168 | Every block that the pointer has passed was put into one SM, in the turn that passed it, and belongs to that SM from then on |
| `Dispatch.SpawnIsOwned` | swift-sim/gpu.cpp:569-591 | The initial spawn gives every block below the pointer to the SM that holds it, within the maxima |
| `Dispatch.MaxBlocksFit` | swift-sim/gpu.cpp:480-535 | max_blocks blocks fit the shared memory, registers, threads and block slots of an SM, in exact arithmetic |
| `Dispatch.MaxBlocksIff` | swift-sim/gpu.cpp:480-483 | n is within max_blocks if and only if n blocks fit every resource, each by its own measure: threads and slots, shared memory, and the layout in the register files |
| `Dispatch.SharedMemoryFitsIff` | swift-sim/gpu.cpp:508-521 | n blocks fit the shared memory if and only if n is within the limit |
| `Dispatch.ThreadsFitIff` | swift-sim/gpu.cpp:523-535 | n blocks fit the threads and block slots if and only if n is within the limit |
| `Dispatch.RegistersFit` | swift-sim/gpu.cpp:485-506 | Blocks within the register limit fit the registers |
| `Dispatch.RegistersFitIff` | swift-sim/gpu.cpp:485-506 | n blocks can be laid out in the register files of an SM, a file taking warps in rounds of all schedulers, if and only if n is within the limit |
| `AddressCompression.BaseStrideCompress` | tracer_nvbit_allsass/tracer_tool/tracer_tool.cu:506-543 | Succeeds if and only if no lane is active or the active lanes are one run of at least two with a constant int stride |
| `AddressCompression.StrideRestores` | tracer_nvbit_allsass/tracer_tool/tracer_tool.cu:506-543 | base + k * stride is the address of the k-th active lane, modulo 2^64 |
| `AddressCompression.BaseDeltaCompress` | tracer_nvbit_allsass/tracer_tool/tracer_tool.cu:545-561 | Base and deltas restore exactly the active addresses, modulo 2^64 |

## Left out

- File reading, printing, statistics, stalls of the host threads, and configuration parsing: traces and numeric parameters are arguments.
- The ANALYSIS build, which compiles the memory system out: the model is of the build with ANALYSIS == 0.
- The clock of a run of one SM stays below INT_MAX and the times given to the caches below 2^32 - 1, where the source's int and unsigned times would wrap.
- dram_model_cycle, issue_col_command, issue_row_command and the FR-FCFS scheduler: the simple model writes a file in every cycle, and the others are not called.
- StreamingMultiprocessors.StreamingMultiprocessor.IssueInst: one dispatch unit per warp; with more, the source issues the next instruction without checking its dependencies.
- m_n_element of fifo_pipeline: it does not count real elements when min_len is positive.
- Hit counters, address_to_sms, and the TLB flag beyond its choice of reply queue.
- GpuTheorems.OnlyOverflowFails: gpu_cycle is a run of events over values; the objects of its parts are proved equal to the same functions, but no object holds them all.  A channel and its slices are one event, since within memory_partition_cycle they share nothing with other channels.
- Fairness between the two slices of a channel: last_issued_partition never changes in dram_cycle, so slice 1 always goes first.
- The end of a run: that every request is answered in the end is not proved, only that none is lost.
- Identity of mem_fetch objects: a request is a value, and `below` keeps it as the L1 sent it; fields that the L2 writes are not seen by the SM.
- A unit's warp pointer is a (block, warp) pair, and warps, units and queues are values in fields of their SM; aliasing between them is not modelled.
- load_all_subcore_units: the table from subcores and classes to units is a parameter, shared units included.
- Opcode strings: an instruction carries its unit class, latency and load/store branch.
- Negative addresses in the coalescing shift: addresses are natural numbers.
- Float rounding in the occupancy limits: quotients are exact.
- MemoryPartitions.MemoryChannel.Cycle: the channel holds its queues as values; that the linked lists behave like these values is FifoPipelines, and a dram_t built from them is DramChannels.
- SmTiming.RunIsTimely: says nothing about waiting for a load or an atomic, whose completion time can become finite before its last request is out; what is true of them is `SmLoads.CycleCompletes` and `SmLoads.AnsweredIsComplete`.
