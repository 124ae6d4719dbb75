# Verification of the driver examples and their devices

A Dafny model of the parts of this repository where something can go wrong between threads,
interrupts, timers and a device: the snull network pair, the ldd-pcie DMA engine with its
interrupts and the drivers that wait for it, the pipe's hand-written sleep, and the smaller
pieces that move bytes (block requests, the ldd-io receiver, the tty line splitter, the
asynchronous ring, the lock-free inbox). `dafny verify dfyconfig.toml` checks everything.

## How to read it

Two forms are used, following the code.

*Protocols* are step systems: a state, a `Step` for each section under a lock or each atomic
access, and `Run(...)`, a sequence of states in which each follows from the one before by any
step of any thread. An invariant is kept by every step (`...Keeps` lemmas), hence holds all
along every run (`RunKeeps`); the promises of the driver are read off it. Beside what is kept,
each system says what its steps do, by what changed between two states, and that whoever is not
meant to wait can always go on.

*Data paths* are classes with the fields of the C structures, whose methods are proved against
functions of the old state; what the source promises is proved of those functions.

| file | part of the repository |
|---|---|
| `SnullModel`, `SnullProof`, `Snull` | 30_netdev, both interfaces with every interleaving |
| `SnullBuffers` | 30_netdev, pool and receive queue as linked lists through one `next` |
| `SnullLaws` | what each step of the pair does, and that no thread is ever stuck |
| `SnullMoves`, `SnullHeap` | the lists on the heap along every run of the pair |
| `PcieRegs`, `PcieTransfer`, `PcieDevice` | ldd-pcie: registers, interrupts, the DMA engine |
| `SgLayout`, `SgDriver` | 28_dma_sg: pages, descriptors, read and write |
| `DmaProtocol` | 27_dma and 28_dma_sg: waiting, timing out, interrupts |
| `MsiProtocol` | 26_msi_interrupt: counting events under MSI-X, MSI and INTx |
| `Pipe` | 09_pipe_advanced_sleep |
| `Block`, `NestedLoops`, `BlockBytes`, `MemDisk` | 29_block_device: walks, simple mode, bytes, the driver |
| `LddIo` | ldd-io, and `data_take()` of 17_short_mmio |
| `Tty` | 31_tty |
| `AsyncRing`, `AsyncCompletion` | 25_async_io |
| `Llist` | ds/llist |
| `Segments`, `Common` | bytes spread over segments; an option type |

Assumptions. Execution is sequentially consistent, with one step for each locked section or
atomic access. `ndo_start_xmit` is serialized per interface; `napi_schedule()` on a scheduled
NAPI makes `napi_complete_done()` return false. Interrupt messages are not dropped, though
messages for one vector may coalesce; ldd-pcie is idle when a driver probes it and its interrupt
mode does not change. The kernel's scatterlist and mapping calls regroup the pages in order into
non-empty segments of at most `max_seg` bytes, no more than there are pages, `count` bytes in
all, and every mapped segment is in the engine's reach. Guest RAM, the descriptor table and the
on-board memory do not overlap, and the pages of one user buffer are distinct. A page has 4096
bytes. The outcome of kernel calls (a fault, a missing page, a signal, a failed allocation, when
a timer fires, what the host types) is a parameter or a free choice of the step.

Places where the code and what one would expect of it differ:

- ldd-pcie with `dma64=off` adds address and length in 64 bits, so a segment that wraps passes
  the 4 GiB check; `ReachOf32Bits` says exactly which do.
- The tty prints with `%s`, so a NUL hides the rest of its line; `PrintedIsInput` holds exactly
  for input without one.
- A tty line is cut with a backslash before its line end is looked at, so a line whose length is a
  multiple of 80 ends in one although nothing of it follows (`FullLineIsMarked`).
- The kernel spells `rq_for_each_segment()` as two nested loops, so the `break` on an error in
  simple mode leaves the inner one only, and the walk goes on with the next bio at the sector
  that failed. `TwoLoopsExact` says exactly when simple still makes the copies that full makes:
  when no bio behind the segment that is past the disk starts with one that fits in its place, as
  in every request that stays on the disk. `SameDiskExact` says the same of what is on the disk.
  `TwoLoopsDiverge` is a request that simple completes with success although a bio was lost.
- The status alone differs exactly when a segment is past the disk and the last bio with segments
  fits where the walk is by then, or when the bios of a read or write all lack segments, which
  simple reports as unsupported and full as success (`StatusesAgree`, `NoSegmentsDiverge`). Walked
  in one loop, as the driver's comment describes simple mode, only the latter is left
  (`OneLoopIsFull`, `OneLoopStatusesAgree`).

## Model

| member | source | states |
|---|---|---|
| Snull.RunKeeps | examples/30_netdev/main.c:37-359 | every state of every interleaving of the transmit paths, interrupt handlers, polls, opens and stops of both interfaces satisfies the invariant |
| Snull.NoFrameStranded | examples/30_netdev/main.c:84-261 | a frame queued on an open interface has NAPI scheduled or polling, or a thread that owes the schedule; without NAPI the queue is never longer than the raised or taken receive interrupts, and a raised bit has its handler on the way |
| Snull.InterruptsComeBack | examples/30_netdev/main.c:204-261 | receive interrupts are off on an open interface only while a poll is due |
| Snull.BuffersConserved | examples/30_netdev/main.c:37-110 | each of the pool_size packets is in exactly one place: its pool, the peer's receive queue, or one thread's hand; no other packet is anywhere |
| Snull.FramesStayInOrder | examples/30_netdev/main.c:71-110 | the receive queue is what was enqueued and not yet dequeued, in order |
| Snull.TxSkbFree | examples/30_netdev/main.c:306-311 | tx_skb is never overwritten while set |
| Snull.SkbsFreedOnce | examples/30_netdev/main.c:150-173 | an skb accepted with NETDEV_TX_OK is dropped or completed once, or is in one place on its way there |
| Snull.QueueNotStuck | examples/30_netdev/main.c:37-68 | an interface that is up has no stopped queue with a free buffer, unless a thread still owes the wake that happens outside the lock |
| Snull.DestroyFindsAll | examples/30_netdev/main.c:333-359 | once both are stopped and idle, every packet is back in its own pool and every accepted skb is freed |
| SnullLaws.FrameFate | examples/30_netdev/main.c:84-110 | a frame accepted with a buffer is offered to the peer once: it is the last of the peer's queue if the peer was running, and lost only if it was not |
| SnullLaws.EveryStepIsLawful | examples/30_netdev/main.c:37-359 | every step of every run, by what it changed: who raises, acknowledges and masks receive interrupts, what stops and wakes the queue, who takes frames and which, how an skb gets from acceptance to being freed, that no schedule is forgotten, and the order of handlers, polls, open and stop |
| SnullLaws.PollKeepsToBudget | examples/30_netdev/main.c:223-261 | a poll handles no more frames than its weight |
| SnullLaws.NobodyIsStuck | examples/30_netdev/main.c:176-359 | in every reachable state a sending thread, its handlers and a poll that is due can go on; stop waits for nothing but a scheduled poll |
| SnullLaws.CanSend | examples/30_netdev/main.c:285-287 | an idle sender with a buffer in its pool can send any new skb |
| SnullProof.XmitKeeps | examples/30_netdev/main.c:268-314 | the transmit path keeps the invariant of both interfaces |
| SnullProof.OwnIrqKeeps | examples/30_netdev/main.c:176-221 | so does an interface's own interrupt, run by its transmitter |
| SnullProof.PeerIrqKeeps | examples/30_netdev/main.c:176-221 | so does its interrupt run by the peer's transmitter |
| SnullProof.PollKeeps | examples/30_netdev/main.c:223-261 | so does the poll, with the re-check after napi_complete_done() |
| SnullProof.CtlKeeps | examples/30_netdev/main.c:316-359 | so do open and stop, with the wait in napi_disable() and the drain |
| SnullBuffers.CreatePair | examples/30_netdev/main.c:409-457 | both interfaces start with disjoint acyclic pools of all their packets, in array order, and empty queues: the base case of the four operations below |
| SnullBuffers.LddDev.InitPool | examples/30_netdev/main.c:427-432 | the pool becomes an acyclic chain of all the new packets |
| SnullBuffers.LddDev.GetTxBuffer | examples/30_netdev/main.c:37-52 | unlinks the head of the pool; stops the queue when it was the last; an empty pool is refused |
| SnullBuffers.LddDev.ReleaseBuffer | examples/30_netdev/main.c:54-68 | pushes on the pool; says whether the pool was empty, when the queue is to be woken |
| SnullBuffers.LddDev.RxDequeue | examples/30_netdev/main.c:71-81 | takes the first packet, and forgets the tail with the last |
| SnullBuffers.LddDev.RxEnqueue | examples/30_netdev/main.c:84-110 | appends at the tail when running and raises the bit when interrupts are on; otherwise nothing is queued |
| SnullBuffers.LddDev.AckInterrupt | examples/30_netdev/main.c:150-165 | clears both bits, and hands over tx_skb exactly when the transmit bit was set |
| SnullBuffers.TakeBuffer | examples/30_netdev/main.c:268-304 | pool to hand keeps every packet in one place on two disjoint acyclic lists that share `next` |
| SnullBuffers.Send | examples/30_netdev/main.c:84-110 | so does hand to the peer's receive queue |
| SnullBuffers.Receive | examples/30_netdev/main.c:71-81 | so does receive queue to hand |
| SnullBuffers.GiveBack | examples/30_netdev/main.c:54-68 | so does hand to pool |
| SnullBuffers.ChainAcyclic | examples/30_netdev/main.c:71-110 | a chain that ends in NULL visits no packet twice |
| SnullBuffers.PoolIsWhole | examples/30_netdev/main.c:459-472 | with empty hands and an empty receive queue, the pool holds exactly the packets of the device |
| SnullMoves.HeldIsFree | examples/30_netdev/main.c:37-110 | a packet in a thread's hand is on none of the four lists |
| SnullMoves.StepMoves | examples/30_netdev/main.c:37-110 | every step of a reachable state changes at most one of the four lists, by one of the four list operations, on a packet that no list holds |
| SnullHeap.OneStep | examples/30_netdev/main.c:37-110 | the linked lists follow a step: acyclic, disjoint, with the right tail, and spelling the model's pools and queues |
| SnullHeap.Follow | examples/30_netdev/main.c:37-472 | so along every run from ldd_create() on, of any length and interleaving |
| PcieRegs.ApplyKeeps | tools/qemu/hw/ldd/pcie.c:120-149 | every register write, reset and timer firing keeps: busy exactly while the timer is armed, a legal status, messages sent for exactly the raised and unmasked events |
| PcieRegs.RunKeeps | tools/qemu/hw/ldd/pcie.c:329-409 | and so does every sequence of them |
| PcieRegs.FrozenWhileBusy | tools/qemu/hw/ldd/pcie.c:329-409 | while the engine stays busy nothing changes its program or its result |
| PcieRegs.TableAligned | tools/qemu/hw/ldd/pcie.c:356-370 | the descriptor table address is always a multiple of 16 |
| PcieRegs.StartsAccounted | tools/qemu/hw/ldd/pcie.c:243-277 | accepted STARTs are the completions, plus the resets while busy, plus the one running |
| PcieRegs.TransferReported | tools/qemu/hw/ldd/pcie.c:243-277 | from an accepted START until a reset or the next one XFER_BYTES and ERR_DESC read as the transfer left them, and STATUS as 1 until the timer fires, then as 2, or as 4 with the code |
| PcieRegs.EndRaises | tools/qemu/hw/ldd/pcie.c:264-277 | the end of a transfer raises DMA_DONE or DMA_ERROR, by its code, and no other event |
| PcieRegs.ResetClears | tools/qemu/hw/ldd/pcie.c:144-149 | after a reset every register reads as 0, nothing runs and nothing is pending |
| PcieTransfer.ReachOf32Bits | tools/qemu/hw/ldd/pcie.c:151-155 | the check admits everything with dma64, and otherwise exactly what ends below 4 GiB or wraps 2^64 |
| PcieTransfer.WrapEscapesCheck | tools/qemu/hw/ldd/pcie.c:151-155 | a segment past 4 GiB that the check admits |
| PcieTransfer.FirstBad | tools/qemu/hw/ldd/pcie.c:187-198 | the first descriptor that is empty, too long or has flags |
| PcieTransfer.RefusalExact | tools/qemu/hw/ldd/pcie.c:162-204 | which of the codes 1 to 5 a transfer is refused with, and for which descriptor, exactly and in the order of the checks; accepted exactly if none applies |
| PcieTransfer.LowByteBits | tools/qemu/hw/ldd/pcie.c:388-389 | the byte that data is XORed with is bit for bit the low byte of the register |
| PcieTransfer.GuestMemory.Fetch | tools/qemu/hw/ldd/pcie.c:180-185 | the table is read whole or not at all |
| PcieTransfer.DmaRead | tools/qemu/hw/ldd/pcie.c:222-223 | a segment from RAM; a fault may tear that segment only |
| PcieTransfer.DmaWrite | tools/qemu/hw/ldd/pcie.c:212-221 | a segment to RAM; a fault may tear that segment only |
| PcieTransfer.XorCopy | tools/qemu/hw/ldd/pcie.c:213-218 | each byte XORed |
| PcieDevice.LddPcie.CheckDescs | tools/qemu/hw/ldd/pcie.c:187-199 | finds the first bad descriptor and adds up those before it, which can never wrap 64 bits |
| PcieDevice.LddPcie.Check | tools/qemu/hw/ldd/pcie.c:172-204 | the checks in their order, made before any byte moves |
| PcieDevice.LddPcie.MoveIn | tools/qemu/hw/ldd/pcie.c:206-235 | on-board memory gets the concatenation of the segments before the first that faults; the offset stays in the memory |
| PcieDevice.LddPcie.MoveOut | tools/qemu/hw/ldd/pcie.c:206-235 | so does RAM, XORed, and nothing else in RAM changes |
| PcieDevice.LddPcie.Transfer | tools/qemu/hw/ldd/pcie.c:162-241 | codes 1 to 4 move nothing; success moves all, with XFER_BYTES the total; a fault leaves what is before ERR_DESC moved, XFER_BYTES its sum and nothing behind it touched |
| PcieDevice.LddPcie.StartTransfer | tools/qemu/hw/ldd/pcie.c:243-262 | the data is moved at once; STATUS reads as BUSY, XFER_BYTES and ERR_DESC as the transfer left them, and the result is held back until the timer |
| PcieRegs.WriteReadsBack | tools/qemu/hw/ldd/pcie.c:279-409 | what each register reads as after it was written: the value, its implemented bits, cleared bits, or what it was when the engine is busy |
| PcieRegs.WriteLeavesOthers | tools/qemu/hw/ldd/pcie.c:279-409 | a write changes what no other register reads as, but for INT_RAISE on INT_STATUS and an accepted START on STATUS, XFER_BYTES and ERR_DESC |
| PcieDevice.LddPcie.WritePlain | tools/qemu/hw/ldd/pcie.c:329-409 | other registers read as before; the engine is untouched but by a reset, and what it runs while it is busy; messages are sent for exactly what is pending |
| PcieDevice.LddPcie.WriteDmaCtrl | tools/qemu/hw/ldd/pcie.c:377-387 | a START moves data exactly when it is accepted |
| PcieDevice.LddPcie.TimerFires | tools/qemu/hw/ldd/pcie.c:264-277 | busy ends, STATUS reads as the result with the other registers kept, and exactly the event of the result is raised |
| SgLayout.PlanFits | examples/28_dma_sg/main.c:105-121 | for every address, count, position and shortfall of pages: no more pages than descriptors, and exactly as many bytes as were asked for, are left on board, fit the descriptors and are present; at least one |
| SgLayout.TableAccepted | examples/28_dma_sg/main.c:123-147 | the device accepts the table that the driver writes |
| SgLayout.RegroupedInjective | examples/28_dma_sg/main.c:123-147 | no byte of the buffer is described twice |
| SgDriver.DmaSg.FillTable | examples/28_dma_sg/main.c:139-143 | the device will fetch exactly the mapped segments |
| SgDriver.DmaSg.Run | examples/28_dma_sg/main.c:36-80 | -ETIMEDOUT, -EIO exactly for an engine error, or 0; afterwards the engine is idle and nothing is pending |
| SgDriver.DmaSg.Xfer | examples/28_dma_sg/main.c:98-161 | on-board memory or the user's pages hold exactly the bytes asked for and nothing else changed |
| SgDriver.DmaSg.ReadWrite | examples/28_dma_sg/main.c:202-229 | the return value in every case, the new file position, and what a positive return moved; the device never reports an error for what the driver asks |
| SgDriver.RoundTrip | examples/28_dma_sg/main.c:85-161 | bytes written from one layout and read into an unrelated one come back XORed, behind them what was on board before, and no other byte changes |
| SgDriver.WriteThenRead | examples/28_dma_sg/main.c:202-242 | the same for the two calls one after the other, of any two lengths |
| DmaProtocol.RunKeeps | examples/28_dma_sg/main.c:53-80 | every interleaving of driver, late handler, completion timer, delivery and timeout keeps the invariant |
| DmaProtocol.ReturnsAreHonest | examples/27_dma/main.c:81-125 | every transfer that is over has returned: -ETIMEDOUT exactly if its wait gave up, otherwise the engine finished that very transfer and 0 is returned exactly for code 0 and -EIO exactly for an error; a completion of a transfer that timed out is never taken for a later one |
| DmaProtocol.HistoryIsKept | examples/27_dma/main.c:81-125 | what the engine or the driver reported of a transfer is reported once and stays |
| DmaProtocol.DriverGoesOn | examples/28_dma_sg/main.c:53-80 | the driver, or the late handler that it waits for, can always go on |
| DmaProtocol.NeverUnmappedWhileBusy | examples/27_dma/main.c:84-109 | while the engine is busy the buffer is mapped and the driver waits for that transfer |
| DmaProtocol.StartIsAccepted | examples/28_dma_sg/main.c:53-54 | a START finds the engine idle, no stale event and no completion left over |
| DmaProtocol.NoLostCompletion | examples/28_dma_sg/main.c:163-177 | while the driver waits, a finished transfer has its completion set, a handler that will set it, or an interrupt that will start one |
| DmaProtocol.QuietAfterRemove | examples/28_dma_sg/main.c:441-461 | after remove nothing is started, nothing is pending and the line is low |
| MsiProtocol.RunKeeps | examples/26_msi_interrupt/main.c:31-77 | every interleaving of events, messages and handlers keeps the invariant, in all three modes |
| MsiProtocol.EveryRiseCounted | examples/26_msi_interrupt/main.c:31-77 | each 0 to 1 change of a status bit is counted once, or is pending, or is being counted |
| MsiProtocol.EventsAreRecorded | tools/qemu/hw/ldd/pcie.c:352-355 | whatever happens sets its bit, masked or not, and rises exactly if the bit was not set |
| MsiProtocol.ClearedIsCounted | examples/26_msi_interrupt/main.c:31-77 | a bit is cleared only by a handler that will count it |
| MsiProtocol.HandlersGoOn | examples/26_msi_interrupt/main.c:45-77 | a handler that runs, or whose message is there, can go on |
| MsiProtocol.LineFollows | tools/qemu/hw/ldd/pcie.c:120-149 | the INTx line is asserted exactly while an event is set and unmasked |
| MsiProtocol.NoEventForgotten | examples/26_msi_interrupt/main.c:64-77 | from the end of probe to remove, a set bit, also one that rose after the handler read, has its message on the way, the line asserted or a handler that will clear it; if no handler runs, one can start |
| MsiProtocol.VectorsDoNotCoalesce | examples/26_msi_interrupt/main.c:45-52 | an MSI-X message is never lost to one waiting for the same vector |
| Pipe.PipeDev.ReadLocked | examples/09_pipe_advanced_sleep/fops.c:79-109 | returns the next unread bytes, empties the buffer with the last of them, and wakes the writers exactly then |
| Pipe.PipeDev.WriteLocked | examples/09_pipe_advanced_sleep/fops.c:147-173 | fills the empty buffer and wakes the readers if it took anything; a fault leaves it empty |
| Pipe.RunKeeps | examples/09_pipe_advanced_sleep/fops.c:32-174 | every interleaving of any number of readers and writers keeps the invariant |
| Pipe.NoLostWakeUp | examples/09_pipe_advanced_sleep/fops.c:43-77 | a thread sleeps only while it must wait, or with its waker between the store and the wake |
| Pipe.NeverBothAsleep | examples/09_pipe_advanced_sleep/fops.c:43-77 | a reader and a writer are never both asleep without a waker |
| Pipe.StreamPreserved | examples/09_pipe_advanced_sleep/fops.c:79-174 | the bytes accepted are those returned followed by those in the buffer |
| Pipe.WritesFindRoom | examples/09_pipe_advanced_sleep/fops.c:120-147 | one thread at a time is under the mutex; a write copies into an empty buffer only, a read out of a non-empty one |
| Pipe.CallsAreAnswered | examples/09_pipe_advanced_sleep/fops.c:40-77 | a call with O_NONBLOCK never waits, -EAGAIN is returned to such calls alone, and -ERESTARTSYS only with a signal pending |
| Pipe.AnswersAreExplained | examples/09_pipe_advanced_sleep/fops.c:32-174 | the step in which a call gets its answer has the reason for it: it had to wait and may not block, a signal is pending, the copy faulted and moved nothing, or exactly these bytes were read or written |
| Pipe.BlockingDecides | examples/09_pipe_advanced_sleep/fops.c:43-52 | a call that has to wait goes to sleep if it may block and returns at once if not, and drops the mutex either way |
| Pipe.PerformTake | examples/09_pipe_advanced_sleep/fops.c:79-109 | the copy of a reading step is ReadLocked() |
| Pipe.PerformPut | examples/09_pipe_advanced_sleep/fops.c:147-173 | the copy of a writing step is WriteLocked() |
| Pipe.NobodyIsStuck | examples/09_pipe_advanced_sleep/fops.c:32-174 | a call waits only asleep, or for a mutex whose holder can go on |
| Block.WalkSplit | examples/29_block_device/main.c:63-69 | walking two lists of segments as one is walking the first and then the second behind it |
| Block.StatusExact | examples/29_block_device/main.c:40-71 | a walk of whole sectors succeeds exactly when it has no segment or its last byte is on the disk |
| Block.FirstPastIsFirst | examples/29_block_device/main.c:46-47 | FirstPast() is the first segment that ends past the disk, from lengths alone |
| Block.WalkEnds | examples/29_block_device/main.c:56-71 | a walk copies exactly the segments before that one, succeeds exactly when there is none, and ends at its sector |
| Block.CopiesArePrefix | examples/29_block_device/main.c:56-71 | a walk that fails has copied exactly what the walk of the segments before copies |
| Block.OneLoopIsFull | examples/29_block_device/main.c:78-84 | with one loop over all segments, as the comment has it, simple and full make the same copies in the same order and agree on failure, also past the end |
| Block.OneLoopStatusesAgree | examples/29_block_device/main.c:78-84 | with one loop the statuses agree, except for a read or write whose bios all lack segments |
| Block.AloneIsFull | examples/29_block_device/main.c:157-166 | each bio on its own makes the copies that full makes |
| NestedLoops.NestedWalk | examples/29_block_device/main.c:98-104 | where simple is after each bio and whether its last segment was transferred, from lengths alone |
| NestedLoops.FullWalk | examples/29_block_device/main.c:122-142 | where full stops, from lengths alone |
| NestedLoops.TwoLoopsExact | examples/29_block_device/main.c:85-142 | simple makes the copies of full and agrees on failure exactly when no bio behind the segment past the disk starts with one that fits in its place; always for a request that fits |
| NestedLoops.TwoLoopsDiverge | examples/29_block_device/main.c:85-142 | a request that full fails and simple completes with success, writing the second bio in the first one's place |
| NestedLoops.StatusesAgree | examples/29_block_device/main.c:85-142 | the two report the same status exactly unless no bio has segments, or one is past the disk and the last one with segments fits where simple is by then |
| NestedLoops.NoSegmentsDiverge | examples/29_block_device/main.c:93-142 | a read without segments, unsupported for simple and successful for full |
| BlockBytes.WriteIsFlat | examples/29_block_device/main.c:40-71 | a write is one splice of the segments' bytes at 512 * sector; no other byte of the disk changes |
| BlockBytes.ReadIsFlat | examples/29_block_device/main.c:40-71 | a read fills the segments, in order, from 512 * sector |
| BlockBytes.ReadReturns | examples/29_block_device/main.c:40-71 | byte i of pages that do not overlap is byte i behind 512 * sector |
| BlockBytes.RoundTrip | examples/29_block_device/main.c:40-71 | what one request wrote another returns, through any other segments |
| BlockBytes.ThreeModes | examples/29_block_device/main.c:85-166 | simple, full and bio by bio leave the same disk and the same pages, also past the end, if no late bio fits |
| BlockBytes.SameDiskExact | examples/29_block_device/main.c:85-142 | a write in simple mode leaves the disk that full leaves, whatever pages and disk held, exactly when no late bio fits |
| BlockBytes.OneLoopSameBytes | examples/29_block_device/main.c:78-84 | with one loop simple leaves the bytes of full in any case |
| MemDisk.Disk.Transfer | examples/29_block_device/main.c:40-53 | one segment is copied, or refused untouched when it ends past the disk, with the 64-bit arithmetic of the code |
| MemDisk.Disk.ForEachSegment | examples/29_block_device/main.c:63-70 | the loop over segments makes the copies of the walk and ends at its sector |
| MemDisk.Disk.XferBio | examples/29_block_device/main.c:56-71 | a bio is such a walk |
| MemDisk.Disk.QueueRqSimple | examples/29_block_device/main.c:85-113 | status and contents of simple mode, with the break leaving the inner loop; unsupported operations untouched |
| MemDisk.Disk.QueueRqOneLoop | examples/29_block_device/main.c:78-84 | status and contents of simple mode as its comment describes it |
| MemDisk.Disk.QueueRqFull | examples/29_block_device/main.c:122-142 | status and contents of full mode |
| MemDisk.SimpleAgainstFull | examples/29_block_device/main.c:85-142 | the same request on two equal disks: the same status and contents, each under its exact condition |
| MemDisk.Disk.SubmitBio | examples/29_block_device/main.c:157-166 | status and contents of one bio in mode 2 |
| MemDisk.Disk.SubmitAll | examples/29_block_device/main.c:157-166 | statuses and contents after all bios of a request in mode 2 |
| LddIo.PulsesAreRises | tools/qemu/hw/ldd/io.c:234-248 | the pulses since reset are, modulo 2^32, the times RX_READY && IRQ_EN became true, over every sequence of changes |
| LddIo.EveryByteAcked | tools/qemu/hw/ldd/io.c:241-271 | the bytes that entered are those acknowledged followed by the one in the buffer |
| LddIo.DataIsLast | tools/qemu/hw/ldd/io.c:241-248 | DATA reads as the byte that entered last, and as 0 before the first |
| LddIo.KeyboardBytesOnly | tools/qemu/hw/ldd/io.c:250-271 | with loopback off those are the keyboard's bytes, in order |
| LddIo.Device.Promises | tools/qemu/hw/ldd/io.c:234-388 | all three of the device at any time, down to the bytes the host still holds |
| LddIo.Device.ReceiveByte | tools/qemu/hw/ldd/io.c:241-248 | a byte enters the empty buffer, with a pulse when interrupts are enabled |
| LddIo.Device.AcceptInput | tools/qemu/hw/ldd/io.c:250-271 | the backend delivers at most one byte, and only into an empty buffer with loopback off |
| LddIo.Device.WriteData | tools/qemu/hw/ldd/io.c:342-348 | the byte is latched, and received when looped back into an empty buffer |
| LddIo.Device.WriteStatus | tools/qemu/hw/ldd/io.c:349-360 | acknowledges a waiting byte, which may pull in the next at once |
| LddIo.Device.WriteCtrl | tools/qemu/hw/ldd/io.c:361-380 | sets the two bits, pulses by rule 2, and lets held-back input in when loopback ends |
| LddIo.Device.Reset | tools/qemu/hw/ldd/io.c:401-419 | starts a new count with interrupts and loopback off; input the host holds comes in after it |
| LddIo.Device.ReadStatus | tools/qemu/hw/ldd/io.c:318-319 | reads RX_READY |
| LddIo.DataTake | examples/17_short_mmio/main.c:72-84 | whatever the host does between the accesses, the bytes stored are exactly those acknowledged, and fewer than asked only if none was ready |
| Tty.WriteInTwo | examples/31_tty/main.c:98-125 | two writes print the lines and leave the buffer of one write of both, wherever the input is cut |
| Tty.LinesOfInput | examples/31_tty/main.c:98-125 | the lines of any input are its pieces between CR and LF, empty ones left out, each cut after 80 characters with a backslash; what is behind the last line end is still collected |
| Tty.PiecesAreInput | examples/31_tty/main.c:109-121 | the pieces are free of line ends, and with their line ends they are the whole input |
| Tty.FullLineIsMarked | examples/31_tty/main.c:103-107 | the last line of a piece has a backslash exactly if the length of the piece is a multiple of 80 |
| Tty.OpenWriteClose | examples/31_tty/main.c:33-125 | the log of a port that is opened, written in any pieces and closed |
| Tty.NewlineAfterReturn | examples/31_tty/main.c:110-114 | skipping the LF behind a CR changes nothing, so a split CR LF does not either |
| Tty.ContentKept | examples/31_tty/main.c:98-125 | the lines without the added backslashes, and the buffer, are the input without CR and LF; at most 80 characters are buffered between characters |
| Tty.PrintedIsInput | examples/31_tty/main.c:33-41 | after the last flush, what %s printed is the whole input exactly when it has no NUL |
| Tty.NulHides | examples/31_tty/main.c:33-41 | an input whose end is not printed |
| Tty.Port.Flush | examples/31_tty/main.c:33-41 | a non-empty buffer is printed up to its first NUL and emptied |
| Tty.Port.Turn | examples/31_tty/main.c:103-122 | one turn of the loop is one character, or a CR and its LF |
| Tty.Port.Printk | examples/31_tty/main.c:98-125 | a write is the characters one by one, and takes all of them |
| Tty.Port.Shutdown | examples/31_tty/main.c:57-68 | the last close prints what is left |
| Tty.Port.WriteRoom | examples/31_tty/main.c:144-154 | at least a page less 80 characters is always free |
| AsyncRing.Ring.DoRead | examples/25_async_io/main.c:26-49 | removes exactly the bytes returned from the front of the queue; a fault or a signal removes none |
| AsyncRing.Ring.DoWrite | examples/25_async_io/main.c:52-81 | appends exactly the bytes taken; full, faulting or interrupted, none; write_cur stays (read_cur + len) modulo the size |
| AsyncRing.TwoReads | examples/25_async_io/main.c:26-49 | two full-length reads with nothing between drain the ring |
| AsyncRing.TwoWrites | examples/25_async_io/main.c:52-81 | two writes store everything that fits |
| AsyncRing.InOrderOut | examples/25_async_io/main.c:26-81 | over any sequence of calls and short copies, the bytes taken and those left are the bytes stored, in order |
| AsyncRing.Serve | examples/25_async_io/main.c:26-81 | the ring in its array does this, and answers each call as the queue does |
| AsyncRing.Taken | examples/25_async_io/main.c:34-44 | the cells from read_cur on are the front of the queue, and moving read_cur over them drops it |
| AsyncRing.Added | examples/25_async_io/main.c:66-76 | the cells behind write_cur are free: what a short copy leaves there beyond the bytes counted is not in the queue |
| AsyncCompletion.RunKeeps | examples/25_async_io/main.c:97-146 | over every order of submissions and completions each request has one result in one place |
| AsyncCompletion.CodesTellApart | examples/25_async_io/main.c:26-81 | bytes and errors can be told apart, and the errors from each other |
| AsyncCompletion.OneResultEach | examples/25_async_io/main.c:97-146 | no request ever gets two results, and once the workqueue is empty each has got what the ring answered to it when it was submitted; from the call exactly if it was synchronous, failed or had no memory, and from ki_complete() otherwise |
| Llist.RunKeeps | examples/ds/llist/main.c:42-127 | any number of producers, each push a compare-and-exchange that stores a pointer to the head it saw and may have to retry, and the consumer that follows the pointers, in any interleaving, keep the invariant |
| Llist.NeverFreedTwice | examples/ds/llist/main.c:42-52 | no item is freed twice, or without having been pushed |
| Llist.NeverUsedAfterFree | examples/ds/llist/main.c:42-52 | the consumer never follows the pointer of an item that it has freed |
| Llist.BatchIsNewestFirst | examples/ds/llist/main.c:54-73 | the pointers lead through exactly what was pushed, each producer's items newest first |
| Llist.DrainIsComplete | examples/ds/llist/main.c:114-127 | when the loop ends all producers have left, every item pushed has been freed once, got is their number, and the non-empty batches are the pushes that found the list empty |
| Llist.FinalCheck | examples/ds/llist/main.c:140-147 | the check passes exactly when every producer pushed all its items, as each does that finds memory |
| Llist.NobodyIsStuck | examples/ds/llist/main.c:54-127 | until the loop has ended the consumer can go on, and so can every producer that has not left |

## Left out

- Block.OneLoopIsFull: about simple mode as its comment describes it, in one loop; what the nested loops do is `NestedLoops.TwoLoopsExact`.
- Block.OneLoopStatusesAgree: likewise; for the nested loops it is `NestedLoops.StatusesAgree`.
- BlockBytes.OneLoopSameBytes: likewise; for the nested loops it is `BlockBytes.ThreeModes` and `BlockBytes.SameDiskExact`.
- MemDisk.Disk.QueueRqOneLoop: likewise; the nested loops are `MemDisk.Disk.QueueRqSimple`.
- SgDriver.DmaSg.Run: takes whether the wait times out as a parameter; how that comes about, with late handlers and completions, is in `DmaProtocol`.
- SgDriver.DmaSg.Xfer: takes the outcome of the mapping calls and of the wait as parameters.
- SnullHeap.Follow: follows the lists and `running`; the other fields of struct ldd_dev are in `Snull` only.
- AsyncRing.Serve: takes the calls one after another, which is what the mutex makes of them.
- LddIo.Device.Reset: does not model the LED matrix, its little-endian accesses of different widths, or the panel.
- Llist.RunKeeps: an address that is reused after kfree() is a new item.
- Fairness: the `...GoesOn` and `NobodyIsStuck` lemmas say that a thread can take a step, not that the scheduler lets it.
- The data path of 27_dma: the transfer of one descriptor is the special case of 28_dma_sg, and its bounce buffer adds only copies; its waiting is in `DmaProtocol`.
- Block walks with sectors and lengths beyond 64 bits: the shift and the sum of the code are in `MemDisk.Disk.Transfer`, for offsets that fit 63 bits.
- Little-endian encoding of descriptors, BAR2 accesses by the guest while a transfer runs, migration, logging, and the registers of ldd-pcie that never change.
- The contents of skbs, the checksum and address rewriting in ldd_rx(), statistics and the transmit timeout of 30_netdev.
- The IOMMU, cache maintenance and memory ordering weaker than sequential consistency.
- The tty's timer input, termios, modem lines and proc file.
- Module loading, device registration and the unwinding of a failed probe, of every example.
- The remaining examples: wrappers of one kernel service, or repetitions of a protocol modelled here (08, 13, 14, 15, 16, 18 to 24).
