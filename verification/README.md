# A verified model of the AXI DMA channel and its proxy client

This Dafny project models one channel of the AXI DMA engine driver (`vxdma/vxdma.c`): its pool of
255 hardware segments, linked once into a ring; the first-in first-out free list; the pending,
active and done lists; the pending count, the flags, the control register and the cookies. On top
of it stands the waiting client of `vdmaproxy/dma_proxy.c`.

Two layers describe the driver:

- `ChannelState.dfy` gives the channel as a value and each operation as a function on it. `Driver.dfy`
  (class `Channel`) and `ProxyDriver.dfy` (class `ProxyChannel`) perform the same operations the way
  the C code does, updating fields and segment memory in place with its loops and early exits; every
  method is proved to compute its function. `Tasklet.dfy` (class `Machine`) carries out any step of a
  run by these operations, and the cleanup loop with anything at all happening while its lock is
  released, and proves that both are runs.
- `Runs.dfy` interleaves the operations. A run is any finite sequence of steps: preparing, submitting
  any prepared descriptor, issuing, interrupts with any status word, cleanup in its separate steps
  (unlink and release the lock, make the callback, free; or for a cyclic descriptor release, call,
  return), termination, and hardware writes. "In every run" below means for every such sequence.
  Histories are counted from the last terminate, so a run without terminate is covered whole;
  callbacks and completions are also recorded over the whole run.

What the proofs add up to:

- **Every run.** Each segment is in exactly one place. Consecutive queued descriptors are linked,
  free segments are clean, an idle channel has nothing active. The three lists are one queue. Finite
  descriptors are called back once, in submission order; a completed cyclic one is called back on
  every pass, after everything older, and never touched after its callback. A cookie, of whatever
  has become of its descriptor, reads complete exactly when an interrupt has completed a finite one as
  young; at most one cyclic descriptor is queued, last. Every owned segment keeps the address and
  control word it was prepared with.
- **Registers and flags.** For every state and every answer of the hardware, `Effects.dfy` says bit by
  bit what each operation writes; over runs, `Ledger.dfy` says what the control register holds, which
  steps write the others, and when the channel is in error.
- **The ring.** Segments inside a descriptor are never relinked, so the engine's walk depends on pool
  order staying a rotation of the ring. `Ring.RingNext` says exactly which steps keep it, and
  `Ring.OnlyDisciplinedRunsStayOnTheRing` that no weaker discipline would do. On the ring the engine
  visits exactly the batch (`Walk.EngineVisitsTheBatch`) and moves exactly the bytes that were asked
  for (`Contents.EngineMovesWhatWasAsked`), and each batch starts where the last one's
  tail links to, however long ago that was freed (`Batches.NextBatchContinues`); off it, three short
  runs end with a started transfer that is walked wrongly (`Sketches.UndisciplinedRunsMislead`).
- **Where the code falls short**, as an exact condition and a run that meets it:

| what | exactly when | run |
|---|---|---|
| the assertion in `append_desc_queue` fires | `Delivery.BugExactly` | `Hazards.AssertionFires` |
| a started batch can never complete | `Progress.BatchCompletesExactly` | `Hazards.StaleCountReachable`, `Hazards.LostBatchReachable` |
| a busy channel has nothing active and never starts again | `Progress.BusyIsActiveNext` | `Sketches.TerminatedBusyReachable` |
| a status query reads a descriptor that is not there | `Delivery.QueryExact`, `Proxy.WaitStraysExactly` | `Sketches.StatusWithoutActive`, `Sketches.CyclicQueryStrays`, `ProxyHazards.FailedStartStrays` |
| an engine without scatter-gather transfers a batch only in part | `SimpleMode.SimpleStartExact` | `SimpleMode.SecondTransferForgotten` |
| a batch transferred only in part is reported as complete | `Progress.PrematureExactly`, `Progress.BatchFinishesExactly` | `LongTransfers.LongTransferLies` |
| the residue reported is another transfer's | `Progress.ResidueOwnerExactly` | `Hazards.ResidueOfAnother` |
| a proxy request is told of an error although its transfer is sound | `Requests.ReportsExactly` | `ProxyHazards.StaleCallbackMisreports`, `ProxyHazards.LateCallbackMisreports` |
| a proxy request that never started shows the previous one's success | `Requests.StartFailsExactly` | `ProxyHazards.OldSuccessShown` |
| the engine runs a finite batch in cyclic mode, or a cyclic one out of it | `CyclicMode.StartRunsExactly` | `CyclicMode.FiniteBatchInCyclicMode`, `CyclicMode.CyclicBatchInFiniteMode` |
| a terminated cookie reads as complete | `Sequel.TerminatedReadsComplete` | `Sequel.TerminatedCookieLies` |

Conventions. Words are natural numbers with C's bitwise operators written out in `Bits.dfy`; the 32-bit
subtraction and sum in the residue loop and the 32-bit buffer address are reduced modulo 2^32
explicitly. The 32-bit address branch is modelled, and the coherent array is assumed not to wrap.
Hardware answers are parameters: whether the engine starts or halts in time, the control register when
reset polling ends, the status word of an interrupt, whether descriptor memory is available. The cookie
helpers of the kernel are a counter and a last-completed value; their header is not part of this model.
After the assertion fires nothing more happens on the channel; after the proxy's driver has read a
descriptor or segment that is not there, nothing more is claimed of the proxy. The methods that can get
there return a flag `wild` saying exactly when, with what has changed by then.

Where comment and code differ the code is followed: the comment above `xilinx_dma_prep_dma_cyclic`
(vxdma/vxdma.c:904-911) describes a scatter list, the code takes a buffer and a period; the comment above
`xilinx_dma_tx_status` (vxdma/vxdma.c:404-411) speaks of the cookie's status, but the residue is always
that of the last active descriptor.

## Model

| member | source | states |
|---|---|---|
| `Driver.Channel.constructor` | vxdma/vxdma.c:256-278 | the allocation loop links segment i to i + 1 modulo 255, frees all segments in order, resets the cookies and sets bits 12 to 14, and no other, in the control register and the driver's copy of it |
| `Driver.Channel.AllocTxSegment` | vxdma/vxdma.c:145-161 | takes the head of the free list, or nothing when it is empty |
| `Driver.Channel.FreeTxSegment` | vxdma/vxdma.c:167-189 | zeroes every word of a segment but its link and puts it at the free list's tail |
| `Driver.Channel.FreeTxDescriptor` | vxdma/vxdma.c:216-231 | a descriptor's segments come back clean, in order |
| `Driver.Channel.FreeDescriptors` | vxdma/vxdma.c:288-314 | pending, done and active lists are freed in that order and emptied |
| `Driver.Channel.FillRange` | vxdma/vxdma.c:838-880 | the inner splitting loop takes and fills one segment per piece, and stops only when the pool is empty |
| `Driver.Channel.PrepSlaveSg` | vxdma/vxdma.c:809-902 | computes the preparation function, the error exit included: a failed preparation leaves the whole state as it was; goes wild exactly on a list without a byte |
| `Driver.Channel.PrepDmaCyclic` | vxdma/vxdma.c:912-1001 | the same for one range per period, and cyclic mode enabled on success; goes wild exactly on a zero period or a buffer shorter than one |
| `Driver.Channel.AppendDescQueue` | vxdma/vxdma.c:720-752 | links the old tail, queues, counts, and raises the assertion past 255 |
| `Driver.Channel.TxSubmit` | vxdma/vxdma.c:760-796 | refuses and frees while cyclic, resets after an error, which leaves in the control register what polling ended on, otherwise assigns a cookie and queues |
| `Driver.Channel.StartTransfer` | vxdma/vxdma.c:500-585 | writes the run bit and the pending count to the control register, programs the addresses and moves the whole pending list; a start that fails moves nothing |
| `Driver.Channel.CompleteDescriptor` | vxdma/vxdma.c:606-619 | the draining loop moves the active list behind the done list and completes the last finite cookie |
| `Driver.Channel.IrqHandler` | vxdma/vxdma.c:660-703 | error, completion and next start as the status word says; handled exactly if bit 12, 13 or 14 is set, and acknowledged with those of them that are |
| `Tasklet.Machine.DescCleanup` | vxdma/vxdma.c:365-402 | the cleanup loop, with any steps of clients, interrupt and hardware between releasing the lock and each callback, finite or cyclic, and between the callback and taking the lock again, computes one pass |
| `Tasklet.CleanupIsARun` | vxdma/vxdma.c:365-402 | such a pass, whatever happens in its windows, is a run of the channel, so all that holds in every run holds of it |
| `Tasklet.CleanupRunEnds` | vxdma/vxdma.c:372-402 | it ends with nothing done, or at a cyclic descriptor after calling it back, unless the assertion fired in a window |
| `Tasklet.CleanupAlone` | vxdma/vxdma.c:365-402 | with nothing in the windows it frees the descriptors before a cyclic one, in order, and makes exactly their callbacks and then its |
| `Tasklet.Machine.Do` | vxdma/vxdma.c:145-1025 | every step of a run is carried out in place by the driver's own operations |
| `Driver.Channel.TerminateAll` | vxdma/vxdma.c:1009-1025 | halts, frees all lists and leaves cyclic mode; an error stays, and a halt that fails is one |
| `Driver.Channel.TxStatus` | vxdma/vxdma.c:412-445 | completion, else the 32-bit residue loop over the last active descriptor for a caller that passes a state; goes wild exactly when there is no such descriptor on a scatter-gather channel |
| `Effects.AllocationExact` | vxdma/vxdma.c:235-281 | allocation gives 255 segments of 128 bytes, all zero but for their links, each linked to the next modulo 255, free in order; the first cookie will be 2; bits 12 to 14 are set in the control register |
| `Effects.FreeExactly` | vxdma/vxdma.c:167-189 | freed segments go to the free list's end with every word but the link zero, and nothing else changes |
| `Effects.StartExactly` | vxdma/vxdma.c:456-585 | from any state: what a start writes to each of the five registers, bit by bit for the control register, and which fields change, whether the engine runs or not |
| `Effects.InterruptExactly` | vxdma/vxdma.c:660-703 | from any state, what bits 12 and 14 do; without bits 12 to 14 nothing changes |
| `Effects.SubmissionExactly` | vxdma/vxdma.c:622-796 | from any state: what a refused, a failed and an accepted submission change, reset included |
| `Effects.TerminationExactly` | vxdma/vxdma.c:1009-1025 | from any state: termination keeps an error and raises one if the halt fails, clears the run bit and that of cyclic mode, blanks the segments it frees, and leaves the count, the busy flag, the cookies and the address registers alone |
| `Ledger.ControlNext` | vxdma/vxdma.c:527-531 | exactly which steps write the control register, and each bit they write: a start sets bit 0 and the coalesce field to the descriptors pending and uncounted, a cyclic preparation bit 4, a terminate clears them, a reset leaves what it leaves; no other step changes it |
| `Ledger.RegisterInEveryRun` | vxdma/vxdma.c:627-640 | in every run from allocation the register equals the driver's copy, or what the last reset left there if nothing has written it since |
| `Ledger.AddressesNext` | vxdma/vxdma.c:534-579 | exactly which steps write CURDESC, TAILDESC and the transfer registers, and what |
| `Ledger.ErrInEveryRun` | vxdma/vxdma.c:456-495 | in every run the channel is in error exactly when an error interrupt, a failed start or a failed halt has raised the flag and no submission has reset the engine successfully since |
| `Ledger.ErrorLasts` | vxdma/vxdma.c:500-505 | until such a reset, terminates or not, an error lasts and no start is attempted |
| `Ledger.LostNext` | vxdma/vxdma.c:773-781 | exactly when a batch in progress is lost: when a submission has reset the engine, or tried to, since its start |
| `Registers.SetCoalesceExact` | vxdma/vxdma.c:527-531 | the coalesce field becomes the count and no other bit changes |
| `Registers.ControlWordExact` | vxdma/vxdma.c:865-894 | the length is recoverable from the control word and the two packet flags are there exactly when asked for |
| `Registers.StatusBits` | vxdma/vxdma.h:43-46 | the three tests of the status word are those of bit 12, of bit 14, and of any of bits 12 to 14 |
| `Splitting.PiecesExact` | vxdma/vxdma.c:839-873 | piece k of an entry starts at k times 8388607 and all but the last are exactly that long |
| `Splitting.SplitTiles` | vxdma/vxdma.c:835-881 | the segments of a scatter list transfer its bytes, each once and in order, with lengths from 1 to 8388607 and the rounded-up count |
| `Splitting.CyclicTiles` | vxdma/vxdma.c:942-977 | cyclic segments cover exactly the whole periods, the same number for each |
| `Splitting.PeriodBoundary` | vxdma/vxdma.c:942-977 | every period starts a segment |
| `Preparation.SgAllOrNothing` | vxdma/vxdma.c:835-902 | preparation succeeds exactly when the segments fit the free list; segment memory then describes exactly the scatter list's bytes with flags on first and last; nothing but those words and the free list changes, and otherwise nothing at all |
| `Preparation.CyclicAllOrNothing` | vxdma/vxdma.c:924-1001 | the same for the whole periods of a cyclic buffer, with the flags on first and last, and only the cyclic bit added to the control register and the driver's copy of it |
| `Preparation.FreshResidue` | vxdma/vxdma.c:432-438 | the residue of a freshly prepared descriptor is the byte count that was requested |
| `Pool.ConservedNext` | vxdma/vxdma.c:216-231 | every step rearranges the pool: no segment is lost or duplicated |
| `Pool.ExactlyOnePlace` | vxdma/vxdma.c:145-231 | each segment is in exactly one of held, done, active, pending, prepared and free, once |
| `Runs.SubmitOrder` | vxdma/vxdma.c:768-796 | where a submission's segments go: behind the pending ones, to the pool's tail when refused, nowhere when the reset fails |
| `Runs.TerminateOrder` | vxdma/vxdma.c:303-314 | termination returns every queued segment, pending first, then done and active |
| `Memory.MemoryInEveryRun` | vxdma/vxdma.c:726-745 | in every run: conservation, batch links, bus addresses, free segments that are zero but for their link, idle implies nothing active |
| `Ring.SwapBlocks` | vxdma/vxdma.c:256-272 | exchanging two adjacent blocks leaves a rotation of the ring exactly when one of the three blocks is empty |
| `Ring.TerminateRing` | vxdma/vxdma.c:1009-1025 | termination keeps the rotation exactly when at most two of held, done with active, pending, prepared with free are non-empty |
| `Ring.AcceptedRing` | vxdma/vxdma.c:785-788 | an accepted submission keeps the rotation exactly when it is the oldest prepared, or nothing else is in the pool but older prepared ones |
| `Ring.BusyRing` | vxdma/vxdma.c:768-771 | a refused submission keeps the rotation exactly when its segments were at one end of the pool order |
| `Ring.AppendKeepsLinks` | vxdma/vxdma.c:733-737 | in preparation order, linking the tail stores the value already there |
| `Ring.RingNext` | vxdma/vxdma.c:151-272 | exactly the steps that meet these conditions keep the ring and its links |
| `Ring.OnlyDisciplinedRunsStayOnTheRing` | vxdma/vxdma.c:151-272 | a run stays on the ring throughout exactly when every step of it meets its condition |
| `Walk.WalkInEveryRun` | vxdma/vxdma.c:520-559 | in every run the engine visits a queued batch correctly exactly when each of its descriptors is chained inside |
| `Walk.EngineVisitsTheBatch` | vxdma/vxdma.c:534-582 | in disciplined runs, from the address written to CURDESC the links lead to that written to TAILDESC through exactly the active segments, in order, once each |
| `Batches.PlaceNext` | vxdma/vxdma.c:151-231 | exactly the steps after which the segment last written to TAILDESC still links to what is pending or prepared or allocated next: accepted submissions strictly oldest first, no refusal that leaves others waiting, no terminate that puts other segments last |
| `Batches.NextBatchContinues` | vxdma/vxdma.c:520-541 | between two starts of such a run, the second writes to CURDESC the link of the segment the first wrote to TAILDESC, whether that start is made by an issue or by the interrupt that completes the batch before, and whatever has become of that batch |
| `SimpleMode.SimpleStartExact` | vxdma/vxdma.c:561-582 | in every run without scatter-gather the programmed address and length cover the batch exactly when it is one segment |
| `SimpleMode.FirstPieceInEveryRun` | vxdma/vxdma.c:561-579 | and for as long as a batch is active the programmed transfer is the first piece of what its clients asked for, and all of it exactly when there is one piece |
| `SimpleMode.SecondTransferForgotten` | vxdma/vxdma.c:561-582 | two requests issued together end with both active and only the first programmed |
| `Contents.CarriesInEveryRun` | vxdma/vxdma.c:857-880 | in every run, from its preparation until it is freed each descriptor's segments hold the addresses, lengths and packet flags its client asked for, whatever else is prepared, linked, started, completed or written back |
| `Contents.PristineInEveryRun` | vxdma/vxdma.c:838-880 | in every run, until it is started each descriptor's segments carry no report, and the application words its client gave, or five zeros |
| `Contents.EngineMovesWhatWasAsked` | vxdma/vxdma.c:520-559 | in disciplined runs the walk the engine is started on transfers exactly the ranges that the clients of the active batch asked for, concatenated in submission order, byte by byte when they lie in the address space |
| `Queues.ChannelInEveryRun` | vxdma/vxdma.c:365-402 | in every run: the lists are one queue, the count is the pending list plus what terminate left counted, cookies are ordered, a cyclic descriptor is last; the completed cookie never decreases |
| `Queues.StartField` | vxdma/vxdma.c:527-532 | the coalesce field a start programs is the pending count |
| `Queues.CompletedByBounds` | vxdma/vxdma.c:613-618 | completing an ordered list reaches each finite cookie in it and none beyond |
| `Delivery.CallbacksInOrder` | vxdma/vxdma.c:344-398 | in every run, since the last terminate, the callbacks made are first those of the finite descriptors released or held, once each, save a held one's that is still due, in submission order, then only those of a cyclic descriptor left alone on the channel; and over the whole run, terminates included, they come in cookie order, only a cyclic descriptor's more than once |
| `Callbacks.CyclicCallbackWindow` | vxdma/vxdma.c:344-358 | whatever happens between releasing the lock for a cyclic descriptor's callback and its return, at most that call is made, its return changes nothing on the channel, and the descriptor is still the only one done exactly when no terminate intervened; if one did, the pool is conserved all the same |
| `Delivery.CookieExact` | vxdma/vxdma.c:424-426 | a cookie reads complete exactly when its descriptor is finite and has left the active list |
| `Delivery.QueryExact` | vxdma/vxdma.c:424-437 | a status query is safe exactly without scatter-gather, with something active, or for a completed finite descriptor |
| `Sequel.QueryAnyCookie` | vxdma/vxdma.c:424-437 | in every run, terminates included, for any cookie: it reads complete exactly when an interrupt has completed a finite descriptor as young, or it has not been given out, and a query for it is safe exactly then, without scatter-gather, or with something active |
| `Delivery.BugExactly` | vxdma/vxdma.c:744-751 | the assertion fires exactly on an accepted submission when pending and uncounted descriptors number 255 |
| `Delivery.NoBugWithoutStaleCounts` | vxdma/vxdma.c:744-751 | it is unreachable, and the count is the pending length, in runs whose terminates found nothing pending |
| `Delivery.NoBugWithoutTerminate` | vxdma/vxdma.c:744-751 | so it is in runs without terminate |
| `Hazards.AssertionFires` | vxdma/vxdma.c:303-314 | 255 rounds of prepare, submit, terminate and one more submission fire it, with nothing pending before |
| `Progress.StartExact` | vxdma/vxdma.c:527-584 | a start finds the active list empty and writes to the control register the count of descriptors moved plus the uncounted ones, changing no other bit of it but the run bit |
| `Progress.OnlyFinishedDescriptorsComplete` | vxdma/vxdma.c:606-619 | with scatter-gather, if the interrupt comes only after as many descriptors as programmed, no unfinished descriptor is ever completed |
| `Progress.PrematureExactly` | vxdma/vxdma.c:561-619 | an interrupt of an engine that has finished what it was given completes a transfer it was not given exactly when, without scatter-gather, the batch is not a single segment |
| `Progress.BatchCompletesExactly` | vxdma/vxdma.c:527-532 | an honest engine can complete a started batch without a terminate if and only if no submission has reset the engine since its start and, with scatter-gather, nothing was uncounted at its start |
| `Progress.BatchFinishesExactly` | vxdma/vxdma.c:527-582 | and can do so with nothing left untransferred if and only if, moreover, without scatter-gather the batch is a single segment |
| `Progress.StuckBatchHangs` | vxdma/vxdma.c:527-532 | a batch that cannot complete keeps the channel busy with it in every honest run without terminate |
| `Hazards.StaleCountReachable` | vxdma/vxdma.c:303-314 | one round of prepare, submit, terminate makes the next batch of a scatter-gather engine such a one |
| `Hazards.LostBatchReachable` | vxdma/vxdma.c:773-781 | so do an error interrupt and a submission that resets the engine |
| `Progress.TerminatedBusyNeverStarts` | vxdma/vxdma.c:1009-1025 | after terminating a busy channel nothing is started until a completion interrupt comes |
| `Progress.BusyIsActiveNext` | vxdma/vxdma.c:582-584 | busy means a batch is active, kept by every step but terminating a busy channel, which always breaks it |
| `Progress.CleanupEnds` | vxdma/vxdma.c:372-399 | an uninterrupted cleanup ends with nothing done, or with just the cyclic descriptor |
| `Progress.TwoInterruptsDrain` | vxdma/vxdma.c:691-697 | two completion interrupts with cleanups empty the three lists and return their segments oldest first |
| `Progress.ResidueExact` | vxdma/vxdma.c:428-438 | the 32-bit residue is length minus transferred, modulo 2^23 for each segment, over the last active descriptor, whatever the flags and the report, and at most 2139094785 |
| `Progress.ResidueOwnerExactly` | vxdma/vxdma.c:428-438 | that is the residue of exactly one descriptor in progress, the newest active one, and of no other cookie queried |
| `Hazards.ResidueOfAnother` | vxdma/vxdma.c:428-438 | with one byte active and two bytes pending, the residue for the pending cookie is the active one's |
| `Decisions.IrqDecides` | vxdma/vxdma.c:666-699 | what each of the error and completion bits does to flags and lists |
| `Decisions.SubmitDecides` | vxdma/vxdma.c:768-781 | when submission refuses, fails to reset, or accepts |
| `Decisions.TerminateDecides` | vxdma/vxdma.c:1014-1022 | termination clears the run bit, the cyclic bit of a cyclic channel, and no other |
| `CyclicMode.AgreesNext` | vxdma/vxdma.c:981-982 | which steps keep the register's cyclic bit and the channel's cyclic flag in agreement: all but preparing a cyclic transfer on a finite channel and accepting one prepared before |
| `CyclicMode.StartRunsExactly` | vxdma/vxdma.c:981-1022 | at every start of every run, the engine's cyclic bit is set just if the batch ends in a cyclic descriptor, exactly when the channel is marked cyclic just if a cyclic preparation has succeeded since a cyclic channel was last terminated or a reset read the register back |
| `CyclicMode.CyclicBatchInFiniteMode` | vxdma/vxdma.c:1017-1022 | two cyclic transfers prepared, one submitted and terminated, the other then started: it runs out of cyclic mode |
| `CyclicMode.FiniteBatchInCyclicMode` | vxdma/vxdma.c:1017-1022 | a cyclic preparation never submitted, and a terminate, leave a finite batch running in cyclic mode |
| `Sequel.TerminatedReadsComplete` | vxdma/vxdma.c:1017-1025 | a terminated descriptor's cookie reads as complete exactly when some finite descriptor submitted later has been completed, whatever follows, further terminates included |
| `Sequel.TerminatedCookieLies` | vxdma/vxdma.c:1017-1025 | one transfer submitted and terminated, a second completed: the first cookie reads complete |
| `Sketches.UndisciplinedRunsMislead` | vxdma/vxdma.c:720-745 | submitting out of order, a refused submission, or a terminate over three blocks leads to a started transfer that the engine walks wrongly |
| `Sketches.StatusWithoutActive` | vxdma/vxdma.c:424-429 | a cookie can be in progress with no active descriptor to read |
| `Sketches.CyclicQueryStrays` | vxdma/vxdma.c:424-429 | so is that of a cyclic transfer after its first completion interrupt |
| `Sketches.TerminatedBusyReachable` | vxdma/vxdma.c:1009-1025 | four steps lead to the busy channel with nothing active |
| `Proxy.SuccessIsOwnCompletion` | vdmaproxy/dma_proxy.c:143-158 | success is written exactly when the waiter is woken and its own descriptor has been completed, and by nothing else |
| `Proxy.StatusExactly` | vdmaproxy/dma_proxy.c:138-158 | exactly what each move does to the status word, busy, timeout, success or error, and exactly which moves lead the driver astray |
| `Proxy.WaitStraysExactly` | vdmaproxy/dma_proxy.c:147-148 | the query a wait ends with goes astray exactly when, with scatter-gather, an error has left nothing active and the request pending |
| `Proxy.FaultlessNeverStrays` | vdmaproxy/dma_proxy.c:147-148 | it never does on an engine that starts and raises no error |
| `Requests.ReportsExactly` | vdmaproxy/dma_proxy.c:124-158 | of a request about to be accepted, every woken wait reports success if and only if at submission no completion was waiting, no callback was still to be made, and nothing was done or active |
| `Proxy.ProxyReports` | vdmaproxy/dma_proxy.c:138-158 | over whole runs of the proxy on the channel, for a woken wait: success exactly if completed; always for a request submitted with nothing outstanding; and without earlier timeouts every request is one, and no completion is left over between requests |
| `Requests.HonestSuccess` | vdmaproxy/dma_proxy.c:138-158 | with scatter-gather and an engine that interrupts only for finished batches, success means the engine has transferred all of this request |
| `Requests.HonestSimpleSuccess` | vdmaproxy/dma_proxy.c:138-158 | without scatter-gather so it does as long as requests fit one segment and no wait times out |
| `Requests.ProxyKeepsRingExactly` | vdmaproxy/dma_proxy.c:104-130 | only accepting a request behind one that a failed reset has left prepared takes the proxy's channel off the ring |
| `Requests.ProxyTransfersWalked` | vdmaproxy/dma_proxy.c:104-130 | as long as its resets succeed, every transfer the proxy starts is walked exactly |
| `Buffers.ProxyMovesBuffers` | vdmaproxy/dma_proxy.c:92-133 | and what that walk moves is the requests' own buffers, one after the other, with the packet flags of their direction |
| `Buffers.SimpleProxyMovesBuffer` | vdmaproxy/dma_proxy.c:92-133 | without scatter-gather the engine is programmed with the first piece of the oldest active request's buffer, and with all that is active exactly when that is one piece |
| `Buffers.EarlierCallsForgotten` | vdmaproxy/dma_proxy.c:121-125 | callbacks that come before a request re-initialises its completion change nothing that follows |
| `Requests.StartFailsExactly` | vdmaproxy/dma_proxy.c:230-235 | whatever the engine does between its moves, a request fails to start exactly when its segments exceed the free list, or the channel is in error at its submission and the reset bit does not clear; the previous request's status then stays in place |
| `ProxyHazards.OldSuccessShown` | vdmaproxy/dma_proxy.c:230-235 | after one success, a request one byte too long never starts and still reads success |
| `Requests.UninterruptedRequest` | vdmaproxy/dma_proxy.c:92-133 | the separate moves, made without interruption, are the straight-line start of a request |
| `ProxyHazards.StaleCallbackMisreports` | vdmaproxy/dma_proxy.c:147-156 | after one timeout the next request can be told of an error while its transfer is active and sound |
| `ProxyHazards.LateCallbackMisreports` | vxdma/vxdma.c:384-391 | so it can when that timed-out descriptor has been unlinked, and its callback not yet made, as the next request is submitted with nothing done or active |
| `LongTransfers.LongTransferLies` | vdmaproxy/dma_proxy.c:104-158 | without scatter-gather every request of more than one segment that fits the pool is reported as a success, although the engine, which keeps its promise, was programmed with something else than the request |
| `ProxyHazards.FailedStartStrays` | vdmaproxy/dma_proxy.c:147-148 | if the engine does not start, the wait's query follows the empty active list |
| `ProxyDriver.ProxyChannel.StartTransfer` | vdmaproxy/dma_proxy.c:92-133 | prepares one range, re-initialises the completion, submits and issues; goes wild exactly on an empty transfer |
| `ProxyDriver.ProxyChannel.Transfer` | vdmaproxy/dma_proxy.c:194-238 | chooses the bus address, starts, and marks the interface busy only if the submission was accepted |
| `ProxyDriver.ProxyChannel.FinishWait` | vdmaproxy/dma_proxy.c:147-158 | makes the client's move of the proxy model: timeout, error or success from the completion and the cookie's status, or astray |
| `ProxyDriver.ProxyChannel.Unlink` | vxdma/vxdma.c:384-391 | unlinking the oldest done descriptor makes the engine's move of the proxy model; a callback is due exactly if it asked for one, and none is counted yet |
| `ProxyDriver.ProxyChannel.SyncCallback` | vdmaproxy/dma_proxy.c:80-86 | the callback that is due makes the engine's next move, and counts one completion |

## Left out

- `Preparation.SgAllOrNothing`: assumes, like `Preparation.CyclicAllOrNothing`, that no range runs past the 32-bit bus address space.
- `Progress.OnlyFinishedDescriptorsComplete`: the engine's own promise is a hypothesis, not a model of the hardware: that it interrupts after as many finished descriptors as its coalesce counter asks for, without scatter-gather after its one programmed transfer, and not for a batch it lost to a reset.
- `Walk.EngineVisitsTheBatch`: engines with scatter-gather; for the others see `SimpleMode.SimpleStartExact`. A cyclic descriptor's last segment is not linked back to its first by the code, so no endless walk is claimed.
- `Proxy.ProxyReports`: one client per channel and one request at a time; terminate is not called by the proxy, and its descriptor memory is always available.
- `CyclicMode.AgreesNext`: submissions that reset the engine are left out of this one-step agreement; `CyclicMode.StartRunsExactly` covers them.
- `Runs.TerminateOrder`: termination is one step. The code holds the lock only while it frees the lists (vxdma/vxdma.c:1014-1022), so a cyclic submission between that and the clearing of the flag, which would leave a cyclic descriptor on a channel not marked cyclic, is not modelled.
- Atomicity: each preparation, and the flag tests in submission, are one step; descriptors are values, so freeing their memory and use after freeing are not modelled.
- The hardware writes only to the segments of the active list, even after a halt that failed, and never to links.
- Resetting reads back the control value last written, and what the register holds when polling ends is a parameter; the hardware's own clearing of its registers is not modelled.
- Cookie wrap-around, the 64-bit address branch, and dependencies between descriptors.
- Register polling loops, reset hardware, probing, removal, device tree, character device, mmap and DMA mapping of cached buffers.
- The demo clients and the other modules (`axidma`, `intrDemo`, `plIpcore`, `vxhls`, `vxdma/vxdma_dev.c`): thin kernel calls that would only add easy members.
