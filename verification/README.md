# Bmboot: a verified model

Bmboot runs a manager on Linux and, on another core of the same chip, a small
monitor at EL3 that starts, supervises and kills bare-metal payloads at EL1.
Manager and monitor share an IPC block (command counters, arguments, reported
state, a ring buffer for standard output), a kill interrupt and the interrupt
controller. This project models that machinery and the algorithms it rests on,
and proves what they promise, for all inputs and over all runs.

| module | models |
|---|---|
| `Protocol`, `ProtocolRuns`, `ProtocolPaths`, `ProtocolArguments`, `ProtocolPickup`, `ProtocolKill` | the command protocol, as atomic accesses of one manager thread and one core that interleave freely, with time-outs, kills at any point where FIQ is unmasked, monitor restarts, crashes and 32-bit wrap-around |
| `RingTypes`, `StdoutRing`, `StdoutChannel` | the standard output ring: every interleaving of writer and reader, and the two routines themselves |
| `PayloadOutput` | the ring and the protocol together: whose bytes the manager reads |
| `LazyFpu`, `FpuVectors` | nested interrupts at EL1 with lazy saving of the floating-point context |
| `Gic`, `Ipi` | the interrupt controller, the record of what a payload has routed to itself, and the way of a kill request to its core |
| `Crc32`, `PayloadValidation` | the checksum and the monitor's decision on an image |
| `PointerChase` | the access patterns of the memory latency benchmark |
| `Bytes`, `CoreFormat`, `CoreDump` | the core dump writer, and a reader to compare it with |
| `MmuTables` | the translation table builder and the table walk of the hardware |

`dafny verify dfyconfig.toml` checks everything.

## What turned out not to hold as it is documented

- A successful `terminatePayload` can leave a kill request behind that hits the
  next payload, even if it began in `running_payload`: a first call timed out,
  and the restart it caused clears old requests before the second call sends
  its own (`ProtocolKill.SecondKillSurvives`, a run from power-up). The exact
  condition before the call is `ProtocolKill.CallConditionExact`, the one at the
  moment of sending `ProtocolKill.KillConditionExact`, and
  `ProtocolKill.CleanCallLeavesNoKill` is what the manager can tell from its own
  calls.
- The two guards of `startPayloadAt` are two reads. If the monitor is so slow
  that the issuing call has timed out, a second call can pass both and overwrite
  the address between its validation and its use
  (`ProtocolArguments.TornGuards`, a run from power-up). In which positions of
  the core passing the second guard does harm is exact
  (`ProtocolArguments.SecondGuardExact`).
- A monitor that picks every command up before its call gives up does not avert
  this alone: a kill left over from an earlier termination can throw it back to
  the start of a command whose call has returned
  (`ProtocolPickup.BelatedKill`, a run from power-up). With the condition on
  kills added it does (`ProtocolPickup.PickupSuffices`), both conditions are
  exact (`ProtocolPickup.PromptExact`), and the one on kills holds by itself if
  every termination is clean (`ProtocolPickup.CleanRunsArePrompt`).
- For the same reason the flush in `startPayloadAt` can miss a byte of an
  earlier payload (`PayloadOutput.StaleByte`, a run from power-up);
  `PayloadOutput.StaleExact` says exactly when.
- A handler that uses floating point before the main program has makes the exit
  path pop a block that was never pushed (`LazyFpu.EarlyUseUnderflows`); the
  restriction is exact at any depth of nesting (`LazyFpu.FirstUseExact`).
- The page-spread slots of the TLB test lie inside the array exactly for sizes
  from 1 KB to below 4 GB (`PointerChase.SlotsInBoundsExactly`).
- `writeToStdout` returns an `int`, so it reports the requested size exactly for
  sizes below 2^31 (`StdoutChannel.ReportedSizeExact`).
- A core dump can be read back exactly if it has fewer than 65535 segments
  (`CoreDump.SegmentLimitExact`).
- A payload can keep interrupts alive across its own kill, and close the kill
  path, by calls the monitor does not refuse; `Gic.ServeKeepsSilence` and
  `Gic.ServeKeepsKill` say exactly by which.
- The backup of ELR and SPSR in the interrupt handler keeps the interrupted
  values exactly if no floating-point instruction trapped before it
  (`LazyFpu.BackupExact`); the exit path restores both from the stack anyway.
- The header comment of the translation tables lists both DDR windows as memory;
  the part of a window that is not populated faults (`MmuTables.IdentityMap`).

## Model

| member | source | states |
|---|---|---|
| Protocol.StepKeepsInv | src/executor/monitor/monitor.cpp:26-85 | every access of manager, monitor, payload or kill interrupt keeps the protocol invariant: the counters are the true counts modulo 2^32, at most one command is outstanding, whatever the monitor works on was issued after the last effective kill, and the reported state matches where the core is |
| Protocol.ManagerKeepsInv | src/manager/domain.cpp:594-778 | the same for the manager's side: guards, stores in order, bounded polling, termination, start-up |
| Protocol.MonitorKeepsInv | src/executor/monitor/monitor.cpp:35-85 | the same for the command loop and the restart |
| Protocol.OtherEventKeepsInv | src/platform/zynqmp/executor/monitor/vectors_el3.cpp:21-99 | the same for calls, payload reports, crashes and the kill FIQ at any unmasked point |
| Protocol.RunKeepsInv | bmbook/architecture.tex:72 | the invariant holds in every state of every run |
| Protocol.CountersTell | src/manager/domain.cpp:608 | equal 32-bit counters mean nothing is outstanding, also across wrap-around, and unequal ones that something is |
| ProtocolRuns.OneCommandAtATime | src/manager/domain.cpp:608-622 | in every run `cmd_seq - cmd_ack` modulo 2^32 is 0 or 1 and equals the number of unacknowledged commands |
| ProtocolRuns.AcknowledgesThePendingOne | src/executor/monitor/monitor.cpp:41-72 | an acknowledgement is always for the one outstanding command: none twice, none skipped |
| ProtocolRuns.AnswerExact | src/manager/domain.cpp:600-667 | each answer of `startPayloadAt` is given exactly for its words in the block and its number of polls, 100 for the time-out |
| ProtocolRuns.AwaitAnswerExact | src/manager/domain.cpp:216-233 | waiting for the monitor ends in success exactly if `monitor_ready` is seen within 50 polls, in a time-out otherwise |
| ProtocolRuns.CallsReturn | src/manager/domain.cpp:624-667 | whatever the core does, every call returns within 311 steps of its own |
| ProtocolRuns.KillStrikes | src/platform/zynqmp/executor/monitor/vectors_el3.cpp:21-44 | a pending kill strikes wherever FIQ is unmasked, restarts the monitor and leaves the IPC block as it is |
| ProtocolRuns.ReportsPossible | src/executor/monitor/smc_handlers.cpp:134-154 | the monitor can crash wherever it is, a payload can report start and crash whenever it runs, a dummy payload never, and each report changes the reported state only |
| ProtocolRuns.DummyExact | src/executor/monitor/monitor.cpp:59-63 | exactly the address 0xBAADF00D is entered without validation and without acknowledgement |
| ProtocolRuns.KilledCommandsStayDead | src/manager/domain.cpp:769-777 | whatever happens between the no-op of a termination and the kill that takes effect, from that restart on, in every continuation, the monitor never again works on or enters a command issued before the no-op, a dummy start included |
| ProtocolRuns.BarrierStays | src/executor/monitor/monitor.cpp:47-63 | no later step brings a dead command back to life |
| ProtocolRuns.NoopStays | src/manager/domain.cpp:769-770 | what a termination has declared dead stays so until its kill takes effect |
| ProtocolRuns.OutstandingIsConsumed | src/executor/monitor/monitor.cpp:47-49 | a command still unacknowledged at the restart, such as a dummy start, is acknowledged as a no-op and the monitor is back in its loop, ready |
| ProtocolRuns.RunningFollowsStarting | src/executor/monitor/smc_handlers.cpp:18-21 | in every run `running_payload` is reported only by an entered payload and only after `starting_payload` since the last `monitor_ready` |
| ProtocolRuns.CrashIsFinal | src/platform/zynqmp/executor/monitor/vectors_el3.cpp:47-99 | once `crashed_monitor` is reported, no run changes the reported state |
| ProtocolArguments.StepKeepsArgs | src/manager/domain.cpp:600-622 | if no call passes its second guard in a harmful position, no step lets arguments change while the monitor has use for them, and verdict, entry and report stay tied to the latest command |
| ProtocolArguments.NothingBreaks | src/manager/domain.cpp:594-664 | in every such run no foreign response, no false success, no false crash report and no unvalidated entry occurs |
| ProtocolArguments.ResponseIsOwn | src/manager/domain.cpp:631-652 | a response the manager acts on was computed for this command and exactly its arguments |
| ProtocolArguments.EnteredWasValidated | src/executor/monitor/monitor.cpp:66-77 | the address entered is the one validated, for the same command, with a good verdict |
| ProtocolArguments.SuccessIsReal | src/manager/domain.cpp:594-668 | however `startPayloadAt` ends, it returns success only if this payload was validated, entered at its address and reported its own start; never for a dummy start |
| ProtocolArguments.CrashIsReal | src/manager/domain.cpp:660-663 | a crash during start-up is reported only for a payload that was validated and entered for this very command |
| ProtocolArguments.RefusalIsReal | src/manager/domain.cpp:633-650 | each error for an image is returned exactly for the corresponding verdict on this very image |
| ProtocolArguments.SecondGuardExact | src/manager/domain.cpp:608-611 | a call that passes its second guard leaves something to go wrong if and only if the core is about to enter a payload, in one, or restarting from one it still reports |
| ProtocolArguments.TornPosition | src/manager/domain.cpp:600-611 | such a position is reached from power-up by a call that timed out before the monitor noticed it and a second call |
| ProtocolArguments.TornGuards | src/manager/domain.cpp:600-611 | from power-up there is a run in which the monitor enters an address it never validated |
| ProtocolPaths.PollsOut | src/manager/domain.cpp:627-668 | with a monitor that does not move, a call polls until only its time-out is left and changes nothing |
| ProtocolPaths.PrimedIsBroken | src/manager/domain.cpp:600-622 | whenever a call begins while a start lies in wait, some continuation enters an unvalidated address |
| ProtocolPickup.PickupSuffices | src/manager/domain.cpp:624-668 | in every run with a prompt monitor no call passes its second guard in a harmful position, and nothing goes wrong |
| ProtocolPickup.PromptExact | src/manager/domain.cpp:624-668 | a step leaves something to go wrong, among prompt continuations, if and only if a call gives up on a start that has not been picked up or a kill strikes a start whose call has returned; a dummy start does no harm |
| ProtocolPickup.BelatedKill | src/platform/zynqmp/executor/monitor/vectors_el3.cpp:38-44 | from power-up there is a run with every command picked up in time in which a left-over kill leads to an unvalidated address being entered |
| ProtocolPickup.CleanRunsArePrompt | src/manager/domain.cpp:756-778 | timely pickup and clean terminations together make a run prompt, so nothing goes wrong in it |
| ProtocolPickup.StepKeepsPrompt | src/manager/domain.cpp:600-611 | with a prompt monitor no start lies in wait for the next call and the first guard goes stale only over a dummy start, which the second guard catches |
| ProtocolKill.StepKeepsKill | src/manager/domain.cpp:756-778 | every step keeps what the manager can infer about outstanding kill requests from its own calls |
| ProtocolKill.CleanTerminationLeavesNoKill | src/manager/domain.cpp:756-778 | a termination begun in `running_payload` or `crashed_payload` with no other kill outstanding that succeeds leaves no request pending and no restart under way |
| ProtocolKill.QuietMeansNoKill | src/platform/zynqmp/executor/monitor/interrupt_controller.cpp:65-74 | from then on nothing is killed until the manager asks again |
| ProtocolKill.CleanKillFindsNoop | src/manager/domain.cpp:769-770 | if all terminations were clean, a kill never strikes a start command written since |
| ProtocolKill.CallConditionExact | src/manager/domain.cpp:756-778 | in every state, a termination called now can succeed and leave its request pending if and only if the core is neither crashed nor, with no request pending, in or bound for a payload |
| ProtocolKill.CallFromPayloadExact | src/manager/domain.cpp:756-778 | begun in `running_payload` or `crashed_payload`, it cannot if and only if the core is in the payload and no request is pending |
| ProtocolKill.CleanCallLeavesNoKill | src/manager/domain.cpp:756-778 | in every run a call begun in such a state with no other kill outstanding cannot leave its request pending |
| ProtocolKill.KillConditionExact | src/executor/monitor/monitor.cpp:35-37 | at the moment of sending, the request can outlive a successful call if and only if the core is not in one of the listed safe positions |
| ProtocolKill.SafeKillIsConsumed | src/platform/zynqmp/executor/monitor/interrupt_controller.cpp:192-209 | sent in a safe position, the request is gone whenever the waiting manager sees `monitor_ready` |
| ProtocolKill.ReadyComesFirst | src/manager/domain.cpp:216-233 | from every other position the monitor can report `monitor_ready` with the request still pending |
| ProtocolKill.CleanIsSafe | src/manager/domain.cpp:756-778 | a clean termination sends its request in a safe position |
| ProtocolKill.SecondKillSurvives | src/manager/domain.cpp:756-778 | from power-up there is a run to an idle manager and `running_payload` where a termination, the first one having timed out, can succeed and leave its request pending |
| ProtocolKill.KillingReadyIsUnsafe | src/manager/domain.cpp:756-778 | terminating while `monitor_ready` is reported is never safe |
| RingTypes.QueueAppend | src/executor/monitor/smc_handlers.cpp:45-60 | storing a byte and moving the write position appends it to the unread bytes, wrapped around or not |
| RingTypes.QueueTake | src/manager/domain.cpp:367-371 | fetching a byte and moving the read position removes the oldest unread byte |
| StdoutChannel.IpcStdout.WriteToStdout | src/executor/monitor/smc_handlers.cpp:25-66 | terminates, appends the longest prefix of the data that fits, keeps all unread bytes and returns the requested size as an `int`; after an out-of-range write position the message comes first; with an out-of-range read position all is written, round and round, each slot keeping the last byte that fell on it |
| StdoutChannel.IpcStdout.PutBytes | src/executor/monitor/smc_handlers.cpp:41-65 | the loop itself: exactly a prefix is appended and the rest dropped, or all written round if no reader stops it; the full size is reported |
| StdoutChannel.IpcStdout.Getchar | src/manager/domain.cpp:356-377 | returns and removes the oldest unread byte, or -1 exactly if there is none; with either position out of range the byte under the corrected read position |
| StdoutChannel.ReportedSizeExact | src/executor/monitor/smc_handlers.cpp:65 | the reported size is the requested one if and only if it is below 2^31 |
| StdoutChannel.MessageInAscii | src/executor/monitor/smc_handlers.cpp:37-38 | the inserted message, byte for byte |
| StdoutRing.StepKeepsInv | src/executor/monitor/smc_handlers.cpp:45-63 | every single access of either side keeps the positions, the unread bytes and what each side believes about the other right |
| StdoutRing.StoreMissesUnread | src/executor/monitor/smc_handlers.cpp:46-57 | a store never hits an unread slot, whatever the reader did since the check for room |
| StdoutRing.RefinesFifo | src/manager/domain.cpp:356-377 | each access is invisible or exactly one operation on a FIFO queue: publish appends, advance removes the head that is returned, a flush drops exactly what was queued when it read the write position |
| StdoutRing.RefusedExactly | src/executor/monitor/smc_handlers.cpp:46-57 | a byte is refused if and only if 1023 are unread |
| StdoutRing.NothingExactly | src/manager/domain.cpp:367-376 | `getchar` finds nothing if and only if nothing is unread |
| StdoutRing.WriterRun | src/executor/monitor/smc_handlers.cpp:41-65 | access by access, with the reader at rest, the write loop appends exactly the prefix the routine promises |
| StdoutRing.BufferHoldsFifo | src/executor/monitor/smc_handlers.cpp:45-60 | the bytes in the buffer between the positions are that queue |
| StdoutRing.NoStepBlocked | src/manager/domain.cpp:367-371 | indices are always in range, so no access is ever prevented |
| StdoutRing.RunSafety | src/manager/domain.cpp:356-377 | in every interleaving both positions are below 1024, at most 1023 bytes are unread, and what `getchar` returned since the last flush is a prefix of what was accepted since then, in order |
| PayloadOutput.StepKeepsGood | src/manager/domain.cpp:613-622 | ring and protocol together: a write in progress belongs to the running payload, nothing is published between the flush and the new sequence number, and what was published since the flush comes from the latest command |
| PayloadOutput.FlushFindsNoWrite | src/manager/domain.cpp:613-614 | the flush finds no payload entered and no write in progress, save one cut off by a crash of the monitor |
| PayloadOutput.NoStaleByte | src/manager/domain.cpp:613-614 | if no call passes its second guard with a payload running or about to be entered, every byte returned since the last flush was written by the payload of the latest command |
| PayloadOutput.NoStaleByteIfPrompt | src/manager/domain.cpp:613-614 | the same if the monitor is prompt |
| PayloadOutput.StaleExact | src/manager/domain.cpp:608-614 | a call that passes its second guard can lead to a byte of an earlier payload being delivered after its flush if and only if a payload is running or about to be entered |
| PayloadOutput.StaleByte | src/executor/monitor/smc_handlers.cpp:45-60 | from power-up there is a run in which a byte stored before the flush and published inside it is delivered as output of the next payload |
| LazyFpu.StepKeepsGood | src/platform/zynqmp/executor/asm_vectors.S:317-435 | every step keeps the stack of contexts right: each interrupted context is in its block or still in the registers, and the block count is the number of active handlers that enabled floating point |
| LazyFpu.HandlerIsTransparent | src/platform/zynqmp/executor/payload/vectors_el1.cpp:32-57 | in every run from the start of a payload, for every nesting of interrupts and traps between taking an interrupt and returning from it, the interrupted code continues with the same registers, FPCR, FPSR, address, processor state, access bit and stack |
| LazyFpu.LeaveRestores | src/platform/zynqmp/executor/asm_vectors.S:403-435 | the exit path restores exactly the interrupted context, from a block if and only if one was saved |
| LazyFpu.BackupExact | src/platform/zynqmp/executor/payload/vectors_el1.cpp:45-53 | whatever is nested in the user handler, ELR and SPSR are written back with the interrupted values if and only if no floating-point instruction trapped before they were backed up |
| LazyFpu.LostBackupIsHarmless | src/platform/zynqmp/executor/asm_vectors.S:421-435 | a handler that traps before the backup writes SPSR back wrong and still gives the interrupted code everything back |
| LazyFpu.SpuriousIsFinal | src/platform/zynqmp/executor/payload/vectors_el1.cpp:59-68 | from a spurious or unhandled interrupt nothing ever returns |
| LazyFpu.DepthBound | include/bmboot/payload_runtime.hpp:29-39 | with strictly rising priorities from the eight levels at most eight handlers are active |
| LazyFpu.PreemptionExact | include/bmboot/payload_runtime.hpp:28-39 | a handler acknowledged at p is preempted by q if and only if the upper four bits of q are the smaller number |
| LazyFpu.DepthIsReached | src/platform/zynqmp/executor/asm_vectors.S:62-69 | a run from the start of a payload has eight handlers active, one above the other, and fills all 4224 bytes, each block with the registers of its own level |
| LazyFpu.GoodInsideArray | src/platform/zynqmp/executor/asm_vectors.S:62-69 | every save and every restore stays inside the 4224 bytes |
| LazyFpu.RunBookkeeping | src/platform/zynqmp/executor/asm_vectors.S:166-226 | in every run from the start of a payload at most eight handlers are active and the saved blocks number exactly the active handlers that enabled floating point |
| LazyFpu.RunNeverOverflows | src/platform/zynqmp/executor/asm_vectors.S:62-69 | no run is ever stopped by the size of the context array |
| LazyFpu.MainFirstIsExact | src/platform/zynqmp/executor/asm_vectors.S:350-363 | a trap inside a handler keeps the bookkeeping right if and only if `FPUStatus` is already set |
| LazyFpu.FirstUseExact | src/platform/zynqmp/executor/asm_vectors.S:347-419 | at any depth, a handler that uses floating point for the first time and finishes pops inside the array and gives the interrupted code its context back if and only if `FPUStatus` was set before |
| LazyFpu.EarlyUseUnderflows | src/platform/zynqmp/executor/asm_vectors.S:350-363 | from every start state a handler that uses floating point first leads to a pop in front of the array |
| FpuVectors.El1Core.SaveFloatRegisters | src/platform/zynqmp/executor/asm_vectors.S:166-195 | writes one 528-byte block holding all registers and both control registers, and nothing else |
| FpuVectors.El1Core.RestoreFloatRegisters | src/platform/zynqmp/executor/asm_vectors.S:197-226 | reads the block below the pointer back, register for register |
| FpuVectors.ImageRoundTrip | src/platform/zynqmp/executor/asm_vectors.S:166-226 | what is restored from a saved block is what was saved; a block takes 528 bytes and eight fill the array |
| FpuVectors.BlockWritten | src/platform/zynqmp/executor/asm_vectors.S:166-195 | saving a context replaces one block and leaves the seven others as they were |
| FpuVectors.El1Core.OnFpTrap | src/platform/zynqmp/executor/asm_vectors.S:317-373 | the trap path on real memory performs the model's trap step |
| FpuVectors.El1Core.OnIrqEntry | src/platform/zynqmp/executor/asm_vectors.S:375-403 | the entry path performs the model's entry step |
| FpuVectors.El1Core.BeforeUserHandler | src/platform/zynqmp/executor/payload/vectors_el1.cpp:34-47 | acknowledging, keeping SPSR and ELR and unmasking are the model's two steps |
| FpuVectors.El1Core.AfterUserHandler | src/platform/zynqmp/executor/payload/vectors_el1.cpp:51-55 | masking, writing SPSR and ELR back and ending the interrupt are the model's two steps |
| FpuVectors.El1Core.OnIrqExit | src/platform/zynqmp/executor/asm_vectors.S:404-435 | the exit path on real memory performs the model's return step |
| Gic.BankFrame | src/executor/gicv2.hpp:79-103 | a write-one-to-set or write-one-to-clear access changes the bit of its own interrupt and no other |
| Gic.ServeFrame | src/executor/monitor/smc_handlers.cpp:91-132 | a payload's call leaves group, enable, pending, active, target, priority, trigger and record of every other interrupt as they were |
| Gic.RefusedExactly | src/executor/monitor/smc_handlers.cpp:91-118 | a configuration is refused, and changes nothing, exactly for ids below 16 and priorities outside 0x80 to 0xF0 |
| Gic.ServeEffect | src/platform/zynqmp/executor/monitor/interrupt_controller.cpp:99-165 | a configured interrupt is Group 1, aimed at this core, at the requested priority, edge-triggered if shared, and on record; an enabled one is neither pending nor active; a disabled one is only disabled |
| Gic.ServeKeepsTrack | src/executor/monitor/smc_handlers.cpp:91-132 | the record of deliverable interrupts, the timer aside, stays complete if and only if the call enables the timer, a recorded or an undeliverable interrupt, or does not configure an enabled one beyond the user range |
| Gic.ServeKeepsSilence | src/executor/monitor/smc_handlers.cpp:91-132 | a kill right after the call silences the core if and only if the call observes that |
| Gic.TimerSurvivesKill | src/platform/zynqmp/executor/monitor/interrupt_controller.cpp:169-171 | a timer configured by one payload is deliverable to the next as soon as that enables it, without being on record |
| Gic.ServeKeepsKill | src/executor/monitor/smc_handlers.cpp:91-132 | after a call the kill interrupt still arrives on this core as an FIQ above every payload priority, if and only if the call does not reconfigure or disable it |
| Gic.TeardownEffect | src/platform/zynqmp/executor/monitor/interrupt_controller.cpp:169-188 | teardown disables exactly the recorded interrupts and the timer, empties the record and clears the active priorities, and changes nothing else |
| Gic.TeardownSilences | src/platform/zynqmp/executor/monitor/interrupt_controller.cpp:169-188 | after teardown no Group 1 interrupt for this core is enabled if and only if every deliverable one but the timer was on record |
| Gic.SetupKeepsSilence | src/platform/zynqmp/executor/monitor/interrupt_controller.cpp:192-209 | setting up the monitor keeps a silent core silent and lets the kill interrupt through |
| Gic.RunSilentAfterKill | src/platform/zynqmp/executor/monitor/vectors_el3.cpp:38-44 | over any number of payloads, calls and kills the kill path stays open, and after a kill no IRQ can reach the core |
| Gic.KillPreempts | src/executor/monitor/platform_interrupt_controller.hpp:21-35 | the kill interrupt preempts every handler a payload can have active |
| Gic.KillRaisesPrepared | src/platform/zynqmp/executor/monitor/interrupt_controller.cpp:192-209 | the interrupt that set-up enables on a core is the one a kill sent to that core raises, and the three are distinct |
| Ipi.KillFindsItsCore | src/platform/zynqmp/manager/zynqmp_manager.cpp:79-137 | a kill sent to a listening core raises that core's interrupt, is recognised there as a kill and leaves the other cores alone |
| Ipi.SetupForgetsOldKills | src/platform/zynqmp/executor/monitor/interrupt_controller.cpp:65-74 | setting up clears every earlier request to this core and none to another |
| Ipi.MaskAddressesOne | src/platform/zynqmp/zynqmp.hpp:65-78 | a peer mask addresses its own channel and no other |
| Ipi.CoresApart | src/platform/zynqmp/zynqmp.hpp:106-119 | the cores have different channels, with interrupts 67, 61 and 62 |
| Gic.InterruptController.HandleSmc | src/executor/monitor/smc_handlers.cpp:91-132 | the services, register by register, perform the specified call, refused requests included |
| Gic.InterruptController.SetGroupForInterruptChannel | src/platform/zynqmp/executor/monitor/interrupt_controller.cpp:99-115 | the read-modify-write of the group word and the record perform the specified update |
| Gic.InterruptController.ConfigurePrivatePeripheralInterrupt | src/platform/zynqmp/executor/monitor/interrupt_controller.cpp:117-123 | the interrupt ends up in the requested group at the requested priority, enabled or not as before, and the rest as specified |
| Gic.InterruptController.ConfigureSharedPeripheralInterrupt | src/platform/zynqmp/executor/monitor/interrupt_controller.cpp:127-145 | the same, and the interrupt is aimed at one core only |
| Gic.InterruptController.EnableInterrupt | src/platform/zynqmp/executor/monitor/interrupt_controller.cpp:156-165 | the interrupt is enabled and left neither pending nor active by an earlier payload |
| Gic.InterruptController.TeardownEl1Interrupts | src/platform/zynqmp/executor/monitor/interrupt_controller.cpp:169-188 | the loop over all user interrupts performs the specified teardown |
| Gic.InterruptController.SetupInterrupts | src/platform/zynqmp/executor/monitor/interrupt_controller.cpp:192-209 | afterwards the kill interrupt arrives as an FIQ at priority 0, above every payload priority, and a silent core stays silent |
| Crc32.Compute | src/utility/crc32.c:92-104 | the table-driven loop equals the bit-serial CRC of section 8 of RFC 1952 on every byte string and seed |
| Crc32.TableEntry | src/utility/crc32.c:46-90 | each of the 256 table entries is eight clocks of the shift register |
| Crc32.ByteStepIsSerial | src/utility/crc32.c:100-101 | one table step is eight clocks on the bits of the byte |
| Crc32.CrcChains | src/utility/crc32.c:92-104 | the CRC of a first part seeds the CRC of the whole |
| Crc32.CrcOfNothing | src/utility/crc32.c:92-104 | empty input gives the seed back |
| Crc32.Residue | src/utility/crc32.c:92-104 | every message followed by its own checksum has the checksum 0x2144DF1C |
| Crc32.CheckZero | src/utility/crc32.c:98-103 | a zero byte leaves its trace: its checksum is 0xD202EF8D |
| Crc32.BurstDetected | src/utility/crc32.c:92-104 | two images that differ, within one window of 32 bits, have different checksums, for every length, place and seed |
| PayloadValidation.ValidatePayload | src/executor/monitor/monitor.cpp:104-131 | each of the four answers is given exactly for its condition on checksum, magic number and ABI version |
| PayloadValidation.HeaderInMemory | src/executor/monitor/monitor.cpp:114-125 | the header is accepted exactly with the bytes "Bmbo" at offset 8 and 2, 0 at offset 12 |
| PayloadValidation.BurstRejected | src/executor/monitor/monitor.cpp:104-112 | an image with one non-empty error burst of at most 32 bits is always answered `crc_mismatched` |
| PayloadValidation.ElfPassesChecksum | src/executor/monitor/monitor.cpp:106-107 | size 0 with checksum 0 passes the checksum test on every memory content |
| PointerChase.Shuffle | src/benchmarks/MemoryLatency/MemoryLatency.c:240-251 | for every random generator the elements form one single cycle, the one its draws select, and nothing off the stride changes |
| PointerChase.DrawShows | src/benchmarks/MemoryLatency/MemoryLatency.c:247-250 | every draw shows in the result: its position ends up with the element drawn |
| PointerChase.SwapMerges | src/benchmarks/MemoryLatency/MemoryLatency.c:245-251 | one swap joins the last remaining cycle to an earlier one, keeping a complete decomposition into cycles |
| PointerChase.ShuffledTours | src/benchmarks/MemoryLatency/MemoryLatency.c:245-251 | with one cycle left, a chase from any element visits all elements once before it repeats |
| PointerChase.FillPatternArr | src/benchmarks/MemoryLatency/MemoryLatency.c:237-269 | both versions leave such a cycle over elements the requested number of bytes apart, with less than one stride of the list uncovered |
| PointerChase.SlotsInBoundsExactly | src/benchmarks/MemoryLatency/MemoryLatency.c:435-481 | page-spread slots are always distinct, and in bounds if and only if the size is from 1 KB to below 4 GB |
| PointerChase.SlotsShift | src/benchmarks/MemoryLatency/MemoryLatency.c:478-481 | from page to page the slots move on by one cache line |
| PointerChase.SlotsUseAllLines | src/benchmarks/MemoryLatency/MemoryLatency.c:478-481 | 64 pages in a row use 64 different lines |
| PointerChase.TlbCoversArray | src/benchmarks/MemoryLatency/MemoryLatency.c:435-439 | there is one slot for every whole page of the array |
| PointerChase.ChaseMirrors | src/benchmarks/MemoryLatency/MemoryLatency.c:477-484 | following the array mirrors the pattern step for step |
| PointerChase.FillTlbArray | src/benchmarks/MemoryLatency/MemoryLatency.c:435-484 | a chase from slot 0 visits one slot on every page, each its own, before it repeats |
| CoreDump.PadTo4 | src/manager/coredump_linux.cpp:55-62 | the smallest padding to a multiple of four |
| CoreDump.WriteNote | src/manager/coredump_linux.cpp:64-82 | appends the note in the form a reader expects, name terminated and padded |
| CoreDump.WriteHeaders | src/manager/coredump_linux.cpp:126-172 | the running offset gives each header the place its segment will have |
| CoreDump.WriteSegments | src/manager/coredump_linux.cpp:213-220 | appends all segments in order |
| CoreDump.WriteCoreDump | src/manager/coredump_linux.cpp:86-223 | writes exactly the file image that the reading lemmas are about |
| CoreDump.NotesRoundTrip | src/manager/coredump_linux.cpp:64-82 | a note section is parsed back into its notes, for any number of notes with whole-word descriptors |
| CoreDump.HeaderAt | src/manager/coredump_linux.cpp:126-172 | program header i lies where the table says |
| CoreDump.NotesAt | src/manager/coredump_linux.cpp:126-135 | the notes lie exactly at `p_offset` for `p_filesz` bytes |
| CoreDump.SegmentAt | src/manager/coredump_linux.cpp:154-172 | the bytes of each segment lie exactly at `p_offset` for `p_filesz` bytes |
| CoreDump.CoreRoundTrip | src/manager/coredump_linux.cpp:86-223 | a reader that checks the ELF header and follows the program headers recovers the three notes and every segment with its address |
| CoreDump.DumpIsFound | src/manager/coredump_linux.cpp:174-199 | a debugger finds, all named "CORE", process information as note 3, registers as note 1 and floating-point registers as note 2 |
| CoreDump.LoadHeaderInFile | src/manager/coredump_linux.cpp:142-172 | each load header in the file carries flags 7, alignment 4096, the address and equal sizes in file and memory |
| CoreDump.NoteHeaderInFile | src/manager/coredump_linux.cpp:132-140 | the note header carries nothing but kind, offset and size |
| CoreDump.SegmentLimitExact | src/manager/coredump_linux.cpp:117 | that holds if and only if the number of segments plus one fits `e_phnum` |
| CoreDump.SegmentsAligned | src/manager/coredump_linux.cpp:146-153 | the first load segment is page-aligned, and every one behind whole pages |
| MmuTables.BuildLevel0 | src/platform/zynqmp/executor/translation_table.S:101-108 | exactly two entries, pointing to the two level 1 tables |
| MmuTables.BuildLevel1 | src/platform/zynqmp/executor/translation_table.S:110-176 | exactly two full tables, each entry covering its own gigabyte, for any amount of upper memory |
| MmuTables.BuildLevel2 | src/platform/zynqmp/executor/translation_table.S:179-265 | exactly four full tables, each entry covering its own 2 MB, for any amount of lower memory |
| MmuTables.BuildTables | src/platform/zynqmp/executor/translation_table.S:88-265 | the three sections, wherever they are linked, form tables the walk lemmas apply to |
| MmuTables.AttributesDocumented | src/platform/zynqmp/executor/translation_table.S:98-100 | the emitted attributes agree with the documented ranges and rights, except for memory that is not there |
| MmuTables.IdentityMap | src/platform/zynqmp/executor/translation_table.S:40-56 | walking the tables for any 40-bit address gives that same address with the memory type, write and execute rights and shareability of its documented range, or faults, and faults exactly where the range is reserved or the memory does not fill the block |
| MmuTables.BoardMap | src/platform/zynqmp/executor/translation_table.S:88-92 | with the constants of the source, only the upper window beyond its first 2 GB differs from the documented map |

## Left out

- mmap, `/dev/mem`, cache maintenance, the configuration file, the console thread, `bmctl` and the other tools: plumbing and user interface.
- The failure exits of `startup` and `terminatePayload` before they touch the IPC block (no device memory, program too large, core in reset): they change nothing.
- `unknown_error` for a response word outside the enumeration: the monitor never writes one.
- The ELF loader beyond its call of `startPayloadAt`: the library it uses is not part of this model.
- The bytes of a payload image in memory across time-outs: loading checks only the reported state, so the model claims stability of arguments, not of image bytes.
- The protocol is a transition system on values and not a class with methods, because both cores act between any two accesses of a routine; the loops of `startPayloadAt`, `awaitMonitorStartup` and the monitor's `main` are program counters there.
- One manager thread and sequentially consistent memory, as the design assumes; `validatePayload` reads its three arguments in one step, and the verdict it reaches is arbitrary in the protocol (`PayloadValidation` says which it is).
- The message buffers and register addresses of the inter-processor interrupts: `Ipi` has the trigger, status and enable bits only.
- A kill request is one bit that stays set until the monitor clears it; clearing and enabling it during set-up are one step.
- ProtocolArguments.ResponseIsOwn: assumes that no call passes its second guard in a harmful position, which is exact (`SecondGuardExact`).
- ProtocolArguments.EnteredWasValidated: the same assumption, for the same reason.
- ProtocolArguments.SuccessIsReal: the same assumption, for the same reason.
- ProtocolArguments.CrashIsReal: the same assumption, for the same reason.
- ProtocolArguments.RefusalIsReal: the same assumption, for the same reason.
- ProtocolPickup.PickupSuffices: besides timely pickup it assumes that no kill strikes a start whose call has returned, because timely pickup alone is not enough (`BelatedKill`); both parts are exact (`PromptExact`).
- PayloadOutput.NoStaleByte: assumes that no call passes its second guard with a payload running or about to be entered, which is exact (`StaleExact`).
- On the manager side of the ring `getchar` and the flush do not overlap each other, being calls of one thread.
- PointerChase.FillPatternArr: requires a positive increment, fewer than 2^31 elements and at most 2^32 cells; beyond that the source divides by zero or overflows an `int`.
- PointerChase.FillTlbArray: requires a size from 1 KB to below 4 GB, which is exact for the slots to be in bounds; the preliminary `memset` is not modelled.
- LazyFpu.HandlerIsTransparent: assumes that the main program uses floating point before any handler does, which is exact (`FirstUseExact`).
- Gic.InterruptController.HandleSmc: assumes that an interrupt the monitor does not refuse has registers (an id from 0 to 1019); beyond that the source writes outside the register banks.
- General-purpose registers pushed and popped by the vectors, the floating-point context of EL3 and the FIQ path: they are plain stack pairs without lazy saving.
- Which interrupt is pending is not modelled in `LazyFpu`: any payload priority that preempts may be signalled at any time.
- `GICD::setTriggerLevel`: no caller selects level triggering, and its mask is not complemented.
- Several monitors updating shared interrupt controller registers at the same time: one core is modelled.
- `saveFpuState` and the dumped FPCR: its layout does not match the structure, so floating-point state is opaque bytes in the dump.
- The contents of the process notes and the table of segments of `dumpCore` are parameters of the writer; failing file operations are not modelled.
- CoreDump.WriteNote: the file is a sequence of bytes that grows, not a handle that can fail.
- Registers of the interrupt controller are sets of bits and the CRC table is laid out in sixteen rows; neither changes what is computed.
- Boot code, linker scripts, timing and the floating-point arithmetic of the benchmarks.
