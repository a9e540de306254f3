# Formal model of the emulated devices and their drivers

This project models, in Dafny, the parts of the repository where a mistake would be hard to see
in a trace, and proves what they promise. It covers four components.

**The mathaccel rings.** Callers of the compute ioctl register a record, put a command in a
submission ring, ring a doorbell and wait. The emulated device consumes the ring to the end
inside the doorbell write, and answers into a completion ring without testing whether that one
is full. A kernel thread drains it and wakes the callers by command id. `MathOps`, `MathHardware`
and `MathRings` say what each piece does as functions on values; `MathDevice` (a class with the
device's registers and its ring memory) and `MathDriver` (a class with the driver's indices, id
counter and pending records) hold the imperative code, proved to do that. `RingProtocol` is the
state machine of submissions, doorbells, ring-access faults at any point, drains (in two halves,
as the head is stored after the lock is released) and error recoveries. History fields count what
was submitted, written and drained without bound; the 16-bit indices are proved to be these
counters modulo the ring size. `CallProtocol` adds any number of callers, and `ErrorPath` follows
an error indication from the device to the kernel thread's assertion.

**The Lux timer.** `LuxTimerQueue` is the search tree with its cached first node, `LuxTimerIrq`
the overrun word, `LuxTimerWork` and `LuxTimerPass` the worker's loop and its closed form,
`LuxClock` the driver object around them and `LuxArming` its runs, `LuxTimerUsers` the reference
counts, `LuxTimerCalls` the unlocked parts of the calls that change them, by any number of threads,
`LuxTimerStops` when these can stop the timer under somebody, and `LuxTimerHardware` the device's
counter and comparator.

**The LED grid.** `LedRender` holds the rasteriser and the click test, `LuxPins` the device's pin
loops and the GPIO driver against 64-bit words, and `LedMirror` the LED server at the other end of
the socket.

**The client's statistics.** `LatencyStats` is the online mean and variance over reals.

Runs are folds of a step function over a sequence of steps; a step that is not possible changes
nothing, so a statement about every sequence is one about every interleaving. `RingArith` holds
the modular arithmetic.

## What the proofs found

- The comments of `qemu-drivers/led-gpio/lux-timer-fops.c` call the first node the earliest
  deadline. The walk sends later deadlines left, so it is the latest, and the model follows the
  code. `OthersStayLate` and `LateIff` say what follows: after a pass that found work, everybody
  still queued besides the head is late.
- The worker's loop need not end. An alarm leaves the period at 0, and asking for periodic mode
  afterwards makes a subscriber that expires for ever. `LoopEndsIff` gives the exact condition, and
  `AlarmThenPeriodicHangs` a run.
- An alarm set further back than the device has been running is due for the worker only some time
  after the subscriber's clock has wrapped at 2^64. Until it wraps, reprogramming finds the deadline
  passed and asks for the worker after every pass (`PastAlarm`, `PastAlarmExample`).
- Enabling and disabling bits read, test, count, mark and write back without a lock. Two threads on
  one descriptor can count twice for one subscriber; the counters are exact if and only if no two
  calls of one subscriber are between test and flag at once (`CountsExactIff`,
  `DoubleEnableCountsTwice`, `DoubleDisableCountsTwice`). Two subscribers can stop the timer under
  one of them; `TimerCanStopIff` says when (`RaceStopsTimer`).
- The driver's assertion that an error has a cause holds as long as only the driver resets the
  device. A reset from outside can break it if and only if an indication the thread will act on is
  under way, in the cause register only while an interrupt that brings it is outstanding, or the
  thread is about to reset the device itself (`ResetIsHarmlessIff`, `SafeIff`).
- The thread handles an error only if its bit is the one bit in the cause it takes. An error that
  joins an unread completion in the cause register, or that comes with interrupts off, as between the
  driver's own reset and its reconfiguration, is never handled, and the device stays in ERROR
  (`CanRecoverIff`, `UnreadCompletionHidesError`).
- The rasteriser and the click test agree everywhere exactly in windows with
  width/16 <= height/16 (`AgreeWhen`).
- The statistics divide by the iteration number, which counts failed calls, and not by the number
  of samples (`ExactIff`, `AlwaysExactIff`, `FailureShiftsMean`).
- A read whose copy to the caller fails loses the overruns it took (`NothingLostIff`,
  `FaultLosesOne`).
- Dividing the least 32-bit number by -1 is undefined in C and traps on common processors; no check
  on the way keeps a caller from asking for it.

## Modelling decisions

- The device's registers are two records, control and ring, and the driver's indices one, each a
  field of its class that methods update. Ring memory is a pair of arrays shared by both classes.
- Cause registers and interrupt lines are sets of bits. 64-bit pin words are sequences of 64 bits.
- Arguments are 32-bit numbers; where an operation overflows them, which C leaves undefined, the
  model wraps, also for the one division that overflows; `ExecuteIsExact` says when that does not
  happen.
- `struct lux_clock` is two classes: `LuxClock.Clock` has the queue and the registers that arming
  uses, `LuxTimerUsers.ClockUsers` the reference counts and their part of the control register.
- Ring accesses by DMA are array accesses, any of which may fail; a run names the one that does.
- Clocks, the results of ioctls and the answers of foreign calls are parameters.
- The doorbell may write any value that names a slot of the ring; `ConsumeLoopExits` says that the
  device's loop cannot end for others. The driver never writes another one.

## Model

| member | source | states |
|---|---|---|
| `RingArith.SlotSucc` | qemu-drivers/mathaccel/device.c:110-110 | advancing an index modulo the ring size is the index of the next counter, also across the wrap |
| `RingArith.SlotInjective` | qemu-drivers/mathaccel/device.c:113-113 | two counters less than one ring apart never share a slot |
| `RingArith.GapOfCounters` | qemu-devices/mathaccel/dma.c:21-21 | the distance from head to tail is the difference of the counters behind them |
| `RingArith.GapNext` | qemu-devices/mathaccel/dma.c:56-56 | taking one entry brings the head one closer to the tail: the measure of both consume loops |
| `MathOps.WrapS32` | qemu-devices/mathaccel/compute.c:55-65 | the 32-bit value of a result: congruent modulo 2^32, in range, and the identity when nothing overflows |
| `MathOps.ExecuteOperation` | qemu-devices/mathaccel/compute.c:49-85 | every completion carries its command's id, is valid, has the status of its case and the result of the operation; the return value is 0 exactly for a known operation that is not a division by zero |
| `MathOps.TruncDivLaw` | qemu-devices/mathaccel/compute.c:72-72 | division rounds toward zero: the remainder is smaller than the divisor and has the dividend's sign |
| `MathOps.ExecuteIsExact` | qemu-devices/mathaccel/compute.c:54-73 | a known operation on 32-bit operands, but for the division C leaves undefined, succeeds and carries the mathematical result if and only if that fits 32 bits; a division always does |
| `MathOps.DivisionFits` | qemu-devices/mathaccel/compute.c:72-72 | a quotient leaves 32 bits for exactly one pair of operands, the one whose division C leaves undefined |
| `MathOps.QuotientIsOne` | qemu-devices/mathaccel/compute.c:72-72 | only one number satisfies the law of the truncating quotient |
| `MathOps.ExecuteAnswers` | qemu-devices/mathaccel/compute.c:49-85 | by the numbers of the interface: opcode 0 answers a + b, 1 a - b and 2 a * b, each in its low 32 bits with status 1, 3 the truncating quotient with status 1 or, for divisor 0, status 4 and result -1, and any other status 2 and result -1 |
| `MathOps.AnswerIsOne` | qemu-devices/mathaccel/compute.c:49-85 | for 32-bit operands, but for the division C leaves undefined, that leaves exactly one status and result |
| `MathHardware.ErrorSettles` | qemu-devices/mathaccel/fsm.c:119-140 | entering ERROR always leaves a cause and an interrupt request, and drops none |
| `MathHardware.JobSettles` | qemu-devices/mathaccel/fsm.c:48-70 | a DMA job ends in READY, or in ERROR with its cause recorded, wherever a ring access fails |
| `MathHardware.CmdSettles` | qemu-devices/mathaccel/fsm.c:72-98 | a legacy command ends in READY, or in ERROR with its cause recorded |
| `MathHardware.WriteSettles` | qemu-devices/mathaccel/bar.c:12-74 | run to completion: from any state but BUSY and for any write, the device is never BUSY afterwards, enters ERROR only with a cause and an interrupt request, leaves ERROR and RESET on no write, and loses no cause |
| `MathHardware.WriteRaises` | qemu-devices/mathaccel/fsm.c:101-140 | a write raises an interrupt only by entering ERROR or with a completion among its causes, and takes none back |
| `MathHardware.ConsumeLoopExits` | qemu-devices/mathaccel/compute.c:16-36 | the consume loop can meet its exit test if and only if the doorbell value names a slot of the ring |
| `MathHardware.DoorbellOutcome` | qemu-devices/mathaccel/compute.c:9-47 | a doorbell in READY, by the bits it leaves: exactly DmaDisabled, DmaBadQueue, DmaRead or DmaWrite added to the error causes with the ERROR interrupt, or exactly JobDone added to the interrupt causes when the job meets no fault, with one interrupt if they are enabled |
| `MathHardware.CommandOutcome` | qemu-devices/mathaccel/fsm.c:72-98 | a legacy command in READY: no command, a failed one and a success by the bits they leave, the answer in the first argument register and the command register emptied |
| `MathHardware.RefusedOutcome` | qemu-devices/mathaccel/fsm.c:170-176 | in any other state both are refused, and only the register written keeps a trace |
| `MathHardware.LegacyCall` | qemu-devices/mathaccel/bar.c:18-27 | two arguments and a command, written one after the other, leave the answer to them in the first argument register |
| `MathHardware.AddressWrites` | qemu-devices/mathaccel/bar.c:33-48 | writing the upper half of a ring address adds its bits, writing the lower half clears the upper one, each for its own ring |
| `MathHardware.PlainWrites` | qemu-devices/mathaccel/bar.c:28-70 | bit 0 of the flags enables interrupts and bit 1 DMA; completion head and ring size keep 16 bits; other offsets do nothing |
| `MathHardware.StatesReached` | qemu-devices/mathaccel/fsm.c:142-168 | which states and events lead to each state, and that no others do |
| `MathHardware.ResetLeavesReady` | qemu-devices/mathaccel/setup.c:25-46 | a reset takes READY or ERROR to an unconfigured READY with empty rings, keeping causes and memory |
| `MathHardware.ConsumeRegisters` | qemu-devices/mathaccel/dma.c:21-99 | after k commands head and completion tail have advanced k slots and no other ring register has changed |
| `MathHardware.ConsumeOneAdvances` | qemu-devices/mathaccel/compute.c:16-36 | each round of the loop leaves one command less |
| `MathHardware.CqSlotsDiffer` | qemu-devices/mathaccel/dma.c:96-96 | the answers of one job go to different slots |
| `MathHardware.ConsumeClosedForm` | qemu-devices/mathaccel/compute.c:16-36 | the closed form of a job: the completion j slots past the tail answers the command j slots past the head, for every j, and every other completion slot is unchanged |
| `MathDevice.Device.DmaReadNext` | qemu-devices/mathaccel/dma.c:17-59 | empty, failed and successful read of the submission head |
| `MathDevice.Device.DmaWriteNext` | qemu-devices/mathaccel/dma.c:62-99 | the completion is stored at the tail without a full test; a failed write changes nothing |
| `MathDevice.Device.Fail` | qemu-devices/mathaccel/compute.c:18-21 | recording a cause and dispatching ERROR |
| `MathDevice.Device.Finish` | qemu-devices/mathaccel/compute.c:44-46 | recording an interrupt cause and dispatching completion |
| `MathDevice.Device.ConsumeNext` | qemu-devices/mathaccel/compute.c:16-34 | one round of the loop: empty, failed read, failed write or one command answered |
| `MathDevice.Device.ConsumeSubmissionQueue` | qemu-devices/mathaccel/compute.c:9-47 | the loop ends, and leaves what the job specification says for every place a ring access can fail |
| `MathDevice.Device.ActionInit` | qemu-devices/mathaccel/fsm.c:16-26 | the four ring indices are zeroed |
| `MathDevice.Device.ActionReset` | qemu-devices/mathaccel/fsm.c:28-46 | flags, arguments, command, bases and indices are cleared |
| `MathDevice.Device.ActionComplete` | qemu-devices/mathaccel/fsm.c:101-117 | an interrupt is triggered only when enabled |
| `MathDevice.Device.ActionError` | qemu-devices/mathaccel/fsm.c:120-140 | the ERROR cause is added, then an interrupt is triggered when enabled |
| `MathDevice.Device.ActionStartDma` | qemu-devices/mathaccel/fsm.c:48-70 | the three refusals in order, else the whole job |
| `MathDevice.Device.ActionDoLegacyJob` | qemu-devices/mathaccel/fsm.c:72-98 | the two failures in order, else the result in the first argument register |
| `MathDevice.Device.FsmDispatch` | qemu-devices/mathaccel/fsm.c:142-183 | the nested dispatch terminates, returns -EINVAL exactly for an illegal transition, and has the effect of the whole chain of events |
| `MathDevice.Device.BarWrite` | qemu-devices/mathaccel/bar.c:12-74 | every register write has its specified effect, and its return value says whether the transition was legal |
| `MathDevice.Device.ReadIrqCause` | qemu-devices/mathaccel/bar.c:97-100 | the read returns the cause and clears it |
| `MathDevice.Device.ReadErrorCause` | qemu-devices/mathaccel/bar.c:102-105 | the read returns the cause and clears it |
| `MathDevice.Device.OnDeviceReset` | qemu-devices/mathaccel/setup.c:25-46 | RESET and, only if that was legal, INIT |
| `MathRings.ConfigureEffect` | qemu-drivers/mathaccel/dma.c:38-50 | programming bases and size and switching both flags on leaves a device whose rings the driver's indices describe |
| `MathRings.ErrorHolds` | qemu-devices/mathaccel/fsm.c:142-183 | no sequence of register writes leads out of ERROR, reaches the ring memory, takes a command or raises an interrupt |
| `MathRings.RecoverEffect` | qemu-drivers/mathaccel/irq.c:15-57 | from any state reached, error handling leaves READY, configured, all indices zero, no error cause, and the ring memory untouched |
| `MathRings.UnresetStaysInError` | qemu-drivers/mathaccel/irq.c:30-47 | when no reset works the driver carries on; whatever is then written to the registers, the device stays in ERROR with no cause left to read, takes no command and raises no interrupt, until something resets it |
| `MathRings.DrainRefreshes` | qemu-drivers/mathaccel/irq.c:82-93 | a drain refreshes both indices the device owns and touches nothing of the device but valid marks |
| `MathPending.DeliverKeepsCallers` | qemu-drivers/mathaccel/irq.c:102-109 | delivering completions adds and removes no caller |
| `MathPending.DeliverSkips` | qemu-drivers/mathaccel/irq.c:102-109 | a caller that none of the completions names is left alone |
| `MathPending.DeliverReaches` | qemu-drivers/mathaccel/irq.c:102-109 | with distinct ids every caller named gets exactly its own completion |
| `MathPending.NoStrays` | qemu-drivers/mathaccel/irq.c:108-109 | no completion is unknown when every id has a record |
| `MathPending.FailAllTells` | qemu-drivers/mathaccel/irq.c:51-56 | every record, and no other, is woken with the cause of an error and result -1 in its own request |
| `MathPending.DeliveredTells` | qemu-drivers/mathaccel/irq.c:102-107 | a record a drain reaches is woken with the cause of a finished job, and result and status of its completion in its own request |
| `MathDriver.Host.SubmitOneCmd` | qemu-drivers/mathaccel/device.c:105-130 | the command goes to the tail slot, whose index is returned, or the ring is full and nothing changes |
| `MathDriver.Host.StartDmaJob` | qemu-drivers/mathaccel/include/device.h:88-96 | the doorbell carries the current tail and runs the device to completion |
| `MathDriver.Host.DrainLocked` | qemu-drivers/mathaccel/irq.c:70-115 | the loop ends; both device indices are refreshed first; records, ring and head are those of the drain specification; an empty ring is reported and nothing else happens |
| `MathDriver.Host.Signal` | qemu-drivers/mathaccel/irq.c:102-109 | the record with the completion's id gets result, status and cause and is woken |
| `MathDriver.Host.PublishHead` | qemu-drivers/mathaccel/irq.c:117-118 | the head is stored and written to the device |
| `MathDriver.Host.InitDma` | qemu-drivers/mathaccel/dma.c:38-50 | the id counter and the indices restart and the five registers are programmed in order |
| `MathDriver.Host.HandleError` | qemu-drivers/mathaccel/irq.c:15-57 | the cause is read, the device is reset if a reset works, it is reconfigured all the same, and every caller is woken with an error |
| `MathDriver.Host.IocBegin` | qemu-drivers/mathaccel/char.c:154-171 | a bad opcode touches nothing; otherwise the next id and a fresh record under it |
| `MathDriver.Host.IocFinish` | qemu-drivers/mathaccel/char.c:182-220 | what an interrupted wait, each wake-up cause and a failed copy return, and that only a result removes the record |
| `MathDriver.Host.TopHalf` | qemu-drivers/mathaccel/irq.c:121-148 | the cause register is moved into the cache, overwriting it; handled in READY and ERROR only |
| `MathDriver.Host.KthreadTake` | qemu-drivers/mathaccel/kthread.c:35-62 | the cached cause is taken and acted on only when it is a single bit |
| `MathDriver.DrainOnce` | qemu-drivers/mathaccel/irq.c:99-114 | one round of the loop against the drain specification |
| `MathDriver.DeliverNext` | qemu-drivers/mathaccel/irq.c:102-109 | one delivery against the delivery of the whole batch |
| `MathDriver.SuccessIff` | qemu-drivers/mathaccel/char.c:182-220 | the call returns 0 exactly for a finished job that is copied out, and each failure has its own number |
| `MathDriver.FailedCallersGetError` | qemu-drivers/mathaccel/irq.c:51-56 | whoever waits when the device fails gets -EIO |
| `MathDriver.DeliveredCallersSucceed` | qemu-drivers/mathaccel/irq.c:102-107 | whose completion a drain takes gets success, with the result and status of that completion |
| `MathDriver.WorkByBit` | qemu-drivers/mathaccel/kthread.c:49-62 | exactly which cause makes the thread drain, read a legacy result, or handle an error |
| `MathDriver.DoorbellIsServed` | qemu-drivers/mathaccel/kthread.c:35-57 | from the doorbell to the thread: one interrupt, and a cause that makes the thread drain if the job met no fault and handle the error otherwise |
| `MathDriver.CommandIsServed` | qemu-drivers/mathaccel/kthread.c:35-57 | the same for a legacy command: the thread reads its result or handles the error |
| `RingProtocol.AnswersAre` | qemu-devices/mathaccel/compute.c:16-34 | the completions a job writes are the executions of the commands from the head on, in order |
| `RingProtocol.TakenInOrder` | qemu-drivers/mathaccel/device.c:119-126 | the command j slots past the device's head is the j-th one submitted and not taken |
| `RingProtocol.AllWaiting` | qemu-devices/mathaccel/dma.c:21-21 | what the device sees waiting is what was submitted and not taken |
| `RingProtocol.AnswerSlotIsFree` | qemu-devices/mathaccel/dma.c:61-99 | the device never overwrites an undrained completion although it does not test for a full ring |
| `RingProtocol.OldCompletionStays` | qemu-devices/mathaccel/dma.c:61-99 | a job leaves every undrained completion in place |
| `RingProtocol.NewCompletionLands` | qemu-devices/mathaccel/dma.c:96-96 | the j-th answer sits in the slot of its counter |
| `RingProtocol.WindowAfterJob` | qemu-devices/mathaccel/compute.c:16-34 | after a job the undrained part of the completion ring is the history of completions |
| `RingProtocol.AnswersAfterJob` | qemu-devices/mathaccel/compute.c:16-34 | after a job completion i still answers command i, for all i |
| `RingProtocol.JobLeaves` | qemu-devices/mathaccel/compute.c:16-47 | registers and memory after a job, for every fault and none |
| `RingProtocol.JobFinds` | qemu-drivers/mathaccel/include/device.h:88-96 | a doorbell finds the rings exactly as the invariant says |
| `RingProtocol.RingKeepsWindows` | qemu-devices/mathaccel/compute.c:9-47 | a doorbell keeps both windows and the answers, faulty or not |
| `RingProtocol.RingKeepsCounters` | qemu-devices/mathaccel/compute.c:9-47 | a doorbell keeps drained <= written <= read <= rung <= submitted, and both rings short of full |
| `RingProtocol.RingKeepsIndices` | qemu-devices/mathaccel/dma.c:55-96 | a doorbell keeps every 16-bit index the residue of its counter |
| `RingProtocol.RingKeepsInv` | qemu-drivers/mathaccel/include/device.h:88-96 | a doorbell keeps the invariant in READY and in ERROR, redundant or batched |
| `RingProtocol.FullWhen` | qemu-drivers/mathaccel/device.c:110-117 | the full test answers exactly when size - 1 commands are not known to be taken |
| `RingProtocol.SubmitSlotIsFree` | qemu-drivers/mathaccel/device.c:119-123 | a submission never overwrites a command the device has not taken |
| `RingProtocol.SubmitKeepsInv` | qemu-drivers/mathaccel/device.c:105-130 | a submission keeps the invariant |
| `RingProtocol.DrainTakesAll` | qemu-drivers/mathaccel/irq.c:99-114 | the drain loop stops at the tail and nowhere before, taking all completions in order, whatever stale entries lie around |
| `RingProtocol.DrainClears` | qemu-drivers/mathaccel/irq.c:111-111 | the loop takes the valid mark off exactly the slots of the completions it takes and changes no other slot |
| `RingProtocol.DrainIsComplete` | qemu-drivers/mathaccel/irq.c:82-114 | in every reachable state a drain takes exactly the undrained completions |
| `RingProtocol.DrainKeepsInv` | qemu-drivers/mathaccel/irq.c:70-115 | a drain keeps the invariant and leaves nothing undrained |
| `RingProtocol.PublishKeepsInv` | qemu-drivers/mathaccel/irq.c:117-118 | storing the head after the lock is released keeps the invariant, whatever happened in between |
| `RingProtocol.RecoverKeepsInv` | qemu-drivers/mathaccel/irq.c:30-47 | recovery restores the invariant with empty windows wherever the fault struck, and stale valid bits are never read as completions |
| `RingProtocol.DoKeepsInv` | qemu-drivers/mathaccel/irq.c:15-119 | every step keeps the invariant |
| `RingProtocol.RingOutcome` | qemu-devices/mathaccel/compute.c:9-47 | what a doorbell gets done: everything waiting, or the k commands before the access that fails, where a failed write leaves one taken and not answered |
| `RingProtocol.StepsAct` | qemu-drivers/mathaccel/device.c:105-130 | a submission is queued unless size - 1 commands are not known to be taken, a doorbell in ERROR answers nothing, a recovery starts afresh in READY |
| `RingProtocol.Run` | qemu-drivers/mathaccel/irq.c:15-119 | over all runs of submissions, doorbells with or without faults, drains and recoveries the invariant holds |
| `RingProtocol.ProbeEstablishesInv` | qemu-drivers/mathaccel/dma.c:8-53 | a fresh probe establishes the invariant whatever the ring memory held |
| `RingProtocol.CompletionsFollowSubmissions` | qemu-devices/mathaccel/compute.c:16-36 | for every schedule, the completions written since the last recovery are the execution of the first commands submitted since then, in order |
| `RingProtocol.HistoryOnlyGrows` | qemu-drivers/mathaccel/device.c:125-126 | no step but a recovery takes back a submission, a completion or a drain |
| `RingProtocol.SubmitOutcome` | qemu-drivers/mathaccel/device.c:102-117 | busy exactly when size - 1 commands are not known to be taken; otherwise the command is appended and its slot is its counter modulo the size |
| `RingProtocol.CompletionSlot` | qemu-drivers/mathaccel/device.c:119-129 | over any later run up to a recovery, faults included: once the command is answered and until its completion is drained, the slot its submission returned holds the result of executing it |
| `RingProtocol.DrainLeavesNothing` | qemu-drivers/mathaccel/irq.c:70-119 | after a drain nothing is left to drain and the driver knows how far the device has got |
| `CallProtocol.BeginKeepsInv` | qemu-drivers/mathaccel/char.c:158-170 | taking an id and registering keeps the invariant |
| `CallProtocol.RefuseKeepsInv` | qemu-drivers/mathaccel/char.c:176-178 | a refused submission keeps the invariant |
| `CallProtocol.EnqueueKeepsInv` | qemu-drivers/mathaccel/char.c:176-178 | submitting keeps the invariant |
| `CallProtocol.BellKeepsInv` | qemu-drivers/mathaccel/char.c:180-180 | ringing keeps the invariant, in ERROR too and wherever a fault strikes |
| `CallProtocol.TakenHaveCallers` | qemu-drivers/mathaccel/irq.c:102-103 | every completion drained belongs to a call that still has its record |
| `CallProtocol.TakenAreDistinct` | qemu-drivers/mathaccel/irq.c:99-114 | no two completions of a drain carry the same id |
| `CallProtocol.TakeReaches` | qemu-drivers/mathaccel/irq.c:99-114 | a drain changes the records of exactly the calls whose completions it takes, each to its own result |
| `CallProtocol.TakeKeepsCalls` | qemu-drivers/mathaccel/irq.c:99-114 | a drain keeps every call in step with its record |
| `CallProtocol.TakeKeepsWoken` | qemu-drivers/mathaccel/irq.c:99-114 | a drain wakes in submission order and finds no unknown id |
| `CallProtocol.ReturnKeepsInv` | qemu-drivers/mathaccel/char.c:204-216 | returning a result keeps the invariant of all other calls |
| `CallProtocol.MoveKeepsInv` | qemu-drivers/mathaccel/char.c:148-221 | every move of every caller and of the kernel thread keeps the invariant |
| `CallProtocol.RunCalls` | qemu-drivers/mathaccel/char.c:148-221 | over all interleavings of any number of calls with the drains, with faults and up to the first recovery, the invariant holds |
| `CallProtocol.Idle` | qemu-drivers/mathaccel/dma.c:8-53 | a freshly probed device with no caller satisfies the invariant |
| `CallProtocol.EndToEnd` | qemu-drivers/mathaccel/char.c:148-221 | in every interleaving up to the first recovery, whatever doorbell faults, a caller that returns a result gets its own opcode, operands and id with the result and status of executing them |
| `CallProtocol.CallerGetsResult` | qemu-drivers/mathaccel/char.c:148-221 | a returned division by zero is reported as one; any other returned call, but for the division C leaves undefined, succeeded, with the mathematical result if and only if that fits 32 bits |
| `CallProtocol.MoveKeepsRequest` | qemu-drivers/mathaccel/char.c:148-221 | no move loses a call or forgets what it asked for |
| `CallProtocol.BeginRegisters` | qemu-drivers/mathaccel/char.c:155-170 | the first phase: the next id, and the request under it with nothing but the id new |
| `CallProtocol.CallerIsAnswered` | qemu-drivers/mathaccel/char.c:148-221 | from the request passed in to the answer: in every run after it, faults included, a call that returns carries its opcode, its operands, the id it was given, and status and result that the numbers of the interface prescribe for them |
| `CallProtocol.WakeUps` | qemu-drivers/mathaccel/irq.c:84-118 | no completion is a stray; callers are woken once each and in submission order; the commands submitted are those in the submission ring, those in the completion ring, those woken and, in ERROR only, at most one taken and not answered |
| `CallProtocol.RingsCount` | qemu-drivers/mathaccel/irq.c:82-86 | the two rings, from head to tail, hold exactly what the device has not taken and what is undrained |
| `CallProtocol.WokenWhenDrained` | qemu-drivers/mathaccel/irq.c:102-107 | a waiting caller is woken if and only if a drain has taken its completion |
| `CallProtocol.BellAnswers` | qemu-drivers/mathaccel/char.c:180-180 | once anybody has rung for it without a fault, a call's command is answered, and a doorbell takes no answer back |
| `CallProtocol.DrainWakes` | qemu-drivers/mathaccel/irq.c:99-114 | a drain lets every waiting caller whose command is answered return |
| `CallProtocol.CallCanFinish` | qemu-drivers/mathaccel/char.c:180-216 | one doorbell and one drain let a submitted call return, unless the device is in ERROR and has not answered it |
| `CallProtocol.CallCompletes` | qemu-drivers/mathaccel/char.c:148-221 | a call that begins in READY with room in the ring gets through |
| `CallProtocol.EnqueueOutcome` | qemu-drivers/mathaccel/char.c:176-178 | a submission is refused exactly when the ring is full, touching nothing; otherwise the request becomes the last command of the ring |
| `CallProtocol.ErrorRun` | qemu-drivers/mathaccel/irq.c:30-47 | in ERROR no sequence of moves adds a completion |
| `CallProtocol.CanFinishIff` | qemu-drivers/mathaccel/char.c:180-216 | which calls a fault strands: a submitted call can return its result before a recovery if and only if the device is not in ERROR or has answered its command |
| `ErrorPath.StepKeepsPath` | qemu-drivers/mathaccel/kthread.c:35-50 | at most one ERROR indication that will be acted on is under way across register (while an interrupt that brings it is outstanding), top half, cache and thread, and its cause is still unread |
| `ErrorPath.AssertionHolds` | qemu-drivers/mathaccel/irq.c:21-22 | the assertion that an error has a cause never fails in runs whose outside resets come while no such indication is under way and the thread is not about to reset |
| `ErrorPath.DriverRunsAreHarmless` | qemu-drivers/mathaccel/irq.c:30-30 | runs in which only the driver resets the device are such runs |
| `ErrorPath.ResetIsHarmlessIff` | qemu-devices/mathaccel/setup.c:25-46 | a reset from outside can make the assertion fail, in some run without a further one, if and only if such an indication is under way or the thread is about to reset |
| `ErrorPath.SafeIff` | qemu-drivers/mathaccel/irq.c:15-47 | over whole runs: no part of a run can go on, without outside resets, to a failing assertion if and only if each outside reset in it was harmless |
| `ErrorPath.OutsideResetCanBreakIt` | qemu-devices/mathaccel/setup.c:25-46 | one outside reset on a fresh device whose interrupts have been switched on, while the first indication is cached, is enough: a concrete run |
| `ErrorPath.CanRecoverIff` | qemu-drivers/mathaccel/kthread.c:45-62 | whether the driver can still bring the device out of ERROR: if and only if an indication of exactly the one bit is on its way to the thread, brought by an interrupt that is outstanding, or the thread is about to reset |
| `ErrorPath.RunStaysUnheard` | qemu-drivers/mathaccel/irq.c:121-148 | otherwise the device stays in ERROR in every run without an outside reset |
| `ErrorPath.UnreadCompletionHidesError` | qemu-devices/mathaccel/fsm.c:120-140 | an error that follows a completion whose cause has not been read is never handled, from any such state |
| `ErrorPath.SilentErrorIsHarmless` | qemu-devices/mathaccel/fsm.c:128-138 | an error while interrupts are off reaches nobody, so that an outside reset after it is harmless: a concrete state in ERROR |
| `LedRender.ClearScreen` | qemu-devices/led/render.c:19-41 | every pixel gets the colour |
| `LedRender.DrawCircle` | qemu-devices/led/render.c:48-85 | exactly the pixels within the radius get the circle's colour |
| `LedRender.RenderLedGrid` | qemu-devices/led/render.c:87-119 | every pixel ends as the 64 discs painted in order leave it |
| `LedRender.RenderDraw` | qemu-devices/led/render.c:145-148 | every pixel of the frame, background and discs together |
| `LedRender.OnlyOwnDisc` | qemu-devices/led/render.c:91-108 | a disc that covers a pixel of the grid is the pixel's own, or an earlier one that touches it where the own disc covers it too |
| `LedRender.LedAtIs` | qemu-devices/led/seat.c:248-287 | the click test names the pixel's cell exactly when that cell's disc covers the pixel |
| `LedRender.PaintedLast` | qemu-devices/led/render.c:97-118 | the last disc over a pixel decides its colour |
| `LedRender.ClickSeesPixel` | qemu-devices/led/seat.c:248-287 | in a window with width/16 <= height/16 every pixel of the 8 by 8 cells shows the colour of the LED the click test returns, or the background if it returns -1, tangent points included |
| `LedRender.WideWindowDisagrees` | qemu-devices/led/seat.c:262-264 | in any wider window a pixel shows a neighbour's colour: a concrete one for every size |
| `LedRender.AgreeWhen` | qemu-devices/led/render.c:91-94 | the two agree on every grid and every pixel if and only if width/16 <= height/16 |
| `LedRender.ScreenIs` | qemu-devices/led/render.c:87-119 | from the numbers of the window alone: the pixel in a cell shows LED 8 * row + column, in its own colour or the common one, within width/16 of the middle, the background elsewhere, and a click there hits that LED or none |
| `LuxPins.DataKeepsInputs` | qemu-devices/lux/f0_bar0.c:91-100 | a DATA write leaves (old & ~dir) or (val & dir), bitwise, direction and colours unchanged |
| `LuxPins.SetMultipleIsMasked` | qemu-drivers/led-gpio/lux-gpio-chip.c:103-115 | set_multiple leaves (old & ~(mask & dir)) or (bits & mask & dir), bitwise |
| `LuxPins.EmitLength` | qemu-devices/lux/led.c:83-92 | the number of commands sent is the count returned |
| `LuxPins.EmitOnce` | qemu-devices/lux/led.c:64-90 | a loop over a word sends one command for each selected LED and none for the others |
| `LuxPins.EmitInOrder` | qemu-devices/lux/led.c:64-90 | a loop sends its commands in the order of the LEDs |
| `LuxPins.SmartLedIs` | qemu-devices/lux/f0_bar1.c:74-87 | an output pin takes the lowest bit of the state, with one command, then the LED the colour, with another; an input pin keeps its state |
| `LuxPins.DataTraffic` | qemu-devices/lux/f0_bar0.c:94-99 | a DATA write sends one command for each output pin whose value changes, in the direction of the change, and nothing else |
| `LuxPins.SetMultipleTraffic` | qemu-drivers/led-gpio/lux-gpio-chip.c:108-110 | SET then CLR equals one DATA write of the merged word, messages included |
| `LuxPins.GetAfterSetMultiple` | qemu-drivers/led-gpio/lux-gpio-chip.c:103-127 | get_multiple reads back what set_multiple wrote on the output pins, and the old value on the others |
| `LuxPins.Lux.GetLedStates` | qemu-devices/lux/led.c:40-58 | the loop accumulates bit 0 of every LED in its place |
| `LuxPins.Lux.SetLedStates` | qemu-devices/lux/led.c:59-94 | selected output pins become 1 and are announced in order; the others are left; the count is theirs |
| `LuxPins.Lux.ClrLedStates` | qemu-devices/lux/led.c:95-129 | selected output pins become 0 and are announced in order; the others are left; the count is theirs |
| `LuxPins.Lux.SetLedColor` | qemu-devices/lux/led.c:131-149 | the colour is stored and announced |
| `LuxPins.Lux.WriteDirection` | qemu-devices/lux/f0_bar0.c:81-89 | eight bytes, or the low four, or an error |
| `LuxPins.Lux.WriteData` | qemu-devices/lux/f0_bar0.c:91-101 | only the bits that change are driven |
| `LuxPins.Lux.WriteSet` | qemu-devices/lux/f0_bar0.c:104-115 | only zero bits of the mask are driven |
| `LuxPins.Lux.WriteClr` | qemu-devices/lux/f0_bar0.c:117-128 | only one bits of the mask are driven |
| `LuxPins.Lux.WriteSmartLed` | qemu-devices/lux/f0_bar1.c:39-87 | an eight-byte write sets state through the pin mask, then colour |
| `LuxPins.GpioChip.SetPin` | qemu-drivers/led-gpio/lux-gpio-chip.c:79-92 | an output pin takes the value, an input pin nothing, no other pin changes |
| `LuxPins.GpioChip.DirectionOutput` | qemu-drivers/led-gpio/lux-gpio-chip.c:22-43 | the pin becomes an output and has the value, whatever it was; nothing else changes |
| `LuxPins.GpioChip.DirectionInput` | qemu-drivers/led-gpio/lux-gpio-chip.c:45-62 | the pin becomes an input and keeps its state |
| `LuxPins.GpioChip.Get` | qemu-drivers/led-gpio/lux-gpio-chip.c:93-101 | the bit of the pin |
| `LuxPins.GpioChip.SetMultiple` | qemu-drivers/led-gpio/lux-gpio-chip.c:103-115 | the SET write and the CLR write one after the other |
| `LuxPins.GpioChip.GetMultiple` | qemu-drivers/led-gpio/lux-gpio-chip.c:116-127 | the masked word |
| `LedMirror.LedServer.constructor` | qemu-devices/led/include/wayland-internal.h:21-41 | all LEDs off in the first colour |
| `LedMirror.LedServer.HandleCommand` | qemu-devices/led/protocol.c:137-175 | a command changes exactly its LED; out-of-range ids and unknown commands change nothing and return an error; the event reports what the LED has become |
| `LedMirror.ApplyIsLocal` | qemu-devices/led/protocol.c:137-175 | a command changes at most the switch or the colour of its LED; toggling twice changes nothing |
| `LedMirror.ApplyAllAppends` | qemu-devices/led/protocol.c:137-175 | applying two batches one after the other is applying them joined |
| `LedMirror.EmitApplies` | qemu-devices/lux/led.c:64-90 | the server, applying the commands of one loop, switches exactly the selected LEDs |
| `LedMirror.AssignKeepsMirror` | qemu-devices/lux/led.c:59-129 | set and clear keep the mirror, with any commands still in flight |
| `LedMirror.SmartLedKeepsMirror` | qemu-devices/lux/f0_bar1.c:74-87 | state and colour written together keep the mirror and add the LED to the coloured ones |
| `LedMirror.ServeKeepsMirror` | qemu-devices/led/protocol.c:137-175 | the server taking a command does not change what the grid will be |
| `LedMirror.NextKeepsMirror` | qemu-devices/lux/f0_bar0.c:73-128 | every register write and every server step keeps the mirror |
| `LedMirror.WritesReach` | qemu-devices/lux/f0_bar0.c:73-128 | what each register write leaves in DATA and direction, pin by pin |
| `LedMirror.RemoteMirror` | qemu-devices/lux/led.c:59-149 | in every run, applying the commands in flight to the server's grid gives the device's on/off bit of all 64 LEDs and the colour of every LED lux has coloured |
| `LedMirror.QuietMirror` | qemu-devices/lux/led.c:59-149 | whenever nothing is in flight, the grid on screen shows the DATA register |
| `LedMirror.ScreenCatchesUp` | qemu-devices/led/protocol.c:137-175 | after any run, once the server has taken what is in flight, the screen shows the DATA register |
| `LuxTimerQueue.InsertKeepsOrder` | qemu-drivers/led-gpio/lux-timer-fops.c:187-216 | the walk stays non-increasing and gains exactly the new subscriber, behind those with the same deadline |
| `LuxTimerQueue.LinkInserts` | qemu-drivers/led-gpio/lux-timer-fops.c:198-212 | linking the node where the walk down ends inserts it in the walk at that place |
| `LuxTimerQueue.ShapeDoesNotMatter` | qemu-drivers/led-gpio/lux-timer-fops.c:214-215 | two trees with the same walk have the same walk after an enqueue, so rebalancing does not matter |
| `LuxTimerQueue.RotationKeepsWalk` | qemu-drivers/led-gpio/lux-timer-fops.c:214-215 | a rotation keeps the walk |
| `LuxTimerQueue.EnqueueWalk` | qemu-drivers/led-gpio/lux-timer-fops.c:187-212 | the loop ends, links the node in place, and its leftmost flag is true exactly when the node becomes first of the walk |
| `LuxTimerQueue.EraseRemoves` | qemu-drivers/led-gpio/lux-timer-core.c:152-153 | erasing a node removes exactly that subscriber |
| `LuxTimerQueue.WithoutKeeps` | qemu-drivers/led-gpio/lux-timer-core.c:152-153 | the walk stays sorted and without duplicates |
| `LuxTimerQueue.CachedTree.Enqueue` | qemu-drivers/led-gpio/lux-timer-fops.c:187-216 | the cached first node is the true first after an enqueue |
| `LuxTimerQueue.CachedTree.Erase` | qemu-drivers/led-gpio/lux-timer-fops.c:244-248 | the cached first node is the true first after an erase |
| `LuxTimerIrq.ExpirePacks` | qemu-drivers/led-gpio/lux-timer-core.c:156-167 | an expiration adds one to the count modulo 2^56 and one cause bit, and disturbs nothing else |
| `LuxTimerIrq.Unpack` | qemu-drivers/led-gpio/include/lux_ioctl.h:26-27 | the two macros a reader uses give back count and cause |
| `LuxTimerIrq.IrqWord.OnExpiry` | qemu-drivers/led-gpio/lux-timer-core.c:156-168 | one expiration of a subscriber |
| `LuxTimerIrq.IrqWord.Read` | qemu-drivers/led-gpio/lux-timer-fops.c:258-291 | a short buffer and an interrupted wait take nothing; a read takes the word and clears it; a failed copy loses it |
| `LuxTimerIrq.WordIsExact` | qemu-drivers/led-gpio/lux-timer-core.c:156-168 | at any time the word holds the number of expirations since the last read and exactly the kinds that occurred |
| `LuxTimerIrq.OverrunsConserved` | qemu-drivers/led-gpio/lux-timer-fops.c:273-282 | over any interleaving, overruns read, lost to faulty reads and still pending add up to the expirations |
| `LuxTimerIrq.NothingLostIff` | qemu-drivers/led-gpio/lux-timer-fops.c:273-282 | callers get every expiration if and only if no faulty read happens while one has occurred since the last read |
| `LuxTimerIrq.FaultLosesOne` | qemu-drivers/led-gpio/lux-timer-fops.c:275-282 | an expiration and then a faulty read: nobody hears of it |
| `LuxTimerWork.FiredMovesOn` | qemu-drivers/led-gpio/lux-timer-core.c:159-162 | one period moves the deadline on by the period in device time, modulo 2^64, whatever the subscriber's offset |
| `LuxTimerWork.FiredCounts` | qemu-drivers/led-gpio/lux-timer-core.c:156-176 | an expiration adds one to the overruns and sets the bit of its own kind, periodic or alarm; a periodic subscriber gets its next deadline, an alarm none; nothing else changes |
| `LuxTimerWork.FiredFallsBack` | qemu-drivers/led-gpio/lux-timer-core.c:159-162 | a period over 2^63 ns moves an expired deadline back, until it wraps to one still ahead |
| `LuxTimerWork.RoundKeepsQueue` | qemu-drivers/led-gpio/lux-timer-core.c:136-191 | a round keeps the queue sorted, distinct and armed |
| `LuxTimerWork.RoundFinishes` | qemu-drivers/led-gpio/lux-timer-core.c:136-191 | a round keeps a queue that will finish so, and lowers the termination measure |
| `LuxTimerWork.RoundStays` | qemu-drivers/led-gpio/lux-timer-core.c:136-191 | a round of a queue that will not finish leaves one that will not |
| `LuxTimerWork.RotationNears` | qemu-drivers/led-gpio/lux-timer-fops.c:203-208 | a subscriber with period 0 goes behind those with the same deadline, so one that moves comes nearer the head |
| `LuxTimerWork.LoopEndsIff` | qemu-drivers/led-gpio/lux-timer-core.c:136-191 | exactly when the loop ends, for all 64-bit periods: the first deadline is ahead, or no periodic subscriber has period 0, or one with a period never falls back below one without |
| `LuxTimerPass.Work` | qemu-drivers/led-gpio/lux-timer-core.c:124-191 | a pass leaves an empty queue or one whose first deadline is ahead |
| `LuxTimerPass.OnePeriodMore` | qemu-drivers/led-gpio/lux-timer-core.c:157-162 | n + 1 periods are one period and then n, in deadline, device time, count and cause |
| `LuxTimerPass.PassAccounts` | qemu-drivers/led-gpio/lux-timer-core.c:145-189 | every subscriber still queued has moved on by as many periods as its overruns grew, none early; every alarm taken out was due |
| `LuxTimerPass.PassConserves` | qemu-drivers/led-gpio/lux-timer-core.c:151-190 | nobody is lost and nobody duplicated |
| `LuxTimerPass.HeadCatchesUp` | qemu-drivers/led-gpio/lux-timer-core.c:159-190 | a periodic subscriber at the head catches up in one pass and nobody else is looked at |
| `LuxTimerPass.PassInClosedForm` | qemu-drivers/led-gpio/lux-timer-core.c:136-191 | the whole pass: alarms in front ring off, the first periodic subscriber moves to its first deadline after now, everything behind is left alone |
| `LuxTimerPass.LonePeriodic` | qemu-drivers/led-gpio/lux-timer-core.c:159-190 | a lone periodic subscriber gets exactly floor((now - deadline) / period) + 1 overruns |
| `LuxTimerPass.OthersStayLate` | qemu-drivers/led-gpio/lux-timer-fops.c:203-208 | because the walk is latest first, everybody but the head is still late after a pass |
| `LuxTimerPass.LateWhen` | qemu-drivers/led-gpio/lux-timer-fops.c:203-208 | before the pass: with a first periodic subscriber that moves forward, somebody is late afterwards exactly when somebody is queued behind it |
| `LuxTimerPass.LateIff` | qemu-drivers/led-gpio/lux-timer-fops.c:203-208 | somebody is late after a pass exactly when somebody besides the head is still queued |
| `LuxClock.PeriodicIsPhysical` | qemu-drivers/led-gpio/lux-timer-fops.c:411-425 | a period counts from now in device time, whatever the subscriber's offset |
| `LuxClock.AlarmIsPhysical` | qemu-drivers/led-gpio/lux-timer-fops.c:360-379 | an alarm keeps the caller's deadline, and where it lies in device time |
| `LuxClock.ArmingKeeps` | qemu-drivers/led-gpio/lux-timer-fops.c:354-431 | arming replaces deadline and, for a period, the period, and nothing else |
| `LuxClock.PeriodicComesAround` | qemu-drivers/led-gpio/lux-timer-fops.c:411-425 | set to a period and in periodic mode, the n-th expiration is due n periods from now in device time, for every n |
| `LuxClock.TestsAgreeIff` | qemu-drivers/led-gpio/lux-timer-fops.c:161-174 | the worker's test and the reprogramming test agree if and only if the subscriber's time does not pass 2^64 in between |
| `LuxClock.PastAlarm` | qemu-drivers/led-gpio/lux-timer-fops.c:354-386 | an alarm set further back than the device has been running: when it is due, and that until the subscriber's time wraps, and no longer, reprogramming finds it passed although the worker does not |
| `LuxClock.RecentAlarm` | qemu-drivers/led-gpio/lux-timer-fops.c:354-386 | one set no further back is due at once for both |
| `LuxClock.PastAlarmExample` | qemu-drivers/led-gpio/lux-timer-fops.c:165-174 | a concrete alarm that reprogramming finds passed and the worker does not, for almost 2^64 ns |
| `LuxClock.RequeueKeeps` | qemu-drivers/led-gpio/lux-timer-fops.c:370-383 | queueing an armed subscriber anew keeps what the worker relies on |
| `LuxClock.Clock.Reprogram` | qemu-drivers/led-gpio/lux-timer-fops.c:146-185 | interrupt off for an empty queue, worker queued for a late head, else comparator at the head's deadline with interrupt on |
| `LuxClock.Clock.ServeFirst` | qemu-drivers/led-gpio/lux-timer-core.c:138-190 | one round of the worker in place |
| `LuxClock.Clock.DrainExpired` | qemu-drivers/led-gpio/lux-timer-core.c:132-191 | the loop ends and leaves the queue and the alarms of the pass specification |
| `LuxClock.Clock.WorkFunc` | qemu-drivers/led-gpio/lux-timer-core.c:124-197 | the pass, then the reprogramming |
| `LuxClock.Clock.Requeue` | qemu-drivers/led-gpio/lux-timer-fops.c:368-383 | the subscriber is taken out if queued and goes in at its new place |
| `LuxClock.Clock.AlarmSet` | qemu-drivers/led-gpio/lux-timer-fops.c:354-387 | the capabilities, the limit for the unprivileged, the new deadline, the queue, still fit for the worker, and the comparator |
| `LuxClock.Clock.PeriodicSet` | qemu-drivers/led-gpio/lux-timer-fops.c:401-431 | the capabilities, the limit for the unprivileged, deadline and period, the queue, still fit for the worker, and the comparator |
| `LuxArming.EnqueueOk` | qemu-drivers/led-gpio/lux-timer-fops.c:368-384 | arming keeps the queue fit for the worker and nobody both queued and idle |
| `LuxArming.PassedOk` | qemu-drivers/led-gpio/lux-timer-core.c:136-191 | so does a pass, and what it takes out can be armed again |
| `LuxArming.StepsAreOwn` | qemu-drivers/led-gpio/lux-timer-fops.c:219-448 | a step makes of the record of the subscriber that takes it what it says, and changes nobody else's |
| `LuxArming.PassLosesNobody` | qemu-drivers/led-gpio/lux-timer-core.c:136-191 | after a pass of the worker everybody who was there is still there, queued or idle |
| `LuxArming.Run` | qemu-drivers/led-gpio/lux-timer-fops.c:297-448 | over all runs of opening, arming, mode changes, reads, passes and closing the queue is fit for the worker |
| `LuxArming.StallsIff` | qemu-drivers/led-gpio/lux-timer-fops.c:436-441 | while nobody is periodic without a period, a step makes somebody so exactly if it asks for periodic mode without a period or takes the period away, and the worker does not hang |
| `LuxArming.CarefulRunsGoOn` | qemu-drivers/led-gpio/lux-timer-core.c:136-191 | in runs without such steps every pass of the worker ends |
| `LuxArming.AlarmThenPeriodicHangs` | qemu-drivers/led-gpio/lux-timer-fops.c:354-441 | an alarm, then periodic mode: the pass at its deadline never ends, a concrete run |
| `LuxTimerUsers.ClockUsers.Open` | qemu-drivers/led-gpio/lux-timer-fops.c:219-233 | a new subscriber has neither flag |
| `LuxTimerUsers.ClockUsers.EnableBits` | qemu-drivers/led-gpio/lux-timer-fops.c:37-63 | flags, counters and register of enabling |
| `LuxTimerUsers.ClockUsers.DisableBits` | qemu-drivers/led-gpio/lux-timer-fops.c:65-101 | flags, counters and register of disabling |
| `LuxTimerUsers.ClockUsers.Release` | qemu-drivers/led-gpio/lux-timer-fops.c:235-256 | disabling everything, then the subscriber is gone |
| `LuxTimerUsers.ClearsTimerIff` | qemu-drivers/led-gpio/lux-timer-fops.c:74-86 | a call takes the timer and interrupt bits away exactly when nobody else is enabled |
| `LuxTimerUsers.SwitchIs` | qemu-drivers/led-gpio/lux-timer-fops.c:37-101 | enabling adds the subscriber to the enabled ones, and with periodic mode to the periodic ones, disabling takes it out, and nobody else changes |
| `LuxTimerUsers.PerformIs` | qemu-drivers/led-gpio/lux-timer-fops.c:219-256 | who is open, enabled and periodic after each call |
| `LuxTimerUsers.TimerRunsWhileUsed` | qemu-drivers/led-gpio/lux-timer-fops.c:37-101 | as long as calls do not overlap, the counters are exact, the timer and interrupt bits are set exactly while somebody is enabled, and the reload bit never |
| `LuxTimerCalls.UndisturbedIsAtomic` | qemu-drivers/led-gpio/lux-timer-fops.c:37-101 | a call nobody interferes with has the effect LuxTimerUsers gives it, whatever other calls rest half-way |
| `LuxTimerCalls.UndisturbedRelease` | qemu-drivers/led-gpio/lux-timer-fops.c:235-256 | the release of the last reference, when nobody interferes, has the effect LuxTimerUsers gives it |
| `LuxTimerCalls.TestBalancesIff` | qemu-drivers/led-gpio/lux-timer-fops.c:45-48 | a test that passes keeps the counter exact if and only if no other call on the subscriber has passed it and not yet stored the flag |
| `LuxTimerCalls.StepSteadyIff` | qemu-drivers/led-gpio/lux-timer-fops.c:37-101 | every other part of a call keeps it exact |
| `LuxTimerCalls.BalancedAtRest` | qemu-drivers/led-gpio/lux-timer-fops.c:45-55 | when no call is half-way, exact means that the counter is the number of subscribers with the flag |
| `LuxTimerCalls.CountsExactIff` | qemu-drivers/led-gpio/lux-timer-fops.c:37-101 | in any run of calls by any threads a counter is exact throughout if and only if no two calls of one subscriber are ever between test and flag at once |
| `LuxTimerCalls.DoubleEnableCountsTwice` | qemu-drivers/led-gpio/lux-timer-fops.c:45-48 | two threads enabling one subscriber leave the counter at 2: a concrete run |
| `LuxTimerCalls.DoubleEnableKeepsTimerOn` | qemu-drivers/led-gpio/lux-timer-fops.c:74-86 | disabled again, it leaves the timer on with nobody enabled |
| `LuxTimerCalls.DoubleDisableCountsTwice` | qemu-drivers/led-gpio/lux-timer-fops.c:74-86 | two threads disabling one subscriber leave the counter at -1: a concrete run |
| `LuxTimerStops.RunCtrlsOk` | qemu-drivers/led-gpio/lux-timer-fops.c:65-101 | in every run a call only clears bits of the register value it read, and none before its first count |
| `LuxTimerStops.DuesAfter` | qemu-drivers/led-gpio/lux-timer-fops.c:74-79 | the calls that will count a flag are the same after any part of any call, but for the one that has just counted |
| `LuxTimerStops.WillHoldAfter` | qemu-drivers/led-gpio/lux-timer-fops.c:45-55 | who will be enabled at the end does not depend on the order of the parts |
| `LuxTimerStops.TimerCanStopIff` | qemu-drivers/led-gpio/lux-timer-fops.c:37-101 | with calls anywhere in progress, some order of what is left of them stops the timer under an enabled subscriber if and only if somebody will be enabled, and a call is about to switch the timer off, or can count a counter to 0 and then is, or the timer is off and no call needs to switch it on |
| `LuxTimerStops.RaceStopsTimer` | qemu-drivers/led-gpio/lux-timer-fops.c:71-99 | a concrete run of two subscribers' calls that ends with the timer off under an enabled one |
| `LuxTimerHardware.TimerDevice.constructor` | qemu-devices/lux/include/device.h:80-92 | everything zero, the last tick at the host's time |
| `LuxTimerHardware.TimerDevice.Tick` | qemu-devices/lux/timer.c:7-34 | disabled nothing; else counter, interrupt and reload or disarm |
| `LuxTimerHardware.TimerDevice.WriteRegister` | qemu-devices/lux/f1_bar0.c:68-96 | mask, acknowledge, control, and comparator with its distance |
| `LuxTimerHardware.TimerDevice.IrqTick` | qemu-devices/lux/irq.c:9-25 | one trigger of the parent for each line that is pending and not masked |
| `LuxTimerHardware.LinesAfterEvent` | qemu-devices/lux/timer.c:22-24 | a tick that fires adds the timer's line, an acknowledgement takes the lines it names, and nothing else changes them |
| `LuxTimerHardware.PendingIff` | qemu-devices/lux/timer.c:22-24 | over any ticks and register writes: the timer's line is pending if and only if a tick has fired since it was last acknowledged, or it was pending before and nobody has acknowledged it |
| `LuxTimerHardware.MaskIsLast` | qemu-devices/lux/f1_bar0.c:72-74 | over any ticks and register writes the mask is what was last written to it |
| `LuxTimerHardware.CtrlIsLast` | qemu-devices/lux/timer.c:26-30 | over any ticks and register writes the control register is what was last written to it, but for the interrupt bit that a firing without reload takes away |
| `LuxTimerHardware.FiringRaises` | qemu-devices/lux/irq.c:9-25 | a firing raises the parent's pin unless line 0 is masked, until it is acknowledged or masked |
| `LuxTimerHardware.RegistersFit` | qemu-devices/lux/timer.c:20-28 | counter, comparator and period stay 64-bit numbers |
| `LuxTimerHardware.OffsetIsConstant` | qemu-devices/lux/timer.c:9-20 | over any ticks and register writes the counter's distance from the host clock never changes, enabled or not |
| `LuxTimerHardware.TickPlain` | qemu-devices/lux/timer.c:12-31 | a tick in plain arithmetic while no register wraps |
| `LuxTimerHardware.ReloadDoesNotDrift` | qemu-devices/lux/timer.c:22-31 | after k interrupts the comparator stands at cmp0 + k * delta, and none came early |
| `LuxTimerHardware.ReloadKeepsUp` | qemu-devices/lux/timer.c:22-31 | with ticks at most a period apart, the number of interrupts is floor((val - cmp0) / delta) + 1 after every tick, 0 before cmp0 |
| `LuxTimerHardware.KeepsUpIff` | qemu-devices/lux/timer.c:22-31 | for any ticks: the interrupts match the deadlines passed after every tick if and only if no tick passes two at once |
| `LuxTimerHardware.CmpWriteStarts` | qemu-devices/lux/f1_bar0.c:91-96 | a comparator ahead of the counter starts such a run with the period as its distance |
| `LuxTimerHardware.OneShot` | qemu-devices/lux/timer.c:29-30 | without reload there is one interrupt at most, at the first tick that reaches the comparator |
| `LatencyStats.ThreadContext.CalculateIterationStats` | user-clients/concurrency-hammer.c:231-245 | one update of total, extremes, mean and squares |
| `LatencyStats.ThreadContext.RunIterations` | user-clients/concurrency-hammer.c:272-300 | the loop skips failed calls, numbers iterations from 1, and ends early when the clock fails, before or after an ioctl |
| `LatencyStats.SquaresAround` | user-clients/concurrency-hammer.c:240-244 | the squares around any point from the sum and the squares around zero |
| `LatencyStats.SquaresGrow` | user-clients/concurrency-hammer.c:240-244 | the update adds exactly what the sum of squared deviations around the new mean gains |
| `LatencyStats.MeanIff` | user-clients/concurrency-hammer.c:240-241 | dividing by k gives the new mean if and only if k is the new number of samples or the sample equals the mean |
| `LatencyStats.ExactIff` | user-clients/concurrency-hammer.c:231-245 | an update keeps the statistics those of the two-pass definition if and only if the iteration number is the number of samples, or the sample equals the mean |
| `LatencyStats.AlwaysExactIff` | user-clients/concurrency-hammer.c:272-300 | over a whole run: the statistics are those of the two-pass definitions after every iteration if and only if every sample taken after a failed call equals the mean at that moment |
| `LatencyStats.OnlineIsTwoPass` | user-clients/concurrency-hammer.c:231-245 | with no failed call, mean = sum / n and m2 = the sum of (x - mean)^2 |
| `LatencyStats.ReportIsTwoPass` | user-clients/concurrency-hammer.c:240-244 | with no failed call, the mean and squares a thread ends with are those of the two-pass definitions |
| `LatencyStats.ReportVariance` | user-clients/concurrency-hammer.c:247-251 | the reported variance is the squares over one less than the iterations: the sample variance with no failed call |
| `LatencyStats.ExtremesOfSamples` | user-clients/concurrency-hammer.c:237-238 | the extremes bound every sample and are reached, whatever fails |
| `LatencyStats.CountersAreExact` | user-clients/concurrency-hammer.c:286-292 | the success counter is the number of calls with the right result and the error counter of those with a wrong one, failed calls being neither |
| `LatencyStats.FailureShiftsMean` | user-clients/concurrency-hammer.c:281-284 | one failed call shifts the mean: a concrete run |
| `LatencyStats.LatencyRounds` | user-clients/concurrency-hammer.c:219-229 | a latency is the elapsed time rounded down, one more exactly when the nanoseconds went back by a fraction of a microsecond |

## Left out

- Liveness of wake-ups: the top half overwrites the cached cause, so a drain can be delayed until
  the next job; what is proved is safety, and that one doorbell and one drain suffice.
- The signal, shutdown and copy-failure exits of the compute ioctl in `CallProtocol`: they free the
  record, and the first two leave it in the map; `IocFinish` has them on their own.
- A submission refused as busy frees its record and leaves it in the map too; records are values
  here, so the model shows the entry and not the freed memory.
- Ids after the 32-bit counter wraps, and ids reused after a recovery restarts the counter: a run
  of calls takes fewer than 2^32 ids.
- EndToEnd: is stated up to the first recovery, which fails every call in progress and restarts the
  ids; `RingProtocol` covers recoveries for the rings.
- RecoverKeepsInv: takes a recovery as one step, while the driver resets its indices without the lock
  that submissions take; a submission in between is not modelled.
- Clock.AlarmSet: queueing and reprogramming are one step, while the driver drops the lock on the
  queue before it reprograms.
- ResetIsHarmlessIff: the runs that fail may contain any register write, as a guest could make it,
  and not only those of this driver.
- TimerRunsWhileUsed: that calls do not overlap is sufficient; `TimerCanStopIff` is exact, for calls
  anywhere in progress.
- TimerCanStopIff: of several calls on one subscriber, all but one have only their stores left;
  where more of them overlap, which test passes depends on the order.
- WriteSettles: asks for a doorbell value that names a slot of the ring, since the device's loop does
  not end for others, as `ConsumeLoopExits` says; so do the methods that run a job:
- Device.ConsumeSubmissionQueue: asks for such a value.
- Device.ActionStartDma: asks for such a value when the job would run.
- Device.FsmDispatch: asks for such a value for the event that runs a job.
- Device.BarWrite: asks for such a value when the doorbell would run a job.
- Device.ConsumeNext: and, like them, for ring registers that index the ring.
- ExecuteOperation: for the one division that C leaves undefined it gives the wrapped quotient.
- Clock.DrainExpired: asks for a queue whose loop ends, as `LoopEndsIff` says, and a device time
  below 2^63 ns.
- Clock.WorkFunc: asks for the same.
- Clock.PeriodicSet: the enabling of the bits that follows is a call of `LuxTimerCalls`.
- LedServer.HandleCommand: LED numbers are not negative; the server's range test admits negative ones.
- LoopEndsIff: for device times below 2^63 ns, which the timer reaches after 292 years.
- PassInClosedForm: for a first periodic subscriber with a period from 1 to 2^63 ns; `PassAccounts`,
  `PassConserves` and `LateIff` cover all periods.
- LonePeriodic: for periods from 1 to 2^63 ns, as longer ones count backwards.
- ReloadDoesNotDrift: for runs in which no 64-bit register wraps.
- OverrunsConserved: for fewer than 2^56 events; `WordIsExact` says what the word holds beyond that.
- Setting the virtual time of a queued subscriber (LUX_TIME_SET): it keeps the old deadline in device time
  and clears the node before erasing it.
- Rebalancing of the tree: kernel library code; any tree with the same walk is allowed for.
- The node pointers of the tree: it is a value that the walk takes apart and puts together again.
- Flags of a subscriber changing while the worker holds it; asynchronous signals; poll.
- Other writers of the timer's control register beside the reference counts: reprogramming (which
  `LuxClock` has on its own), the clock event device, virtual time.
- Four-byte accesses to the smart-LED registers, whose offset test never selects a colour when
  aligned, and LED numbers past 63.
- Other clients of the LED server and full or partial socket writes.
- Events the LED server sends back to the device, and the interrupts they raise there.
- Clicks in the margin right of and below the 8 by 8 cells; windows narrower than 8 pixels, where the
  click test divides by zero; 32-bit overflow in the geometry.
- The byte layout of pixels, the stride, the choice of the free buffer and everything Wayland.
- The value of the square root in the standard deviation, rounding of doubles, and 64-bit wrap of the
  total latency.
- The legacy read and write path of the mathaccel character device beyond the device's own part.
- Probe, remove, PCI, IRQ and memory allocation, logging, sysfs, vfio-user and sockets.
