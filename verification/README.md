# proto-os: the kernel as a verified state machine

proto-os is a small AArch64 kernel: three EL0 tasks in one shared sandbox, synchronous IPC over
fixed endpoints, a supervisor that is told of task deaths, a round-robin scheduler with deferred
preemption, and an identity-mapped MMU. Its bookkeeping of "who waits for whom" is spread over the
endpoints, the supervisor's slot and the thread table; only `panic` calls check that the pieces
agree. This project models that system and proves that they do agree, in every run, whatever EL0
does, and what follows from it.

## How it is organised

- `Base`, `Memory`, `State`: machine integers, the sandbox bytes with the byte-by-byte forward copy,
  the kernel's records.
- `Threads`, `Ipc`, `Supervisor`, `Machine`: one state transformer per C function, panics included
  (`Result<.., Panic>`), up to `Machine.Step`, which takes one event: a trap from EL0 with any
  registers (and any bytes EL0 left in the sandbox), a timer tick, or a pass of the idle loop.
- `Globals`: the kernel as it runs, a class whose fields are the C globals (thread table, endpoint
  table and sandbox as arrays) and whose methods update them in place, loops included. Each method
  is proved to do what the state transformer of the same name says, panic for panic.
- `Invariant`, `Runs`: the inductive invariant, its preservation handler by handler, and what holds
  of every run. `Scheduler`, `Fairness`, `Context`, `Resumption`, `Faults`, `Buffers`, `Overlap`,
  `Shapes`, `Rpc`/`RpcKernel`, `Mailbox`, `Rendezvous`, `Witnesses`, `WaitGraph`/`KernelGraph`/`HangRuns`:
  the theorems about scheduling, registers, faults, memory, endpoints, death notices and hanging.
- `Abi`, `Clock`, `Effects`, `SavedCalls`, `RoundTrip`: what every trap does, in plain numbers and field by
  field (who leaves the CPU, the exact answer, the line, every thread and endpoint), the clock over runs,
  and call and reply over runs told from the two tasks' registers.
- `Shipped*`, `Wire*`, `Progress`, `CrashRun`, `Latency*` and `Benchmark`: the three shipped EL0 programs as
  constraints on the traps they make, in the OFF and RECOVERY builds and in the LATENCY build. A program point is the address EL0 is
  entered at, so each program's position is carried by the ELR the kernel saves and restores.
- `Samples`: the benchmark client's in-place sort, median and collection loop. `Mmu`: the table
  builder over arrays of descriptors, and the hardware's table walk.

Atomicity follows the source: handlers and the return continuation run with IRQs masked up to the
reschedule point; there interrupts open, and any number `w` of ticks may be charged to the outgoing
thread before the switch. Later ticks fall to the incoming thread and are the tick events that follow.

## What turned out false, and what holds instead

- The cleanup on task death does not always clear an endpoint's in-flight state, as
  `proto-os/docs/design.md:88` says: a request that its owner answered before receiving it survives the
  owner. `Shapes.DeathLeaves` gives the exact condition and `Witnesses.RequestOutlivesOwner` a run.
- The two rendezvous orders do not always leave the same memory: the direct copy repeats bytes when the
  receiver's buffer starts strictly inside the sender's. `Rendezvous.OrderDoesNotMatter` compares the
  two runs and gives the exact condition, `Rendezvous.OverlapDiffers` two runs that differ.
- Tasks can hang for good, and the kernel neither refuses nor notices it. An owner that receives again
  without replying sleeps beside its own caller (`Shapes.WedgedExactly`, `Shapes.WedgedForever`); an
  owner that calls its own endpoint waits for itself (`HangRuns.SelfCallHangs`); two owners can wait for
  each other (`WaitGraph.MutualWait`), and a call can be queued for a dead owner that nobody can
  restart (`WaitGraph.CallToTheDead`).
  `HangRuns.RunsAgainExactly` says exactly which tasks can run again, as a least fixpoint over the wait
  slots, and `HangRuns.TrapStartsHangExactly` exactly which traps start a hang.
- An EL0 fault does not always kill the faulting task only, as `proto-os/docs/design.md:43` and `:115`
  say: taken at an ELR outside the sandbox, a wild jump for instance, it stops the kernel
  (`Faults.WildJumpStopsTheKernel`). `Faults.FaultContainedExactly` gives the exact condition and what
  containment means; `Runs.PanicsExactly` covers all traps.
- The reload of an empty quantum in `thread_switch_to` is dead code (`Scheduler.SwitchNeverReloads`),
  and so are the two branches of the death cleanup that look for the dying task as a waiting caller or
  receiver (`Runs.AwakeIsUnnamed`).
- The device attribute is named nGnRE but its MAIR byte, 0x00, is Device-nGnRnE; the model uses the
  attribute index only.

## Model

| member | source | states |
|---|---|---|
| `Invariant.BootInv` | proto-os/kernel/core/thread.c:390-453 | the state in which task_a first enters EL0 satisfies the system invariant: one running thread, DEAD iff STOPPED, wait slots and blocked tasks in one-to-one correspondence, buffers and mailbox well-formed |
| `Invariant.HandleTrapInv` | proto-os/kernel/arch/aarch64/arch.c:32-41 | from the invariant, no trap handler panics except for an ELR outside the sandbox; it either answers (invariant kept) or leaves the task ready to be parked with its wait slot already filled |
| `Invariant.SubmitInv` | proto-os/kernel/core/ipc.c:158-182 | accepting a call registers the caller in exactly one wait slot, and the wake of a sleeping receiver never panics |
| `Invariant.ReplyInv` | proto-os/kernel/core/ipc.c:228-268 | a reply wakes a task that is blocked, so its wake panics are unreachable |
| `Invariant.DeathFromInv` | proto-os/kernel/core/ipc.c:113-133 | cleanup after a death never wakes a dead or non-user thread, and leaves wait slots and blocked tasks matching |
| `Invariant.NoteDeathInv` | proto-os/kernel/core/supervisor.c:15-32 | reporting a death wakes only a blocked supervisor, and the waiter slot and the mailbox are never both full |
| `Invariant.ParkInv` | proto-os/kernel/core/thread.c:245-281 | the first half of the return step never panics on a redirected task and leaves no thread running |
| `Invariant.PickIdleMeansNone` | proto-os/kernel/core/thread.c:154-178 | idle is picked only when no user task is selectable |
| `Invariant.ResumeSwitched` | proto-os/kernel/core/thread.c:283-296 | the thread switched to, fresh, restarted, or inside the return step it died in, resumes without the "dead task resumed" and "ELR outside" panics and re-establishes the invariant |
| `Invariant.StepInv` | proto-os/kernel/core/thread.c:245-296 | every step of the machine keeps the invariant; a panic is possible only for a trap whose ELR is outside the sandbox, and is that one |
| `Runs.SafeRuns` | proto-os/kernel/core/thread.c:180-376 | every run with trap ELRs inside the sandbox is panic-free, and in every reachable state a task is BLOCKED iff some wait slot names it, by exactly one slot; DEAD iff STOPPED; exactly one thread is RUNNING, the current one; quanta are in 1..10 |
| `Runs.ParksExactly` | proto-os/kernel/core/syscall.c:42-114 | a trap leaves through the return continuation exactly under a condition told from the registers and the pre-state; every other trap is answered at once |
| `Runs.PanicsExactly` | proto-os/kernel/core/thread.c:490-516 | a step panics if and only if it is a parking trap taken at an ELR outside the sandbox |
| `Runs.RunsExactly` | proto-os/kernel/core/thread.c:490-516 | a run of arbitrary EL0 code reaches its end if and only if no parking trap of it is taken at an ELR outside the sandbox |
| `Abi.LeavesParks` | proto-os/kernel/core/syscall.c:42-114 | the same condition in plain numbers: syndrome range, call numbers, address bounds, slots |
| `Abi.AnsweredExactly` | proto-os/kernel/core/syscall.c:42-114 | every other trap comes back with the exact answer in x0 and all other registers as trapped: the clock, the length written, the bytes received, the death notice, 0 for an accepted reply or restart; a call that is not granted (unknown number, busy endpoint, buffer outside, stranger's receive, reply or restart) gets 2^64-1 and changes nothing else; for a granted one the new endpoint, caller, mailbox or task_b is given field by field |
| `Machine.SvcByEsr` | proto-os/kernel/arch/aarch64/arch.c:32-41 | a trap is a system call exactly if bits 31 to 0 of ESR lie in 0x54000000..0x57FFFFFF, whatever bits 63 to 32 are |
| `Abi.EsrDecides` | proto-os/kernel/arch/aarch64/arch.c:32-41 | a trap in that range never logs a fault line and kills its task only by exit; any other logs exactly one item, a fault line, and kills its task |
| `Abi.LineAfterTrap` | proto-os/kernel/core/thread.c:261-271 | the UART line after any trap: one fault line with ESR, ELR and FAR, one exit line, the buffer's bytes lowest address first for a write that goes straight out, nothing for everything else |
| `Abi.BootState` | proto-os/kernel/core/thread.c:390-453 | the state after boot in plain numbers: clock 0, full quanta, fresh registers, endpoint owners, empty line and mailbox |
| `Clock.ClockCounts` | proto-os/kernel/core/thread.c:455-470 | over every run the clock moves by the ticks that occur in it (timer events and ticks charged at switches and idle passes), modulo 2^64 |
| `Clock.ReadsTicksSinceBoot` | proto-os/kernel/core/syscall.c:54-55 | in every run from boot, system call 1 leaves its task running with the number of ticks since boot, modulo 2^64, in x0 |
| `Clock.ReadsDiffer` | proto-os/kernel/core/thread.c:559-561 | two clock reads, by whichever tasks, differ by exactly the ticks of the run between them |
| `Faults.FaultContainedExactly` | proto-os/kernel/core/thread.c:518-557 | an EL0 fault kills its task only (one line logged, callers it serves woken with -1, the supervisor told, all other tasks and endpoints and the memory untouched) if and only if its ELR is inside the sandbox; otherwise the kernel stops |
| `Faults.WildJumpStopsTheKernel` | proto-os/docs/design.md:115 | one instruction abort at address 0, from boot, stops the kernel |
| `Runs.AwakeIsUnnamed` | proto-os/kernel/core/ipc.c:119-131 | a running task is named by no wait slot, so a dying task is never found as a waiting caller or receiver |
| `Runs.IdleIsAbsorbing` | proto-os/kernel/core/thread.c:382-388 | once idle is current, every later run changes only the tick count, the idle quantum and the reschedule flag |
| `Scheduler.PickIsNearest` | proto-os/kernel/core/thread.c:154-178 | for any number of threads, the picked slot is the selectable user slot with the least cyclic distance, and idle only if there is none |
| `Scheduler.RoundRobin` | proto-os/kernel/core/thread.c:472-488 | for any number n of threads and any changing table, a user slot that stays selectable is picked within as many picks as its cyclic distance |
| `Scheduler.DistanceBound` | proto-os/kernel/core/thread.c:159-161 | that distance is at most n-1 exactly when another slot is current |
| `Fairness.EntersWithin` | proto-os/kernel/core/thread.c:472-488 | in every run, a task that can run enters EL0 with its saved registers before the kernel has made as many return steps as its distance from the current task, at most three |
| `Fairness.EventPicksNearest` | proto-os/kernel/core/thread.c:154-178 | each return step brings a waiting task strictly nearer or runs it, no other event moves the CPU away |
| `Scheduler.QuantumAfter` | proto-os/kernel/core/thread.c:455-470 | k ticks from quantum q raise floor((k+10-q)/10) reschedule requests and leave 10-((k+10-q) mod 10); the flag is set iff it was or a request was raised; the clock advances modulo 2^64 |
| `Scheduler.SwitchNeverReloads` | proto-os/kernel/core/thread.c:194-196 | in every reachable state the reload of an empty quantum changes nothing |
| `Context.TrapOwnCtx` | proto-os/kernel/core/thread.c:506-515 | an answered trap changes x0 only; a parked task keeps exactly its 31 trapped registers, SP, ELR and SPSR |
| `Context.StepOtherCtx` | proto-os/kernel/core/thread.c:358-376 | one step touches another task's registers only by one wake (x0 alone) or one restart (stored entry and stack, zeroed registers) |
| `Context.BlockedWakes` | proto-os/kernel/core/thread.c:373-375 | between blocking and its next entry into EL0 a task is woken exactly once |
| `Resumption.TrapToResume` | proto-os/kernel/core/thread.c:134-152 | over any run in between, told from the trap: a yield resumes with all registers as trapped, an exit or a fault only as a fresh start (zeroed registers, the task's entry and stack, EL0 mode bits), every other parking trap with only x0 changed by exactly one wake |
| `Resumption.ParkedAs` | proto-os/kernel/core/thread.c:252-278 | a parked task is dead exactly after a fault or an exit, and blocked exactly after anything but those and a yield |
| `Resumption.FirstEntry` | proto-os/kernel/core/thread.c:134-152 | over every run from boot, a task first enters EL0 with zeroed registers at its own entry and stack, SPSR mode bits 0 (EL0t, AArch64), interrupts masked and no other flag |
| `Effects.ParkingThreads` | proto-os/kernel/core/thread.c:245-296 | every thread control block after a parking trap, field by field: the task at rest as its reason says, those it wakes runnable with only x0 new, the rest untouched, the picked one entered, the quantum run down by the ticks charged; also the clock and the request flag |
| `Memory.RangeOkIsContainment` | proto-os/kernel/core/ipc.c:66-85 | the EL0 range check (both copies of it) accepts exactly the buffers whose every byte, with 64-bit pointer arithmetic, lies in the sandbox; no accepted range wraps |
| `Memory.ForwardCopyAt` | proto-os/kernel/core/ipc.c:40-45 | the rising byte loop leaves everything outside the destination alone and delivers the original source bytes unless the destination starts strictly inside the source |
| `Memory.ForwardCopyRepeats` | proto-os/kernel/core/ipc.c:40-45 | in that remaining case it repeats the first bytes of the source with the distance as period |
| `Memory.CopyWithinIsStore` | proto-os/kernel/core/ipc.c:40-45 | without that overlap the in-place copy equals storing the bytes read beforehand |
| `Buffers.DeferredBuffersStaySafe` | proto-os/kernel/core/ipc.c:159-171 | in every reachable state each buffer an endpoint keeps across a trap lies in the sandbox byte by byte, and a queued message fits its slot |
| `Buffers.OnlyDestinationWritten` | proto-os/kernel/core/ipc.c:207-213 | whatever the trap, memory changes at most in the one buffer the message is delivered to, which is inside the sandbox |
| `Buffers.ReplyArrives` | proto-os/kernel/core/ipc.c:254-257 | exactly what the waiting caller's buffer holds after the whole step, overlapping buffers included; the first min(reply_len, cap) bytes of the reply if and only if they arrive unharmed; `RoundTrip.ReplyReachesCaller` says the buffer is the one the caller named |
| `SavedCalls.EpMoves` | proto-os/kernel/core/ipc.c:158-226 | an endpoint after any trap, whole: the caller's slot, reply pointer x3 and capacity x4, the length x2, the receiver's buffer x1 and capacity x2 are those of the trapping registers |
| `SavedCalls.SavedFromBoot` | proto-os/kernel/core/ipc.c:158-226 | in every reachable state what an endpoint keeps of a sleeping caller or receiver is what that task's own saved registers say, and the waiting supervisor sleeps in call 7 |
| `RoundTrip.ReplyReachesCaller` | proto-os/kernel/core/ipc.c:228-268 | from an accepted call with x3 and x4, over any run while the caller sleeps, the owner's accepted reply puts min(reply length, x4) bytes at address x3 as the rising copy delivers them, and the caller comes back with the registers it called with but for that number in x0 |
| `RoundTrip.RequestReachesReceiver` | proto-os/kernel/core/ipc.c:158-182 | from a receive asleep with x1 and x2, over any run while it sleeps, an accepted request puts min(length, x2) bytes at address x1, and the receiver comes back with its own registers but for that number in x0 |
| `Shapes.TrapMoves` | proto-os/kernel/core/ipc.c:154-179 | how any trap moves an endpoint between the combinations of caller, pending and receiver; an endpoint not addressed is not touched at all |
| `Shapes.SixShapes` | proto-os/kernel/core/ipc.c:207-222 | no reachable endpoint has a pending request beside a sleeping receiver: no lost wakeup |
| `Witnesses.SixShapesReached` | proto-os/kernel/core/ipc.c:250-265 | each of the other six combinations is reached by a concrete run |
| `Shapes.FourShapes` | proto-os/kernel/el0/user_tasks.c:499-503 | a server that, by its own record of accepted receives and replies, receives only when it owes no reply and replies only when it owes one keeps its endpoint within four of them in every run |
| `Shapes.LedgerIsMove` | proto-os/kernel/core/ipc.c:207-226 | that record, kept from what the server is answered, follows the endpoint's moves |
| `Shapes.DisciplineFromBoot` | proto-os/kernel/el0/user_tasks.c:499-503 | so it holds in every run from boot of a server that starts with nothing owed |
| `Shapes.WedgedExactly` | proto-os/kernel/core/ipc.c:216-225 | an endpoint comes to have its owner asleep beside its own waiting caller if and only if the owner makes a valid receive with nothing queued while that caller waits |
| `HangRuns.HungForever` | proto-os/kernel/core/ipc.c:113-313 | a task outside the least fixpoint of the wait graph (asking an owner that cannot run, asleep beside its own caller, dead without a restarter, alone) never gets the CPU again in any run |
| `HangRuns.RunsAgainExactly` | proto-os/kernel/core/ipc.c:113-313 | a task gets the CPU in some later run if and only if it is in that fixpoint |
| `HangRuns.TrapStartsHangExactly` | proto-os/kernel/core/ipc.c:135-226 | exactly which traps make a task hang that could still run: a request to an owner that cannot answer without the caller (itself included), a receive beside a waiting caller, a receive or a wait with nobody else awake, a death that leaves a listener alone or takes the only restarter of a dead server with a caller |
| `HangRuns.SelfCallHangs` | proto-os/kernel/core/ipc.c:147-179 | a concrete run in which task_b calls its own endpoint, whose shape stays orderly, and task_b never runs again |
| `WaitGraph.StartsHangExactly` | proto-os/kernel/core/ipc.c:135-226 | the same equivalence on the wait graph, for every consistent graph |
| `WaitGraph.MutualWait` | proto-os/kernel/core/ipc.c:147-182 | two owners that wait for each other hang, whatever the third task does |
| `WaitGraph.CallToTheDead` | proto-os/kernel/core/ipc.c:147-182 | a caller of the dead task_b hangs if and only if task_c can never run to restart it |
| `WaitGraph.CanRunInTwo` | proto-os/kernel/core/thread.c:358-376 | the fixpoint is reached after two wakes |
| `KernelGraph.OthersMove` | proto-os/kernel/core/thread.c:358-376 | how a trap changes every other task's wait: kept, or ended exactly under a condition told from the trap and the slots |
| `KernelGraph.OwnMoves` | proto-os/kernel/core/thread.c:252-278 | what a trap makes of its own task, told from the registers and the endpoint |
| `Shapes.WedgedForever` | proto-os/kernel/core/ipc.c:216-225 | an endpoint with a caller and a sleeping owner stays as it is in every later run; neither task runs again |
| `Shapes.DeathLeaves` | proto-os/docs/design.md:88 | a dying owner leaves its endpoint clear if and only if no caller-less request is queued; otherwise the endpoint is left as it was and accepts no call |
| `Witnesses.RequestOutlivesOwner` | proto-os/kernel/core/ipc.c:123-131 | a concrete run in which a queued request survives its owner's death |
| `Rpc.CompletionMatches` | proto-os/kernel/core/ipc.c:259-268 | in any history the abstract protocol allows, each completion answers the last request, with nothing but receptions in between, by its own reply's value or -1 on an abort: none twice, none unasked |
| `Rpc.ReceptionMatches` | proto-os/kernel/core/ipc.c:207-213 | each reception delivers the message of the last request, cut to the receiver's buffer, and no message twice; byte for byte the message if and only if the buffers are harmless to each other |
| `Rpc.DeliversIntact` | proto-os/kernel/core/ipc.c:164-168 | a delivery is the message itself exactly without overlap or when the message repeats with that period |
| `Rpc.OpenCallIsQueuedOrTaken` | proto-os/kernel/core/ipc.c:164-179 | while a call is open its message is queued as captured, or it is the last thing received |
| `RpcKernel.SubmitReturns` | proto-os/kernel/core/ipc.c:158-182 | an accepted request, seen after the whole step: caller blocked, other endpoints and the UART untouched, message queued or delivered with the count in the receiver's x0 |
| `RpcKernel.EndpointsRefineCalls` | proto-os/kernel/core/ipc.c:113-268 | over every run, with any server, clients and buffers and across deaths and restarts, what is observable at an endpoint is a history of the abstract protocol and the endpoint stores exactly the protocol state; a blocked caller's message is queued as captured or was the last one delivered, unharmed exactly when the buffers are harmless |
| `Overlap.CopyDelivers` | proto-os/kernel/core/ipc.c:40-45 | every copy inside the sandbox stores the source bytes, or their first bytes over and over if the destination starts strictly inside the source |
| `Overlap.CopyAgreesExactly` | proto-os/kernel/core/ipc.c:164-168 | direct copy and copy through the queue leave the same memory if and only if the destination does not start strictly inside the source, or the source repeats with that period |
| `Rendezvous.OrderDoesNotMatter` | proto-os/kernel/core/ipc.c:164-179 | two runs from boot, send then receive and receive then send, end with task_b running, the same count and the endpoint in the same shape; with the same memory exactly under that condition |
| `Rendezvous.OverlapDiffers` | proto-os/kernel/core/ipc.c:164-168 | the two runs on one overlapping buffer pair end with different memories |
| `Mailbox.DeliveryMatches` | proto-os/kernel/core/supervisor.c:41-45 | in any legal history of a one-place overwriting cell, each delivery reports the immediately preceding death: none twice, the most recent one |
| `Mailbox.MailboxRefinesCell` | proto-os/kernel/core/supervisor.c:15-54 | over every run, observed deaths and notices are such a history, the pending slot is the cell's content, and a waiting supervisor implies an empty cell |
| `Shipped.SomeoneRuns` | proto-os/kernel/el0/user_tasks.c:492-540 | whenever task_a is blocked, task_b holds its request, or is dead and task_c holds or will get the notice, so a user task is selectable and idle is not running |
| `ShippedSteps.StepA` | proto-os/kernel/el0/user_tasks.c:469-480 | task_a's yields, clock reads and writes keep the OFF/RECOVERY system invariant |
| `ShippedSteps.StepB` | proto-os/kernel/el0/user_tasks.c:492-512 | the UART server's steps keep it, its one injected crash included |
| `ShippedSteps.StepC` | proto-os/kernel/el0/user_tasks.c:524-540 | the supervisor's steps keep it; a restart asked for is always granted |
| `ShippedRuns.CrashRecovery` | proto-os/kernel/el0/user_tasks.c:469-540 | over every run of the OFF and RECOVERY programs: no panic, never idle, a user task always selectable; while task_b is dead its notice is in exactly one place; it dies at most once and is restarted no more often than it dies; the others never die; the UART endpoint keeps to the four orderly combinations |
| `WireSteps.ARoutedStep` | proto-os/kernel/core/ipc.c:288-311 | an accepted write has its bytes in flight: queued as captured, dead server or not, or in the sleeping server's buffer |
| `WireSteps.BServeStep` | proto-os/kernel/el0/user_tasks.c:500-502 | what the server writes is exactly what is in flight |
| `WireSteps.BReplyStep` | proto-os/kernel/core/ipc.c:254-266 | the acknowledgement returns its length to the client, a zero length included |
| `WireSteps.BCrashStep` | proto-os/kernel/el0/user_tasks.c:504-509 | the injected crash finds no client waiting and no request queued, so it loses no byte and aborts no write |
| `WireRuns.WritesSurviveTheCrash` | proto-os/kernel/core/ipc.c:270-313 | over every run of the OFF and RECOVERY builds, across crash and restart: what went out on the client's behalf plus the one write in flight is the log of direct writes; whenever the client runs nothing is in flight and its write returned its length, never -1 |
| `WireRuns.RecoveryRefinesMono` | proto-os/kernel/core/syscall.c:68-79 | so a MONO kernel given the same client writes puts out the same bytes |
| `Progress.AnsweredWithin` | proto-os/kernel/el0/user_tasks.c:492-540 | an accepted write of task_a is answered within six traps of the other two, nine with the announcements, whether or not the server is dead and must be restarted first |
| `Progress.WriteComesBack` | proto-os/kernel/el0/user_tasks.c:492-540 | so task_a is back in EL0 after those traps and three return steps |
| `CrashRun.CrashAndRestartHappen` | proto-os/kernel/el0/user_tasks.c:504-533 | a run from boot in which the crash happens after a served write and the restart follows |
| `LatencySteps.BenchStep` | proto-os/kernel/el0/user_tasks.c:378-429 | every step of the LATENCY programs keeps: UART line plus bytes in flight equals the log of direct writes, and the client's last operation succeeded |
| `LatencyRuns.RoutedWritesAreDirectWrites` | proto-os/kernel/core/ipc.c:270-313 | over every run of the LATENCY build, whenever the client runs the UART line is byte for byte the log of direct writes, and its write returned its length, zero included |
| `LatencyRuns.MicroRefinesMono` | proto-os/kernel/core/syscall.c:68-79 | to every run of the LATENCY system there is a run of the MONO kernel on the client's own write traps whose UART line is the same, up to the one write in flight, and exactly the same whenever the client runs |
| `LatencyRuns.MonoPlays` | proto-os/kernel/core/syscall.c:34-40 | a MONO kernel fed with the client's write traps of any run emits exactly the direct log |
| `LatencyRuns.MonoWritesDirectly` | proto-os/kernel/core/syscall.c:34-40 | the MONO write appends to the line, byte k behind byte k-1, the bytes at x0, x0+1, .. of the memory, x1 of them, and returns x1; or returns -1 and appends nothing |
| `LatencyRuns.DirectLogAt` | proto-os/kernel/core/syscall.c:34-40 | each client write of a run contributes to the direct log exactly its buffer's bytes, lowest address first, behind those of the writes before it and in front of the rest |
| `LatencyRuns.MicroRefusesExactly` | proto-os/kernel/core/syscall.c:68-77 | MICRO refuses a valid write by task_a if and only if it exceeds the message limit or the endpoint is in use |
| `LatencyRuns.NoBenchmarkFailure` | proto-os/kernel/el0/user_tasks.c:289-373 | in both flavors, for any number of operations, every write returns its length and every round trip returns 1 with the byte echoed |
| `Benchmark.RunBenchmark` | proto-os/kernel/el0/user_tasks.c:378-429 | measured on any benchmark run, whatever the counter reads: no failures, as many successes as iterations; the samples are, up to order, what each iteration's end reading exceeds its start reading by modulo 2^64, and minimum, median, maximum and total are theirs |
| `KernelGlobals.Globals.constructor` | proto-os/kernel/core/thread.c:390-445 | the initial globals are those the boot theorem starts from |
| `KernelGlobals.Globals.Start` | proto-os/kernel/core/thread.c:447-453 | task_a is entered, and the invariant holds from there |
| `KernelGlobals.Globals.TickIrq` | proto-os/kernel/core/thread.c:455-470 | in-place tick equals the tick of the model, to which the quantum theorems apply |
| `KernelGlobals.Globals.PickNextThread` | proto-os/kernel/core/thread.c:154-178 | the scanning loop finds the slot that `Scheduler.PickIsNearest` characterises, or panics |
| `KernelGlobals.Globals.SwitchTo` | proto-os/kernel/core/thread.c:180-207 | the new thread table and current slot, all else unchanged |
| `KernelGlobals.Globals.ReschedPoint` | proto-os/kernel/core/thread.c:472-488 | consumes the request and switches only if there was one, also when ticks arrive in between |
| `KernelGlobals.Globals.CurrentUserSlot` | proto-os/kernel/core/thread.c:298-305 | the current user slot, or the panic when the two notions of current disagree |
| `KernelGlobals.Globals.TrapRedirect` | proto-os/kernel/core/thread.c:490-516 | saves all registers of the frame in the current task and nothing else, or panics |
| `KernelGlobals.Globals.WakeWithX0` | proto-os/kernel/core/thread.c:358-376 | wakes exactly the target with the value in x0, or panics as the source does |
| `KernelGlobals.Globals.UserTaskInit` | proto-os/kernel/core/thread.c:134-152 | a fresh user context, whatever the slot held before |
| `KernelGlobals.Globals.UserRestart` | proto-os/kernel/core/thread.c:327-356 | restarts a dead stopped user task and requests a reschedule, else -1 and no change |
| `KernelGlobals.Globals.BytesCopy` | proto-os/kernel/core/ipc.c:40-45 | the byte loop on the sandbox array equals the forward copy characterised by `Memory.ForwardCopyAt` |
| `KernelGlobals.Globals.BytesIn` | proto-os/kernel/core/ipc.c:174-176 | the loop into the queue slot replaces its front by the bytes sent and keeps the rest |
| `KernelGlobals.Globals.BytesOut` | proto-os/kernel/core/ipc.c:208-211 | the loop out of the queue slot stores its front at the receiver's buffer |
| `KernelGlobals.Globals.HandleTaskDeath` | proto-os/kernel/core/ipc.c:113-133 | the loop over all endpoints cleans each of them once, waking callers of the dead owner with -1 |
| `KernelGlobals.Globals.IpcCall` | proto-os/kernel/core/ipc.c:135-183 | in-place call: every refusal, the direct delivery, the queueing, and the redirect; an accepted call leaves the running task as waiting caller with x3 and x4 as its reply buffer |
| `Ipc.CallAwaitsReply` | proto-os/kernel/core/ipc.c:158-162 | an accepted call stores the caller's slot, x3 as reply pointer, x4 as capacity and no override at endpoint x0 |
| `KernelGlobals.Globals.IpcRecv` | proto-os/kernel/core/ipc.c:185-226 | in-place receive: every refusal, the delivery from the queue, and the block |
| `KernelGlobals.Globals.IpcReply` | proto-os/kernel/core/ipc.c:228-268 | in-place reply: every refusal, the copy, the override value, and the wake |
| `KernelGlobals.Globals.RouteUartWrite` | proto-os/kernel/core/ipc.c:270-313 | a routed write is a request whose caller is owed its length |
| `KernelGlobals.Globals.NoteTaskDeath` | proto-os/kernel/core/supervisor.c:15-32 | wakes the waiting supervisor or fills the mailbox, never both |
| `KernelGlobals.Globals.SupervisorWait` | proto-os/kernel/core/supervisor.c:34-54 | hands out and empties the mailbox, or blocks the supervisor, or refuses |
| `KernelGlobals.Globals.SupervisorRestart` | proto-os/kernel/core/supervisor.c:56-68 | only task_c may restart, and only task_b |
| `KernelGlobals.Globals.UartWriteDirect` | proto-os/kernel/core/syscall.c:34-40 | the loop appends to the line the bytes at the buffer's addresses, lowest first, leaves what was there, and returns their number |
| `KernelGlobals.Globals.Write` | proto-os/kernel/core/syscall.c:56-79 | checks, MICRO routing for task_a, and the direct path |
| `KernelGlobals.Globals.Dispatch` | proto-os/kernel/core/syscall.c:42-114 | one handler per system call number, -1 for the others; number 1 answers the tick count and changes nothing |
| `KernelGlobals.Globals.UserFault` | proto-os/kernel/core/thread.c:518-557 | a fault is logged and redirects the task to its death |
| `KernelGlobals.Globals.SyncEl0` | proto-os/kernel/arch/aarch64/arch.c:32-41 | system call for ESR bits 31 to 0 in 0x54000000..0x57FFFFFF; for every other ESR exactly one fault line and the redirect |
| `KernelGlobals.Globals.Park` | proto-os/kernel/core/thread.c:245-281 | the return step up to its reschedule point, all five reasons and the panic |
| `KernelGlobals.Globals.Resume` | proto-os/kernel/core/thread.c:283-296 | the continuation behind the switch, fresh starts included |
| `KernelGlobals.Globals.OnTrap` | proto-os/kernel/arch/aarch64/user_task_return.S:10-13 | from trap to next entry into EL0 in place: equals the model's step, and from a state satisfying the invariant with ELR in the sandbox it cannot panic and restores the invariant |
| `KernelGlobals.Globals.OnTick` | proto-os/kernel/core/thread.c:455-470 | a tick in EL0 or idle keeps the invariant |
| `KernelGlobals.Globals.OnIdle` | proto-os/kernel/core/thread.c:382-388 | an idle pass cannot panic and keeps the invariant |
| `Samples.SortCorrect` | proto-os/kernel/el0/user_tasks.c:257-270 | the insertion sort yields a sorted permutation of any sample sequence |
| `Samples.SinkInto` | proto-os/kernel/el0/user_tasks.c:261-268 | the in-place inner loop inserts the key into the sorted part and leaves the rest alone |
| `Samples.SortInPlace` | proto-os/kernel/el0/user_tasks.c:257-270 | the in-place sort of the first count samples equals that insertion sort and leaves the rest alone |
| `Samples.Median` | proto-os/kernel/el0/user_tasks.c:272-287 | returns the middle sample, or floor((lower+upper)/2) with every intermediate in 64 bits, 0 without samples; said of the sorted array itself |
| `Samples.Collect` | proto-os/kernel/el0/user_tasks.c:289-328 | sample k added to the start reading of the k-th successful operation gives its end reading modulo 2^64; minimum and maximum are those of the samples, total plus all start readings equals all end readings modulo 2^64; the rest are failures |
| `Samples.ElapsedIs` | proto-os/kernel/el0/user_tasks.c:314-315 | start plus elapsed is end modulo 2^64, and elapsed is end minus start when the counter has not wrapped |
| `Samples.GoodReadings` | proto-os/kernel/el0/user_tasks.c:289-328 | the samples are one to one and in order the counter differences of the successful operations |
| `Samples.GoodTotal` | proto-os/kernel/el0/user_tasks.c:318 | their sum is what the end readings exceed the start readings by, modulo 2^64 |
| `Samples.EndsOfSorted` | proto-os/kernel/el0/user_tasks.c:319-324 | the running minimum and maximum are the ends of the sorted samples |
| `Samples.MedianBetween` | proto-os/kernel/el0/user_tasks.c:278-286 | min <= median <= max with at least one success |
| `Samples.Measure` | proto-os/kernel/el0/user_tasks.c:397-408 | collection and median together: the array holds the counter differences of the successes, sorted; min <= median <= max are its ends and middle, the total is their sum modulo 2^64; no failures if every operation returned the expected value |
| `Mmu.IdentityMap` | proto-os/kernel/mm/mmu.c:97-115 | for every 64-bit virtual address, the hardware walk over the tables yields the same physical address with the intended attributes in the kernel window and the device blocks, and a fault elsewhere |
| `Mmu.Confinement` | proto-os/kernel/mm/mmu.c:61-77 | EL0 may access or execute exactly the sandbox, EL1 may execute exactly the rest of the kernel window, devices are executable nowhere |
| `Mmu.NormalLeaf` | proto-os/kernel/mm/mmu.c:61-72 | decoding a normal block descriptor gives back its address and exactly the intended permissions |
| `Mmu.DeviceLeaf` | proto-os/kernel/mm/mmu.c:74-77 | decoding a device block descriptor gives back its address, device attribute, no EL0 access, no execution |
| `Mmu.TableDescriptor` | proto-os/kernel/mm/mmu.c:57-59 | a table descriptor decodes to its table's address and restricts nothing |
| `Mmu.PageTables.ClearTables` | proto-os/kernel/mm/mmu.c:79-86 | afterwards every slot of the three tables is invalid |
| `Mmu.PageTables.Map2mBlock` | proto-os/kernel/mm/mmu.c:88-95 | exactly the slot selected by the address is written |
| `Mmu.PageTables.MapRoot` | proto-os/kernel/mm/mmu.c:100-101 | the root table leads to the two second-level tables and nowhere else |
| `Mmu.PageTables.MapDevices` | proto-os/kernel/mm/mmu.c:103-104 | the low table holds the two device blocks and nothing else |
| `Mmu.PageTables.MapKernel` | proto-os/kernel/mm/mmu.c:106-114 | the loop fills the eight blocks of the kernel window and nothing else |
| `Mmu.PageTables.Init` | proto-os/kernel/mm/mmu.c:131-143 | does nothing with the MMU on or a failed window check; else, whatever the tables held, every virtual address translates as intended |

## Left out

- Assembly (vectors, context switch, `el0_resume`): taken as exact save and restore; a thread's kernel context is a tag that says where it continues. The checks for a zero `lr` or `sp` in a kernel context, and that the saved user context lies inside the kernel map, are left out with it.
- System calls from EL1 during boot: only `origin == EL0` traps are modelled; the boot sequence is the initial state.
- Pointers to threads and endpoints are slot indexes; thread and endpoint records are values stored in arrays, as the C structs are.
- The trap frame is a value: instead of rewriting ELR and SPSR in it, a handler says whether it leaves to EL0 (with a value for x0) or to the return continuation; the 0 a redirecting handler returns is dropped, as it reaches no task.
- UART, GIC, timer and system registers: the UART is an appended sequence, the timer a nondeterministic tick. Kernel log lines (exit, fault) are single items; their text, the heartbeat line of the tick handler and benchmark text are not modelled.
- `validate_el0_layout` and the linker script: entry points and stack tops are assumptions of the theorems (`Build.LayoutOk`); so are table alignment and distinctness in `Mmu`.
- MMU enabling, TLB and cache maintenance, MAIR/TCR/SCTLR values: only table contents and the walk.
- Weak memory. EL0 may write anything into the sandbox between traps. Where the bytes of the shipped programs matter, the theorems about them say which buffers EL0 leaves alone (`Wire.Careful`, `Latency.BuffersKept`) and that task_a's writes are valid and within the message limit; kernel properties make no such assumption.
- task_a's timing in the OFF build: any sequence of yields, clock reads and writes is admitted, so `tick_reached` is not modelled; the same over-approximation covers the benchmark client's order of operations.
- Liveness of arbitrary EL0 programs: bounded progress is stated for the scheduler (`Fairness.EntersWithin`) and for task_a's writes in the OFF and RECOVERY builds (`Progress.WriteComesBack`), each for runs that make enough traps; that EL0 code traps at all is not stated.
- RpcKernel.EndpointsRefineCalls: the value a caller gets back is part of the protocol; the bytes in its reply buffer are stated in `Buffers.ReplyArrives` and `RoundTrip.ReplyReachesCaller`.
- KernelGlobals.Globals.constructor: the layout checks and their panics are not in it; a layout that passes them is the assumption `Build.LayoutOk`.
- KernelGlobals.Globals.SwitchTo: does not model the panic on a zero `lr` or `sp` of the next context, which no tag represents.
- KernelGlobals.Globals.TrapRedirect: does not model the panic on a zero `lr` or `sp` of the current context, for the same reason.
- KernelGlobals.Globals.Write: does not model the EL1 origin, whose buffers are unchecked kernel memory.
- KernelGlobals.Globals.Dispatch: does not model the EL1 origin, which only the boot sequence uses.
- Samples.Collect: the counter readings and return values of the operations are an input sequence; `LatencyRuns.NoBenchmarkFailure` says what the kernel returns.
