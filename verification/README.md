# burritOS: a verified model

burritOS is a send/receive/reply microkernel with servers for a clock, a terminal and model
trains on top of it. This project models its kernel, its path search, its clock server and some
smaller servers in Dafny and proves what they are meant to guarantee.

A failed `assert` or `assertOk` halts the machine (`kernel/assert.c`), so it is modelled as an
explicit outcome that stops a run. The compile flags that turn on bounds checks, null checks,
return codes and assertions are taken as set, as in `make/preprocessor.make`. Machine integers are
mathematical integers with the truncations and wrap-arounds that matter written out. What the code
reads from hardware (interrupt status bits, the CTS flag, received bytes) is an input of a step.

## How it is laid out

| files | what they hold |
|---|---|
| `Bits`, `RingBuffer`, `PriorityQueue` | `__ctz` and masked indices, the ring buffers, the 32-level ready queue |
| `Kernel` | one entry into the kernel (system call or interrupt, then scheduler) as functions on values |
| `KernelImage` | the same kernel as one object updated in place, each method proved to do what the function does |
| `KernelInvariant`, `KernelInterrupts`, `KernelResources`, `KernelSchedule`, `KernelRuns`, `KernelMemory` | the invariant, its safety over every run, and the conservation of memory blocks |
| `KernelProgress`, `KernelMessages` | scheduling, message passing |
| `KernelSignals`, `KernelDevices`, `KernelCalls` | interrupts told from their status bits, the two UARTs, the small calls and the end of the system |
| `Circles`, `KernelAccounting`, `KernelLimits`, `KernelFailures` | when no task is ever lost, when no assertion fails, and runs from boot on which these conditions fail |
| `Chains`, `SparseHeap`, `LinkedList`, `TrackGraph`, `Dijkstra`, `SearchLimits`, `BushGraph`, `PathFind` | the path search and the two containers it is built on |
| `DelayQueue`, `ClockServer` | the delta queue and the clock server |
| `TrackManager`, `TerminalDriver`, `SwitchServer` | track ownership, terminal streams, the switch courier |
| `Streams` | sums over sequences of messages and replies |
| `IntSqrt`, `Decimal` | integer square root, decimal printing and scanning |

Objects that the source updates in place are classes here; each method is proved against a
function, and the theorems are about that function. The kernel's theorems are stated on the
functions of `Kernel` and hold of `KernelImage.Image` through the contracts of its methods.

## What is proved

**Kernel.** One invariant ties all kernel data together: the ready queue holds exactly the ready
tasks other than the active one, each once and at its own priority; ids in send queues and event
slots name, with their present generation, the task that is blocked there, and each task is named at
most once; free descriptors are exactly the zombies; blocks 1 to 64 are partitioned. Every
trusted run keeps it (`RunKeeps`), and can end only by an orderly stop or by one of six named faults;
the other assertions, among them the check on a sender's state in RECEIVE, cannot fail. A run is trusted
when CREATE is called only with a free descriptor and FREE only on a block that is neither free
nor under a stack; `CreateExactly` and `FreeExactly` say exactly when these calls keep the
invariant. Callers who free only what ALLOC returned and nobody has freed since make such runs, and over them no block
is lost (`RunHeld`).

No task is ever lost if and only if every call is considerate (`NobodyIsLostExactly`). A task is not lost
while it waits for a live task that has its message or its place in the queue, no circle of tasks
waits for itself, and who awaits an event is in a slot of the table that a handler reads; then every
chain of waits ends with a live task that waits for no other (`SomebodyMoves`). A considerate task exits
with no sender queued and no reply owed; sends only to a live task that does not, itself or through
others, wait for the sender, which rules out a send to oneself; and awaits only an event from 1 to 6
whose slot is empty, under an id other than 0.

With sixteen live tasks at most at each priority the ready queue is never full (`NeverFull`), and while
user code runs there is one block, free or held by a caller of ALLOC, for each free descriptor
(`BlocksMatchDescriptors`), so without ALLOC a CREATE never runs out of memory (`BootLimits`). A run within
these limits whose arguments pass the guards of SEND and REPLY fails no assertion at all
(`NeverCrashes`). `KernelFailures` shows from boot what happens when a call is not considerate, when
FREE is given a block under a stack, and when CREATE finds the table full.

Messages are delivered once each and in order on both
the direct and the queued path (`RunDelivers`), and so are bytes to either UART (`WritesArrive`). An
interrupt is given in full by its status bits (`InterruptExactly`). A run comes to an orderly stop if
and only if KILL is called, or SHUTDOWN has been called and no task is left ready (`RunStopsExactly`).
A task that asks for its parent is told who created it (`FamilyFromBoot`), and nobody's registers are
touched by an entry that is not about it (`BystandersKeep`). The
wait of a ready task is bounded by its place in its level (`WaitIsBounded`).

**Path search.** `pathFind` is a search with lazy deletion over a heap whose slots come from a
last-in first-out free list. The list's hidden invariant is that each slot's parent is filled or
stands earlier in the list. The search ends on every graph; with positive lengths and costs below
0xFFFF it finds a shortest walk exactly when there is a walk at all. It is not free of failing
assertions in general: its open list has 63 slots. An edge makes an entry when it improves on the
edges to the same node that are looked at earlier, and the entry waits until its cost is reached; so
which entries wait at once can be told from the graph. If no two entries have the same cost, a call
fails an assertion if and only if more than 63 wait at some distance. With ties the heap's choice among
equals matters, and there are two bounds: no assertion fails where at most 63 entries can wait, nor with
fewer than 63 branches, and one must fail where more than 63 are certain to wait; `FindInBush` runs it
on such a graph.

**Clock server.** Relative delays mean absolute deadlines: a push adds one and leaves the others;
a tick wakes exactly the tasks due. This needs delays of at least 1: after a push of 0 the next tick
loses a deadline (`TickTrueExactly`). Over whole runs, all that was requested is woken on time or still
pending, at every point, if and only if no tick comes after a request for 0 ticks (`OnTimeExactly`).
Every notifier is answered (`EveryoneIsAnswered`).

**Other servers.** When each of the servers fails an assertion is proved exactly, from what has arrived and
been answered (`AssertsExactly`, for the clock, terminal and switch servers). The terminal's output
notifier and the switch courier are answered once for each visit, and nobody in their place
(`EveryVisitAnswered`).

**Properties that hold only on a condition.** An empty string put while the output notifier waits
hands out a byte nobody wrote, and the terminal's output is right at every point of a run exactly
when that never happens (`OutputExactly`, `EmptyPutBreaks`). `intSqrt(i)` returns exactly
when i + 1 is not a perfect square (`ReturnsExactly`). Printed decimals read back exactly when they
are not negative, and with commas exactly below 1000; a negative number is a minus and its magnitude
(`MinusFirst`), but for the least, whose characters are no digits (`DigitsExactly`). `listU32PopFront` loses all but two free nodes
(`PopFront`). A client can trust the answer to a track request, whoever holds what, exactly when the
request does not name node 0 (`TrustedExactly`).

Where the code and `doc/manual.tex` differ the code is followed: task ids count from zero and keep the
index in the low byte and the generation in the high one, and there are as many stack blocks as
descriptors.

## Model

| member | source | states |
|---|---|---|
| Bits.MaskIsMod | common/queue.c:26-26 | Masking with a power of two less one is reduction by it, for every number: what the ring indices rely on. |
| Bits.IsPow2Exactly | common/error.h:21-23 | The length check of the initialisers accepts exactly the powers of two. |
| Bits.Ctz | common/utils.h:5-16 | For every 32-bit word: the number of the lowest set bit, all lower bits being clear, or 32 for zero. |
| Bits.SetBitEverywhere | common/priorityQueue.c:39-39 | Setting a level's bit changes that bit and no other. |
| Bits.FlipBitEverywhere | common/priorityQueue.c:62-63 | The conditional flip clears or keeps one bit and changes no other. |
| RingBuffer.MaskedStep | common/queue.c:26-26 | The masked increment of an index walks round the ring. |
| RingBuffer.Queue.Push | common/queue.c:18-30 | Appends at the back; fails, changing nothing, exactly when full. |
| RingBuffer.Queue.Pop | common/queue.c:32-44 | Removes and returns the oldest value; fails, leaving the destination alone, exactly when empty. |
| RingBuffer.Queue.Peek | common/queue.c:46-55 | Returns the oldest value without removing it. |
| RingBuffer.Init | common/queue.c:4-16 | Yields an empty queue exactly for the power-of-two lengths, otherwise the length error. |
| PriorityQueues.PriorityQueue.constructor | common/priorityQueue.c:5-19 | All 32 levels are empty. |
| PriorityQueues.PriorityQueue.Push | common/priorityQueue.c:21-42 | On the packed arrays and the bit word: one more value at the back of its level and all other levels as before; ERROR_FULL, changing nothing, exactly for a missing or full level. |
| PriorityQueues.PriorityQueue.Pop | common/priorityQueue.c:44-66 | Removes the head of the lowest-numbered non-empty level; ERROR_EMPTY exactly when every level is empty. |
| PriorityQueues.PriorityQueue.PushPop | common/priorityQueue.c:68-108 | The fused operation does on the arrays what PushPopped says, in every state. |
| PriorityQueues.PriorityQueue.LowestLevel | common/priorityQueue.c:58-58 | The trailing zeros of the bit word number the most urgent level in use, 32 when none is. |
| PriorityQueues.PriorityQueue.Full | common/priorityQueue.c:29-34 | Set bit and equal indices recognise exactly the full levels. |
| PriorityQueues.PushPopIsPushThenPop | common/priorityQueue.c:68-108 | For every state, level and value the fused operation equals a push followed by a pop; its early return of 1 is exactly the case where that pair hands the value straight back. |
| PriorityQueues.PopIsMostUrgent | common/priorityQueue.c:58-60 | What is popped is the oldest value of the most urgent level in use. |
| KernelImage.FullPool | kernel/memoryAllocator.c:12-16 | The pool-filling loops leave consecutive numbers in order. |
| KernelImage.Image.constructor | kernel/kernelData.c:8-24 | Initial data: no task, all descriptors and blocks free, no event awaited. |
| KernelImage.Image.Bootstrap | kernel/bootstrap.c:47-59 | Boot creates the idle task with id 0 and makes it active. |
| KernelImage.Image.AllocBlock | kernel/memoryAllocator.c:21-33 | Takes the oldest free block, writes its number above the address it returns, and returns 0 exactly when none is left; nothing else changes. |
| KernelImage.Image.FreeBlock | kernel/memoryAllocator.c:35-42 | The number found above the address joins the free queue; halts exactly on address 0 or a full queue. |
| KernelImage.Image.AllocTask | kernel/taskTable.c:26-64 | Fills the oldest free descriptor and its stack and returns its id, or -1 with the table unchanged; halts exactly when no block is left. |
| KernelImage.Image.FreeTask | kernel/taskTable.c:66-90 | The active descriptor gets a new generation and goes back to the pool, its block to the allocator. |
| KernelImage.Image.DoCreate | kernel/systemCall.c:50-60 | The object ends as Kernel.DoCreate of what it was: the new id at the back of its level, the truncated -1 of a full table included. |
| KernelImage.Image.DoSend | kernel/systemCall.c:91-119 | The object ends as Kernel.DoSend of what it was: message and sender id in a waiting receiver's memory and that receiver ready, or the caller at the back of its queue; halts exactly on a full queue, a full level or a wild id. |
| KernelImage.Image.DoReceive | kernel/systemCall.c:121-144 | The object ends as Kernel.DoReceive of what it was: the oldest sender's message copied and that sender reply-blocked, or the caller blocked. |
| KernelImage.Image.DoReply | kernel/systemCall.c:146-161 | The object ends as Kernel.DoReply of what it was: the reply in the target's memory and the target ready; halts exactly when it awaits none or its level is full. |
| KernelImage.Image.DoAwait | kernel/systemCall.c:295-301 | The caller's id is in the event slot and the caller blocked, whatever the slot held before. |
| KernelImage.Image.SystemCallHandler | kernel/systemCall.c:11-319 | For every call, result, halt and new state are those of Kernel.SystemCall, of which KernelCalls, KernelMessages, KernelAccounting and KernelMemory say what it means. |
| KernelImage.Image.EventHandler | kernel/event.c:8-157 | For every combination of status bits, halt and new state are those of Kernel.Interrupt, which KernelSignals.InterruptExactly gives in terms of the bits. |
| KernelImage.Image.Uart1Handler | kernel/event.c:20-78 | Modem, transmit and receive parts in the source's order end as Kernel.Uart1 of the state before. |
| KernelImage.Image.Scheduler | kernel/scheduler.c:8-59 | The task entered, the stop and every failing assertion are those of Kernel.Schedule. |
| KernelImage.Image.Syscall | kernel/systemCall.c:11-319 | One system call followed by the scheduler is exactly one Kernel.Step, so every theorem about runs holds of the object. |
| KernelImage.Image.Hardware | kernel/event.c:8-157 | One interrupt followed by the scheduler is exactly one Kernel.Step. |
| KernelInvariant.SendKeeps | kernel/systemCall.c:91-119 | SEND keeps the whole invariant, on both paths. |
| KernelInvariant.ReceiveKeeps | kernel/systemCall.c:121-144 | RECEIVE cannot halt and keeps the whole invariant. |
| KernelInvariant.FirstSenderWaits | kernel/systemCall.c:134-134 | The assertion that a queued sender is receive-blocked cannot fail. |
| KernelInvariant.ReplyKeeps | kernel/systemCall.c:146-161 | REPLY keeps the whole invariant. |
| KernelInvariant.AwaitKeeps | kernel/systemCall.c:295-301 | Blocking on an event keeps the whole invariant. |
| KernelInvariant.WakeSlotKeeps | kernel/event.c:80-97 | Waking the task of an event slot keeps the invariant and fails only on a full ready level. |
| KernelInvariant.InterruptKeeps | kernel/event.c:8-157 | Every interrupt keeps the whole invariant and halts only on a full ready level. |
| KernelSignals.InterruptExactly | kernel/event.c:20-156 | An interrupt that does not halt empties exactly the slots its status bits signal; the task in each is then ready at the back of its level, in the order of the slots, a reader with the byte of its own UART in its result register; no other task changes; the wires get the byte of each waiting writer and the CTS reading, and nothing else; CTS is used up by a write to UART 1. |
| KernelSignals.InterruptHaltsExactly | kernel/event.c:20-156 | It halts, on a full level, if and only if some task woken finds no room at its level behind those woken before it. |
| KernelResources.AllocKeeps | kernel/memoryAllocator.c:21-33 | ALLOC hands out a block nobody holds, at a non-zero address, and keeps the partition of blocks. |
| KernelResources.FreeKeeps | kernel/memoryAllocator.c:35-42 | FREE of a block that is neither free nor under a stack cannot fail, keeps the invariant and adds exactly that block. |
| KernelResources.FreeExactly | kernel/memoryAllocator.c:35-42 | FREE of any address keeps the invariant if and only if the word above it numbers such a block. |
| KernelResources.RoomForBlock | kernel/memoryAllocator.c:40-40 | The block queue has room for every block that is not in it. |
| KernelResources.BlocksAreApart | kernel/memoryAllocator.c:26-29 | The 16384 words of different blocks are disjoint, and a block holds its header, its address and the initial stack written into it. |
| KernelResources.CreateExactly | kernel/systemCall.c:50-60 | CREATE keeps the invariant if and only if a descriptor is free; with a full table it queues an id that names no task. |
| KernelResources.CreateShape | kernel/systemCall.c:50-60 | A CREATE that succeeds returns the id of a free descriptor, now ready at the back of its level with the oldest free block, and changes no other task. |
| KernelResources.CreateFaults | kernel/taskTable.c:26-64 | The only assertions CREATE can trip are a lack of blocks and a full ready level. |
| KernelSchedule.FreeTaskShape | kernel/taskTable.c:66-90 | Reclaiming a zombie never fails: its descriptor and its stack block, and nothing else, become free. |
| KernelSchedule.ActivateSucceeds | kernel/scheduler.c:46-50 | The check on the stack header cannot fail for a ready task. |
| KernelSchedule.YieldKeeps | kernel/scheduler.c:17-27 | Yielding leaves the invariant with a ready active task, or trips on a full level. |
| KernelSchedule.RunNextKeeps | kernel/scheduler.c:35-43 | Taking the next task keeps the invariant; it ends the system or trips exactly when no task is ready. |
| KernelSchedule.ZombieKeeps | kernel/scheduler.c:30-43 | Reclaim and switch keep the invariant and conserve descriptors and blocks. |
| KernelSchedule.ScheduleKeeps | kernel/scheduler.c:8-59 | The scheduler turns any state a handler leaves into one with a ready active task, stops, or trips on one of two named assertions. |
| KernelRuns.SystemCallKeeps | kernel/systemCall.c:11-319 | Every trusted system call keeps the invariant or halts on an assertion listed for it. |
| KernelRuns.StepKeeps | kernel/systemCall.c:11-319 | So does every entry into the kernel. |
| KernelRuns.BootIsRunning | kernel/bootstrap.c:47-59 | The state after boot satisfies the invariant. |
| KernelRuns.RunKeeps | kernel/scheduler.c:8-59 | Every trusted run from a good state stays in the invariant, and ends only by an orderly stop or one of six named faults. |
| KernelRuns.BootRunKeeps | kernel/bootstrap.c:11-60 | The same from boot. |
| KernelMemory.StepMovesBlocks | kernel/systemCall.c:303-313 | Every entry into the kernel moves between the free queue and the stacks exactly the blocks that CREATE, EXIT, ALLOC and FREE are for, and every other entry none. |
| KernelMemory.StepHeld | kernel/memoryAllocator.c:21-42 | The addresses returned by ALLOC and not yet freed stay exactly those of the blocks in neither class. |
| KernelMemory.RunHeld | kernel/memoryAllocator.c:5-42 | Over every run in which callers free only what ALLOC returned to somebody and nobody has freed since, no block is lost and none held twice; such runs are trusted. |
| KernelMemory.BootRunHeld | kernel/memoryAllocator.c:5-42 | The same from boot, when nothing is held. |
| KernelProgress.EntersMostUrgent | kernel/scheduler.c:17-47 | The task entered is at least as urgent as every ready task. |
| KernelProgress.ScheduleMoves | kernel/scheduler.c:17-47 | The levels after scheduling, in full: a yielding task has joined the back of its own level, the served level has lost its head, which is entered, and no other place has changed. |
| KernelProgress.WaiterMovesUp | kernel/scheduler.c:17-47 | In one entry a waiting task keeps its place unless its level is served, and then moves up by one or is entered. |
| KernelProgress.WaitIsBounded | kernel/scheduler.c:17-47 | Over any trusted run a task with n others ahead is entered by the time its level has been served n + 1 times. |
| KernelProgress.IdleIsAlwaysThere | kernel/scheduler.c:37-41 | While the system runs and the idle task makes only its own calls, the empty-queue branch is not taken. |
| KernelProgress.IdleNeverMissing | user/IdleTask.c:6-13 | Over any such run the assertion in that branch never fails. |
| KernelProgress.IdleNeverMissingFromBoot | user/IdleTask.c:6-13 | The same from boot. |
| KernelLimits.BlocksMatchDescriptors | kernel/taskTable.c:6-24 | While user code runs, the free blocks and those held by callers of ALLOC together are as many as the free descriptors. |
| KernelLimits.NoMemoryExactly | kernel/taskTable.c:40-42 | CREATE with a free descriptor runs out of memory if and only if callers of ALLOC hold as many blocks as there are free descriptors. |
| KernelLimits.CreateRoomExactly | kernel/systemCall.c:50-60 | A CREATE that has a block succeeds and leaves at most sixteen live tasks at each priority if and only if it names one of the 32 priorities and fewer than sixteen have it. |
| KernelLimits.LevelFits | common/priorityQueue.c:21-42 | A level of the ready queue and the tasks of its priority that are active or blocked are together no more than the live tasks of that priority. |
| KernelLimits.InterruptRuns | kernel/event.c:8-157 | With at most sixteen live tasks at each priority no interrupt fails an assertion. |
| KernelLimits.StepHasRoom | common/priorityQueue.c:21-42 | Nor does any entry find the ready queue full, if a CREATE finds room. |
| KernelLimits.NeverFull | common/priorityQueue.c:21-42 | Over every such run the ready queue is never full. |
| KernelLimits.NeverShort | kernel/taskTable.c:40-42 | Over every run in which callers of ALLOC leave a block for each CREATE, memory never runs out. |
| KernelLimits.ProvidedWithoutAlloc | kernel/memoryAllocator.c:21-33 | They do if nobody holds a block and nobody calls ALLOC. |
| KernelLimits.GuardsExactly | kernel/systemCall.c:78-161 | An entry ends in a full send queue, a reply nobody waits for or an index out of range if and only if its argument is out of range, its target is not receiving and has no room in its queue, or its target awaits no reply. |
| KernelLimits.NeverCrashes | kernel/assert.c:5-14 | Over every trusted run within these limits and guards, with an idle task that stays in its loop, no assertion fails: it goes on or comes to an orderly stop. |
| KernelLimits.BootNeverCrashes | kernel/bootstrap.c:11-60 | The same from boot. |
| KernelLimits.BootLimits | kernel/bootstrap.c:11-60 | From boot: room for each CREATE rules out a full ready queue, and a run without ALLOC never runs out of memory. |
| KernelFailures.AwaitNothingFromBoot | kernel/event.h:5-5 | From boot, a task created by the idle task awaits event 0: the system goes on and the task is lost. |
| KernelFailures.SelfSendFromBoot | kernel/systemCall.c:112-116 | So is one that sends to itself. |
| KernelFailures.DeadlockFromBoot | kernel/systemCall.c:112-116 | So are two tasks that send to each other. |
| KernelFailures.QueuedExitFromBoot | kernel/systemCall.c:22-26 | An exit with a sender queued loses the sender, in a run from boot. |
| KernelFailures.TwoAwaitFromBoot | kernel/systemCall.c:295-301 | A second wait for the same event loses the first task, in a run from boot. |
| KernelFailures.SendToTheDeadFromBoot | kernel/systemCall.c:112-116 | A send to a task that has ended loses the sender, in a run from boot. |
| KernelFailures.UnpaidFromBoot | kernel/systemCall.c:22-26 | A receive and an exit without a reply lose the sender, in a run from boot that goes on. |
| KernelFailures.IdleAwaitLost | kernel/event.c:8-157 | The idle task, whose id is 0, is lost at boot by any wait for an event. |
| KernelFailures.StackFreedFromBoot | kernel/memoryAllocator.c:35-42 | At boot, FREE of the block under the idle task's stack succeeds and breaks the invariant. |
| KernelFailures.TableFullFromBoot | kernel/systemCall.c:50-60 | A run from boot, each CREATE of which finds a descriptor, fills the table; the next CREATE succeeds, breaks the invariant, and lets the scheduler index the table with 255. |
| KernelMessages.SendMail | kernel/systemCall.c:91-119 | A send, direct or queued, adds its message at the back of what the receiver is owed and nowhere else. |
| KernelMessages.ReceiveMail | kernel/systemCall.c:121-144 | A receive takes exactly the oldest message owed, or blocks if there is none. |
| KernelMessages.StepMail | kernel/systemCall.c:91-161 | Sent equals received plus waiting, for every live task, across every entry into the kernel. |
| KernelMessages.RunDelivers | kernel/systemCall.c:91-161 | Over any trusted run the messages sent to each live task are, in order and once each, those it has received followed by those in its queue. |
| KernelMessages.BootRunDelivers | kernel/systemCall.c:91-161 | The same from boot, starting with nothing sent. |
| KernelMessages.SenderWaitsForReply | kernel/systemCall.c:104-160 | A sender leaves its queue only by being received from the front, and becomes ready only through a reply, whose message it then holds. |
| KernelCalls.TidIsOwn | kernel/systemCall.c:72-75 | The id sysTid returns names the caller. |
| KernelCalls.CreateReturnsChild | kernel/systemCall.c:50-60 | The id sysCreate returns names a task that was free before, is ready now at the priority asked for, and has the caller for its parent. |
| KernelCalls.FamilyFromBoot | kernel/systemCall.c:67-82 | From boot, over every trusted run, sysPid tells a task the id of the task whose CREATE made it, and sysPriority the priority a live task was created with. |
| KernelCalls.RunRegisters | kernel/taskTable.c:46-53 | Over every trusted run parent and priority of each live task stay those of the CREATE that made it. |
| KernelCalls.StateTells | kernel/systemCall.c:84-89 | The number sysState returns: 0 if and only if the descriptor is in the pool, 1 if and only if the task is active or queued ready, 3 if and only if a SEND to it would be received at once, 5 if and only if a REPLY to it would be accepted; 4 for a task in a send queue and 6 for one in the event table. |
| KernelCalls.PlainResults | kernel/systemCall.c:279-318 | Calls with nothing to tell return 0, and WRITE to anything but the two ports -1. |
| KernelCalls.HandlerRunning | kernel/systemCall.c:33-48 | Only SHUTDOWN and KILL move the flag that says whether the system runs. |
| KernelCalls.KillStops | kernel/scheduler.c:10-11 | KILL ends the system at once, whoever is ready. |
| KernelCalls.StepStopsExactly | kernel/scheduler.c:8-44 | An entry comes to an orderly stop if and only if it is KILL, or SHUTDOWN has been called and it leaves no task ready. |
| KernelCalls.RunStopsExactly | kernel/scheduler.c:8-44 | A trusted run ends by an orderly stop if and only if KILL is called, or SHUTDOWN has been called and no task is left ready. |
| KernelCalls.UpFromBoot | kernel/systemCall.c:33-42 | The same from boot; and sysRunning answers 0 if and only if SHUTDOWN has been called. |
| KernelCalls.BystandersKeep | kernel/systemCall.c:11-319 | An entry changes nothing but state and queue of a task it is not about: messages, replies, results and arguments wait untouched until their task runs. |
| KernelCalls.ReadiedFindsZero | kernel/systemCall.c:96-161 | A task that waited for a message or a reply is readied only by SEND or REPLY, and finds 0 in its result register. |
| Circles.EveryWaitEnds | kernel/systemCall.c:91-119 | If no task waits for itself through others, every chain of waits ends, within as many steps as there are tasks, with a task that waits for none. |
| Circles.OneMoreLink | kernel/systemCall.c:91-119 | A task that starts to wait for another closes a circle if and only if the waits of that other end with it. |
| KernelAccounting.CallAccountsExactly | kernel/systemCall.c:22-301 | A call loses a blocked task if and only if its caller exits with senders queued or a reply owed, sends to a zombie, to itself or to a task whose waits end with the caller, or awaits event 0, an occupied slot, or anything under id 0. |
| KernelAccounting.HandlerAccountsExactly | kernel/systemCall.c:22-301 | The same for every system call and interrupt, from the entry to the scheduler. |
| KernelAccounting.StepAccountsExactly | kernel/scheduler.c:8-59 | The same for one whole entry: the scheduler loses nobody and finds nobody again. |
| KernelAccounting.NobodyIsLostExactly | kernel/systemCall.c:22-301 | Over every trusted run no task is lost at any point if and only if every call was considerate. |
| KernelAccounting.NobodyIsLost | kernel/systemCall.c:22-301 | After a run of considerate calls every task blocked on a receiver is in the queue of a live task, every task blocked on a reply waits for a live task, the one it sent to, no circle of tasks waits for itself, and every task blocked on an event is in one of the slots 1 to 6. |
| KernelAccounting.BootNobodyIsLost | kernel/systemCall.c:22-301 | The same from boot. |
| KernelAccounting.SomebodyMoves | kernel/systemCall.c:91-161 | Then every chain of waits ends with a live task that is not waiting for another, and that is in the event table if it awaits an event. |
| KernelAccounting.UnpaidIsLost | kernel/systemCall.c:22-26 | A task that exits owing a reply leaves the sender blocked and lost. |
| KernelDevices.WritesAreSeparated | kernel/event.c:24-56 | Between two bytes written to UART 1 there is a reading of CTS as set. |
| KernelDevices.RunPaced | kernel/event.c:24-56 | That pacing holds over every run whatsoever. |
| KernelDevices.BootRunPaced | kernel/kernelData.c:21-21 | And from boot, whatever CTS reads then. |
| KernelDevices.WriteCompletes | kernel/event.c:37-156 | On either UART the waiting writer is readied if and only if its slot is signalled, and then its own byte goes out, once; otherwise it keeps waiting and nothing is written. |
| KernelDevices.BytesStay | kernel/systemCall.c:279-301 | Until its write completes a task keeps the argument of its call, whatever steps come between. |
| KernelDevices.StepStreamExactly | kernel/event.c:37-156 | One entry, for either UART: bytes written followed by the one waiting grow by what is requested if and only if the slot was free for the request. |
| KernelDevices.WritesArrive | kernel/event.c:37-156 | Over trusted runs whose writers find the slot free, the bytes on either UART followed by the one waiting are the arguments of the write calls, in order and once each, under the names of their callers. |
| KernelDevices.BootWritesArrive | kernel/event.c:37-156 | The same from boot, with nothing written before. |
| KernelDevices.ConsiderateFindsFree | kernel/systemCall.c:298-298 | Considerate callers find the slot free. |
| SparseHeap.BagUpdate | common/heap.c:44-53 | Overwriting one slot changes the multiset of entries by exactly that entry. |
| SparseHeap.RootIsMinimum | common/heap.c:57-61 | The root holds a least entry, and an empty root means an empty heap. |
| SparseHeap.PushStep | common/heap.c:41-50 | One step up moves the hole, keeps the shape and loses no entry. |
| SparseHeap.PopStep | common/heap.c:65-97 | One step down moves the hole to the lesser child, keeps the shape and loses no entry. |
| SparseHeap.TakeSlot | common/heap.c:33-34 | Filling the first free slot leaves each remaining free slot with a parent that is filled or earlier in the list. |
| SparseHeap.ReturnSlot | common/heap.c:99-101 | Recycling the emptied leaf to the front of the list keeps that ordering. |
| SparseHeap.HeapU16.constructor | common/heap.c:12-27 | For every size: an empty heap whose free list is every slot in order. |
| SparseHeap.HeapU16.Push | common/heap.c:29-55 | Adds exactly the given entry; fails, changing nothing, exactly when every slot is filled. |
| SparseHeap.HeapU16.Pop | common/heap.c:57-103 | Removes and returns one entry of least cost; fails exactly when empty. |
| LinkedList.ListU32.constructor | common/list.c:4-15 | An empty list with every node free. |
| LinkedList.ListU32.PushFront | common/list.c:43-56 | Puts a value in front; fails, changing nothing, exactly when no node is free. |
| LinkedList.ListU32.PushBack | common/list.c:17-41 | Puts a value at the end under the same condition. |
| LinkedList.ListU32.PopFront | common/list.c:58-74 | Returns the first value; of the free nodes at most two remain, which is what the code does. |
| Dijkstra.Frontier | trains/trackGraph.c:20-47 | Any walk from the start ends in an expanded node labelled no higher than its length, unless a heap entry costs no more. |
| Dijkstra.DoneIsShortest | trains/trackGraph.c:20-47 | An expanded node's label is the length of a shortest walk. |
| Dijkstra.LoweredKeepsDone | trains/trackGraph.c:38-43 | Relaxing an edge never changes the label of an expanded node again. |
| Dijkstra.CheapestIsShortest | trains/trackGraph.c:20-23 | The cheapest entry of a node not yet expanded carries its distance. |
| Dijkstra.PopStep | trains/trackGraph.c:20-23 | Popping keeps the search invariant; a second pop of a node changes nothing but the heap. |
| Dijkstra.ExpandLower | trains/trackGraph.c:38-43 | Only the first expansion of a node lowers labels or pushes, and it keeps the invariant. |
| Dijkstra.Finished | trains/trackGraph.c:49-51 | With the heap empty, exactly the reachable nodes are labelled, each with its distance. |
| Dijkstra.WalkIsSimple | trains/trackGraph.c:54-61 | Following predecessors repeats no node. |
| SearchLimits.WithinIsDone | trains/trackGraph.c:20-47 | Between two popped costs every node within that distance has been expanded. |
| SearchLimits.FirstTight | trains/trackGraph.c:38-43 | Among the edges that reach a node at its distance, the first one looked at makes the node's entry. |
| SearchLimits.NoGapWithoutTies | trains/trackGraph.c:20-47 | If no two entries have the same cost, more than n can wait at some distance only if more than n are certain to. |
| SearchLimits.ExactPop | trains/trackGraph.c:20-23 | A pop keeps it that every entry comes from an improving edge of an expanded node, none is there twice, and every certain entry is there until its cost is reached. |
| SearchLimits.ExactLower | trains/trackGraph.c:38-43 | So does a lowered label. |
| SearchLimits.ExactSkip | trains/trackGraph.c:38-38 | So does an edge that lowers nothing: if its entry is certain, an edge as good has made it. |
| SearchLimits.BagPeaks | trains/trackGraph.c:20-47 | So the open list never holds more entries than can wait at the cost last popped. |
| SearchLimits.SureFits | trains/trackGraph.c:7-17 | And between two popped costs it holds all that are certain to wait there. |
| BushGraph.BushOverflows | trains/trackGraph.c:7-17 | On a graph that meets every other condition 64 entries are certain to wait at once. |
| PathFind.TotalFalls | trains/trackGraph.c:38-41 | Every push lowers the sum of all labels: the measure by which the search ends. |
| PathFind.RelaxEdge | trains/trackGraph.c:30-44 | One edge: label, predecessor and heap change together, to the values given, exactly when the new cost is lower; it fails exactly on a full heap. |
| PathFind.CountStep | trains/trackGraph.c:20-47 | One pop keeps the bounds on heap size and pushes and the order of popped costs. |
| PathFind.RunSearch | trains/trackGraph.c:20-47 | Ends on every graph and leaves distances; fails only where more entries can wait than the heap has slots and as many nodes are branches, and always where more are certain to wait. |
| PathFind.Rebuild | trains/trackGraph.c:53-61 | Writes the predecessor walk from start to end into the list without running out of nodes. |
| PathFind.PathFind | trains/trackGraph.c:5-63 | Ends on every graph. With positive lengths and fitting costs: a list is a shortest walk of real edges, -1 means unreachable, popped costs never fall, each node is first popped at its distance, and pushes number at most one plus the edges leaving reachable nodes. No assertion fails with fewer than 63 branches, nor where at most 63 entries can wait at any distance; one does where more are certain to. If no two entries have the same cost, one fails if and only if more than 63 wait at some distance. |
| PathFind.FindInBush | trains/trackGraph.c:7-42 | On the binary tree of branches every call fails an assertion. |
| DelayQueues.InsertAddsDeadline | user/servers/ClockServer.c:115-158 | A push adds the deadline now + delay for its task and changes no other, for every list. |
| DelayQueues.TickTrueExactly | user/servers/ClockServer.c:115-158 | After a push the next tick wakes exactly what is due and keeps every other deadline if and only if the delay is at least 1. |
| DelayQueues.WordsAreNumbers | user/servers/ClockServer.c:137-156 | With delays of 0 to 2^31 - 1 the unsigned comparisons and signed stores compute the same list as exact numbers would. |
| DelayQueues.TickWakesTheDue | user/servers/ClockServer.c:67-87 | A tick wakes exactly the tasks due at that tick, as often as they asked, and keeps every other deadline. |
| DelayQueues.EveryRequestIsMetOnTime | user/servers/ClockServer.c:43-112 | Over any run what was woken, when it was, and what is pending are together what was requested. |
| DelayQueues.WokenExactlyOnTime | user/servers/ClockServer.c:43-112 | By any time, each task was woken at each past tick exactly as often as it asked for that tick. |
| DelayQueues.OnTimeExactly | user/servers/ClockServer.c:43-158 | Over any run, what was woken and is pending agrees with what was requested at every point and for every deadline if and only if no tick comes after a request for 0 ticks. |
| DelayQueues.DelayQueue.constructor | user/servers/ClockServer.c:160-170 | An empty queue of 32 free nodes. |
| DelayQueues.DelayQueue.Push | user/servers/ClockServer.c:115-158 | For every U32: the pointer list afterwards stands for InsertWord of what it stood for; the assertion fails exactly when 32 tasks wait; free plus used nodes stay 32. |
| DelayQueues.DelayQueue.CountDown | user/servers/ClockServer.c:67-87 | For every stored delay the in-place tick is TickWord, and returns each emptied node to the free list. |
| ClockServer.OneMessage | user/servers/ClockServer.c:50-111 | One message moves the state as it moves two clocks, wakes whom they wake, and GET_TIME answers the ticks so far as a U32. |
| ClockServer.RunIsTwoClocks | user/servers/ClockServer.c:43-112 | A run of the server is a run of two delay queues; its time is the number of ticks as a U32. |
| ClockServer.ServerWakesOnTime | user/servers/ClockServer.c:22-113 | From boot, over any run that survives, tasks are woken by each notifier's ticks exactly as they asked, and by nothing else. |
| ClockServer.EveryoneIsAnswered | user/servers/ClockServer.c:60-112 | Over every run that survives each notifier is answered once for every message it sends, and everyone who asks for the time is told the ticks so far, as a U32, once; in order, and nobody else. |
| ClockServer.SenderFirst | user/servers/ClockServer.c:60-112 | Whoever sends a message that is answered is answered before anybody is woken. |
| ClockServer.AskedAndNotWoken | user/servers/ClockServer.c:43-112 | In either queue wait exactly as many as have asked and have not been woken. |
| ClockServer.AssertsExactly | user/servers/ClockServer.c:115-130 | From boot the server asserts if and only if somebody asks for a delay while 32 others wait for the same kind of tick. |
| ClockServer.Server.Serve | user/servers/ClockServer.c:43-112 | One turn of the loop on the object is Handle, replies included, whatever delay is asked for. |
| TrackManager.Allocate | user/trainservers/TrackManager.c:75-118 | Refuses exactly when another train holds a named node, then names the first such node and changes nothing; otherwise revokes and grants. |
| TrackManager.OwnsLastGranted | user/trainservers/TrackManager.c:75-118 | Over any run each train owns exactly the nodes of its last granted request. |
| TrackManager.GrantsAreApart | user/trainservers/TrackManager.c:82-95 | No two trains' last granted requests share a node, at any time. |
| TrackManager.GrantMoves | user/trainservers/TrackManager.c:102-113 | A grant moves only the requesting train's nodes. |
| TrackManager.GrantedExactly | user/trainservers/TrackManager.c:82-95 | A request is granted if and only if no named node is another train's. |
| TrackManager.SubsetSucceeds | user/trainservers/locomotiveState.c:473-490 | Asking for part of what a train holds is always granted, and leaves it just that. |
| TrackManager.PassesThroughRelease | user/trainservers/TrackManager.c:102-113 | Over any run a node leaves a train only by a granted request of that train that does not name it, which leaves it nobody's. |
| TrackManager.ClientResult | user/trainservers/TrackManager.c:9-22 | The client gets 0 for a grant and minus the number of the first conflicting node for a refusal. |
| TrackManager.RefusalLostExactly | user/trainservers/TrackManager.c:16-21 | A client reads a refusal as success if and only if its list comes to node 0, held by another train, before any other node so held. |
| TrackManager.TrustedExactly | user/trainservers/TrackManager.c:16-21 | The answer to a request can be trusted for every ownership table if and only if the request does not name node 0. |
| TrackManager.RefusalLost | user/trainservers/TrackManager.c:16-21 | A table and a request for which a refusal reads as success. |
| TerminalDriver.Driver.constructor | user/servers/TerminalDriver.c:16-27 | Indices and count at 0, the buffer as it is found, nobody waiting. |
| TerminalDriver.Driver.Enqueue | user/servers/TerminalDriver.c:59-65 | The masked copying loop writes the string from the tail on and adds its length to the U32 count. |
| TerminalDriver.Driver.Serve | user/servers/TerminalDriver.c:31-118 | For every state of the variables one turn of the loop is Handle: buffer, indices, count, flags, replies and failing assertions. |
| TerminalDriver.WrittenHolds | user/servers/TerminalDriver.c:59-65 | Copying a string that fits appends it to what the ring holds. |
| TerminalDriver.OutputKeptExactly | user/servers/TerminalDriver.c:52-99 | A message keeps the count right and moves bytes sent plus bytes held by what it puts if and only if it is not an empty string put while the notifier waits. |
| TerminalDriver.EmptyPutBreaks | user/servers/TerminalDriver.c:70-80 | That message sends the notifier the byte that lies at the head, which nobody put, and turns the count to 2^32 - 1. |
| TerminalDriver.OutputPreserved | user/servers/TerminalDriver.c:31-118 | Over any run without such a message, bytes sent followed by the ring are the strings put, in order, and a waiting notifier means an empty ring. |
| TerminalDriver.OutputExactly | user/servers/TerminalDriver.c:31-118 | The output stream is right at every point of a run if and only if no empty string is put while the notifier waits. |
| TerminalDriver.EmptyPutFromBoot | user/servers/TerminalDriver.c:70-97 | A run from boot on which it goes wrong. |
| TerminalDriver.InputPreserved | user/servers/TerminalDriver.c:36-116 | Over any run: characters given plus queue are those received with room, in order; callers of getc are answered once each, in order; a waiting caller means an empty queue. |
| TerminalDriver.EveryoneIsLetGo | user/servers/TerminalDriver.c:67-104 | Over any run each writer and, per character, the input notifier is let go exactly once, in order. |
| TerminalDriver.EveryVisitAnswered | user/servers/TerminalDriver.c:70-99 | Over every run in which one notifier fetches the output, each of its visits is answered with one byte, addressed to it, unless it is the one now waiting; nobody else is sent a byte of output. |
| TerminalDriver.SenderFirst | user/servers/TerminalDriver.c:27-116 | Whoever sends a message that is answered is answered before anybody else. |
| TerminalDriver.AssertsExactly | user/servers/TerminalDriver.c:41-104 | From boot, as long as no empty string is put while the notifier waits, the server asserts if and only if bytes put, unsent and new together reach 4096, a getc comes while another waits, or a character comes from a task that is not the input notifier. |
| SwitchServer.PackRoundTrip | user/servers/TrainSwitchServer.c:68-103 | Packing type and body into one word and taking it apart are inverse both ways. |
| SwitchServer.Server.constructor | user/servers/TrainSwitchServer.c:52-58 | Nothing queued, the courier out. |
| SwitchServer.Server.Serve | user/servers/TrainSwitchServer.c:61-112 | One turn of the loop on the ring of packed words is Handle on commands; the assertion fails exactly when 64 are queued and the courier is out. |
| SwitchServer.DeliveredInOrder | user/servers/TrainSwitchServer.c:61-112 | Over every run commands handed over plus queue are those that arrived, in order; every client is let go once; the courier rests only with an empty queue and the solenoid just released. |
| SwitchServer.EveryVisitAnswered | user/servers/TrainSwitchServer.c:66-106 | With one courier everything handed over goes to it, each visit is answered once, and the solenoid is never released twice in a row. |
| SwitchServer.AssertsExactly | user/servers/TrainSwitchServer.c:92-107 | From boot the server asserts if and only if a switch command comes while 64 that arrived have not been handed over. |
| IntSqrt.FixedExactly | trains/trainMath.h:13-23 | The iteration stands still at k exactly when k*k <= i < k*k + 2k. |
| IntSqrt.Descends | trains/trainMath.h:13-23 | Above the root iterates fall and never below it. |
| IntSqrt.Compute | trains/trainMath.h:9-26 | The loop ends with the floor of the square root, for every word whose successor is not a perfect square. |
| IntSqrt.ReturnsExactly | trains/trainMath.h:9-26 | It returns if and only if i + 1 is not a perfect square; 0 and 2^32 - 1, which divide by zero, are covered. |
| Decimal.Collect | user/services/terminal.c:43-48 | The digits of every S32, last first, in at most 10 of the 16 characters. |
| Decimal.PrintDecimal | user/services/terminal.c:33-68 | The text is sign, padding and grouped digits, for every value, width and padding. |
| Decimal.DigitsExactly | user/services/terminal.c:37-48 | The digit characters are digits if and only if the value is not the least S32. |
| Decimal.Stratoui | common/string.c:17-25 | The loop computes Scan, in U32, and stops at the first character that is no digit. |
| Decimal.ScanIsValue | common/string.c:17-25 | That is the number the leading digits stand for, however many there are, modulo 2^32, and the text from the first character on that is no digit. |
| Decimal.Strskipws | common/string.c:37-40 | The loop drops exactly the leading characters up to the space. |
| Decimal.SkipExactly | common/string.c:37-40 | All leading characters up to the space are dropped, and no other. |
| Decimal.ZeroPaddedRoundTrip | common/string.c:17-25 | Zero-padded output of any width reads back as the value, leaving what follows, if and only if the value is not negative. |
| Decimal.SpacePaddedRoundTrip | common/string.c:37-40 | The same for space padding once spaces are skipped. |
| Decimal.GroupedKeepsDigits | user/services/terminal.c:57-65 | Commas only separate; there is one per three digits that follow another. |
| Decimal.WidthExactly | user/services/terminal.c:50-56 | With commas the width is met exactly; without, if and only if no comma was foreseen or the width is no more than the digits. |
| Decimal.CommaRoundTrip | user/services/terminal.c:61-64 | With commas a number reads back if and only if it is below 1000. |
| Decimal.MinusFirst | user/services/terminal.c:37-41 | A negative number but the least prints, whatever width, padding and commas, as a minus followed by what its magnitude prints as. |
| Decimal.PaddingExactly | user/services/terminal.c:50-55 | A number is padded with as many delimiters as the width exceeds what its digits take with commas, and otherwise prints as without padding. |
| Decimal.UnpaddedRoundTrip | user/services/terminal.c:43-65 | Unpadded, a number reads back once its commas are removed, and begins with no superfluous zero. |
| Decimal.CommasExactly | user/services/terminal.c:57-65 | Counted from the end, every fourth character is a comma, and no other is. |
| Decimal.SignedRoundTrip | user/services/terminal.c:33-68 | Every S32 but the least, padded with zeros: a minus if and only if it is negative, and then its magnitude, which reads back, leaving what follows. |
| Decimal.SignedSpacedRoundTrip | user/services/terminal.c:33-68 | The same for negative numbers padded with spaces, which stand behind the minus. |

## Left out

- PathFind.PathFind: where two entries have the same cost, the order in which the heap gives them out, which depends on the slots it has recycled, decides which edges are looked at first; there only the two bounds on the assertion are proved.
- PathFind.PathFind: the sum of a popped cost and an edge length is taken as exact before it is cut to 16 bits; lengths near 2^31 are not modelled.
- KernelRuns.RunKeeps: six faults remain possible, as the source allows: a full ready level, a full send queue, a reply to a task that awaits none, no free block, a task or event number out of range, and a missing idle task, which IdleNeverMissing rules out; NeverCrashes gives the conditions under which none of them occurs. A number out of range ends the run here, where the source, which does not check it, reads past its array.
- KernelImage.Image.SystemCallHandler: does not model the NAME call and the performance queries, which only read, nor the performance counters.
- KernelImage.Image: a descriptor's send queue is a sequence; its ring of eight slots is the one proved in RingBuffer.
- KernelAccounting.NobodyIsLostExactly: a reply is awaited from the task the message was sent to; the source lets any task give it, so a task counted as lost could still be replied to by a bystander. That events occur and that user code replies and receives is the business of hardware and user code.
- Memory of tasks: envelopes, sender ids and replies live in descriptor fields instead of behind pointers, so a task that passes overlapping buffers, or reads a message after its sender changed it, is not modelled; nor is a task that overwrites a block's header.
- KernelMemory.RunHeld: FREE is modelled at the handler; the `sysFree` macro issues the number of ALLOC and never reaches it.
- Stale ids whose generation has come round again after 256 lives of a descriptor; the invariant covers ids that the kernel itself stores.
- Context switch, vectors, timers and UART registers: hardware. Enabling and disabling of transmit interrupts is not part of a step's state.
- SparseHeap.HeapU16.Pop: a heap that is not empty has an odd size of at least 3, as the open list has; for other sizes the code reads a slot past its array.
- DelayQueues.DelayQueue.CountDown: the decrement of the least S32, undefined in C, wraps.
- ClockServer.ServerWakesOnTime: delays are 1 to 2^31 - 1, all that user/services/clockService.c sends; for others only what the list becomes is stated.
- ClockServer.Server.Serve: registration with the name server and the creation of the notifiers.
- TrackManager.Allocate: the list in the client's memory is a sequence of words for nodes below 72, not a pointer chain; a null list and larger node numbers are errors of the client that the server does not check.
- TrackManager: the two ways of asking who owns a node, and the request for the whole table: they only read.
- TerminalDriver.Driver.Serve: a string fits into the 32-bit address space beside the 4096 bytes of the ring.
- SwitchServer: what the courier does with a command.
- IntSqrt.Compute: words below a perfect square, for which the source does not return.
- Track tables, train calibration and locomotive control: finite constants and heuristics without a specification.
- The switch office, name server, train yard, commander and sensor servers, displays and the prompt: tables and queues that would add easier claims of the same kind.
- String formatting other than decimal.
