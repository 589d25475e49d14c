# A verified model of the kernel

The repository is a small preemptive kernel for one RISC-V core: threads with time slices, a sleep
queue, a block allocator, counting semaphores, a buffered console, and a test program with a bounded
buffer. A trap runs to completion, so the kernel is a state machine whose steps are traps. The
project models it on two levels and proves that the lower one does what the upper one says.

**Values.** `Runs` and `HeapHistory` are the heap as a sequence of runs. `IndexEncoding` says how
`mem_index` encodes it. `Semaphores` is one semaphore, `DeltaQueue` the sleep queue and the map from
sleeper to ticks left that it stands for, `ThreadQueues` the queues of threads together, `Ownership`
the purposes of live allocations. `Machine` is the whole kernel: `State`, the traps `Trap`, and
`Step`, one trap from interrupt to return.

**Theorems about runs.** `Safety` has the invariant and shows that every trap keeps it and when a
trap ends the kernel. `Startup` does what `main` does up to the first user thread and shows when it
succeeds, so that runs have somewhere to start. `Executions`, `QueueRuns` and `Reception` have the
theorems about whole runs: where threads are, what registers they get back, how long they wait, when
sleepers wake, what semaphores count, where received bytes go. `Effects` looks at the traps the other way
round, with one law for each part of the state instead of one function for each trap, in terms of the
state before and of numbers, and shows that the laws hold and determine the next state; `Calls` draws
from them what each call returns and does, and how long a slice lasts. `Departures` and `Mishaps` have a
concrete case for each way in which the code misses its purpose.

**Memory.** `Memory.Allocator` is `src/mem.c` over an array of 32-bit words, the first of which are
`mem_index`. `Rings` is the circular doubly linked list of `h/list.h`, with all `next` and all `prev`
fields as two maps; `KernelLists` says what it means that list heads, links and records hold given
queues. `Kernels.Kernel` has the routines of `src/list.c`, `src/scheduler.c`, `src/semaphore.c`,
`src/thread.c`, the receive half of `src/console.c` and `irq_handler`, on these fields and on an
allocator's words. Its `IrqHandler` is proved to do to memory exactly what `Machine.Step` does to the
state, so the theorems about runs are theorems about the routines. `Transmission.Transmitter` is the
send half of the console, and `Printing` the number printers and the parser.

**A client.** `BufferProtocol` is the bounded buffer of `test/buffer.cpp`, with every load, store and
semaphore call a step of its own and any number of threads. `BufferRuns` shows that each of its
operations takes effect at exactly one moment.

`Options`, `Words`, `Sequences` and `Division` are helpers. Block numbers stand for block addresses;
block 0 holds the index, so number 0 is the null pointer. `home` in `Queues` and `uses` in `Mem` are
history: no decision reads them. Device input is the argument of the console trap, the words behind
the index an argument of the traps that allocate, device readiness a number of consecutive ready
reads. Signed overflow, undefined in C, wraps as it does on the machine.

## Departures of the code from its intent

The model follows the code. Where the code misses its evident purpose the project states exactly
when it meets it, and gives a case in which it does not:

- A search of `__mem_alloc` that finds no block goes on to the words behind the index. It returns
  null for every request exactly if the first of them is positive, or negative behind a free last
  run; else it may panic, leave the heap, or write tags there and hand out the end of the heap
  (`Memory.QuietEnd`, `Memory.Allocator.Alloc`; `Departures.FullHeap`).
- A request for no blocks breaks the index whenever it is granted (`Memory.Allocator.Alloc`;
  `Departures.NoBlocks`).
- `__mem_free` of a run's last block is accepted exactly when a run of the same size starts there and
  ends in an equal tag; then the index encodes nothing (`IndexEncoding.FooterAccepted`,
  `Memory.Allocator.Free`; `Departures.FooledFooter`).
- The calls that allocate inherit the first: with no block left they panic on a zero word behind the
  index, and a sleep that gets null writes through it (`Safety.StepOk`; `Mishaps.SleepFails`).
- `__sem_open` writes outside the table of ten semaphores from the eleventh opening on
  (`Safety.StepOk`; `Mishaps.EleventhSemaphore`).
- `__scheduler_remove_timeout` leaves the head on a released record exactly when it removes the first
  of several sleepers, and so does the signal of a timed waiter
  (`Kernels.Kernel.SchedulerRemoveTimeout`, `Kernels.Kernel.SemUnblockThread`;
  `Departures.StaleHead`).
- `__sem_remove_thread` always takes out the first in line, leaves the ring sound exactly when there
  is only one in line, and then returns nothing to it (`Kernels.Kernel.SemRemoveThread`;
  `Departures.StaleLine`).
- `__sem_timed_wait` puts the caller to sleep even if it does not block
  (`Kernels.Kernel.SemTimedWait`).
- A timed wait with time 0 makes the next tick wrap, and everybody who sleeps then has about 2^64
  ticks too many; a tick is right exactly if nothing is overdue, and joining the queue keeps it so
  exactly for times of at least one
  (`DeltaQueue.TickRight`, `DeltaQueue.InsertDue`, `DeltaQueue.InsertZero`; `Departures.NobodyWakes`).
- `__sem_close` leaves the sleep records of timed waiters where they are, with a semaphore in them
  that is gone: exactly the threads in line that are asleep too end up in two places
  (`QueueRuns.CloseForgets`; `Departures.ReadyAndAsleep`).
- A semaphore opened with more than 2^31 - 1 owes threads it does not have
  (`Semaphores.OpenCounts`; `Departures.OwesThreads`).
- `__getc` delivers a byte where the caller's registers were last saved, not where they are
  (`Reception.GetcDelivers`; `Mishaps.ByteLost`).
- `printInt` overruns its buffer for bases below 5; in base 4 for exactly the signed numbers up to
  -2^30 (`Printing.BufferSuffices`; `Departures.NoRoomForSign`).

## Model

| member | source | states |
|---|---|---|
| HeapHistory.TakeFacts | src/mem.c:46-87 | an allocation fails exactly when no free run is large enough; else it adds one live entry, behind the index, inside the heap, and changes no other |
| HeapHistory.GiveFacts | src/mem.c:89-141 | releasing a live allocation other than the index removes exactly its entry and keeps the heap canonical |
| Runs.FirstFit | src/mem.c:50-83 | the run found is the first free one that is large enough, and none is found exactly when none is |
| Runs.AllocCanonical | src/mem.c:61-80 | splitting a free run leaves runs that tile the same blocks with no two free neighbours |
| Runs.AllocLive | src/mem.c:61-80 | the block handed out started no live allocation; exactly it is added |
| Runs.FreeCanonical | src/mem.c:106-138 | merging a released run with its free neighbours leaves runs that tile the same blocks with no two free neighbours |
| Runs.FreeLive | src/mem.c:106-138 | exactly the released entry disappears from the live allocations |
| Runs.LiveDisjoint | src/mem.c:46-87 | live allocations never overlap |
| Runs.CanonicalUnique | src/mem.c:46-141 | the live allocations determine the whole heap: two canonical heaps with the same ones are equal |
| HeapHistory.HistoryKeepsHeap | src/mem.c:46-141 | after any legal sequence of allocations and releases the runs tile all blocks, no two free ones touch, the index is in place |
| HeapHistory.HistoriesConfluent | src/mem.c:46-141 | histories that end with the same live allocations end with the same heap |
| HeapHistory.AllReleasedIsBoot | src/mem.c:16-141 | once everything allocated after start-up is released, in any order, the heap is the one start-up built |
| HeapHistory.TakeGiveRoundTrip | src/mem.c:46-141 | releasing what was just allocated restores the heap before the allocation |
| IndexEncoding.EncodeInjective | src/mem.c:16-30 | the index determines the runs it encodes |
| IndexEncoding.TookSome | src/mem.c:61-80 | the writes of a successful search turn the encoding of a heap into the encoding of the heap after first fit with split, runs of size one included |
| IndexEncoding.TookNone | src/mem.c:61-80 | with zero blocks asked for they wipe a tag and leave no encoding of anything |
| IndexEncoding.MergeIsFree | src/mem.c:106-138 | the writes of a release turn the encoding of a heap into the encoding of the heap after mark and merge, in all four cases of free neighbours |
| IndexEncoding.NotEncodable | src/mem.c:16-30 | cells that follow an encoding up to a run and then have no tag, or unequal tags, encode nothing |
| IndexEncoding.PositiveTags | src/mem.c:100-101 | a cell is positive exactly at the first and the last block of a used run |
| IndexEncoding.FooterAccepted | src/mem.c:103-104 | a last block is taken for a first one exactly when a used run of the same size starts at the block it points to |
| IndexEncoding.FooterRelease | src/mem.c:103-138 | a release accepted at a last block stays inside memory and leaves no encoding of anything |
| IndexEncoding.TagsFit | src/mem.c:16-30 | every tag of an index of n blocks lies between -n and n |
| Memory.IndexFits | src/mem.c:18-26 | the blocks reserved for the index hold all of it and leave room for at least one more block |
| Memory.AddrRoundTrip | src/mem.c:70-79 | block to address to block is the identity |
| Memory.BlockRoundTrip | src/mem.c:91-98 | aligned address to block to address is the identity |
| Memory.SearchIsFirstFit | src/mem.c:50-86 | the loop finds the first fit; without one it ends as the words behind the index and the last run have it: with nothing, in a panic, outside the heap, or with a stretch behind the index |
| Memory.QuietEnd | src/mem.c:50-86 | a search that finds nothing says so, whatever was asked for, exactly if the word behind the index is positive, or negative behind a free last run |
| Memory.Allocator.constructor | src/mem.c:16-30 | the index built over arbitrary memory encodes the index's own run and one free run |
| Memory.Allocator.Search | src/mem.c:46-86 | the search loop, with the rounds it makes behind the index, does what SearchFrom says of the runs and of the words behind the index, and ends |
| Memory.Allocator.Overrun | src/mem.c:52-83 | what the loop does with the word behind the index once a used last run has brought it there |
| Memory.Allocator.CarveBehind | src/mem.c:59-80 | the tags written behind the index leave the heap alone, unless no blocks were asked for: then the last tag goes and the index encodes nothing |
| Memory.Allocator.Alloc | src/mem.c:46-87 | first fit with split and the address of the block; without a fit, exactly when it returns null, panics, leaves the heap, or writes tags behind the index and hands out the end of the heap; a request for nothing breaks the index whenever it is granted |
| Memory.Allocator.Free | src/mem.c:89-141 | the four refusals and when each is given, the release of any live block, and when and how a last block is falsely accepted |
| Memory.Allocator.Merge | src/mem.c:106-138 | the branches of the release write what MergeWrites says, all inside memory |
| Semaphores.OpenCounts | src/semaphore.c:92-114 | the counter's negative part is the length of the line exactly for initial values up to 2^31 - 1; the first signal fails exactly from that value on |
| Semaphores.WaitCounts | src/semaphore.c:162-178 | a wait takes one from the counter and blocks exactly when nothing is left, and the counter keeps counting the line |
| Semaphores.SignalCounts | src/semaphore.c:200-228 | a signal adds one and releases a thread exactly when there is one, and never fails |
| Semaphores.Accounting | src/semaphore.c:92-228 | after any history in range: value is initial value plus signals minus waits, the line its negative part, completed waits never exceed initial value plus signals |
| Semaphores.ReleasedInTurn | src/semaphore.c:144-213 | the waiter at place k of the line is released by the (k + 1)-th signal, whatever waits come in between |
| DeltaQueue.InsertDue | src/scheduler.c:149-219 | joining the sleep queue sets the newcomer's time and moves nobody else's; nothing is overdue afterwards exactly if nothing was and the time is at least one |
| DeltaQueue.InsertAt | src/scheduler.c:196-218 | where the walk over partial sums stops is where the newcomer belongs |
| DeltaQueue.ElapsedFits | src/scheduler.c:201-207 | no partial sum of the walk overflows 64 bits |
| DeltaQueue.TickDue | src/scheduler.c:273-321 | a tick wakes exactly those with one tick left, in order, takes one tick off all others, and leaves nobody overdue |
| DeltaQueue.TickRight | src/scheduler.c:273-321 | a tick wakes whoever has one tick left and takes one off everybody else exactly if nothing is overdue |
| DeltaQueue.InsertZero | src/scheduler.c:149-219 | a newcomer with time 0 is put first and makes the next tick wrap: it and all who sleep have 2^64 ticks too many |
| DeltaQueue.RemoveDue | src/scheduler.c:221-271 | taking an entry out moves nobody else's time |
| ThreadQueues.OnePlace | src/scheduler.c:22-74 | queues that are in order put every thread but kernel_main in exactly one place |
| ThreadQueues.AdmitOk | src/semaphore.c:180-213 | moving the first waiter to the ready ring keeps queues in order and every thread placed |
| ThreadQueues.WakeOk | src/scheduler.c:286-318 | so does waking the first sleeper |
| Ownership.GrabOk | src/mem.c:46-87 | a block handed out had no purpose before and is not the index |
| Ownership.DropOk | src/mem.c:89-141 | every live block other than the index can be released |
| Safety.StepOk | src/main.c:49-451 | every trap keeps the invariant; it panics exactly when a thread exits with its stack pointer below its stack or an allocation finds no block and then a zero word, writes through null exactly when a sleeper's allocation returns null, and strays exactly when an allocation finds no block and leaves the index otherwise or an eleventh semaphore is opened |
| Safety.WakeDueOk | src/scheduler.c:285-318 | the tick loop always gets through, makes the due sleepers ready in order, and touches nothing else |
| Safety.ServeOrder | src/console.c:119-133 | the longest-waiting readers get the oldest bytes and become ready in order |
| Safety.UnblockAllOk | src/semaphore.c:116-142 | closing a semaphore appends its line to the ready ring in order and changes no other queue |
| Safety.ExitOk | src/thread.c:129-162 | exit panics exactly on stack underrun; else both releases succeed and give back exactly the record and the stack |
| Safety.CreateOk | src/thread.c:19-77 | creation on a fresh stack keeps the invariant, so that the stack's base is the start of its run |
| Safety.UsersFit | src/thread.c:19-77 | there are never more threads than blocks |
| Safety.KernelDispatchOk | src/main.c:407-446 | the extra write of sscratch after kernel_main's switch changes nothing |
| Startup.AllocateFits | src/main.c:462-492 | start-up gets all it asks for exactly if 162 blocks are left beside the index, and the allocations lie one behind the other |
| Startup.BootedOk | src/main.c:462-480 | the state those allocations and the scheduler's initialisation leave satisfies the invariant |
| Startup.StartedOk | src/main.c:462-502 | start-up succeeds exactly with 163 blocks beside the index; then the invariant holds, one user thread is counted, it is ready to run on its own stack, in user mode, from the wrapper, which finds user_main as its argument, and nothing else is queued |
| Startup.UserMainRuns | src/main.c:503-504 | kernel_main's first dispatch puts user_main on the processor with these registers |
| Executions.StepFrames | src/thread.c:79-127 | each trap moves only the interrupted thread on in its program; all others keep their registers, wherever these are; new threads start at the wrapper; a full putc resumes at the call |
| Executions.FrameStays | src/thread.c:79-127 | in every run a thread off the processor stays alive and its registers stay what they were |
| Executions.ComesBack | src/thread.c:79-127 | in every run a thread that gets the processor back finds the registers it had when a trap took it, with only the call stepped over |
| Executions.StepAdvances | src/main.c:49-451 | every trap treats the ready ring as a queue: which threads join at its end, in which order, and at exactly which traps the processor goes to its first |
| Executions.RunSafe | src/main.c:49-451 | every state of every run satisfies the invariant; a run goes on for as long as its traps return |
| Executions.RunPlaces | src/main.c:49-451 | in every run every live thread is in exactly one place |
| Executions.RunUsers | src/main.c:505-519 | in every run the user count is the number of live user threads, zero exactly when only kernel_main is left |
| Executions.WaitStep | src/main.c:56-77 | until a queued thread runs, ticks and switches only lower the running slice plus twice its place |
| Executions.BoundedWait | src/main.c:56-77 | a thread at place k of the ready ring runs within 2(k + 1) timer interrupts, whatever else happens |
| Executions.RunsFromStart | src/main.c:456-521 | every state that can be got to from start-up satisfies the invariant, counts its user threads and has each in one place |
| QueueRuns.StepQueues | src/main.c:49-451 | what each trap does to sleepers and semaphores: only the calls on them and the timer change them, and as the value models say |
| QueueRuns.CloseQueues | src/semaphore.c:116-142 | a close removes the semaphore and appends its line to the ready ring |
| QueueRuns.CloseTells | src/semaphore.c:116-142 | after a close the caller has 0, every thread that was in line -1 (unless its result lies where the caller's does), and no other result has changed |
| QueueRuns.CloseForgets | src/semaphore.c:116-142 | a close leaves the sleep queue alone, so that exactly the threads in line that are asleep as well end up ready and asleep at once |
| QueueRuns.SleepCall | src/main.c:371-388 | a sleep call sets the caller up for exactly the time it asked for |
| QueueRuns.SleepsExactly | src/scheduler.c:273-321 | in every run a thread with d ticks to sleep sleeps through d - 1 timer traps and is made ready by the d-th |
| QueueRuns.SemFollows | src/semaphore.c:162-228 | in every run without close a kernel semaphore is what its waits and signals make of it |
| QueueRuns.StaysInRange | src/semaphore.c:162-178 | in every run counters cannot underflow, since memory holds too few threads |
| QueueRuns.SemAccount | src/semaphore.c:92-228 | in every run without overflow: value is initial value plus signals minus waits, the line its negative part, and the next signal finds a thread if it looks for one |
| QueueRuns.SignalAnswers | src/semaphore.c:215-228 | in every such run a signal returns 0 to its caller, so SEM_SIGNAL_NO_THREADS is never returned |
| QueueRuns.SemInTurn | src/semaphore.c:180-228 | in every run without close the thread at place k of a line that its counter counts is made ready by the (k + 1)-th signal from then on |
| Effects.StepLawful | src/main.c:49-451 | the laws, one for each part of the state, about every trap: what is returned to callers and told to waiters, who owns which blocks, the counts, the queues, the bytes, slices and stacks, saved registers, and the processor with its ring |
| Effects.LawsDecide | src/main.c:49-451 | these laws leave nothing open: two states in order that obey them for the same trap are equal |
| Effects.UnblockAllDoes | src/semaphore.c:116-142 | the loop of a close tells each thread in line -1 where its registers were saved, in order, and gives it a whole slice |
| Effects.ServeDoes | src/console.c:119-129 | the readers served are told the bytes in order where their registers were saved, and get whole slices |
| Effects.WakeDueDoes | src/scheduler.c:285-318 | the tick loop gives back exactly the records of the sleepers that are due and renews exactly their slices |
| Calls.AllocAnswers | src/main.c:168-180 | an allocation returns the address of a block that was no live allocation and now is one of the size asked for; without room it returns the null pointer and leaves the heap alone |
| Calls.CreateAnswers | src/main.c:234-252 | a new thread is last in the ready ring with two ticks, in user mode at the wrapper, with the function it is to run where its a0 is restored from; its creator is told 0, or -1 and nothing has changed |
| Calls.OpenAnswers | src/main.c:288-302 | a new semaphore is a record nobody had, holding the initial value and nobody in line, and its caller is told 0; or -1 without room |
| Calls.WaitAnswers | src/main.c:316-335 | a wait that goes through returns 0 and its caller goes on; one that does not puts its caller last in line, tells it nothing yet, and runs the next in the ready ring |
| Calls.SignalReturns | src/main.c:336-348 | a signal returns 0, and if there is a line tells its first 0 too and makes it ready with a whole slice; it returns -1 exactly if the counter claims a line that is not there |
| Calls.SleepAnswers | src/main.c:371-388 | a sleep returns 0 and, for any time but 0, puts its caller among the sleepers for that time and runs the next in the ready ring |
| Calls.DispatchSwitches | src/main.c:277-287 | a dispatch puts its caller last in the ready ring and runs the first, with two ticks |
| Calls.ExitReleases | src/main.c:253-276 | after an exit the record and the stack of the thread are free, it is counted no more, and the next in the ready ring runs |
| Calls.WholeSlice | src/scheduler.c:22-74 | whoever gets the processor out of the ready ring has two ticks left |
| Calls.KeepsProcessor | src/main.c:56-77 | in every run a thread that does not itself give the processor away keeps it until as many timer interrupts have passed as it had ticks left |
| Reception.StepBytes | src/console.c:86-134 | each trap takes bytes in behind the buffer and gives bytes out from its front |
| Reception.BytesInOrder | src/console.c:86-134 | in every run the bytes taken from the device are those delivered followed by those buffered, in order; at most 1024 are buffered; none while somebody waits |
| Reception.ServeDelivers | src/console.c:119-129 | the i-th reader in line gets the i-th byte, unless a later one has its result at the same place |
| Reception.GetcDelivers | src/console.c:99-102 | the caller gets a byte that is there exactly if its registers were last saved where they are now, or it holds that byte anyway |
| Rings.InsertLinks | src/list.c:3-10 | the four writes put a node in front of any entry, or behind the last, and touch no other ring |
| Rings.Rotate | src/scheduler.c:180-192 | a ring can be entered at any of its nodes |
| Rings.RemoveLinks | src/scheduler.c:66-67 | the two writes take any node out of a ring of several and touch no other ring |
| Rings.PushCircle | src/scheduler.c:28-36 | pushing on an empty or non-empty ring appends the node |
| Rings.PopCircle | src/scheduler.c:56-69 | popping removes the first node, emptying a ring whose head is linked to itself |
| KernelLists.Relinked | src/list.c:3-10 | relinking one ring and nodes in no ring leaves every other ring as it was |
| KernelLists.LaterHolds | src/scheduler.c:209-218 | after the insertion memory holds the sleep queue with the newcomer where it is due |
| KernelLists.EarliestHolds | src/scheduler.c:171-193 | so it does after an insertion before all others, entered at the new node |
| KernelLists.CancelHolds | src/scheduler.c:250-270 | unlinking one of several sleepers leaves a sound queue, provided the head moves if it is the first |
| KernelLists.ForgetAdmit | src/semaphore.c:124-135 | letting the first of a line go looks the same without the line |
| Kernels.Kernel.constructor | src/main.c:471-480 | memory after the allocations of start-up stands for the booted state, and the index for its heap |
| Kernels.Kernel.Start | src/main.c:456-502 | start-up on memory with arbitrary contents arrives at the started state, with its heap in the index, or gets no further exactly when there is none |
| Kernels.Kernel.Take | src/mem.c:46-87 | an allocation on the words of the heap is the one on its runs, and ends in a panic or astray as the words behind the index have it |
| Kernels.Kernel.MemAlloc | src/mem.c:46-87 | afterwards the index stands for the heap with the new allocation |
| Kernels.Kernel.MemFreeAt | src/mem.c:89-141 | releasing a live allocation by its address succeeds, and the index stands for the heap without it |
| Kernels.Kernel.ListInsert | src/list.c:3-10 | the four writes, one after the other, amount to the simultaneous update that InsertLinks shows to be an insertion |
| Kernels.Kernel.SchedulerPush | src/scheduler.c:22-45 | appends to the ready ring with a full slice, wherever the sleep queue is entered; the links of nodes in no ring are not touched |
| Kernels.Kernel.SchedulerNext | src/scheduler.c:47-74 | takes the first of the ready ring, or kernel_main |
| Kernels.Kernel.Walk | src/scheduler.c:196-207 | the walk ends in front of the first entry due no earlier, with exact 64-bit sums |
| Kernels.Kernel.SchedulerTimeout | src/scheduler.c:149-219 | does to memory what the machine's Timeout does, for any time and any queue whose times fit in 64 bits, an overdue head included, or panics, strays or writes through null as the search for a block has it |
| Kernels.Kernel.FindSleeper | src/scheduler.c:241-245 | the search ends at the first record of the thread if there is one |
| Kernels.Kernel.SchedulerRemoveTimeout | src/scheduler.c:221-271 | panics exactly if the thread is not asleep; takes out its first record, hands its delay on and moves nobody else's time, overdue or not; memory stays sound exactly if it slept alone or the first sleeper is another thread, and in any case but for the head |
| Kernels.Kernel.SchedulerTick | src/scheduler.c:273-321 | does to memory what the machine's tick does, and never panics |
| Kernels.Kernel.Yield | src/thread.c:79-127 | exchanges registers with the entering thread, or only notes the stack pointer if there is no change |
| Kernels.Kernel.SemPush | src/semaphore.c:144-160 | appends to a semaphore's line |
| Kernels.Kernel.SemNext | src/semaphore.c:180-198 | takes the first of a semaphore's line |
| Kernels.Kernel.SemWait | src/semaphore.c:162-178 | counts down and blocks the caller exactly when the counter is negative, though it yields before it joins the line |
| Kernels.Kernel.SemUnblockThread | src/semaphore.c:200-213 | hands the first in line a zero and makes it ready; if its slice is used up its timed wait is taken out too, moving nobody else's time, or the kernel panics exactly if it is not asleep; memory stays sound exactly if it slept alone or another thread sleeps first |
| Kernels.Kernel.SemSignal | src/semaphore.c:215-228 | does to memory what the machine's signal does, and returns its result |
| Kernels.Kernel.SemClose | src/semaphore.c:116-142 | does to memory what the machine's close does, whether or not threads in line are asleep as well |
| Kernels.Kernel.CloseLine | src/semaphore.c:122-135 | ends after one pass although it rewrites the links it walks along, letting each thread of the line go once, in order |
| Kernels.Kernel.SemTimedWait | src/semaphore.c:230-238 | ends as the search for a block has it; if it returns, the caller is asleep for the time given with no slice left even if it did not block, the semaphore has been waited on, and the caller, if it blocked, is in line as well and the next in the ready ring runs; so the invariant of untimed runs is broken |
| Kernels.Kernel.SemRemoveThread | src/semaphore.c:240-266 | takes out the first in line whoever timed out; memory stays sound exactly if there was one in line |
| Kernels.Kernel.WaitingPush | src/console.c:50-64 | appends to the ring of waiting readers |
| Kernels.Kernel.WaitingPop | src/console.c:66-84 | takes the first waiting reader |
| Kernels.Kernel.ShiftDown | src/console.c:104-107 | closes up the buffer in place, in order and in bounds |
| Kernels.Kernel.Getc | src/console.c:86-109 | does to memory what the machine's getc does |
| Kernels.Kernel.ServeWaiting | src/console.c:119-129 | serves readers from the buffer as the machine does, until one or the other runs out |
| Kernels.Kernel.ConsoleReceive | src/console.c:111-134 | takes bytes while there is room, and does to memory what the machine's console trap does |
| Kernels.Kernel.ThreadCreate | src/thread.c:19-77 | does to memory what the machine's creation does, or panics or strays with the search for a block: if there is a block, a thread at the wrapper, in user mode, with the function to run as its argument and two ticks, last in the ready ring, and 0; else -1 and no change |
| Kernels.Kernel.ThreadExit | src/thread.c:129-162 | does to memory what the machine's exit does where the thread's record and stack are live allocations, as Safety.ExitOk shows them to be |
| Kernels.Kernel.TimerInterrupt | src/main.c:56-77 | ticks, takes one off the slice and switches when it is used up, as the machine does |
| Kernels.Kernel.SemOpen | src/semaphore.c:92-114 | does to memory what the machine's opening does; panics or strays with the search for a block, and strays from the eleventh opening on |
| Kernels.Kernel.TimedSleep | src/main.c:371-388 | does to memory what the machine's sleep does, time 0 included, with the same ways to fail |
| Kernels.Kernel.PutcFull | src/main.c:192-227 | the saved sepc left behind is overwritten before anything reads it |
| Kernels.Kernel.KernelDispatch | src/main.c:420-444 | does to memory what the machine's kernel dispatch does |
| Kernels.Kernel.IrqHandler | src/main.c:49-451 | one trap on memory is one step of the machine: same state, same panics, null writes and strays; whenever it returns the state obeys the laws of StepLawful, the invariant holds, and the words of the index stand for the heap of that state |
| BufferProtocol.NewOk | test/buffer.cpp:3-9 | the new buffer satisfies the invariant whatever its memory holds |
| BufferProtocol.NextOk | test/buffer.cpp:29-71 | every step of every thread stays inside the array and keeps the invariant |
| BufferProtocol.RunSafe | test/buffer.cpp:3-71 | so in every run of any threads, operations and interleaving |
| BufferProtocol.Fifo | test/buffer.cpp:29-53 | the k-th value read is the k-th written, at most the capacity is unread, no unread slot is overwritten |
| BufferProtocol.ReadsAndWrites | test/buffer.cpp:29-53 | a get returns the oldest unread value and a put adds its argument as the newest; no other step reads or writes |
| BufferProtocol.CountExact | test/buffer.cpp:55-71 | getCnt returns exactly the number of values written and not read |
| BufferProtocol.NoDeadlock | test/buffer.cpp:29-71 | if all threads inside are blocked, all wait to put into a full buffer or to get from an empty one |
| BufferRuns.OwnStep | test/buffer.cpp:29-71 | a thread is at most eight steps from the end of its operation, and each of its steps brings it one nearer, unless it blocks at a semaphore that has nothing for it; its argument and what it has found stay with it |
| BufferRuns.OthersStep | test/buffer.cpp:29-71 | the steps of other threads leave it where it is, or release it from the wait it is blocked at |
| BufferRuns.TakesEffectOnce | test/buffer.cpp:29-71 | in every run each operation that returns took effect at exactly one moment between call and return: a put added its argument as the newest value, a get removed the oldest unread one and returns it, getCnt returns how many were unread |
| Transmission.PutKeeps | src/console.c:33-48 | a character is refused exactly when the buffer is full and the device takes nothing, and then nothing changes; else it is added last |
| Transmission.PutCount | src/console.c:33-48 | how many characters wait after one is accepted, for any readiness of the device at its two chances |
| Transmission.NothingLost | src/console.c:33-148 | for any device and any mix of calls the accepted characters are those sent followed by those waiting, in order |
| Transmission.DrainCount | src/console.c:136-148 | how many characters a send takes out and how many it leaves |
| Transmission.Transmitter.Send | src/console.c:136-148 | as many characters as the device is ready for, or all there are, go from the front of the buffer to the device in order; the rest close up in place, in bounds |
| Transmission.Transmitter.Putc | src/console.c:33-48 | the array and its count change as PutKeeps describes |
| Printing.NumeralMeans | src/kernel.c:5-24 | a numeral consists of digits, has no leading zero unless it is zero, and evaluates to its number |
| Printing.PrintU64 | src/kernel.c:5-24 | prints the decimal numeral of every 64-bit value |
| Printing.PrintI32 | src/kernel.c:26-51 | prints sign and magnitude of every 32-bit value, the least one included |
| Printing.PrintH64 | src/kernel.c:53-64 | prints exactly 16 hexadecimal digits that evaluate to the value |
| Printing.PrintH32 | src/kernel.c:66-77 | prints exactly 8 |
| Printing.NumeralLength | test/printing.cpp:69-72 | a numeral has at most k digits exactly if its number is below the k-th power of the base |
| Printing.PrintInt | test/printing.cpp:54-80 | stays in its buffer exactly if sign and digits fit, and then prints the numeral |
| Printing.BufferSuffices | test/printing.cpp:54-80 | from base 5 on they always fit; in base 4 all but the signed numbers up to -2^30 do |
| Printing.StringToInt | test/printing.cpp:43-50 | returns the value of the leading digits, wrapped to 32 bits; some intermediate result overflows exactly if the value exceeds 2147483599 |
| Printing.PrintThenParse | test/printing.cpp:43-80 | parsing a printed number finds the number |
| Printing.ParseThenPrint | test/printing.cpp:43-80 | printing the value of digits without a leading zero gives those digits |
| Departures.FullHeap | src/mem.c:50-86 | a full heap on which one and the same request returns null, panics, hands out a block behind the heap or reads beyond it, by the first word behind its index |
| Departures.NoBlocks | src/mem.c:61-80 | a heap whose index a request for no blocks breaks |
| Departures.FooledFooter | src/mem.c:100-138 | a heap in which the address of the second block of an allocation is accepted for release and the index is broken |
| Departures.StaleHead | src/scheduler.c:221-271 | two sleepers of whom the first is taken out: memory holds the rest but for the head |
| Departures.NobodyWakes | src/scheduler.c:149-219 | a sleeper with 5 ticks to go and a newcomer with 0: after the next tick both have about 2^64 |
| Departures.StaleLine | src/semaphore.c:240-266 | two threads in line of whom the first is taken out: memory holds the rest but for the head |
| Departures.ReadyAndAsleep | src/semaphore.c:116-142 | a thread in a timed wait whose semaphore is closed is ready and asleep at once |
| Departures.OwesThreads | src/semaphore.c:105-228 | opened with 2^31, a semaphore starts below zero and its first signal fails |
| Departures.NoRoomForSign | test/printing.cpp:54-80 | the least number in base 4 fills the buffer before its sign |
| Mishaps.SleepFails | src/scheduler.c:149-219 | with 174 blocks the first thread's first sleep writes through null, panics or strays, by the word behind the index |
| Mishaps.ByteLost | src/console.c:99-102 | a run from start-up at whose end a call of getc takes a byte and returns nothing to its caller |
| Mishaps.EleventhSemaphore | src/semaphore.c:110-111 | a run from start-up that opens ten semaphores, and an eleventh outside the table, whatever the words behind the index hold |

## Left out

- Timed waits in whole runs: `__sem_timed_wait` breaks the invariant whether or not it blocks, so runs have every trap but that one; its pieces are proved by themselves.
- Executions.RunSafe: a run ends with a trap that panics, writes through null or strays; what the machine does after the last two is not modelled.
- Kernels.Kernel.IrqHandler: what users and the kernel itself write into blocks (records, contexts, stacks, buffers) are fields and maps of the class, not writes to the words of the heap; the words behind the index are taken as they are when a trap allocates.
- The model of a sleep record has no field for the semaphore of a timed wait, so what the tick does with one that is gone is not modelled.
- Startup.StartedOk: does not tell apart how a start-up without enough blocks ends, in a panic or in a search gone astray.
- Machine.CreateStep: assumes, as `thread_create` arranges, that the stack passed in is a whole allocation not yet used as a stack; handles passed to semaphore calls are assumed open. Of a new thread's saved context it has `a0` and where it lies, not `a1` (the argument `arg`), `sp`, `gp` and `tp`.
- The handles that creating a thread and opening a semaphore store for the caller: a handle is the block of the record.
- Memory.Allocator.constructor: assumes that the heap's end is a multiple of the block size away from its start.
- Reception.ServeDelivers: says nothing about two waiting readers whose results lie at one address; nothing in the kernel keeps user stacks apart.
- BufferProtocol.Fifo: no close during use; the client ignores the -1 it would get, and the buffer's destructor is not modelled.
- `sem_trywait` and the user call 0x2 for `mem_free`: the handler has no case for them.
- The contents of the table of semaphores for debugging, all print and dump routines of the scheduler and the semaphores, and `__debug`.
- `src/ubsan.c`, `src/trap.S` and the inline assembly: the three registers a switch exchanges are a `Frame`, each thread's result register one cell of `a0`.
- `src/syscall_c.c` and `src/syscall_cpp.cpp` beyond the address arithmetic of `thread_create`.
- Illegal instructions and accesses, which panic at once, the PLIC and the device registers.
- The other programs under `test/`.
