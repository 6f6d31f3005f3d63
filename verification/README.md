# moboot kernel, block layer and library models

moboot is a boot loader on the LK kernel. This project models its small stateful
algorithms in Dafny and proves what each of them is for. Every component has a
specification on values (states, steps, runs) and, where the source updates memory in
place, a class or an array method that is proved to compute exactly that
specification; the properties are lemmas about the specification.

| file | models | main results |
|---|---|---|
| `Scheduler.dfy`, `Kernel.dfy` | kernel/thread.c | queue invariant in every reachable state, bitmap choice equals the linear scan, round robin |
| `Calls.dfy` | kernel/thread.c | what each call does to threads and queues, who runs after a wake-up, time slices |
| `Waiting.dfy` | kernel/thread.c | waiters of one queue: queued, woken or timed out |
| `Mutex.dfy`, `StrandedWaiter.dfy` | kernel/mutex.c | mutual exclusion over all runs, hand-off order, exactly when a waiter is lost |
| `Event.dfy`, `Dpc.dfy` | kernel/event.c, kernel/dpc.c | every signal is one wait returned, each deferred call runs once and in order |
| `Timer.dfy` | kernel/timer.c | a tick fires exactly the due timers in order on the wrapping clock, over any run of ticks |
| `Alarms.dfy` | kernel/timer.c | from a delay or period to the ticks in which the callback runs |
| `Heap.dfy` | lib/heap/heap.c | the heap stays tiled, first fit, freeing everything restores it |
| `BlockCache.dfy` | lib/bcache/bcache.c | the cache is transparent, and exactly when it holds the most recent blocks |
| `BlockDevice.dfy` | lib/bio/bio.c, lib/bio/mem.c | block-wise transfers are byte-range transfers |
| `Partition.dfy` | lib/bio/subdev.c, lib/partition/partition.c | sub-devices are windows, disjoint ones are isolated |
| `Mbr.dfy` | lib/partition/partition.c | from the bytes of a partition table to the devices that open |
| `Path.dfy`, `Mounts.dfy` | lib/fs/fs.c | the in-place normaliser is a fold over fields, lookups find the shortest mount, exactly when counts go wrong |
| `RingBuffer.dfy` | lib/cbuf/cbuf.c | FIFO of bytes, and exactly when a write overruns |
| `Numbers.dfy`, `Printf.dfy` | lib/libc/printf.c, lib/libc/atoi.c | printing and parsing undo each other, bounded output is a prefix of the unbounded |
| `Directives.dfy` | lib/libc/printf.c | what the text of a format denotes, directive by directive |
| `Basics.dfy`, `Bits.dfy`, `Bytes.dfy`, `CStrings.dfy` | | optional values and word sizes, bitwise operators, memory copies, C strings |

A kernel call is one step up to its reschedule, because interrupts are off inside it.
What a thread does after it is switched back in is a later step of that thread, and
any other step may come in between. A context switch changes the current thread.
Linked lists are sequences. Words are 32 bits wide, as on the ARM targets, with
wrap-around written out where the source relies on it or suffers from it.
Time, addresses for new objects, what callbacks do with timers, and whether devices and
drivers succeed are parameters.

## Where the code differs from its description

- kernel/event.c says that without a reschedule the woken threads go to the end of the
  run queue. The code puts them at its head, in reverse order of waiting
  (`Scheduler.DrainReversesWaiters`).
- kernel/thread.c says a woken thread runs immediately when a reschedule is asked for.
  It does unless the caller, or any other thread able to run, outranks it
  (`Scheduler.WokenRunsIff`, `Calls.WokenAllRunsIff`).
- thread_resume is for suspended threads, but only READY and RUNNING ones are turned
  away. Resuming a blocked, sleeping or dead thread breaks the queues, at once or later
  (`Scheduler.ResumeSafeIffSuspended`).
- thread_unblock_from_wait_queue with a reschedule loses its caller
  (`Scheduler.RescheduledUnblockLosesCaller`).
- A mutex waiter whose timeout fires stays counted until it runs. An acquirer that comes
  after the release in that window waits on a mutex that nobody owns or ever will, and
  that is the only way to one (`Mutex.OwnedIffNeverStrands`, `Mutex.StrandedForEver`,
  `StrandedWaiter.StrandedWaiterIsReachable`).
- heap_alloc does not test its size arithmetic for wrapping; `Heap.RoomCoversIff` and
  `Heap.PointerCoversIff` say for which requests the room is too small.
- cbuf_space_avail returns something other than the free space; it is right only about
  being zero in one position. Writes can be short with room left, and a write that
  reaches the end of the buffer with the read index at its start loses everything that
  was queued, and can leave the event signalled on an empty ring (`RingBuffer.Cbuf.Write`
  says exactly when).
- vsnprintf tests its bound after storing, so bounds of zero and one do not stop it
  (`Printf.BoundIsHonoured`). Zero padding goes in front of the sign, and atol does not
  skip blanks, so padded numbers do not always read back (`Printf.PaddedReadsBackIff`,
  `Printf.HexFieldReadsBackIff`). The alternate prefix is not counted in the width.
- Byte access to a partition goes elsewhere if its byte offset, or that of a partition it
  is nested in, does not fit in 32 bits, while block access is right
  (`Partition.TranslationIsExact`). Block access whose block plus count wraps onto the
  device is not clipped (`Partition.BlockReadIsShifted`).
- The bounds check of bio_publish_subdevice divides a block count by the block size
  (`Partition.PublishBoundIsExact`); the MBR validation is what keeps partitions
  inside (`Partition.ValidatedFits`).
- Mount paths are compared byte by byte, so a mount on /a also stands for /ab
  (`Mounts.AlreadyMountedIff`), and a mount that is unmounted while a file is open is
  still found; unmounting it again makes the counts wrong, and then the last reference can
  go while a file is still open (`Mounts.StepKeepsRefs`, `Mounts.FilesHaveMountsIff`,
  `Mounts.CloseTakesTheMount`).

## Model

| member | source | states |
|---|---|---|
| `Scheduler.ReachableStates` | kernel/thread.c:80-104 | In every state a run of kernel calls can reach from boot, each READY thread is queued once, at its own priority and nowhere else; each BLOCKED thread is once in exactly the wait queue it names; only the current thread is RUNNING |
| `Scheduler.QueuedOnce` | kernel/thread.c:80-104 | The number of run-queue slots holding a thread is one if it is READY, else none |
| `Scheduler.Next` | kernel/thread.c:106-836 | Every kernel call keeps the scheduler invariant: queues hold exactly the threads their states say, once each, and exactly the current thread runs |
| `Scheduler.Resched` | kernel/thread.c:287-381 | A reschedule restores the invariant and leaves no READY thread outranking the new current one |
| `Scheduler.Scan` | kernel/thread.c:325-333 | The disabled linear scan finds a non-empty queue with only empty ones above it |
| `Scheduler.ReschedHasThread` | kernel/thread.c:313-333 | While the boot thread never blocks, sleeps or exits, there is a thread to switch to at every reschedule |
| `Scheduler.SwitchPicksHighest` | kernel/thread.c:313-338 | The head of the scanned queue is outranked by no READY thread |
| `Scheduler.YieldTo` | kernel/thread.c:392-412 | A yield keeps the invariant, and nobody outranks whoever runs next |
| `Scheduler.PreemptTo` | kernel/thread.c:429-452 | So does a preemption |
| `Scheduler.LeaveTo` | kernel/thread.c:247-269 | So does leaving the CPU for good, or to sleep |
| `Scheduler.YieldRotates` | kernel/thread.c:392-412 | A yield turns the cycle of current thread and its run queue by one place |
| `Scheduler.YieldsRotate` | kernel/thread.c:392-412 | After k yields the cycle has turned by k places and still nobody outranks the current thread |
| `Scheduler.YieldsVisitEachOnce` | kernel/thread.c:392-412 | n yields among n runnable threads of the top priority run each of them exactly once and then start over |
| `Scheduler.PreemptResult` | kernel/thread.c:429-452 | With quantum left and nobody above, a preemption changes nothing; without quantum it turns the cycle like a yield |
| `Scheduler.WakeOk` | kernel/thread.c:743-778 | Waking any queued waiter keeps run queues and wait queues consistent |
| `Scheduler.WakeEffect` | kernel/thread.c:743-778 | Waking the first waiter moves it from the head of the wait queue to the head of its run queue and sets its result; nothing else changes |
| `Scheduler.WokenRunsIff` | kernel/thread.c:743-778 | A rescheduling wake runs the first waiter at once if and only if no thread able to run outranks it, and the caller if and only if the caller outranks the waiter and nothing outranks the caller; whichever of the two gives way is first in line at its priority, the waiter before the caller |
| `Scheduler.Drain` | kernel/thread.c:795-836 | The popping loop empties exactly that wait queue and keeps the invariant |
| `Scheduler.DrainReversesWaiters` | kernel/thread.c:795-836 | Waking everybody puts the waiters of each priority in front of that run queue in the reverse of their waiting order |
| `Scheduler.ResumeSafeIffSuspended` | kernel/thread.c:197-214 | Resuming a thread that is neither READY nor RUNNING leaves the queues consistent, then and once its sleep timer fires or its clean-up runs, if and only if it is SUSPENDED; the code does not test that |
| `Scheduler.ResumedBlockedThread` | kernel/thread.c:197-214 | Resuming any blocked thread breaks the queues at once: it is on a run queue and on a wait queue |
| `Scheduler.ResumedSleeper` | kernel/thread.c:197-214 | Resuming any sleeping thread puts it on a run queue twice when its timer fires |
| `Scheduler.ResumedDeadThread` | kernel/thread.c:197-238 | Resuming any dead thread leaves it queued when it is freed |
| `Scheduler.Reaped` | kernel/thread.c:216-238 | Freeing a dead thread keeps the invariant |
| `Scheduler.StepKept` | kernel/thread.c:392-836 | A step leaves a thread as blocked or as able to run as it was, on the same wait queue and with the same wait result, unless it acts on it, as it, or on its wait queue |
| `Scheduler.StepKeepsPriority` | kernel/thread.c:197-836 | No call changes the priority of a thread but the two by which the caller sets its own |
| `Scheduler.ThreadsPersist` | kernel/thread.c:106-836 | The only call that makes a thread disappear is its own clean-up after it has exited |
| `Scheduler.ElsewhereQueue` | kernel/thread.c:694-836 | A step that does not name a wait queue leaves its list alone |
| `Scheduler.BlockKept` | kernel/thread.c:694-728 | Blocking appends the caller to the wait queue, BLOCKED with result NO_ERROR, and keeps every other thread |
| `Scheduler.WakeFirstKept` | kernel/thread.c:743-778 | wake_one makes the first waiter runnable with the given result and keeps every other thread |
| `Scheduler.WakeEveryKept` | kernel/thread.c:795-836 | wake_all empties the queue and keeps threads that were not on it |
| `Scheduler.UnblockKept` | kernel/thread.c:866-896 | Unblocking takes just that thread out of its wait queue, runnable with the given result |
| `Scheduler.RescheduledUnblockLosesCaller` | kernel/thread.c:866-896 | Asked to reschedule, it always switches to another thread and leaves its caller RUNNING, off the CPU and on no run queue, which breaks the invariant |
| `Calls.BootEffect` | kernel/thread.c:540-561 | At boot one thread runs at priority 31 and every queue is empty |
| `Calls.ReschedSwitches` | kernel/thread.c:287-381 | A switch takes the head of the highest non-empty run queue, makes it RUNNING, and gives it five ticks if it is not the caller and had none left; nothing else changes |
| `Calls.YieldEffect` | kernel/thread.c:392-412 | A yield puts the caller, with no quantum, behind the others of its priority and switches |
| `Calls.PreemptEffect` | kernel/thread.c:429-452 | A preemption puts the caller in front of the others of its priority while it has quantum, else behind them, and switches |
| `Calls.LeaveEffect` | kernel/thread.c:247-269 | Sleeping and exiting leave the caller SLEEPING or dead, on no queue, and switch |
| `Calls.ResumeEffect` | kernel/thread.c:197-214 | Resuming a SUSPENDED thread puts it in front of the others of its priority and then yields; READY and RUNNING threads are left alone |
| `Calls.BlockEffect` | kernel/thread.c:694-728 | Blocking puts the caller at the end of the wait queue, BLOCKED with NO_ERROR, and switches; a zero timeout changes nothing |
| `Calls.CreateEffect` | kernel/thread.c:140-183 | A new thread is SUSPENDED, waits for nothing and has no quantum; nothing else changes |
| `Calls.InitQueueEffect` | kernel/thread.c:655-660 | A new wait queue is empty; nothing else changes |
| `Calls.ReapEffect` | kernel/thread.c:216-238 | The clean-up of a dead thread takes just that thread out of the table |
| `Calls.TickEffect` | kernel/thread.c:479-489 | A tick takes one from the quantum of the running thread, unless that is the idle thread |
| `Calls.SleepDoneEffect` | kernel/thread.c:492-507 | The end of a sleep puts the sleeper, READY, in front of the others of its priority |
| `Calls.PriorityEffect` | kernel/thread.c:588-596 | A priority in range is stored as it is, one out of range as the nearest one in range |
| `Calls.IdleEffect` | kernel/thread.c:604-610 | The thread that becomes idle has the lowest priority and is recorded as the idle thread |
| `Calls.UnblockEffect` | kernel/thread.c:866-896 | Unblocking moves the thread from its place on the wait queue to the front of its run queue |
| `Calls.WakeOneEffect` | kernel/thread.c:743-778 | A wake moves the first waiter to the front of its run queue; with a reschedule the caller goes to the front of its own before that, and the call switches |
| `Calls.WakeAllQuietly` | kernel/thread.c:795-836 | Waking everybody without a reschedule leaves the caller running and puts the waiters of each priority, the last first, in front of the others |
| `Calls.WakeAllSwitches` | kernel/thread.c:795-836 | With a reschedule the caller stands in line between the waiters and the others of its priority, and the first of the highest line runs |
| `Calls.WokenAllRunsIff` | kernel/thread.c:795-836 | A rescheduling wake-up of everybody runs the last waiter of the highest waiting priority if and only if no thread able to run outranks it, and the caller if and only if the caller outranks every waiter and nothing outranks the caller; nobody outranks whoever runs |
| `Calls.BestWaiterExists` | kernel/thread.c:795-836 | In every non-empty wait queue there is such a waiter |
| `Calls.RunsThroughSlice` | kernel/thread.c:479-489 | A thread that is not idle keeps the CPU through as many timer interrupts as it has quantum, but for the last |
| `Calls.SliceEnds` | kernel/thread.c:429-489 | With the last one it gives way to the next thread of its priority if nobody outranks it, which turns the cycle by one place; that thread gets five ticks if it had none left |
| `Waiting.WaiterJoins` | kernel/thread.c:694-728 | A thread that blocks joins the recorded waiters at the end of the queue; who was woken or timed out stays so |
| `Waiting.FirstWoken` | kernel/thread.c:743-778 | Waking the first waiter adds just that thread to the woken ones |
| `Waiting.AllWoken` | kernel/thread.c:795-836 | Waking everybody turns exactly the queued waiters into woken ones |
| `Waiting.WaiterExpires` | kernel/thread.c:662-674 | A timeout takes the waiter out of the queue if it is still queued, with ERR_TIMED_OUT, and changes nothing if it was woken before |
| `Waiting.WaitersSplit` | kernel/thread.c:694-896 | Every thread inside a wait is queued, woken, or timed out and not yet run, and only one of these |
| `Kernel.ClzIsScan` | kernel/thread.c:313-333 | The bitmap and count-leading-zeros choice is the linear scan, when bit p is set exactly for non-empty queue p |
| `Kernel.BitmapGrows` | kernel/thread.c:80-104 | OR-ing in bit p keeps the bitmap exact when queue p becomes non-empty |
| `Kernel.BitmapShrinks` | kernel/thread.c:316-323 | Masking bit p out keeps it exact when queue p becomes empty |
| `Kernel.ThreadSystem.constructor` | kernel/thread.c:540-561 | thread_init_early sets up the boot state |
| `Kernel.ThreadSystem.InsertInRunQueueHead` | kernel/thread.c:80-91 | Queues at the head, with bitmap and counts still exact |
| `Kernel.ThreadSystem.InsertInRunQueueTail` | kernel/thread.c:93-104 | Queues at the tail likewise |
| `Kernel.ThreadSystem.ThreadResched` | kernel/thread.c:287-381 | The bitmap code computes the specified reschedule and keeps bitmap and waiter counts exact |
| `Kernel.ThreadSystem.ThreadCreate` | kernel/thread.c:140-183 | Adds a SUSPENDED thread |
| `Kernel.ThreadSystem.ThreadResume` | kernel/thread.c:197-214 | Refines the resume step; ERR_NOT_SUSPENDED for READY and RUNNING threads |
| `Kernel.ThreadSystem.ThreadCleanup` | kernel/thread.c:216-238 | Takes the dead thread, and no other, out of the thread table |
| `Kernel.ThreadSystem.ThreadYield` | kernel/thread.c:392-412 | Refines the yield step |
| `Kernel.ThreadSystem.ThreadPreempt` | kernel/thread.c:429-452 | Refines the preemption step |
| `Kernel.ThreadSystem.ThreadBlock` | kernel/thread.c:464-477 | Reschedules a caller that has already been taken off the CPU |
| `Kernel.ThreadSystem.ThreadTimerTick` | kernel/thread.c:479-489 | Counts down the quantum of a thread that is not the idle one and asks for a reschedule when it is used up |
| `Kernel.ThreadSystem.ThreadSleepHandler` | kernel/thread.c:492-507 | Makes the sleeper READY at the head of its queue |
| `Kernel.ThreadSystem.ThreadSleep` | kernel/thread.c:517-533 | Refines the sleep step up to the switch |
| `Kernel.ThreadSystem.ThreadSetPriority` | kernel/thread.c:588-596 | Sets the clamped priority of the running thread |
| `Kernel.ThreadSystem.ThreadBecomeIdle` | kernel/thread.c:604-610 | Refines turning into the idle thread |
| `Kernel.ThreadSystem.WaitQueueInit` | kernel/thread.c:655-660 | Adds an empty wait queue |
| `Kernel.ThreadSystem.WaitQueueBlock` | kernel/thread.c:694-728 | Refines blocking up to the switch; a zero timeout times out at once |
| `Kernel.ThreadSystem.WaitQueueWakeOne` | kernel/thread.c:743-778 | Refines waking the first waiter and returns how many were woken |
| `Kernel.ThreadSystem.WaitQueueWakeAll` | kernel/thread.c:795-836 | Refines waking all waiters and returns how many were woken |
| `Kernel.ThreadSystem.ThreadUnblockFromWaitQueue` | kernel/thread.c:866-896 | Refines unblocking without reschedule; ERR_NOT_BLOCKED for threads that are not blocked |
| `Mutex.StepKeepsInv` | kernel/mutex.c:88-207 | Every step of every thread keeps the mutex invariant: count is the threads inside an acquire plus the holder, queued threads are inside an acquire, and at most one thread owns the mutex or has been handed it |
| `Mutex.AtMostOneInside` | kernel/mutex.c:88-207 | In every run, with any timeouts and scheduling, at most one thread is between a successful acquire and its release, and it is the holder |
| `Mutex.CountSplits` | kernel/mutex.c:88-207 | In every state, with any timeouts, count is the thread inside plus the one handed the mutex plus the queue plus the waiters whose timeout fired and that have not run since; the first two make at most one |
| `Mutex.StepKeepsOwner` | kernel/mutex.c:88-207 | For every step, timed or not: after it waiters still have an owner if and only if it is not an acquirer about to wait for a mutex that is counted and that nobody owns |
| `Mutex.CountedWithoutOwner` | kernel/mutex.c:88-177 | While waiters have an owner, a mutex that nobody owns is counted only for waiters whose timeout fired and that have not run since |
| `Mutex.OwnedIffNeverStrands` | kernel/mutex.c:88-207 | Over every run with any timeouts, waiters have an owner at every point if and only if no step is of that kind |
| `Mutex.UntimedNeverStrands` | kernel/mutex.c:88-121 | Without finite timeouts no step is of that kind |
| `Mutex.UntimedRuns` | kernel/mutex.c:88-121 | Without finite timeouts count equals holder plus handed-off thread plus waiters, and waiters never exist without an owner, in every run |
| `Mutex.HandOffKeepsOrder` | kernel/mutex.c:88-207 | Over any run, with any timeouts, the threads handed the mutex and then the queue are among the threads that queued, in that order |
| `Mutex.EveryWaiterAccountedFor` | kernel/mutex.c:88-207 | Over any run the threads that queued are, each as often, those handed the mutex, those still queued, and those whose timeout took them out of the queue |
| `Mutex.HandOffIsFifo` | kernel/mutex.c:88-207 | Over any run in which no timeout fires, grants followed by the queue are exactly the old queue followed by the arrivals |
| `Mutex.ReleaseHandsOff` | kernel/mutex.c:182-207 | A release with waiters makes the first of them, and nobody else, the owner |
| `Mutex.ReleaseGivesWay` | kernel/mutex.c:182-207 | A release with waiters runs the first of them at once if and only if no thread able to run outranks it, and goes on if and only if the caller outranks that waiter and nothing outranks the caller |
| `Mutex.ResumedIs` | kernel/mutex.c:106-177 | With NO_ERROR a wait ends with the thread as holder; a timeout takes it out of the count; another error leaves an untimed acquirer out, and lets a timed one go on as the holder |
| `Mutex.StepsAreKernelCalls` | kernel/mutex.c:88-207 | Every step does to threads and queues what one kernel call or none does: a counted acquire blocks, a release wakes one with a reschedule while the mutex stays counted, a timeout unblocks |
| `Mutex.StrandedIff` | kernel/mutex.c:88-121 | An acquire without a timeout waits on a mutex without an owner if and only if it comes to a mutex that is counted and that nobody owns |
| `Mutex.ReacquireAfterTimeoutStrands` | kernel/mutex.c:133-177 | One way there: a lone waiter times out, and the holder releases and acquires again before it runs |
| `Mutex.StrandedForEver` | kernel/mutex.c:133-207 | No later step of any thread takes such an acquirer out of the queue, or gives the mutex an owner |
| `Mutex.StrandedInEveryRun` | kernel/mutex.c:133-207 | So it stays queued, and the mutex without an owner, through every run |
| `StrandedWaiter.StrandsThePair` | kernel/mutex.c:133-207 | From any state where the running thread shares the top priority with one other, six enabled steps lead to such a stranded acquirer |
| `StrandedWaiter.StrandedWaiterIsReachable` | kernel/mutex.c:133-207 | Such a state is reached by seven kernel calls from boot, so the stranded acquirer is reachable |
| `Mutex.MutexObject.constructor` | kernel/mutex.c:44-60 | A new mutex satisfies the invariant |
| `Mutex.MutexObject.Acquire` | kernel/mutex.c:88-177 | Both acquires, up to the switch, compute the entry step |
| `Mutex.MutexObject.AcquireResume` | kernel/mutex.c:106-177 | What follows wait_queue_block computes the resumption step and returns the wait result |
| `Mutex.MutexObject.Release` | kernel/mutex.c:182-207 | Computes the release step |
| `Mutex.MutexObject.Expired` | kernel/thread.c:662-674 | A timeout on a mutex waiter computes the expiry step |
| `Event.StepQueue` | kernel/event.c:110-220 | What each step does to the wait queue, and that a signalled event never has waiters |
| `Event.WaitEffect` | kernel/event.c:110-137 | A wait joins the back of the queue, unless the event is signalled or the timeout zero, and lets nobody else through |
| `Event.SignalEffect` | kernel/event.c:164-204 | A signal lets the first waiter through, or all of a manual event, or nobody if it finds no waiters or the event signalled |
| `Event.SignalGivesWay` | kernel/event.c:164-204 | A signal without a reschedule leaves its caller running; one with it runs the first waiter, or for a manual event the last waiter of the highest priority, if and only if no thread able to run outranks that thread |
| `Event.StepsAreKernelCalls` | kernel/event.c:110-220 | Every step does to threads and queues what one kernel call or none does: an unsignalled wait blocks, a signal wakes one or all as the flag says, a timeout unblocks |
| `Event.ReturnEffect` | kernel/thread.c:694-728 | A wait that blocked returns NO_ERROR exactly if a signal had let it through, and is no longer among those let through |
| `Event.WokenWaitSucceeds` | kernel/event.c:110-204 | A waiter that a signal has let through returns NO_ERROR, whatever timeouts, signals and other calls come before it runs |
| `Event.StepConserves` | kernel/event.c:110-220 | Every step of an auto-unsignal event keeps the balance of what it received, counted at the signals, and what it gave: waits returned with NO_ERROR, waiters let through and not yet run, the latch, and latched signals cleared |
| `Event.EventRuns` | kernel/event.c:110-220 | In every run a signalled event has no waiters, and for auto-unsignal events the waits that returned NO_ERROR plus those let through and not yet run plus the latch plus the signals cleared equal the initial flag plus the signals that found the event unsignalled |
| `Event.ManualSignalReleasesAll` | kernel/event.c:164-204 | Signalling a manual event makes every waiter runnable with NO_ERROR and leaves the queue empty |
| `Event.EventObject.constructor` | kernel/event.c:58-71 | Sets up the event and its wait queue |
| `Event.EventObject.EventWaitTimeout` | kernel/event.c:110-137 | Computes the wait step up to the switch |
| `Event.EventObject.EventWaitReturn` | kernel/thread.c:694-728 | What follows the switch computes the return step and yields the wait result |
| `Event.EventObject.EventSignal` | kernel/event.c:164-204 | Computes the signal step |
| `Event.EventObject.EventUnsignal` | kernel/event.c:207-220 | Clears the flag |
| `Dpc.StepKeepsInv` | kernel/dpc.c:50-86 | Every step, a dpc_queue by an interrupt handler at any point of the DPC thread included, keeps: a pending list means a signalled event, the DPC thread waits only inside event_wait, and what was queued is what ran, what is in flight and the list, in that order |
| `Dpc.PendingMeansAwake` | kernel/dpc.c:50-86 | While callbacks are pending the event is signalled and the DPC thread is not blocked on it |
| `Dpc.StepAdvances` | kernel/dpc.c:66-86 | Each step of the DPC thread brings the n-th pending callback one step nearer, and no step of anybody else moves it back |
| `Dpc.OwnStepEnabled` | kernel/dpc.c:66-86 | Whenever the DPC thread is the running one it has a step to take |
| `Dpc.StepsAreEventSteps` | kernel/dpc.c:50-86 | Every step does to the event, to threads and to queues what one step of the event or none does: queueing signals, the wait waits without a timeout, an empty list unsignals |
| `Dpc.BlocksWhenDone` | kernel/dpc.c:66-86 | With nothing left to call the DPC thread unsignals the event and blocks on it |
| `Dpc.QueueGivesWay` | kernel/dpc.c:50-64 | Queueing a call while the DPC thread waits runs that thread at once if and only if no thread able to run outranks it, or not at all if asked not to reschedule |
| `Dpc.RunsAfterRank` | kernel/dpc.c:66-86 | A run with enough steps of the DPC thread calls the n-th queued callback |
| `Dpc.EveryCallbackRunsOnceInOrder` | kernel/dpc.c:50-86 | In every run the callbacks called are a prefix of those queued, and with enough steps of the DPC thread the n-th one is among them |
| `Dpc.DpcObject.DpcQueue` | kernel/dpc.c:50-64 | Computes the queueing step |
| `Dpc.DpcObject.DpcFetch` | kernel/dpc.c:71-75 | Takes the first entry, or unsignals the event when there is none |
| `Timer.ComparesSigned` | include/sys/types.h:65-68 | The wrapping comparisons compare the difference, read as a signed 32-bit number, with zero |
| `Timer.WindowOrder` | include/sys/types.h:65-68 | Within a half-range window the wrapping comparisons are the order of the unwrapped clock |
| `Timer.InsertIsStable` | kernel/timer.c:61-76 | Insertion keeps the queue sorted and puts a timer behind all with the same deadline |
| `Timer.ArmKeeps` | kernel/timer.c:78-118 | Setting a timer for after now keeps the window invariant and the due timers |
| `Timer.DisarmKeepsInv` | kernel/timer.c:158-199 | Cancelling keeps the queue sorted and inside the window |
| `Timer.DueIsAllDue` | kernel/timer.c:213-219 | The due timers are a prefix of the queue |
| `Timer.TickFiresTheDue` | kernel/timer.c:202-264 | A tick ends and has fired exactly the timers with deadline at or before now, in deadline order, save those cancelled by callbacks before them; every remaining deadline is after now, whatever periodic timers and callbacks put back |
| `Timer.NothingCancelled` | kernel/timer.c:202-264 | If no due timer is cancelled during the tick, every due timer fires |
| `Timer.TickOnUnnamed` | kernel/timer.c:202-264 | A timer no fired callback names is untouched if not due, gone if due and one-shot, and queued one period after now if due and periodic |
| `Timer.WindowMoves` | kernel/timer.c:202-264 | After a tick the half-range window can start at its time, every deadline nearer by just as much |
| `Timer.FiresOnTime` | kernel/timer.c:78-264 | Over every run of ticks with timers set and cancelled in between, a queued timer that only its own callback names fires in the first tick at or after its deadline and in none before, however often the clock wraps |
| `Timer.TimerQueue.InsertTimerInQueue` | kernel/timer.c:61-76 | The list walk computes the specified insertion |
| `Timer.TimerQueue.TimerSet` | kernel/timer.c:78-118 | Computes the arming step, due the delay after the time of the call; fails on a timer that is already queued |
| `Timer.TimerQueue.TimerCancel` | kernel/timer.c:158-199 | Computes the cancelling step |
| `Timer.TimerQueue.TimerTick` | kernel/timer.c:202-264 | The firing loop computes the specified tick, including a callback that sets a queued timer |
| `Alarms.SetSchedules` | kernel/timer.c:78-154 | Setting a timer makes it due its delay or period, or one if that is zero, after the time of the call on the wrapping clock, and periodic only if so asked; no other timer changes |
| `Alarms.CancelClears` | kernel/timer.c:158-199 | Cancelling takes the timer off the queue and clears its period; no other timer changes |
| `Alarms.FiresAsScheduled` | kernel/timer.c:202-264 | Over every run of ticks a timer that nobody names fires in exactly the ticks its wait and its period give, across any number of wraps |
| `Alarms.SetFiresAsScheduled` | kernel/timer.c:78-264 | From the call that sets it for the last time, a timer fires in the first tick that comes its delay or period after that call, a periodic one again in each first tick a period after the one before, and in no other |
| `Alarms.OneshotFiresOnce` | kernel/timer.c:78-264 | So a one-shot timer fires exactly once, in the first tick at least its delay after it was set |
| `Alarms.CancelledNeverFires` | kernel/timer.c:158-264 | A timer that is cancelled and not set again never fires |
| `Alarms.CancelInCallback` | kernel/timer.c:173-242 | A periodic timer that its own callback cancels is not queued again |
| `Heap.RoundUpIsNextMultiple` | lib/heap/heap.c:229-248 | The rounding mask yields the next multiple of a power of two |
| `Heap.AlignmentFacts` | lib/heap/heap.c:232-246 | An accepted alignment is a power of two, and raising it to 16 keeps its multiples |
| `Heap.AlignmentOkIff` | lib/heap/heap.c:236-238 | The test accepts exactly the alignment zero and the powers of two |
| `Heap.RoomIs` | lib/heap/heap.c:240-259 | Unless it wraps, the room asked for is size and header rounded up to the pointer size, plus the alignment, at least 16, if one is given |
| `Heap.RoomCoversIff` | lib/heap/heap.c:236-259 | The room asked for, computed in 32 bits, covers header and payload if and only if size, header, rounding and alignment together do not wrap |
| `Heap.PointerCoversIff` | lib/heap/heap.c:259-310 | Every pointer returned has its header inside the stretch taken, and its payload ends before the stretch does if and only if that arithmetic does not wrap |
| `Heap.SplitTestIsExact` | lib/heap/heap.c:281-290 | The sum in the test for a remainder does not wrap on a heap that starts above the first twelve bytes |
| `Heap.PlacementFits` | lib/heap/heap.c:236-304 | The room asked for is a multiple of the pointer size and holds header and payload behind an aligned pointer |
| `Heap.InsertBetween` | lib/heap/heap.c:157-211 | Inserting a chunk merges it with the neighbours it touches and only with them |
| `Heap.TakenKeepsInv` | lib/heap/heap.c:270-325 | Taking a chunk, split or whole, keeps the tiling and removes or shortens exactly that chunk |
| `Heap.FreedKeepsInv` | lib/heap/heap.c:157-211 | Freeing a tile keeps the tiling, and its free list is the old one with the chunk inserted |
| `Heap.FreedHeaders` | lib/heap/heap.c:358-394 | Freeing forgets that allocation and no other |
| `Heap.LiveDisjoint` | lib/heap/heap.c:270-325 | Live allocations never overlap |
| `Heap.AllocateIsFirstFit` | lib/heap/heap.c:227-333 | NULL is returned if and only if an alignment is given that is not a power of two, or no free chunk has the room; otherwise the first such chunk is taken, its first part if the rest can hold a free chunk, the free list and the headers change by just that, and the pointer is the first aligned one behind the header, with the payload before the end of what is taken |
| `Heap.ReleaseFrees` | lib/heap/heap.c:358-394 | Freeing a live pointer keeps the heap invariant and inserts exactly its chunk |
| `Heap.FreeingEverythingRestoresTheHeap` | lib/heap/heap.c:396-413 | After any run of allocations and frees the chunks tile the heap and the free list is sorted with gaps between its chunks; with nothing live it is the single initial chunk |
| `Heap.HeapObject.constructor` | lib/heap/heap.c:396-413 | heap_init |
| `Heap.HeapObject.InsertFreeChunk` | lib/heap/heap.c:157-211 | The walk and the two merges compute the specified insertion |
| `Heap.HeapObject.Alloc` | lib/heap/heap.c:227-333 | Computes the specified allocation on free list and headers |
| `Heap.HeapObject.Dealloc` | lib/heap/heap.c:358-394 | Computes the specified release; NULL is ignored |
| `BlockCache.WriteBackKeeps` | lib/bcache/bcache.c:88-103 | Writing a buffer back changes neither what readers see nor the LRU order |
| `BlockCache.ReclaimKeeps` | lib/bcache/bcache.c:150-182 | Evicting an unpinned block changes nothing readers see |
| `BlockCache.AllocWrites` | lib/bcache/bcache.c:150-182 | Finding room writes the device at most for the block that is evicted, with what readers see in it |
| `BlockCache.FirstUnpinnedIsVictim` | lib/bcache/bcache.c:150-182 | The evicted entry holds the least recently accessed block that is not pinned |
| `BlockCache.HitIsAccess` | lib/bcache/bcache.c:124-148 | A hit moves the block to the most recent place |
| `BlockCache.MissIsAccess` | lib/bcache/bcache.c:150-215 | A miss, with or without eviction, changes the LRU order as an access does, keeps what readers see elsewhere and keeps pinned entries |
| `BlockCache.StoreKeeps` | lib/bcache/bcache.c:233-252 | A store through a pinned buffer changes what readers see of that block only |
| `BlockCache.PinKeeps` | lib/bcache/bcache.c:233-269 | Changing a reference count changes nothing readers see |
| `BlockCache.CleanCacheIsDisk` | lib/bcache/bcache.c:313-330 | A block that is neither dirty nor changed unmarked is the same on the device |
| `BlockCache.AccessKeepsRecency` | lib/bcache/bcache.c:124-215 | The LRU order always is the order of last access of the cached blocks |
| `BlockCache.CacheHoldsMostRecent` | lib/bcache/bcache.c:124-182 | At every point of a run the cached blocks are exactly the min(count, n) most recently accessed distinct blocks, in that order, if and only if no eviction found the oldest block pinned |
| `BlockCache.MostRecentStep` | lib/bcache/bcache.c:150-182 | One access keeps that if and only if it is a hit, finds room, or evicts the oldest block |
| `BlockCache.UnpinnedTakesOldest` | lib/bcache/bcache.c:150-182 | Which is so in every run in which no block is held while another is asked for |
| `BlockCache.BCache.HoldsTheMostRecent` | lib/bcache/bcache.c:124-311 | At any time the LRU list is what the accesses logged so far make of it, so the above holds of every reachable cache |
| `BlockCache.BCache.constructor` | lib/bcache/bcache.c:61-86 | An empty cache shows the device |
| `BlockCache.BCache.FindBlock` | lib/bcache/bcache.c:124-148 | Finds a cached block and records the access; what readers see is unchanged |
| `BlockCache.BCache.FlushBlock` | lib/bcache/bcache.c:88-103 | Writes one buffer back and cleans it |
| `BlockCache.BCache.AllocBlock` | lib/bcache/bcache.c:150-182 | Takes a free entry or evicts; fails exactly when every entry is pinned |
| `BlockCache.BCache.FindOrFillBlock` | lib/bcache/bcache.c:184-215 | Returns an entry holding the block; pinned entries keep buffer and number |
| `BlockCache.BCache.ReadBlock` | lib/bcache/bcache.c:217-231 | Returns what readers see of the block |
| `BlockCache.BCache.GetBlock` | lib/bcache/bcache.c:233-252 | Pins the block once more in an entry that holds what readers see; every other pinned entry keeps buffer, number and count |
| `BlockCache.BCache.StoreThrough` | lib/bcache/bcache.c:233-252 | A client store through that pointer changes that buffer and what readers see of that block; a buffer that is dirty already needs no further mark |
| `BlockCache.BCache.MarkBlockDirty` | lib/bcache/bcache.c:271-287 | Makes exactly the entry holding the block dirty, as an access, or fails and changes nothing |
| `BlockCache.BCache.PutBlock` | lib/bcache/bcache.c:254-269 | Takes exactly one pin off the entry holding the block, as an access, and changes no entry otherwise |
| `BlockCache.BCache.ZeroBlock` | lib/bcache/bcache.c:289-311 | Readers then see zeros in that block, which is dirty and keeps its pins, while every other pinned entry stays; fails exactly when nothing can be evicted |
| `BlockCache.BCache.Flush` | lib/bcache/bcache.c:313-330 | Afterwards nothing is dirty and the device is what readers see, except where a client holds an unmarked change; entries change in their dirty flags only |
| `BlockDevice.ReadAfterWrite` | lib/bio/bio.c:276-346 | What is written is read back, up to the end of the device |
| `BlockDevice.WriteElsewhere` | lib/bio/bio.c:312-329 | A write leaves every other byte alone |
| `BlockDevice.ClippedIs` | lib/bio/bio.c:276-293 | A byte of a transfer is transferred exactly if the transfer starts on the device and the byte lies on it |
| `BlockDevice.TransferIs` | lib/bio/bio.c:276-329 | Byte by byte, a read gives what is on the device and a write puts there what lies on it |
| `BlockDevice.Device.constructor` | lib/bio/mem.c:82-100 | The device is the whole blocks of the memory given |
| `BlockDevice.ClipIsExact` | lib/bio/bio.c:295-346 | The clipped transfer ends with the device unless the 32-bit sum of block and count wraps back onto it; then it runs past the end |
| `BlockDevice.Device.ReadBlock` | lib/bio/bio.c:295-310 | Copies the clipped blocks and nothing else, for every block and count that do not escape the clipping |
| `BlockDevice.Device.WriteBlock` | lib/bio/bio.c:331-346 | Overwrites the clipped blocks and nothing else, for every block and count that do not escape the clipping |
| `BlockDevice.Device.DefaultRead` | lib/bio/bio.c:41-108 | Reading by whole blocks yields exactly the byte slice |
| `BlockDevice.Device.DefaultWrite` | lib/bio/bio.c:110-187 | Writing by whole blocks replaces exactly the byte range, across leading partial, middle and trailing partial blocks |
| `BlockDevice.Device.ReadPart` | lib/bio/bio.c:53-70 | A partial block of a read |
| `BlockDevice.Device.ReadWhole` | lib/bio/bio.c:73-89 | The whole blocks in the middle of a read |
| `BlockDevice.Device.WritePart` | lib/bio/bio.c:122-144 | A partial block of a write: the rest of the block keeps its contents |
| `BlockDevice.Device.WriteWhole` | lib/bio/bio.c:147-163 | The whole blocks in the middle of a write |
| `BlockDevice.Device.MemRead` | lib/bio/mem.c:38-47 | The memory driver's own read is the byte slice too |
| `BlockDevice.Device.MemWrite` | lib/bio/mem.c:60-69 | The memory driver's own write is the byte range too |
| `BlockDevice.Device.Read` | lib/bio/bio.c:276-293 | Whichever hooks the driver has, a read returns the clipped slice and its length, -1 for a negative offset |
| `BlockDevice.Device.Write` | lib/bio/bio.c:312-329 | Whichever hooks the driver has, a write changes exactly the clipped range |
| `BlockDevice.Device.DefaultErase` | lib/bio/bio.c:189-214 | The erase loop ends and has zeroed exactly its range |
| `BlockDevice.Device.Erase` | lib/bio/bio.c:348-365 | Erasing is writing zeros to the clipped range |
| `Partition.ReadIsShifted` | lib/bio/subdev.c:40-45 | A read of a sub-device, however deeply nested, is a read of the bytes it covers, when the byte offsets fit in 32 bits |
| `Partition.WriteIsShifted` | lib/bio/subdev.c:54-73 | A write, or an erase, changes exactly the bytes the sub-device covers |
| `Partition.BlockReadIsShifted` | lib/bio/subdev.c:47-52 | For every block and count, at any nesting: a block read runs past the disk exactly when its sum escapes the clipping of the sub-device, and else reads the bytes it covers, without a bound on the byte offset |
| `Partition.BlockWriteIsShifted` | lib/bio/subdev.c:61-66 | Block writes likewise: past the disk exactly in that case, and else they change exactly those bytes |
| `Partition.LoadIsShifted` | lib/bio/subdev.c:40-52 | So reads by either hook are reads of the bytes covered |
| `Partition.StoreIsShifted` | lib/bio/subdev.c:54-66 | And writes by either hook change exactly the bytes covered |
| `Partition.SubReadAfterWrite` | lib/bio/subdev.c:40-66 | What is written to a sub-device by bytes or by blocks is read back from it by either |
| `Partition.DisjointDevicesAreIsolated` | lib/bio/subdev.c:40-73 | A write to one of two disjoint sub-devices, by bytes or by blocks, never changes a read of the other by either, at any nesting |
| `Partition.NestingAddsOffsets` | lib/bio/subdev.c:40-73 | A sub-device of a sub-device behaves as one at the sum of the offsets, for byte and block transfers |
| `Partition.TranslationIsExact` | lib/bio/subdev.c:40-59 | For every device, however deeply nested, and every byte of it: reads find that byte for every disk contents, and writes change it and no other, if and only if none of the byte offsets down to the disk wraps |
| `Partition.ReachedIff` | lib/bio/subdev.c:40-59 | The byte hooks look at or before the place where the device starts, and at it if and only if no offset wraps |
| `Partition.ValidatedFits` | lib/partition/partition.c:47-65 | A validated entry lies on the device if and only if its sum does not wrap, and then the publishing check accepts it |
| `Partition.PublishBoundMeasuresBytes` | lib/bio/subdev.c:94-98 | Unless it wraps, the publishing check accepts exactly the lengths that, read as bytes, stick out of the parent by less than a block |
| `Partition.PublishBoundIsExact` | lib/bio/subdev.c:94-104 | As the length is a block count, what the check accepts without wrapping lies inside the parent for all calls if and only if blocks are one byte long |
| `Partition.WrappedPublishIsAccepted` | lib/bio/subdev.c:94-98 | And at every block size it accepts a call whose sum wraps, outside the parent |
| `Partition.PartitionsAreIsolated` | lib/partition/partition.c:47-65 | Two validated entries that neither wrap nor overlap give partitions that cannot reach each other by bytes or by blocks |
| `Partition.PartNameIsRendered` | lib/partition/partition.c:112-113 | The names partitions get are what the format renders |
| `Partition.NamesDiffer` | lib/partition/partition.c:112-113 | Different entries get different names, none of them the device's own |
| `Partition.OpenFindsPartition` | lib/partition/partition.c:108-122 | After publishing, opening an accepted entry by name finds that entry's range |
| `Partition.OpenFindsOthers` | lib/partition/partition.c:108-122 | Every other name still finds what it found before |
| `Partition.DeviceTable.Open` | lib/bio/bio.c:249-267 | Finds the newest device of that name |
| `Partition.DeviceTable.PartitionUnpublish` | lib/partition/partition.c:131-152 | Removes the newest device of each of the sixteen partition names and counts them |
| `Partition.DeviceTable.PublishSubdevice` | lib/bio/subdev.c:83-115 | Adds the sub-device in front, or fails without a change |
| `Partition.DeviceTable.PartitionPublish` | lib/partition/partition.c:67-129 | Refines publishing: unpublishes the old names, then publishes the accepted entries of a signed sector, and returns their number, or an error when the last validated one was turned down |
| `Mbr.EntryReadsBack` | lib/partition/partition.c:32-45 | Reading an entry of the table undoes writing it byte by byte, for all values of its fields |
| `Mbr.AcceptedIff` | lib/partition/partition.c:47-122 | An entry becomes a device exactly if it has a type, a status of 0 or 0x80, a start on the device, and an end, and a start plus length divided by the block size, that 32-bit sums do not put past it |
| `Mbr.OneDeviceEach` | lib/partition/partition.c:108-122 | Each accepted entry adds one device |
| `Mbr.LastRefusedIff` | lib/partition/partition.c:108-129 | The error is returned exactly when the last entry that passed the validation failed the publishing check |
| `Mbr.UnpublishedLeaves` | lib/partition/partition.c:131-152 | Unpublishing leaves what every other name finds |
| `Mbr.UnpublishedAreGone` | lib/partition/partition.c:131-152 | In a table without duplicate names no partition name is found after it |
| `Mbr.PublishedPartitionOpens` | lib/partition/partition.c:67-129 | For a disk with a signed sector that holds an entry passing both checks, opening the partition name after publishing finds exactly the range written in that entry |
| `Mbr.UnsignedPublishesNothing` | lib/partition/partition.c:92-94 | Without the signature nothing is published and zero is returned |
| `Path.NormalizePath` | lib/fs/fs.c:434-566 | The in-place machine ends with the joined fold over the fields of the path, terminated, and leaves everything behind the original terminator alone |
| `Path.NormalIsIdempotent` | lib/fs/fs.c:434-566 | Normalising twice is normalising once |
| `Path.ResolveClean` | lib/fs/fs.c:457-559 | No field that is kept is "." or "..", and only a leading root field is empty |
| `Path.SplitJoin` | lib/fs/fs.c:434-566 | Splitting the joined fields gives the fields back |
| `Path.DotDotCancels` | lib/fs/fs.c:530-549 | A field and the ".." behind it cancel, the root field included |
| `Path.DotDotCancelsAnywhere` | lib/fs/fs.c:530-549 | At any place in a path a plain field and the ".." behind it leave no trace |
| `Path.NothingFieldsVanish` | lib/fs/fs.c:434-566 | Empty fields and "." vanish at any place in a path |
| `Path.DotsInFrontVanish` | lib/fs/fs.c:434-566 | So do "." and ".." at the start of a relative path |
| `Path.KeptIffClean` | lib/fs/fs.c:434-566 | A path is left as it is if and only if its fields are plain, but for an empty one in front |
| `Path.PopField` | lib/fs/fs.c:534-545 | The backward walk removes exactly the last field, if there is one |
| `Path.FieldBoundary` | lib/fs/fs.c:538-544 | The backward walk can stop only where the last field begins |
| `Path.Terminate` | lib/fs/fs.c:561-565 | A trailing slash goes and the terminator is written |
| `Mounts.FirstMatchIsShortest` | lib/fs/fs.c:135-156 | When no older path is a prefix of a newer one, the first match is the unique shortest mounted prefix |
| `Mounts.StepKeepsTable` | lib/fs/fs.c:158-237 | Every mount, unmount, open and close keeps the table that way |
| `Mounts.LookupsAfterAnyRun` | lib/fs/fs.c:135-237 | After any run of them a lookup finds the shortest mounted prefix |
| `Mounts.RootCannotBeMounted` | lib/fs/fs.c:158-166 | A path of slashes, of any length, normalises to nothing and is refused |
| `Mounts.KeyCuts` | lib/fs/fs.c:160-163 | Of a path only the first 511 characters count, and all of a shorter one |
| `Mounts.MountErrorIs` | lib/fs/fs.c:158-193 | Mounting fails with the first of: not absolute, already mounted, no such device, the error of the driver; it succeeds exactly if none applies |
| `Mounts.AlreadyMountedIff` | lib/fs/fs.c:168-169 | A path is refused as already mounted if and only if it extends a mounted path byte by byte |
| `Mounts.StepKeepsRefs` | lib/fs/fs.c:158-369 | Every operation keeps the counts, one for a mount until unmounted plus one for each open file, if and only if it does not unmount a mount that was unmounted before |
| `Mounts.CountsIffBalanced` | lib/fs/fs.c:158-369 | The counts are right at every point of a run if and only if no mount in it is unmounted twice |
| `Mounts.OpenFilesKeepTheirMount` | lib/fs/fs.c:212-369 | In every such run the mount of an open file is in the table with a count that covers it |
| `Mounts.FilesLoseMountIff` | lib/fs/fs.c:158-369 | From every state in which open files have their mounts, an operation takes one away if and only if it is an unmount of a mount with one reference on which a file is open, or a close on such a mount while another file is open on it |
| `Mounts.FilesHaveMountsIff` | lib/fs/fs.c:158-369 | Over every run, balanced or not, open files have their mounts at every point if and only if no such operation is in it |
| `Mounts.TakenFromRightCounts` | lib/fs/fs.c:212-237 | While the counts are right, that takes a second unmount with just one file open on the mount |
| `Mounts.CloseTakesTheMount` | lib/fs/fs.c:212-369 | With two files open two unmounts take nothing yet; then the close of one takes the mount from the other |
| `Mounts.Strlcpy` | lib/libc/string/strlcpy.c:31-47 | Copies at most size - 1 characters and terminates |
| `Mounts.Normalized` | lib/fs/fs.c:160-163 | The local copy is the cut and normalised path |
| `Mounts.FileSystem.FindMountEntry` | lib/fs/fs.c:135-156 | Finds the first entry whose path the given one starts with, and the rest of the path |
| `Mounts.FileSystem.MountFs` | lib/fs/fs.c:158-193 | Computes the mount step and its error code |
| `Mounts.FileSystem.PutMount` | lib/fs/fs.c:212-221 | Drops a reference and removes the entry with the last one |
| `Mounts.FileSystem.UnmountFs` | lib/fs/fs.c:223-237 | Computes the unmount step |
| `Mounts.FileSystem.OpenFile` | lib/fs/fs.c:240-269 | Computes the open step; mount path and the path passed to the driver make up the normalised path |
| `Mounts.FileSystem.CloseFile` | lib/fs/fs.c:357-369 | Computes the close step |
| `RingBuffer.WriteQueues` | lib/cbuf/cbuf.c:70-88 | One copy into contiguous free space appends its bytes to the queue |
| `RingBuffer.ReadDequeues` | lib/cbuf/cbuf.c:115-129 | One copy out takes its bytes from the front of the queue |
| `RingBuffer.WrapAtCapacity` | include/pow2.h:53-56 | The index mask wraps at the capacity |
| `RingBuffer.AcceptedStep` | lib/cbuf/cbuf.c:70-88 | One pass of the writing loop takes its part of what the write accepts in all |
| `RingBuffer.WriteDone` | lib/cbuf/cbuf.c:70-88 | When the loop ends it has taken exactly the accepted count, or has run over the oldest bytes |
| `RingBuffer.FittingWriteIsTaken` | lib/cbuf/cbuf.c:50-94 | A write that fits is taken whole, exactly unless the read index is on the last byte |
| `RingBuffer.ReadStep` | lib/cbuf/cbuf.c:115-129 | After one pass the reader is done, the ring is empty, or it has come round to the start |
| `RingBuffer.Cbuf.constructor` | lib/cbuf/cbuf.c:35-48 | An empty ring with an unsignalled event |
| `RingBuffer.Cbuf.SpaceAvail` | lib/cbuf/cbuf.c:50-53 | The space test is zero only for read index last and write index first |
| `RingBuffer.Cbuf.IncPointer` | lib/cbuf/cbuf.c:32-33 | Advances an index around the ring |
| `RingBuffer.Cbuf.Write` | lib/cbuf/cbuf.c:55-94 | The ring gains exactly the bytes reported if and only if the write does not run over a read index at the start; then the count accepted is exact, every byte ever accepted is delivered or queued in order, and the event is signalled exactly for a non-empty ring. After an overrun it is, if and only if bytes are left or it was not signalled before |
| `RingBuffer.Cbuf.Read` | lib/cbuf/cbuf.c:96-145 | Removes the first min(buflen, queued) bytes in order in at most two passes, none when another reader was faster, and keeps the event exact |
| `Numbers.LonglongToString` | lib/libc/printf.c:94-122 | Leaves the decimal rendering, sign included, at the end of the buffer, never before its start |
| `Numbers.LonglongToHexstring` | lib/libc/printf.c:124-145 | Leaves the hexadecimal rendering likewise |
| `Numbers.NotationLength` | lib/libc/printf.c:94-145 | A number below base to the k has at most k digits |
| `Numbers.Atol` | lib/libc/atoi.c:63-87 | Returns the number denoted by the leading digits, reduced to 32 bits in two's complement |
| `Numbers.Atoul` | lib/libc/atoi.c:89-104 | Returns the number denoted by the leading digits modulo 2 to the 32 |
| `Numbers.ValueOfNotation` | lib/libc/printf.c:94-145 | The digits of a number denote it, and the parser accepts every one of them |
| `Numbers.DigitTable` | lib/libc/printf.c:124-131 | Digits are those of the two hexadecimal tables |
| `Numbers.AtolUndoesHex` | lib/libc/atoi.c:63-87 | atol of "0x" and the hexadecimal rendering is the number if and only if it is below half the 32-bit range |
| `Numbers.AtolUndoesDecimal` | lib/libc/atoi.c:63-87 | atol of the signed decimal rendering is the number if and only if it fits in 32 bits |
| `Numbers.ParseOfDecimal` | lib/libc/atoi.c:63-87 | For every 64-bit number the rendering denotes it, except that an explicit plus sign reads as zero |
| `Numbers.AtoulUndoesHex` | lib/libc/atoi.c:89-104 | atoul of "0x" and the hexadecimal rendering is the number if and only if it fits in 32 bits |
| `Numbers.AtoulUndoesDecimal` | lib/libc/atoi.c:89-104 | The unsigned decimal rendering denotes its number |
| `Numbers.AtoulStopsAtCapitalPrefix` | lib/libc/atoi.c:89-104 | Behind the capital prefix of an upper-case conversion everything reads as zero |
| `Printf.Vsnprintf` | lib/libc/printf.c:152-339 | Stores exactly the first characters of the unbounded rendering that the bound allows, and a terminator, returns their number, and changes nothing behind it, whatever flags, widths and justification; each %n before the bound is reached, and no other, stores the number of characters rendered before it |
| `Printf.ReadModifiers` | lib/libc/printf.c:186-234 | The loop over the modifiers ends at the conversion letter with the flags and the width they add up to |
| `Printf.OutputDirective` | lib/libc/printf.c:180-330 | What follows a percent sign stores its conversion, or stops at the bound, and goes on behind it with the next argument |
| `Printf.LaterCounts` | lib/libc/printf.c:280-293 | The counts that %n stores from some place of the format on are no smaller than what is rendered before it |
| `Printf.BoundIsHonoured` | lib/libc/printf.c:164-165 | The call stays within the bound if and only if it is at least two, or one with nothing to print |
| `Printf.Convert` | lib/libc/printf.c:189-298 | Each conversion stores its specified characters, or stops at the bound |
| `Printf.OutputString` | lib/libc/printf.c:304-326 | The justification code stores the padded text, or stops at the bound |
| `Printf.Pad` | lib/libc/printf.c:304-326 | Padded text is as long as the larger of width and text, has the text at one end, and only blanks, or zeros in front, beside it |
| `Printf.FormattedIntReadsBack` | lib/libc/printf.c:236-246 | An int printed by %d is what atol reads |
| `Printf.FormattedHexReadsBack` | lib/libc/printf.c:266-278 | A word printed by %#x is what atoul reads |
| `Printf.PaddedReadsBackIff` | lib/libc/printf.c:304-326 | A signed decimal laid out with any flags and width is read back as the number if and only if it is zero, or carries no plus sign and is unpadded, left-justified, or positive and padded with zeros; otherwise it reads as zero |
| `Printf.FormattedFieldReadsBackIff` | lib/libc/printf.c:236-246 | The same condition decides the round trip of an int through a %d field and atol |
| `Printf.HexFieldReadsBackIff` | lib/libc/printf.c:266-326 | A field in the alternate hexadecimal form reads back through atoul if and only if it is zero, or in lower case and without blanks in front; otherwise it reads as zero |
| `Directives.AskedNext` | lib/libc/printf.c:189-232 | The flags and the width after any modifiers, in any order, are those read off their text: each flag its own letter, the width the number its digits denote in 32 bits, leading zeros a zero before any other digit counts |
| `Directives.PlainCharacter` | lib/libc/printf.c:170-178 | A character that is not a percent sign stands for itself |
| `Directives.Directive` | lib/libc/printf.c:166-298 | A percent sign, modifiers and a letter print one argument as the modifiers ask, or none, and what follows goes on from the next argument |
| `Directives.SpelledDirective` | lib/libc/printf.c:166-298 | Signs, a width, a length and a letter, spelled in that order, are read as just those, for every width an unsigned int holds |
| `Directives.WholeFormat` | lib/libc/printf.c:166-298 | A format that is one such directive renders its conversion of the first argument |
| `Directives.PrintsSigned` | lib/libc/printf.c:233-246 | d, i and D print, in a field, the integer that the low 8, 16, 32 or 64 bits of the argument hold in two's complement, with its sign |
| `Directives.PrintsUnsigned` | lib/libc/printf.c:247-258 | u and U print, in a field, the number in those bits |
| `Directives.PrintsHex` | lib/libc/printf.c:259-278 | x, X and p print it in hexadecimal, in the case of the letter, behind a prefix if asked for and always for p |
| `Directives.PrintsText` | lib/libc/printf.c:199-297 | s prints text, or "<null>", in a field, c one character, n nothing; a letter that is no conversion is printed behind its percent sign |
| `Directives.DirectiveStores` | lib/libc/printf.c:279-293 | n stores all but what is rendered behind it, in an integer of the size its length names, and no other directive stores anything |

## Left out

- Hardware and architecture code, graphics, consoles, the boot menu, flashing and boot flows: register access and user interface without a short meaning to prove.
- Critical-section nesting, thread-local storage, names, stacks, statistics, magic-number checks, tracing and debug fill.
- Scheduler.LeaveTo: the deferred call that thread_exit queues is not a step of it; what it does is the clean-up step, which may come at any later time.
- Kernel.ThreadSystem.ThreadCreate: priorities outside 0 to 31, which the code stores unchecked and then uses as an index.
- Kernel.ThreadSystem.ThreadResume: blocked, sleeping and dead threads, for which `Scheduler.ResumeSafeIffSuspended` shows what the code breaks.
- Kernel.ThreadSystem.ThreadSleep: the bootstrap thread, which runs as the idle thread and must stay runnable; likewise it does not exit or wait.
- Kernel.ThreadSystem.ThreadUnblockFromWaitQueue: only without reschedule, the one way it is called; `Scheduler.RescheduledUnblockLosesCaller` is the other.
- Destruction of mutexes, events and wait queues while they are in use.
- Mutex.HandOffIsFifo: equality is claimed for runs in which no timeout fires; with timeouts it is `Mutex.HandOffKeepsOrder`.
- Dpc.EveryCallbackRunsOnceInOrder: assumes enough steps of the DPC thread in the run, not that the scheduler grants them.
- Timer.TickFiresTheDue: assumes that all deadlines lie in a half-range window of the clock, without which the comparisons are no order; a callback that sets a queued timer panics and ends the tick.
- Timer callback and argument pointers, and the reprogramming of a dynamic hardware timer.
- Heap.AllocateIsFirstFit: requests for which the room asked for does not cover header and payload are excluded, exactly those of `Heap.RoomCoversIff`; for them the payload does not fit in what is taken (`Heap.PointerCoversIff`). Pointers of 64 bits, heap_realloc and debug padding are not modelled.
- Heap.HeapObject.Alloc: heaps that start in the first twelve bytes of memory, where the test for a remainder can wrap.
- BlockCache.BCache.PutBlock: a last put by a client that has stored into a clean buffer and not marked it; what it stored can then be lost.
- BlockCache.BCache.FindOrFillBlock: the device does not fail, block numbers are on the device, and an unpinned entry exists when one is needed; on a read error the code puts one entry on two lists.
- BlockCache.BCache.FlushBlock: the cache reaches its device block by block; the byte transfer below it is `BlockDevice.Device.Write`.
- BlockDevice.Device.ReadBlock: transfers that escape the clipping leave the memory of the device, so what they touch is not modelled; nor are devices of two gigabytes and more, where byte counts no longer fit the signed result.
- BlockDevice.Device.DefaultRead: block hooks do not fail, so the error exits are not modelled; the two partial transfers are one method, ReadPart, the middle one is ReadWhole, and likewise for writes.
- Partition.Read: the error code of a negative offset is that of `BlockDevice.Device.Read`; the model returns no bytes.
- Partition.DeviceTable.PartitionPublish: device reference counts, and names too long for the buffer the code renders them in.
- Mounts.FileSystem.OpenFile: creating files and directories and reading them only passes through to drivers, which are not part of this model; a file handle stands for its mount.
- Mounts.FileSystem.MountFs: memory allocation does not fail.
- Numbers.Atol: signed overflow, which the C standard leaves open, is taken as two's complement.
- Printf.Vsnprintf: reading arguments of the wrong type; arguments come from a list without end.
- RingBuffer.Cbuf.Read: waiting for the event and waking its waiters are the event's steps; a blocking read is taken from the point where it has been let through, and the debug assertion that it then finds something is not modelled.
