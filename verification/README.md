# TinyOS kernel: a verified model

This project models the kernel of TinyOS as state machines over its shared structures and proves
properties of every run of them. A section of the code that executes under one spinlock, or under
the kernel semaphore, is one step; the steps of different cores and threads interleave freely. The
numbers of cores, threads, processes, file control blocks and philosophers are arbitrary.

Each layer has a model on values (its steps, its inductive invariant, the preservation of the
invariant by every step, and theorems about runs) and, where the source works by changing objects
in place, classes whose methods are proved against the steps of the model.

| files | part of the kernel |
|---|---|
| `ListSpec.dfy` | what the operations on intrusive lists mean as sequences |
| `Rings.dfy` | the ring lists of `util.h`, on the heap |
| `IntrusiveLists.dfy` | the lists of threads and processes as rings of nodes |
| `SchedModel.dfy`, `SchedInvariant.dfy`, `SchedSteps.dfy`, `SchedTheorems.dfy`, `SchedQueues.dfy`, `Scheduler.dfy` | the multicore scheduler, `kernel_sched.c` |
| `CondModel.dfy`, `CondInvariant.dfy`, `CondSteps.dfy`, `CondTheorems.dfy`, `CondSignals.dfy`, `CondWaits.dfy`, `CondVar.dfy` | condition variables and the kernel semaphore, `kernel_cc.c` |
| `ProcModel.dfy`, `ProcInvariant.dfy`, `ProcSteps.dfy`, `ProcTheorems.dfy`, `Processes.dfy` | processes, `kernel_proc.c` and the exit path of `kernel_threads.c` |
| `StreamModel.dfy`, `StreamSteps.dfy`, `StreamTheorems.dfy`, `Streams.dfy` | the stream table, `kernel_streams.c` |
| `Symposium.dfy` | the dining philosophers, `symposium.c` |
| `ArgPack.dfy` | argument vectors, `util.h` and `tinyoslib.c` |

`dafny verify dfyconfig.toml` checks the whole project.

## How the layers are modelled

**Scheduler.** A step is a spawn, a `wakeup`, the locked part of `sleep_releasing`, the locked part
of `yield` (expiry of timeouts, choice of the next thread, `previous_thread`), the context swap, a
`gain`, or an idle thread leaving. Between the unlock in `yield` and the lock in `gain` a core is
`Switching` or `Gaining`, and other cores may wake the outgoing thread. `bios_clock` is an input of
the steps that read it; its values are milliseconds times 1000. Times are unsigned 64-bit numbers, and
`curtime + timeout` wraps around.

**Condition variables and the semaphore.** On top of the scheduler, each thread has a location in
the code of `cv_wait`, `cv_signal`, `kernel_lock`, `kernel_unlock`, `kernel_wait_wchan` and
`kernel_sleep`; every acquisition and release of a lock is visible, and a thread acts only while a
core executes it. The waiter flags, the rings, the owners of the mutexes and `kernel_sem` are state.

**Processes.** A step runs under the kernel semaphore: Exec, creation and exit of a thread,
WaitChild up to where it sleeps, and the continuation of a waiter after a broadcast. Executions are
numbered, so that "each exited child is reported once" can be said although pids are used again.

**Streams.** A step is Open, Close, Dup2, the first or second half of Read and Write, the
inheritance of files by Exec, or the cleanup at exit. Opens and closes of each FCB are counted.

**Philosophers.** A step is a section under `mx`.

## Where the code and its documentation differ

- `rlist_pop_back` (`util.h:453`), like its definition in `util.h:193`, takes the list head out of the
  ring instead of the tail, so that the list looks empty afterwards. On a non-empty list it does what
  its comment says exactly when the list has one node (`Rings.PopBack`; a failing input is
  `Rings.PopBackExample`).
- `kernel_sched.h:57-62` claims that a thread is in the scheduler queue if and only if it is READY
  and CTX_CLEAN. Idle threads and threads that a core has selected but not yet gained are
  exceptions (`SchedTheorems.HeaderClaimFails`), and the only ones: in every run the claim holds for a
  thread exactly unless it is one of them (`SchedTheorems.HeaderClaimIsExact`).
- A wake-up time that comes out as NO_TIMEOUT puts a thread on the timeout list that then cannot be
  told from one that is not on it. The scheduler's invariant survives a sleep if and only if that
  is not the case (`SchedTheorems.MarkerIsExact`; an input is `SchedTheorems.MarkerExample`). Runs are
  restricted to sleeps of this kind by `SchedModel.MarkerFree`. All sleeps of the repository are: the
  clock and the timeouts of Cond_TimedWait are milliseconds times 1000, which can never add up to the
  marker (`SchedModel.MillisecondsAreMarkerFree`). Only `kernel_timedwait`, which nothing calls, takes
  a timeout that could.
- The `scheduled` counter was meant to reverse the order of selection now and then. It never changes
  the choice: `Scheduling.Scheduler.SchedQueueSelect` has both arms of `kernel_sched.c:311-324`, and
  returns the head of the best queue through either.
- `initialize_scheduler` (`kernel_sched.c:544-546`) writes to `SCHED[3]`, past the end of the array of
  three queues, at every boot. The model has the three queues and not that write.
- `tinyos.h:246-247` says that the process terminates when one of its threads calls Exit, with the
  status given. It does if and only if that thread is the last one; otherwise the process lives on
  and no status is stored (`ProcTheorems.ExitIsExact`; a failing run is `ProcTheorems.ExitExample`).
- The header of `kernel_streams.h` says that a failed `FCB_reserve` leaves the state unchanged. The
  file tables and the set of free FCBs are unchanged. The order of the free list is, if and only if
  the process lacks file ids or at most one FCB was free; otherwise the list is reversed
  (`StreamTheorems.FailureIsExact`; a failing input is `StreamTheorems.FailureExample`, a reservation
  of three). Reservations of one or two, the only ones that the repository makes, keep the order.
- The same header calls `FCB_unreserve` the opposite of `FCB_reserve`. It leaves the FCBs that it
  frees at the end of the free list and with a reference count of one, which `acquire_FCB` resets;
  the exact conditions are in `StreamTheorems.UnreserveIsExact`, and an input, the opening of a device
  that cannot be opened, is `StreamTheorems.UnreserveExample`.

## Model

| member | source | states |
|---|---|---|
| Rings.Splice | util.h:390-395 | on any heap, nodes whose `next` and `prev` are mutually inverse stay so; the successors of the two nodes are exchanged |
| Rings.SpliceTwice | util.h:390-395 | a splice is its own inverse: done twice, every pointer of the heap is as before |
| Rings.SpliceRings | util.h:390-395 | joins two rings into one, or splits one into two, exactly as drawn in util.h:171-174, also for adjacent and for equal nodes |
| Rings.Remove | util.h:405 | the node becomes a ring of its own and the rest of the ring keeps its order |
| Rings.RemoveAt | util.h:405 | removal from the middle of a ring, with the ring still seen from its own first node |
| Rings.IsEmpty | util.h:412 | tells whether the list has a node beside its head |
| Rings.PushFront | util.h:423 | a whole ring is put in front of the list's nodes, in its order |
| Rings.PushBack | util.h:434 | a whole ring is put behind the list's nodes, in its order |
| Rings.PopFront | util.h:445 | returns the first node and leaves the others; on an empty list, the list itself |
| Rings.PopBack | util.h:447-453 | the head leaves and the nodes stay in a ring without it, so that the documented effect on a non-empty list is had if and only if the list has one node |
| Rings.EmptiedUnlessShort | util.h:447-453 | why: an empty list is the documented one only when nothing should be left on it |
| Rings.PopBackExample | util.h:447-453 | a list of two nodes for which the documented effect fails |
| Rings.Len | util.h:461-470 | the number of nodes |
| Rings.Equal | util.h:479-492 | true exactly when the two lists have the same keys in the same order |
| Rings.Append | util.h:502-506 | `[ldest, X] [lsrc, Y]` becomes `[ldest, X, Y] [lsrc]` |
| Rings.Prepend | util.h:516-520 | `[ldest, X] [lsrc, Y]` becomes `[ldest, Y, X] [lsrc]` |
| Rings.Reverse | util.h:527-535 | the list is reversed, and is a list again, although it is none in the middle of the loop |
| Rings.Find | util.h:547-557 | the first node with the key, or the given default when there is none |
| Rings.Select | util.h:567-578 | a stable partition: the nodes that satisfy the predicate, which sees the node and its key, go to the end of the other list, in order, and the rest stay in order |
| Rings.Move | util.h:572-573 | a node moves from the middle of one list to the end of another |
| Rings.InsertBefore | kernel_sched.c:228 | a node enters a list before another node of it, or at its end, by one splice |
| IntrusiveLists.PushBack | kernel_sched.c:244 | on rings of nodes: the id joins the back of the list, as in `SchedQueueAdd` |
| IntrusiveLists.PushFront | kernel_threads.c:205 | the id joins the front, as for a new or a reparented child |
| IntrusiveLists.PopFront | kernel_sched.c:313 | the first id leaves, as in `SchedQueueSelect` |
| IntrusiveLists.Remove | kernel_sched.c:263 | the id leaves from wherever it is, as in `SchedMakeReady` and `CleanupZombie` |
| IntrusiveLists.Append | kernel_threads.c:211 | one list goes to the end of another, as in `InheritExited` |
| IntrusiveLists.Register | kernel_sched.c:221-228 | the scan over the nodes and the splice put the id exactly where `SchedRegisterTimeout` does |
| Scheduling.Scheduler.SchedQueueAdd | kernel_sched.c:241-248 | the thread goes to the back of the queue of its priority; the other levels, and all else, stay |
| Scheduling.Scheduler.SchedMakeReady | kernel_sched.c:255-273 | the thread is READY, off the timeout list, and queued exactly if its context is clean |
| Scheduling.Scheduler.SchedRegisterTimeout | kernel_sched.c:214-230 | the scan finds the one place that keeps the list in order behind equal times |
| Scheduling.Scheduler.SchedWakeupExpiredTimeouts | kernel_sched.c:281-292 | the loop ends, having made ready the heads of the list as long as they were due |
| Scheduling.Scheduler.SchedQueueSelect | kernel_sched.c:300-336 | takes the head of the best non-empty queue, else the current thread if READY, else the idle thread |
| Scheduling.Scheduler.SpawnThread | kernel_sched.c:117-155 | a new INIT thread, at boot or later; the invariant is kept as long as no core has left the scheduler |
| Scheduling.Scheduler.ReleaseTCB | kernel_sched.c:160-171 | the thread is gone and the count is one less |
| Scheduling.Scheduler.Wakeup | kernel_sched.c:341-363 | returns 1 exactly when the thread was blocked, and then it is ready; the invariant is kept |
| Scheduling.Scheduler.SleepReleasing | kernel_sched.c:368-398 | the state and the timeout of the caller change as one step that keeps the invariant |
| Scheduling.Scheduler.GiveUpCore | kernel_sched.c:418-443 | the state and the priority of the thread that yields, and of no other |
| Scheduling.Scheduler.LowerPriority | kernel_sched.c:432-443 | one level down, at most to the last, after SCHED_QUANTUM and SCHED_MUTEX; one up, at most to the first, after SCHED_IO; no change otherwise |
| Scheduling.Scheduler.ChooseNext | kernel_sched.c:448-454 | the choice, the counter and `previous_thread` |
| Scheduling.Scheduler.Yield | kernel_sched.c:406-456 | the three parts together are the step of the model and keep the invariant |
| Scheduling.Scheduler.SwapContext | kernel_sched.c:459-463 | the chosen thread, shown to have a clean context if it is another one, becomes current, and the invariant is kept |
| Scheduling.Scheduler.RetirePrevious | kernel_sched.c:497-511 | the previous thread is queued, released or left, by its state; the last arm cannot be taken |
| Scheduling.Scheduler.Gain | kernel_sched.c:483-514 | the step of the model, with the precondition of `RetirePrevious` discharged from the invariant |
| Scheduling.Scheduler.Leave | kernel_sched.c:530-537 | an idle thread leaves when no thread is active, and the invariant, by which none will be again, is kept |
| SchedModel.WakeTime | kernel_sched.c:219 | the clock plus the timeout, less 2^64 if that overflows |
| SchedModel.MicrosecondsWrap | kernel_cc.c:180-184 | the timeout of Cond_TimedWait is 1000 times the milliseconds, less a multiple of 2^64, which is none unless that overflows |
| SchedModel.InsertionPoint | kernel_sched.c:222-228 | everything before the place is due no later, and what is at it is due later |
| SchedModel.InsertionPointUnique | kernel_sched.c:222-228 | there is one such place in any list |
| SchedSteps.StepKeeps | kernel_sched.c:117-538 | every step keeps the scheduler's inductive invariant |
| SchedSteps.SwitchIsClean | kernel_sched.c:459-463 | the thread a core is about to switch to has a clean context and is in no other hands |
| SchedSteps.GainArms | kernel_sched.c:496-512 | the outgoing thread is READY, EXITED or STOPPED when `gain` looks at it |
| SchedTheorems.BootIsReached | kernel_init.c:44 | the state at boot is what the spawn and the wakeup of init make of idle cores |
| SchedTheorems.BootInv | kernel_sched.c:543-578 | the state at boot, with every core in its idle thread and init ready, satisfies the invariant |
| SchedTheorems.RunInv | kernel_sched.c:117-538 | so does every state of every run |
| SchedTheorems.QueueTheorem | kernel_sched.h:57-62 | in every run a thread is in the scheduler queue, once and on the level of its priority, if and only if it is a normal thread, READY, CTX_CLEAN and not selected by a core |
| SchedTheorems.HeaderClaimIsExact | kernel_sched.h:57-62 | in every run the header's claim holds for a thread exactly unless it is READY and CTX_CLEAN and either idle or selected |
| SchedTheorems.HeaderClaimFails | kernel_sched.h:57-62 | it fails right after the first selection |
| SchedTheorems.ContextSafety | kernel_sched.c:406-514 | no thread is on two cores, every switch is to a clean context that no other core holds, and the aborting arm of `gain` is unreachable |
| SchedTheorems.TimeoutTheorem | kernel_sched.c:214-292 | the timeout list is sorted and holds exactly the threads with a wake-up time, each once, and none of them is in the scheduler queue, which would need the same list node |
| SchedTheorems.MarkerIsExact | kernel_sched.c:219 | a sleep keeps the invariant if and only if its wake-up time is not the NO_TIMEOUT marker |
| SchedTheorems.MarkerExample | kernel_sched.c:219 | an input for which it does not, one second after the epoch of the clock |
| SchedModel.MillisecondsAreMarkerFree | kernel_cc.c:173-184 | no wait of user code can end at the marker |
| SchedTheorems.ExpiryIsExact | kernel_sched.c:281-292 | a pass wakes exactly the threads due at or before the current time and changes no other |
| SchedTheorems.SelectionIsBest | kernel_sched.c:300-336 | the chosen thread heads the queue of the best priority present |
| SchedTheorems.StepThreads | kernel_sched.c:117-522 | what any step does to the kind, the state, the phase, the priority and the wake-up time of any thread; only its own yields change its priority, as their cause says |
| SchedTheorems.StepBirths | kernel_sched.c:117-155 | threads come from spawns alone, as normal threads of the best priority that have not been woken |
| SchedTheorems.CoreGoesOn | kernel_sched.c:406-514 | a core that has not left can always take its next step |
| SchedQueues.QueueAfter | kernel_sched.c:241-336 | what a step does to a level of the queue: the threads woken, expired or descheduled by it join the back, in order, and nobody leaves but the head of the best level, which a yield chooses |
| SchedQueues.YieldTheorem | kernel_sched.c:300-336 | the choice, with the expired threads queued: the head of the best level that is not empty; if all are empty the current thread if READY, or else the idle thread |
| SchedQueues.ScheduledTheorem | kernel_sched.c:311-324 | the counter counts yields, and starts over at the first choice from a queue past its bound |
| SchedQueues.StepAdvances | kernel_sched.c:241-336 | every level, less at most its head, which has been chosen, is the front of what it is after the step |
| SchedQueues.QueueIsFifo | kernel_sched.c:241-336 | in every run, as long as a thread stays on its level, everybody before and behind it stays in order, less the first few, who have been chosen; nobody gets in front of it |
| SchedQueues.FirstComeFirstServed | kernel_sched.c:241-336 | in every run, when a thread is chosen, whoever stood before it on its level has been chosen before |
| SchedQueues.ExpiryOrder | kernel_sched.c:281-292 | expired threads are queued in the order of the timeout list, behind those queued before |
| SchedQueues.ExpirySuffix | kernel_sched.c:281-292 | the rest of the timeout list keeps its order |
| SchedQueues.SleepersInOrder | kernel_sched.c:214-230 | a thread with a timeout enters the list behind all that are due no later, the others keep their order |
| SchedTheorems.ExitedIsReleasedOnce | kernel_sched.c:160-171 | an exited thread stays with its core until that core's next `gain`, which alone releases it |
| SchedTheorems.ExitedTheorem | kernel_sched.c:503-505 | in every run an exited thread is in the hands of exactly one core, stays exited until that core's first `gain` after that, and is released by it |
| SchedTheorems.ReleasedHasExited | kernel_sched.c:503-505 | only exited normal threads are released, and the count goes down by one |
| SchedTheorems.ActiveCountsThreads | kernel_sched.c:149-171 | `active_threads` is the number of normal threads in existence, in every run |
| SchedTheorems.ActiveStaysZero | kernel_sched.c:530-533 | once zero, it is zero for ever |
| SchedTheorems.Shutdown | kernel_sched.c:530-537 | from then on every queue and the timeout list are empty and every core is in its idle thread |
| CondSteps.CStepKeeps | kernel_cc.c:70-311 | every step of every thread, in any interleaving, keeps the invariant of the monitors |
| CondTheorems.CRunInv | kernel_cc.c:70-311 | it holds in every state of every run |
| CondTheorems.NoLostWakeup | kernel_cc.c:119-150 | a waiter that has released its mutex is on the ring until taken off; with the ring's lock free, everybody on it is asleep, or was woken by a yield at or after its wake-up time and has been awake on the ring since; every sleeper is on the ring it waits on |
| CondTheorems.OnlyTimeoutsWake | kernel_cc.c:136-139 | a sleeper that wakes while still on the ring is woken by the expiry of its timeout, and by no other step |
| CondTheorems.AwakeByTimeout | kernel_cc.c:136-139 | in every run there is such a step for everybody awake on a ring |
| CondTheorems.FlagsTheorem | kernel_cc.c:139-150 | signalled implies removed, removed implies on no ring and awake, and a wait without timeout ends only by a signal |
| CondTheorems.SignalTurnTheorem | kernel_cc.c:159-170 | the first waiter is taken off; the signal is spent on it if and only if it was still asleep |
| CondTheorems.KernelWaitIsAtomic | kernel_cc.c:276-293 | from raising the semaphore to releasing the kernel mutex nobody is inside the kernel, and from then on the waiter is on its ring: for the kernel, test and sleep are one step |
| CondTheorems.RingHolderNeverStuck | kernel_cc.c:119-200 | a thread that holds the lock of a ring, in a wait or a signal, never waits for another lock |
| CondTheorems.KernelMutexHolderWaits | kernel_cc.c:258-311 | a thread that holds the kernel mutex waits at most for the lock of a ring that another thread holds, so that these locks admit no circular wait |
| CondTheorems.SignalEnds | kernel_cc.c:159-200 | each section of a signal or broadcast brings its end nearer, and no other step sets it back |
| CondTheorems.BroadcastWakesAll | kernel_cc.c:195-200 | when a broadcast leaves, nobody sleeps on the condition |
| CondTheorems.SemaphoreTheorem | kernel_cc.c:249-311 | `kernel_sem` and the threads inside the kernel add up to one, so at most one thread is inside |
| CondTheorems.TokenNotStranded | kernel_cc.c:258-311 | with the mutex free, the semaphore up and somebody waiting for it, some thread has been signalled, is awake, and has not rechecked yet |
| CondSignals.RingAfter | kernel_cc.c:119-171 | a waiter joins a ring at the back; it leaves as the head, when it is signalled, or by itself when nobody has taken it off; the others keep their order |
| CondSignals.WaitersInOrder | kernel_cc.c:125-171 | in every run two waiters stay in the order in which they joined, so that the one that has waited longer is signalled first |
| CondSignals.CallTakesLock | kernel_cc.c:187-200 | between the call and the return of a signal or broadcast there is a step at which it takes the free lock of the ring |
| CondSignals.SignalTheorem | kernel_cc.c:159-200 | in every run, when a broadcast returns, all who were on the ring when it took the lock are off it, and nobody sleeps on the condition; when a signal returns, it has taken off the first few and signalled at most one, the last of them, and that one unless nobody is left; whoever was taken off is awake, and signalled unless its own timeout had woken it |
| CondWaits.WaitTheorem | kernel_cc.c:119-184 | in every run a wait of user code or of the kernel keeps its mutex, its condition and its timeout; it falls asleep with the wake-up time of the clock plus that timeout, or none, and when it is over the thread owns the mutex again |
| CondWaits.MutexTheorem | kernel_cc.c:134-311 | in every run a mutex is taken only when free, and released only by its owner, by an unlock or in a wait |
| CondWaits.StepIsRequested | kernel_cc.c:119-311 | what each step asks of the scheduler: a sleep, a wakeup of the head of the ring, an exit, a spawn or nothing |
| CondWaits.SchedulerRuns | kernel_cc.c:119-311 | the scheduler under a run of the monitors makes a run of the scheduler, so that the theorems on those hold of it |
| CondVars.CondVar.Enqueue | kernel_cc.c:125-132 | the waiter joins the back of the ring of nodes |
| CondVars.CondVar.MakeSafe | kernel_cc.c:81-87 | the head of the ring moves on, or is null when the ring empties |
| CondVars.CondVar.RemoveFromRing | kernel_cc.c:80-89 | the waiter leaves the ring wherever it is, the others keep their order, and the head is right |
| CondVars.Waiter.WakeThread | kernel_cc.c:165-168 | the flag is set exactly when the thread was asleep |
| CondVars.CondVar.SignalFirst | kernel_cc.c:163-169 | one turn of the loop, over ring, flags and scheduler |
| CondVars.CondVar.CvSignal | kernel_cc.c:159-171 | the waiters before the first sleeper are dropped and marked removed, that sleeper is woken, removed and signalled, and those after it are untouched; if there is none the ring empties and nobody is woken |
| CondVars.CondVar.Broadcast | kernel_cc.c:195-200 | the ring empties, all are removed, exactly those asleep at the beginning are signalled, and the scheduler has woken them all |
| CondVars.WakeAllThread | kernel_cc.c:195-200 | none of the threads of a broadcast is asleep after it, and no other thread has changed |
| ProcSteps.ReparentEffect | kernel_threads.c:199-206 | the loop gives every child to init, in the opposite order, and touches nothing else |
| ProcSteps.ReparentToOneself | kernel_threads.c:202-206 | for init itself a turn changes nothing, so the loop would not end |
| ProcSteps.TerminateEffect | kernel_threads.c:182-221 | what the last exit of a process leaves of every process and every wait |
| ProcSteps.PStepKeeps | kernel_proc.c:78-338 | every step keeps the invariant of the process table |
| ProcTheorems.BootedInv | kernel_proc.c:54-75 | the table after the two Execs of the boot satisfies the invariant |
| ProcTheorems.PRunInv | kernel_proc.c:78-338 | so does every state of every run |
| ProcTheorems.TreeTheorem | kernel_threads.c:199-221 | `children_list` holds exactly the processes with that parent, `exited_list` exactly the zombies among them, each once; both are empty unless the process is alive |
| ProcTheorems.ChainToInit | kernel_proc.c:321-327 | from every process but the first two a chain of parents, all alive and each older than the one before, leads to init |
| ProcTheorems.InitWaitsForAll | kernel_proc.c:325-327 | init's wait for any child returns NOPROC if and only if every pid from 2 on is free, and then init may leave |
| ProcTheorems.FreeListTheorem | kernel_proc.c:61-105 | the free list has exactly the free pids, each once, and its length and `process_count` add up to the size of the table |
| ProcTheorems.ExecTheorem | kernel_proc.c:134-225 | Exec fails exactly when all pids are used; else it gives the first free pid to a new child of the caller, alive, with its main thread if it has one, in front of the list of children |
| ProcTheorems.NoSleepOnZombies | kernel_proc.c:271-295 | nobody sleeps in WaitChild while what it waits for has happened, nor without a child to wait for |
| ProcTheorems.WaitTheorem | kernel_proc.c:253-318 | in every run WaitChild returns NOPROC if and only if the pid is not that of a child, or for any child if there is none; the pid of the child if it has exited, or for any child the first of the exited ones; and sleeps otherwise |
| ProcTheorems.GoOnTheorem | kernel_proc.c:271-295 | in every run a waiter that goes on gets the same answers, but never NOPROC |
| ProcTheorems.ThreadCounts | kernel_threads.c:26-176 | a process has one thread more for each that it creates and one less for each that exits, and begins with its main thread |
| ProcTheorems.ReapTheorem | kernel_proc.c:241-318 | a pid that WaitChild returns is that of a child that has exited, with the status stored at its exit, never reported before; it leaves both lists, whose order stays, and its pid becomes the first free one; no other step reports anything |
| ProcTheorems.ReportedOnce | kernel_proc.c:241-304 | every execution that has ended is a zombie or has been reported, not both, and at most once |
| ProcTheorems.SecondReapBreaks | kernel_proc.c:271-274 | why two threads of a process must not wait for one child: a second cleanup would put its pid on the free list twice |
| ProcTheorems.ExitIsExact | kernel_threads.c:176-222 | an exit ends the process if and only if the thread is the last one, and then with the status given; otherwise the process stays alive and no status is stored |
| ProcTheorems.ExitExample | kernel_threads.c:176-180 | a process of two threads that outlives the exit of one |
| ProcTheorems.ExitStatus | kernel_threads.c:180-182 | the status stored is that of the last thread, and stays |
| Processes.ProcTable.InitializeProcesses | kernel_proc.c:54-70 | all blocks are free and empty, and the free list has them in order |
| Processes.ProcTable.BuildFreelist | kernel_proc.c:61-68 | the `parent` fields thread a list of all blocks, without a cycle |
| Processes.ProcTable.AcquirePCB | kernel_proc.c:81-94 | the first free block, or null when there is none; the rest stays a list |
| Processes.ProcTable.ReleasePCB | kernel_proc.c:99-105 | the block is the new head of the free list |
| Processes.ProcTable.AdoptPCB | kernel_proc.c:143-155 | a child at the front of its parent's list, or nobody's child for pids 0 and 1 |
| Processes.ProcTable.SysExec | kernel_proc.c:134-225 | the step of the model and its result, for every state of the table |
| Processes.ProcTable.SysCreateThread | kernel_threads.c:26-68 | one thread more |
| Processes.ProcTable.ReparentChildren | kernel_threads.c:199-206 | the loop ends, and has the effect of `ProcSteps.ReparentEffect` |
| Processes.ProcTable.InheritExited | kernel_threads.c:208-213 | init gets the exited children behind its own, and is told |
| Processes.ProcTable.ReportExit | kernel_threads.c:215-219 | the parent gets the process in front of its exited children, and is told |
| Processes.ProcTable.TerminateProcess | kernel_threads.c:180-222 | the parts in the order of the code have the effect of `ProcSteps.TerminateEffect` |
| Processes.ProcTable.SysThreadExit | kernel_threads.c:151-222 | a thread less, and the end of the process with the last one; the invariant is kept |
| Processes.ProcTable.CleanupZombie | kernel_proc.c:241-250 | returns the stored status; the child is off both lists and its pid is free |
| Processes.ProcTable.WaitForAnyChild | kernel_proc.c:293-303 | sleeps exactly when no child has exited, else returns the first of them with its status |
| Processes.ProcTable.WaitForSpecificChild | kernel_proc.c:270-277 | sleeps exactly while the child is alive, else returns its status |
| Processes.ProcTable.SysWaitChild | kernel_proc.c:253-318 | the answers of `ProcTheorems.WaitTheorem`, also for a pid that is no child or has exited already, and the status; the invariant is kept |
| Processes.ProcTable.GoOnWaiting | kernel_proc.c:271-295 | the loop test after `kernel_wait`, with the answers of `ProcTheorems.GoOnTheorem` |
| StreamModel.OpenOk | kernel_streams.c:65-97 | a reservation of one takes the first empty slot and the first free FCB |
| StreamSteps.StepKeeps | kernel_streams.c:27-270 | every step keeps the balance of references, the lifetimes, and empty tables for processes that do not exist |
| StreamSteps.Dup2Parts | kernel_streams.c:230-235 | Dup2 is the closing of the one file id and the binding of it to the other's stream |
| StreamSteps.InheritKeeps | kernel_proc.c:157-162 | the child's table becomes a copy of its parent's, with all references counted |
| StreamSteps.CleanUpKeeps | kernel_threads.c:191-197 | the table of an exiting process ends up empty, with all references given back |
| StreamTheorems.SRunInv | kernel_streams.c:15-270 | the invariant holds in every run |
| StreamTheorems.NothingCounted | kernel_streams.c:44-61 | the count of an FCB is zero exactly when no slot of any table names it |
| StreamTheorems.Conservation | kernel_streams.c:27-61 | a free FCB is named and pinned by nobody; any other one has as reference count the number of slots and pins that name it |
| StreamTheorems.ClosedOncePerLifetime | kernel_streams.c:50-61 | a step closes exactly the streams whose FCB it frees, each once and without references; a pinned stream is not closed |
| StreamTheorems.OpenTheorem | kernel_streams.c:251-270 | Open returns the smallest empty file id, naming an FCB that was free; or no file table and no free FCB has changed |
| StreamTheorems.CloseTheorem | kernel_streams.c:196-208 | exactly the slot is emptied; the stream is closed and its FCB freed if and only if this was the last reference |
| StreamTheorems.Dup2Theorem | kernel_streams.c:211-238 | returns 0 if and only if both file ids are legal and the source is open; then both name the same stream, no other slot has changed, and nothing at all if they did so before; otherwise -1, and nothing has changed |
| StreamTheorems.CloseAnswer | kernel_streams.c:196-208 | the result is that of the stream's Close if and only if it is closed now; else 0 for a legal file id and -1 for others |
| StreamTheorems.BeginIoTheorem | kernel_streams.c:131-147 | a read or write of an open file id takes a pin and a reference on its stream, and changes nothing else; of another one it changes nothing |
| StreamTheorems.EndIoTheorem | kernel_streams.c:152-154 | the pin and the reference are given back; the stream is closed and its FCB freed if and only if that was the last reference |
| StreamTheorems.StepAlive | kernel_threads.c:191-197 | the processes with file tables in use come by Exec, or at boot, and go by their exit |
| StreamTheorems.PinsAreInFlight | kernel_streams.c:131-193 | in every run the pins of an FCB are the reads and writes of it that have begun and not ended |
| StreamTheorems.IoKeepsStreamOpen | kernel_streams.c:145-147 | in every run a stream is neither closed nor its FCB freed as long as a read or write of it is under way, whatever other threads close |
| StreamTheorems.ReserveTheorem | kernel_streams.c:65-97 | all or nothing: the smallest empty file ids in ascending order, bound to different FCBs with count one; or no slot and no free FCB changed |
| StreamTheorems.FailureIsExact | kernel_streams.c:78-90 | a failed reservation keeps the free list in order if and only if slots were lacking or at most one FCB was free, and the whole state if moreover no count had to be reset; one or two reserved never change the order |
| StreamTheorems.FailureExample | kernel_streams.c:83-90 | three reserved with two FCBs: the free list comes back reversed |
| StreamTheorems.UnreserveIsExact | kernel_streams.c:101-109 | when unreserving restores the order of the free list, and when the whole state |
| StreamTheorems.UnreserveExample | kernel_streams.c:257-261 | at boot, opening a device that cannot be opened changes the order of the free list |
| StreamTheorems.ReserveThenUnreserve | kernel_streams.c:65-109 | gives back the file tables and the set of free FCBs |
| StreamTables.StreamTable.InitializeFiles | kernel_streams.c:15-24 | every FCB is free, once, with count zero |
| StreamTables.StreamTable.AcquireFCB | kernel_streams.c:27-36 | the first free FCB with count zero, or nothing |
| StreamTables.StreamTable.ReleaseFCB | kernel_streams.c:38-41 | the FCB is the last free one |
| StreamTables.StreamTable.FcbIncref | kernel_streams.c:44-48 | one reference more |
| StreamTables.StreamTable.FcbDecref | kernel_streams.c:50-61 | one reference less; Close runs, and its result is returned, exactly at the last one |
| StreamTables.StreamTable.FindFids | kernel_streams.c:67-78 | finds the first empty slots, in order, exactly if there are enough |
| StreamTables.StreamTable.AcquireFcbs | kernel_streams.c:79-90 | takes the FCBs, or puts back those taken |
| StreamTables.StreamTable.BindFids | kernel_streams.c:91-95 | binds slots to FCBs one by one |
| StreamTables.StreamTable.FcbReserve | kernel_streams.c:65-97 | succeeds exactly if there are slots and FCBs enough; the new state is that of `ReserveTheorem` |
| StreamTables.StreamTable.FcbUnreserve | kernel_streams.c:101-109 | the new state is that of `ReserveThenUnreserve`; the assertion in the loop holds |
| StreamTables.StreamTable.OpenStream | kernel_streams.c:251-270 | the file id, or NOFILE when nothing could be reserved or the device could not be opened; the invariant is kept |
| StreamTables.StreamTable.BeginIO | kernel_streams.c:131-147 | the stream that the file id names gets a pin and a reference; nothing changes if it names none |
| StreamTables.StreamTable.EndIO | kernel_streams.c:152-154 | the pin and the reference are given back, and the FCB is freed at the last one |
| StreamTables.StreamTable.SysClose | kernel_streams.c:196-208 | the effect of `StreamTheorems.CloseTheorem`, and the result: that of Close at the last reference, 0 for other legal file ids, -1 for illegal ones |
| StreamTables.StreamTable.SysDup2 | kernel_streams.c:218-238 | the effect of `StreamTheorems.Dup2Theorem`, and -1 exactly for illegal file ids and a closed source |
| StreamTables.StreamTable.InheritStreams | kernel_proc.c:157-162 | the loop has the effect of `StreamSteps.InheritKeeps` |
| StreamTables.StreamTable.CleanUpFidt | kernel_threads.c:191-197 | the loop has the effect of `StreamSteps.CleanUpKeeps` |
| SymposiumModel.Opposite | symposium.c:50-51 | LEFT and RIGHT undo each other, and differ from each other and from the place itself when there are philosophers enough |
| SymposiumModel.StepKeeps | symposium.c:76-130 | every section keeps the invariant of the table |
| SymposiumModel.MealTheorem | symposium.c:118-123 | who eats after a meal: the left neighbour if it is hungry and its other neighbour does not eat, and then the right one likewise; at a table of three, of two hungry ones, the left |
| SymposiumModel.SymposiumSafety | symposium.c:76-113 | in every run neighbours never eat together, and a hungry philosopher has an eating neighbour |
| SymposiumModel.SomebodyGoesOn | symposium.c:103-124 | as long as somebody has not gone, some philosopher can go on |
| SymposiumModel.StepDrops | symposium.c:89-130 | every section brings the table nearer the end |
| SymposiumModel.SymposiumEnds | symposium.c:89-130 | no run is longer than `N * (4 * bites + 2)` sections; where it can go no further everybody has left after exactly `bites` meals |
| Symposia.SymposiumTable.constructor | symposium.c:134-144 | everybody is NOTHERE |
| Symposia.SymposiumTable.TryToEat | symposium.c:76-86 | a hungry philosopher with no eating neighbour eats, and is woken if it waits |
| Symposia.SymposiumTable.Arrive | symposium.c:98-103 | the philosopher thinks, or is about to leave if it has no bites to take; the invariant is kept |
| Symposia.SymposiumTable.GetHungry | symposium.c:106-112 | the philosopher eats if neither neighbour does, and else waits hungry; the invariant is kept |
| Symposia.SymposiumTable.GoOn | symposium.c:109-114 | a philosopher that has been signalled finds itself eating |
| Symposia.SymposiumTable.FinishMeal | symposium.c:118-123 | one meal more, and both neighbours, left first, have been let to eat if they can; the invariant is kept |
| Symposia.SymposiumTable.Leave | symposium.c:126-129 | the philosopher is NOTHERE for good; the invariant is kept |
| ArgPack.PackThenUnpack | util.h:620-673 | unpacking what was packed gives the strings back, whatever follows in the buffer, and the zero bytes count them |
| ArgPack.RoundTripIsExact | util.h:620-673 | the round trip holds if and only if no string has a zero byte inside |
| ArgPack.UnpackThenPack | util.h:620-673 | packing what was unpacked gives back every buffer that ends with a zero byte |
| ArgPack.Strlen | util.h:602 | the bytes before the first zero byte |
| ArgPack.ArgvLen | util.h:598-605 | exactly the length of the packed vector |
| ArgPack.CopyString | util.h:626-627 | one string and its zero byte, and no other byte of the buffer |
| ArgPack.ArgvPack | util.h:620-630 | fills exactly that many bytes with the packed vector and returns their number |
| ArgPack.ArgsCount | util.h:641-649 | the number of zero bytes |
| ArgPack.ArgvUnpack | util.h:665-673 | the offsets of the strings, and the place after the last one |
| ArgPack.Execute | tinyoslib.c:147-167 | the buffer is the program value and the packed vector |
| ArgPack.ExecWrapper | tinyoslib.c:94-112 | the program value, the number of strings, and the offset of each |
| ArgPack.ExecuteThenWrapper | tinyoslib.c:94-167 | the wrapper gets the same program and the same arguments |

## Left out

- `bios.c`, `terminal.c`, `console.c`, `kernel_dev.c`: signals, timers and serial I/O; the clock and
  the success of `device_open` are inputs, and nothing is said about a halted core being restarted.
- `sys_ThreadJoin`, `sys_ThreadDetach` and `sys_ThreadSelf`; threads are created and exit undetached,
  and the control blocks of process threads (PTCBs) are only counted.
- Two threads of one process in WaitChild at once, which may reap a child twice, and the exit of
  init's last thread while init has children, for which the reparenting loop does not end: both are
  excluded by `ProcModel.PEnabled`; `ProcTheorems.SecondReapBreaks` and `ProcSteps.ReparentToOneself`
  show what would happen.
- Spin counts, preemption, memory ordering and the layout of stacks and TCBs; a mutex is an atomic
  lock with an owner, and user code is trusted to unlock and to wait only with mutexes it holds.
- The fields `its`, `rts`, `last_cause` and `curr_cause` of a TCB, which no decision depends on.
- The width of counters: `scheduled`, `active_threads`, `process_count`, `thread_count`, `refcount`
  and lengths are unbounded integers here, so that an overflow of one of them is not modelled.
- The scheduler queues, the timeout list and the lists of processes and FCBs are sequences of ids in
  the classes of those layers. That each operation on the rings of nodes does the same to the ids is
  what `IntrusiveLists` proves; the classes do not contain the rings.
- Scheduling.Scheduler.SchedQueueAdd: does not model the restart of a halted core.
- Scheduling.Scheduler.GiveUpCore: does not model the fields for the remaining time and the causes.
- Scheduling.Scheduler.SleepReleasing: releases no mutex itself, the release of `mx` under the same lock is part of the step `CondModel.FallAsleep`.
- Scheduling.Scheduler.SchedQueueSelect: does not model the remaining time of the chosen thread.
- CondVars.CondVar.Broadcast: is about an uninterrupted broadcast; other threads acting between its turns are in `CondTheorems.SignalEnds` and `CondSignals.SignalTheorem`.
- Processes.ProcTable.SysExec: does not model the argument buffer of the new process, nor its main thread beyond counting it.
- Processes.ProcTable.SysCreateThread: does not model the PTCB, whose address is the Tid returned, nor the new thread beyond counting it.
- Processes.ProcTable.TerminateProcess: does not model the argument buffer and the file table.
- Processes.ProcTable.SysWaitChild: is about the one waiting thread of a process; what a second one would do is shown by `ProcTheorems.SecondReapBreaks`.
- Processes.ProcTable.SysThreadExit: does not model the PTCB and its waiters, nor the file table, which `StreamTables.StreamTable.CleanUpFidt` does.
- The pids of the stream layer are those of existing processes by assumption of its steps; the two
  layers are not one state machine.
- `kernel_pipe.c` and `kernel_socket.c` (stubs), the shell, the unit-test framework, `sys_OpenInfo`,
  `ParseProcInfo`, the exception macros of `util.c` and `util.h`, and printing, Fibonacci numbers and
  tuning in `symposium.c`.
