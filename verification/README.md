# A verified model of the ThreadX-backed C/C++ runtime

This project models the runtime layer that lets standard C and C++ run on
ThreadX and FileX, together with a few of the drivers it leans on, and proves
what that layer promises. ThreadX, FileX, the heap and the hardware appear only
as primitives with assumed contracts: a mutex with an owner, a counting
semaphore, a bounded FIFO queue, a volume whose calls can fail with any status and
then change nothing, a `malloc` whose blocks do not overlap, and a tick source.

`dafny verify dfyconfig.toml` checks everything.

## How it is organised

**Protocols over all interleavings.** `ConditionProtocol`, `ThreadLifecycle`,
`StaticGuard`, `OnceInit`, `ThreadKeys` and `ClockCell` are step systems. A step
is one kernel call or one atomic access together with the local code up to the
next one, so timeouts, aborts, preemption and reuse can fall between any two of
them. Each has an inductive invariant and theorems about every reachable state
or every run, says who can go on when and that every step takes a call further,
and has whole calls or runs from beginning to end. `ThreadProgress` and
`KeyCalls` do the latter for `ThreadLifecycle` and `ThreadKeys`. `WaiterList` is
the condition variable's intrusive doubly linked list again, as objects on the
heap.

**The file layer.** `Paths` proves the cursor loops of the path normaliser
against a stack fold over components. `PathKeys` turns the case-insensitive text
tests into ancestry and relocation of case-folded component sequences, and
`PathMeaning` says what texts, relative paths, names and mounts come to. `Filex`
holds the FileX status codes and their translation into errno, `Mounts` the
resolution of paths to mounts and the backup names. `Volume` and `RenameOutcome`
describe the name space and the five states in which a replace-existing rename
is meant to leave it. `RenamePlan` says what the checks of a rename establish
and what becomes of open paths, `RenameRefusal` why a rename is refused,
`RenameCourse` compares what the volume calls did with what the code believes
they did, `RenameFate` follows every object through them, and `RenameScript` is
the volume phase as a function of the volume and of what its calls meet.
`FileSystem` is the rename itself: a class in which every FileX call may fail
with any status other than success, proved to compute that function.
`RenameWitness` has three runs in which this goes wrong. `DescriptorIO` is one
open file, which is closed and reopened to change direction, with the same
failures.

**Time.** `CounterClock`, `TickExtension`, `TimedWait`, `LinuxTimer` and
`CivilCalendar` treat the source's 32- and 64-bit arithmetic with its overflow
tests, and prove the results equal to unbounded arithmetic where the tests let
them through. `Arithmetic` and `Bits` hold the supporting laws.

**Two refinements.** `EmutlsStorage` is emulated thread-local storage over a
byte-addressed heap, whole programs included; `BpfFilter` interprets the
hand-written packet filter and compares it with the reference EtherType parser.

## What the proofs found

- A condition wait by a thread that does not own its mutex can consume a signal
  and then fail with EPERM (`ConditionProtocol.SwallowedSignal`). With ownership
  the result is exact (`ConditionProtocol.ReturnsZeroIffNotified`).
- A `join` that fails with EINVAL or EAGAIN before it asks for cleanup leaves the
  control block without anyone to clean it up
  (`ThreadLifecycle.LeakedExactlyOnEarlyJoinError`); both ways are runs
  (`ThreadLifecycle.StarvedJoinAbandons`, `ThreadLifecycle.AbortedJoinAbandons`).
  The handle stays joinable. After EAGAIN the completion count is spent, so no later
  join ever gets past its wait (`ThreadLifecycle.StarvedHandleNeverJoins`), but a
  detach still reclaims the block (`ThreadLifecycle.DetachReclaims`).
- The wrap reconstruction returns the true count if and only if the coarse count
  lies within half a modulus of it (`CounterClock.ReconstructIsExactIff`).
- `durationToTicks` inverts the elapsed-time conversion for every counter value
  if and only if the timer runs at 1 GHz or less
  (`LinuxTimer.ConversionInvertsIff`).
- The packet filter admits only frames of its target type if and only if the
  target is not itself a VLAN tag type (`BpfFilter.FilterIsSoundIff`).
- `filex_errno` maps FX_END_OF_FILE and FX_NO_MORE_ENTRIES to 0, so a call that
  fails with one of these codes is taken for a success. Whatever fails, and however,
  a rename leaves a well-formed volume and canonical open paths
  (`FileSystem.RenameIsSafe`). Its report is true if and only if neither the source
  rename (to another entry) nor the deletion of the backup failed in this way
  (`FileSystem.RenameTellsTruthIff`), provided its checks found what is there, which
  they do if none of their own calls failed so. After a silent source rename 0 is
  returned, the destination is destroyed, the source keeps its old name and every
  descriptor on it names nothing (`RenameWitness.SilentSourceRename`).
- A rename can delete its own source. If the probes miss an existing entry, and both
  the backup rename and the source rename fail with such a code, the deletion of the
  backup takes whatever has the backup name, and 0 is returned
  (`RenameWitness.SilentRenamesDeleteSource`). This is the only way: if the checks
  found what is there, the source is under exactly one of its two names if and only
  if the deletion did not take effect on it without the destination being aside
  (`FileSystem.RenameKeepsSourceIff`). For the destination and for all other objects
  see `FileSystem.RenameKeepsDestinationIff` and `FileSystem.RenameConservesObjects`.
- A directory that is to replace the directory it is in goes aside with it if the
  emptiness scan fails silently; if the restore then fails too, it is under neither
  of its names (`FileSystem.RenameTakesSourceAside`,
  `RenameWitness.SilentScanTakesSourceAside`).
- When an open file changes direction, or is reopened after a failed close or open,
  FileX loses the position if and only if the seek back fails and the position is
  not 0 (`DescriptorIO.Descriptor.SwitchMode`). The read that does the switch reports
  it; the next one succeeds, and delivers the bytes at the start of the file
  (`DescriptorIO.ReadAfterLostSeek`).
- An append whose seek fails silently overwrites the file where FileX stands
  (`DescriptorIO.SilentAppendOverwrites`).
- Creating a key 2^24 times in one slot repeats its first generation
  (`ThreadKeys.GenerationsAreUniqueUpTo`).

## Model

| member | source | states |
|---|---|---|
| `WaiterList.Condition.Append` | platform/runtime/libstdcxx/backend.cpp:578-590 | the waiter becomes the last of the FIFO sequence that the first/last/previous/next/linked fields represent |
| `WaiterList.Condition.Bypass` | platform/runtime/libstdcxx/backend.cpp:597-608 | exactly the links around one position, or the ends of the list, are redirected; every other link keeps its value |
| `WaiterList.Condition.Remove` | platform/runtime/libstdcxx/backend.cpp:592-610 | a linked waiter is cut out of the sequence wherever it stands, an unlinked one changes nothing, and the fields still represent the list |
| `WaiterList.Condition.Signal` | platform/runtime/libstdcxx/backend.cpp:1228-1251 | exactly the oldest waiter, if any, is unlinked and its semaphore posted once; no other semaphore changes |
| `WaiterList.Condition.Broadcast` | platform/runtime/libstdcxx/backend.cpp:1253-1276 | every waiter is unlinked and posted exactly once, oldest first, and the list ends empty |
| `ConditionProtocol.StepKeepsInv` | platform/runtime/libstdcxx/backend.cpp:1137-1276 | every step of waits, timeouts, aborts, signals and broadcasts keeps mutual exclusion, FIFO order, one semaphore count per notification and the bookkeeping of who woke whom |
| `ConditionProtocol.RunKeepsInv` | platform/runtime/libstdcxx/backend.cpp:1137-1276 | the invariant holds after every interleaving of any length |
| `ConditionProtocol.ReturnsZeroIffNotified` | platform/runtime/libstdcxx/backend.cpp:1168-1196 | in every reachable state a finished wait whose caller owned the mutex has result 0 if and only if a notifier unlinked it |
| `ConditionProtocol.NotifierWakesWhatItFound` | platform/runtime/libstdcxx/backend.cpp:1228-1276 | a finished signal woke exactly the oldest waiter it found, a finished broadcast all of them in order, and each of these waits has this and no other notifier |
| `ConditionProtocol.OldestReturnsZero` | platform/runtime/libstdcxx/backend.cpp:1228-1251 | the waiter a notifier unlinks is the oldest one, and in every continuation in which its wait returns it returns 0 |
| `ConditionProtocol.LockFindsEveryWaiter` | platform/runtime/libstdcxx/backend.cpp:1156-1176 | a notifier that takes the lock after a waiter released the user mutex finds that waiter unless it is already notified |
| `ConditionProtocol.FoundIsOldestFirst` | platform/runtime/libstdcxx/backend.cpp:578-590 | what a notifier finds is ordered by time of arrival |
| `ConditionProtocol.PostsHitLiveSemaphores` | platform/runtime/libstdcxx/backend.cpp:1178-1194 | no semaphore is posted after its deletion, or twice |
| `ConditionProtocol.NotificationIsStable` | platform/runtime/libstdcxx/backend.cpp:1137-1276 | no continuation takes a notification back |
| `ConditionProtocol.UnownedWaitFails` | platform/runtime/libstdcxx/backend.cpp:1160-1166 | a wait without ownership ends with EPERM or EAGAIN, never with 0 |
| `ConditionProtocol.MutexChangesHands` | platform/runtime/libstdcxx/backend.cpp:1160-1196 | the user mutex is given up by unlocking it and at the start of an owned wait, taken by locking it and at the end of a wait, and untouched by every other step |
| `ConditionProtocol.MutexIsKept` | platform/runtime/libstdcxx/backend.cpp:1195-1196 | whoever has the user mutex keeps it in every continuation without an unlock or a wait of its own |
| `ConditionProtocol.WaitReturnsWithMutex` | platform/runtime/libstdcxx/backend.cpp:1195-1196 | in the step with which a wait returns to a thread that owned the mutex, the thread owns it again |
| `ConditionProtocol.WaitReleasesMutex` | platform/runtime/libstdcxx/backend.cpp:1160-1196 | between release and relock the waiting thread does not own the mutex |
| `ConditionProtocol.FailureIsReported` | platform/runtime/libstdcxx/backend.cpp:1168-1196 | a wait whose semaphore could not be had returns 0 if it was notified all the same, and otherwise that very error, in every continuation |
| `ConditionProtocol.NoSemaphoreNoWait` | platform/runtime/libstdcxx/backend.cpp:1152-1154 | without a semaphore the wait fails with EAGAIN and changes nothing else |
| `ConditionProtocol.SemaphoreIsUsedUp` | platform/runtime/libstdcxx/backend.cpp:1192-1194 | no notification is left on a semaphore that is about to be deleted |
| `ConditionProtocol.CallsRecordThemselves` | platform/runtime/libstdcxx/backend.cpp:1137-1276 | a call starts with its own thread, its ownership of the mutex, or its kind of notification |
| `ConditionProtocol.NotifierIsStable` | platform/runtime/libstdcxx/backend.cpp:1228-1276 | a signal remains a signal and a broadcast a broadcast |
| `ConditionProtocol.WaitsGoOn` | platform/runtime/libstdcxx/backend.cpp:1156-1196 | the next step of a wait is possible if and only if it is not kept waiting by the lock of the condition, the user mutex or the want of a posted notification |
| `ConditionProtocol.NotifiersGoOn` | platform/runtime/libstdcxx/backend.cpp:1228-1276 | the next step of a notifier is possible unless it waits for the lock of the condition |
| `ConditionProtocol.HolderGoesOn` | platform/runtime/libstdcxx/backend.cpp:1156-1276 | whoever holds the lock of the condition can go on |
| `ConditionProtocol.WaitStepsAdvance` | platform/runtime/libstdcxx/backend.cpp:1156-1196 | every step of a wait takes it further, and nobody else's step moves it |
| `ConditionProtocol.NotifierStepsAdvance` | platform/runtime/libstdcxx/backend.cpp:1228-1276 | every step of a notifier takes it further or shortens the list |
| `ConditionProtocol.SwallowedSignal` | platform/runtime/libstdcxx/backend.cpp:1160-1166 | a reachable state in which such a wait was notified and still failed |
| `ThreadLifecycle.StepKeepsInv` | platform/runtime/libstdcxx/backend.cpp:642-917 | every step of create, thread entry, join, detach and the reaper keeps the lifecycle invariant |
| `ThreadLifecycle.RunInv` | platform/runtime/libstdcxx/backend.cpp:642-917 | the lifecycle invariant holds at every point of every run |
| `ThreadLifecycle.QueuedAndFreedOnce` | platform/runtime/libstdcxx/backend.cpp:678-759 | a control block is queued at most once and freed at most once, and once its thread was created only after that thread has completed |
| `ThreadLifecycle.NoUseAfterFree` | platform/runtime/libstdcxx/backend.cpp:688-759 | no enabled step touches a freed block, and none uses its mutex or completion semaphore after the reaper began to delete |
| `ThreadProgress.UntouchedIsUnchanged` | platform/runtime/libstdcxx/backend.cpp:700-756 | whatever changes a block, its mutex or its semaphore is among the steps that are said to touch it |
| `ThreadLifecycle.LookupsNeverFail` | platform/runtime/libstdcxx/backend.cpp:667-725 | the registry lookups of starting threads and of the reaper always succeed, and registered blocks are not freed |
| `ThreadLifecycle.JoinReturnsAfterFree` | platform/runtime/libstdcxx/backend.cpp:846-890 | join returns 0 only after the block is freed and the thread completed, and its acknowledgement semaphore lives until it is posted |
| `ThreadProgress.JoinIsAcknowledged` | platform/runtime/libstdcxx/backend.cpp:753-757 | once the block is freed, a join that waits for its acknowledgement has it and can return, or the reaper is about to post it |
| `ThreadProgress.JoinedRun` | platform/runtime/libstdcxx/backend.cpp:771-890 | a run from the initial state in which a thread is created, finishes and is joined: the join returns 0, the block is freed and unregistered |
| `ThreadProgress.DetachedThreadIsReclaimed` | platform/runtime/libstdcxx/backend.cpp:688-759 | a run in which a thread is detached and finishes: its block is freed and unregistered without an acknowledgement |
| `ThreadProgress.FailedCreationIsUndone` | platform/runtime/libstdcxx/backend.cpp:824-841 | a run in which the thread cannot be created: its block is unregistered and freed |
| `ThreadProgress.ReaperTakesUp` | platform/runtime/libstdcxx/backend.cpp:712-722 | the reaper takes the oldest message and finds its block |
| `ThreadProgress.ReaperDeletes` | platform/runtime/libstdcxx/backend.cpp:747-751 | when the thread has completed, its thread object, mutex and semaphore are deleted |
| `ThreadProgress.ReaperReleases` | platform/runtime/libstdcxx/backend.cpp:752-757 | then exactly this block is unregistered and freed, and a join that asked for it is acknowledged |
| `ThreadProgress.WorkerGoesOn` | platform/runtime/libstdcxx/backend.cpp:688-710 | the next step of a thread is possible unless a join or detach holds its mutex or the queue is full |
| `ThreadProgress.ClaimGoesOn` | platform/runtime/libstdcxx/backend.cpp:846-917 | the exact condition for the next step of a join or detach |
| `ThreadProgress.ReaperGoesOn` | platform/runtime/libstdcxx/backend.cpp:712-759 | the reaper can go on unless there is no message or it polls a thread that has not completed and that can itself go on |
| `ThreadProgress.WorkerStepsAdvance` | platform/runtime/libstdcxx/backend.cpp:688-710 | every step of a thread takes it further |
| `ThreadProgress.ClaimStepsAdvance` | platform/runtime/libstdcxx/backend.cpp:846-917 | every step of a join or detach takes it further or ends it |
| `ThreadProgress.ReaperStepsAdvance` | platform/runtime/libstdcxx/backend.cpp:712-759 | every step of the reaper takes it further with its message, which was the oldest in the queue |
| `ThreadProgress.SecondClaimIsRefused` | platform/runtime/libstdcxx/backend.cpp:869-913 | a block that is detached or queued already refuses a join or detach with EINVAL |
| `ThreadLifecycle.FinishedThreadsAreCleaned` | platform/runtime/libstdcxx/backend.cpp:688-710 | a finished thread that was detached, or whose join asked for cleanup, always has its cleanup pending or done |
| `ThreadLifecycle.LeakedExactlyOnEarlyJoinError` | platform/runtime/libstdcxx/backend.cpp:859-867 | once thread and claimer are done, the block is abandoned if and only if the join failed with EINVAL or EAGAIN before asking for cleanup |
| `ThreadLifecycle.StarvedJoinAbandons` | platform/runtime/libstdcxx/backend.cpp:863-867 | a run in which the acknowledgement cannot be created and the finished block is abandoned |
| `ThreadLifecycle.AbortedJoinAbandons` | platform/runtime/libstdcxx/backend.cpp:859-862 | a run in which the wait for the completion is aborted and the finished block is abandoned |
| `ThreadLifecycle.StarvedHandleNeverJoins` | platform/runtime/libstdcxx/thread.cpp:57-70 | once a join has failed with EAGAIN, in every continuation the completion count is 0, so no retried join gets past its wait |
| `ThreadLifecycle.DetachReclaims` | platform/runtime/libstdcxx/thread.cpp:72-82 | a detach after such a join returns 0, and from then on the cleanup is pending or done |
| `ThreadLifecycle.IdsAreFresh` | platform/runtime/libstdcxx/backend.cpp:642-652 | for the first 2^32 - 1 registrations the new id differs from all registered ones |
| `ThreadProgress.IdsAreValid` | platform/runtime/libstdcxx/backend.cpp:642-652 | ids are never 0 and fit 32 bits, also after the counter has wrapped |
| `ThreadProgress.IdsGoRound` | platform/runtime/libstdcxx/backend.cpp:642-652 | in every run the ids take all the values from 1 to 2^32 - 1 in turn, without end |
| `ThreadLifecycle.LookupFinds` | platform/runtime/libstdcxx/backend.cpp:667-676 | the list search finds the registered block with a unique id |
| `StaticGuard.OneInitializingThread` | platform/runtime/libstdcxx/cxx_guard.cpp:113-145 | at most one thread is inside guarded initialisers, no initialiser is entered twice, and the recursive mutex count equals that thread's nesting depth plus the call under way |
| `StaticGuard.CompletesAtMostOnce` | platform/runtime/libstdcxx/cxx_guard.cpp:147-156 | a guard completes at most once, and its byte says exactly whether it did |
| `StaticGuard.CompletionIsStable` | platform/runtime/libstdcxx/cxx_guard.cpp:113-166 | a completed guard never reverts and is never claimed again |
| `StaticGuard.ZeroMeansCompleted` | platform/runtime/libstdcxx/cxx_guard.cpp:119-134 | acquire has answered 0 only for completed guards |
| `StaticGuard.FatalMeansRecursion` | platform/runtime/libstdcxx/cxx_guard.cpp:136-140 | the fatal branch is taken if and only if the thread re-enters an initialiser it is running |
| `StaticGuard.AbortFreesGuard` | platform/runtime/libstdcxx/cxx_guard.cpp:158-166 | an aborted guard is neither completed nor in progress |
| `StaticGuard.AbortedGuardCanBeClaimed` | platform/runtime/libstdcxx/cxx_guard.cpp:113-145 | with the mutex free, any idle thread can claim an uncompleted guard and gets 1 |
| `StaticGuard.AcquireOfCompleted` | platform/runtime/libstdcxx/cxx_guard.cpp:119-121 | acquire of a completed guard answers 0 without the mutex and changes nothing |
| `StaticGuard.AcquireWithMutex` | platform/runtime/libstdcxx/cxx_guard.cpp:123-145 | with the mutex, and however deeply nested, acquire claims the guard and keeps the mutex once more, or answers 0 and leaves the mutex as it was |
| `StaticGuard.ReleaseCompletes` | platform/runtime/libstdcxx/cxx_guard.cpp:147-156 | release completes its guard and gives the mutex back once |
| `StaticGuard.AbortGivesBack` | platform/runtime/libstdcxx/cxx_guard.cpp:158-166 | abort restores the guard and gives the mutex back once |
| `StaticGuard.CallsGoOn` | platform/runtime/libstdcxx/cxx_guard.cpp:113-166 | a call can go on if and only if it does not wait for a mutex that another thread owns |
| `OnceInit.OnceIsOnce` | platform/runtime/libstdcxx/backend.cpp:1278-1310 | the function never runs twice at once, completes at most once, and a caller got 0 only after the completion, after which it never runs again |
| `OnceInit.ThrownFunctionCanRunAgain` | platform/runtime/libstdcxx/backend.cpp:1278-1310 | after the function has thrown and until somebody claims it, the next caller with the mutex claims it |
| `OnceInit.CallDecides` | platform/runtime/libstdcxx/backend.cpp:1286-1296 | a call that finds the function completed returns 0, one that finds it running tries again, one that finds neither runs it; the mutex is free again |
| `OnceInit.CallEnds` | platform/runtime/libstdcxx/backend.cpp:1294-1306 | after the function has returned the word says so and the call returns 0; after it has thrown the word is as before and the call throws |
| `OnceInit.CallsGoOn` | platform/runtime/libstdcxx/backend.cpp:1278-1310 | every call can go on or waits for the mutex, whose owner can |
| `ThreadKeys.HandleRoundTrip` | platform/runtime/libstdcxx/backend.cpp:181-191 | a handle fits 32 bits and decodes to its index and generation |
| `ThreadKeys.GenerationsAreUniqueUpTo` | platform/runtime/libstdcxx/backend.cpp:942-946 | the n-th creation of a slot has generation n up to 2^24 - 1, and the next one repeats the first |
| `ThreadKeys.FindFree` | platform/runtime/libstdcxx/backend.cpp:938-951 | the search loop returns the first unused definition |
| `ThreadKeys.GetReturnsLastSet` | platform/runtime/libstdcxx/backend.cpp:976-1012 | in every run key_get returns what this thread last stored through this very key, or null, also when the slot is reused between its two halves |
| `ThreadKeys.FreshKeyReadsNull` | platform/runtime/libstdcxx/backend.cpp:930-954 | a key that was just created is live and reads null in every thread |
| `ThreadKeys.DeletedStaysRefused` | platform/runtime/libstdcxx/backend.cpp:956-974 | a deleted handle is refused for ever, however often its slot is reused |
| `KeyCalls.GetReturnsWhatWasSet` | platform/runtime/libstdcxx/backend.cpp:976-1012 | in every run of calls a get returns the value that the last completed set of its thread through this very key was given, null if there was none or an exit has cleared it since; the record is kept from the calls alone |
| `KeyCalls.SetThenGet` | platform/runtime/libstdcxx/backend.cpp:976-1012 | a value that is set through a live key is read back |
| `KeyCalls.SetCall` | platform/runtime/libstdcxx/backend.cpp:994-1012 | a set stores the value it was given, for this thread and key alone |
| `KeyCalls.CheckCalls` | platform/runtime/libstdcxx/backend.cpp:976-1007 | a get or set goes on only with a live key, and with this key and value |
| `KeyCalls.CreateCall` | platform/runtime/libstdcxx/backend.cpp:930-954 | the first free definition is taken with its next generation and the destructor; without one nothing changes |
| `KeyCalls.DeleteCall` | platform/runtime/libstdcxx/backend.cpp:956-974 | exactly this key becomes dead and its definition free; a dead handle changes nothing |
| `KeyCalls.DeletionIsFinal` | platform/runtime/libstdcxx/backend.cpp:956-974 | a live key is dead for ever once it has been deleted |
| `KeyCalls.LiveUntilDeleted` | platform/runtime/libstdcxx/backend.cpp:930-974 | nothing but its own deletion makes a live key dead |
| `KeyCalls.StartCall` | platform/runtime/libstdcxx/backend.cpp:801-807 | a thread starts with null in all slots |
| `ThreadKeys.DestructorIsOwedIff` | platform/runtime/libstdcxx/backend.cpp:1024-1032 | a destructor is owed for exactly the live keys that were created with one and through which the thread has last stored something |
| `ThreadKeys.VisitIndex` | platform/runtime/libstdcxx/backend.cpp:1024-1037 | one index of the table: its result is AfterVisit and the invocation it makes, if any, is VisitCalls for that start state and turn of the other threads |
| `ThreadKeys.DestructorSeesNull` | platform/runtime/libstdcxx/backend.cpp:1024-1037 | before a destructor runs, its slot is null and its key reads null; the destructor and the calls it makes come after |
| `ThreadKeys.VisitIsProper` | platform/runtime/libstdcxx/backend.cpp:1024-1037 | an index calls a destructor only with the thread's last value of the very key it was created for, in a state that the exit has reached; an index that calls none owes none there |
| `ThreadKeys.PlayContinuesRun` | platform/runtime/libstdcxx/backend.cpp:930-1042 | what other threads and destructors do between the steps of an exit continues a run |
| `ThreadKeys.PassIsProper` | platform/runtime/libstdcxx/backend.cpp:1022-1038 | every invocation of a pass is proper and reachable from the start of the pass; a pass without invocations leaves no value undestroyed |
| `ThreadKeys.ExitIsProper` | platform/runtime/libstdcxx/backend.cpp:1015-1042 | the same for the loop of passes: at most four, all invocations proper, and an early finish leaves no value that a destructor is owed |
| `ThreadKeys.RunPass` | platform/runtime/libstdcxx/backend.cpp:1022-1038 | the loop over the indices computes Pass, final state and invocations alike |
| `ThreadKeys.RunDestructors` | platform/runtime/libstdcxx/backend.cpp:1015-1042 | the loop over the passes computes Passes: the final state, the invocations with the states they look at, the number of passes and whether it finished early, for any behaviour of destructors and other threads |
| `ClockCell.ResultCoversCandidate` | platform/runtime/libstdcxx/backend.cpp:340-348 | every call returns at least its candidate, and the cell holds the largest value published so far |
| `ClockCell.TimeNeverDecreases` | platform/runtime/libstdcxx/backend.cpp:340-348 | a call that begins after another returned does not return less, under any interleaving and spurious failures |
| `ClockCell.PublishedTimeIsNear` | platform/runtime/libstdcxx/backend.cpp:1415-1431 | with candidates computed from the clock readings: whichever clock answers in whichever call, a published time is behind its own reading, or ahead of the latest reading of all, by at most the error of the clocks |
| `ClockCell.NothingExceeds` | platform/runtime/libstdcxx/backend.cpp:340-348 | the cell holds no time that no call has read |
| `ClockCell.FallbackKeepsOrder` | platform/runtime/libstdcxx/backend.cpp:1415-1431 | when the fine clock answers one call and no longer a later one, each result covers its own clock, the later is not less than the earlier, and it is ahead of the latest reading by at most the error |
| `ClockCell.CandidateIs` | platform/runtime/libstdcxx/backend.cpp:1415-1431 | the candidate is the uptime without an epoch, and otherwise the epoch plus what the better clock that answers says, saturated |
| `ClockCell.UndisturbedCall` | platform/runtime/libstdcxx/backend.cpp:340-348 | a call that is not disturbed publishes and returns the later of its candidate and the cell |
| `CounterClock.TicksToNanosecondsIsExact` | platform/runtime/libstdcxx/backend.cpp:70-82 | the conversion is the exact product, saturated, and no intermediate overflows |
| `CounterClock.ThreadTicksConversionIsExact` | platform/runtime/libstdcxx/backend.cpp:249-261 | the conversion is the exact floor, and is refused exactly when that exceeds 64 bits |
| `CounterClock.CounterConversionIsExact` | platform/runtime/libstdcxx/backend.cpp:263-277 | the conversion is the exact floor in nanoseconds, refused exactly when it exceeds the signed range |
| `CounterClock.ModularElapsedIsRemainder` | platform/runtime/libstdcxx/backend.cpp:303-307 | the modular difference of two readings is the true elapsed count modulo the modulus |
| `CounterClock.ReconstructIsSound` | platform/runtime/libstdcxx/backend.cpp:315-335 | any accepted count is congruent to the reading, within half a modulus of the coarse count and below 2^64 |
| `CounterClock.ReconstructIsExactIff` | platform/runtime/libstdcxx/backend.cpp:315-335 | the reconstruction returns the true count if and only if the coarse count is within half a modulus of it |
| `CounterClock.ElapsedIsExact` | platform/runtime/libstdcxx/backend.cpp:279-338 | the whole reading is the floor of the true elapsed time in nanoseconds, whatever number of wraps was lost |
| `CounterClock.ElapsedIsSound` | platform/runtime/libstdcxx/backend.cpp:278-334 | whatever result a wrapping counter gives is that of a count which its readings allow and the coarse clock corroborates |
| `CounterClock.FreeRunningElapsed` | platform/runtime/libstdcxx/backend.cpp:293-298 | a counter that never wraps gives the exact distance, and nothing if it went back or does not fit |
| `CounterClock.CounterStaysInUseIff` | platform/runtime/libstdcxx/backend.cpp:281-290 | the counter stays in use if and only if it can be read and version, frequency and modulus are those of the epoch |
| `TickExtension.TickCounter.Sample` | platform/runtime/libstdcxx/backend.cpp:1393-1411 | with samples less than 2^32 ticks apart the result is the unbounded tick count since initialisation, up to the wraps before it |
| `TickExtension.ExtensionIsExact` | platform/runtime/libstdcxx/backend.cpp:1402-1411 | the same for every element of every history of samples |
| `TickExtension.SteadyTimeIsMonotone` | platform/runtime/libstdcxx/backend.cpp:1393-1413 | steady ticks and steady nanoseconds never run backwards over such a history |
| `TimedWait.DurationToTicksIsCeiling` | platform/runtime/libstdcxx/backend.cpp:1433-1448 | the result is the smaller of the ceiling and the longest finite wait; never 0 for a positive duration and never "forever" |
| `TimedWait.DeadlinesAre` | platform/runtime/libstdcxx/backend.cpp:496-508 | seconds count in full, nanoseconds are clamped to one second, a negative second is in the past and one too large is the last moment of 64 bits |
| `TimedWait.DeadlineWaitIsFinite` | platform/runtime/libstdcxx/backend.cpp:496-523 | the wait is "do not wait" if and only if the deadline is reached, and otherwise the least number of ticks that reaches it, unless capped |
| `TimedWait.RetryLoop` | platform/runtime/libstdcxx/backend.cpp:525-547 | the loop ends if timed-out waits use time up, and its result is decided by its last attempt |
| `TimedWait.WaitUntil` | platform/runtime/libstdcxx/backend.cpp:525-547 | ETIMEDOUT is reported if and only if the last clock reading had reached the deadline and a last no-wait attempt failed; it terminates if every timed-out wait advances the clock |
| `TimedWait.SleepTicksCover` | platform/runtime/libstdcxx/backend.cpp:1450-1459 | for every 64-bit duration the tick count is the ceiling and fits 64 bits |
| `TimedWait.SleepFor` | platform/runtime/libstdcxx/backend.cpp:1450-1471 | the chunks add up to the ceiling, every kernel sleep is finite, the time slept is the sum of those sleeps, and it is at least the time asked for |
| `TimedWait.ChunksSuffice` | platform/runtime/libstdcxx/backend.cpp:1450-1471 | kernel sleeps of one tick more than each chunk last at least as long as the chunks together |
| `Paths.NormalizePath` | platform/runtime/libc/filesystem.cpp:179-248 | the buffer receives exactly the rendering of the stack fold over current directory and path, with ENOENT, ENAMETOOLONG and EACCES exactly as specified; the two length exits inside the loop are unreachable |
| `Paths.NormalizeSource` | platform/runtime/libc/filesystem.cpp:204-247 | the cursor loop over the assembled text computes the fold of its components |
| `Paths.DropLast` | platform/runtime/libc/filesystem.cpp:220-233 | ".." removes exactly the last component from the buffer |
| `Paths.AppendName` | platform/runtime/libc/filesystem.cpp:234-245 | a component is appended with one separator, and there is always room |
| `Paths.RenderRoundTrip` | platform/runtime/libc/filesystem.cpp:179-248 | splitting a rendered stack of names gives the stack back |
| `Paths.CanonicalText` | platform/runtime/libc/filesystem.cpp:179-248 | a rendered stack has a leading slash, no backslash, no empty component and no trailing slash unless it is the root |
| `Paths.NormalizeIsCanonical` | platform/runtime/libc/filesystem.cpp:179-248 | every accepted result is canonical and shorter than the buffer |
| `Paths.NormalizeIsIdempotent` | platform/runtime/libc/filesystem.cpp:179-248 | normalising a canonical path changes nothing, in whatever directory |
| `Paths.EscapesIffPrefixUnderflows` | platform/runtime/libc/filesystem.cpp:220-233 | the fold is refused, as EACCES, if and only if some prefix of the components pops more than it pushed |
| `PathMeaning.RelativePath` | platform/runtime/libc/filesystem.cpp:179-248 | a relative path is the rendering of its components obeyed from the current directory on, EACCES if they escape the root, ENAMETOOLONG exactly if it does not fit behind the directory and a separator |
| `PathMeaning.AbsolutePath` | platform/runtime/libc/filesystem.cpp:179-248 | a path that starts with a slash or backslash is obeyed from the root on |
| `PathMeaning.ComponentsSplit` | platform/runtime/libc/filesystem.cpp:204-219 | a text splits into components wherever there is a separator |
| `PathMeaning.WordIsComponent` | platform/runtime/libc/filesystem.cpp:204-219 | a text without separators is one component |
| `PathMeaning.SeparatorsAreNothing` | platform/runtime/libc/filesystem.cpp:204-219 | slashes and backslashes are no components |
| `PathMeaning.ObeyInTurn` | platform/runtime/libc/filesystem.cpp:220-245 | components are obeyed one after the other |
| `PathMeaning.ObeyOne` | platform/runtime/libc/filesystem.cpp:220-245 | "." stays, ".." goes up and fails at the root, anything else goes down |
| `PathKeys.PathHasPrefix` | platform/runtime/libc/filesystem.cpp:259-270 | the comparison loop decides the textual prefix relation up to case, also when the path is shorter |
| `PathMeaning.NamesFold` | platform/runtime/libc/filesystem.cpp:250-257 | names are the same if and only if they are equal up to the case of ASCII letters |
| `PathKeys.PrefixIsAncestry` | platform/runtime/libc/filesystem.cpp:259-270 | on canonical paths the prefix test with descendants is ancestry of case-folded component sequences |
| `PathKeys.ExactPrefixIsEquality` | platform/runtime/libc/filesystem.cpp:259-275 | without descendants it is equality of those sequences |
| `PathKeys.MigrateIsRebase` | platform/runtime/libc/filesystem.cpp:331-348 | migrating a canonical path yields a canonical path whose key is relocated from the old to the new directory |
| `PathKeys.MigrateExactIsRebase` | platform/runtime/libc/filesystem.cpp:331-348 | for a file exactly the paths naming it change, to its new name |
| `Mounts.LocalKey` | platform/runtime/libc/filesystem.cpp:282-310 | a canonical path that resolves to an entry of a volume has a key below that mount |
| `PathMeaning.PathIsOnMount` | platform/runtime/libc/filesystem.cpp:282-310 | a canonical path is the root, or on the mount that its first name is, at its own depth, ENODEV if that is not mounted and ENOENT if there is none |
| `Mounts.BackupKey` | platform/runtime/libc/filesystem.cpp:473-499 | a backup path is canonical, fits the buffer and lies directly below its mount |
| `PathMeaning.BackupNamesDiffer` | platform/runtime/libc/filesystem.cpp:473-499 | different sequence numbers give different backup names, whatever the case |
| `PathMeaning.CandidatesDiffer` | platform/runtime/libc/filesystem.cpp:473-509 | the 256 numbers probed for one rename differ, across the wrap |
| `PathMeaning.BackupIsAvailableIff` | platform/runtime/libc/filesystem.cpp:473-509 | a backup name is available if and only if one of the names with the next 256 numbers, modulo 2^20, is free |
| `FileSystem.FileSystem.Information` | platform/runtime/libc/filesystem.cpp:350-404 | success on a volume path means that the entry exists with the reported kind, or that the call failed silently and is taken for a file |
| `FileSystem.FileSystem.RenameEntry` | platform/runtime/libc/filesystem.cpp:406-429 | the entry and everything below it moves exactly when FileX accepts the move and the call does not fail, otherwise the volume is unchanged; 0 means moved or failed silently |
| `FileSystem.FileSystem.RequireEmptyDirectory` | platform/runtime/libc/filesystem.cpp:442-471 | success means that the directory has no children, unless setting the default directory or the scan failed silently; the first of the three calls to fail with an error decides, but the reset only if the directory is empty |
| `FileSystem.FileSystem.FindRenameBackup` | platform/runtime/libc/filesystem.cpp:473-509 | if no probe fails, a free one of the 256 probed names is found if there is one, across the wrap of the sequence number; if every probe fails with FX_NOT_FOUND, it is the first name, free or not |
| `FileSystem.FileSystem.ResolvePath` | platform/runtime/libc/filesystem.cpp:312-318 | success if and only if normalisation and mount resolution succeed, with the canonical path and the place as results |
| `FileSystem.FileSystem.CheckMigrations` | platform/runtime/libc/filesystem.cpp:1141-1162 | success if and only if the directory does not move into itself and every migrated path fits its buffer |
| `FileSystem.FileSystem.Examine` | platform/runtime/libc/filesystem.cpp:1116-1134 | success yields two canonical names on one volume and, unless the query failed silently, an existing source of the reported kind; if nothing fails every such pair is accepted |
| `FileSystem.FileSystem.CheckDestination` | platform/runtime/libc/filesystem.cpp:1175-1209 | a destination that is to be replaced is occupied neither by a descriptor nor by the current directory and, unless the query failed silently, exists with the source's kind; if the query does not fail the error is exactly that of the reason for refusal |
| `FileSystem.FileSystem.CheckEmptyAndFlush` | platform/runtime/libc/filesystem.cpp:1210-1227 | a directory that is to be replaced has no children, unless the scan failed silently; a failed flush of a source that is open is the answer, and a source that is not open is not flushed |
| `FileSystem.FileSystem.Prepare` | platform/runtime/libc/filesystem.cpp:1116-1227 | all checks in order: what passes is a pair of names on one volume whose migrations fit, with an unoccupied destination, and what the checks found is right unless a check failed silently; if nothing fails every acceptable rename passes |
| `RenameRefusal.PlansAreRefused` | platform/runtime/libc/filesystem.cpp:1130-1227 | the first reason that applies, and its error: EINVAL into itself, ENAMETOOLONG, ENOTDIR and EISDIR for the other kind, EBUSY if occupied, ENOTEMPTY |
| `RenameRefusal.NamesAreRefused` | platform/runtime/libc/filesystem.cpp:1116-1134 | ENOENT for a missing source, EBUSY for a mount, EXDEV across mounts |
| `RenameRefusal.OccupiedIff` | platform/runtime/libc/filesystem.cpp:1186-1204 | the text tests find out whether a descriptor or the current directory is at the destination, or below it if it is a directory |
| `FileSystem.FileSystem.DeleteEntry` | platform/runtime/libc/filesystem.cpp:431-440 | exactly this childless entry is gone exactly when FileX accepts the deletion and the call does not fail, otherwise the volume is unchanged; 0 means deleted or failed silently |
| `FileSystem.FileSystem.Restore` | platform/runtime/libc/filesystem.cpp:1243-1254 | the restore keeps the volume a tree even if the backup rename was only believed, and the volume is what the course of calls made of it |
| `FileSystem.FileSystem.RenameSource` | platform/runtime/libc/filesystem.cpp:1240-1242 | the source has moved, legally, or nothing changed, and the result is 0 exactly when it moved or the call failed silently |
| `FileSystem.FileSystem.DeleteBackup` | platform/runtime/libc/filesystem.cpp:1255-1258 | the backup is deleted or nothing changed, and the result is 0 exactly when it was deleted or the call failed silently |
| `FileSystem.FileSystem.FollowUp` | platform/runtime/libc/filesystem.cpp:1243-1258 | after a rename that is believed the backup is deleted, otherwise the destination is restored, and a restore error replaces the error of the rename |
| `FileSystem.FileSystem.SetDestinationAside` | platform/runtime/libc/filesystem.cpp:1232-1238 | the destination moves to the name that the search came up with exactly if FileX accepts the move and the call does not fail; 0 means that it moved or the call failed silently |
| `FileSystem.FileSystem.FinishReplacement` | platform/runtime/libc/filesystem.cpp:1240-1258 | for any failures, silent or not, of the source rename, the restore and the delete, the run is FinishPlay of the volume and of what these calls met, the volume is what the calls that took effect made of it, and 0 is returned exactly if the play is believed to have succeeded |
| `FileSystem.FileSystem.MigratePaths` | platform/runtime/libc/filesystem.cpp:1259-1275 | every descriptor in use and, for a directory, the current directory is migrated, and nothing else changes |
| `FileSystem.FileSystem.Rename` | platform/runtime/libc/filesystem.cpp:1106-1282 | for every pattern of FileX failures with any status the volume stays a tree and the paths stay canonical and within their buffers, the run is Played of the volume and of what its calls met, a call that fails loudly is reported with its error, and the exact conditions of the next rows hold; if the checks do not fail, exactly the renames with a reason for refusal are refused, with that error; a check whose calls fail with an error, other than ENOENT for the destination, stops every rename that comes to it; if nothing but a source rename fails, and that silently, every rename for which there is room returns 0 |
| `FileSystem.RenameIsSafe` | platform/runtime/libc/filesystem.cpp:1106-1282 | no pattern of failures, silent or not, breaks the tree or a path buffer |
| `FileSystem.FailedRenameIsUndone` | platform/runtime/libc/filesystem.cpp:1240-1254 | a rename whose source rename fails with an error, and whose restore works, changes nothing |
| `FileSystem.RenameTellsTruthIff` | platform/runtime/libc/filesystem.cpp:122-160 | if what the checks found is right, the run ends in one of the five states with a true result if and only if neither the rename of the source to another entry nor the deletion of the backup failed silently |
| `FileSystem.RenameKeepsPaths` | platform/runtime/libc/filesystem.cpp:1259-1275 | if what the checks found is right and no such source rename failed silently, every descriptor and the current directory names the same object as before |
| `FileSystem.RenameKeepsPathsIff` | platform/runtime/libc/filesystem.cpp:1259-1275 | with a descriptor in use on the source or below it, this is an equivalence |
| `FileSystem.SilentRenameDestroys` | platform/runtime/libc/filesystem.cpp:1240-1258 | when 0 is returned after a silent failure of the source rename alone, exactly the destination is gone and the source has not moved |
| `FileSystem.RenameKeepsObjectIff` | platform/runtime/libc/filesystem.cpp:1232-1258 | for every pattern of failures, and whether or not the checks were right, each object is under exactly one name, which is computed from the calls that took effect, or gone if the deletion hit that name |
| `FileSystem.RenameKeepsSourceIff` | platform/runtime/libc/filesystem.cpp:1240-1258 | if what the checks found is right, the source is under exactly one of its two names if and only if the deletion did not hit it; that needs a backup rename and a source rename that both failed silently, and then 0 is returned |
| `FileSystem.RenameKeepsDestinationIff` | platform/runtime/libc/filesystem.cpp:1232-1258 | a destination is under exactly one of its own and the backup name if and only if the deletion did not hit it, and otherwise 0 is returned |
| `FileSystem.RenameConservesObjects` | platform/runtime/libc/filesystem.cpp:1232-1258 | no object appears, and the only one that can disappear is the one that the deletion hits: the destination if it is aside, else whatever has the backup name |
| `FileSystem.RenameTakesSourceAside` | platform/runtime/libc/filesystem.cpp:1210-1258 | a source below its destination goes aside with it and is under one of its two names again exactly if the restore takes effect |
| `RenameFate.ObjectIsKeptIff` | platform/runtime/libc/filesystem.cpp:1232-1258 | the fate of one object in any legal course of the four volume calls |
| `RenameFate.OneObjectIsDeleted` | platform/runtime/libc/filesystem.cpp:1255-1258 | a deletion takes exactly one object, the one whose home is the backup name |
| `RenameFate.SourceIsKeptIff` | platform/runtime/libc/filesystem.cpp:1240-1258 | the exact condition for the source, for one course of calls |
| `RenameFate.DestinationIsKeptIff` | platform/runtime/libc/filesystem.cpp:1232-1258 | the exact condition for the destination, for one course of calls |
| `RenameFate.ObjectsAreConservedBut` | platform/runtime/libc/filesystem.cpp:1232-1258 | conservation for one course of calls |
| `RenameScript.PlayedFlows` | platform/runtime/libc/filesystem.cpp:1228-1258 | the function of the volume phase follows the branches of the code: which calls are made, believed and reported |
| `RenameScript.GentlePlaySucceeds` | platform/runtime/libc/filesystem.cpp:1228-1258 | if nothing but the source rename fails, and that silently, and there is room, the play is reported as a success |
| `RenameScript.FailureIsUndone` | platform/runtime/libc/filesystem.cpp:1240-1254 | after a loud failure of the source rename a working restore gives back the original name space |
| `Filex.SilentCodes` | platform/runtime/libc/filesystem.cpp:122-160 | exactly FX_END_OF_FILE and FX_NO_MORE_ENTRIES are taken for success |
| `RenameWitness.SilentSourceRename` | platform/runtime/libc/filesystem.cpp:1106-1282 | a run with such a failure on two files: 0 is returned, the other file is gone, the source keeps its name and its descriptor names nothing |
| `RenameWitness.SilentRenamesDeleteSource` | platform/runtime/libc/filesystem.cpp:1232-1258 | a run on two files, the source having the first backup name, in which the probe misses it and both renames fail silently: 0 is returned and the source is gone |
| `RenameWitness.SilentScanTakesSourceAside` | platform/runtime/libc/filesystem.cpp:1210-1258 | a run in which a directory is renamed onto the directory it is in, the scan fails silently and the restore fails: an error is returned and the source is under neither name |
| `RenameCourse.FinalIsWellFormed` | platform/runtime/libc/filesystem.cpp:1232-1258 | whichever of the four volume calls took effect, the volume is a tree |
| `RenameCourse.CourseIsExplained` | platform/runtime/libc/filesystem.cpp:1232-1258 | without a silent source rename every course of the calls is one of the five states, with the paths migrated exactly if the source moved |
| `RenameCourse.TruthfulIff` | platform/runtime/libc/filesystem.cpp:122-160 | the exact condition for one course of calls |
| `RenameCourse.SilentSourceLies` | platform/runtime/libc/filesystem.cpp:1240-1242 | a silent source rename is reported as a move that did not happen |
| `RenameCourse.SilentDeleteLies` | platform/runtime/libc/filesystem.cpp:1255-1258 | a silent deletion is reported as success although the old destination is still there under its backup name |
| `RenameCourse.SilentSourceLosesDescriptors` | platform/runtime/libc/filesystem.cpp:1259-1264 | after a silent source rename no descriptor on the source names its object |
| `RenamePlan.PathsStayValid` | platform/runtime/libc/filesystem.cpp:1148-1162 | the length checks make every migrated path canonical and shorter than 256 characters |
| `RenamePlan.DescriptorsKeepObjects` | platform/runtime/libc/filesystem.cpp:1259-1264 | after any of the five outcomes every descriptor names the object it named before |
| `RenamePlan.DirectoryKeepsObject` | platform/runtime/libc/filesystem.cpp:1265-1266 | after any of the five outcomes the current directory names the object it named before |
| `Volume.MoveIsWellFormedIff` | platform/runtime/libc/filesystem.cpp:1141-1146 | a move that FileX accepts keeps the volume a tree if and only if the entry does not move below itself, which is the case the rename refuses |
| `Volume.MoveBack` | platform/runtime/libc/filesystem.cpp:1243-1254 | moving an entry to a free name and back restores the volume |
| `RenameOutcome.OutcomeIsWellFormed` | platform/runtime/libc/filesystem.cpp:1232-1258 | every outcome leaves parents that are directories and one name per object |
| `RenameOutcome.SourceHasOneName` | platform/runtime/libc/filesystem.cpp:1240-1242 | in each of the five outcomes the source object is under exactly one of its old and new names, and no other |
| `RenameOutcome.DestinationIsKept` | platform/runtime/libc/filesystem.cpp:1232-1258 | in each of the five outcomes a replaced destination is under its own name or a name that was unused, and gone only in the outcome that is reported as 0 |
| `RenameOutcome.EntryIsKept` | platform/runtime/libc/filesystem.cpp:1259-1275 | every other entry survives under the name that path migration computes |
| `RenameOutcome.ObjectsAreConserved` | platform/runtime/libc/filesystem.cpp:1232-1258 | in each of the five outcomes no object appears, and the only one that can disappear is the replaced destination |
| `RenameOutcome.RestoreUndoes` | platform/runtime/libc/filesystem.cpp:1243-1254 | a restore after a failed source rename gives back the original name space |
| `DescriptorIO.Descriptor.SwitchMode` | platform/runtime/libc/filesystem.cpp:511-539 | closing and reopening keeps the position whatever fails, and FileX stands at it if and only if the seek back did not fail or it is 0; a lost seek leaves the file open in the other direction at its start, with the error of that seek |
| `DescriptorIO.Descriptor.Read` | platform/runtime/libc/filesystem.cpp:824-877 | acts on the plain (contents, position) file, errors included; a failure that does no harm is reported and changes nothing; FileX is not at the position afterwards if and only if a switch has lost a position other than 0 and reported that; a read without a switch delivers what is at the FileX offset, and after a silently lost seek the start of the file |
| `DescriptorIO.Descriptor.Write` | platform/runtime/libc/filesystem.cpp:879-934 | the same for writes; appends land at the end; an append whose seek fails moves the position to the end and nothing else if it fails loudly, and overwrites the file where FileX stands if it fails silently |
| `DescriptorIO.Descriptor.Seek` | platform/runtime/libc/filesystem.cpp:936-1004 | if no call fails, a seek goes to the offset, to the position plus the offset or to the end plus the offset, EINVAL if that is negative or the origin unknown, EOVERFLOW if it or its base is beyond the limit; a failure that does no harm changes nothing; beyond the end of the file the position becomes the target and FileX does not follow it |
| `DescriptorIO.Descriptor.Extend` | platform/runtime/libc/filesystem.cpp:1427-1437 | whatever fails, the chunked loop writes zeros in one piece, at the end unless the seek there failed silently, and whole chunks if a chunk fails loudly; without harm exactly the zeros that are missing, or none |
| `DescriptorIO.Descriptor.WriteZeros` | platform/runtime/libc/filesystem.cpp:1432-1435 | one chunk extends the zeros exactly if its write does not fail |
| `DescriptorIO.Descriptor.Resize` | platform/runtime/libc/filesystem.cpp:1422-1438 | the file is cut or extended with zeros to the length, or unchanged after a failure that does no harm |
| `DescriptorIO.Descriptor.Truncate` | platform/runtime/libc/filesystem.cpp:1404-1450 | the file is cut or zero-extended to the length and the position clamped to it; a failure that does no harm changes nothing; an extension that fails after its first seek leaves a prefix of the zeros, the position as it was and FileX at the end |
| `DescriptorIO.Descriptor.Reposition` | platform/runtime/libc/filesystem.cpp:1443-1448 | the position is clamped, and if the seek to it fails FileX stays where it was |
| `DescriptorIO.Descriptor.Run` | platform/runtime/libc/filesystem.cpp:824-1004 | any sequence of operations is, up to the first seek beyond the end of the file and if no FileX failure does harm, one of a plain file on which operations may fail, and if no FileX call fails it gives the replies and the final file of the plain file |
| `DescriptorIO.ReadAfterLostSeek` | platform/runtime/libc/filesystem.cpp:511-539 | a run in which the seek back fails: the first read reports it, the next delivers the start of the file, where nothing was left to read |
| `DescriptorIO.SilentAppendOverwrites` | platform/runtime/libc/filesystem.cpp:917-921 | a run in which the seek of an append fails silently: the contents are replaced and the write is reported as a success |
| `DescriptorIO.WriteThenRead` | platform/runtime/libc/filesystem.cpp:879-934 | what was written is read back, and every other byte is as before |
| `DescriptorIO.ReadLaw` | platform/runtime/libc/filesystem.cpp:824-877 | a read delivers what was asked for or all that is left, from the position on, and moves the position behind it; EINVAL and EBADF change nothing |
| `DescriptorIO.WriteLaw` | platform/runtime/libc/filesystem.cpp:879-934 | byte by byte what a write leaves, at the position or the end |
| `DescriptorIO.TruncateLaw` | platform/runtime/libc/filesystem.cpp:1404-1450 | byte by byte what a truncation leaves, and where the position is |
| `DescriptorIO.SeekLaw` | platform/runtime/libc/filesystem.cpp:957-1003 | the three bases, the two range errors and the unknown origin |
| `LinuxTimer.CounterAfterIsExact` | platform/hal/drivers/impl/linux/Timer.cpp:309-324 | for every 64-bit elapsed time the reduced computation is start value plus whole ticks modulo the period, and no product overflows |
| `LinuxTimer.RestartLosesAtMostOne` | platform/hal/drivers/impl/linux/Timer.cpp:112-127 | capturing and restarting at any instant loses at most one tick |
| `LinuxTimer.DelayIsLeast` | platform/hal/drivers/impl/linux/Timer.cpp:332-345 | the delay is the shortest time in which that many ticks pass |
| `LinuxTimer.DelayReachesOverflow` | platform/hal/drivers/impl/linux/Timer.cpp:332-345 | after the computed delay the counter has passed its overflow, and the delay fits 64 bits |
| `LinuxTimer.DurationToTicksIsCeiling` | platform/hal/drivers/impl/linux/Timer.cpp:249-272 | the smaller of the ceiling and the largest tick value |
| `LinuxTimer.ConversionInvertsIff` | platform/hal/drivers/impl/linux/Timer.cpp:285-296 | converting a counter value to time and back is the identity on all counter values if and only if the frequency is at most 1 GHz |
| `LinuxTimer.Timer.GetCounter` | platform/hal/drivers/impl/linux/Timer.cpp:159-163 | the value the true clock implies, running or stopped |
| `LinuxTimer.Timer.Frequency` | platform/hal/drivers/impl/linux/Timer.cpp:326-330 | the input frequency divided by the prescaler plus one, rounded down |
| `LinuxTimer.Timer.CaptureCounter` | platform/hal/drivers/impl/linux/Timer.cpp:347-352 | the stored counter becomes the value the true clock implies |
| `LinuxTimer.Timer.Start` | platform/hal/drivers/impl/linux/Timer.cpp:112-155 | fails exactly at frequency 0; otherwise counting goes on from the true counter and the version advances |
| `LinuxTimer.Timer.Stop` | platform/hal/drivers/impl/linux/Timer.cpp:129-138 | the true counter is kept |
| `LinuxTimer.Timer.SetAutoReload` | platform/hal/drivers/impl/linux/Timer.cpp:180-189 | the count so far is kept, the new period applies from now on |
| `LinuxTimer.Timer.SetPrescaler` | platform/hal/drivers/impl/linux/Timer.cpp:197-206 | the count so far is kept, the new rate applies from now on |
| `LinuxTimer.Timer.SetCounter` | platform/hal/drivers/impl/linux/Timer.cpp:165-172 | counting goes on from the given value, reduced by the period |
| `LinuxTimer.Timer.SetPeriod` | platform/hal/drivers/impl/linux/Timer.cpp:274-283 | the period is the ceiling of the duration in ticks, so that the overflow comes no earlier than the duration unless the period is capped |
| `LinuxTimer.Timer.NanosecondsUntilOverflow` | platform/hal/drivers/impl/linux/Timer.cpp:332-345 | the delay of a running timer is never shorter than the time to its overflow |
| `CivilCalendar.NextDayIsOneMore` | platform/hal/drivers/impl/stm32/Rtc.cpp:19-53 | for every valid date of any year, the next date is valid and its day number is one more |
| `CivilCalendar.DayNumberCountsDays` | platform/hal/drivers/impl/stm32/Rtc.cpp:40-53 | counting n days from 1 January 1970 by the month lengths gives the date with day number n |
| `CivilCalendar.DayNumberOrdersDates` | platform/hal/drivers/impl/stm32/Rtc.cpp:40-53 | day numbers order valid dates exactly as the calendar does |
| `CivilCalendar.TimestampsFollowCalendar` | platform/hal/drivers/impl/stm32/Rtc.cpp:86-105 | accepted readings give seconds in calendar order, if and only if, and a nanosecond part below 10^9 |
| `CivilCalendar.ReadingsAreAcceptedIff` | platform/hal/drivers/impl/stm32/Rtc.cpp:86-98 | a reading is accepted if and only if it is a valid date and time of day and its sub-second count has not run over |
| `CivilCalendar.NextSecondIsOneMore` | platform/hal/drivers/impl/stm32/Rtc.cpp:86-105 | what the registers show a second later is one second more, at midnight and at the end of months and years too |
| `CivilCalendar.EpochOfTheClock` | platform/hal/drivers/impl/stm32/Rtc.cpp:86-105 | the clock's epoch is 946684800 seconds after that of 1970 |
| `CivilCalendar.NanosecondsAreExact` | platform/hal/drivers/impl/stm32/Rtc.cpp:99-101 | the nanoseconds are the elapsed part of the second, rounded down |
| `CivilCalendar.SubSecondsRunDown` | platform/hal/drivers/impl/stm32/Rtc.cpp:99-101 | within a second a lower sub-second count is a later time |
| `EmutlsStorage.AlignUpIsAligned` | platform/runtime/libstdcxx/tls.cpp:160-161 | the masked 32-bit sum is the next multiple of a power-of-two alignment |
| `EmutlsStorage.HomeForIsOk` | platform/runtime/libstdcxx/tls.cpp:146-172 | the object is aligned and lies with its back pointer inside its own allocation |
| `EmutlsStorage.BlockIsUsedUp` | platform/runtime/libstdcxx/tls.cpp:156-161 | no smaller block would do: where malloc leaves the most padding, the object ends where its block ends |
| `EmutlsStorage.StoreHolds` | platform/runtime/libstdcxx/tls.cpp:165-170 | the initialiser lands in the object's bytes and nowhere else |
| `EmutlsStorage.ObjectsStartAs` | platform/runtime/libstdcxx/tls.cpp:165-170 | an object starts with the bytes of its initialiser, or with zeros |
| `EmutlsStorage.TemplatesAreAcceptedIff` | platform/runtime/libstdcxx/tls.cpp:146-159 | a template is accepted if and only if its alignment is a power of two, it fits 32 bits with pointer and padding, and its initialiser has its size |
| `EmutlsStorage.GrowthMakesRoom` | platform/runtime/libstdcxx/tls.cpp:121-144 | a grown or first array has room for the offset, and growth succeeds for offsets up to 2^28 |
| `EmutlsStorage.CapacitiesAre` | platform/runtime/libstdcxx/tls.cpp:121-133 | doubled, grown to the offset or to 32 entries more, and the only overflow |
| `EmutlsStorage.ArraysAreAcceptedIff` | platform/runtime/libstdcxx/tls.cpp:101-109 | an array is one word and one per entry, accepted if and only if that fits 32 bits and there is an entry |
| `EmutlsStorage.Storage.OffsetOf` | platform/runtime/libstdcxx/tls.cpp:197-212 | the first use of an object numbers it for good, all numbers distinct |
| `EmutlsStorage.Storage.EnsureArray` | platform/runtime/libstdcxx/tls.cpp:339-350 | the thread's array keeps every entry and has one for the offset, in a block of its own; no other array changes, and a replaced block is released |
| `EmutlsStorage.Storage.GetAddress` | platform/runtime/libstdcxx/tls.cpp:331-357 | a known object is found at its address; a new one gets a home with the initialiser or zeros, without changing a byte of any other; nothing else changes, and a fatal ending is explained by a refused allocation, a bad template or too many objects |
| `EmutlsStorage.Storage.FreeObjects` | platform/runtime/libstdcxx/tls.cpp:180-184 | the loop frees, through the back pointers, each of the thread's blocks exactly once while it is live |
| `EmutlsStorage.Storage.Destroy` | platform/runtime/libstdcxx/tls.cpp:174-187 | exactly the thread's homes, their blocks and the block of its array are freed, each once, and the other threads' storage is intact |
| `EmutlsStorage.AddressesAgree` | platform/runtime/libstdcxx/tls.cpp:331-357 | in every history an object of a thread keeps its aligned address until that thread ends, and objects of different (thread, object) pairs never overlap, back pointers included |
| `EmutlsStorage.HomesAgree` | platform/runtime/libstdcxx/tls.cpp:146-172 | the same for the homes of one state |
| `EmutlsStorage.NothingIsLeft` | platform/runtime/libstdcxx/tls.cpp:174-187 | when no thread has an array, no block is live |
| `EmutlsStorage.Session` | platform/runtime/libstdcxx/tls.cpp:331-357 | any program of lookups and thread ends, from an empty heap and over any allocator: all answers agree in this sense, it stops only at a lookup whose failure is explained, and when every thread has ended no memory is left |
| `BpfFilter.FrameEtherType` | platform/hal/drivers/itf/IEthernet.hpp:84-108 | the loop returns the type behind all tags, never a tag type, and nothing exactly when the frame ends first |
| `BpfFilter.FramesAreParsed` | platform/hal/drivers/itf/IEthernet.hpp:84-108 | a frame built from two addresses, any number of tags, a type and a payload is parsed to that type, and the filter accepts it for that type alone and for at most two tags |
| `BpfFilter.FilterAgreesWithParser` | platform/hal/drivers/impl/linux/Ethernet.cpp:128-166 | for a non-tag target the program accepts exactly the frames whose parsed type is the target behind at most two tags |
| `BpfFilter.FilterIsSoundIff` | platform/hal/drivers/impl/linux/Ethernet.cpp:128-166 | the program admits only frames of the target type if and only if the target is not a tag type |

## Left out

- Registry ids: beyond 2^32 - 1 registrations the new id is assumed to differ from those of the registered blocks (`ThreadLifecycle.FreshId`).
- Keys: at most 2^24 - 1 creations per slot are considered; the wrap itself is stated by `ThreadKeys.GenerationsAreUniqueUpTo`.
- Joins: a handle can be claimed again after a join that failed with EINVAL or EAGAIN before it asked for cleanup, as `std::thread` allows (platform/runtime/libstdcxx/thread.cpp:57-82), but not after a join or detach that found it already claimed; joining oneself and null handles are argument checks and are not modelled.
- Condition waits: the final relock of the user mutex is taken to succeed; retries of a timed wait inside `wait_until` are modelled in `TimedWait`, and in `ConditionProtocol` a whole timed wait is one step.
- Registry and lifecycle flags: in `ThreadLifecycle` these are values of a step system, because the properties are about interleavings; updates in place and aliasing are modelled for the waiter list only.
- Guards before the scheduler runs, where no mutex is used, are not modelled; null guard pointers are fatal in the source and do not occur here.
- Memory order: atomic accesses are steps of one global order, so nothing is said about weaker orders.
- Liveness under real scheduling and priorities: termination is proved only where a measure is given.
- FileSystem.FileSystem.FxScan: the scan past "." and ".." is one call here, so a fault between its calls is a fault of the whole scan.
- FileSystem.FileSystem.FxScan: after a silent failure to set the default directory some other directory is scanned, and what it holds is an oracle.
- FileSystem.RenameTellsTruthIff: assumes that the checks found what is there. A silently failed query may still be right, and the lemma then applies; when it is wrong, `FileSystem.RenameIsSafe` and `FileSystem.RenameKeepsObjectIff` still hold, but the report is not judged, because the five states are then not the ones asked for.
- FileSystem.FileSystem.FxRename: names are stored case-folded, so a rename that changes only the spelling is a move of an entry to itself, and its silent failure is not observable here.
- FileSystem.FileSystem.Rename: the directory streams of the STM32 build, their length check and their migration are not modelled; streams are not protected by the busy checks.
- DescriptorIO.Descriptor.Run: after a seek beyond the end of the file nothing is promised about contents and replies, because where FileX then stands is not visible; it is a parameter here.
- DescriptorIO.Descriptor.Perform: after a failure that does harm, that is a silent one or that of a call that restores a position or writes zeros, only the validity of the descriptor is promised. What a lost seek of a switch, of an append or of a truncation and a failed chunk of zeros leave is stated by `DescriptorIO.Descriptor.SwitchMode`, `DescriptorIO.Descriptor.Write`, `DescriptorIO.Descriptor.Reposition` and `DescriptorIO.Descriptor.Extend`. FileX failures change nothing, so a partly written chunk is not modelled.
- DescriptorIO.Descriptor.constructor: the failures of `_open` are not modelled.
- Open, close, stat, unlink, mkdir, chdir and the other file calls use the same parts and would add easier members.
- TickExtension.TickCounter.Sample: the epoch does not wrap at 2^64 ticks.
- sleep.cpp adds its two parts without an overflow test; the sleep bound is stated for `detail::sleep_for`.
- EmutlsStorage.Storage.GetAddress: a fatal error returns an ending instead of terminating the program, and `__emutls_register_common` is not modelled.
- ThreadKeys.RunDestructors: the exiting thread itself acts only through its destructors, and every call a destructor makes to the key functions completes before it returns.
- The list of thread-exit destructors registered through `__cxa_thread_atexit`, native TLS blocks and exception globals are not modelled.
- LinuxTimer.Timer.Start: the worker thread, its condition variable and the period callback are not modelled.
- The Linux Ethernet driver's sockets and polling, the STM32 Ethernet DMA pool, storage media, board support, LEDs, buttons, GPIO, RNG and panic code are device plumbing.
