# Verification of the FreeRTOS kernel and the two protocol parsers

This project models the FreeRTOS V10.4.6 kernel of this repository, in the configuration fixed by
`User/FreeRTOSConfig.h` (preemption, bitmap task selection, 32 priorities, 32-bit ticks, mutexes, queue
sets, timers, no tickless idle), and the `+IPD` and MQTT parsers of the application, and proves what they
promise over whole runs.

How it is written: a component that the source updates in place is a class with the source's fields, and
its methods, loops included, are proved against functions on values. What the source promises is then
proved about those functions: invariants of every step, and theorems about every run of a machine whose
steps are the source's atomic regions (critical sections, calls made with the scheduler suspended, single
accesses where there is no lock, and interrupts in between). Tick counts are 32 bits wide in the model;
true time is an unbounded number that only specifications and history records mention.

| file | component |
|---|---|
| QueueLocks, QueueRuns | the lock counts of a queue, its two event lists, and every interleaving of tasks, interrupts and ticks on it |
| QueueWakes, QueueCalls | over those runs: who is woken first, and what calls come to |
| QueueSets | queue sets and the ledger of handles |
| QueueStorage | the byte-addressed ring of items |
| Mutexes, MutexLoans, MutexTimeouts | priority inheritance over any number of tasks and mutexes; what is lent and taken back, and who is first in line; the undoing after a timeout |
| MutexScheduling | the mutexes and the ready lists as one machine, from boot |
| ReadyLists, ReadyMoves | the ready lists, the bitmap and task selection |
| DelayedTasks | the tick, the two delayed lists, suspension of the scheduler |
| TimeOuts | block times across several waits |
| Timers | the timer daemon |
| EventGroups | event groups and rendezvous |
| StreamInterleaving, StreamRuns, StreamCalls, StreamBuffer, MessageFrames | stream and message buffers, without locks and as one task sees them |
| Lists, RoundRobin, OrderedLists | the linked list, its round-robin order, and its ordered use |
| IpdParser, IpdErrors, SerialLine | the parser of `+IPD` frames; what it does with what it does not accept; the parser together with everything else that takes bytes out of the receive ring |
| Mqtt, MqttPackets, Downlink | the MQTT parser; packets of every type; publications from the serial line to the application |
| Bytes, Numbers, Rings, Sequences, TextLines, Ticks | shared vocabulary |

## What the proofs found

Each of these is a place where the code does not keep a claim on all inputs. The code is modelled as it is, the
exact condition is proved, and a concrete case is given: where the claim is about runs, a run from the initial state.

- `prvUnlockQueue`: the lock counts are 8 bits wide; the 128th post in one locked section loses wake-ups
  (`QueueLocks.SaturationIsTheLimit`, `QueueRuns.OnePostTooMany`).
- `xQueueGenericReset` of a queue in use wakes one sender however many wait
  (`QueueLocks.ResetKeepsSendersIff`, `QueueRuns.ResetStrandsASender`).
- `prvCopyDataToQueue` with overwriting counts one item more when the items have size 0, even on a full queue
  (`QueueStorage.OverwriteReplacesIff`, `QueueRuns.OverwritingNothingAddsAnItem`), and a queue set is not told of it
  (`QueueSets.PostKeepsIff`, `QueueSets.OverwritingASemaphoreIsNotAnnounced`).
- `xQueueGenericSendFromISR` with overwriting, on a locked and full member of a queue set, announces one item
  twice (`QueueSets.IsrPostKeepsIff`, `QueueSets.OverwriteFromIsrIsAnnouncedTwice`).
- `vTaskPriorityDisinheritAfterTimeout` resets the bit of the priority it has just assigned, line 4315 of
  `Middlewares/FreeRTOS/tasks.c`. Taken alone it can leave the bit of an empty list set
  (`ReadyLists.TimeoutKeepsIff`, `ReadyLists.StaleBitExample`). In the states that mutex calls can reach it
  never does, because another ready task always shares the holder's list (`MutexTimeouts.LoweredHolderHasCompany`,
  `MutexScheduling.ReadyListsSurviveMutexes`).
- `xTaskCheckForTimeOut` can miss a timeout when two overflows pass between calls
  (`TimeOuts.CheckIsRightIff`, `TimeOuts.TwoOverflowsCanBeMissed`).
- `xTaskDelayUntil` takes a previous wake time that is still to come, as it is after an aborted delay, for one
  long past (`DelayedTasks.UntilDelayIsRightIff`, `DelayedTasks.AbortedDelayIsNotMadeUp`).
- `xQueueRemoveFromSet` looks outside its critical section whether the queue is empty; an item posted in between
  leaves a handle of a queue that is no longer a member (`QueueSets.RemoveKeepsIff`,
  `QueueSets.RemovalLeavesAHandle`).
- `esp8266_loop` drops every text line that the parser has left in the ring, and with it the beginning of a frame that
  is still arriving and has a newline in it: the loop is harmless if and only if there is no newline where a frame may
  have begun or behind that (`SerialLine.TakingIsHarmlessIff`, `SerialLine.DropLinesTakesNoiseIff`). Any frame with a
  newline before its last byte can be lost, and so can a publication with a topic of ten letters, whose length is a
  newline (`SerialLine.NewlineLosesTheFrame`, `Downlink.LengthTenIsLost`).
- `at_wait_for` takes as many bytes as the reply's line has, but from the front of the ring. A transmission, such as the
  acknowledgement of a publication, loses the frame whose beginning is there
  (`SerialLine.StepFollowsIff`, `SerialLine.AcknowledgementLosesTheNextFrame`).
- `parse_ipd_frames` never drops bytes that cannot begin a frame. Once they fill the ring, everything after them is
  lost for as long as there are only reception and parsing (`IpdParser.StuckIff`, `IpdParser.NoiseSticks`), and, if
  there is no newline among them, with the line loop as well (`SerialLine.StuckWithLinesIff`).
- `handle_publish` cuts a topic of 128 bytes or more to 127 and reads the packet identifier and payload
  from there (`Mqtt.PublicationIsReceivedIff`, `Mqtt.TopicOf128Bytes`).

## Model

| member | source | states |
|---|---|---|
| QueueLocks.SaturationIsTheLimit | Middlewares/FreeRTOS/queue.c:1078-1130 | an interrupt's post to a locked queue keeps the no-lost-wake claim if and only if the 8-bit lock count is below 127, or nobody waits, or the woken tasks alone have units to spare |
| QueueLocks.DrainWakesInOrder | Middlewares/FreeRTOS/queue.c:2264-2381 | unlocking wakes one waiter for each count, from the head of the list, each of them once, and stops early only when nobody is left |
| QueueLocks.NotifyKeeps | Middlewares/FreeRTOS/queue.c:838-890 | telling one waiter about one new unit keeps the claim, from a task and, below the lock limit, from an interrupt |
| QueueLocks.UnlockKeeps | Middlewares/FreeRTOS/queue.c:2264-2381 | an unlock keeps the claim and can only wake tasks that were waiting |
| QueueLocks.ExpireKeeps | Middlewares/FreeRTOS/tasks.c:2785-2850 | taking a timed-out waiter off the list keeps the claim |
| QueueLocks.EnqueueKeeps | Middlewares/FreeRTOS/tasks.c:3097-3119 | a task put on the list at any place is on it once |
| QueueLocks.ResetKeepsSendersIff | Middlewares/FreeRTOS/queue.c:266-330 | a reset of a queue in use keeps the senders' claim if and only if at most one sender waited or those already woken can fill the queue |
| QueueLocks.QueueControl.TrySend | Middlewares/FreeRTOS/queue.c:826-935 | the critical section of a send succeeds exactly when there is room or it overwrites; then the item is counted, unless one with a size is overwritten, and the receiver at the head of the list, and no other, is readied |
| QueueLocks.QueueControl.TrySendFromIsr | Middlewares/FreeRTOS/queue.c:1051-1175 | the same from an interrupt, with the wake-up replaced by a count when the queue is locked |
| QueueLocks.QueueControl.TryReceive | Middlewares/FreeRTOS/queue.c:1377-1420 | succeeds exactly when there is an item; then there is one fewer, and the sender at the head of the list is readied |
| QueueLocks.QueueControl.TryReceiveFromIsr | Middlewares/FreeRTOS/queue.c:1892-1954 | the same from an interrupt, deferred by a lock |
| QueueLocks.QueueControl.TryPeek | Middlewares/FreeRTOS/queue.c:1740-1785 | takes nothing and passes the wake-up on to the next receiver |
| QueueLocks.QueueControl.LockBoth | Middlewares/FreeRTOS/queue.c:245-263 | locks each side unless it is locked already |
| QueueLocks.QueueControl.UnlockTx | Middlewares/FreeRTOS/queue.c:2264-2345 | readies as many receivers as posts were counted, from the head of the list, and leaves the queue unlocked |
| QueueLocks.QueueControl.UnlockRx | Middlewares/FreeRTOS/queue.c:2348-2381 | the same for senders and the receive count |
| QueueLocks.QueueControl.ResetInUse | Middlewares/FreeRTOS/queue.c:276-307 | empties the queue, drops both counts and readies the sender at the head of the list |
| QueueRuns.StepIsSound | Middlewares/FreeRTOS/queue.c:826-1013 | every step of tasks, interrupts and ticks keeps waiting tasks distinct and on their way to look again, and the lock counts in step with the task that holds the scheduler |
| QueueRuns.StepKeepsReceivers | Middlewares/FreeRTOS/queue.c:1051-1178 | every step, resets included, keeps: while a receiver waits, items are no more than receivers woken plus the held-back count |
| QueueRuns.StepKeepsSenders | Middlewares/FreeRTOS/queue.c:1377-1491 | the mirror claim for senders, free slots and the receive count, for every step but a reset |
| QueueRuns.ReceiversNeverLoseAWake | Middlewares/FreeRTOS/queue.c:1051-1491 | the receivers' claim over every run |
| QueueRuns.SendersNeverLoseAWake | Middlewares/FreeRTOS/queue.c:826-1013 | the senders' claim over every run without a reset |
| QueueRuns.SettledQueueHasNoStrandedTask | Middlewares/FreeRTOS/queue.c:826-1861 | once every task is idle or asleep, nobody waits for an item that is there, nor, without resets, for room that is there |
| QueueRuns.CallersFindItUnlocked | Middlewares/FreeRTOS/queue.c:245-263 | in every reachable state a task that may run and is not inside one of the blocking loops finds both lock counts cleared |
| QueueRuns.OnePostTooMany | Middlewares/FreeRTOS/queue.c:1078-1130 | the concrete case, from an empty queue: 128 posts in one locked section leave a receiver asleep with 128 items to receive |
| QueueRuns.ResetStrandsASender | Middlewares/FreeRTOS/queue.c:276-307 | the concrete case, from an empty queue: after a reset with two senders asleep everything settles with one of them asleep and room in the queue |
| QueueRuns.OverwritingNothingAddsAnItem | Middlewares/FreeRTOS/queue.c:2171-2234 | the concrete case, from an empty queue of items of size 0: overwriting a full queue of length 1 leaves two items in it |
| QueueWakes.StepKeepsLine | Middlewares/FreeRTOS/tasks.c:3097-3119 | every step keeps each event list in the order of the priorities with which tasks joined it and, among equals, in the order in which they joined |
| QueueWakes.RanksAreTrue | Middlewares/FreeRTOS/tasks.c:3097-3119 | over every run the priority and age by which a list is ordered are those of the task's last join |
| QueueWakes.FirstInLineIsWoken | Middlewares/FreeRTOS/tasks.c:3183-3256 | over every run, whatever readies a task off an event list, no task that stays on it joined with a higher priority, or with the same priority earlier |
| QueueCalls.ItemsAreConserved | Middlewares/FreeRTOS/queue.c:805-1491 | over every run a queue holds what was put in less what was taken out, an overwritten item that has a size counting once |
| QueueCalls.AttemptsSucceed | Middlewares/FreeRTOS/queue.c:826-935 | an attempt that is possible succeeds at once; another returns exactly if it may not wait |
| QueueCalls.TimedOutCallEnds | Middlewares/FreeRTOS/queue.c:1446-1491 | a call that finds its time over ends after a fixed number of its own steps, whatever the others do: a send without success, a receive without success if the queue is empty at its last look |
| QueueCalls.CallsReturnOnlyThen | Middlewares/FreeRTOS/queue.c:805-1491 | over every run a call returns only by success, because it may not wait, or because its time was found to be over, a receive then having seen the queue empty |
| QueueSets.RoomForOne | Middlewares/FreeRTOS/queue.c:3019-3071 | a set as long as its members together has room whenever a member has an item more than its handles in the set |
| QueueSets.NotifyKeeps | Middlewares/FreeRTOS/queue.c:3019-3071 | announcing an item squares the ledger and never finds the set full |
| QueueSets.PostKeepsIff | Middlewares/FreeRTOS/queue.c:838-863 | a task's post keeps the ledger of every member if and only if it does not overwrite an item of size 0; an overwritten item is not announced again |
| QueueSets.IsrPostKeepsIff | Middlewares/FreeRTOS/queue.c:1065-1168 | an interrupt's post keeps the ledger, and no more items than the member is long, if and only if nothing is posted, or the member is unlocked and no item of size 0 is overwritten, or the member is locked and the post adds an item below the lock limit |
| QueueSets.OverwriteFromIsrIsAnnouncedTwice | Middlewares/FreeRTOS/queue.c:1065-1168 | the concrete case, from an empty set: a locked, full one-item member overwritten from an interrupt ends with two handles for one item |
| QueueSets.OverwritingASemaphoreIsNotAnnounced | Middlewares/FreeRTOS/queue.c:838-863 | the concrete case, from an empty set: overwriting a full binary semaphore leaves two items and one handle |
| QueueSets.DrainKeeps | Middlewares/FreeRTOS/queue.c:2277-2300 | the unlock loop of a member announces every held-back item and passes none over |
| QueueSets.SelectKeeps | Middlewares/FreeRTOS/queue.c:2999-3007 | selecting moves one unit of the ledger from the set to the reader |
| QueueSets.SelectedInOrder | Middlewares/FreeRTOS/queue.c:2990-2998 | over every run the members selected so far, followed by those whose handles are still in the set, are those announced so far, in order |
| QueueSets.SelectionsAreLogged | Middlewares/FreeRTOS/queue.c:2990-2998 | every run has such a record of its selections |
| QueueSets.ItemsAreConserved | Middlewares/FreeRTOS/queue.c:838-863 | over every run a member holds what was posted to it less what was read |
| QueueSets.AddKeeps | Middlewares/FreeRTOS/queue.c:2921-2950 | a queue, which a task that adds it finds unlocked, may join if and only if it is empty, and then the ledger stays square |
| QueueSets.RemoveKeepsIff | Middlewares/FreeRTOS/queue.c:2955-2985 | the critical section of a removal leaves no handle, announcement or selection behind if and only if the queue is empty then, which is tested before it |
| QueueSets.RemovalLeavesAHandle | Middlewares/FreeRTOS/queue.c:2955-2985 | the concrete case, from an empty set: an item posted between the test and the critical section leaves a handle of a queue that is no longer a member |
| QueueSets.StepKeeps | Middlewares/FreeRTOS/queue.c:1053-1168 | every allowed step keeps the ledger |
| QueueSets.SelectedMembersAreReady | Middlewares/FreeRTOS/queue.c:2277-3071 | over every run the ledger is square for every member, no handle is ever dropped, a selected member holds an item, an unlocked member with an item to offer has a handle in the set, and a queue that has been removed has none |
| QueueSets.QueueSet.NotifyContainer | Middlewares/FreeRTOS/queue.c:3019-3071 | appends the handle when there is room |
| QueueSets.QueueSet.PostItem | Middlewares/FreeRTOS/queue.c:838-863 | counts the item and puts the handle behind the others, unless an item is overwritten |
| QueueSets.QueueSet.PostItemFromIsr | Middlewares/FreeRTOS/queue.c:1065-1168 | likewise from an interrupt |
| QueueSets.QueueSet.UnlockTx | Middlewares/FreeRTOS/queue.c:2277-2345 | puts the handle of the member into the set once for each post counted, and leaves it unlocked |
| QueueSets.QueueSet.SelectMember | Middlewares/FreeRTOS/queue.c:2990-3016 | returns the member whose handle has been in the set longest, which holds an item for the caller; finds none only if no unlocked member has one to offer |
| QueueSets.QueueSet.AddToSet | Middlewares/FreeRTOS/queue.c:2921-2950 | takes in exactly the empty queues that are in no set |
| QueueSets.QueueSet.RemoveFromSet | Middlewares/FreeRTOS/queue.c:2955-2985 | takes out exactly empty members, and then nothing of them is left in the set |
| Mutexes.TaskControl.PriorityInherit | Middlewares/FreeRTOS/tasks.c:4074-4158 | the holder runs at the larger of its own priority and the waiter's, and inheritance is reported exactly when the waiter outranks the holder's base or its present priority |
| Mutexes.TaskControl.PriorityDisinherit | Middlewares/FreeRTOS/tasks.c:4164-4238 | one mutex fewer; back to the base priority exactly when it was the last |
| Mutexes.TaskControl.PriorityDisinheritAfterTimeout | Middlewares/FreeRTOS/tasks.c:4244-4343 | a holder of one mutex is left with the larger of its own priority and that of its highest remaining waiter, a holder of several with the one it has |
| Mutexes.UndoKeepsMutex | Middlewares/FreeRTOS/queue.c:1667-1699 | undoing an inheritance leaves every mutex with a holder that outranks its waiters |
| Mutexes.ReleaseMakesAnHeir | Middlewares/FreeRTOS/queue.c:2171-2187 | the waiter woken by a give outranks all who still wait |
| Mutexes.StepKeeps | Middlewares/FreeRTOS/queue.c:1529-1699 | every step of takes, waits, timeouts, undoings and gives keeps the ledger, the order of the waiters and the inheritance bound |
| Mutexes.HolderOutranksEveryWaiter | Middlewares/FreeRTOS/queue.c:1629-1699 | in every reachable state a mutex holder's priority is at least that of every task waiting for it, and nobody runs below its base |
| Mutexes.LedgerBalances | Middlewares/FreeRTOS/queue.c:1529-1554 | in every reachable state a mutex is taken exactly when it names a holder, each tally is the number of mutexes naming the task, and a task holding none runs at its base priority |
| Mutexes.DepthIsTakesLessGives | Middlewares/FreeRTOS/queue.c:638-729 | the recursion depth is what it was plus takes less gives, over any run |
| Mutexes.RecursiveMutexReturnsWhenBalanced | Middlewares/FreeRTOS/queue.c:638-729 | a recursive mutex is free exactly when gives have matched takes, and gives never exceed them |
| MutexLoans.UndoLeavesTheLeast | Middlewares/FreeRTOS/tasks.c:4244-4343 | over every run, a wait given up leaves the holder of that mutex alone with the least priority not below its own nor below that of any task still waiting for the mutex, and a holder of several with the priority it has |
| MutexLoans.LendersTakeBack | Middlewares/FreeRTOS/queue.c:1667-1699 | over every run, a taker whose wait has timed out tries again if the mutex is free, and otherwise takes back its priority if and only if that was above the holder's own when it was last lent |
| MutexLoans.TimedOutIff | Middlewares/FreeRTOS/queue.c:1595-1680 | a wait is over its time exactly from the moment the task finds so to its last look at the mutex |
| MutexLoans.FreeMutexIsTaken | Middlewares/FreeRTOS/queue.c:1529-1590 | an attempt gets the mutex if and only if nobody holds it, and the call is over then, or if it may not wait |
| MutexLoans.HeldMutexIsWaitedFor | Middlewares/FreeRTOS/queue.c:1620-1650 | a taker of a held mutex ends up on its list, with the holder raised to the taker's priority and no further |
| MutexLoans.GiveLetsOneGo | Middlewares/FreeRTOS/queue.c:2171-2187 | the last give frees the mutex and lets exactly one waiter try again |
| MutexLoans.FirstInLineIsWoken | Middlewares/FreeRTOS/queue.c:863-890 | over every run the waiter that a give lets go had a higher priority than everyone who goes on waiting for the mutex, or the same and joined before |
| MutexTimeouts.StepKeepsClaim | Middlewares/FreeRTOS/tasks.c:4244-4343 | every step keeps: while a task that may undo an inheritance is ready, the holder is at least as high or its priority is its base or that of another waiting or ready task |
| MutexTimeouts.LoweredHolderHasCompany | Middlewares/FreeRTOS/tasks.c:4299-4321 | in every reachable state, when a timed-out waiter lowers a ready holder, another ready task has the very priority the holder leaves |
| MutexScheduling.PriorityMirrored | Middlewares/FreeRTOS/tasks.c:4103-4125 | a change of priority on both sides keeps the ready lists in order and in agreement with the tasks |
| MutexScheduling.UndoIsSafe | Middlewares/FreeRTOS/tasks.c:4299-4321 | whenever a timed-out waiter undoes an inheritance, the condition under which the wrong bit does no harm holds |
| MutexScheduling.NextIsGood | Middlewares/FreeRTOS/tasks.c:4074-4343 | every call on a mutex, with the list work it does, every timeout, every other sleep and wake-up and every new task keeps the mutexes and the ready lists in order and in agreement |
| MutexScheduling.ReadyListsSurviveMutexes | Middlewares/FreeRTOS/tasks.c:4299-4330 | over every run from boot, mutex waits that time out included, each task is in the list of its priority and bit p is set exactly when list p is non-empty |
| MutexScheduling.SelectedIsRunning | Middlewares/FreeRTOS/tasks.c:3021-3093 | over every run from boot, the tasks vTaskSwitchContext may select are exactly those that the inheritance argument takes to be running |
| ReadyLists.ReprioritiseKeeps | Middlewares/FreeRTOS/tasks.c:4103-4125 | changing the priority of a task, ready or not, keeps each task in one list, a ready one in that of its priority, and the bitmap exact |
| ReadyLists.BlockKeeps | Middlewares/FreeRTOS/tasks.c:5325-5352 | so does blocking the running task |
| ReadyLists.UnblockKeeps | Middlewares/FreeRTOS/tasks.c:217-221 | so does readying a task from any other list |
| ReadyLists.SuspendKeeps | Middlewares/FreeRTOS/tasks.c:1716-1749 | so does suspending a task from any list |
| ReadyLists.CreateKeeps | Middlewares/FreeRTOS/tasks.c:1071-1150 | so does adding a new task |
| ReadyLists.TimeoutKeepsIff | Middlewares/FreeRTOS/tasks.c:4299-4321 | the change made after a timeout keeps them if and only if the task is not ready, its priority stays, or its old list keeps another task |
| ReadyLists.StaleBitExample | Middlewares/FreeRTOS/tasks.c:4315 | the concrete case, from boot, where it does not: the next switch looks into an empty list |
| ReadyLists.RunningWaiterMakesItSafe | Middlewares/FreeRTOS/tasks.c:4299-4321 | a running caller no higher than the holder makes it safe |
| ReadyLists.SwitchSelectsAHighest | Middlewares/FreeRTOS/tasks.c:182-190 | the list selected from is not empty and no ready task outranks its members |
| ReadyLists.StepKeeps | Middlewares/FreeRTOS/tasks.c:2242-2262 | every step keeps the structure |
| ReadyLists.ReadyStructureHolds | Middlewares/FreeRTOS/tasks.c:161-225 | over every run: one list per task, a ready task in the list of its priority, bit p set exactly when list p is non-empty, and only tasks of maximal priority selected |
| ReadyLists.Scheduler.ListRemove | Middlewares/FreeRTOS/list.c:188-213 | takes the item off the list its container names and reports how many remain |
| ReadyLists.Scheduler.AddTaskToReadyList | Middlewares/FreeRTOS/tasks.c:217-221 | sets the bit and appends to the list of the task's priority |
| ReadyLists.Scheduler.PriorityInherit | Middlewares/FreeRTOS/tasks.c:4085-4125 | its list work is the change of priority that keeps the structure |
| ReadyLists.Scheduler.PriorityDisinherit | Middlewares/FreeRTOS/tasks.c:4181-4209 | likewise |
| ReadyLists.Scheduler.PriorityDisinheritAfterTimeout | Middlewares/FreeRTOS/tasks.c:4299-4330 | keeps the structure exactly under the condition above |
| ReadyLists.Scheduler.SwitchContext | Middlewares/FreeRTOS/tasks.c:3021-3093 | the new current task is ready and no ready task outranks it |
| ReadyMoves.StepMoves | Middlewares/FreeRTOS/tasks.c:161-225 | every event moves the task it is about, and no other, from its list to the end of the ready or suspended list it goes to, and sets no other priority |
| ReadyMoves.TasksAreWhereTheyWerePut | Middlewares/FreeRTOS/tasks.c:161-225 | over every run a task is in the list it was last put into, and in no other |
| DelayedTasks.StillToComeIsTrue | Middlewares/FreeRTOS/tasks.c:1268-1309 | for a previous wake time within a wrap before now, the four comparisons of xTaskDelayUntil decide whether the next wake time is still to come, and the block time they give is the true one |
| DelayedTasks.UntilDelayIsRightIff | Middlewares/FreeRTOS/tasks.c:1268-1309 | for a previous wake time less than a wrap away on either side, the wait chosen is the one that ends an increment after it, or none once that has passed, if and only if the previous wake time is not still to come |
| DelayedTasks.AbortedDelayIsNotMadeUp | Middlewares/FreeRTOS/tasks.c:1268-1309 | a run from the start of the scheduler, for every increment and every tick: a periodic task whose first delay is aborted does not wait at all the next time |
| DelayedTasks.EveryTickCounts | Middlewares/FreeRTOS/tasks.c:2280-2306 | over any run, however suspensions nest, ticks processed plus ticks pended grow by one per tick, and none is pended while the scheduler runs |
| DelayedTasks.DelayIsExact | Middlewares/FreeRTOS/tasks.c:5357-5381 | a task delayed at true tick T for d ticks is delayed while fewer than T + d ticks are processed and ready from then on, whatever else happens, unless it is signalled, suspended, aborted or delays again |
| DelayedTasks.ResumeReadies | Middlewares/FreeRTOS/tasks.c:2241-2262 | the last resume readies every task that was signalled while the scheduler was suspended, and wakes no other that sleeps |
| DelayedTasks.SignalledTaskIsReady | Middlewares/FreeRTOS/tasks.c:3183-3230 | over every run a task that is signalled, or whose delay is aborted, is ready in every later state in which the scheduler is not suspended, unless it has been suspended or has delayed itself since |
| DelayedTasks.PutToSleep | Middlewares/FreeRTOS/tasks.c:1716-1780 | over every run a task that is suspended, or blocks indefinitely, sleeps until something is done about it |
| DelayedTasks.JoiningKeeps | Middlewares/FreeRTOS/tasks.c:5357-5381 | a delayed task goes into the list of the epoch it wakes in, and the next unblock time stays at or below every wake time in the current list |
| DelayedTasks.EmptyAtSwitch | Middlewares/FreeRTOS/tasks.c:201-213 | when the tick count wraps the current delayed list is empty, and the overflow list is the right one for the new epoch |
| DelayedTasks.Kernel.constructor | Middlewares/FreeRTOS/tasks.c:3666-3695 | starts with nothing delayed |
| DelayedTasks.Kernel.ResetNextTaskUnblockTime | Middlewares/FreeRTOS/tasks.c:4006-4024 | keeps the unblock time at or below every current wake time |
| DelayedTasks.Kernel.SwitchDelayedLists | Middlewares/FreeRTOS/tasks.c:201-213 | finds the current list empty and makes the overflow list current |
| DelayedTasks.Kernel.UnblockDue | Middlewares/FreeRTOS/tasks.c:2772-2850 | readies exactly the tasks whose wake time is the present tick |
| DelayedTasks.Kernel.CountTick | Middlewares/FreeRTOS/tasks.c:2746-2765 | counts one tick, changing the lists over when the count wraps |
| DelayedTasks.Kernel.IncrementTick | Middlewares/FreeRTOS/tasks.c:2736-2906 | refines one tick of true time: exactly the tasks due then become ready, or the tick is pended |
| DelayedTasks.Kernel.ReleasePending | Middlewares/FreeRTOS/tasks.c:2241-2262 | exactly the pending tasks become ready and leave their delay or sleep |
| DelayedTasks.Kernel.CatchUp | Middlewares/FreeRTOS/tasks.c:2277-2306 | processes exactly the ticks that were pended |
| DelayedTasks.Kernel.SuspendAll | Middlewares/FreeRTOS/tasks.c:2136-2153 | nests |
| DelayedTasks.Kernel.ResumeAll | Middlewares/FreeRTOS/tasks.c:2220-2328 | the last resume readies every pending task, wakes no other that sleeps, and processes every pended tick; an inner one does neither |
| DelayedTasks.Kernel.FileDelayed | Middlewares/FreeRTOS/tasks.c:5357-5381 | files the task under its true wake time |
| DelayedTasks.Kernel.AddCurrentTaskToDelayedList | Middlewares/FreeRTOS/tasks.c:5310-5385 | delays the task to its true wake time, or blocks it indefinitely for the longest delay if allowed |
| DelayedTasks.Kernel.TaskDelayUntil | Middlewares/FreeRTOS/tasks.c:1259-1340 | wake times are exactly one increment apart in true time, and the task waits for the time the lemmas are about: until the next wake time exactly when that is still to come, if the previous one is not |
| DelayedTasks.Kernel.RemoveFromEventList | Middlewares/FreeRTOS/tasks.c:3183-3230 | readies the task, or holds it pending while the scheduler is suspended |
| DelayedTasks.Kernel.TaskSuspend | Middlewares/FreeRTOS/tasks.c:1716-1780 | takes the task out of its delay, and off the pending-ready list if it is there |
| DelayedTasks.Kernel.AbortDelay | Middlewares/FreeRTOS/tasks.c:2656-2731 | readies a blocked task at once, whether it was delayed, asleep or pending |
| OrderedLists.InsertKeepsSorted | Middlewares/FreeRTOS/list.c:117-183 | inserting keeps the list in order and adds exactly the new entry |
| OrderedLists.WithoutKeepsSorted | Middlewares/FreeRTOS/list.c:188-213 | removing keeps the order and removes exactly that entry |
| Ticks.DifferenceIsElapsed | Middlewares/FreeRTOS/tasks.c:3331-3332 | a 32-bit difference of ticks is the true one while less than 2^32 ticks have passed |
| Timers.ClassifyIsOneTest | Middlewares/FreeRTOS/timers.c:711-752 | for all command times, times and periods, the four comparisons amount to one: at least a period has passed since the command |
| Timers.ClassifyIsTrue | Middlewares/FreeRTOS/timers.c:711-752 | otherwise the timer is filed in the list of the epoch it is truly due in |
| Timers.CountsAreExact | Middlewares/FreeRTOS/timers.c:599-658 | with nothing in the current list due, a timer that is going has fired exactly once per whole period since its start |
| Timers.HeadIsNext | Middlewares/FreeRTOS/timers.c:661-685 | the time the daemon reads off the head of its list is the earliest due time of all timers, or else the wrap |
| Timers.SwitchKeeps | Middlewares/FreeRTOS/timers.c:903-926 | once the current list is empty the overflow list is the right one for the next epoch |
| Timers.RepeatFired | Middlewares/FreeRTOS/timers.c:517-533 | a repeating timer reloaded late has fired for every period missed and is filed under its next due time |
| Timers.AllCountsAreExact | Middlewares/FreeRTOS/timers.c:599-658 | the same for every timer at once |
| Timers.TimerDaemon.constructor | Middlewares/FreeRTOS/timers.c:928-975 | starts with no timers |
| Timers.TimerDaemon.InsertTimerInActiveList | Middlewares/FreeRTOS/timers.c:711-752 | asks for processing exactly when the true due time has come, and files the timer in the list of its epoch otherwise |
| Timers.TimerDaemon.CallAndRetry | Middlewares/FreeRTOS/timers.c:523-532 | one more callback, and one more attempt to file the timer |
| Timers.TimerDaemon.ReloadTimer | Middlewares/FreeRTOS/timers.c:517-533 | makes exactly floor((now - expired) / period) extra callbacks and files the timer under the first due time after now |
| Timers.TimerDaemon.ProcessExpiredTimer | Middlewares/FreeRTOS/timers.c:536-560 | the head has fired once, or once for every missed period, and is where it belongs |
| Timers.TimerDaemon.SwitchTimerLists | Middlewares/FreeRTOS/timers.c:903-926 | everything due before the wrap has fired and nothing else has changed; then the lists change roles |
| Timers.TimerDaemon.SampleTimeNow | Middlewares/FreeRTOS/timers.c:688-708 | notices a wrap whenever less than 2^32 ticks pass between samples |
| Timers.TimerDaemon.GetNextExpireTime | Middlewares/FreeRTOS/timers.c:661-685 | the earliest due time of any timer if one is due before the wrap, and otherwise none |
| Timers.TimerDaemon.ProcessTimerOrBlockTask | Middlewares/FreeRTOS/timers.c:599-658 | changes the lists over exactly when the count has wrapped, fires the head, or sleeps: then every count is exact, and it sleeps until the next timer is due or the wrap (not at all if that is now), indefinitely exactly if no timer is in a list |
| Timers.TimerDaemon.WorkUntilAsleep | Middlewares/FreeRTOS/timers.c:565-597 | from any state the daemon reaches its blocking branch after finitely many turns, with every count exact and nothing done to any timer but firing it |
| Timers.TimerDaemon.Stop | Middlewares/FreeRTOS/timers.c:845-849 | the timer is in no list and inactive; the others may only have fired |
| Timers.TimerDaemon.StartTimer | Middlewares/FreeRTOS/timers.c:813-840 | the timer counts from the time the command was sent and has already fired for every period over by now |
| Timers.TimerDaemon.ChangePeriod | Middlewares/FreeRTOS/timers.c:851-865 | the new period counts from the time the command is read |
| Timers.TimerDaemon.Create | Middlewares/FreeRTOS/timers.c:355-383 | a new timer is in no list and inactive |
| Timers.TimerDaemon.Obey | Middlewares/FreeRTOS/timers.c:755-901 | does what the command says to its timer; the others may only have fired |
| Timers.TimerDaemon.Follow | Middlewares/FreeRTOS/timers.c:565-597 | a turn of the loop changes the lists over exactly when the tick count has wrapped, fires one due timer, or sleeps with every count exact; a command does what it says; no callback comes early |
| Timers.TimerDaemon.TimerTask | Middlewares/FreeRTOS/timers.c:565-597 | over any schedule of turns and commands, each less than 2^32 ticks after the one before, every act does what is said of one act |
| Timers.LastCommandDecides | Middlewares/FreeRTOS/timers.c:813-865 | the orders a timer is under are those of the last command to it, whatever is said to others |
| Timers.OrdersAreKept | Middlewares/FreeRTOS/timers.c:755-901 | at every moment of a run every timer has the period, mode, phase and start that the schedule gave it |
| Timers.NeitherDriftsNorLosesAFiring | Middlewares/FreeRTOS/timers.c:517-560 | over every run: a timer last started at true time S, with no command to it since, has been called exactly floor((T - S) / P) times whenever the daemon sleeps at true time T, at no moment more often, and once if it does not repeat |
| Timers.StoppedStaysStopped | Middlewares/FreeRTOS/timers.c:845-849 | a stopped timer is exactly as it was until the next command to it |
| Timers.NothingIsEarly | Middlewares/FreeRTOS/timers.c:599-658 | at no moment has a timer fired more often than its period has elapsed |
| TimeOuts.CheckIsRightIff | Middlewares/FreeRTOS/tasks.c:3320-3382 | a check with a finite budget is right if and only if there was at most one overflow, or the tick is not below the one at entry, or is too far above it for the budget |
| TimeOuts.TwoOverflowsCanBeMissed | Middlewares/FreeRTOS/tasks.c:3356 | the concrete case of a timeout missed across two overflows |
| TimeOuts.BlockTimeIsConserved | Middlewares/FreeRTOS/tasks.c:3320-3382 | over any sequence of calls, a call reports a timeout exactly when the whole original budget has gone by in true time, or the delay was aborted |
| TimeOuts.ForeverIsForever | Middlewares/FreeRTOS/tasks.c:3347-3354 | the longest block time never runs out |
| TimeOuts.WaitState.constructor | Middlewares/FreeRTOS/tasks.c:3312-3317 | remembers the time of entry |
| TimeOuts.WaitState.CheckForTimeOut | Middlewares/FreeRTOS/tasks.c:3320-3382 | updates its arguments as the check the runs are about |
| StreamInterleaving.SamplesAreTrue | Middlewares/FreeRTOS/stream_buffer.c:497-527 | both index computations give the true space and count at the moment of sampling |
| StreamInterleaving.StoreByteKeeps | Middlewares/FreeRTOS/stream_buffer.c:1141-1184 | a byte stored within the space the writer sampled is none that the reader may still read |
| StreamInterleaving.FetchByteKeeps | Middlewares/FreeRTOS/stream_buffer.c:1187-1228 | a byte fetched within the count the reader sampled is one that was published |
| StreamInterleaving.FinishSendKeeps | Middlewares/FreeRTOS/stream_buffer.c:724-764 | publishing makes the stored bytes readable and keeps the reader's values conservative |
| StreamInterleaving.FinishHeadingKeeps | Middlewares/FreeRTOS/stream_buffer.c:968-1008 | the length read is that of the next message sent |
| StreamInterleaving.FinishReceiveKeeps | Middlewares/FreeRTOS/stream_buffer.c:1005-1017 | consuming keeps the writer's values conservative and delivers the next message |
| StreamRuns.StepKeeps | Middlewares/FreeRTOS/stream_buffer.c:542-868 | every single access of writer and reader keeps all of this |
| StreamRuns.NothingIsLostOrMadeUp | Middlewares/FreeRTOS/stream_buffer.c:497-1249 | over every interleaving the bytes read are a prefix of those written, unread bytes are intact, and every held space or count is a lower bound |
| StreamRuns.MessagesArriveWhole | Middlewares/FreeRTOS/stream_buffer.c:564-1017 | over every interleaving of a message buffer the messages received are the first of those sent, whole and in order, the contents are whole frames, and no message sent or received is empty |
| StreamRuns.IndicesStayInside | Middlewares/FreeRTOS/stream_buffer.c:1153-1246 | the index arithmetic never leaves the buffer |
| StreamCalls.SendIsCarriedOut | Middlewares/FreeRTOS/stream_buffer.c:542-668 | a whole send, with any of the reader's accesses in between: a message is sent whole or not at all, and is if it fitted when the call began; of a stream the first bytes are, at least as many as fitted then |
| StreamCalls.ReceiveIsCarriedOut | Middlewares/FreeRTOS/stream_buffer.c:767-868 | a whole receive, with any of the writer's accesses in between: the next message exactly if there was one when the call began and it is not too long; of a stream as many of the next bytes as were there and are asked for |
| MessageFrames.LengthOfPrefix | Middlewares/FreeRTOS/stream_buffer.c:741 | the length stored before a message is read back |
| MessageFrames.FramesOfSum | Middlewares/FreeRTOS/stream_buffer.c:724-764 | frames of messages one after another |
| MessageFrames.NextFrame | Middlewares/FreeRTOS/stream_buffer.c:968-1008 | the contents begin with the frame of the next message |
| StreamBuffer.WriteKeeps | Middlewares/FreeRTOS/stream_buffer.c:1141-1184 | a two-part copy within the free space appends to the contents and harms nothing before them |
| StreamBuffer.TakeKeeps | Middlewares/FreeRTOS/stream_buffer.c:1187-1228 | a two-part copy out reads the oldest bytes in order |
| StreamBuffer.FirstFrame | Middlewares/FreeRTOS/stream_buffer.c:968-1008 | the contents of a non-empty message buffer begin with the whole frame of its oldest message |
| StreamBuffer.MessageAdded | Middlewares/FreeRTOS/stream_buffer.c:724-764 | a message sent goes behind those already there |
| StreamBuffer.Buffer.constructor | Middlewares/FreeRTOS/stream_buffer.c:1252-1276 | starts empty |
| StreamBuffer.Buffer.BytesInBuffer | Middlewares/FreeRTOS/stream_buffer.c:1231-1249 | the number of bytes in the contents |
| StreamBuffer.Buffer.SpacesAvailable | Middlewares/FreeRTOS/stream_buffer.c:497-527 | one less than the storage less the contents |
| StreamBuffer.Buffer.WriteBytesToBuffer | Middlewares/FreeRTOS/stream_buffer.c:1141-1184 | every byte of the storage afterwards |
| StreamBuffer.Buffer.ReadBytesFromBuffer | Middlewares/FreeRTOS/stream_buffer.c:1187-1228 | the bytes of the ring from a place on |
| StreamBuffer.Buffer.WriteMessageToBuffer | Middlewares/FreeRTOS/stream_buffer.c:724-764 | a message whole or not at all, a stream as far as it fits |
| StreamBuffer.Buffer.Send | Middlewares/FreeRTOS/stream_buffer.c:542-670 | an over-long or empty message leaves the contents unchanged |
| StreamBuffer.Buffer.ReadMessageFromBuffer | Middlewares/FreeRTOS/stream_buffer.c:968-1017 | the oldest message, or nothing and no change if it does not fit |
| StreamBuffer.Buffer.Receive | Middlewares/FreeRTOS/stream_buffer.c:767-868 | the oldest message whole, leaving the others; nothing changes if the caller's buffer is too small |
| StreamBuffer.Buffer.NextMessageLengthBytes | Middlewares/FreeRTOS/stream_buffer.c:871-908 | the length of the oldest message, or 0 |
| EventGroups.PackingIsFaithful | Middlewares/FreeRTOS/event_groups.c:381-407 | the terms of a wait survive being packed beside the bits |
| EventGroups.MetMeans | Middlewares/FreeRTOS/event_groups.c:692-730 | the test of a wait condition: all of its bits are set, or any of them |
| EventGroups.SetReleasesExactly | Middlewares/FreeRTOS/event_groups.c:548-609 | exactly the satisfied waiters are let go, each with the value that satisfied it, and the others stay |
| EventGroups.ClearedOnRequest | Middlewares/FreeRTOS/event_groups.c:592-612 | a bit is cleared exactly when a waiter let go asked for it |
| EventGroups.SetLeaves | Middlewares/FreeRTOS/event_groups.c:548-612 | the bits after a set are those there and those set, but for the ones that waiters let go asked to have cleared; the waiters after it are those whose conditions do not hold |
| EventGroups.FewerBitsSatisfyLess | Middlewares/FreeRTOS/event_groups.c:484-497 | clearing bits never satisfies anybody |
| EventGroups.NobodyIsEverStranded | Middlewares/FreeRTOS/event_groups.c:317-625 | in every reachable state no waiting task's condition holds on the current bits |
| EventGroups.ConsumedOnce | Middlewares/FreeRTOS/event_groups.c:353-357 | over every run, of two calls that clear a bit which satisfied them without waiting, the second owes it to a set in between |
| EventGroups.WaitEndsIff | Middlewares/FreeRTOS/event_groups.c:548-612 | a waiter goes on waiting through every step but its own timeout, unless bits are set by which its condition holds, and then it is let go with those bits |
| EventGroups.OnlyTheSatisfiedReturn | Middlewares/FreeRTOS/event_groups.c:548-612 | nobody else is let go |
| EventGroups.WaitBeginsIff | Middlewares/FreeRTOS/event_groups.c:362-411 | whoever begins to wait has just called, may wait, and found its condition not to hold |
| EventGroups.LeaveTakesOut | Middlewares/FreeRTOS/event_groups.c:416-440 | a timeout takes exactly that task off the list |
| EventGroups.EarlyArrivalsWait | Middlewares/FreeRTOS/event_groups.c:212-255 | those who reach a rendezvous before its bits are complete all wait |
| EventGroups.MaskIsReleasedIff | Middlewares/FreeRTOS/event_groups.c:212-255 | a task waiting in a rendezvous is let go by a set if and only if that completes the bits of its mask |
| EventGroups.LastArrivalReleasesAll | Middlewares/FreeRTOS/event_groups.c:212-255 | in any group, the arrival that completes the bits releases every task waiting for the same mask with the same value, and leaves the bits of the mask clear |
| EventGroups.RendezvousCompletes | Middlewares/FreeRTOS/event_groups.c:212-255 | a whole rendezvous in a fresh group: all who arrived are released and the group is ready for the next round |
| EventGroups.TestItem | Middlewares/FreeRTOS/event_groups.c:560-592 | decides the wait condition of one list item |
| EventGroups.EventGroup.SetBits | Middlewares/FreeRTOS/event_groups.c:533-625 | one walk over the list, removing on the way, lets go and clears exactly the above |
| EventGroups.EventGroup.WaitBits | Middlewares/FreeRTOS/event_groups.c:317-411 | waits exactly when its condition does not hold and it may; otherwise it returns the bits before, and a bit is cleared exactly if the condition held, the call asked for clearing and waited for that bit |
| EventGroups.EventGroup.ReturnLate | Middlewares/FreeRTOS/event_groups.c:420-455 | the last look of a call whose time has run out clears exactly those bits |
| EventGroups.EventGroup.SyncBits | Middlewares/FreeRTOS/event_groups.c:194-257 | sets, then returns with all the bits or waits for them |
| EventGroups.EventGroup.ClearBits | Middlewares/FreeRTOS/event_groups.c:473-498 | returns the value before |
| QueueStorage.NextPointer | Middlewares/FreeRTOS/queue.c:2196-2206 | moving a pointer on by an item, with the wrap the code makes, is the next slot |
| QueueStorage.PrevPointer | Middlewares/FreeRTOS/queue.c:2209-2218 | moving it back is the slot before |
| QueueStorage.BackIsAppend | Middlewares/FreeRTOS/queue.c:2196-2206 | writing at the write pointer appends |
| QueueStorage.FrontIsPrepend | Middlewares/FreeRTOS/queue.c:2207-2218 | writing at the read pointer and stepping it back prepends |
| QueueStorage.RestIsTail | Middlewares/FreeRTOS/queue.c:2243-2261 | stepping the read pointer on removes the first item |
| QueueStorage.WriteIsAheadOfRead | Middlewares/FreeRTOS/queue.c:286-288 | in every state the write pointer is the read pointer advanced by one item more than the messages, modulo the storage |
| QueueStorage.Queue.constructor | Middlewares/FreeRTOS/queue.c:464-508 | starts empty |
| QueueStorage.Queue.Reset | Middlewares/FreeRTOS/queue.c:266-290 | empties the queue |
| QueueStorage.OverwriteReplacesIff | Middlewares/FreeRTOS/queue.c:2171-2234 | overwriting replaces what is there if and only if the items have a size or nothing is there |
| QueueStorage.Queue.CopyDataToQueue | Middlewares/FreeRTOS/queue.c:2160-2240 | appends, prepends or replaces, or adds one more item of size 0 |
| QueueStorage.Queue.CopyDataFromQueue | Middlewares/FreeRTOS/queue.c:2243-2261 | the oldest item |
| QueueStorage.Queue.Send | Middlewares/FreeRTOS/queue.c:826-850 | what a send does to the contents, and when it fails |
| QueueStorage.Queue.Receive | Middlewares/FreeRTOS/queue.c:1377-1400 | removes the first item |
| QueueStorage.Queue.Peek | Middlewares/FreeRTOS/queue.c:1740-1760 | the first item; nothing changes, the read pointer included |
| Lists.LinkIn | Middlewares/FreeRTOS/list.c:87-114 | the four assignments put an item into the circle at its place |
| Lists.LinkOut | Middlewares/FreeRTOS/list.c:188-199 | the two assignments take exactly that item out |
| Lists.InsertKeepsAscending | Middlewares/FreeRTOS/list.c:117-183 | an item placed behind all not above it keeps the list ascending |
| Lists.InsertEndIsRing | Middlewares/FreeRTOS/list.c:87-114 | what insert-end does to nodes and index is insertion just before the index in the order of hand-out |
| Lists.RemoveIsRing | Middlewares/FreeRTOS/list.c:188-213 | likewise for removal, with the index stepping back if it is at the item |
| Lists.List.constructor | Middlewares/FreeRTOS/list.c:50-72 | an empty circle |
| Lists.List.InsertEnd | Middlewares/FreeRTOS/list.c:87-114 | the nodes, the index and the order afterwards |
| Lists.List.FindPlace | Middlewares/FreeRTOS/list.c:130-170 | the search finds the place behind all equal values and ends at the end marker at the latest, for the greatest value without a search |
| Lists.List.Insert | Middlewares/FreeRTOS/list.c:117-183 | keeps ascending order and is stable, the greatest value included |
| Lists.List.Remove | Middlewares/FreeRTOS/list.c:188-213 | deletes exactly that item, keeps the index valid, reports how many remain, and removes it from the order of hand-out |
| Lists.List.NextEntry | Middlewares/FreeRTOS/tasks.c:172-180 | hands out the next item round the circle, skipping the end marker |
| RoundRobin.StepCounts | Middlewares/FreeRTOS/list.c:87-213 | one step of insert-end, removal or selection, for an item that stays |
| RoundRobin.OncePerPass | Middlewares/FreeRTOS/tasks.c:172-180 | over any run an item that stays is selected once for every pass of the index over the end marker, give or take whether its turn was to come at the start and at the end |
| RoundRobin.StepKeepsOrder | Middlewares/FreeRTOS/list.c:87-213 | the circular order of the items that stay never changes |
| RoundRobin.EqualShares | Middlewares/FreeRTOS/tasks.c:172-180 | two items that stay are never more than one selection apart |
| IpdParser.ChunksDoNotMatter | Drivers/BSP/ESP8266/esp8266.c:248-322 | for any rounds that what follows never changes, parsing in two goes is parsing in one |
| IpdParser.RoundIsStable | Drivers/BSP/ESP8266/esp8266.c:248-322 | no later byte changes what a round of the parser decides |
| IpdParser.RoundMakesProgress | Drivers/BSP/ESP8266/esp8266.c:286-292 | a round that acts takes at least one byte and no more than there are |
| IpdParser.IncrementalIsBatch | Drivers/BSP/ESP8266/esp8266.c:248-322 | parsing after a and again after b makes the callbacks, and leaves the residue, of parsing a and b at once |
| IpdParser.InterleavingDoesNotMatter | Drivers/BSP/ESP8266/esp8266.c:37-43 | however the receive interrupt and the parser interleave, the callbacks made and still to come and the final residue are those of parsing all accepted bytes at once |
| IpdParser.AllAccepted | Drivers/BSP/ESP8266/esp8266.c:37-43 | no byte is lost while the unparsed ones fit the ring |
| IpdParser.WaitsIff | Drivers/BSP/ESP8266/esp8266.c:251-297 | a round waits if and only if there is no needle, no colon within 63 bytes of the first one, or an accepted header of a frame that is not all there |
| IpdParser.StuckIff | Drivers/BSP/ESP8266/esp8266.c:37-43 | no byte received and no round of the parser changes anything any more if and only if the ring is full and a round waits |
| IpdParser.StuckForGood | Drivers/BSP/ESP8266/esp8266.c:248-322 | a stuck receiver stays as it is over every run of reception and parsing |
| IpdParser.NoiseSticks | Drivers/BSP/ESP8266/esp8266.c:37-43 | the concrete case, from an empty ring: 1023 zero bytes |
| IpdParser.HeaderIsReadBack | Drivers/BSP/ESP8266/esp8266.c:157-187 | a header in either form, with a link id or without one, is read back as its link (0 if none is given) and its length |
| IpdParser.RoundShifted | Drivers/BSP/ESP8266/esp8266.c:248-322 | bytes in front that begin no needle only move along what a round does |
| IpdParser.NoiseIsPassedOver | Drivers/BSP/ESP8266/esp8266.c:248-322 | they make no difference to the callbacks, nor to the end of the residue |
| IpdParser.FramesAreDelivered | Drivers/BSP/ESP8266/esp8266.c:248-322 | frames of either form, with any other text before, between and behind them, are delivered whole and in order, and only the text behind the last is left |
| IpdParser.ReadHeader | Drivers/BSP/ESP8266/esp8266.c:157-187 | the digit loops compute the header the parser is specified by |
| IpdParser.Receiver.Push | Drivers/BSP/ESP8266/esp8266.c:37-43 | appends a byte unless the ring is full |
| IpdParser.Receiver.Consume | Drivers/BSP/ESP8266/esp8266.c:46-51 | drops the oldest bytes |
| IpdParser.Receiver.CopyOut | Drivers/BSP/ESP8266/esp8266.c:54-64 | takes out the oldest bytes in order |
| IpdParser.Receiver.FindHit | Drivers/BSP/ESP8266/esp8266.c:256-265 | the first place of the needle |
| IpdParser.Receiver.CopyHeader | Drivers/BSP/ESP8266/esp8266.c:272-280 | the header up to its colon, or the knowledge that there is none within reach |
| IpdParser.Receiver.LocateHeader | Drivers/BSP/ESP8266/esp8266.c:251-284 | what a round will decide once it has a header, or that it must wait |
| IpdParser.Receiver.DoOneRound | Drivers/BSP/ESP8266/esp8266.c:248-322 | one round, in the ring |
| IpdParser.Receiver.ParseFrames | Drivers/BSP/ESP8266/esp8266.c:248-322 | callbacks and residue are those of one batch |
| IpdParser.Receiver.AwaitText | Drivers/BSP/ESP8266/esp8266.c:106-155 | finds the text if and only if it is in the ring, and then takes as many bytes as its line has from there on, but from the front of the ring |
| IpdParser.Receiver.DropLines | Drivers/BSP/ESP8266/esp8266.c:418-434 | takes everything up to and with the last newline, however long the lines are |
| IpdErrors.HeaderIsAcceptedIff | Drivers/BSP/ESP8266/esp8266.c:157-187 | a header is accepted in two forms only, digits up to a colon with or without digits up to a comma before them, its numbers cut to the width of their fields |
| IpdErrors.RoundDecides | Drivers/BSP/ESP8266/esp8266.c:266-320 | once a header is complete, a round takes one byte if it is rejected, the whole frame undelivered if that is too long for the buffer, and else delivers the frame |
| IpdErrors.LongFrameIsSkipped | Drivers/BSP/ESP8266/esp8266.c:303-310 | a frame too long for the buffer is skipped whole, and what follows is parsed as if it had not been |
| IpdErrors.RejectedHeadersArePassedOver | Drivers/BSP/ESP8266/esp8266.c:286-292 | a frame is delivered even behind needles, as long as every header they begin is complete and rejected |
| SerialLine.TakingIsHarmlessIff | Drivers/BSP/ESP8266/esp8266.c:106-155 | while the ring holds text with the beginning of at most one frame behind it, taking bytes off its front changes no callback, now or later, if and only if no frame can begin in them |
| SerialLine.DropLinesTakesNoiseIff | Drivers/BSP/ESP8266/esp8266.c:418-434 | the line loop takes no byte a frame may begin in if and only if there is no newline where one may have begun or behind that |
| SerialLine.StepFollowsIff | Drivers/BSP/ESP8266/esp8266.c:106-155 | one turn of the line loop, or one look of a wait, keeps the callbacks those of parsing everything accepted if and only if it takes no byte a frame may begin in |
| SerialLine.CarefulRunFollows | Drivers/BSP/ESP8266/esp8266.c:414-434 | that holds over every run in which nothing is taken that a frame may begin in |
| SerialLine.FramesArrive | Drivers/BSP/ESP8266/esp8266.c:248-322 | over every such run the callbacks are the first of those of the frames sent, in order; all of them, with only text from behind the last frame left, once everything is in and no round can do more |
| SerialLine.StuckWithLinesIff | Drivers/BSP/ESP8266/esp8266.c:414-434 | with the line loop, a ring is stuck if and only if it is full, nothing in it is complete and there is no newline in it |
| SerialLine.NewlineLosesTheFrame | Drivers/BSP/ESP8266/esp8266.c:418-434 | any frame with a newline before its last byte is lost if the line loop runs when it has been received up to there |
| SerialLine.AcknowledgementLosesTheNextFrame | Drivers/BSP/ESP8266/esp8266.c:782-799 | of two frames in the ring the second is lost when the wait for the prompt, in the acknowledgement of the first, finds the prompt behind it |
| Mqtt.DecodeUndoesEncodeIff | Drivers/BSP/MQTT/mqtt.c:79-108 | decoding a remaining length undoes encoding it if and only if it is below 2^28, whatever follows |
| Mqtt.BodyIsReadBackIff | Drivers/BSP/MQTT/mqtt.c:262-303 | a PUBLISH body gives back its topic, payload and acknowledgement if and only if the topic is below 128 bytes |
| Mqtt.StreamIsReceivedIff | Drivers/BSP/MQTT/mqtt.c:308-354 | a stream of published packets delivers exactly their topics and payloads in order and acknowledges exactly those of QoS 1, if and only if every topic is below 128 bytes |
| Mqtt.PublicationIsReceivedIff | Drivers/BSP/MQTT/mqtt.c:262-354 | one packet is received as sent if and only if its topic is below 128 bytes |
| Mqtt.LongTopicIsCut | Drivers/BSP/MQTT/mqtt.c:277-290 | a longer topic arrives as its first 127 bytes, with the rest of it at the front of the payload, or, above quality 0, with the packet identifier read from there |
| Mqtt.TopicOf128Bytes | Drivers/BSP/MQTT/mqtt.c:277-290 | the concrete case of a topic of 128 bytes |
| Mqtt.EncodeLength | Drivers/BSP/MQTT/mqtt.c:79-90 | writes the encoded length and nothing before it |
| Mqtt.DecodeLength | Drivers/BSP/MQTT/mqtt.c:95-108 | the decoded length, or none after four bytes that all continue |
| Mqtt.BuildPublish | Drivers/BSP/MQTT/mqtt.c:187-207 | the packet, or a refusal exactly when the buffer is too small for the longest header |
| Mqtt.NextPacket | Drivers/BSP/MQTT/mqtt.c:308-316 | where the next complete packet begins and ends |
| Mqtt.Client.ReceivePublish | Drivers/BSP/MQTT/mqtt.c:262-303 | the actions of one PUBLISH |
| Mqtt.Client.Receive | Drivers/BSP/MQTT/mqtt.c:308-354 | the actions of all complete packets, in order |
| MqttPackets.PacketsAreHandled | Drivers/BSP/MQTT/mqtt.c:308-354 | packets of every type in any order, and as much as has come of one more: each complete one brings about what it should, in order, and the rest nothing |
| MqttPackets.IncompleteIsLeft | Drivers/BSP/MQTT/mqtt.c:308-316 | a packet that is not all there brings about nothing |
| MqttPackets.StandardExamples | Drivers/BSP/MQTT/mqtt.c:79-90 | examples of sections 2.2.3 and 3.3 of MQTT 3.1.1: the limits of encoded lengths, and a PUBLISH with an identifier |
| Downlink.PublicationsArrive | Drivers/BSP/MQTT/mqtt.c:357-364 | publications framed for the broker's link in either form, several to a frame and with other text around the frames, reach the application in order, and exactly those of QoS 1 are acknowledged, however their bytes arrive and whenever the parser, the line loop and the waits of transmissions run, as long as these take no byte a frame may begin in; in the end no frame is left behind |
| Downlink.OtherLinksAreIgnored | Drivers/BSP/MQTT/mqtt.c:357-364 | what comes on other links is ignored |
| Downlink.LengthTenIsLost | Drivers/BSP/ESP8266/esp8266.c:418-434 | the concrete case where the line loop does, from an empty ring: a topic of ten letters, whose length is a newline, is lost |

## Left out

Conditions under which the run theorems hold, because the source does not keep its claims without them:

- QueueRuns.ReceiversNeverLoseAWake: at most 127 interrupt posts per locked section; no waiting or woken task is suspended or deleted; the queue is in no set.
- QueueWakes.FirstInLineIsWoken: by the priorities with which tasks joined the list; the source does not sort an event list again when the priority of a waiting task changes.
- Mutexes.HolderOutranksEveryWaiter: no task waits for a mutex while it holds another, holders and waiters are not suspended or deleted, gives come from the holder, no mutex call is made with the scheduler suspended, and no priority is set by hand. A task readied above the running one preempts it at once.
- MutexLoans.UndoLeavesTheLeast: the same conditions, as for the other theorems of MutexLoans.
- MutexTimeouts.LoweredHolderHasCompany: the same conditions.
- MutexScheduling.ReadyListsSurviveMutexes: the same conditions, and the idle task never blocks.
- QueueSets.SelectedMembersAreReady: a member is read only after it has been selected, is not reset, and is empty when a removal takes it out; no item of size 0 is overwritten, and none at all from an interrupt while the member is full and locked; at most 127 interrupt posts per locked section; the set is at least as long as its members together.
- Downlink.PublicationsArrive: the line loop, the waits for replies and the commands that empty the ring take no byte that a frame may begin in (`SerialLine.Careful`), which the program does not see to; an acknowledgement is an action of the application, and whether its transmission succeeds is not modelled.
- SerialLine.FramesArrive: the same condition.
- Timers.TimerDaemon.TimerTask: every command is read less than 2^32 ticks after it was sent, and the reload mode of an active timer is not changed.
- DelayedTasks.DelayIsExact: fewer than 2^32 ticks pass during one suspension of the scheduler; a delay of 0 ticks, which only the timer daemon at tick 0 asks for, is not modelled.
- ReadyLists.ReadyStructureHolds: the idle task stays ready, and undoing an inheritance after a timeout happens only where its condition holds, which `MutexScheduling.UndoIsSafe` shows of every reachable state.

What the model does not say:

- Hardware, the port layer and critical section nesting: critical sections are atomic steps, interrupts are steps of their own.
- Tasks, queues and buffers are not deleted, and memory is not allocated; static and dynamic creation are one.
- Which of several event lists a task waits on is left to the queue, event group and mutex models; DelayedTasks only records that it is delayed, asleep or pending, and that an aborted delay has readied it.
- The overflow counter and the tick count are followed for runs of any length, so the wrap of the overflow counter itself after 2^64 ticks is not modelled.
- Stream buffers whose length exceeds half of the address space, for which the index sums would wrap, are not modelled; nor are blocking sends and receives beyond their attempts, trigger levels, and reset.
- The order of the delayed lists in ReadyLists, where only membership counts; DelayedTasks keeps them in order.
- An event group's list value is the set of the numbers of its one bits rather than a machine word.
- Pended function calls to the timer daemon, and deletion and reload-mode changes of timers.
- A header number of an `+IPD` frame above the range of int: its value is undefined in the source; the model takes the exact number and then truncates.
- What `esp8266_loop` reads off the lines it drops (the state of links and of the network), and the commands of the driver other than in what they take out of the ring. `at_wait_for` is one look at the ring; its timeout is any number of looks.
- What a queue that has been removed from a set holds afterwards; if it is added again it counts as another member.
- MQTT connection set-up, SUBSCRIBE, UNSUBSCRIBE and keep-alive: fixed layouts with nothing across functions to prove; QoS 2 is delivered but not acknowledged, as in the source.
- vTaskPrioritySet, task notifications, co-routines, tickless idle, trace and statistics.
- list.h, the port macros and the kernel header files are not part of this model; their macros are modelled from their uses.
