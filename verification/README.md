# Subscriptions, wakeups and group compilation of pva2pva

pva2pva holds two EPICS programs which pass updates of structured values from one side to
another: the *p2p gateway*, which shares one upstream subscription among any number of clients,
and *QSRV*, which serves records and groups of records and links records to remote channels.
Both use bounded queues, and both promise that a client which is too slow loses intermediate
values but never the last one. This project models the machinery behind that promise, and what
feeds it, and proves what it keeps.

A structure value is a sequence with one datum per field, numbered in preorder; a bit mask is a
set of field numbers, and a bit stands for all fields inside its field, bit 0 for everything.
Each region which the program runs with a mutex held is one step. Each component has two parts:

- a *specification* on values: its state, its steps, runs of steps, and the theorems about all
  runs (`MonitorUserSpec`, `GatewayRuns`, `BaseMonitorSpec`, `WorkQueueSpec`,
  `LinkChannelSpec`, `GroupSpec`, `ChannelCacheSpec`);
- the program's *classes*, with its fields, its loops and its updates in place, whose methods
  are proved to do exactly the steps of the specification (`MonitorCache`, `BaseMonitor`,
  `WorkQueue`, `LinkChannel`, `Group`, `ChannelCache`).

Other modules put parts together. `MonitorCacheRuns` and `BaseMonitorRuns` let threads use the
classes of the gateway, and the class of the QSRV queue, in any order, and prove that the heap
follows a run of the specification. `GroupMonitors` joins a group with the queues of its
subscribers; `EarlyRelease` and `UnguardedAdd` are runs of that, from the initial state, in which a
subscriber misses an event for good. `GroupEvents` joins a group with its compiled configuration.

Three modules say what the results mean to someone who sees only the calls, or the configuration:
`GatewayReports` and `BaseMonitorReports` relate every element a client is given to the updates and
posts it stands for, and `GroupTriggers` relates trigger lists to trigger texts.

Fields that the program does not have are history: what the client holds after applying every
element it polled, which updates an overflow has squashed, how many notifications are under way.

The remaining modules are `FieldPath` (splitting, parsing and printing of dotted paths),
`GroupCompile` (from the configuration of a group to its members and trigger lists), `GroupPut`
(writing to a group), `FieldTree` (masks over a tree of fields), `PvData` and `MonitorElements`.

## Main results

- **Gateway.** After every run, with any number of users and however slowly they poll, what a
  user's client holds, then its queue, then its overflow element, come to the upstream value;
  an overflow element reports exactly what was squashed into it; no wakeup is lost; and a client
  which drains its queue ends on the upstream value. In terms of what the upstream sent
  (`GatewayReports.EveryUpdateIsReportedOnce`): each element has exactly the masks of a stretch of
  the updates, the stretches follow each other without gap or overlap, and a client's view is
  always what the upstream was at some time, and never goes back. On the heap, where elements are shared by
  reference, `MonitorCacheRuns.ServeAll` proves the same of the classes themselves, and that
  nothing is written to an element between `poll()` and `release()`.
- **QSRV monitor queue.** The same promise, kept by pending masks over one shared structure, over
  every run of all four posts, with any steps between the two halves of a release. Elements are
  conserved whatever is restarted; agreement needs that the last start found a free element, and
  wakeups that its client knew what was left in the queue. Each element marks exactly what was
  posted since the one before it, and as overrun exactly what was lost. On the heap, `BaseMonitorRuns.Serve`
  proves for any sequence of calls that nothing is written to what the client holds.
- **Work queue.** For any number of workers and adders no wakeup is lost, work leaves in the order
  of its acceptance, the pool drains, and a shutdown completes, from one signal each. The worker's
  loop, among any steps of other threads, is a run of that protocol.
- **PVA link channels**, together with the work queue they share: each channel has one run
  scheduled when it is flagged and none otherwise; at rest every event, be it a lost connection,
  was followed by a run, and each channel which had data since it was last lost has taken every
  update, in a run for each.
- **Group subscriptions.** Start-up counts exactly the first events still to come, as many as the
  configuration of the group gives; no event is posted before the last of them; and the set of
  subscribers survives additions and removals made while it is iterated over. Joined with the
  monitor queues: between events each running monitor follows the group's structure, but for what
  is pending. start(), stop(), release() and addMonitor() each leave the lock between two steps, and
  for each of these gaps the condition is proved under which what comes into it does no harm.
- **Group compilation.** Sorting, compaction and renumbering preserve the configured triggers; puts
  reach the members in order of putorder and stop at the first refusal.
- **Paths, masks, channel cache.** Parsing and printing are inverse; the compressed masks decide
  exactly what they are meant to; the cleaner gives every entry exactly a second chance.

Where the program keeps a promise only under a condition, the condition is proved to be exact, and
where that is not plain from the condition an input which fails is given:

| condition | lemma |
|---|---|
| starting a gateway user again with overflow pending needs that no free element is left over; otherwise the assertion of the update loop fails, and without it the client goes back to an older value | `StartKeepsInv`, `UnsafeStartGoesBack` |
| a gateway user needs a queue of at least one element | `MonitorUserSpec.StartNeedsAnElement` |
| a QSRV monitor started with no free element forgets what was written before | `BaseMonitorSpec.StartNeedsAnElement`, `RestartForgetsWrite` |
| a QSRV monitor started with a free element keeps its promise to notify just when its client knows, or will be told, what is left in the queue; otherwise the client is never told | `RestartNeedsTold`, `SilentForGood`, `RestartWithQueueLosesWakeup` |
| the overrun mask given to a QSRV post is recorded only if the queue is full | `OverrunsNeedAFullQueue` |
| a QSRV monitor stays sound just when what is released is held by the client | `ReleasePush` |
| a group subscriber removed and added again during one event is lost | `ReaddedIsLost`, `LostMonitor` |
| a start() on a group must find a free element, or the monitor runs and is never subscribed; no release() of before may be between its two steps, or an event is forgotten; and no event in progress may still count the monitor, or it is lost | `StartIsExact`, `StartedWithoutElement`, `EarlyRelease.ForgottenForGood`, `StartedWhileCounted` |
| no event may come while addMonitor() has dropped the lock to post to a new subscriber, or that one misses it | `EventIsExact`, `UnguardedAdd.MissedForGood` |
| when addMonitor() has the lock again, another must still be subscribed, or the new subscriber has database events disabled; and no first events may be awaited anew, or it misses these | `StepKeepsHeard`, `LeftAlone`, `EnterIsExact`, `UnguardedAdd.SwappedForGood` |
| a path prints to something which parses back, but for a component which has no subscript (or one of 4294967295) and no name, or a name ending in a bracket | `ParseShow`, `NamelessIsLost` |
| a put to a field with the plain mapping looks only for the field's own bit, which is right for all masks just when nothing encloses the field | `PlainPutIsExact` |
| inside a structure array a put looks only for bit 0 and the array's bit, which is right just when the array is at the top level | `EnclosedPutIsExact` |
| a channel which drops takes its replacement in the cache with it | `DropIsExact`, `LateDropTakesReplacement` |

## Model

| member | source | states |
|---|---|---|
| `PvData.CopyAll` | p2pApp/moncache.cpp:307-310 | bit 0 selects the whole structure |
| `PvData.FoldSnoc` | p2pApp/moncache.cpp:331-343 | a client applies the elements of its queue in their order |
| `MonitorUserSpec.UpdateKeepsInv` | p2pApp/moncache.cpp:147-197 | an update, queued or squashed, keeps: view, then queue, then overflow element make the upstream value; elements are conserved; overflow masks are those of the episode |
| `MonitorUserSpec.MasksSquash` | p2pApp/moncache.cpp:160-168 | accumulated masks: changed is what any update of the episode changed, overrun what was lost upstream or changed by two of them, bit for bit |
| `MonitorUserSpec.CopySquash` | p2pApp/moncache.cpp:168-171 | copying only changed fields into the overflow element suffices, although the rest of it is stale |
| `MonitorUserSpec.PollKeepsInv` | p2pApp/moncache.cpp:331-343 | a poll moves the first element from the queue to the client's view, and loses nothing |
| `MonitorUserSpec.ReleaseKeepsInv` | p2pApp/moncache.cpp:345-375 | so does a release, in overflow and out of it |
| `MonitorUserSpec.InitialElementSuffices` | p2pApp/moncache.cpp:307-311 | after the initial element the client has the upstream value, and stale parts of the overflow element do not show |
| `MonitorUserSpec.StartKeepsInv` | p2pApp/moncache.cpp:270-321 | a start keeps the invariant if and only if it is the first, or no overflow is pending, or it leaves no free element |
| `MonitorUserSpec.StartNeedsAnElement` | p2pApp/moncache.cpp:304-313 | a late user is given the current value if and only if its queue has an element |
| `MonitorUserSpec.UnsafeStartGoesBack` | p2pApp/moncache.cpp:157-179 | stop, update, start: the assertion fails, and past it the client ends on the older value |
| `MonitorUserSpec.OverflowExit` | p2pApp/moncache.cpp:354-364 | the element which leaves overflow carries exactly the masks of its episode, and the current upstream value in every field it marks |
| `MonitorUserSpec.DrainReachesUpstream` | p2pApp/moncache.cpp:331-375 | polling and releasing until poll() gives nothing terminates, out of overflow, with the client holding the upstream value |
| `GatewayRuns.UpdateUserKeepsInv` | p2pApp/moncache.cpp:136-198 | a whole upstream event keeps a user's invariant, and leaves what its client holds and what was queued before |
| `GatewayRuns.UpdateUserSafe` | p2pApp/moncache.cpp:176-179 | the assertion of the user loop holds for every update of an event if it does for the first |
| `GatewayRuns.StepKeepsInv` | p2pApp/moncache.cpp:109-375 | every step of the gateway keeps the invariant of all users at once |
| `GatewayReports.QueuedOneByOne` | p2pApp/moncache.cpp:136-193 | of the updates of an event, as many as find a free element get one each, in order, which holds the complete value after that update and exactly the masks which the upstream gave to it |
| `GatewayReports.QueueMore` | p2pApp/moncache.cpp:184-193 | an element which is queued leads the view to the upstream value at that time |
| `GatewayReports.QueuePoll` | p2pApp/moncache.cpp:331-343 | and polling the first one brings the view to the end of its stretch |
| `GatewayReports.EventAccounts` | p2pApp/moncache.cpp:136-198 | a whole event, however many of its updates find a free element, keeps the account of which element stands for which updates |
| `GatewayReports.StartAccounts` | p2pApp/moncache.cpp:289-316 | so does a start, whose element is the whole structure as it is then, marked by bit 0 beside the stale bits, without overruns |
| `GatewayReports.ReleaseAccounts` | p2pApp/moncache.cpp:354-371 | so does a release: the element which leaves overflow stands for every update since overflow began |
| `GatewayReports.EveryUpdateIsReportedOnce` | p2pApp/moncache.cpp:136-193 | after every run, in terms of the updates sent: each queued element has the masks of its stretch (changed: any, overrun: any lost or changed twice), so has the overflow element since overflow began, stretches have no gap or overlap, and each element leads the view to the upstream value at its end |
| `GatewayReports.ViewsMoveOn` | p2pApp/moncache.cpp:331-343 | from any point of any run, a client's view goes on to later values of the upstream, and never back |
| `GatewayReports.WakeupsAreNotified` | p2pApp/moncache.cpp:181-208 | over every run, a client is notified as often as an event or its start leads from an empty queue to one which is not, and for no other reason |
| `GatewayReports.RunningIsStarted` | p2pApp/moncache.cpp:315-329 | a user is running exactly if its last start or stop was a start |
| `GatewayRuns.EveryRunConverges` | p2pApp/moncache.cpp:136-197 | after every run, for every started user: view, queue and overflow element make the upstream value, elements are conserved, and the assertion holds |
| `GatewayRuns.IdleClientsAreCurrent` | p2pApp/moncache.cpp:181-208 | no lost wakeup: a running client with nothing pending holds the upstream value |
| `GatewayRuns.PolledElementsAreStable` | p2pApp/moncache.cpp:331-375 | over any run of the specification, what a client holds stays until it releases it |
| `MonitorCache.PlacesPartition` | p2pApp/chancache.h:85-88 | filled, empty, in use and overflow element are disjoint and make up all bufferSize+1 elements |
| `MonitorCache.MonitorUser.constructor` | p2pApp/moncache.cpp:244-253 | a user with no elements, not started |
| `MonitorCache.MonitorUser.Overflow` | p2pApp/moncache.cpp:157-174 | squashing in place does what the specification says, and touches no other element |
| `MonitorCache.MonitorUser.Enqueue` | p2pApp/moncache.cpp:184-193 | the update is copied to a free element and queued |
| `MonitorCache.MonitorUser.Update` | p2pApp/moncache.cpp:152-196 | one user's part of an update; the client's elements are not in its frame; notify exactly when the queue was empty and is no longer |
| `MonitorCache.MonitorUser.Poll` | p2pApp/moncache.cpp:331-343 | the first queued element, by reference, or nothing |
| `MonitorCache.MonitorUser.SwapOverflow` | p2pApp/moncache.cpp:354-364 | leaving overflow swaps elements without a copy, and keeps the partition |
| `MonitorCache.MonitorUser.Release` | p2pApp/moncache.cpp:345-375 | refused exactly for elements not in use; otherwise the specified release |
| `MonitorCache.MonitorUser.Allocate` | p2pApp/moncache.cpp:289-300 | the first start makes bufferSize free elements and one more |
| `MonitorCache.MonitorUser.InitialElement` | p2pApp/moncache.cpp:304-313 | the initial element holds the upstream value, marked by bit 0 beside whatever the element's mask still held |
| `MonitorCache.MonitorUser.Start` | p2pApp/moncache.cpp:289-316 | the specified start; notify exactly when the queue was empty and is no longer |
| `MonitorCache.MonitorUser.Stop` | p2pApp/moncache.cpp:323-329 | only the running flag changes |
| `MonitorCache.MonitorCacheEntry.constructor` | p2pApp/moncache.cpp:34-43 | no users and no data yet |
| `MonitorCache.MonitorCacheEntry.CreateMonitor` | p2pApp/channel.cpp:198-204 | a new user shares no element with the others |
| `MonitorCache.MonitorCacheEntry.StartUser` | p2pApp/moncache.cpp:279-317 | refused if the upstream failed; otherwise no other user is affected |
| `MonitorCache.MonitorCacheEntry.PollUser` | p2pApp/moncache.cpp:331-343 | a poll by one user leaves every other user as it was |
| `MonitorCache.MonitorCacheEntry.ReleaseUser` | p2pApp/moncache.cpp:345-375 | so does a release, be it of an element which another client holds |
| `MonitorCache.MonitorCacheEntry.StopUser` | p2pApp/moncache.cpp:323-329 | so does a stop |
| `MonitorCache.MonitorCacheEntry.DeliverTo` | p2pApp/moncache.cpp:152-196 | an update for one user changes no other user, nor anything a client holds |
| `MonitorCache.MonitorCacheEntry.DeliverNext` | p2pApp/moncache.cpp:147-197 | one turn of the loop over users |
| `MonitorCache.MonitorCacheEntry.DeliverToAll` | p2pApp/moncache.cpp:147-197 | the loop over users delivers to each exactly once |
| `MonitorCache.MonitorCacheEntry.Accumulate` | p2pApp/moncache.cpp:140-143 | the complete upstream value, with the changed and overrun masks of the last update alone |
| `MonitorCache.MonitorCacheEntry.PassOn` | p2pApp/moncache.cpp:136-198 | one turn of the loop over updates |
| `MonitorCache.MonitorCacheEntry.MonitorEvent` | p2pApp/moncache.cpp:130-199 | the nested loops over updates and users take every user to its specified state, and notify exactly those whose queue was empty and is no longer |
| `MonitorCache.AfterStep` | p2pApp/moncache.cpp:136-197 | one more update of an event, for all users: the specified step, the assertion, and the notification |
| `MonitorCacheRuns.PollStep` | p2pApp/moncache.cpp:331-343 | a poll on the heap is the step of the specification, for all users at once |
| `MonitorCacheRuns.ReleaseStep` | p2pApp/moncache.cpp:345-375 | so is a release of any element |
| `MonitorCacheRuns.StopStep` | p2pApp/moncache.cpp:323-329 | so is a stop |
| `MonitorCacheRuns.StartSafely` | p2pApp/moncache.cpp:270-321 | so is a start, with its notification |
| `MonitorCacheRuns.JoinStep` | p2pApp/channel.cpp:198-204 | so is a new subscription |
| `MonitorCacheRuns.EventStep` | p2pApp/moncache.cpp:109-210 | so is an upstream event, with its notifications |
| `MonitorCacheRuns.Serve` | p2pApp/moncache.cpp:109-375 | whatever threads do in whatever order, the heap follows a run of the specification |
| `MonitorCacheRuns.ServeAll` | p2pApp/moncache.cpp:136-197 | after it every started user on the heap converges to the upstream's last value, and whatever a client held and has not released it still holds, with nothing written to it |
| `MonitorCacheRuns.ReportedOnHeap` | p2pApp/moncache.cpp:136-193 | what is in the heap's queues after a run tells each client of each update of that run once, with its masks, in order |
| `MonitorCacheRuns.StartsMirrored` | p2pApp/moncache.cpp:34-43 | a new subscription is where every run begins |
| `BaseMonitorSpec.PostOneKeeps` | common/pvahelper.h:244-263 | queueing the complete value with the pending masks keeps: what the client has agrees with the owner's structure outside pending fields |
| `BaseMonitorSpec.PostKeepsSynced` | common/pvahelper.h:135-241 | so does each of the four posts, with the queue full or not |
| `BaseMonitorSpec.StepKeepsConserved` | common/pvahelper.h:135-339 | every step, with no condition on starts, conserves elements; and overflow while running means that no element is free, or that a releaser is about to post |
| `BaseMonitorSpec.StepKeepsSynced` | common/pvahelper.h:135-339 | every step keeps the agreement, if starts find a free element |
| `BaseMonitorSpec.StepKeepsTold` | common/pvahelper.h:159-182 | every step keeps the client told of its queue, if it is told at starts |
| `BaseMonitorReports.EveryElementReports` | common/pvahelper.h:185-263 | after every run, the next element queued has as changed exactly what was posted since the one before it, or all after a start; and as overrun exactly what was given as lost, or was posted while pending already, with the queue full |
| `BaseMonitorReports.QueuesExactly` | common/pvahelper.h:135-241 | an element is queued by a post to a running monitor with a free element, and by nothing else |
| `BaseMonitorReports.OverflowMeansFull` | common/pvahelper.h:159-241 | after every run, a monitor is in overflow if and only if a post or a start found the queue full since an element was last queued |
| `BaseMonitorReports.PostedTwiceIsLost` | common/pvahelper.h:225-226 | a field posted twice, the second time with the queue full, is reported as lost |
| `BaseMonitorReports.WakeupsAreNotified` | common/pvahelper.h:159-182 | over every run, a client is notified as often as a post leads from an empty queue to one which is not |
| `BaseMonitorReports.RunningIsStarted` | common/pvahelper.h:279-315 | a monitor is running exactly if its last start or stop was a start, with a free element or without |
| `BaseMonitorSpec.EveryRunConserves` | common/pvahelper.h:135-339 | after every run elements are conserved, and overflow is about to be left or has a full queue |
| `BaseMonitorSpec.EveryRunAgrees` | common/pvahelper.h:135-339 | after every run whose last effective start found a free element, a running client lacks only pending or unposted fields, whatever starts came before |
| `BaseMonitorSpec.IdleClientsAreCurrent` | common/pvahelper.h:159-182 | a running client with nothing left to do, nor anyone releasing for it, holds the complete value, if its last start found a free element and left it told of its queue |
| `BaseMonitorSpec.DrainReachesComplete` | common/pvahelper.h:317-339 | polling and releasing until poll() gives nothing terminates, with all elements free, out of overflow, and the client holding the complete value |
| `BaseMonitorSpec.FirstElementIsComplete` | common/pvahelper.h:289-297 | the first element after a start which found a free one is complete and carries bit 0 |
| `BaseMonitorSpec.StartNeedsAnElement` | common/pvahelper.h:289-299 | a start is right about every value if and only if an element is free or all fields are pending already |
| `BaseMonitorSpec.RestartForgetsWrite` | common/pvahelper.h:289-299 | with the one element held by the client: stop, write, post, start, and the write is neither held, queued nor pending |
| `BaseMonitorSpec.FirstPostNotifies` | common/pvahelper.h:259-262 | the first post after such a start notifies if and only if nothing was left in the queue |
| `BaseMonitorSpec.RestartNeedsTold` | common/pvahelper.h:279-301 | a start which finds a free element keeps everything if and only if the client knows, or will be told, of what is left in the queue |
| `BaseMonitorSpec.SilentForGood` | common/pvahelper.h:243-263 | a client which does not is never notified, over any run in which it does not poll of its own accord |
| `BaseMonitorSpec.RestartWithQueueLosesWakeup` | common/pvahelper.h:279-326 | and a client can come to that: its only poll comes while the monitor is stopped |
| `BaseMonitorSpec.OverrunsNeedAFullQueue` | common/pvahelper.h:195-207 | a post with an overrun mask records it, whatever it is, if and only if no element is free |
| `BaseMonitor.Monitor.constructor` | common/pvahelper.h:94-123 | connected, with all elements free |
| `BaseMonitor.Monitor.PostOne` | common/pvahelper.h:244-263 | the specified step in place; notify exactly when the queue was empty |
| `BaseMonitor.Monitor.PostPending` | common/pvahelper.h:159-182 | the specified post; its result says whether an element was queued |
| `BaseMonitor.Monitor.PostMask` | common/pvahelper.h:217-241 | the same, with a mask; with the queue full, what is posted again is added to the overruns |
| `BaseMonitor.Monitor.PostMasks` | common/pvahelper.h:185-214 | the same, with a mask and overruns, which are added too |
| `BaseMonitor.Monitor.PostNoOverflow` | common/pvahelper.h:136-156 | the same, without entering overflow |
| `BaseMonitor.Monitor.Start` | common/pvahelper.h:279-301 | the specified start; onStart() exactly when it was stopped and an element is free |
| `BaseMonitor.Monitor.Stop` | common/pvahelper.h:303-315 | only the running flag changes |
| `BaseMonitor.Monitor.Poll` | common/pvahelper.h:317-326 | the first queued element, by reference, if running |
| `BaseMonitor.Monitor.ReleasePush` | common/pvahelper.h:328-336 | the first half of a release, of any element; the monitor stays sound if and only if its client held that |
| `BaseMonitor.Monitor.RequestUpdate` | common/pvahelper.h:271-271 | its second half, with the lock taken anew |
| `BaseMonitor.Monitor.GetStats` | common/pvahelper.h:341-347 | what is neither free nor queued is what the client holds; the difference never goes below zero |
| `BaseMonitor.ReturnKeepsApart` | common/pvahelper.h:328-336 | an element which the client held and returns is in one place only |
| `BaseMonitorRuns.WriteStep` | pdbApp/pdbgroup.cpp:44-62 | the owner's write to the shared structure is what the specification calls a write |
| `BaseMonitorRuns.PostStep` | common/pvahelper.h:135-241 | each post on the heap is that of the specification, and notifies exactly when that counts a notification |
| `BaseMonitorRuns.OwnStep` | common/pvahelper.h:135-315 | what is not poll() or release() touches no element but the first free one, and moves none |
| `BaseMonitorRuns.ClientStep` | common/pvahelper.h:317-336 | a poll hands out the element which was kept longest, a release puts one behind all others, and neither writes to any |
| `BaseMonitorRuns.CallsAreRun` | common/pvahelper.h:135-339 | the calls which are possible, of any sequence, are an enabled run of the specification |
| `BaseMonitorRuns.Serve` | common/pvahelper.h:244-339 | any sequence of calls ends in exactly the specified state, with the elements in exactly their places; what the client held and has not returned it still holds, with nothing written to it |
| `BaseMonitorRuns.ServeAll` | common/pvahelper.h:135-339 | from connect() on, on the heap: elements are conserved, and the client lacks only pending or unposted fields if the last start found a free element |
| `WorkQueueSpec.StepKeepsInv` | pdbApp/tpool.cpp:52-135 | every step keeps: a queue with work, or a shutdown, has a signal pending or a worker which will look without waiting |
| `WorkQueueSpec.NoLostWakeup` | pdbApp/tpool.cpp:79-131 | after every run: if active with work queued, the event is set, an adder will set it, or a worker will look again; and work is taken in the order of acceptance |
| `WorkQueueSpec.RunIsAsAsked` | pdbApp/tpool.cpp:25-96 | over every run: as many workers as the last start asked for until they are joined, and accepted is exactly the work which is added between start() and close(), in order |
| `WorkQueueSpec.TestNotesEmpty` | pdbApp/tpool.cpp:104-113 | a worker notes the queue as empty if and only if its turn leaves it empty |
| `WorkQueueSpec.InternalStepDecreases` | pdbApp/tpool.cpp:93-135 | every step the pool takes by itself lowers a measure |
| `WorkQueueSpec.PoolDrains` | pdbApp/tpool.cpp:104-131 | left alone, an active pool rests within a known number of steps, and has then taken all accepted work |
| `WorkQueueSpec.ShutdownCompletes` | pdbApp/tpool.cpp:65-71 | the one signal of close() is passed on until all workers have left, within a known number of steps |
| `WorkQueue.Queue.Start` | pdbApp/tpool.cpp:25-44 | refused unless idle; otherwise active with that many workers |
| `WorkQueue.Queue.Add` | pdbApp/tpool.cpp:79-96 | work is accepted only while active; signal exactly when the queue was empty |
| `WorkQueue.Queue.Signal` | pdbApp/tpool.cpp:93-95 | the signal of an adder, after its unlock |
| `WorkQueue.Queue.Take` | pdbApp/tpool.cpp:104-111 | the loop test when it goes on: taking one work, and whether it was the last |
| `WorkQueue.Queue.Quit` | pdbApp/tpool.cpp:104-104 | the loop test when the loop ends |
| `WorkQueue.Queue.Proceed` | pdbApp/tpool.cpp:113-130 | wait exactly if the queue was seen empty |
| `WorkQueue.Queue.Wake` | pdbApp/tpool.cpp:127-129 | the event wakes one worker and resets itself |
| `WorkQueue.Queue.Leave` | pdbApp/tpool.cpp:133-135 | a leaving worker passes the signal on |
| `WorkQueue.Queue.Close` | pdbApp/tpool.cpp:52-63 | only an active pool is stopped |
| `WorkQueue.Queue.CloseSignal` | pdbApp/tpool.cpp:65-65 | the signal of close(), after its unlock |
| `WorkQueue.Queue.Join` | pdbApp/tpool.cpp:67-76 | idle again, once all workers have left |
| `WorkQueue.Queue.Interfere` | pdbApp/tpool.cpp:113-130 | whatever other threads do while a worker does not hold the mutex, the worker stays where it is |
| `WorkQueue.Queue.Turn` | pdbApp/tpool.cpp:106-129 | one turn of a worker's loop |
| `WorkQueue.Queue.Await` | pdbApp/tpool.cpp:127-129 | the wait, as long as other threads do not set the event |
| `WorkQueue.Queue.PassOn` | pdbApp/tpool.cpp:133-135 | after the loop the signal is passed on |
| `WorkQueue.Queue.RunWorker` | pdbApp/tpool.cpp:98-135 | run() with its loop, among any steps of other threads, is a run of the protocol, and what it runs is what it takes in it |
| `LinkChannelSpec.MovedKeepsInv` | pdbApp/pvalink_channel.cpp:261-434 | each locked region of a channel keeps: one run scheduled if flagged and none otherwise, and updates attended to |
| `LinkChannelSpec.PoolStepKeepsInv` | pdbApp/tpool.cpp:104-111 | so does every step of the workers |
| `LinkChannelSpec.NextKeepsInv` | pdbApp/pvalink_channel.cpp:290-293 | so does every move of the whole system |
| `LinkChannelSpec.ScheduledOnce` | pdbApp/pvalink_channel.cpp:284-293 | after every run a channel is scheduled at most once, exactly if flagged; and while connected an update in its monitor's queue means a run or a callback to come |
| `LinkChannelSpec.OwnMoveDecreases` | pdbApp/pvalink_channel.cpp:318-434 | every move the system makes by itself lowers a measure |
| `LinkChannelSpec.AtRestMeansDrained` | pdbApp/pvalink_channel.cpp:330-334 | a system at rest has an empty work queue, no flag set, and no update left in a connected channel |
| `LinkChannelSpec.ConnectedMeansData` | pdbApp/pvalink_channel.cpp:269-282 | after every run, a channel is connected if and only if the last of its data events and lost connections was data |
| `LinkChannelSpec.CancelIsSilent` | pdbApp/pvalink_channel.cpp:275-276 | a cancelled monitor changes and schedules nothing |
| `LinkChannelSpec.OneRunForEachUpdate` | pdbApp/pvalink_channel.cpp:330-334 | over any run without disconnection, what is left in the monitor's queue and the runs which found an update together make the updates which came in |
| `LinkChannelSpec.EveryUpdateIsTaken` | pdbApp/pvalink_channel.cpp:427-432 | when the upstream pauses, the system comes to rest within a known number of moves; then every event was followed by a run, and every channel whose last event was data has no update left |
| `LinkChannelSpec.EveryUpdateHasItsRun` | pdbApp/pvalink_channel.cpp:318-334 | at rest, a new channel which was not disconnected has had one run for each update, from the first on |
| `LinkChannel.PvaLinkChannel.PollMonitor` | pdbApp/pvalink_channel.cpp:330-334 | takes an update, or finds the queue empty, after which the next update calls back |
| `LinkChannel.PvaLinkChannel.MonitorEvent` | pdbApp/pvalink_channel.cpp:261-293 | the specified callback: connected by data, disconnected by a failure or a loss; add exactly when newly flagged |
| `LinkChannel.PvaLinkChannel.RunLocked` | pdbApp/pvalink_channel.cpp:318-370 | the specified locked part of a run; records are processed unless connected with nothing to take |
| `GroupSpec.EventKeepsInv` | pdbApp/pdbgroup.cpp:64-84 | an event keeps the count of first events still to come, and its assertions hold |
| `GroupSpec.StepKeepsInv` | pdbApp/pdbgroup.cpp:64-228 | so does every step; subscribers are those which want to be, up to pending requests, those which are being added and those lost |
| `GroupSpec.RequestKeepsTracked` | pdbApp/pdbgroup.cpp:155-209 | additions, in one region or two, and removals, in any order, of the same monitor, and of one never added, keep account of who wants to be subscribed |
| `GroupSpec.EveryRunStartsUp` | pdbApp/pdbgroup.cpp:155-191 | after every run: the count is exact, its assertions hold for whatever comes next, nobody is posted to while it is positive, by an event or when it is added, and once it is zero everybody was posted to who is not lost |
| `GroupSpec.WaitsUntilAllDelivered` | pdbApp/pdbgroup.cpp:64-78 | after every run, a group has stopped waiting if and only if each member's properties, and its value if that causes events, were delivered since a first subscriber last came |
| `GroupSpec.EveryRunTracksSubscribers` | pdbApp/pdbgroup.cpp:86-107 | after every run, between events: the subscribers are the started monitors but for the lost ones and those being added, nothing is pending, and events are enabled only if there is a subscriber |
| `GroupSpec.StepKeepsHeard` | pdbApp/pdbgroup.cpp:182-191 | a step keeps events enabled for whoever is subscribed if and only if it does not insert a monitor where nobody else is left |
| `GroupSpec.AccompaniedIsHeard` | pdbApp/pdbgroup.cpp:194-228 | over every run in which each monitor that is inserted finds another one, events are enabled if and only if there is a subscriber |
| `GroupSpec.LeftAlone` | pdbApp/pdbgroup.cpp:182-191 | a run in which the only other subscriber leaves while a new one is posted to, which ends subscribed with events disabled |
| `GroupSpec.StaysDisabled` | pdbApp/pdbgroup.cpp:157-180 | and they stay disabled, over any run, until addMonitor() finds nobody subscribed |
| `GroupSpec.PendingIsExact` | pdbApp/pdbgroup.cpp:187-205 | over every run, pending are exactly the additions made during the event in progress and not taken back, and the removals made during it but for those which took back an addition |
| `GroupSpec.ReaddedIsLost` | pdbApp/pdbgroup.cpp:91-102 | after every run, the event which ends loses exactly the monitors removed and then added again while it went on |
| `GroupSpec.NoneReaddedNoneLost` | pdbApp/pdbgroup.cpp:187-203 | with no such monitor, over a whole run, the subscribers between events are the started monitors but for those being added |
| `GroupSpec.LostMonitor` | pdbApp/pdbgroup.cpp:91-102 | a run which loses one |
| `GroupSpec.IterationIsStable` | pdbApp/pdbgroup.cpp:187-203 | over any run of posts and requests, the set being iterated over is not changed |
| `GroupSpec.FirstSubscriberIsServed` | pdbApp/pdbgroup.cpp:158-180 | the first subscriber awaits events, unless the group has no members: then none will come |
| `Group.PDBGroupPV.StartSubscriptions` | pdbApp/pdbgroup.cpp:162-180 | the counting loop: as many as there are first events to come |
| `Group.PDBGroupPV.FirstMonitor` | pdbApp/pdbgroup.cpp:158-180 | with the first subscriber, events are enabled and awaited |
| `Group.PDBGroupPV.AddMonitor` | pdbApp/pdbgroup.cpp:155-185 | the specified addition, in one region; or, exactly when not the first and nothing is awaited, the region which ends with a post |
| `Group.PDBGroupPV.Insert` | pdbApp/pdbgroup.cpp:187-190 | the region after the post: subscribed, or noted while an event is in progress |
| `Group.PDBGroupPV.RemoveMonitor` | pdbApp/pdbgroup.cpp:194-209 | the specified removal |
| `Group.PDBGroupPV.FinalizeMonitor` | pdbApp/pdbgroup.cpp:212-228 | events are disabled exactly when nobody is left |
| `Group.PDBGroupPV.Mark` | pdbApp/pdbgroup.cpp:64-76 | the first event of each kind is counted once |
| `Group.PDBGroupPV.Finish` | pdbApp/pdbgroup.cpp:91-106 | the loops over pending requests give (old and added) without removed |
| `Group.PDBGroupPV.TakeIn` | pdbApp/pdbgroup.cpp:91-95 | the loop over pending additions takes in all of them |
| `Group.PDBGroupPV.AddRequest` | pdbApp/pdbgroup.cpp:155-191 | the regions of addMonitor(), each of which is an enabled step |
| `Group.PDBGroupPV.Request` | common/pvahelper.h:279-315 | each region of a start or stop, with or without a free element: exactly what it asks of the group, if anything, and that is an enabled step |
| `Group.PDBGroupPV.Serve` | pdbApp/pdbgroup.cpp:81-84 | what is requested while a post has dropped the lock leaves the set iterated over as it was |
| `Group.PDBGroupPV.PostTo` | pdbApp/pdbgroup.cpp:81-84 | one post, with the requests made meanwhile |
| `Group.PDBGroupPV.FanOut` | pdbApp/pdbgroup.cpp:78-107 | the posts, and then the pending requests |
| `Group.PDBGroupPV.PostAll` | pdbApp/pdbgroup.cpp:81-84 | each subscriber is posted to exactly once, though every post lets other threads in |
| `Group.PDBGroupPV.Event` | pdbApp/pdbgroup.cpp:64-108 | a whole event, with any requests during its posts, is a run of the specification, each step of it enabled, which posts exactly once to each of those subscribed when it came in, or to nobody while first events are awaited |
| `GroupEvents.AddAwaitsConfigured` | pdbApp/pdb.cpp:570-584 | after any run, an addMonitor() which finds nobody subscribed awaits as many events as the configuration has fields with a channel, and one more for each of these for which it has anything posted |
| `GroupEvents.CountsByName` | pdbApp/pdbgroup.cpp:162-180 | the counting loop counts each member once, and each with triggers once more |
| `GroupEvents.CompiledSources` | pdbApp/pdb.cpp:580-582 | the members of a compiled group whose values cause events are the fields which declare any target |
| `GroupMonitors.EventIsExact` | pdbApp/pdbgroup.cpp:43-84 | an event, which writes the shared structure under all monitors, keeps the account of what each is owed if and only if it changes nothing or no addMonitor() is between its regions |
| `GroupMonitors.PostKeepsInv` | pdbApp/pdbgroup.cpp:81-84 | after its post, nothing written is missing from what a subscriber holds, has queued or has pending |
| `GroupMonitors.StartIsExact` | common/pvahelper.h:279-301 | the locked region of start() keeps the account if and only if it changes nothing, or finds a free element, no release of before between its two steps, and no event in progress which still counts the monitor |
| `GroupMonitors.JoinKeepsInv` | pdbApp/pdbgroup.cpp:155-191 | addMonitor(), which comes later, keeps it when it does not post |
| `GroupMonitors.GreetKeepsInv` | pdbApp/pdbgroup.cpp:182-185 | when it does, so does its first region |
| `GroupMonitors.EnterIsExact` | pdbApp/pdbgroup.cpp:187-190 | and its second one, if and only if another monitor is still subscribed and no first events are awaited |
| `GroupMonitors.StopKeepsInv` | common/pvahelper.h:303-315 | the locked region of stop() keeps it |
| `GroupMonitors.LeaveKeepsInv` | pdbApp/pdbgroup.cpp:194-209 | so does removeMonitor(), which comes later |
| `GroupMonitors.StepKeepsInv` | pdbApp/pdbgroup.cpp:31-228 | so does every step of the group, its monitors and their clients |
| `GroupMonitors.SubscribersFollow` | pdbApp/pdbgroup.cpp:78-107 | after every run, between events, what the client of a running monitor holds and has queued makes the group's structure but for pending fields; and the monitor is subscribed, with events enabled, unless it is still between start() and the end of addMonitor() |
| `GroupMonitors.AwaitingIsWhole` | common/pvahelper.h:292-297 | between start() and addMonitor(), and while first events are awaited, a monitor has the whole structure pending |
| `GroupMonitors.StartedWithoutElement` | common/pvahelper.h:289-299 | without a free element a monitor is running, and not on its way to the group |
| `GroupMonitors.StartedWhileCounted` | pdbApp/pdbgroup.cpp:91-102 | started while the event which is to remove it goes on, a monitor is lost when that ends |
| `GroupMonitors.EarlyReleaseForgets` | common/pvahelper.h:328-339 | a release of before which posts after a start, and before addMonitor() or the first events, makes the monitor miss the event which comes next |
| `GroupMonitors.EventDuringGreetingIsMissed` | pdbApp/pdbgroup.cpp:182-190 | an event which comes between the regions of addMonitor() leaves the new subscriber behind |
| `GroupMonitors.EnteredAmongNewcomersMisses` | pdbApp/pdbgroup.cpp:64-84 | and so does the first awaited event, for a monitor inserted while only newcomers are subscribed |
| `GroupMonitors.StaysBehind` | pdbApp/pdbgroup.cpp:78-107 | the posts to others, the end of the event and addMonitor() do not make up for it |
| `EarlyRelease.ComesToRestart` | common/pvahelper.h:328-339 | an enabled run, from the initial state, to a stopped monitor with a release between its two steps, beside a subscribed one |
| `EarlyRelease.ForgottenForGood` | common/pvahelper.h:279-301 | from there: start, the release posts, an event is posted to the other, addMonitor(); in the end the monitor is subscribed, with nothing pending, and lacks the event |
| `UnguardedAdd.ComesToBeGreeted` | pdbApp/pdbgroup.cpp:182-185 | an enabled run, from the initial state, to a second subscriber which was posted to and is not inserted yet |
| `UnguardedAdd.MissedForGood` | pdbApp/pdbgroup.cpp:182-190 | from there: an event is posted to the first one, and the second ends subscribed, with nothing pending, and lacks it |
| `UnguardedAdd.SwappedForGood` | pdbApp/pdbgroup.cpp:182-190 | or: the first one leaves, a third one comes, and the second ends subscribed beside it and lacks the first event |
| `FieldPath.JoinSplit` | pdbApp/pdb.cpp:38-59 | the pieces, joined by the separator, give back the input |
| `FieldPath.SplitJoin` | pdbApp/pdb.cpp:38-59 | and splitting what was joined gives back the pieces |
| `FieldPath.Splitter.constructor` | pdbApp/pdb.cpp:40-45 | all pieces are still to come |
| `FieldPath.Splitter.Snip` | pdbApp/pdb.cpp:47-58 | the next piece, until there is none |
| `FieldPath.ValueDecimal` | pdbApp/pdb.cpp:736-740 | the digit loop reads back what was printed, for every number, up to 32 bits |
| `FieldPath.ValueWraps` | pdbApp/pdb.cpp:736-740 | of any digits it gives the number, modulo 2^32 |
| `FieldPath.PartIsExact` | pdbApp/pdb.cpp:729-748 | a piece is rejected if and only if it is empty, or ends in a bracket and not in digits in brackets; what is accepted means what it looks like |
| `FieldPath.PathIsExact` | pdbApp/pdb.cpp:722-752 | a path is rejected if and only if a piece is, with the error of the first such |
| `FieldPath.ParseSubscript` | pdbApp/pdb.cpp:732-744 | a piece ending in a bracketed number is a name and an index |
| `FieldPath.ParseShowPart` | pdbApp/pdb.cpp:816-819 | a printed component parses to itself if and only if it is well formed |
| `FieldPath.ParseShow` | pdbApp/pdb.cpp:801-821 | a printed path parses to itself if and only if all its components are well formed |
| `FieldPath.ParseShowParse` | pdbApp/pdb.cpp:722-752 | for every accepted path: print and parse gives the same if and only if what was parsed is well formed |
| `FieldPath.NamelessIsLost` | pdbApp/pdb.cpp:736-744 | a subscript which comes to 4294967295, without a name, is accepted and lost by printing and parsing |
| `FieldPath.ReadsLargest` | pdbApp/pdb.cpp:737-740 | the digits 4294967295 are such a subscript |
| `FieldPath.RootIsNotReadBack` | pdbApp/pdb.cpp:801-804 | the path without components prints as "/", which is read as a name |
| `FieldPath.SmallSubscriptsRoundTrip` | pdbApp/pdb.cpp:736-744 | and it is, when no subscript reaches 4294967295 |
| `FieldPath.ParseFieldName` | pdbApp/pdb.cpp:722-752 | the loop over the splitter, with its exceptions, is the specified parser |
| `FieldPath.ParseComponent` | pdbApp/pdb.cpp:729-748 | one component, or an error |
| `FieldPath.ParseIndex` | pdbApp/pdb.cpp:735-740 | the digit loop accepts digits only, and wraps at 32 bits |
| `FieldPath.ShowFieldName` | pdbApp/pdb.cpp:801-821 | the printing loop gives the components joined by dots |
| `GroupCompile.SortMembers` | pdbApp/pdb.cpp:347-348 | sorted by putorder, and a permutation |
| `GroupCompile.PermutedNames` | pdbApp/pdb.cpp:344-356 | sorting keeps the members and their distinct names |
| `GroupCompile.BuildIndex` | pdbApp/pdb.cpp:350-355 | the rebuilt map gives each name its index, and nothing else |
| `GroupCompile.GatherTargets` | pdbApp/pdb.cpp:312-318 | the targets of a trigger are the pieces between commas |
| `GroupCompile.Gather` | pdbApp/pdb.cpp:275-320 | members, triggers by source, and whether there are any |
| `GroupCompile.SourcesAreMembers` | pdbApp/pdb.cpp:112-117 | every source of triggers is found: the error for one which is not cannot occur |
| `GroupCompile.ResolveTargets` | pdbApp/pdb.cpp:124-157 | the named targets which have a channel, or all which have one for "*" |
| `GroupCompile.Resolve` | pdbApp/pdb.cpp:102-173 | each member gets the targets it declares, or itself when the group declares none |
| `GroupCompile.KeptMembers` | pdbApp/pdb.cpp:412-416 | dropping members without a channel keeps the rest, their order and their distinct names |
| `GroupCompile.CompactMembers` | pdbApp/pdb.cpp:427-499 | the first pass keeps exactly those with a channel, and numbers them anew |
| `GroupCompile.ChannelsAreKept` | pdbApp/pdb.cpp:522-525 | every trigger is found in the new numbering: the exception for one which is not cannot occur |
| `GroupCompile.IndexTriggers` | pdbApp/pdb.cpp:522-529 | a list of indices in range, without duplicates, which stands for the given names |
| `GroupCompile.FillTriggers` | pdbApp/pdb.cpp:511-533 | the second pass does so for every kept member |
| `GroupCompile.ResolvedIsDeclared` | pdbApp/pdb.cpp:104-172 | resolution by map and flag gives what the configuration declares |
| `GroupCompile.Process` | pdbApp/pdb.cpp:275-358 | gathering, sorting, renumbering and resolution together |
| `GroupCompile.Compile` | pdbApp/pdb.cpp:407-533 | the finished group: the fields with a channel, by putorder, each with indices which stand for exactly the targets it declares |
| `GroupTriggers.TargetsOfNames` | pdbApp/pdb.cpp:312-318 | the targets of names without a comma, put together with commas, are those names |
| `GroupTriggers.SelfByDefault` | pdbApp/pdb.cpp:159-170 | in a group whose fields name no targets, each member's list is its own index |
| `GroupTriggers.NoneBesideOthers` | pdbApp/pdb.cpp:108-157 | in a group in which some field does, one which does not has an empty list |
| `GroupTriggers.NamedOrAll` | pdbApp/pdb.cpp:124-157 | one which names targets has exactly the indices of the members it names, or all with "*" |
| `GroupPut.Put` | pdbApp/pdbgroup.cpp:375-397 | the put loop does as specified, and stops at the first refusal |
| `GroupPut.PutSucceeds` | pdbApp/pdbgroup.cpp:375-402 | success is reported if and only if no member for which puts are allowed refuses |
| `GroupPut.PutIsExact` | pdbApp/pvif.cpp:732-752 | a record is written, or processed, or left to be processed again, if and only if the put reaches it and asks for it, it is permitted, and it is not, or is, being processed already |
| `GroupPut.PutGoesForward` | pdbApp/pdbgroup.cpp:378-382 | members are written and processed in their order, each written once and before it is processed |
| `GroupPut.PutsInOrder` | documentation/qsrvpage.dox:96-96 | for every compiled configuration that order is increasing putorder, and members without one are left alone |
| `GroupPut.SuccessWritesAll` | pdbApp/pdbgroup.cpp:375-402 | a put which succeeds has written every marked member whose putorder is above the least 32-bit number |
| `FieldTree.LayoutIsTree` | pdbApp/pvalink_link.cpp:132-153 | every tree of fields has a preorder numbering in which subtrees are ranges |
| `FieldTree.Nested` | pdbApp/pvalink_link.cpp:147-152 | two subtrees are nested or have nothing in common |
| `FieldTree.SetWithParents` | pdbApp/pvalink_link.cpp:138-145 | the walk up to the root sets the bits of exactly the fields around the value |
| `FieldTree.ProcChanged` | pdbApp/pvalink_link.cpp:132-153 | the mask: around the value and within it, or nothing without a value |
| `FieldTree.ProcChangedIsExact` | pdbApp/pvalink_link.cpp:132-153 | a compressed mask meets it if and only if it covers some field of the value |
| `FieldTree.MaskValuePut` | pdbApp/pvif.cpp:336-342 | the mask of a put: around the value; or bit 0 and the array's bit inside a structure array |
| `FieldTree.MaskValuePutIsExact` | pdbApp/pvif.cpp:738-738 | a put's mask meets it if and only if it covers the value |
| `FieldTree.EnclosedPutIsExact` | pdbApp/pvif.cpp:693-707 | inside a structure array that holds for all masks if and only if the array is at the top level |
| `FieldTree.PlainPutIsExact` | pdbApp/pvif.cpp:955-977 | a plain field takes no put which does not cover it; it misses one exactly when the mask marks a structure around the field and not the field; and so it is right for all masks if and only if nothing encloses the field |
| `ChannelCacheSpec.StepName` | p2pApp/chancache.cpp:113-209 | what puts a name into the cache, what takes it out, and what its flag is then |
| `ChannelCacheSpec.VisitingAllCleans` | p2pApp/chancache.cpp:116-130 | visiting each entry once, in any order, and erasing on the way equals a filter, and the dust is counted right |
| `ChannelCacheSpec.PokeMeansLookedUp` | p2pApp/chancache.cpp:197-206 | over every run, the flag of a cached entry is set if and only if its name was looked up since the last cleaning |
| `ChannelCacheSpec.CleaningIsExact` | p2pApp/chancache.cpp:121-127 | after every run, a cleaning keeps an entry if and only if a client has joined it and not left, or it was looked up since the cleaning before |
| `ChannelCacheSpec.InterestedIsJoined` | p2pApp/chancache.h:120-121 | after every run, an entry has exactly the clients which joined it and have not left |
| `ChannelCacheSpec.FoundIsExact` | p2pApp/chancache.cpp:197-206 | after every run, a name is found if and only if it is cached and the last that was reported of its channel is that it is connected |
| `ChannelCacheSpec.GoneAfterTwoCleanings` | p2pApp/chancache.cpp:106-133 | an entry with neither is gone after two cleanings, whatever happens to other entries |
| `ChannelCacheSpec.StaysExactlyWhileHeld` | p2pApp/chancache.cpp:121-127 | an entry stays through a run if and only if it is wanted at each cleaning and no channel of its name drops |
| `ChannelCacheSpec.FailedCreationHidesName` | p2pApp/chancache.cpp:181-206 | an entry whose channel could not be created hides its name for as long as it stays |
| `ChannelCacheSpec.DropIsExact` | p2pApp/chancache.cpp:76-82 | a dropped channel takes out its own entry only if and only if no other has taken its name |
| `ChannelCacheSpec.LateDropTakesReplacement` | p2pApp/chancache.cpp:64-87 | and another can have: a dropped channel which a client still holds reports again, and a connected entry with a client is taken out |
| `ChannelCache.ChannelCache.Lookup` | p2pApp/chancache.cpp:166-206 | lookup() up to createChannel(); an entry is returned exactly when it is cached and connected |
| `ChannelCache.ChannelCache.FinishLookup` | p2pApp/chancache.cpp:188-208 | and from there: the new entry is returned exactly when its channel is connected at once, and without a channel it throws |
| `ChannelCache.ChannelCache.Insert` | p2pApp/chancache.cpp:174-181 | the first request for a name makes an entry and marks it as looked up |
| `ChannelCache.ChannelCache.SetConnection` | p2pApp/chancache.cpp:192-195 | the entry has got its channel, or the channel has connected |
| `ChannelCache.ChannelCache.Drop` | p2pApp/chancache.cpp:64-87 | the specified drop, by name, reported by the entry's own channel, unless nobody holds the entry any more |
| `ChannelCache.ChannelCache.AddClient` | p2pApp/server.cpp:75-80 | a client joins an entry |
| `ChannelCache.ChannelCache.RemoveClient` | p2pApp/chancache.h:120-121 | a client leaves an entry |
| `ChannelCache.ChannelCache.Visit` | p2pApp/chancache.cpp:121-127 | one turn of the cleaner's loop |
| `ChannelCache.ChannelCache.Expire` | p2pApp/chancache.cpp:106-133 | the whole loop: the specified cleaning, and its counters |

## Left out

- The PVA protocol, sockets, JSON, the shells' commands, status output and demos: input, output and plumbing.
- Record access, `dbProcess`, `dbNotify`, scan locks and access security, which live in EPICS Base: a record read is an arbitrary new value with a mask, and what a record answers to a put is given.
- Values of fields are integers; their types, arrays and conversions (pdbApp/dbf_copy.cpp, `castUnsafe`) and the status and time fields are not modelled.
- Reference counting and the races of destruction (`weak_set`, `weak_value_map`): sets of users and clients are finite sets, and a client leaves by a step of its own. The entry of a channel or monitor outlives its users.
- `MonitorCache.MonitorCacheEntry.constructor`: starts after a successful monitorConnect(). That, unlisten() and destroy() are modelled only as the initial state and as the flag which makes start() fail. No user is started before the upstream type is known.
- The runs of `GroupMonitors` leave out the starts, the events and the ends of addMonitor() which `StartIsExact`, `EventIsExact` and `EnterIsExact` show to be unsafe. Calls of start() and stop() on one monitor do not overlap, there or in `Group`.
- Restarting a gateway user with overflow pending is outside the runs of `GatewayRuns` and `MonitorCacheRuns` exactly where `StartKeepsInv` shows that the invariant would be lost.
- Iteration order: the users of a gateway event, the subscribers of a group and the sets of triggers are visited in an arbitrary order, so the results hold for the program's.
- `BaseMonitor.Monitor.constructor`: joins construction and connect(); posting or starting before connect() is not modelled, and the queue length is a parameter where the program has 2.
- `WorkQueue.Queue.Start`: a thread which cannot be created, and the clean-up after it, are not modelled. Weak references to work which is gone, and exceptions of work, are not either.
- `LinkChannelSpec`: the pool is not shut down and run() does not throw. Rebuilding the list of records to scan, scanning them, the put path, and refreshing the cached masks after a change of type are not modelled. What the client library keeps of its queue when a connection is lost is arbitrary.
- `Group.PDBGroupPV.Event`: is not delivered before events are first enabled, nor during another one. Reading records, the scratch mask, and the lock sets of atomic groups are left out.
- `GroupCompile.SortMembers`: stands for the library's sort, of which only its contract is used.
- `GroupCompile.Compile`: starts from distinct field names, as the configuration map gives them; warnings, several groups, group names, the building of structures and of lock sets, and errors in them are not modelled.
- `FieldPath.ParseFieldName`: strings have no NUL character. Looking up the path in a structure, which may resize arrays, is left out.
- `GroupPut.Put`: the scalar and plain mappings; what is locked, and write trapping, are left out.
- `ChannelCache.ChannelCache.Lookup`: is one locked region, and `FinishLookup` the other; the ServerConfig::drop() command, which also takes entries out, is not modelled.
- pdbApp/pdbsingle.cpp (the group's logic with two flags) and pdbApp/configparse.cpp would add only easy members.
