# Verified models of qev's hard parts

qev is an event loop library in C, a fork of libev, with wepoll inside for Windows. This project models the parts
of it in which several structures have to agree all the time, and proves what the code relies on: for all inputs,
all callbacks, all answers of the system and all interleavings.

`dafny verify dfyconfig.toml` checks everything.

| file | what it models |
|---|---|
| `rb_shape.dfy`, `rb_tree.dfy` | wepoll's red-black tree, with parent pointers and rotations in place |
| `wake.dfy`, `wake_runs.dfy` | the wake-up protocol between the loop and any number of senders and signal handlers, step by step and over whole runs |
| `reflock.dfy` | how a wepoll port that threads are using is closed and reclaimed |
| `wepoll_port.dfy` | the sockets of a port: poll operations, update queue, deleted queue, poll groups |
| `watchers.dfy`, `timer_heap.dfy`, `timers.dfy` | the 4-heap in its array, the timers, and `timers_reify` |
| `pending.dfy` | the pending queues and `ev_invoke_pending` |
| `timer_order.dfy`, `timer_runs.dfy` | the order in which due timers are invoked; repeating timers and periodics over time |
| `fd_changes.dfy` | the io watchers of descriptors, the change list and `fd_reify` |
| `uring_ring.dfy`, `uring.dfy` | the io_uring submission ring, and the liveness of its one-shot polls |
| `epoll.dfy`, `poll_array.dfy` | the epoll and poll backends as caches of a map from descriptors to masks |
| `fd_registry.dfy` | the registry of Windows sockets, under allocation failure |
| `once.dfy` | `ev_once`, until its callback or the end of its loop frees it |
| `lists.dfy`, `wrappers.dfy` | lists without duplicates; optional values |

## How to read it

Code that changes things in place is a class with the source's fields (or an array), and each method is proved
against a function or a predicate on values. What is promised is then proved about those: as invariants of every
method, as lemmas over all runs, or as an equation with a simple reference (`Pending.Run`, `Epoll.Modified`,
`PollArray.Modified`, `FdRegistry.Registry.Table`, `Timers.ExpiredAll`).

The concurrent parts (`wake.dfy`, `wake_runs.dfy`, `reflock.dfy`) are state machines with one step per load, store, fence, locked
operation or system call of one thread; a run is any finite sequence of such steps.

What the outside world does is left open: the answers of the kernel and of allocations are parameters or are chosen
freely, clocks are `real`, a callback is any finite list of calls, and a hash is any function.

### What the code does not meet

* `Wake.BufferedClearLosesSend`: where stores may be delayed, as on x86, the release fence after the mark of a signal
  (ev.c:3694-3695) or of an async watcher (ev.c:3641-3646) is cleared does not keep the clearing from overtaking a
  send. The send is lost until the next one. `Wake.CoveredExactlyWhen`: every run keeps every send in view if and only
  if stores are not delayed, or there is nothing to send to. `Wake.CoveredUnlessStale` names the one step that loses it.
* `Epoll.ModifyHolds` and `Epoll.FileComesBack`: after `epoll_modify` the kernel need not hold the new mask under the
  current generation when a file that was registered for the descriptor comes back to it after others
  and the mask looks unchanged (ev_epoll.c:154-158). That is the exact exception, and
  `Epoll.RunTidy` shows that nothing else leads to it: not polls, and not the recreation after a fork.
* `TimerRuns.AlwaysOnGrid`: `periodic_recalc` keeps a periodic on its grid of intervals for all times if and only if the
  interval is at least MIN_INTERVAL or divides it (ev.c:4720-4721).
* `FdChanges.StartedUnset`: when a descriptor is closed and opened again, and its watcher started on it without being
  set anew, the backend may watch it for nothing from then on. `FdChanges.Loop.StartAndReify` gives the exact
  condition, when nothing else happens to it: the descriptor was lost, the watcher was not set, and just the recorded mask is asked for.
  docs/ev.pod:1911-1930 demands of users to set the watcher.
* `Epoll.EpermsTwice`: `epoll_eperms` may hold a descriptor twice, in spite of the comment at ev_epoll.c:167.
  `Epoll.DistinctUnlessAgain`: it stays without duplicates throughout a run if and only if no descriptor is refused,
  then registered (or corrected, or rearmed), and then refused again between two polls. `Epoll.Backend.Synthesize`
  does not need that it does.

## Model

| member | source | states |
|---|---|---|
| `RbTree.Tree.Add` | wepoll.c:1965-1998 | a key that is present: nothing changes and -1 is returned; otherwise the contents are exactly the old ones and the new entry, in a tree with consistent parent links, key order, no red child of a red node, a black root and equal black heights |
| `RbTree.Tree.Del` | wepoll.c:2024-2096 | exactly the given entry goes, and the tree is again a linked, sorted red-black tree of the remaining nodes |
| `RbTree.Tree.Find` | wepoll.c:2098-2110 | finds the node of a key, or none when the contents have no such key |
| `RbTree.Tree.Rotate` | wepoll.c:1910-1934 | a rotation with its parent and child links, on either side, yields the rotated tree in the same place |
| `RbTree.RotatedOrder` | wepoll.c:1910-1928 | a rotation keeps the nodes and their order |
| `RbTree.Tree.RebalanceAfterInsert` | wepoll.c:1946-1963 | one round moves a red pair upwards or resolves it, keeps the order of all nodes, and comes closer to the root |
| `RbTree.Insertion` | wepoll.c:1965-1998 | hanging a red leaf into a red-black tree leaves at most one red pair and no other fault |
| `RbTree.RecolouredPushes` | wepoll.c:1950-1954 | recolouring below a black grandparent pushes the only fault two levels up |
| `RbTree.RotatedWhole` | wepoll.c:1954-1963 | the rotation at the grandparent keeps the order of the whole tree |
| `RbTree.Tree.Unlink` | wepoll.c:2025-2074 | taking a node out, by splicing in its successor if it has two children, leaves exactly the other nodes in order, with at most one black node missing on one path |
| `RbTree.SplicedLacks` | wepoll.c:2025-2074 | the spliced tree is a red-black tree but for the black node that may be missing on the path to the moved child |
| `RbTree.SplicedOrder` | wepoll.c:2025-2074 | the in-order sequence loses exactly the removed node |
| `RbTree.Tree.RebalanceAfterRemove` | wepoll.c:2000-2022 | one round with one black missing either ends with a red-black tree or moves the fault one level up; the order never changes |
| `RbTree.NephewTurnedFits` | wepoll.c:2009-2020 | rotating at a black sibling with a red nephew restores the black height |
| `RbTree.SiblingReddenedLacks` | wepoll.c:2022 | reddening a sibling with black children moves the missing black to the parent |
| `RbTree.SiblingTurnedLacks` | wepoll.c:2003-2008 | rotating at a red sibling keeps the one missing black on the same path |
| `RbTree.Tree.RebalanceRemoved` | wepoll.c:2075-2096 | the rebalancing after a removal terminates with a red-black tree of the same nodes in order |
| `Wake.RunInv` | ev.c:3524-3649 | the inductive invariant of the wake protocol holds in every state of every run, with buffered stores or without |
| `Wake.NoLostWake` | ev.c:4949-4959 | whenever the loop is committed to sleeping and a flag is set, the pipe holds a byte or some sender is committed to writing one |
| `Wake.CommittedWrites` | ev.c:3542-3586 | a committed sender stays committed while the loop sleeps, until its byte is in the pipe |
| `Wake.CoveredUnlessStale` | ev.c:3619-3649 | a step loses track of an undelivered send if and only if it is a delayed clearing that overtakes the send |
| `Wake.SequentialHasNoStaleClear` | ev.c:3619-3649 | with sequential consistency no such step exists |
| `Wake.RunCovered` | ev.c:3619-3649 | in a run without a delayed clearing that overtakes a send, every target with an undelivered send is marked, being marked or being fed |
| `Wake.RunFound` | ev.c:3619-3649 | in such a run every target with an undelivered send has its flag set or about to be set, lies ahead of the current scan, or is still being published; the other cases are its own delivery and a clearing of its mark that is still on its way to memory |
| `Wake.SequentialFound` | ev.c:3619-3649 | with sequential consistency, in every run, such a target is marked and its flag is set or about to be, or it lies ahead of the current scan, unless it is being fed |
| `Wake.SendWakes` | ev.c:6394-6398 | when all senders are done and a send is undelivered, a sleeping loop has a byte to read |
| `Wake.RunDue` | ev.c:5042-5059 | what was ready when the tail of a pass began stays ahead of that pass until it is delivered |
| `Wake.PassDelivers` | ev.c:5042-5059 | a pass that has ended has delivered all of it |
| `Wake.DueOnlyDelivered` | ev.c:3619-3649 | a send leaves that set only by being fed to its watcher, or with the next pass |
| `Wake.BufferedClearLosesSend` | ev.c:3641-3646 | for every configuration with delayed stores, and every signal or async watcher in it, a run that ends asleep with an empty pipe and a send to it that nothing will deliver |
| `Wake.CoveredExactlyWhen` | ev.c:3694-3695 | all runs keep every undelivered send marked, being marked or being fed if and only if stores are not delayed, or there are neither signals nor async watchers |
| `WakeRuns.DrainShortens` | ev.c:3595-3617 | the read of pipecb empties an eventfd, and takes one to four bytes out of a pipe that has any |
| `WakeRuns.PassShortens` | ev.c:3591-3619 | once nobody sends, each pass that the poll starts for the pipe leaves it shorter, and an eventfd empty |
| `WakeRuns.FewWakes` | ev.c:3591-3619 | once nobody sends, the pipe wakes the loop at most once for each byte left in it, and an eventfd at most once |
| `WakeRuns.QuietSettles` | ev.c:5047-5059 | once nobody sends, one pass from its tail on clears pipe_write_skipped and both pending flags, for good |
| `WakeRuns.MaySleep` | ev.c:4949-4959 | after that a blocking pass may sleep |
| `WakeRuns.QuietRests` | ev.c:5047-5059 | and when the pipe is empty as well, the poll never reports it and pipecb does not run again |
| `WakeRuns.NeverWritten` | ev.c:5026-5034 | as long as every pass is a NOWAIT pass, nobody writes the pipe |
| `WakeRuns.RaisedIsEnough` | ev.c:3546-3547 | a sender that finds the flag raised changes nothing more |
| `WakeRuns.ReadyIsDelivered` | ev.c:5047-5059 | a target that is marked and flagged when the tail of a pass begins is fed before that pass ends, unless a clearing of its mark is still buffered |
| `WakeRuns.NothingUnsent` | ev.c:3619-3649 | with buffered stores or without, a target is delivered no more often than it was sent to |
| `Reflock.RunInv` | wepoll.c:1442-1510 | the reference count in the word agrees with what the threads hold, in every state of every run |
| `Reflock.DeletesAlone` | wepoll.c:478-502 | when a thread reaches port_delete, no other thread holds a reference to that port or will signal it |
| `Reflock.NoUseAfterFree` | wepoll.c:504-574 | a thread that uses a port uses one that is not freed; Reflock.FindSucceeds says that threads do get to use ports |
| `Reflock.OneCloser` | wepoll.c:1858-1873 | of any number of concurrent closes of a port no two take it out of the tree |
| `Reflock.FinderCloses` | wepoll.c:1858-1873 | one does: a close that finds its handle in the tree is the next to change the tree, takes the handle out and owns the port; one that does not find it changes nothing |
| `Reflock.FinderFinds` | wepoll.c:1876-1889 | a call of epoll_ctl or epoll_wait that looks for a handle in the tree gets its port and then one more reference to it; nobody changes the tree in between |
| `Reflock.OpenUntilClosed` | wepoll.c:1839-1873 | a handle stays in the tree, with the same port, until a close that has found it takes it out |
| `Reflock.FindSucceeds` | wepoll.c:504-574 | from the end of epoll_create until such a close, every look for the handle finds the port that was created |
| `Reflock.NothingLeaks` | wepoll.c:438-502 | when every call has returned and the tree is empty, every port is freed and every IOCP handle closed |
| `Reflock.WaiterIsSignalled` | wepoll.c:1497-1510 | whenever a closer waits for the keyed event, some thread will signal it |
| `Reflock.SignalIsAwaited` | wepoll.c:1463-1475 | a signal is sent only to a closer that waits for it, and by one thread only |
| `Reflock.AssertionsHold` | wepoll.c:1477-1510 | the assertions on the reflock word and on the tree never fail |
| `Reflock.NoCollision` | wepoll.c:438-460 | a new port never meets its handle in the tree |
| `WepollPort.AskedFor` | wepoll.c:1653-1694 | whatever a socket is watched for, except EPOLLMSG, some condition the driver is asked for reports it |
| `WepollPort.SetEventSound` | wepoll.c:1637-1651 | after sock_set_event the socket is watched: queued for an update, or covered by its poll |
| `WepollPort.NewSound` | wepoll.c:1557-1597 | a new socket joins the tree and a group with room, and keeps all invariants |
| `WepollPort.NewGroupOnlyWhenFull` | wepoll.c:924-938 | a poll group is made if and only if all others are full |
| `WepollPort.RefusedSound` | wepoll.c:1557-1597 | a sock_new that fails half-way gives its group back and keeps all invariants |
| `WepollPort.DeleteSound` | wepoll.c:1599-1625 | sock__delete keeps all invariants, forced or not, whether the poll could be cancelled or not |
| `WepollPort.DeleteFrees` | wepoll.c:1612-1622 | except when forced, a socket is freed if and only if no completion can still arrive for it |
| `WepollPort.DeleteCancels` | wepoll.c:1600-1602 | a poll that is running for a deleted socket is cancelled, when the driver can, and the socket waits for its end on the deleted queue |
| `WepollPort.UpdateSound` | wepoll.c:1696-1752 | sock_update keeps all invariants whatever the driver answers, and when it succeeds the socket has left the update queue |
| `WepollPort.FeedSound` | wepoll.c:1754-1804 | sock_feed_event keeps all invariants and ends exactly the poll that completed |
| `WepollPort.CancelledIsRequeued` | wepoll.c:1786-1787 | the completion of a poll puts its socket on the update queue |
| `WepollPort.UpdatedMeansPolled` | wepoll.c:1090-1107 | when the update queue has been walked, every socket has a poll in flight that covers what the user waits for, or a cancelled one |
| `WepollPort.EventReachesUser` | wepoll.c:1754-1804 | for each event the user waits for, a covering poll asks for a condition whose completion reports that event |
| `WepollPort.ToldExactly` | wepoll.c:1754-1804 | the report of a completion, by its user data and its events: those asked for that the failed poll or one of the conditions causes, and none unless there are such |
| `WepollPort.AskedBy` | wepoll.c:1653-1673 | the driver is asked for a condition on behalf of one event at least that the user waits for, and always for the local close |
| `WepollPort.AskedAsReported` | wepoll.c:1653-1694 | a condition is asked for on behalf of exactly the events that it reports, but a failed connection on behalf of EPOLLERR only |
| `WepollPort.ReportedBy` | wepoll.c:1675-1694 | what conditions report together one of them reports by itself |
| `WepollPort.UpdateIdle` | wepoll.c:1718-1745 | an idle socket gets a poll for exactly what its user waits for, unless the driver fails or says that the socket is gone |
| `WepollPort.UpdateBusy` | wepoll.c:1700-1717 | a poll in flight that covers what the user waits for is kept, one that does not is cancelled, and one that is cancelled already is waited for |
| `WepollPort.WalkSucceeds` | wepoll.c:1090-1107 | when the driver refuses nothing the walk succeeds and empties the update queue |
| `WepollPort.AddInterest` | wepoll.c:1234-1248 | adding a socket adds exactly its registration |
| `WepollPort.DeleteInterest` | wepoll.c:1599-1625 | deleting a socket takes its registration away and no other |
| `WepollPort.UpdateInterest` | wepoll.c:1696-1752 | updating changes no registration, except that a socket found closed is dropped |
| `WepollPort.FeedInterest` | wepoll.c:1754-1804 | a completion changes no registration, except for one-shot disarming and closed sockets |
| `WepollPort.FeedsSound` | wepoll.c:1115-1128 | a batch of completions keeps all invariants, ends exactly its own polls and reports no more events than it has completions |
| `WepollPort.ToldAllExactly` | wepoll.c:1115-1128 | what a batch reports is exactly what is due for each of its completions: the user's data, and the events asked for that the completion causes |
| `WepollPort.BatchKept` | wepoll.c:1139-1151 | whatever other threads do to the port between the dequeuing of a batch and its feeding (add, change and delete sockets, walk the update queue, feed other batches), the batch can still be fed |
| `WepollPort.Port.SetEvent` | wepoll.c:1637-1651 | in place: all invariants hold afterwards, the socket is watched for the new events, and its registration alone changes |
| `WepollPort.Port.AcquireGroup` | wepoll.c:924-938 | in place: the group with room, or a new one, which may fail |
| `WepollPort.Port.ReleaseGroup` | wepoll.c:940-951 | in place: the group has one socket less, fewer than the maximum as the source asserts, and comes last |
| `WepollPort.Port.DeleteSock` | wepoll.c:1599-1625 | in place: all invariants hold afterwards, though the socket may have just completed or be unwatched before, exactly its own registration goes, and a poll that it still has is cancelled when the driver can |
| `WepollPort.Port.UpdateSock` | wepoll.c:1696-1752 | in place: all invariants hold afterwards, a success shortens the update queue, and no registration changes but that of a socket that the driver says is gone |
| `WepollPort.Port.FeedSock` | wepoll.c:1754-1804 | in place: all invariants hold afterwards; an event is reported exactly when the socket is neither deleted nor closed and some event that was asked for is caused by the completion; the report has the user's data and exactly those events; registrations change only by one-shot disarming and for a closed socket |
| `WepollPort.Port.FeedEvents` | wepoll.c:1115-1128 | the loop feeds the batch in order and reports what the specification reports: exactly the reports that are due for its completions, as the sockets were before |
| `WepollPort.WalkFacts` | wepoll.c:1090-1107 | the walk of the update queue keeps all invariants and all registrations, except those of sockets found closed, and leaves nothing queued unless it fails |
| `WepollPort.PolledFacts` | wepoll.c:1109-1113 | while a thread waits, a change is submitted at once; no registration is touched by that |
| `WepollPort.Port.UpdateEvents` | wepoll.c:1090-1107 | the loop terminates with the state and the result of the specified walk |
| `WepollPort.Port.NewSock` | wepoll.c:1557-1597 | succeeds if and only if the socket, the device and the memory are there and the key is new; says what is left after each failure |
| `WepollPort.Port.CtlAdd` | wepoll.c:1234-1248 | fails if and only if the socket, the memory or a new key is missing, or no group has room and the device does not open; otherwise the state is that of a socket that was added, given its events, and updated at once while a thread waits |
| `WepollPort.Port.CtlMod` | wepoll.c:1250-1262 | succeeds if and only if the socket is known; then its events are set, and updated at once while a thread waits |
| `WepollPort.Port.CtlDel` | wepoll.c:1264-1273 | succeeds if and only if the socket is known, and takes exactly its registration away |
| `WepollPort.Port.PollBegin` | wepoll.c:1130-1139 | before the lock is released for waiting, everything that is watched has been submitted |
| `WepollPort.Port.PollEnd` | wepoll.c:1139-1151 | what was dequeued is fed as the specification says, and nothing else happens |
| `WepollPort.NothingLeft` | wepoll.c:1066-1083 | when the tree and the deleted queue are empty, no socket is left, all groups are empty and no update is queued |
| `WepollPort.Port.DeletePort` | wepoll.c:1058-1088 | the loops terminate, the assertions hold, and every socket and group is freed |
| `TimerHeap.Parents` | ev.c:3339-3342 | with truncating division the root is its own parent, and the children of an entry are the four that follow from its index |
| `TimerHeap.UpHeap` | ev.c:3422-3439 | an entry that may be too small for its place, and only that, is put right: heap order, all indices told, the same entries |
| `TimerHeap.MinChild` | ev.c:3353-3373 | both the fast and the slow path find the least child, or that there is none |
| `TimerHeap.DownHeap` | ev.c:3345-3386 | an entry that may be too large for its place, and only that, is put right |
| `TimerHeap.AdjustHeap` | ev.c:3442-3448 | an entry with any new time is put right |
| `TimerHeap.ReHeap` | ev.c:3451-3459 | any array of entries with distinct watchers becomes a heap of the same entries with the right indices |
| `TimerHeap.RootIsLeast` | ev.c:4388-4399 | in a heap no entry is earlier than the root |
| `TimerHeap.Replaced` | ev.c:5436-5441 | whatever replaces an entry of a heap, only its place can be out of order |
| `Timers.Timers.Start` | ev.c:5401-5422 | a timer is due its time after now and all others are as before; an active one stays as it is |
| `Timers.Timers.Stop` | ev.c:5424-5450 | the timer is no longer due or pending, keeps the time that remained, and no other deadline changes |
| `Timers.Timers.Again` | ev.c:5452-5471 | a repeating timer is due one interval from now, another one is stopped |
| `Timers.Timers.Reify` | ev.c:4685-4714 | terminates; each round fires the earliest timer that is due; afterwards nothing is due before now, and what fired is fed from the last to the first |
| `Timers.AllFire` | ev.c:4685-4714 | the timers that fire do so once each, in the order of their deadlines, and repeat one interval later but not before now |
| `Timers.ExactlyTheDue` | ev.c:4685-4714 | a timer fires if and only if its deadline was before now |
| `Timers.FiresOnce` | ev.c:4689-4710 | no timer fires twice in a round |
| `TimerOrder.FedBackWatching` | ev.c:3133-3144 | feeding in reverse appends the timers that were not pending, the last one first |
| `TimerOrder.DueOrder` | ev.c:4645-4661 | whatever callbacks feed, a timer that fired and was not pending is invoked before those of its priority that fired with a later deadline and before those pending already, unless a callback that is invoked before both clears one of them |
| `TimerOrder.DueInTime` | ev.c:4645-4661 | whatever callbacks feed, every timer that fired and that none of them clears is invoked with EV_TIMER, and nothing of a lower priority before it |
| `TimerOrder.UndisturbedDueOrder` | ev.c:4645-4661 | when callbacks feed and clear nothing, every priority begins with the timers that fired and were not pending, in the order of their deadlines |
| `TimerOrder.ReifiedHolds` | ev.c:4685-4714 | a timer that fired is pending with EV_TIMER, on top of what it had pending if it repeats and with nothing else if not; what did not fire is pending as before |
| `TimerRuns.RoundOf` | ev.c:4689-4710 | what one round does to a repeating timer |
| `TimerRuns.NeverEarly` | ev.c:4689-4710 | over any rounds, after n fires the deadline is at least n intervals after the first |
| `TimerRuns.FiresAtMost` | ev.c:4689-4710 | while the time has not passed T, a repeating timer fires at most (T - first) / repeat + 1 times |
| `TimerRuns.PeriodicRecalc` | ev.c:4718-4737 | the loop ends at the next step after now from where the division put it |
| `TimerRuns.DueSoon` | ev.c:4718-4737 | a periodic is due after now, and by no more than its interval |
| `TimerRuns.AlwaysOnGrid` | ev.c:4720-4721 | it is always due a whole number of intervals after its offset if and only if the interval is at least MIN_INTERVAL or divides it |
| `Pending.Pendings.Feed` | ev.c:3116-3131 | a queued watcher collects the events in its slot, another one is appended, as in a search for it; pending is its slot plus one |
| `Pending.Pendings.ClearPending` | ev.c:5211-5217 | the slot of the watcher is left to the dummy, wherever it is |
| `Pending.Pendings.FeedReverseDone` | ev.c:3139-3144 | all of rfeeds is fed, from its end |
| `Pending.Pendings.InvokeHere` | ev.c:4650-4659 | the inner loop: a callback that feeds sends it back to the highest priority, and it leaves nothing queued above |
| `Pending.Pendings.InvokePending` | ev.c:4645-4661 | for all callbacks, invokes what the reference invokes, which always takes the highest priority with anything queued; afterwards no queue holds anything and no watcher is pending |
| `Pending.InvokedWorks` | ev.c:4645-4661 | every invocation takes away from the work that is left, whatever its callback feeds |
| `Pending.UndisturbedRun` | ev.c:4645-4661 | when callbacks feed nothing, queues are emptied from the highest priority, last-in first-out |
| `Pending.InvokedInTime` | ev.c:4645-4661 | whatever callbacks feed, a queued watcher that none of them clears is invoked with all its events, and nothing of a lower priority before it |
| `Pending.InvokedBefore` | ev.c:4645-4661 | whatever callbacks feed, of two watchers of one priority the one queued later is invoked first, unless a callback that is invoked before both clears one of them |
| `Pending.LinkedIsFound` | ev.c:4376-4386 | the slot that a watcher remembers is the one a search finds |
| `Pending.FedHolds` | ev.c:3117-3131 | a watcher that is fed is pending with the new events and those it had |
| `Pending.NothingInvented` | ev.c:4645-4661 | whatever callbacks do, a watcher is invoked with no event that it had not pending and that nothing fed to it, and one that was neither pending nor fed is not invoked |
| `FdChanges.Loop.FdChange` | ev.c:3241-3251 | flags are added, and a descriptor without any is appended, even when it is on the list already |
| `FdChanges.Loop.IoStart` | ev.c:5307-5349 | the watcher joins its descriptor at the head; the descriptor is flagged as the watcher was set or not, and appended to the change list if it had no flag; no other descriptor changes; a descriptor whose mask the backend lost stays lost exactly when the watcher was not set anew |
| `FdChanges.Loop.StartAndReify` | ev.c:5307-5349 | after ev_io_start and the next fd_reify, however its calls of backend_modify go: unless something happens to the descriptor or it is refused meanwhile, its watchers are kept, and the backend holds what they ask for if and only if not all of this holds: it had lost the recorded mask, the watcher was not set anew, and just that mask is asked for |
| `FdChanges.StartedUnset` | ev.c:3205-3228 | a run from a new loop that ends with an active watcher on a descriptor that the backend watches for nothing and that is not on the change list |
| `FdChanges.Loop.IoStop` | ev.c:5351-5371 | the watcher leaves its descriptor, which is flagged, and appended to the change list if it had no flag; nothing else changes |
| `FdChanges.Loop.IoModify` | ev.c:5267-5285 | only the mask changes, and a descriptor whose recorded mask no longer fits is on the change list |
| `FdChanges.Loop.FdKill` | ev.c:3254-3262 | no watcher is left on the descriptor, which is on the change list if there were any; nothing else changes |
| `FdChanges.Loop.Collect` | ev.c:3217-3220 | the inner loop finds the union of the masks |
| `FdChanges.Loop.BackendModify` | ev.c:3226-3227 | the backend holds the new mask exactly when it accepts it or nothing is asked for; otherwise the descriptor is killed; every descriptor keeps its watchers unless it is killed meanwhile or is the one refused, and none is listed but what was touched meanwhile or the one refused |
| `FdChanges.Loop.ReifyOne` | ev.c:3205-3228 | the backend is told, and takes the next answer, exactly when the recorded mask is not what is asked for or the flag forces it; what becomes of every descriptor follows from that answer |
| `FdChanges.Loop.FdReify` | ev.c:3189-3238 | for all answers of the backend: those that were listed and needed it are told of, in the order of the list, with one answer each; a descriptor loses its watchers if and only if it is killed meanwhile, or refused while they ask for something; each one that had its turn is recorded with the union of their masks, unless its registration was used up or it was killed first; one that nothing happened to is as its turn leaves it; only a refusal loses one; the list afterwards holds only what was touched or refused; what is not on it is settled unless it is lost |
| `FdChanges.UndisturbedLost` | ev.c:3189-3238 | when nothing happens to a descriptor during the pass, it is lost afterwards if and only if it was, and its turn, if it had one, found the recorded mask to be the one asked for |
| `FdChanges.Loop.RearmAll` | ev.c:3298-3308 | whatever was registered is recorded as not registered, and listed with the flag that forces registration; nothing is lost any more |
| `UringRing.Wrapped` | ev_iouring.c:197-204 | the 32-bit difference of tail and head is the number of entries, across wrap-around |
| `UringRing.OtherSlot` | ev_iouring.c:197-204 | entries that are in the ring together have different slots |
| `UringRing.SameSlot` | ev_iouring.c:229-238 | wrapping an index at 2^32 does not change its slot |
| `UringRing.Ring.SqeTry` | ev_iouring.c:197-204 | a slot is returned if and only if the ring is not full |
| `UringRing.Ring.EnterSubmit` | ev_iouring.c:170-194 | the kernel takes entries from the head, in order, and to_submit stays the number that is left |
| `UringRing.Ring.GetSqe` | ev_iouring.c:216-227 | the second try succeeds at the latest, and flushes only when the ring is full |
| `UringRing.Ring.FreeSlot` | ev_iouring.c:197-204 | the next slot is none the kernel has not consumed |
| `UringRing.Ring.Fill` | ev_iouring.c:258-286 | filling the slot leaves what is queued intact |
| `UringRing.Ring.Submit` | ev_iouring.c:229-238 | the slot is appended to what is queued, and nothing queued is overwritten |
| `IoUring.TagsAreTold` | ev_iouring.c:258-286 | a tag tells its descriptor and generation, and is never the one reserved for removals |
| `IoUring.NoSilentWatcher` | ev_iouring.c:258-367 | a watched descriptor is on the change list, or exactly one live poll is of its generation, with its mask |
| `IoUring.WatchInv` | ev.c:5307-5349 | starting, stopping or changing watchers keeps the invariant, except exactly when a closed descriptor without a live poll is asked for its recorded mask by watchers that were not set anew |
| `IoUring.TakeUpsLive` | ev_iouring.c:170-194 | whatever the kernel takes from the ring, and whichever polls it cancels, the same polls are live |
| `IoUring.CqeInv` | ev_iouring.c:310-359 | every completion, current or outdated, event, cancellation or bad descriptor, keeps the invariant |
| `IoUring.CompletionIsSeen` | ev_iouring.c:310-359 | a completion of the current generation puts its descriptor on the change list, and if it has events for watchers that did not change, some are told |
| `IoUring.Backend.Modify` | ev_iouring.c:258-286 | the old generation is cancelled if there was a mask, and one poll with the new mask and generation becomes live |
| `IoUring.Backend.Reify` | ev.c:3205-3228 | a descriptor leaves the change list with its wanted mask recorded and polled, under the next generation exactly when a recorded poll had to be replaced; no other descriptor changes |
| `IoUring.Backend.DrainOne` | ev_iouring.c:303-362 | a completion of the current generation keeps the watchers and lists the descriptor with no poll recorded, unless the descriptor is bad, which stops its watchers and nothing else; watchers that did not change are told exactly the events of its bits; any other completion changes nothing |
| `IoUring.Backend.Drain` | ev_iouring.c:290-367 | exactly the completions that the budget allows are handled, in order; seen from the state before, each descriptor with a current one ends its poll as DrainOne says, no other descriptor changes, and the watchers are told exactly the events of the current completions, a descriptor once |
| `IoUring.Backend.DrainAndReify` | ev_iouring.c:336-358 | a poll that completed, with events or without, is armed anew by the next turn of fd_reify: the watchers and the generation are as before, and exactly one live poll is of that generation, with the mask they want |
| `IoUring.AsksExactly` | ev_iouring.c:345-352 | the events that the bits of a completion stand for |
| `IoUring.Backend.SubmitAll` | ev_iouring.c:398-399 | the loop ends with everything handed to the kernel and the same polls live; every armed poll then is of the current generation and mask of its descriptor, one each at most: all outdated ones have been cancelled |
| `IoUring.NoneOutlived` | ev_iouring.c:259-273 | a kernel that has taken up all that is queued has no poll of an earlier generation armed |
| `IoUring.TakeUpCancelling` | ev_iouring.c:259-273 | whatever the kernel takes up, each outdated poll still has its removal queued behind it |
| `IoUring.Backend.Cancel` | ev_iouring.c:260-273 | a removal with the generation that ends is queued last, and the generation moves on |
| `Epoll.ModifyHolds` | ev_epoll.c:121-182 | when the open file is registered or there is room, the kernel holds the new mask under the current generation if and only if the mask was changed, or the kernel had nothing for the open file but what was last recorded |
| `Epoll.ModifySound` | ev_epoll.c:121-182 | no registration ever carries a later generation than its descriptor |
| `Epoll.OldFilesAreOlder` | ev_epoll.c:140-142 | afterwards, registrations of older open files of the descriptor carry smaller generations |
| `Epoll.OldEventsAreDropped` | ev_epoll.c:245-249 | their events never reach the watchers |
| `Epoll.EventSound` | ev_epoll.c:251-273 | correcting the kernel after an unwanted event keeps what is known right |
| `Epoll.FileComesBack` | ev_epoll.c:154-158 | a run of allowed steps from a start without registrations; when after it the first file comes back to the descriptor, epoll_modify changes nothing and the kernel does not hold the new mask |
| `Epoll.EpermsTwice` | ev_epoll.c:162-173 | a concrete run after which epoll_eperms holds a descriptor twice |
| `Epoll.ModifyDistinct` | ev_epoll.c:162-173 | epoll_modify leaves the list of refused descriptors without duplicates if and only if it had none and does not refuse one that is on the list without its mark |
| `Epoll.DistinctUnlessAgain` | ev_epoll.c:162-173 | the list stays without duplicates throughout a run if and only if no descriptor in it is refused, then given a pollable file, corrected or rearmed, and then refused again with no poll in between |
| `Epoll.RecreatedTidy` | ev_epoll.c:336-348 | after the kernel state was recreated everything is known again, whatever went wrong before |
| `Epoll.RecreatedHolds` | ev_epoll.c:336-348 | what is told to the backend after that is held by the kernel, whatever it held before |
| `Epoll.RunTidy` | ev_epoll.c:121-348 | in every run of changes, events, polls, recreations, closes and reopens in which no descriptor gets back a file that is still registered for it, the kernel has what the loop recorded |
| `Epoll.Backend.Modify` | ev_epoll.c:121-182 | the sequence of system calls and its error paths come to the specified state; the descriptor is killed exactly when its file can be polled and yet is not registered afterwards, which takes a lack of room and changes neither the registrations nor the generation |
| `Epoll.Backend.Event` | ev_epoll.c:226-275 | a wanted event of the current generation passes and changes nothing; an unwanted one passes if and only if the open file is registered, and then the kernel holds just what is wanted, or nothing; all others are dropped and the kernel state is recreated |
| `Epoll.Backend.Synthesize` | ev_epoll.c:285-299 | exactly the watched descriptors that epoll refused are told, and none of them leaves the list |
| `Epoll.SynthesizedAt` | ev_epoll.c:285-299 | of a list without duplicates exactly the refused and watched descriptors stay, and exactly the others lose their mark |
| `PollArray.Backend.Modify` | ev_poll.c:33-64 | across growth and swap-removal the dense array and its index stay inverse and stand for the updated map |
| `PollArray.Backend.Remove` | ev_poll.c:54-63 | the last entry takes the free place, and exactly one descriptor leaves the map |
| `PollArray.Backend.NeedIndex` | ev_poll.c:23-31 | growth keeps the map |
| `PollArray.ModifyTakes` | ev_poll.c:33-64 | a descriptor ends up with the new mask if and only if the old mask that is given differs or it had it already |
| `PollArray.LastAskedFor` | ev_poll.c:33-64 | after any sequence of calls every descriptor is polled for what was last asked of it, and has an entry only if that was something |
| `FdRegistry.Registry.Acquire` | ev.c:2481-2532 | succeeds if and only if the handle is a socket that is known, or there is memory for its entry and an index on the free list or room for the next; a known socket is held once more and no index is issued; a new one gets the last index of the free list, or the next one when that is empty; a failure leaves the table as it was, and leaves the next index on the free list exactly when it was issued in vain |
| `FdRegistry.Registry.Release` | ev.c:2554-2597 | one reference less; the last one ends the entry and puts its index last on the free list, without allocating; the socket is closed if and only if that was asked for and it is owned |
| `FdRegistry.AcquireReleased` | ev.c:2481-2597 | a release undoes an acquire, of a known handle as of a new one |
| `FdRegistry.AcquiresReleased` | ev.c:2481-2597 | as many releases undo any number of acquires of a handle |
| `FdRegistry.LastReleaseFrees` | ev.c:2554-2597 | a descriptor is gone exactly after as many releases as it has references, and no other one is touched |
| `FdRegistry.Registry.Reserve` | ev.c:2404-2444 | both tables grow together, and no size is announced before its storage is there; it fails exactly when there is no room and the growth that is needed is refused or beyond INT_MAX |
| `FdRegistry.Registry.PushFree` | ev.c:2475-2479 | the free list always has room for an index that comes back |
| `FdRegistry.Registry.FindHandle` | ev.c:2446-2458 | the chain of a socket finds its entry if and only if there is one |
| `FdRegistry.Registry.ToHandle` | ev.c:2534-2552 | the socket of a descriptor, or INVALID_SOCKET |
| `FdRegistry.Registry.OneDescriptorEach` | ev.c:2481-2532 | no two descriptors stand for the same socket |
| `FdRegistry.Registry.IndicesAreAccounted` | ev.c:2395-2403 | the issued indices are the disjoint union of the live descriptors and the free list |
| `FdRegistry.Pigeons` | ev.c:2475-2479 | a list of distinct indices below n has at most n elements |
| `OnceWatchers.Collect` | ev.c:6438-6453 | an ev_once that is met again is not added again; the list stays terminated by itself |
| `OnceWatchers.CollectLists` | ev.c:6464-6480 | after a walk exactly what it met is on the list, each once |
| `OnceWatchers.FreeAll` | ev.c:6482-6487 | every member of the list is freed once |
| `OnceWatchers.Loop.OnceStart` | ev.c:6490-6519 | nothing is allocated if and only if there is no callback or nothing could fire; otherwise exactly the asked-for watchers are active, on whatever descriptor, and every other ev_once is where it was |
| `OnceWatchers.Loop.OnceCb` | ev.c:6411-6435 | afterwards nothing on any list leads to the freed ev_once, and every other one is still reachable |
| `OnceWatchers.Loop.InvokeLast` | ev.c:4654-4657 | an invocation frees exactly the ev_once of its watcher |
| `OnceWatchers.Loop.IoKilled` | ev.c:3254-3262 | an ev_once whose descriptor is killed stays reachable through a pending queue |
| `OnceWatchers.Loop.Expired` | ev.c:4702-4706 | so does one whose timer expires |
| `OnceWatchers.Loop.Reclaim` | ev.c:6464-6487 | exactly the live ones are freed, each once, however often they are met |

## Left out

* mmap, eventfd, timerfd, inotify, sockets and the drivers themselves: they appear as steps and answers.
* `time_update`, `fd_ebadf`, `fd_enomem`, the select, port, kqueue and linuxaio backends, the prepare, check, idle, fork, cleanup, stat, child and embed watchers.
* Floating-point rounding: times are `real`, so the branch of `periodic_recalc` for an interval that is lost in rounding (ev.c:4729-4732) cannot be reached and is not there.
* 32-bit wrap-around of generations: they are unbounded, which assumes that fewer than 2^32 changes are made while an event is outstanding.
* Watchers' priorities do not change while they are pending or active, as the source demands.
* `iouring_fork`, and with it the count of active watchers across a fork.
* `ev_io_stop` on Windows with its eager EPOLL_CTL_DEL (ev.c:5373-5391), and the release of the descriptor there.
- Reflock.RunInv: assumes fewer than 2^28 threads inside a port at once, since the count has 28 bits.
- Wake.RunInv: a write to the pipe is taken to empty the writer's store buffer, signal handlers are threads of their own, and the sets of async watchers and signals do not change during a run.
- WepollPort.Port.UpdateSock: sock_state and poll_group are values in maps, found by address, and the intrusive queues are lists; what aliasing of their nodes could do is not captured. The tree is a map here and itself in RbTree.
- WepollPort.Port.PollEnd: the retry loop and the timeout of port_wait (wepoll.c:1183-1232) are not modelled; each of its passes is a PollBegin and a PollEnd.
- Timers.Timers.Reify: the callbacks run later, from the pending queues, so that none changes the heap during the loop, as in the source. `periodics_reify` is the same loop with other times and is not repeated.
- Timers.Timers.Start: an array that grows holds any entry, not garbage, beyond its heap.
- Pending.Pendings.InvokePending: a callback that calls ev_invoke_pending itself is not modelled, and the callbacks of one call feed finitely often.
- FdChanges.Loop.FdKill: the error events it feeds to the watchers are not modelled; the pending queues are in Pending.
- FdChanges.Loop.IoStop: a descriptor's intrusive list of watchers is a list of references.
- FdChanges.Loop.Closed: when a descriptor is closed the backend drops it without a word; a system that keeps it open elsewhere is in Epoll.
- IoUring.Backend.Watch: requires of users what docs/ev.pod:1911-1930 does, to set a watcher anew for a descriptor that was closed; IoUring.WatchInv says that no less would do.
- IoUring.Backend.Reify: a descriptor has one wanted mask for all its watchers and is on the change list or not; the list itself is in FdChanges.
- IoUring.Backend.Fire: the kernel reports a poll with events only if there are some.
- Epoll.Backend.Ctl: failures other than EEXIST, ENOENT, EPERM and those of a new registration that finds no room are not modelled.
- FdRegistry.Registry.Acquire: the reference count does not wrap, and the whole call is one critical section.
- OnceWatchers.Loop.Reclaim: the lists of descriptors are walked from their ends; the order is not observable.
- OnceWatchers.Loop.OnceStart: a timer joins the heap at any place; the heap is in TimerHeap.
