# OFconnect: channel registry, poll-thread pool and polling worker

OFconnect keeps OpenFlow channels alive. This project models its three stateful parts in Dafny and
proves how they agree, call by call, over whole runs, and under interleaving.

* **Registry** (`Tables`, `Library`): `ofdev` maps a device to its socket list, `ofrw` a socket to its
  device, thread and UP/DOWN state, `ofchannel` a (DPID, Aux ID) pair to a socket. A channel is
  identified as in section 6.3.5 (Auxiliary Connections) of the OpenFlow Switch Specification 1.3.1.
* **Thread pool** (`Pool`, `Lifecycle`, `Runs`): managers sorted with the largest availability first;
  an add takes the fullest thread that still has room and never re-sorts, a delete re-sorts.
* **Poll thread** (`Worker`, `Sends`, `PollThread`, `Handshake`): the request/acknowledge protocol over
  the primary pipe, the worker's `fd_list` and compacting `pollfd_arr`, parked outgoing packets, and
  the manager's compacting `pipes_arr`.
* **All together** (`Composition`, `Delivery`, `Futures`): registry and pool drive the workers with the same
  calls, sends travel through the data pipes, and the workers poll and send in between. `Delivery` follows
  packets from the hand-over to the connection, `Futures` says what can still happen after a close.
* **Concurrency** (`Accept`, `OpenGap`, `LockOrder`): the three-step accept against reads, drains,
  destroys and renames; an open whose worker is told after the tables are unlocked; the order of the
  table and pool-list locks for any number of threads.

State that the source updates in place is a class (`PollThread.Thread`, `Library.Global`) whose methods
are proved equal to functions on a snapshot; the theorems are about those functions. A run is a fold
of a step function over an arbitrary sequence of actions, so a statement about all runs quantifies over
all action sequences. A library-level manager (`PollThread.Manager`) is what `Thread.View` returns, and
`Composition.RunKeepsInv` proves that in every run it is the socket list of the worker it stands for.

## Main results

1. Every run keeps the cross-table invariant, the pool order, and the agreement of counters, tables and
   workers (`Runs.RunKeepsInv`, `Lifecycle.Conservation`); each worker polls exactly the registered
   sockets that name its manager (`Composition.PollsExactlyItsSockets`); the number of threads is at
   most `1 + peak / MAX_PER_THREAD_RWSOCKETS` (`Runs.PackingBound`).
2. `pollfd_entry_p` is not rebased when `pollfd_arr` is compacted. The reference an entry holds is its
   list position plus the number of earlier entries deleted since it was added, and nothing drifts
   exactly when descriptors are deleted in reverse order of their adds
   (`Worker.SlotIsPositionPlusDrift`, `Worker.NeverDriftsIffLastOut`). Interest in input stays that of
   the latest add through every compaction (`Worker.HistoryAsAdded`, `Sends.RunAsAdded`).
3. Every send of every run is of a slot that poll() last reported writable (`Sends.EverySendWasReported`);
   that a poll() came first at all holds exactly for clean memory (`Sends.NeverUnpolledIff`).
   With deletes in that order the assertion on a missing packet never fails and each packet sent is the
   newest one stored for that descriptor; for one worker a delete keeps both promises exactly when it
   takes the last entry. After any other delete the assertion is reachable, and a packet stored for one
   connection can leave on another (`Sends.DisciplinedSends`, `Sends.DeleteIsSafeIffLast`,
   `Sends.Misdelivery`). For the whole library, from the hand-over in `cc_of_send_pkt` on: if every call
   closes, of each thread, its newest sockets, in any order, and no message waits for one of them, then what
   leaves on a connection is a subsequence of what was handed over for it since its latest open
   (`Delivery.OrderlyRunsDeliver`). After any other closing call some run of opens, sends and worker steps
   aborts a worker or misdelivers, given descriptors enough to fill the pool
   (`Futures.StepIsSafeIffOrderly`); after the close of a thread's newest socket, an earlier hand-over can
   leave on a later connection exactly when a message still waits (`Futures.StaleIffAwaited`).
4. No add/delete wake-up is lost for any number of callers. A caller is sure that its own request was
   applied when its call returns exactly when it is the only caller (`Handshake.AnsweredIffAlone`), and
   a single call is sure of it exactly when no request is open at the moment it writes its own
   (`Handshake.CallAnsweredIff`).
5. Draining a device removes exactly that device's sockets and channels; from arbitrary tables the
   loop ends exactly on lists of distinct registered sockets (`Tables.DrainIsExact`,
   `Tables.DrainEndsIff`). After the shutdown walk both tables are empty, whichever closes fail.
6. No receive callback precedes the accept callback of its socket, under every interleaving
   (`Accept.NoReceiveBeforeAccept`).
7. Some schedule closes a waits-for cycle of the table and pool-list mutexes exactly when one thread runs a
   shutdown and another an operation that nests the channel and socket locks (`LockOrder.DeadlockIff`);
   without such a pair some thread can always move (`LockOrder.NoDeadlock`).
8. An open fills the tables, unlocks them and only then tells the worker. Whatever calls fall into that
   gap, workers and tables agree afterwards exactly when the socket was kept and its thread still has
   room, or it was closed and the thread has none (`OpenGap.GapAgreesIff`).

## Where code, comments and expectations differ

The code is followed in each case.

* The pool is sorted by falling availability and threads are never removed
  (src/cc_of_util.c:835-839), against the repository README, lines 267-270.
* A second registration of a device key replaces its socket list by an empty one
  (src/cc_of_lib.c:266-275): the invariant survives exactly when that list was empty.
* A rename deletes the channels of the socket whose number is the DPID given (src/cc_of_lib.c:903). The
  invariant survives exactly when that is the channel's own socket, or the id does not change.
* Opening and closing a socket restores the pool order exactly when no thread before the chosen one has
  equally much room, because the sorted insert puts a manager before its equals. A thread created by the
  open stays.
* A send returns once its message is in the data pipe (src/cc_of_lib.c:853-856). If its socket is closed
  first, a read right after the close fails the assertion at src/cc_pollthr_mgr.c:697. If instead the
  kernel hands the number out again and the open lands on the same thread before the read, no assertion
  fails, and the old connection's packet leaves on the new connection.
* A close in the gap between the tables and the worker leaves the worker polling a descriptor that no
  table names with it, or fails the assertion at src/cc_pollthr_mgr.c:518 if the number was opened there
  again.
* An ADD does not clear `revents` of the cell it takes (src/cc_pollthr_mgr.c:542-546): what poll() reported
  for the cell's last use, or what the fresh memory held, counts for the new descriptor until the next poll().
* Shutdown takes the socket lock before the channel lock (src/cc_of_lib.c:168-175), every other operation
  the other way round.
* Deleting a pipe by a descriptor that is no end of the thread's pipes writes no request and waits without
  holding the mutex (src/cc_pollthr_mgr.c:276-339).
* A device whose listen socket cannot be opened is reported as failed, but its entry stays
  (src/cc_of_lib.c:299-306).
* The channel record stored from a local variable (src/cc_of_lib.c:905) and the manager freed before it
  is inserted again (src/cc_of_util.c:991-995) are modelled by value and identity, as intended.

Expectations on callers and kernel appear as preconditions or as `Allowed`: fresh descriptors, a device
key without registered sockets (`Tables.MayRegister`), a dummy id given to rename (`Tables.MayRename`).

## Model

| member | source | states |
|---|---|---|
| `Worker.HistoryKeepsConsistent` | src/cc_pollthr_mgr.c:509-636 | after every request of every history, `fd_list` and the polled part of `pollfd_arr` hold the same distinct descriptors in the same order, and the two administrative entries own slots 0 and 1 |
| `Worker.DeleteKeepsConsistent` | src/cc_pollthr_mgr.c:558-630 | a delete that leaves the worker running removes exactly that descriptor from both lists |
| `Worker.SlotsTravel` | src/cc_pollthr_mgr.c:590-599 | compaction moves every later slot together with its list entry, `events` and `revents` included |
| `Worker.SlotIsPositionPlusDrift` | src/cc_pollthr_mgr.c:533-549 | a slot reference equals the list position plus the earlier-positioned entries deleted since the add, counted from the history of lists alone |
| `Worker.OwnSlotIffNoDrift` | src/cc_pollthr_mgr.c:579-620 | an entry refers to a polled slot holding its own descriptor iff that number is zero; the primary and data pipe always do |
| `Worker.RequestKeepsNoDriftIff` | src/cc_pollthr_mgr.c:586-600 | from a state without drift, a request keeps it so iff it does not delete anything but the last entry |
| `Worker.NeverDriftsIffLastOut` | src/cc_pollthr_mgr.c:586-620 | a whole history is free of drift iff every effective delete took the most recently added descriptor |
| `Worker.AddWrites` | src/cc_pollthr_mgr.c:527-549 | an add writes one slot: its descriptor, input as requested, output off, `revents` as the memory held them; every other slot, the packets and the earlier entries stay |
| `Worker.DeleteElsewhere` | src/cc_pollthr_mgr.c:565-580 | deleting a pipe the worker was started with stops it and changes nothing else; deleting an unlisted descriptor changes nothing |
| `Worker.HistoryAsAdded` | src/cc_pollthr_mgr.c:509-636 | after every history that leaves the worker running, each entry has the kind and send function, and the slot at its position the interest in input, of the latest effective add of its descriptor |
| `Sends.DisciplinedRunKeepsInv` | src/cc_pollthr_mgr.c:385-468 | over every disciplined run POLLOUT armed implies a parked packet, no assertion fails, and each send directly follows the store of its own packet |
| `Sends.SentIsSubsequenceOfStored` | src/cc_pollthr_mgr.c:431-462 | the packets sent on a descriptor since its latest ADD are a subsequence of those stored for it since then |
| `Sends.DisciplinedSends` | src/cc_pollthr_mgr.c:651-713 | both promises from the start of the worker, for every disciplined run and descriptor |
| `Sends.PollThenVisit` | src/cc_pollthr_mgr.c:406-464 | a visit after poll(): sends iff the slot is reported writable and armed, a packet is parked under the slot's descriptor and the entry can send; what is sent, what stays parked and armed, and when the assertion fails |
| `Sends.NotWritableNotSent` | src/cc_pollthr_mgr.c:406-408 | a slot poll() reports not writable is left alone by the visit, log, packets and flags |
| `Sends.EverySendWasReported` | src/cc_pollthr_mgr.c:406-445 | every send of every run is of an entry whose slot poll() last reported writable, the report followed through compaction and re-use of cells from the history alone |
| `Sends.NeverUnpolledIff` | src/cc_pollthr_mgr.c:530-549 | no run of a worker sends before its first poll() iff no cell behind the first two held POLLOUT in `revents` before |
| `Sends.RunAsAdded` | src/cc_pollthr_mgr.c:543-546 | over every run, stores, polls and visits included, each slot asks for input as the latest add of its descriptor did |
| `Sends.InputIsHeard` | src/cc_pollthr_mgr.c:395-405 | without drift, the input function of an entry is called after poll() iff poll() reports input on its own slot and its latest add asked for input |
| `Sends.DriftAborts` | src/cc_pollthr_mgr.c:415-435 | an entry that refers to another polled slot always allows a continuation that trips the assertion |
| `Sends.Misdelivery` | src/cc_pollthr_mgr.c:415-445 | an entry that refers to the polled slot of another descriptor sends the packet stored for that one on its own connection |
| `Sends.DeleteIsSafeIffLast` | src/cc_pollthr_mgr.c:586-620 | after a disciplined past, a delete leaves no way to an assertion failure iff it takes the last entry, and no way to either that or an unfaithful send iff it does; if the entry behind it can send, a misdelivering continuation exists |
| `PollThread.Thread.constructor` | src/cc_pollthr_mgr.c:57-152 | capacities as computed there, primary and data pipes at positions 0-3 and polled for input, no sockets, no drift |
| `PollThread.Thread.Occupancy` | src/cc_pollthr_mgr.c:86-117 | polled descriptors number `num_pipes`/2 + `num_sockets` and fit into `max_pollfds` |
| `PollThread.Thread.HandleAddRequest` | src/cc_pollthr_mgr.c:510-557 | the array update equals `HandleAdd`: one slot written, input as requested, output off, all others as they were |
| `PollThread.Thread.HandleDeleteRequest` | src/cc_pollthr_mgr.c:558-636 | search, compaction and list removal equal `HandleDelete`, including self-destruct and not-found |
| `PollThread.Thread.CloseGapFrom` | src/cc_pollthr_mgr.c:590-600 | the shifting loop moves the later slots down by one and nothing else |
| `PollThread.Thread.StoreData` | src/cc_pollthr_mgr.c:675-709 | parks the newest packet and arms the slot the entry refers to; no other packet and no other flag changes |
| `PollThread.Thread.VisitEntry` | src/cc_pollthr_mgr.c:406-464 | what is sent and only when reported writable and armed, what stays parked, which flag is cleared, and when the assertion fails |
| `PollThread.Thread.AddSocket` | src/cc_pollthr_mgr.c:308-326 | refused exactly when full, and then nothing changes; otherwise the counter and the worker's socket list grow by this descriptor and the whole worker state is that after the ADD |
| `PollThread.Thread.DeleteSocket` | src/cc_pollthr_mgr.c:327-362 | for any descriptor: the worker applies the delete and the counter drops; `pipes_arr` and the worker still match iff it is no pipe read end, and the counter too iff it was a socket of this thread |
| `PollThread.Thread.AddPipe` | src/cc_pollthr_mgr.c:201-236 | refused exactly at `max_pipes`; otherwise one read/write pair is appended and the worker state is that after the ADD of the read end |
| `PollThread.Thread.DeletePipe` | src/cc_pollthr_mgr.c:238-306 | either end removes exactly its pair, and the worker state is that after the DELETE of its read end; an end of the first two pipes stops the worker; any other descriptor changes nothing and leaves the call unanswered |
| `PollThread.Thread.ClosePair` | src/cc_pollthr_mgr.c:353-357 | the compaction loop moves later pairs down by two |
| `PollThread.PairsRemove` | src/cc_pollthr_mgr.c:278-304 | after removing a pair the array is still whole distinct pairs, and its read ends lost exactly that one |
| `PollThread.FdsOfDelete` | src/cc_pollthr_mgr.c:606-626 | a handled delete takes the descriptor out of its kind's list and leaves the other list in order |
| `Handshake.NoLostWakeup` | src/cc_pollthr_mgr.c:320-339 | whenever the worker signals, sleepers number requests written minus signals given, at least one; no signal is lost |
| `Handshake.OpenCallsGoOn` | src/cc_pollthr_mgr.c:320-339 | while any call is under way, one of the calls under way or the worker can go on |
| `Handshake.ReturnsNeverOutrunApplied` | src/cc_pollthr_mgr.c:646-648 | returns never exceed applied requests; requests are applied once each, in the order written |
| `Handshake.LoneCallerReturnsAfterItsRequest` | src/cc_pollthr_mgr.c:337-339 | a lone caller returns only when every request it wrote, the last one included, has been applied |
| `Handshake.SecondCallerMayReturnEarly` | src/cc_pollthr_mgr.c:646-648 | beside any other caller, among any callers, a schedule exists in which a call can return with none of its requests applied |
| `Handshake.AnsweredIffAlone` | src/cc_pollthr_mgr.c:337-339 | for every set of callers: no return of a caller ever overtakes its own request iff there is no other caller |
| `Handshake.CallAnsweredIff` | src/cc_pollthr_mgr.c:320-339 | from every state of the invariant: the call about to write returns only after its own request in every continuation iff no request is in the pipe and no signal is owed |
| `Tables.RegisterKeepsInvIff` | src/cc_of_lib.c:256-275 | registering keeps the invariant iff the key is new or has no sockets |
| `Tables.RegisterAddsOne` | src/cc_of_lib.c:256-275 | one device more, with an empty list; every other device, socket and channel as before |
| `Tables.AddKeepsInv` | src/cc_of_util.c:769-831 | adding a fresh socket keeps the invariant, whether it succeeds or is rolled back |
| `Tables.FailedAddIsInert` | src/cc_of_util.c:791-796 | the add fails iff the device is unknown, and then leaves the tables unchanged |
| `Tables.AddBinds` | src/cc_of_util.c:769-831 | a Controller binds the socket number, a Switch the id given; the row is DOWN with device, protocol and thread as given, the socket is last in its device's list, nothing else changes, and a send on the id gets there |
| `Tables.AddKeepsTargets` | src/cc_of_util.c:807-824 | ids bound to other sockets lead where they led |
| `Tables.DelKeepsInv` | src/cc_of_util.c:1001-1025 | deleting a socket keeps the invariant and shortens exactly its device's list by it |
| `Tables.DelTakesOnly` | src/cc_of_util.c:1001-1025 | exactly the socket, its link and the channels bound to it go, values of the rest kept, and every id bound to another socket still leads where it led |
| `Tables.AddThenDelRestores` | src/cc_of_util.c:731-765 | add then delete restores devices and sockets with list order, and the channels iff the key was unbound |
| `Tables.RenameKeepsInvIff` | src/cc_of_lib.c:876-908 | renaming keeps the invariant iff the DPID is the number of the channel's socket or the id is unchanged |
| `Tables.RenameReplacesOneKey` | src/cc_of_lib.c:897-909 | exactly one key is replaced, info unchanged, same size if the new id was unbound; a send on the new id reaches the same socket and thread |
| `Tables.RenameOutcome` | src/cc_of_lib.c:876-909 | EINVAL iff neither the id nor the one with the low byte of the DPID is bound, and then nothing changes; otherwise the channel found is at the new id, the channels of the socket numbered by the DPID are gone and the others as before |
| `Tables.SendOutcome` | src/cc_of_lib.c:818-847 | the id as given goes before the one with the low byte of the DPID; socket and thread are those of the channel found |
| `Tables.CastsMean` | src/cc_of_lib.c:826-826 | the two narrowing casts keep the value modulo 2^8 and 2^32 and land in their ranges |
| `Tables.DummyIsRenamable` | src/cc_of_lib.c:880-894 | a dummy channel is found through the aux-id fallback, and renaming it to any id keeps the invariant |
| `Tables.DrainIsExact` | src/cc_of_lib.c:597-657 | draining yields the tables without that device's sockets and channels, everything else untouched |
| `Tables.DrainEndsIff` | src/cc_of_lib.c:604-631 | from any tables the drain loop ends iff the list holds distinct registered sockets |
| `Tables.ShutdownEmptiesTables` | src/cc_of_lib.c:147-167 | after the walk over all devices, in any order, with any failing closes, both tables are empty |
| `Pool.FindIsTightest` | src/cc_of_util.c:886-922 | the walk over a sorted pool returns the last thread with room, which has the least, and none only if all are full |
| `Pool.FillKeepsSorted` | src/cc_of_util.c:909-916 | an add to that thread keeps the pool sorted without re-sorting |
| `Pool.ResortKeeps` | src/cc_of_util.c:972-998 | unlink and sorted insert keep the same managers and restore the order |
| `Pool.ResortRestoresIff` | src/cc_of_util.c:924-939 | unlink and sorted insert give back the same list iff no manager of equal availability stands before |
| `Lifecycle.Conservation` | src/cc_of_util.c:1059-1092 | `num_sockets` equals the `ofrw` entries naming the manager and the sockets its worker polls, within capacity |
| `Lifecycle.OpenKeepsInv` | src/cc_of_util.c:1031-1096 | opening a fresh socket keeps everything and succeeds iff the device is known and a thread is available |
| `Lifecycle.OpenOutcome` | src/cc_of_util.c:1031-1096 | status of every open; a successful one goes to a thread with least room, or a new one in front if none has any, stores row and id, and that thread alone polls the socket and counts it |
| `Lifecycle.FailedOpenIsInert` | src/cc_of_util.c:1070-1085 | a failed open changes nothing, but for at most one new empty thread when all were full |
| `Lifecycle.CloseKeepsInv` | src/cc_of_util.c:969-1025 | closing a registered socket succeeds and keeps everything; exactly it leaves the device list, the socket table, the channels and its thread, which counts one less; ids bound to other sockets lead where they led |
| `Lifecycle.DestroyOutcome` | src/cc_of_lib.c:731-795 | an unbound id is refused and nothing changes; a bound one goes with its socket |
| `Lifecycle.DrainKeepsInv` | src/cc_of_lib.c:533-684 | draining keeps everything, removes exactly the device's entries and keeps all threads |
| `Lifecycle.FreeDeviceKeepsInv` | src/cc_of_lib.c:408-500 | releasing a device also forgets it and nothing else |
| `Lifecycle.OpenThenCloseRestoresIff` | src/cc_of_util.c:886-998 | open then close, whatever the open does: counters as after the thread search, devices and sockets as before, channels as before iff the key was unbound, pool order iff no equal thread stood before the chosen one; a created thread stays in front; a refused open leaves nothing to undo |
| `Runs.RunKeepsInv` | src/cc_of_util.c:769-1096 | tables, pool order, counters and workers agree after every run of register, open, rename, close, destroy, drain and free |
| `Runs.SpawnOnlyWhenFull` | src/cc_of_util.c:891-907 | a call that lengthens the pool is an open, adds one thread, and finds every existing thread with its full number of sockets |
| `Runs.PackingBound` | src/cc_of_util.c:853-907 | threads never exceed one plus peak live sockets divided by the capacity of a thread |
| `Runs.SendsAreDistinguished` | src/cc_of_lib.c:818-855 | in every reachable state two channel ids lead to different sockets, each polled by the thread the send is handed to |
| `Runs.ReachableDrainEnds` | src/cc_of_lib.c:604-657 | in every reachable state the drain loop ends after as many passes as the list is long |
| `Library.Global.constructor` | src/cc_of_lib.c:52-135 | empty tables and one empty thread |
| `Library.Global.FindOrCreateThread` | src/cc_of_util.c:886-922 | the list walk: a thread with least room, or a new one in front if none has any and it can be created |
| `Library.Global.InsertManager` | src/cc_of_util.c:993-996 | the insertion loop puts the manager at `InsertSorted` |
| `Library.Global.UnlinkManager` | src/cc_of_util.c:979-990 | finds and unlinks the manager, or reports that it is missing |
| `Library.Global.DelChannelsOf` | src/cc_of_util.c:631-638 | for any iteration order exactly the channels of that socket go |
| `Library.Global.FindChannelKey` | src/cc_of_util.c:641-677 | for any iteration order returns the unique key of the socket, or fails iff there is none |
| `Library.Global.DelDeviceSocket` | src/cc_of_util.c:730-765 | removes the socket's first link from the device's list, ignoring unknown devices |
| `Library.Global.RegisterDevice` | src/cc_of_lib.c:234-306 | new table and status for a bad version, a failed listen socket, and success; one empty list more and every other device as before; the invariant survives iff the key was new or without sockets |
| `Library.Global.AddToTables` | src/cc_of_util.c:768-831 | row, list and channel written in place, the id by role, and the rollback for an unknown device |
| `Library.Global.OpenConn` | src/cc_of_util.c:1031-1096 | status, thread, row, id and counters after an open, written out; a refused open leaves at most a new empty thread |
| `Library.Global.CloseConn` | src/cc_tcp_conn.c:533-574 | exactly the socket leaves tables and thread, ids of other sockets lead where they led; an unregistered socket is reported and nothing changes |
| `Library.Global.DestroyChannel` | src/cc_of_lib.c:731-795 | an unbound id is refused and nothing changes; a bound one goes with its socket; the status of close(2) is passed on |
| `Library.Global.SetRealId` | src/cc_of_lib.c:860-910 | EINVAL and nothing changed iff neither id is bound; otherwise which channel is at the new id and which are gone |
| `Library.Global.LookupSend` | src/cc_of_lib.c:818-847 | socket and thread of the id as given, else of the one with the low byte; under the invariant it fails iff neither is bound, and the thread named watches the socket |
| `Library.Global.DrainDevice` | src/cc_of_lib.c:597-657 | terminates; the device keeps an empty list, its sockets and their channels are gone, everything else is as before |
| `Library.Global.Shutdown` | src/cc_of_lib.c:147-167 | both tables end empty; exactly the devices whose close failed stay listed |
| `Composition.RunKeepsInv` | src/cc_of_util.c:1031-1096 | registry, pool and every worker agree after every run of calls, sends, data-pipe reads, polls and visits: unless its assertion failed, a worker lists its two pipes and then the sockets its manager believes in, in order |
| `Composition.PollsExactlyItsSockets` | src/cc_of_util.c:943-998 | in every such run a worker polls a socket iff the socket table names its manager, asks for input on each descriptor, and polls two plus `num_sockets` |
| `Delivery.CloseListDriftIff` | src/cc_of_lib.c:604-631 | after any list of closes, in any order, the entries of a thread own their slots iff the closed sockets were the last of its list |
| `Delivery.StepKeepsLinked` | src/cc_of_lib.c:799-857 | every step, orderly or not, from a good state keeps: for each registered socket, handed over is what its worker stored followed by what waits, and what left is a subsequence of what was handed over |
| `Delivery.OrderlyRunsDeliver` | src/cc_of_lib.c:799-857 | in every run whose calls close only newest sockets nobody waits for, no worker assertion fails, nothing drifts, and what leaves on a connection is a subsequence of what was handed over for it since its latest open; handed over is stored plus waiting |
| `Futures.CloseThenReadAbortsIff` | src/cc_pollthr_mgr.c:668-697 | reading the data pipe empty right after any closing call trips the assertion iff a message for a closed socket of the thread was waiting |
| `Futures.StepIsSafeIffOrderly` | src/cc_of_lib.c:604-657 | after a step from a good state, drains and frees included, no orderly continuation of library calls, sends and worker steps aborts a worker or misdelivers, iff the sockets it closes are, of each thread, the newest and not waited for |
| `Futures.CloseIsSafeIffClean` | src/cc_tcp_conn.c:533-574 | the same for a single close: safe iff the socket was the newest of its thread and no message for it was waiting |
| `Futures.StaleIffAwaited` | src/cc_of_lib.c:849-857 | after the close of a thread's newest socket, some continuation sends an earlier hand-over on a later connection of the same number iff a message for it was waiting |
| `Accept.NoReceiveBeforeAccept` | src/cc_tcp_conn.c:452-505 | under every interleaving each receive callback follows the accept callback of its socket with no registration between |
| `Accept.StepKeepsInv` | src/cc_tcp_conn.c:158-220 | every step keeps: a socket that is UP has been announced since it was last registered |
| `Accept.RunKeepsAcceptInv` | src/cc_tcp_conn.c:402-508 | the registry invariant also holds between the steps of an accept, under every allowed interleaving |
| `Accept.GoneDeviceTookItsSocket` | src/cc_tcp_conn.c:460-469 | if the device is gone when the controller would be notified, its socket is no longer registered |
| `Accept.UndisturbedAcceptDelivers` | src/cc_tcp_conn.c:402-505 | after any run, an accept for a known device that nobody disturbs registers, announces and opens the gate: the next packet is delivered |
| `Accept.SetUpTouchesOne` | src/cc_tcp_conn.c:483-501 | only the readiness of the accepted socket changes |
| `Accept.ReadDeliversIff` | src/cc_tcp_conn.c:158-220 | after every allowed run a packet is delivered iff its socket is registered, UP and has a channel |
| `Accept.VanishedDeviceIsNotTold` | src/cc_tcp_conn.c:460-469 | if the device is gone before the notification there is no callback and no UP |
| `Accept.SameTables` | src/cc_of_lib.c:597-657 | the other threads' calls do to the tables what they do in a run of whole calls |
| `OpenGap.GapInvariant` | src/cc_of_util.c:1066-1092 | between the two halves of an open, under any calls: while the socket is kept it alone is missing, from the thread it names; once it is closed nothing is |
| `OpenGap.GapAgreesIff` | src/cc_of_util.c:1066-1092 | from any state in which workers and tables agree, every reachable one among them, and for any calls in the gap: they agree after the open iff the socket was kept exactly if the thread still has room; closed and with room, the worker polls a socket no table gives it, or its assertion fails |
| `LockOrder.OperationOrdered` | src/cc_of_util.c:1049-1083 | every operation but shutdown acquires device, channel, socket and pool-list locks upwards and releases them all |
| `LockOrder.AcquiresWhatItTouches` | src/cc_of_lib.c:366-368 | an operation takes the lock of a table or the pool list iff it reads or changes it |
| `LockOrder.PoolListPlaces` | src/cc_of_util.c:886-998 | the pool list is taken before the tables when a thread is looked for and under all three when one is closed |
| `LockOrder.WaitsForIsAcyclic` | src/cc_of_lib.c:749-790 | for any threads, operations and schedule without a shutdown beside a nesting operation, the waits-for graph has no cycle |
| `LockOrder.NoDeadlock` | src/cc_of_lib.c:366-368 | without such a pair, as long as a thread is unfinished some thread can move |
| `LockOrder.ShutdownCanDeadlock` | src/cc_of_lib.c:168-175 | for every such pair, at any place of any programs, a schedule exists after which the two wait for each other |
| `LockOrder.DeadlockIff` | src/cc_of_lib.c:147-175 | for all programs: some schedule reaches a waits-for cycle iff one thread has a shutdown and another an operation that takes the socket lock while holding the channel lock |
| `LockOrder.MutualWaitIsForGood` | src/cc_of_lib.c:168-175 | two threads that wait for each other do so in every continuation |

## Left out

- Socket system calls and errno handling: a descriptor is handed out or not, and close(2) succeeds or not.
- Logging, debug toggles, table printing, hash functions, error strings and language bindings.
- UDP peer demultiplexing and sockets without a thread: the server side is compiled out (src/cc_of_lib.c:311-325).
- The thread-start handshake (src/cc_pollthr_mgr.c:123-133): the model starts with the worker running.
- Handshake: requests that stop the worker, spurious wake-ups and a full primary pipe are not modelled.
- PollThread.Thread.DeletePipe: what follows a wait without the mutex, should it return, is undefined in C and not modelled.
- Waiting for a worker while table locks are held, which line 49 of the repository README reports to hang: LockOrder covers mutexes only.
- Unlocked reads of manager counters by concurrent callers: Lifecycle, Runs and Composition perform one library call at a time; in Composition the workers' reads, polls and sends fall anywhere between calls, and not inside a drain.
- OpenGap: opens whose gaps overlap, and the pool order and counters after a gap. Composition and Accept treat the two halves of an open as one step.
- Futures: sets of unused descriptors too small to fill every thread of the pool.
- Composition: requests that stop a worker, add-on pipes, and a full data pipe.
- The walk of src/cc_tcp_conn.c:83-100 that goes on after releasing the device lock.
- The listen thread's socket count, and descriptor 0 deleted for SWITCH devices.
- The size assertion of src/cc_of_lib.c:370: `FreeDevice` is modelled for any number of devices.
- Several data messages merged into one read of the data pipe (src/cc_pollthr_mgr.c:668): one message per read.
- Memory: allocation failure, double frees and the lifetime of keys and list nodes.
