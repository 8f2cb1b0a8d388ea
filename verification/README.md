# Verified models of the Nucleos kernel and four of its drivers

Dafny models of the parts of Nucleos that change shared state in place and rest on invariants nobody checks at run
time, with proofs of what they promise over whole runs. `dafny verify dfyconfig.toml` checks everything.

## What is modelled

**Message passing** (`Ipc*.dfy`). A process table of any size, with the caller queue, pending notifications, inbox and
asynchronous table of each process. `IpcModel` gives every kernel entry as a function on states; `IpcKernel` is the
same code on arrays and linked queues, each method proved to compute its function. A run is any interleaving of
kernel calls, notifications, exits, forks, message copy-outs, changes of other run flags and changes of send masks.
Over every run: nobody waits in a circle, no rendezvous is missed, queues hold exactly the senders asleep, each
accepted send is delivered once and unaltered or called off by an exit, queues are first come first served, no inbox is
overwritten, nothing arrives that was not sent, no notification is lost, no asynchronous request is forgotten, dropped
or served twice, nobody is woken but by what it waits for, and a SENDREC is answered by no notification. What each call
comes to is told by what its caller asks for and the state it finds: who is let through, when it blocks, what it takes
first, and what it leaves alone. The state carries a log of accepted, delivered and called-off sends; it is there to state these
properties, and no branch depends on it. Every event on it is traced to the call or exit behind it, and, without the
log, every message in the kernel's hands to a call of the process it is from.

**Scheduling** (`Sched*.dfy`). Run queues as lists and as head/tail/next links. Over every run of blocking, unblocking,
slot reuse, clock ticks, balancing sweeps and rescheduling: a task is on the queue of its priority exactly when its run
flags are clear, priorities stay in bounds, only the current task can be preempted or out of quantum, rescheduling
clears both and picks a best runnable task, and the kernel's own consistency check passes. A quantum lasts as many ticks
as it says, and which end of which queue a task joins depends on whether it has time left. That check is itself proved
to pass exactly when the links make up proper queues.

**Checksummed disk** (`Sum*.dfy`). The filter driver's disk format, one checksum sector after each group of data
sectors, for any group size, checksum size and checksum function, on a disk of any length. Every transfer refines the
same transfer on a plain array of sectors.

**MD5 streaming** (`Md5*.dfy`), **recovery from bad disk drivers** (`Recovery*.dfy`), **the packet buffer allocator**
(`Netbuff*.dfy`), **the 16-bit PIO writer** (`Pio16.dfy`) and **the DMA table builder** (`Dma.dfy`) are smaller models in
the same style: a specification on values, the imperative code proved against it, and theorems about the specification.

## Where the code does not do what one would expect

- A receive from a specific source looks only at the lowest pending notification of each 16-bit chunk. `ScanOne` says
  exactly when the notification is found; `ScanOneMisses` is a case where it is there and is not.
- A receive that names its own caller, and does not find a notification from it, puts the caller to sleep waiting
  for itself, and `deadlock` does not notice. `SelfReceive` shows that every other call keeps the invariant; runs
  exclude that one.
- `do_fork` copies the parent's whole process structure, and with it its caller queue. `ForkCore` says exactly when the
  queue invariants survive: the parent is not sending and nobody is queued on it. `ForkExample` is a fork where they do
  not. Runs exclude such forks.
- `set_sendto_bit` gives permission without announcing requests that are already tabled. `PermitExact` is the condition
  under which nothing goes unannounced, `RunAnnounced` says that nothing else does any harm in any run, and
  `UnannouncedExample` is a run that ends with a process asleep while there is a request for it.
- The comment in `MD5Final` promises the bit count with its highest byte first; the code puts the lowest first, as
  section 3.2 of RFC 1321 wants. Clearing the context afterwards covers the size of a pointer, not the context;
  `Md5.Context.Final` says what is left.
- When the main disk is dropped from the mirror, the backup's record is copied over it. If a problem of the backup is on
  record at that time, it is dealt with once and is then still there in the copy. `RoundLeaves` says that this is the
  only way a problem is left over, and `LeftOnRecord` is a case of it.
- Nothing bounds how often a request is redone while drivers come back by themselves at new endpoints: `NeverEnds`.

## Model

| member | source | states |
|---|---|---|
| IpcSteps.RunInv | kernel/proc.c:269-944 | every state of every run keeps all invariants: queue contents, one common target of a SENDREC, no missed rendezvous, an acyclic wait-for graph, receivers with an empty inbox, no self in a send mask |
| IpcTheorems.RunNeverDeadlocks | kernel/proc.c:269-329 | in no state of any run can a process be reached from itself by following who waits for whom |
| IpcTheorems.RunNoCircle | kernel/proc.c:269-329 | the same without the walk of `deadlock`: in no state of any run is there a circle of processes each of which is asleep sending to or receiving from the next |
| IpcTheorems.RunNeverMisses | kernel/proc.c:366-402 | in no state of any run is a process asleep receiving while a sender it would accept is queued on it, or from anyone while a notification is pending |
| IpcTheorems.SendDeadlockExact | kernel/proc.c:378-402 | for a send that would block, the result of `deadlock` is 0 exactly when blocking keeps the graph acyclic, and otherwise the length of the circle it would close |
| IpcTheorems.ReceiveDeadlockExact | kernel/proc.c:552-561 | the same for a receive from one source that would block |
| IpcTheorems.SendRecCompletes | kernel/proc.c:1496-1509 | once the send half of a SENDREC succeeds, the receive half does not fail |
| IpcTheorems.SelfReceive | kernel/proc.c:416-565 | a kernel call keeps the invariants exactly when it is no receive that names its own caller, is let through and finds no notification from it; such a receive succeeds and closes a circle of one |
| IpcTheorems.SelfReceiveExample | kernel/proc.c:269-329 | a state in which receiving from oneself closes a circle of one |
| IpcTheorems.ForkExample | kernel/system/do_fork.c:40-135 | a fork that succeeds and leaves a process on the queue of one it does not send to |
| IpcTheorems.ClearingForgets | kernel/system.c:472-556 | after any exit in any run no live process sends to, receives from or has a notification from the endpoint that went away |
| IpcExact.SendExact | kernel/proc.c:339-406 | a send to a live process succeeds exactly when that process waits for the caller and for nothing else, or the call may block and the graph stays acyclic; it is then handed over, or its caller is asleep at the end of the queue; the status tells why else, and then nothing changes |
| IpcExact.SendRefused | kernel/proc.c:346-364 | a send whose message cannot be mapped, or to a dead process, is refused and changes nothing |
| IpcExact.ReceiveNoted | kernel/proc.c:457-502 | a receive that is not the second half of a SENDREC takes the first notification it looks for before anything else, and changes nothing else |
| IpcExact.ReceiveQueued | kernel/proc.c:504-535 | failing that, it takes the message of the first acceptable process on its queue, which is awake again |
| IpcRequests.ReceiveTabled | kernel/proc.c:537-550 | failing that, it is handed the first request for it in the table of the source, or of the first process that has one |
| IpcRequests.ReceiveSleeps | kernel/proc.c:552-565 | with nothing to take it goes to sleep exactly when it may block and the graph stays acyclic; the status tells why else; no table of use is lost |
| IpcCalls.ScreenExact | kernel/proc.c:1395-1483 | a call is let through exactly when it is in the caller's trap mask and names a present process that the caller may send to, not a kernel task unless it waits for the reply; a receive may name any present process or none; a table is of limited size |
| IpcCalls.Refused | kernel/proc.c:1395-1483 | a call that is not let through changes nothing, and which error it gets |
| IpcCalls.CallCivil | kernel/proc.c:1339-1522 | a call changes nobody's identity, masks or wish for a reply but the caller's, which is on after a SENDREC and off after a receive; it wakes a receiver only with a message from a source that one waits for, and with no notification if it waits for a reply; nobody else's inbox changes |
| IpcCalls.ReceiveFrame | kernel/proc.c:416-565 | of other processes a receive changes no more than that a send is over and a table served or dropped; it takes no notification while its caller waits for a reply |
| IpcCalls.ReceiveAsked | kernel/proc.c:416-565 | a receive from one source is given nothing from another, and if it succeeds with nothing its caller sleeps waiting for that source |
| IpcCalls.SendRecWaits | kernel/proc.c:1496-1509 | a SENDREC that succeeds has a message from its peer, or its caller sleeps waiting for the peer |
| IpcWaits.RunReply | kernel/proc.c:1496-1509 | in every run, from a SENDREC that is let through until the next receive of its caller no notification reaches the caller |
| IpcWaits.RunWakes | kernel/proc.c:339-618 | in every run, a process asleep receiving sleeps on, waiting for the same, until it is given a message from a source it waits for, or that endpoint or its own is cleared |
| IpcWaits.ClearExact | kernel/system.c:506-554 | clearing an endpoint wakes just the processes that send to or receive from it, takes back just its notifications, and leaves every other process as it was |
| IpcWaits.ClearQueues | kernel/system.c:506-530 | the queue of the process is gone, and every other queue loses that process and keeps its order |
| IpcWaits.ExitExact | kernel/system/do_exit.c:57-100 | a process that exits leaves its slot free and idle; for everybody else it is the clearing of its endpoint |
| IpcWaits.RunIdle | include/kernel/proc.h:175-176 | in every run a process that is held, dead or asleep makes no call and fetches no message |
| IpcOwners.PermitMasks | kernel/system.c:290-313 | who may send to whom after `set_sendto_bit`, for every pair of processes |
| IpcOwners.ForbidMasks | kernel/system.c:318-327 | who may send to whom after `unset_sendto_bit` |
| IpcOwners.ForkExact | kernel/system/do_fork.c:40-135 | when a fork succeeds, what the child has of its parent and what not, and that nobody else changes |
| IpcGraph.ClosesUnique | kernel/proc.c:288-325 | the circle that blocking would close has one length |
| IpcGraph.SelfCloses | kernel/proc.c:288-325 | the walk of `deadlock` never finds a circle for a process that waits for itself |
| IpcGraph.DeadlockSizeIs | kernel/proc.c:297-320 | if blocking would close a circle, `deadlock` gives its length, or 0 for the exempted circle of two |
| IpcGraph.GrowAcyclic | kernel/proc.c:378-402 | a new edge that closes no circle keeps the graph acyclic |
| IpcPreserve.NoExemptSend | kernel/proc.c:297-320 | the exempted circle of two means the target would take the message at once, so no send that blocks meets it |
| IpcPreserve.NoExemptReceive | kernel/proc.c:297-320 | the exempted circle of two means the source is queued on the caller, so no receive that blocks meets it |
| IpcPreserve.BlockSendCore | kernel/proc.c:378-402 | going to sleep sending keeps queues, coupling, no missed rendezvous and acyclicity |
| IpcPreserve.BlockReceiveCore | kernel/proc.c:552-561 | so does going to sleep receiving |
| IpcPreserve.TakeCallerCore | kernel/proc.c:505-531 | so does taking a queued sender's message |
| IpcPreserve.WakeCore | kernel/proc.c:363-376 | so does waking a receiver |
| IpcPreserve.ClearCore | kernel/system.c:506-554 | so does clearing an endpoint |
| IpcPreserve.ClearForgets | kernel/system.c:506-554 | nobody alive waits on a cleared endpoint or has its notification |
| IpcPreserve.ForkCore | kernel/system/do_fork.c:40-135 | a fork keeps them exactly when the parent is not sending and has an empty caller queue |
| IpcSteps.LowBitIs | kernel/proc.c:466-484 | the scan of a chunk finds its lowest pending notification, if there is one |
| IpcSteps.ScanAny | kernel/proc.c:457-502 | receiving from anyone finds a pending notification whenever there is one |
| IpcSteps.ScanOne | kernel/proc.c:457-502 | receiving from one source finds its notification exactly when it is the lowest pending of its chunk |
| IpcSteps.ScanOneMisses | kernel/proc.c:466-484 | a pending notification that a receive from its source does not find |
| IpcSteps.CallInv | kernel/proc.c:1339-1522 | every kernel call keeps the invariants, except the one that `SelfReceive` is about |
| IpcLog.Fate | kernel/proc.c:392-402 | in a well-formed log an accepted send is followed by its one delivery or call-off before anything else about its sender, or is still open |
| IpcLog.Origin | kernel/proc.c:505-531 | every delivery from a queue is of the sender's last accepted send, unaltered |
| IpcLog.RunTold | kernel/proc.c:339-565 | in every run the log is well formed and tells exactly who is asleep sending what, and each queue in order |
| IpcLog.RunFate | kernel/proc.c:392-402 | in every run each accepted send is still asleep in its sender; or was delivered once as it was, in a receive of its destination that takes messages from the sender; or was called off, in a step that clears the endpoint of its sender or of its destination |
| IpcLog.RunFifo | kernel/proc.c:505-531 | a receive from anyone takes the sender that has been asleep longest |
| IpcCauses.StepCaused | kernel/proc.c:339-944 | each event a step logs has its cause: a send is in a permitted call of its sender with that destination and body; a delivery in a receive of its destination, from a process asleep sending it that body; an asynchronous one is of an undone entry, of the table tabled before or in the call, that names the destination and the body and does not mind that the destination waits for a reply; a call-off in the clearing of one of the two endpoints |
| IpcCauses.RunCauses | kernel/proc.c:339-944 | every event on the log of every state of every run was written, and stays as it is, by an earlier step that has its cause |
| IpcAuthentic.StepAuthentic | kernel/proc.c:339-944 | a message that is asleep in its sender, tabled or in an inbox after a step was with the kernel before, from and for the same endpoints and with the same body, or the step is a call of its sender that gives it |
| IpcAuthentic.RunAuthentic | kernel/proc.c:339-944 | in every state of every run every message in the kernel's hands was given to it in an earlier call of the very process it is from, for the very process it goes to, with the body it has |
| IpcArrivals.CallArrives | kernel/proc.c:89-113 | every message a kernel call hands over arrives in an inbox that was empty, with the sender's endpoint and the body sent, inboxes in use are left alone, and every event has its cause |
| IpcArrivals.RunArrives | kernel/proc.c:89-113 | the same for every call and notification of every run |
| IpcNotices.NotifyExact | kernel/proc.c:573-618 | a receiver that waits for the notification, and not for a reply, has room for it and gets it at once; for any other it becomes pending; nothing else changes |
| IpcNotices.CallBalanced | kernel/proc.c:416-535 | any other call hands over only messages it logs and notifications that were pending, and takes no notification without delivering it |
| IpcNotices.RunKeepsNotices | kernel/proc.c:457-502 | in every run a pending notification stays pending until it is delivered, its sender exits or the slot gets a new process |
| IpcNotices.RunExplains | kernel/proc.c:89-113 | at every step of every run an inbox changes only when it is copied out or its slot gets a new process, or by a message that the step was asked to send or to fetch, a notification that was pending, or the one the step gives |
| IpcAsync.TryAsyncFinds | kernel/proc.c:811-838 | if some process has a request the receiver can take, `try_async` serves one |
| IpcAsync.ReceiveFinds | kernel/proc.c:537-550 | a receive that could take a tabled request does not go to sleep |
| IpcAsync.GrantExact | kernel/system.c:290-313 | new permissions leave all requests announced exactly when no newly permitted pair has an unserved request for a live process that is not told |
| IpcAsync.PermitExact | kernel/system.c:290-313 | the same as a condition on the two processes whose masks `set_sendto_bit` changes |
| IpcAsync.StepAnnounced | kernel/proc.c:643-944 | any step leaves all requests announced exactly when it is no permission that fails that condition |
| IpcAsync.UnannouncedExample | kernel/proc.c:811-838 | a run of four steps after which a process sleeps, not told, while a permitted request for it is on the table |
| IpcAsync.RunAnnounced | kernel/proc.c:686-944 | in every run, every live process with an unserved request for it has MF_ASYNMSG set up to step n exactly when no permission given before lets an old request through |
| IpcAsync.RunOnce | kernel/proc.c:840-944 | as long as a process tables no new requests, each of its requests is served at most once, none that was done is served again, and one that was served is marked done unless the table is gone |
| IpcAsync.RunServesOnce | kernel/proc.c:643-809 | the same counted from the `mini_senda` that tabled them |
| IpcRequests.ScanExact | kernel/proc.c:876-920 | the scan of a table stops at the first request for the receiver that it can take, or at a bad entry before it, and otherwise tells whether anything is left to do and whether something had to wait |
| IpcRequests.TryOneExact | kernel/proc.c:840-944 | `try_one` succeeds exactly when there is such a request and the owner may send; the request is then handed over and marked; a table is dropped only if it is bad or all done |
| IpcRequests.TryAsyncExact | kernel/proc.c:811-838 | `try_async` serves the first process that has such a request, and otherwise clears MF_ASYNMSG exactly when nothing had to wait |
| IpcSenda.SendaOneExact | kernel/proc.c:708-796 | a request is refused for the reason given, handed over exactly when its destination waits for it and does not mind, or left for later with the destination told |
| IpcSenda.SendaHands | kernel/proc.c:766-790 | a process asleep waiting for the caller is handed the first request for it in the call itself |
| IpcSenda.SendaStatus | kernel/proc.c:643-705 | for whom and for which tables an asynchronous send goes well |
| IpcSenda.SendaExact | kernel/proc.c:643-809 | after it, each request has been refused, served, or is on the table, which is dropped only if nothing is left to do |
| IpcSenda.RunKeepsRequests | kernel/proc.c:643-944 | in every run a request stays on the table as it is until it is served, its process sends a new table or ends, or the table has a bad entry |
| IpcKernel.Kernel.Deadlock | kernel/proc.c:269-329 | the loop ends within the number of processes, for any target, and computes the specified size |
| IpcKernel.Kernel.QueueMess | kernel/proc.c:89-113 | fills an empty inbox |
| IpcKernel.Kernel.Enqueue | kernel/proc.c:392-400 | appends to the linked caller queue |
| IpcKernel.Kernel.MiniSend | kernel/proc.c:339-406 | computes the specified send |
| IpcKernel.Kernel.MiniReceive | kernel/proc.c:416-565 | computes the specified receive, unlinking from the queue in place |
| IpcKernel.Kernel.MiniNotify | kernel/proc.c:573-618 | computes the specified notification |
| IpcKernel.Kernel.MiniSenda | kernel/proc.c:643-809 | computes the specified asynchronous send |
| IpcKernel.Kernel.TryAsync | kernel/proc.c:811-838 | computes the specified search through all tables |
| IpcKernel.Kernel.TryOne | kernel/proc.c:840-944 | computes the specified service of one table |
| IpcKernel.Kernel.ClearEndpoint | kernel/system.c:472-556 | computes the specified clearing, unlinking from the queue in place |
| IpcKernel.Kernel.KipcCall | kernel/proc.c:1339-1522 | computes the specified call, with its permission checks and the fall-through of SENDREC, and keeps the invariants exactly when `SelfReceive` says so |
| SchedRuns.RunInv | kernel/proc.c:982-1254 | in every state of every run each task is on its queue exactly when runnable, once, priorities are in bounds, only the current task is preempted or out of quantum, and IDLE never is |
| SchedRuns.RescheduleLosesNobody | kernel/proc.c:141-181 | every reschedule clears preemption and expiry, puts every task free to run on its queue, and runs a best one, or IDLE when there is none |
| SchedRuns.PickFirst | kernel/proc.c:1177-1208 | the pick is the head of the first queue that is not empty |
| SchedRuns.PickBest | kernel/proc.c:1177-1208 | the pick is runnable and of the best priority among all that are; none only if none is |
| SchedRuns.PutBackClears | kernel/proc.c:141-181 | putting back clears the two flags of the current task and no other flag of any task |
| SchedRuns.CheckInv | kernel/proc.c:141-181 | rescheduling keeps the invariant |
| SchedRuns.TickInv | kernel/clock.c:200-273 | a clock tick keeps the invariant |
| SchedRuns.BalanceRaises | kernel/proc.c:1215-1247 | a full sweep raises by one each task in use that has time left, is not runnable or is preempted by an earlier visit of the sweep, and gives a new quantum to every other; which visits preempt is read off the state before; free slots are left alone |
| SchedRuns.BalanceVisited | kernel/proc.c:1215-1247 | a task already passed in the sweep keeps its claim |
| SchedExact.TickCharges | kernel/clock.c:227-269 | a tick costs the current task one if it is preemptible, and the billed task one if the current task is not billable, marks the current task as out of quantum exactly when it can run, may be preempted and has no time left, and changes nothing else |
| SchedExact.QuantumLasts | kernel/clock.c:227-269 | over k ticks a task that is charged once for each has k less, and is marked exactly after the last tick of its quantum; the billed task pays as much, and nobody else anything |
| SchedExact.EnqueuePlaces | kernel/proc.c:982-1039 | a task with time left joins its queue before all others; one without gets a new quantum and goes behind all others one queue lower; the current task is preempted exactly when it may be and is worse off; all else stays, in order |
| SchedExact.SetStops | include/kernel/proc.h:186-240 | a task that is stopped leaves its queue, which keeps its order, and nothing else changes |
| SchedExact.FreeStops | include/kernel/proc.h:231-239 | a slot that is freed is off its queue, which keeps its order, and nothing else changes |
| SchedExact.UnsetStarts | include/kernel/proc.h:186-240 | a task joins a queue exactly when its last reason to wait goes away |
| SchedExact.PreemptedFirst | kernel/proc.c:158-164 | a task that was only preempted is first on its queue again, with its time |
| SchedExact.ExpiredJoins | kernel/proc.c:158-167 | one that is out of quantum joins the queue it is due |
| SchedExact.WaitingStays | kernel/proc.c:158-167 | one that waits for something else stays off the queues |
| SchedExact.CheckSwitches | kernel/proc.c:141-181 | the current task changes exactly when it cannot run, to the head of the best queue or IDLE, and the new one is billed if it is billable |
| SchedExact.RoundRobin | kernel/proc.c:141-181 | a task that has used up its quantum has a new one and is last on a lower queue before the next one runs |
| SchedKernel.Scheduler.constructor | kernel/proc.c:982-1039 | an empty scheduler is a valid start |
| SchedKernel.Scheduler.Dequeue | kernel/proc.c:1088-1141 | unlinks the task from its queue, fixing head and tail |
| SchedKernel.Scheduler.Enqueue | kernel/proc.c:982-1039 | links the task in where the policy says and preempts a current task of worse priority |
| SchedKernel.Scheduler.EnqueueHead | kernel/proc.c:1047-1082 | links the task in at the head |
| SchedKernel.Scheduler.RtsSet | include/kernel/proc.h:186-240 | sets a flag, dequeueing exactly when the task stops being runnable |
| SchedKernel.Scheduler.RtsUnset | include/kernel/proc.h:186-240 | clears a flag, enqueueing exactly when the task becomes runnable |
| SchedKernel.Scheduler.PickProc | kernel/proc.c:1177-1208 | computes the specified pick |
| SchedKernel.Scheduler.BalanceQueues | kernel/proc.c:1215-1247 | computes the specified sweep |
| SchedKernel.Scheduler.TimerTick | kernel/clock.c:200-273 | computes the specified tick |
| SchedKernel.Scheduler.SchedCheck | kernel/proc.c:141-181 | computes the specified reschedule |
| SchedKernel.Scheduler.CheckRunqueues | kernel/debug.c:26-114 | passes exactly when the links make up queues of ready tasks, each at its own priority, with every ready task on one |
| SchedKernel.Scheduler.CheckPasses | kernel/debug.c:42-113 | passes in every valid state |
| SumLayout.Macros | drivers/filter/sum.c:7-9 | the layout used here is that of LOG2PHYS and SEC2SUM_NR |
| SumLayout.Classify | drivers/filter/sum.c:7-9 | every raw sector is the data of one logical sector or the checksums of one group |
| SumLayout.Unclassify | drivers/filter/sum.c:7-9 | and never both; it tells which |
| SumLayout.CapacityExact | drivers/filter/sum.c:608-621 | a logical sector is below the converted size exactly when its data and its checksum are on the disk |
| SumLayout.CapacityFormula | drivers/filter/sum.c:608-621 | the converted size is that of `convert` |
| SumLayout.CollapseFormula | drivers/filter/sum.c:467-484 | the collapsed size is that of `collapse_size` |
| SumLayout.CollapseCounts | drivers/filter/sum.c:467-484 | it counts exactly the data sectors among the raw ones |
| SumLayout.CollapseInverts | drivers/filter/sum.c:444-484 | it undoes `expand_sizes` |
| SumModel.RunReads | drivers/filter/sum.c:489-603 | after any writes, a sector ever written holds what was last written to it under a good checksum, any other what it held under the checksum it had |
| SumModel.RunStaysGood | drivers/filter/sum.c:489-603 | a disk on which all checksums are good stays so |
| SumModel.WroteKeeps | drivers/filter/sum.c:187-272 | a sector outside a write stays good, or bad |
| SumImage.GroupSummed | drivers/filter/sum.c:131-182 | checksum slots that match are logical sectors that match, and the other way round |
| SumImage.WriteImage | drivers/filter/sum.c:187-272 | writing out the assembled buffer is writing the request to a plain array of sectors, makes its sectors good, and leaves data and checksum of all others alone |
| SumFilter.Expand | drivers/filter/sum.c:378-405 | puts each sector of the request at its place in the buffer and touches no checksum sector |
| SumFilter.Collapse | drivers/filter/sum.c:410-439 | takes each back, and as many as `collapse_size` says |
| SumFilter.CollapseExpand | drivers/filter/sum.c:378-439 | collapsing what was expanded gives it back |
| SumFilter.Filter.MakeGroupSum | drivers/filter/sum.c:131-150 | fills in just the slots of the sectors given, and leaves what lies behind the slots alone |
| SumFilter.Filter.CheckGroupSum | drivers/filter/sum.c:155-182 | passes exactly when all the slots match, or bad sums are no error |
| SumFilter.Filter.MakeSum | drivers/filter/sum.c:187-272 | assembles a buffer with good checksums for the request, and data and checksums from the disk for the rest of its groups |
| SumFilter.Filter.CheckSum | drivers/filter/sum.c:277-310 | passes exactly when all data sectors read match their checksums |
| SumFilter.Filter.CheckWrite | drivers/filter/sum.c:315-373 | passes exactly when the disk holds what was written |
| SumFilter.Filter.Write | drivers/filter/sum.c:489-603 | a write of any length and alignment is a write to a plain array of sectors, with good checksums, and reports how many sectors fit on the disk |
| SumFilter.Filter.Read | drivers/filter/sum.c:489-603 | a read asks for a redo exactly when some sector is bad, unless the disk ends between data asked for and its checksum; otherwise it gives the sectors of the plain array, or those of them that are on the disk |
| SumFilter.SizeExact | drivers/filter/sum.c:576-597 | the size reported counts exactly the sectors whose data is on the disk |
| NetbuffModel.RunInv | drivers/dpeth/netbuff.c:35-113 | under any allocations and releases the blocks tile the pool and no two free ones are adjacent |
| NetbuffModel.RunTaken | drivers/dpeth/netbuff.c:35-88 | the blocks handed out are those taken and not returned, at the sizes asked for; no operation disturbs another's block |
| NetbuffModel.RunRestores | drivers/dpeth/netbuff.c:66-88 | the pool is one free block again exactly when everything is back |
| NetbuffModel.RunConserves | drivers/dpeth/netbuff.c:35-113 | free units and units handed out always make up the pool |
| NetbuffModel.EachUnitOnce | drivers/dpeth/netbuff.c:35-113 | every unit is in exactly one block |
| NetbuffModel.CarveInv | drivers/dpeth/netbuff.c:42-55 | taking a block, or the top of one, keeps the invariant |
| NetbuffModel.GiveInv | drivers/dpeth/netbuff.c:74-85 | so does giving one back and joining it with its neighbours |
| Netbuff.BufferPool.constructor | drivers/dpeth/netbuff.c:94-113 | the pool starts as one free block |
| Netbuff.BufferPool.FindFit | drivers/dpeth/netbuff.c:41-57 | from any rotation the search ends, finds nothing only if no free block is large enough, and otherwise the first in the ring |
| Netbuff.BufferPool.Alloc | drivers/dpeth/netbuff.c:35-60 | hands out a block from the first fit, or nothing and changes nothing |
| Netbuff.BufferPool.FindPlace | drivers/dpeth/netbuff.c:71-72 | from any rotation the search ends at the one place where the block belongs |
| Netbuff.BufferPool.Free | drivers/dpeth/netbuff.c:66-88 | the block is back and one with its free neighbours, and the ring is in address order |
| Netbuff.UpperIs | drivers/dpeth/netbuff.c:75-79 | the free block that follows is the next in the ring, if there is one |
| Netbuff.LowerIs | drivers/dpeth/netbuff.c:80-84 | the free block that ends here is the one before in the ring, if there is one |
| Md5Model.Counts | drivers/filter/md5.c:87-90 | the two words with their carry are the bit count modulo 2^64 |
| Md5Model.Waiting | drivers/filter/md5.c:92-92 | the low word tells how many bytes are waiting |
| Md5Model.PadOne | drivers/filter/md5.c:139-164 | the padding that fits one block is that of sections 3.1 and 3.2 of RFC 1321 |
| Md5Model.PadTwo | drivers/filter/md5.c:148-164 | so is the padding that needs a second |
| Md5Model.PaddedLength | drivers/filter/md5.c:124-127 | the padded message is a whole number of blocks, with at least nine bytes added |
| Md5Model.WordsFirst | drivers/filter/md5.c:160-162 | the count goes out lowest byte first |
| Md5Model.InitBytes | drivers/filter/md5.c:64-67 | the initial words put out as a digest are the sixteen bytes that section 3.3 of RFC 1321 lists, in that order |
| Md5.Context.Update | drivers/filter/md5.c:77-122 | feeding in data continues the message, wherever the last piece ended |
| Md5.Context.Final | drivers/filter/md5.c:128-170 | the digest is the block function folded over the padded message, from the initial state of section 3.3 of RFC 1321 |
| Md5.Digest | drivers/filter/md5.c:61-170 | the digest depends on the message only, not on how it was cut up |
| RecoveryModel.KillNearer | drivers/filter/driver.c:383-416 | a restart uses one up, and giving up a driver ends mirroring |
| RecoveryModel.CheckNearer | drivers/filter/driver.c:295-417 | unless a driver came back by itself, going on means fewer of mirroring, restarts and retries, in that order |
| RecoveryModel.LoopNearer | drivers/filter/driver.c:479-524 | checking a driver ends, in progress or in an error that is neither 0 nor -EAGAIN |
| RecoveryModel.RoundNearer | drivers/filter/main.c:148-161 | so does every redo round after a driver was reported |
| RecoveryModel.RunBounded | drivers/filter/main.c:148-161 | in any run the redo rounds not explained by a driver coming back are at most the rank of the state they start from |
| RecoveryModel.RequestBounded | drivers/filter/main.c:148-161 | that is a fixed number, given the limits and whether there is a mirror |
| RecoveryModel.CheckDecides | drivers/filter/driver.c:295-417 | what becomes of a driver with a problem: let off, retried, restarted, given up for the other half of the mirror, or its error passed up; and what each costs |
| RecoveryModel.RoundPasses | drivers/filter/driver.c:407-416 | a round that fails gives the error recorded for the driver that was given up, -EIO for -EAGAIN, and there was no mirror |
| RecoveryModel.NotedIs | drivers/filter/driver.c:242-254 | a report is on record as it was made, and nothing else changes |
| RecoveryModel.ResetGives | drivers/filter/driver.c:230-237 | a request starts with all its restarts and retries |
| RecoveryModel.RoundAsks | drivers/filter/driver.c:479-524 | every round after a report checks some driver, and is not explained by one that came back once none does |
| RecoveryModel.NeverEnds | drivers/filter/driver.c:309-319 | for any n a run of n redo rounds, each explained by a driver that came back |
| RecoveryModel.MirrorDropped | drivers/filter/driver.c:321-407 | checking a driver ends mirroring exactly when it is reported, has no retry left or is dead and not found at a new endpoint, does not come back by the time of any check, and no restart that is left to it works |
| RecoveryModel.RoundLeaves | drivers/filter/driver.c:391-407 | a round that goes on leaves a problem on record exactly when it gives up the main driver of a mirror while the backup is reported too |
| RecoveryModel.LeftOnRecord | drivers/filter/driver.c:391-407 | such a round |
| Recovery.Drivers.CheckProblem | drivers/filter/driver.c:295-417 | computes the specified decision |
| Recovery.Drivers.CheckDriver | drivers/filter/driver.c:479-524 | the loop ends and computes the specified outcome |
| Recovery.Drivers.Redo | drivers/filter/main.c:148-161 | a redo either ends the request in an error that is neither 0 nor -EAGAIN or takes time, and brings the state nearer to the end unless a driver came back |
| Recovery.Drivers.Serve | drivers/filter/main.c:146-161 | the loop of a request ends once drivers stop coming back by themselves, in the result of the first transfer that is over, or in the error of a fault that the last transfer reported or that was still on record; the state is that of resetting, reporting and checking once per transfer; rounds not explained by drivers coming back are bounded |
| Pio16.Burst | drivers/dp8390/dp8390.c:1975-2029 | one segment puts out all its wanted bytes in order, holding back at most one |
| Pio16.Iovec.Next | drivers/dp8390/dp8390.c:2460-2473 | brings in the next segments, if there are any |
| Pio16.Iovec.Write | drivers/dp8390/dp8390.c:1936-2034 | no assertion fails exactly when the vector is long enough, and the words are then the slice asked for with at most one byte of padding |
| Pio16.Iovec.CalcSize | drivers/dp8390/dp8390.c:2630-2653 | the number of bytes in all segments |
| Pio16.Send | drivers/dp8390/dp8390.c:580-602 | panics exactly on a packet outside the size limits; any other, of any segments, is written whole, and no assertion fails |
| Pio16.SentMore | drivers/dp8390/dp8390.c:1975-2029 | what was put out, is held back and is still wanted make up the request |
| Dma.TableOk | drivers/at_wini/at_wini.c:1757-1785 | every entry is even-aligned, even-sized, not empty and inside one 64K page |
| Dma.TableCovers | drivers/at_wini/at_wini.c:1729-1796 | the entries cover just the bytes asked for, in order |
| Dma.CleanAdvance | drivers/at_wini/at_wini.c:1737-1796 | a request can be done directly exactly when what is left of it can |
| Dma.CleanBytesIs | drivers/at_wini/at_wini.c:1737-1756 | the bytes before the first part that cannot be done directly can be, and are all exactly when the whole request can |
| Dma.FlawAdvance | drivers/at_wini/at_wini.c:1737-1796 | after each entry what comes first among the parts that cannot be done directly is still the same |
| Dma.MarkedOk | drivers/at_wini/at_wini.c:1798-1802 | the marked table covers the same bytes, and only its last entry is marked |
| Dma.TableLength | drivers/at_wini/at_wini.c:1757-1796 | the table has as many entries as there are 64K pages touched, summed over the parts asked for |
| Dma.SetupDma | drivers/at_wini/at_wini.c:1719-1802 | the direct path succeeds exactly when every part asked for is non-empty, even-sized and even-aligned and they touch no more 64K pages than the table has entries, and the table is then as above; it panics exactly when nothing is asked for or the first part at fault is empty or odd-sized and the pages up to there fit; otherwise it falls back |

## Left out

- IpcKernel.Kernel.MiniSenda: copies of fields of a user's table do not fail; only mapping the table and copying a message can.
- IpcKernel.Kernel.TryOne: copies of fields of a user's table do not fail here either.
- SumFilter.Filter.Read: when the disk ends between data asked for and its checksum, the buffer position of that checksum is never filled, so whether a redo is asked for is open.
- Recovery.Drivers.Serve: waiting for a restarted driver is taken to end.
- Endpoint generations that wrap around, kernel calls with unknown numbers, `lock_send`, and MF_SIG_DELAY and tracing flags.
- Arguments and timestamps of notifications; only who notified whom is modelled.
- Privilege structures shared by user processes: each process has its own.
- Copies between address spaces either succeed or fail as a whole; a user's asynchronous table is a value, not shared memory.
- A slot that is freed keeps its caller queue until it is reused; queue facts are about live endpoints.
- `send_sig`, `cause_sig`, `do_nice`, virtual timers, billing beyond the choice of who is billed, and the timer that triggers balancing.
- The assertions on `p_ticks_left` in `enqueue_head` and on flags in `pick_proc`; magic numbers and pointer alignment in the run-queue check, which is about links between slots in range.
- Disk layout without checksums, zero-length requests, and the choice between two disks on reads: the pair is one disk that does what it is told.
- The checksum functions themselves, `compute_crc`, and the rounds of `MD5Transform`; all are parameters.
- Requests for buffers whose size overflows an `int`, and copying packets to and from users.
- Device registers, port I/O, probing, interrupts, the receive paths of the Ethernet driver and its 8-bit and shared-memory writers.
- Buffers that are not physically contiguous, failing address translation, and the bounce buffer of the DMA setup.
- Grants of the filter driver and its messages to disk drivers; a transfer either completes or names a driver that is at fault.
- File systems, process and memory management, all other drivers, boot code and libraries.
