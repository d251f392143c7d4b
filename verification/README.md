# The gateway's runtime, verified

A Dafny model of the parts of the smart-home gateway that carry state from one call to the
next: the worker pool and its barrier, the blocking queue, the device list, the Modbus
checksum, and five small stateful protocols of the device handlers.

- `ThreadPool.dfy` models `source/thpool.c` as an interleaving step relation: one step for
  each critical section, one for each read that takes no lock (`threads_keepalive`, `len` and
  `num_threads_working` in `thpool_wait`, `num_threads_alive` in `thpool_destroy`), condition
  variables with spurious wake-ups, and the semaphore post apart from the change of `len` that
  precedes it. It holds the invariants and the proof that every step keeps them;
  `ThreadPoolSafety.dfy` and `ThreadPoolProgress.dfy` draw the conclusions for all runs, any
  number of workers, callers and pushes. `JobQueue.dfy` is the linked job queue on the heap,
  proved against the two functions that the step relation uses.
- `BlockingQueue.dfy` holds the queue of `source/queue_internal.c` and `source/queue.c` twice:
  ordered insertion as a function on sequences, and the chain of cells on the heap with the
  operations proved against it. `QueueMonitor.dfy` is the same queue shared by threads, with
  waiting getters and putters and the unlocked broadcasts of `queue_set_new_data`.
- `LinkedList.dfy` is the doubly linked list of `source/list.c` on the heap; every operation
  is proved against the sequence of nodes, traversal with deletion included.
- `Crc16.dfy` proves the two-table loop of `source/crc16.c` equal to the bit-by-bit division
  of section 6.2.2 of the MODBUS over Serial Line Specification and Implementation Guide
  V1.02, and derives what the checksum detects; `TwoBitErrors.dfy` does so for pairs of flipped
  bits, through the period of the polynomial, up to the result that every error in at most
  three bits of a message of up to 4095 bytes is detected.
- `PortLock.dfy` is the hand-off of a half-duplex port's mutex between the thread that opens
  the port and the receiver it queues, as a step relation over any number of threads and
  devices, and the receiver's timed loop. `SerialPort.dfy` is one device on the heap: its
  functions are proved to have the effect of those steps, and are put together to transactions.
- `Debounce.dfy`, `DigitalInput.dfy`, `ChangeFilter.dfy` and `Dimmer.dfy` are the KNX debounce
  table, the hysteresis of a digital input, the change filter of a Modbus point and the
  dimmer's scaling, each with the whole history of its inputs as the reference.
- `Sums.dfy` counts over sequences.

What the code does not do as its authors may have meant it is stated as exactly as what it does:

- `thpool_wait` signals one waiter. With two callers the second can stay parked over an idle
  pool; in every run, until the queue is cleared, a parked caller has a job queued or running,
  if and only if at most one thread calls it. Even a single caller never returns when `thpool_destroy` lets the workers go
  before the queue is worked off: a call during which nothing more is pushed returns if and only
  if no job is left queued when the pool comes to rest.
- Taking the tail of a queue from behind another element leaves `last_el` pointing at the freed
  cell. A get keeps the representation unless it does exactly that. The next put then reports
  success; its element is lost if and only if the queue is unsorted, and a sorted queue repairs
  `last_el` when an element lands at its end. After a loss `num_els` stays too high, so a waiting
  get of a closed and drained queue reports `Q_ERR_INVALID_ELEMENT` instead of
  `Q_ERR_NONEWDATA`.
- A flush frees slots without a signal, although `source/queue.h:215-216` says that a waiting put
  ends when elements are removed, and closing and reopening the queue within one broadcast
  loses signals too. A putter is never left asleep in front of a free slot that no signalled
  putter is coming for: with flushes, if and only if nobody waits to put; with flushes that put
  an element, also if the capacity is 1; with reopening, if and only if at most one thread
  waits to put or at most one sets the flag.
- `queue_get_filtered` passes the list cell, not the element in it, to the comparator, and
  reports "no match" as `Q_ERR_INVALID_ELEMENT`; the model follows the code.
- `SerialRead` returns 0 even when the pool refuses the receiver. From then on the port stays
  locked: a port can become free again if and only if no receiver was ever refused.
- The change filter starts from the value 0xFFFFFFFF, so the first three readings of exactly
  that value are not passed on.
- A digital input decides on its very first sample when that sample is inactive.

## Model

| member | source | states |
|---|---|---|
| `ThreadPool.StepKeeps` | source/thpool.c:184-250 | every step of a pusher, worker, waiter or destroyer keeps the lock ownership, the counters, the job history, the wake-up and the barrier invariants |
| `ThreadPool.RunKeeps` | source/thpool.c:325-392 | so does every run |
| `ThreadPool.InitKeeps` | source/thpool.c:129-180 | a fresh pool of any size satisfies the invariants |
| `ThreadPool.WorkerKeepsFed` | source/thpool.c:469-495 | a worker's step never leaves a queued job behind the one-bit semaphore |
| `ThreadPool.WorkerKeepsAttended` | source/thpool.c:530-555 | a set bit never faces sleepers only |
| `ThreadPool.WorkerKeepsBarrier` | source/thpool.c:363-383 | the increment before the pull and the decrement after the job keep what a waiter has seen true |
| `ThreadPool.QuietMeansDone` | source/thpool.c:205-211 | an empty queue with no worker counted means that every pushed job has finished |
| `ThreadPoolSafety.NoLostWakeup` | source/thpool.c:357-386 | in every reachable state a queued job has a set bit, a post about to happen or a worker on its way; a set bit with sleepers has a woken worker |
| `ThreadPoolSafety.JobsConserved` | source/thpool.c:184-201 | pushed jobs are exactly the queued, running, finished and discarded ones, with multiplicity; jobs are pulled in push order; both counters are exact |
| `ThreadPoolSafety.EveryBacklog` | source/thpool.c:442-463 | for any number of workers every sequence of jobs can be queued before a worker pulls |
| `ThreadPoolSafety.PushIsTaken` | source/thpool.c:184-201 | from every reachable state a push goes through after at most one pending post, whatever is queued, and the job stands behind all others |
| `ThreadPoolSafety.WaitIsTaken` | source/thpool.c:205-211 | from every reachable state a call of thpool_wait gets in after at most three steps of the caller that holds the lock, and waits for the jobs pushed by then |
| `ThreadPoolSafety.EveryWorkerGoesOn` | source/thpool.c:357-391 | only the two locks and the condition variable hold a worker up; any sleeper may wake without a signal |
| `ThreadPoolSafety.IdleSignalsOne` | source/thpool.c:378-383 | a worker signals a parked caller when it brings num_threads_working to 0, one of them, and at no other time |
| `ThreadPoolSafety.NothingRunsUnpushed` | source/thpool.c:408-422 | before the first push no worker passes the semaphore |
| `ThreadPoolSafety.BarrierHolds` | source/thpool.c:205-211 | when thpool_wait returns, every job pushed before the call has finished |
| `ThreadPoolSafety.SecondWaiterStranded` | source/thpool.c:376-382 | a run in which a second caller stays parked over an idle pool |
| `ThreadPoolSafety.StrandsNobodyIff` | source/thpool.c:205-211 | until the queue is cleared a parked caller has a queued or running job, shutdown included, if and only if at most one thread calls thpool_wait |
| `ThreadPoolProgress.StepProgress` | source/thpool.c:357-391 | every step the pool takes by itself lowers a measure of the work left |
| `ThreadPoolProgress.InternalRunBounded` | source/thpool.c:357-391 | so every run without new pushes, calls and spurious wake-ups is bounded |
| `ThreadPoolProgress.RestMeansDone` | source/thpool.c:205-211 | a pool at rest, shutdown included, runs nothing; jobs are left queued only after threads_keepalive was cleared, otherwise every pushed job has finished; a single caller still inside thpool_wait is parked over left-over jobs |
| `ThreadPoolProgress.WaitReturnsIff` | source/thpool.c:205-211 | a single call without further pushes has returned when the pool rests if and only if the queue is empty, is still parked if and only if jobs are left, and that takes a thpool_destroy |
| `ThreadPoolProgress.DestroyStrandsWaiter` | source/thpool.c:215-233 | for any number of workers a run in which a single caller is left parked over a queued job after every worker has gone |
| `ThreadPoolProgress.LeftBehindForever` | source/thpool.c:376-382 | no further push or spurious wake-up ever lets such a caller out |
| `ThreadPoolProgress.ShutdownPullsNoMore` | source/thpool.c:357-366 | after threads_keepalive is cleared a worker not already counting in never pulls again, and the others pull at most one job each |
| `ThreadPoolProgress.RoundLetsOneOut` | source/thpool.c:222-240 | after a post-all of thpool_destroy, whatever follows, overlapping rounds included, at least one more worker has left when the pool next rests |
| `ThreadPoolProgress.RoundsDrain` | source/thpool.c:222-240 | with n workers no worker is left after n rounds of polling that the pool rests between |
| `ThreadPoolProgress.DestroyCanFinish` | source/thpool.c:215-250 | from every reachable state some run of thpool_destroy ends with the queue cleared: it never gets stuck |
| `ThreadPoolProgress.ClearingIsAlone` | source/thpool.c:238-244 | when the polling ends every worker is gone and no worker can touch the queue; the clearing empties it and resets the semaphore |
| `JobQueue.JobQueue.Push` | source/thpool.c:442-463 | the job goes to the rear, the chain stays exact and the bit is set |
| `JobQueue.JobQueue.Pull` | source/thpool.c:469-495 | the front job or null, the rest in order, and a post exactly when jobs remain |
| `JobQueue.JobQueue.Clear` | source/thpool.c:426-437 | terminates by len, frees every job once and leaves an empty queue with the bit clear |
| `QueueSpec.SortedInsertion` | source/queue_internal.c:122-158 | for a total preorder and a sorted queue: ascending, the element goes behind exactly those less than it, descending, behind exactly those greater; the queue stays sorted in its direction, nothing else changes |
| `BlockingQueue.Queue.constructor` | source/queue.c:54-103 | an empty open queue with the given limit and order |
| `BlockingQueue.Queue.Put` | source/queue_internal.c:93-163 | refused on a closed queue, and on an open one if and only if it holds 65534 elements or its own limit; insertion at the place the functional specification names, chain intact; with a stale last_el the element is lost if and only if the queue is unsorted, and last_el is repaired exactly by a sorted put that lands at the end |
| `BlockingQueue.PutAll` | source/queue_internal.c:101-107 | of puts in a row on an empty open queue exactly the first m succeed, m being its limit or 65534, and the queue then holds exactly these |
| `BlockingQueue.Queue.Find` | source/queue_internal.c:186-190 | the first match and the cell before it |
| `BlockingQueue.Queue.Get` | source/queue_internal.c:165-215 | removes the first match and nothing else; the error codes for an empty queue and for no match change nothing |
| `BlockingQueue.Queue.GetKeepsUnlessTail` | source/queue_internal.c:192-204 | a get keeps the representation if and only if it does not take the last of several cells |
| `BlockingQueue.TailRemovalLosesAPut` | source/queue_internal.c:199-204 | a concrete run on an unsorted queue: the put after such a get succeeds and its element is never returned |
| `BlockingQueue.Queue.Flush` | source/queue_internal.c:70-91 | hands every element to the free function once, in order, and leaves an empty queue |
| `BlockingQueue.Queue.FlushPut` | source/queue.c:273-300 | one critical section that leaves exactly the new element, or nothing on a closed queue |
| `QueueMonitor.StepKeeps` | source/queue_internal.c:93-215 | every section under the mutex, wake-up, flush and close step keeps the wake-up, conservation and limit invariants, any filtered removal included; the putters' one unless it is a flush or a reopening |
| `QueueMonitor.GettersNeverMissElements` | source/queue_internal.c:172-182 | in every run sleeping getters leave no element to anyone but getters already signalled; accepted elements are delivered, queued, flushed or lost, the limits hold, and without a loss num_els is exact |
| `QueueMonitor.GetMeets` | source/queue_internal.c:172-209 | in every reachable state a waiting get falls asleep if and only if it finds the queue open and num_els 0, gives up if and only if closed and 0, and otherwise returns the first element of the chain |
| `QueueMonitor.PutMeets` | source/queue_internal.c:97-114 | a waiting put falls asleep if and only if it finds the queue open and full, gives up if and only if closed, and is accepted otherwise |
| `QueueMonitor.EveryCallIsTaken` | source/queue.c:205-300 | nothing but the mutex keeps a thread from its call; queue_put succeeds if and only if the queue is open and has room |
| `QueueMonitor.CallsChange` | source/queue.c:174-300 | what put, get, the flushes and queue_set_new_data leave in the queue, num_els and the flag |
| `QueueMonitor.WaitingGetServed` | source/queue_internal.c:175-182 | for every queue a run in which a get of the empty queue sleeps and is woken to receive the next element put |
| `QueueMonitor.NothingOnlyAfterLoss` | source/queue_internal.c:206-209 | in a run without a loss no get, of an open or a closed queue, finds the chain empty while num_els is not 0 |
| `QueueMonitor.NothingLostIff` | source/queue_internal.c:199-204 | no run loses an accepted element if and only if the queue is sorted or holds one element only |
| `QueueMonitor.StaleChanges` | source/queue_internal.c:122-157 | in every reachable state: last_el turns stale when a get takes the last of several elements and stays so until the chain is empty, a flush, or a sorted put lands at its end; a put in between misses the chain if and only if the queue is unsorted |
| `QueueMonitor.FilteredGetLosesAPut` | source/queue_internal.c:122-129 | for every unsorted queue of capacity two or more a run with a lost element |
| `QueueMonitor.PuttersNeverMissSlots` | source/queue_internal.c:101-114 | the dual for putters and free slots, in every run of a harmless scope, reopening included where it is harmless |
| `QueueMonitor.PuttersServedIff` | source/queue_internal.c:101-114 | for every queue, every number of threads and every choice of flushes, flush-puts and reopening that runs may contain: the exact condition under which no run leaves a putter asleep in front of an unattended slot |
| `QueueMonitor.FlushServesIff` | source/queue_internal.c:70-91 | over all runs with flushes: putters are served if and only if there are none |
| `QueueMonitor.FlushPutServesIff` | source/queue.c:273-300 | over all runs with flush-puts: putters are served if and only if there are none or the capacity is 1 |
| `QueueMonitor.ReopenServesIff` | source/queue.c:174-190 | over all runs with reopening: putters are served if and only if there is at most one of them or at most one thread sets the flag |
| `QueueMonitor.FlushStrandsPutter` | source/queue.c:117-128 | for every queue a run in which a flush leaves a putter asleep in front of an empty open queue |
| `QueueMonitor.FlushPutStrandsPutter` | source/queue.c:273-300 | the same for a flush-put and every capacity above 1 |
| `QueueMonitor.ReopenStrandsPutter` | source/queue.c:174-190 | for every queue a run without a flush in which closing and reopening does so |
| `QueueMonitor.FlushAndReopenStrandPutter` | source/queue.c:174-190 | with a flush-put of the closed queue one putter is enough |
| `QueueMonitor.InternalRunBounded` | source/queue_internal.c:103-113 | left alone, waiters and closers come to rest within a bounded number of steps |
| `QueueMonitor.RestingWaiters` | source/queue_internal.c:103-113 | at rest getters sleep only in front of an empty open queue, putters only on an open one, and a full one if putters are served |
| `QueueMonitor.ClosedQueueWakesAll` | source/queue.c:174-190 | once the broadcasts of a close are made nobody sleeps on a closed queue |
| `QueueMonitor.ClosedQueueDrains` | source/queue_internal.c:97-99 | while the queue stays closed no put succeeds and the getters receive the remaining elements in queue order |
| `QueueMonitor.ClosedQueueAnswers` | source/queue_internal.c:172-209 | over every run of a closed queue no get waits: the first ones return the remaining elements in queue order, all later ones Q_ERR_NONEWDATA, or Q_ERR_INVALID_ELEMENT if and only if num_els exceeds the elements |
| `QueueMonitor.NoNewDataOnlyWhenDrained` | source/queue_internal.c:177-180 | over every run a waiting get reports Q_ERR_NONEWDATA only from a section of its own that found the queue closed and num_els 0 |
| `QueueMonitor.UnsortedIsFifo` | source/queue_internal.c:122-129 | an unsorted queue delivers in the order in which it accepted |
| `QueueMonitor.SortedDeliversLeast` | source/queue_internal.c:129-157 | a sorted queue is sorted in every reachable state, whatever flushes, filtered removals and stale last_el, and a get of the head delivers an element that nothing queued sorts strictly before |
| `LinkedList.List.AddNodeHead` | source/list.c:90-112 | a fresh node in front of the old ones |
| `LinkedList.List.AddNodeTail` | source/list.c:120-141 | a fresh node behind the old ones |
| `LinkedList.List.InsertNode` | source/list.c:143-178 | a fresh node directly before or after the given one, all links exact |
| `LinkedList.List.DelNode` | source/list.c:184-198 | exactly the given node leaves the list |
| `LinkedList.List.Empty` | source/list.c:56-73 | every value is let go once, in order |
| `LinkedList.List.Index` | source/list.c:356-374 | negative indices count from the tail, null out of range |
| `LinkedList.List.SearchKey` | source/list.c:325-349 | with a match function the first node whose value it accepts for the key, without one the first whose value equals the key; null if and only if there is none |
| `LinkedList.List.RotateTailToHead` | source/list.c:377-391 | the last node comes first |
| `LinkedList.List.RotateHeadToTail` | source/list.c:394-408 | the first node comes last |
| `LinkedList.RotatedAt` | source/list.c:377-408 | each rotation moves every element by one place, cyclically |
| `LinkedList.RotationsInverse` | source/list.c:377-408 | the two rotations undo each other |
| `LinkedList.List.Join` | source/list.c:412-430 | the other list's nodes follow, and it is left empty |
| `LinkedList.List.Dup` | source/list.c:273-314 | fresh nodes in order with the values the dup function gives, or the same values without one; null exactly when the dup function fails for some value |
| `LinkedList.Next` | source/list.c:251-263 | the element the iterator stood at, and the iterator one further in its direction |
| `LinkedList.List.Sweep` | source/list.c:237-263 | a traversal from the head that deletes any of the nodes it is given, each decided for itself, sees every original node once, in order, and the others stay |
| `LinkedList.List.SweepBack` | source/list.c:231-263 | the same from the tail, in reverse order |
| `LinkedList.KeptAreNodes` | source/list.c:237-263 | the nodes left by a sweep are exactly those not deleted |
| `Crc16.TablesHoldByteSteps` | source/crc16.c:3-57 | every entry of the two tables is eight steps of the bit-by-bit division |
| `Crc16.TableStep` | source/crc16.c:64-68 | one turn of the loop is one byte of the division |
| `Crc16.Crc16` | source/crc16.c:59-71 | the loop returns the byte-swapped register of the division with initial value 0xFFFF |
| `Crc16.InitialValueInverts` | source/crc16.c:61-62 | starting at 0xFFFF is starting at 0 with the first two bytes inverted |
| `Crc16.LeadingZeroDetected` | source/crc16.c:61-62 | an extra zero byte in front of any message changes the checksum, and that of the empty message is 0xFFFF |
| `Crc16.ChecksumOfSealedMessage` | source/crc16.c:59-71 | a message followed by its checksum, high byte first, has checksum 0 |
| `Crc16.LowTablePermutes` | source/crc16.c:31-57 | the low table is a permutation |
| `Crc16.RegisterInjective` | source/crc16.c:64-68 | equal bytes keep different registers different |
| `Crc16.PairInjective` | source/crc16.c:64-68 | two bytes map one-to-one onto the register |
| `Crc16.TwoByteBurstDetected` | source/crc16.c:59-71 | at any length, messages that differ only within two adjacent bytes have different checksums |
| `Crc16.SixteenBitBurstDetected` | source/crc16.c:59-71 | so have messages that differ in a burst of sixteen bits over three bytes |
| `Crc16.OddErrorsDetected` | source/crc16.c:59-71 | every error in an odd number of bits changes the checksum |
| `TwoBitErrors.RegisterIsSerial` | source/crc16.c:64-68 | the division by bytes is the division by single bits in the order of the serial line |
| `TwoBitErrors.PeriodIff` | source/crc16.c:3-57 | a single one comes back in the register after exactly the multiples of 32767 bit steps |
| `TwoBitErrors.TwoBitErrorsIff` | source/crc16.c:59-71 | at any length, messages that differ in exactly two bits have the same checksum if and only if the bits are a multiple of 32767 apart |
| `TwoBitErrors.TwoBitErrorsDetected` | source/crc16.c:59-71 | every double error in a message of up to 4095 bytes changes the checksum |
| `TwoBitErrors.DistanceCounts` | source/crc16.c:59-71 | the distance of two messages is the number of bits in which they differ |
| `TwoBitErrors.FourBitsApart` | source/crc16.c:59-71 | different messages of one length, up to 4095 bytes, with the same checksum differ in at least four bits, so every error in up to three bits is detected |
| `PortLock.StepKeeps` | source/serialHandle.c:158-190 | every step of open, send, hand-off, receive and close keeps the ownership of the port |
| `PortLock.OneTransaction` | source/serialHandle.c:174-190 | at most one transaction lies between lock and unlock, and a free port has every descriptor closed |
| `PortLock.CloseAlwaysUnlocks` | source/serialHandle.c:353-368 | no transaction reaches the early return of SerialClose, and no receiver finds its run flag cleared |
| `PortLock.EveryOpenReleasedOnce` | source/modbusHandle.c:68-118 | if every receiver was queued, successful opens are given back exactly once each, in order |
| `PortLock.HolderProgress` | source/modbusHandle.c:754-765 | every step of the holder brings the port closer to its unlock, except an empty poll in time and a refused receiver |
| `PortLock.EveryStepIsTaken` | source/serialHandle.c:174-182 | a caller waits exactly while the port is locked; every other party but a returned receiver can go on |
| `PortLock.StepMoves` | source/modbusHandle.c:68-118 | a step leaves the other parties and devices alone; a caller starts the transaction and the device it chose, a receiver notes the time at which it starts, and a caller that gave the port back or handed it off is outside again |
| `PortLock.CallerComesBack` | source/modbusHandle.c:740-765 | as long as no receiver was refused, every caller gets through its transaction, the wait for the port included, and can start the next one |
| `PortLock.PollStaysIff` | source/serialHandle.c:77-87 | a receiver stays in its loop exactly while its polls are empty and the 32-bit clock difference is below 500 ms plus the device's delay |
| `PortLock.WedgedForever` | source/serialHandle.c:389-406 | after a refused receiver nobody ever opens or unlocks the port again |
| `PortLock.RefusedReceiver` | source/serialHandle.c:400-405 | a run in which the pool refuses a heartbeat's receiver and the port stays locked with nobody answering for it |
| `PortLock.PortFreeableIff` | source/serialHandle.c:400-405 | a reachable port can become free again if and only if no receiver was refused |
| `PortLock.Receive` | source/serialHandle.c:77-151 | the receiver's loop stops at the first round past its budget or with anything but an empty poll, and hands replies on at most once |
| `PortLock.RunsWithinBudget` | source/serialHandle.c:78-85 | with rounds at most an hour apart, a loop still running is within 500 ms plus the device's delay |
| `PortLock.SetBackEndsTheLoop` | source/serialHandle.c:80-84 | exactly when a clock set back ends the loop through the 32-bit difference |
| `SerialPort.AlongOutcome` | source/serialHandle.c:158-335 | the opening steps end with the descriptor open and the port held if and only if open, tcsetattr and epoll_ctl all succeed, and with neither otherwise |
| `SerialPort.CourseOutcome` | source/modbusHandle.c:68-118 | over the steps of a transaction: handed off if and only if the device opens, a written message can be built, an answer is expected (always for a heartbeat) and the pool takes the receiver; the descriptor stays open exactly when the hand-off was reached |
| `SerialPort.Serial.Open` | source/serialHandle.c:158-335 | the function has the effect of the opening steps, and keeps the mutex exactly when it returns 0 |
| `SerialPort.Serial.Close` | source/serialHandle.c:353-368 | the effect of the closing step; without a descriptor the mutex stays as it is |
| `SerialPort.Serial.Transact` | source/modbusHandle.c:68-118 | the port stays locked exactly when the transaction reached the hand-off, and a receiver exists exactly when the pool then accepted it |
| `SerialPort.Serial.ReceiverEntry` | source/serialHandle.c:59-156 | a receiver that leaves its loop gives the port back with the descriptor closed |
| `SerialPort.TransactAndReceive` | source/modbusHandle.c:703-707 | a transaction and its receiver leave the port free unless the hand-off was refused |
| `DebounceSpec.TableMeetsLog` | source/point.c:20-60 | for every log of registrations, updates and passes the table holds what the log says of each group |
| `DebounceSpec.EmissionIff` | source/point.c:95-113 | a pass emits a group if and only if it is the first past the deadline since the group's latest update, and it emits that update |
| `DebounceSpec.OncePerArrival` | source/point.c:102-104 | an update is emitted at most once |
| `DebounceSpec.MaturesIff` | source/point.c:44-60 | unless the group is registered anew, an update is emitted if and only if some pass before the next update is later than its time plus the expiry |
| `DebounceSpec.FiringOnce` | source/point.c:100-112 | a pass emits a group at most once |
| `Debounce.Debouncer.Set` | source/point.c:20-42 | registration creates an item without a reading, or restarts its time and expiry |
| `Debounce.Debouncer.Update` | source/point.c:44-60 | the reading replaces the old one of a registered group; -1 for any other |
| `Debounce.Debouncer.Route` | source/knxHandle.c:1551-1562 | readings of registered groups go to the table, all others are passed on at once |
| `Debounce.Debouncer.Tick` | source/point.c:95-113 | the in-place pass marks and emits exactly the due items, in table order |
| `DigitalInputSpec.CounterRange` | source/main.c:2375-2407 | the counter stays in 0..2N and tracks the run of agreeing samples |
| `DigitalInputSpec.SteadyRun` | source/main.c:2375-2432 | the counter after m agreeing samples in closed form, and the exact m at which the level is decided |
| `DigitalInputSpec.ChangeEndsARun` | source/main.c:2381-2432 | every change of level ends a run of at least N+1 agreeing samples, except an inactive first sample |
| `DigitalInputSpec.EarlyChangeIff` | source/main.c:2408-2432 | a change comes after fewer than N+1 agreeing samples if and only if it is an inactive first sample and N > 0; an inactive first sample always decides |
| `DigitalInputSpec.FlipEndsARun` | source/main.c:2381-2432 | once a level is known no change comes early |
| `DigitalInputSpec.SteadyDecides` | source/main.c:2375-2432 | N+2 agreeing samples always decide the level |
| `DigitalInput.Input.Sample` | source/main.c:2375-2432 | the counter step follows the specification, reports exactly the changes of level, never early and never late |
| `DigitalInput.Input.constructor` | source/parseXML.c:6308-6310 | no level and a zero count at the start |
| `ChangeFilterSpec.ForwardedIff` | source/modbusHandle.c:240-246 | a reading is passed on exactly by its place in its run of equal readings: the first and every fourth one, shifted by one in an opening run of sentinels |
| `ChangeFilterSpec.AtMostThreeSuppressed` | source/modbusHandle.c:17-17 | at most three consecutive readings are suppressed |
| `ChangeFilterSpec.LatestForwardedIff` | source/modbusHandle.c:238-246 | after every reading the last one passed on is the latest, if and only if the history is not at most three sentinels |
| `ChangeFilter.MonitoredPoint.Take` | source/modbusHandle.c:238-246 | the step on the point's fields follows the specification; a change always goes through; the counter stays in 0..3 |
| `ChangeFilter.MonitoredPoint.constructor` | source/parseXML.c:759-760 | the filter starts from the sentinel |
| `Dimmer.ReportIsFloor` | source/knxHandle.c:1358-1358 | the division by 255.0 with truncation is the integer quotient |
| `Dimmer.TruncatedQuotient` | source/knxHandle.c:1358-1358 | so it is for every quotient that is off by less than 1/255 and exact on multiples of 255 |
| `Dimmer.NoWrap` | source/knxHandle.c:791-791 | in range neither conversion is cut off by its width |
| `Dimmer.RoundTrip` | source/knxHandle.c:1358-1359 | control then report loses exactly the remainder of the first division in units of 255, rounded up; never grows, and loses less than max/255 + 1 |
| `Dimmer.RoundTripFromBus` | source/knxHandle.c:791-793 | the same from the bus's side |
| `Dimmer.RoundTripMonotone` | source/knxHandle.c:791-793 | both conversions and their composition are monotone and fix 0 and max |
| `Dimmer.ReadBlock` | source/knxHandle.c:84-95 | the payload decodes to the value, a byte is its own payload, the rest of the buffer is untouched |

## Left out

- ThreadPool: one pool whose `thpool_init` has returned; `thpool_pause` and `thpool_resume`, a second pool sharing the static flags, and a failing `malloc` are not modelled.
- ThreadPool: memory is sequentially consistent; data races on the unlocked reads are modelled as plain interleaving.
- ThreadPoolProgress: the wall-clock limit of the first polling loop of `thpool_destroy` is not modelled; both loops are one loop that posts and tests `num_threads_alive`, so its statements are about rounds, not seconds.
- BlockingQueue.Queue.Put: one operation between lock and unlock; waiting is in QueueMonitor. The null checks, lock errors and `Q_ERR_MEM` are left out.
- BlockingQueue.Queue.Put: on a stale `last_el` the C code writes into freed memory; the model keeps the removed cell and shows that the element is lost even so.
- BlockingQueue.Queue.Flush: the free function is the list of data handed to it.
- QueueMonitor: `queue_destroy` is left out, and so are the non-waiting calls that fail, since they change nothing.
- LinkedList.List.Index: the overflow of `(-index)-1` for the least `long` is not modelled.
- LinkedList.List.Dup: allocation failure is left out; the dup, match and free functions are values without side effects.
- Crc16.Crc16: the two tables are functions laid out in rows of sixteen; a negative length, which the C loop would count down past zero, is not modelled.
- PortLock: full-duplex devices, `SerialOpenExt`, and the loop over group members in `ModbusDevWrite`, whose early returns skip the close, are outside the hand-off.
- PortLock: that a mutex may be unlocked by another thread than the one that locked it is taken as the platform allows it; termios, epoll and the message contents are outcomes chosen by the environment.
- SerialPort.Serial.Open: blocking on the mutex is its precondition that the mutex is free; what other threads do meanwhile is in PortLock.
- PortLock.Receive: parsed replies are counted, not modelled.
- Debounce.Debouncer.Tick: a refused `queue_put` is ignored as in the code, so the statements are about what is offered to the queue; times are whole milliseconds; removal of keys is left out.
- DigitalInput.Input.Sample: reading the pin, and the report to the cloud after a change, are left out; a sample that cannot be parsed is no sample.
- ChangeFilter.MonitoredPoint.Take: passing on means the KNX side; the cloud is told of every reading.
- Dimmer.RoundTrip: negative brightness values and a maximum of 0 are not modelled; `real` stands for `double`, and TruncatedQuotient covers its rounding.
- XML parsing, the cloud SDK, the EIB socket, plugins, signals, LEDs, networking and licensing are foreign calls and I/O.
- `readgaddr` and the text parsing of telegrams depend on `sscanf`.
