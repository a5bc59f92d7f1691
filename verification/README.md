# SPP: a verified model

SPP is a proxy/worker server framework. A proxy process reads requests from clients, cuts them out of the byte
stream and passes them to worker groups through rings in shared memory; workers answer them with the help of
asynchronous connections to other servers; a controller watches and reloads the processes. This project models the
parts of it that are hard to get right and proves what they promise, for every input, every run and, where two
processes work on the same memory, every interleaving.

| files | what they model |
|---|---|
| `Bytes`, `ShmFrames`, `ShmRing`, `ShmMQ`, `ShmSession` | the byte ring `CShmMQ`, one call at a time, as a FIFO of messages |
| `ShmConcurrent` | the same ring with producer and consumer interleaved step by step |
| `ParallelLists`, `ParallelNetHandler` | many requests multiplexed on one connection |
| `SqNodes`, `ShmQueue` | the node ring of the report queue (`sq_put`, `sq_get`) |
| `NetHandler`, `NetMgr` | one request at a time on a connection, and the pool of such handlers |
| `AsyncStory`, `AsyncFrame` | messages going through states, action sets and the overload limit |
| `TimerList`, `TimerCalls`, `TimerUnit`, `IntrusiveList` | timers sorted by expiry and the linked list under them |
| `PollerSlots`, `Poller` | the slot table of the poller and its filter for stale events |
| `Crc32` | the table-driven CRC and the keys made from it |
| `ProcTable`, `ProcQueue`, `ProcMon` | the process monitor of a group, its message queue and its hot reload |
| `StatHash`, `StatTable`, `StatStep`, `StatValues`, `StatPool`, `StatRuns` | the statistics pool, what its values mean and its two ways of finding an object |
| `EndToEnd` | a request's way from the proxy's buffer to the worker |
| `Seqs`, `IndexChain`, `Connections` | sequences, chains of table indices, and what both kinds of connection share |

An object that the source updates in place is a class whose methods have the source's branches and loops; what a
method does is stated against functions and predicates on values, and the lemmas about those carry the proofs.
A method `Serve` of a module drives any run of calls or events, so that a property of every reachable state is a
postcondition or follows from one by the lemma `ValidMeans` beside it. `ShmConcurrent` and the histories of `ProcMon`
are step systems over values.

## Assumptions

- The clock does not go back, and memory is sequentially consistent. Words are little-endian and of 32 bits.
- `blocksize_` is below 2^31 and a payload plus the 16 bytes of its frame does not overflow 32 bits.
- One producer and one consumer at a time work on a `CShmMQ`; the file locks of the source see to that.
- Socket, epoll, fork, kill and plugin calls may come out in any way. Where what follows depends on it, the outcomes are
  arguments: what the sockets answer, what the plugin measures, routes and asks for, what the clock says. Attempts to
  connect beyond those given succeed, sends and plugin answers beyond those given find nothing to do. A successful send
  takes at least one byte.
- A plugin callback does not call back into the handler that called it. Timer and poller callbacks may do anything to
  the unit they came from.
- Requests in flight on one parallel connection have different sequence numbers, and a timer of that connection belongs
  to an action still on one of its lists.
- `notify_fd_` is positive and writing the notify byte succeeds, as far as the wake-up of a consumer goes
  (`ShmConcurrent.RunWakes`).
- A callback of the poller that deletes its own object does not return `POLLER_SUCC`.
- Messages of the monitor's queue that arrive while a step is being taken count as there when it starts, and a process
  that outlives its exit signal does so for the whole step. A pid names one process at a time.
- While an old process is recorded by a reload its pid is not given to another process, and a group is reloaded by one
  reload at a time.

## Where a promise does not hold

- A `sq_get` buffer shorter than the oldest message drops the message and leaves its start token behind
  (`ShmQueue.ShortBuffer`, `ShmQueue.DropFront`). What is dropped may be handed out later, out of order
  (`ShmQueue.Revived`). A get takes the oldest message if and only if one lies at head or no skipped node looks like a
  message (`ShmQueue.SkipIsExact`, `ShmQueue.ShmQueue.Get`).
- The heads of the timer lists give the earliest expiry when every list has a positive timeout. A list without one is
  not sorted, and any chain with such a list can go wrong (`TimerUnit.UntimedListMisleads`). The loop over such a list
  need not end, nor does the transfer of a list to itself (`TimerUnit.Endless`, `TimerUnit.TransferToItself`).
- The poller's check lets a stale event through exactly after a multiple of 2^32 numbers (`PollerSlots.VerifyExactly`).
- `curprocnum_` is not the number of listed processes in every run. Before it takes a process out, the monitor receives
  the messages of that pid; a report of a fatal signal among them takes it out already, and `del_proc` then counts down
  again for a process no longer listed. The count stays right exactly when no such report is queued under the pid of the
  process taken out, or reports are not acted on, the process outlives its exit signal or the group is at `GROUP_UNUSED`
  already
  (`ProcMon.CProcGroup.Retire`, `ProcMon.CProcGroup.DelProc`). A process reports under its own pid when it was started in
  the foreground; as a daemon it reports under that of its launcher. With one process left the count can end at
  `GROUP_UNUSED`, and the group is then ignored until a reload (`ProcMon.Forgotten`). A reload can be released early by a
  count below that (`ProcMon.SignalsAreEarned`, `ProcMon.ReleasedFairly`).
- After the last action of a set has been started the walk over the set looks at it once more, although it may be gone
  by then (`AsyncFrame.CAsyncFrame.StartAction`, `AsyncFrame.Overtaken`).
- A statistics value under MIN is not the minimum of its values in every run, because zero counts as not set: it is if and
  only if one of them is negative, none is zero or the last one is (`StatValues.MinIsMinimum`). MAX is the largest of
  them and zero (`StatValues.MeansMore`).
- A step by index equals a step by name for ids registered for one policy, and at the last value index only for those
  (`StatRuns.OpIsStep0`).
- Statistics ids of 64 characters and more are stored cut, never found again, and can break the contiguity of a chain
  (`StatRuns.LongIdScatters`); for shorter ones it is kept. It is kept exactly when nothing enters or the id as stored is
  new to its bucket or in front of it (`StatPool.CTStat.InitStatObj`).
- A length field of 12 to 15 in a frame makes dequeue compare bytes outside the caller's buffer; the model reports it
  with a code of its own and shows that no queue it built has such a field (`ShmMQ.ReadFront`).
- When the proxy runs out of memory for a packet it returns the length of that packet instead of everything consumed,
  and an empty buffer is answered with -1 (`EndToEnd.CDefaultProxy.RecvData`).

## Model

| member | source | states |
|---|---|---|
| `Bytes.WordOfLe32` | src/comm/tbase/tshmcommu.cpp:238-240 | a 32-bit header field written little-endian reads back as the same number |
| `ShmFrames.FrameFields` | src/comm/tbase/tshmcommu.cpp:238-252 | the frame of a message carries the magic at both ends, its own total length, the flow and the payload at the places dequeue reads them |
| `ShmFrames.CutOfFrame` | src/comm/tbase/tshmcommu.cpp:337-472 | taking one frame off a frame followed by anything gives back exactly the message and what followed |
| `ShmFrames.ParseImage` | src/comm/tbase/tshmcommu.cpp:210-472 | the bytes of any queue of messages parse back to exactly that queue, as whole frames |
| `ShmRing.IndicesTellLength` | src/comm/tbase/tshmcommu.h:75-86 | with head and tail in 0..blocksize, both ends included, the two index formulas give the free and the used length for every non-empty contents shorter than the block |
| `ShmRing.AdvanceTwice` | src/comm/tbase/tshmcommu.cpp:303-330 | moving an index round the ring twice is moving it once by the sum, whichever of its two representations the joint falls on |
| `ShmRing.SpanOfStore` | src/comm/tbase/tshmcommu.cpp:243-331 | what is stored round the ring at a position is what is read from it |
| `ShmRing.SpanBesideStore` | src/comm/tbase/tshmcommu.cpp:243-331 | storing behind some bytes leaves those bytes alone while both fit the ring |
| `ShmRing.StoreWhole` | src/comm/tbase/tshmcommu.cpp:243-255 | the copy that fits before the end of the block is the store round the ring |
| `ShmRing.StoreCutSecond` | src/comm/tbase/tshmcommu.cpp:256-273 | a payload cut by the end of the block is the same store |
| `ShmRing.StoreCutLast` | src/comm/tbase/tshmcommu.cpp:274-301 | a trailer cut by the end of the block is the same store |
| `ShmRing.StoreCutFirst` | src/comm/tbase/tshmcommu.cpp:313-331 | a header cut by the end of the block is the same store |
| `ShmMQ.StoreAppends` | src/comm/tbase/tshmcommu.cpp:238-334 | storing one more frame behind tail makes the ring hold the queue with the message at its end |
| `ShmMQ.FreeIsExact` | src/comm/tbase/tshmcommu.cpp:221-236 | the free length enqueue computes is exactly the block less the queued bytes, and head equals tail exactly when the queue is empty |
| `ShmMQ.FrontFrame` | src/comm/tbase/tshmcommu.cpp:357-378 | the bytes at head are the frame of the oldest message, inside the used bytes, and past it lies the rest of the queue |
| `ShmMQ.ReadFront` | src/comm/tbase/tshmcommu.cpp:337-472 | on a ring that holds a queue, dequeue reads the oldest message, or reports a buffer that is too small; no other check can fail |
| `ShmMQ.CShmMQ.Clear` | src/comm/tbase/tshmcommu.cpp:155-172 | the queue is empty and valid afterwards, whatever the indices were |
| `ShmMQ.CShmMQ.DoCheck` | src/comm/tbase/tshmcommu.cpp:174-207 | true exactly when both indices are within the block; otherwise the queue is cleared unless another live process is clearing it |
| `ShmMQ.CShmMQ.WriteFrame` | src/comm/tbase/tshmcommu.cpp:238-331 | the four wrap cases all store header, payload and trailer round the ring and advance tail by the frame length |
| `ShmMQ.CShmMQ.WriteSplit` | src/comm/tbase/tshmcommu.cpp:256-301 | the end of the block inside the payload or inside the trailer |
| `ShmMQ.CShmMQ.SplitTrailer` | src/comm/tbase/tshmcommu.cpp:279-300 | the trailer written byte by byte over the end of the block, for one, two or three bytes on the far side, is the magic cut there |
| `ShmMQ.CShmMQ.Enqueue` | src/comm/tbase/tshmcommu.cpp:210-335 | on a valid queue: accepted exactly when the payload is below the room left, then appended and the new count returned; refused with nothing changed otherwise; wild indices are reported and cleared |
| `ShmMQ.CShmMQ.ReadHeader` | src/comm/tbase/tshmcommu.cpp:358-374 | the twelve header bytes, split over the end of the block or not, and the position behind them |
| `ShmMQ.CShmMQ.CopyOut` | src/comm/tbase/tshmcommu.cpp:434-448 | the bytes behind the header, split or not, and the position behind them |
| `ShmMQ.CShmMQ.TakeBody` | src/comm/tbase/tshmcommu.cpp:434-471 | payload, trailer check and counters, against the reading of the bytes as they are |
| `ShmMQ.CShmMQ.TakeFrame` | src/comm/tbase/tshmcommu.cpp:355-471 | every check of dequeue in its order on arbitrary bytes, each failure clearing the queue with its own code |
| `ShmMQ.CShmMQ.Dequeue` | src/comm/tbase/tshmcommu.cpp:337-472 | on a valid queue: empty is reported with nothing changed; a buffer that can hold the oldest message gets its flow, length and bytes and the message leaves; a shorter buffer clears the queue |
| `ShmSession.FifoConserves` | src/comm/tbase/tshmcommu.cpp:210-472 | over any run of calls on the FIFO, what was queued plus what was accepted is what was delivered plus what is left, in order |
| `ShmSession.ServeOne` | src/comm/tbase/tshmcommu.cpp:210-472 | one call on the byte ring answers and changes the queue as the FIFO of messages does, so no error branch is taken with a buffer sized as in init |
| `ShmSession.Serve` | src/comm/tbase/tshmcommu.cpp:210-472 | any run of enqueue and dequeue on the byte ring gives the replies of a FIFO of (flow, payload) and leaves its messages |
| `ShmSession.FrontFits` | src/comm/tbase/tshmcommu.cpp:782-786 | a message in the queue fits a buffer of the size of the shared memory |
| `ShmConcurrent.StoringKeeps` | src/comm/tbase/tshmcommu.cpp:243-327 | copying one more byte of a frame keeps the invariant |
| `ShmConcurrent.PublishKeeps` | src/comm/tbase/tshmcommu.cpp:253-331 | publishing tail turns the copied bytes into one more queued frame |
| `ShmConcurrent.ProducerKeeps` | src/comm/tbase/tshmcommu.cpp:210-335 | every producer step, from reading head to counting and notifying, keeps the invariant whatever the consumer is doing |
| `ShmConcurrent.LoadKeeps` | src/comm/tbase/tshmcommu.cpp:360-448 | loading a byte, or publishing head once the frame is loaded, keeps the invariant |
| `ShmConcurrent.HandOutKeeps` | src/comm/tbase/tshmcommu.cpp:450-471 | the loaded bytes are one frame and are handed out as its message |
| `ShmConcurrent.WantedIsFrame` | src/comm/tbase/tshmcommu.cpp:376-432 | from any prefix of the oldest frame the consumer computes the right length to load and none of its checks fails |
| `ShmConcurrent.ConsumerKeeps` | src/comm/tbase/tshmcommu.cpp:337-472 | every consumer step keeps the invariant whatever the producer is doing |
| `ShmConcurrent.RunKeeps` | src/comm/tbase/tshmcommu.cpp:210-472 | the invariant holds after every interleaving of producer and consumer steps |
| `ShmConcurrent.RunIsSafe` | src/comm/tbase/tshmcommu.cpp:210-472 | in every reachable state the bytes from head to tail parse as whole frames, the messages handed out are a prefix of those accepted, and no check on either side has failed |
| `ShmConcurrent.RunNeverOverwrites` | src/comm/tbase/tshmcommu.cpp:243-331 | in every reachable state the byte the producer writes next is outside the occupied bytes |
| `ShmConcurrent.RunCounts` | src/comm/tbase/tshmcommu.cpp:333-355 | in every reachable state msg_count is the queued frames less the published-but-uncounted one and less the claimed one; it is never below -1, and a successful enqueue never returns a negative number |
| `ShmConcurrent.RunWakes` | src/comm/tbase/tshmcommu.cpp:516-531 | in every reachable state with the producer idle and an unclaimed frame queued, msg_count is at least 1, a notify byte was written since it was last not positive, and an idle consumer goes on to read head whether or not it asks first if the queue is empty |
| `ShmConcurrent.RunAccepts` | src/comm/tbase/tshmcommu.cpp:210-335 | in every interleaving, a message offered to an idle producer is turned away exactly when the queue at that moment leaves no room, and otherwise is the next one accepted, once the producer has had as many more turns as its frame has bytes and two; two turns later the producer is idle again |
| `ShmConcurrent.RunDelivers` | src/comm/tbase/tshmcommu.cpp:337-472 | in every interleaving, a consumer that reads tail goes back to idle exactly when the queue was empty then, and otherwise hands out the oldest message next, once it has had as many more turns as the frame has bytes and three |
| `ParallelLists.OfferIsNext` | src/async_frame/ParallelNetHandler.cpp:524-537 | what DoSend offers of the front element is the next part of its packet, from its own buffer or from the pending one |
| `ParallelLists.SentPart` | src/async_frame/ParallelNetHandler.cpp:524-580 | some bytes of the front element on the wire keep the framing |
| `ParallelLists.SentAll` | src/async_frame/ParallelNetHandler.cpp:562-572 | the last byte of the front element on the wire makes its packet whole |
| `ParallelLists.Disconnected` | src/async_frame/ParallelNetHandler.cpp:707-748 | a lost connection takes the front element with it and leaves no fragment behind |
| `ParallelLists.Pushed` | src/async_frame/ParallelNetHandler.cpp:133-217 | a new element at the end keeps the framing |
| `ParallelLists.Removed` | src/async_frame/ParallelNetHandler.cpp:432-466 | an element that has sent nothing can leave without a trace on the wire |
| `ParallelLists.GivenUp` | src/async_frame/ParallelNetHandler.cpp:491-518 | a half-sent front element that times out still finishes its packet, from the pending buffer |
| `ParallelLists.FramedIsWholePackets` | src/async_frame/ParallelNetHandler.cpp:520-584 | the bytes of a connection are a prefix of whole packets of distinct actions in order of submission |
| `ParallelLists.AccountSent` | src/async_frame/ParallelNetHandler.cpp:562-572 | moving a sent element to the receiving list tells nobody and loses nobody |
| `ParallelLists.AccountWaiting` | src/async_frame/ParallelNetHandler.cpp:751-783 | telling a waiting action and unlisting it keeps every action at one callback |
| `ParallelLists.AccountSending` | src/async_frame/ParallelNetHandler.cpp:432-466 | telling a sending action and unlisting it keeps every action at one callback |
| `ParallelLists.AccountGivenUp` | src/async_frame/ParallelNetHandler.cpp:432-466 | telling the front action while its element stays keeps every action at one callback |
| `ParallelLists.FlushedMore` | src/async_frame/ParallelNetHandler.cpp:562-572 | one more element sent extends what has gone out by exactly that element |
| `ParallelNetHandler.CParallelNetHandler.HandleRequest` | src/async_frame/ParallelNetHandler.cpp:133-217 | the action is accepted last whatever becomes of the connection and joins the end of what is to be sent: on a connection that can be used the list is offered to the socket at once, on one under way it waits, and without one the attempts to open decide what is left before it; nothing written on any connection is forgotten |
| `ParallelNetHandler.CParallelNetHandler.Queue` | src/async_frame/ParallelNetHandler.cpp:174-205 | the action becomes the last sending element, with nothing of it sent |
| `ParallelNetHandler.CParallelNetHandler.Open` | src/async_frame/ParallelNetHandler.cpp:219-276 | succeeds exactly when the first attempt does, and then tells nobody; each attempt that fails takes the front element with it, so what is left to send is what the attempts leave over, and the mutual recursion with DoErrorFinished ends by the length of the sending list |
| `ParallelNetHandler.CParallelNetHandler.Close` | src/async_frame/ParallelNetHandler.cpp:278-303 | the connection is over and is recorded with all the bytes written on it and the actions they belong to, which were whole packets |
| `ParallelNetHandler.OnceClosed` | src/async_frame/ParallelNetHandler.cpp:278-303 | the actions of a connection that ends come after those of every earlier one and before those still to be sent |
| `ParallelNetHandler.OnceMeans` | src/async_frame/ParallelNetHandler.cpp:278-303 | no action is on two connections: later connections have later actions |
| `ParallelNetHandler.CParallelNetHandler.DoErrorFinished` | src/async_frame/ParallelNetHandler.cpp:707-748 | everyone waiting is told, the front sender is told, and what is left to send is what the attempts to open a new connection leave over, in order |
| `ParallelNetHandler.CParallelNetHandler.TellWaiting` | src/async_frame/ParallelNetHandler.cpp:721-733 | every waiting action is told exactly once and the list and its counter are cleared |
| `ParallelNetHandler.CParallelNetHandler.DoSend` | src/async_frame/ParallelNetHandler.cpp:520-584 | the first k elements go out in order, until none is left or the socket takes no more; the live ones of them wait in order and nobody is told anything; if the socket fails over the next element, those waiting, these k among them, and its sender are told |
| `ParallelNetHandler.CParallelNetHandler.Sent` | src/async_frame/ParallelNetHandler.cpp:552-580 | the front element advances, or leaves and waits, exactly when its last byte is out |
| `ParallelNetHandler.CParallelNetHandler.PopSent` | src/async_frame/ParallelNetHandler.cpp:562-572 | the sent element leaves the front; its action, if not given up, waits at the end of the receiving list |
| `ParallelNetHandler.CParallelNetHandler.FinishWaiting` | src/async_frame/ParallelNetHandler.cpp:420-430 | the waiting action is told and is the only one to leave |
| `ParallelNetHandler.CParallelNetHandler.FinishSending` | src/async_frame/ParallelNetHandler.cpp:432-466 | the sending action is told; its element leaves if nothing of it was sent and otherwise stays to finish from the pending buffer |
| `ParallelNetHandler.CParallelNetHandler.CopyToPending` | src/async_frame/ParallelNetHandler.cpp:491-518 | the pending buffer starts with exactly the unsent rest of the packet, grown if need be |
| `ParallelNetHandler.CParallelNetHandler.Expire` | src/async_frame/ParallelNetHandler.cpp:412-466 | the first action of this number, waiting or to be sent, is told, and only it: it leaves its list, but one part-way on the wire stays to finish its packet; a sequence number in use nowhere changes nothing |
| `ParallelNetHandler.LetGoAt` | src/async_frame/ParallelNetHandler.cpp:432-466 | the search from the front gives up exactly the first element of the number, in place if part of it is on the wire |
| `ParallelNetHandler.CParallelNetHandler.TimerNotify` | src/async_frame/ParallelNetHandler.cpp:412-489 | the action whose timer fired is told and given up, and nobody else; a connection left without work is closed, one at the limit of timeouts is given up with everyone waiting on it, and any other goes on with one more timeout counted; every record is kept |
| `ParallelNetHandler.CParallelNetHandler.HangupNotify` | src/async_frame/ParallelNetHandler.cpp:404-410 | everyone waiting and the front sender have their callback, nobody waits any more, and what is left to send is what the attempts to open leave over of those behind the front |
| `ParallelNetHandler.LostAreTold` | src/async_frame/ParallelNetHandler.cpp:707-748 | when a connection is given up, everyone who waited and the front sender have had their callback |
| `ParallelNetHandler.CParallelNetHandler.OutputNotify` | src/async_frame/ParallelNetHandler.cpp:363-402 | without a connection, or when the one under way failed, everyone waiting and the front sender are told and the code says which; otherwise the sending list is offered to the socket as in DoSend |
| `ParallelNetHandler.CParallelNetHandler.InputNotify` | src/async_frame/ParallelNetHandler.cpp:349-361 | input nobody waits for is an error that gives up the connection; otherwise what was read is split and handed out as in DoProcess, and a failed read gives up the connection |
| `ParallelNetHandler.CParallelNetHandler.DoRecv` | src/async_frame/ParallelNetHandler.cpp:586-626 | nothing to read changes nothing; bytes are split behind those left over; a closed or failed socket gives up the connection |
| `ParallelNetHandler.TakeOutAt` | src/async_frame/ParallelNetHandler.cpp:751-783 | the search from the front takes out exactly the first action of the number, and the others keep their order |
| `ParallelNetHandler.CParallelNetHandler.DoProcess` | src/async_frame/ParallelNetHandler.cpp:628-705 | the received bytes are split into the packets the plugin measures, until the bytes or those waiting run out or a packet is not whole; each goes to the first action waiting for its number, these and no others are told, and what is left of the bytes and of those waiting stays; an answer that is no length gives up the connection and those still waiting |
| `ParallelNetHandler.CParallelNetHandler.DoRecvFinished` | src/async_frame/ParallelNetHandler.cpp:751-783 | the action waiting for this response is told and is the only one to leave; a response nobody waits for changes nothing |
| `ParallelNetHandler.CParallelNetHandler.Serve` | src/async_frame/ParallelNetHandler.cpp:133-794 | any run of requests, readiness events, hangups and timers, with the states it goes through: each event has its effect; the actions accepted are those of the requests taken, in order; no callback is taken back; and every connection that ends in it is recorded with all that was written on it |
| `ParallelNetHandler.CParallelNetHandler.Handle` | src/async_frame/ParallelNetHandler.cpp:133-794 | one event: a request is taken unless its sequence number is in use, and joins what is to be sent; readiness for output offers that to the socket; input is split and handed out; a timer tells and gives up the action it belongs to; a lost connection tells everyone waiting and the front sender |
| `ParallelNetHandler.ValidMeans` | src/async_frame/ParallelNetHandler.cpp:42-68 | on every connection, past and present, the bytes written are a prefix of whole packets in submission order; no action is on two connections; only the front element is part-way and only it may use the pending buffer; nothing part-way without a connection; every accepted action has had its one callback exactly when it is on no list |
| `SqNodes.Need` | src/comm/report/shm_queue.cpp:95-96 | the number of nodes a message needs: the least whose bytes hold its header and data |
| `ShmQueue.EmptyNodes` | src/comm/report/shm_queue.cpp:82-86 | the modular formula for empty nodes is the ring less the used nodes less one |
| `ShmQueue.NextIsMod` | src/comm/report/shm_queue.cpp:71-77 | the step of a node index, written without a division, is the modular one |
| `ShmQueue.SearchStops` | src/comm/report/shm_queue.cpp:523-550 | the scan through skipped nodes stops at the first that looks like the start of a message |
| `ShmQueue.SkipIsExact` | src/comm/report/shm_queue.cpp:523-550 | the scan finds the oldest message if and only if the reader is not misled: a message lies at head, or no skipped node looks like one |
| `ShmQueue.CleanLeads` | src/comm/report/shm_queue.cpp:571-577 | where no free or skipped node carries a start token the reader is not misled |
| `ShmQueue.PutUpper` | src/comm/report/shm_queue.cpp:449-473 | a message stored behind tail before the end of the ring keeps the shape, and the cleanliness of free nodes |
| `ShmQueue.PutLower` | src/comm/report/shm_queue.cpp:449-473 | a message stored behind tail in front of head keeps them too |
| `ShmQueue.PutWrapped` | src/comm/report/shm_queue.cpp:453-473 | a message stored at node 0 with the end of the ring skipped keeps them too |
| `ShmQueue.TakeUpper` | src/comm/report/shm_queue.cpp:551-577 | taking the oldest message and resetting the tokens passed keeps them |
| `ShmQueue.TakeLower` | src/comm/report/shm_queue.cpp:551-577 | taking a message from node 0 past skipped nodes keeps them |
| `ShmQueue.TakeStale` | src/comm/report/shm_queue.cpp:551-577 | taking what looks like a message out of the skipped nodes leaves the stored messages as they are, if it ends no further than the ring |
| `ShmQueue.DropFront` | src/comm/report/shm_queue.cpp:552-560 | moving head past a message without resetting its token leaves a stale token in a free node |
| `ShmQueue.ShmQueue.constructor` | src/comm/report/shm_queue.cpp:306-375 | a new queue is empty and well formed, its element size rounded up to 8 |
| `ShmQueue.ShmQueue.Put` | src/comm/report/shm_queue.cpp:427-493 | on any bytes: refused for a bad length, refused exactly when no run of nodes in one piece is free, otherwise written to that run and nowhere else; on a well-formed queue the message is appended; a refusal changes nothing |
| `ShmQueue.ShmQueue.StoreMessage` | src/comm/report/shm_queue.cpp:449-473 | on any bytes the message lies in consecutive nodes from the chosen one and tail moves past it; a well-formed queue stays so with the message at its end |
| `ShmQueue.ShmQueue.Find` | src/comm/report/shm_queue.cpp:523-550 | the scan is the search, and ends by ring distance to tail |
| `ShmQueue.ShmQueue.FindStart` | src/comm/report/shm_queue.cpp:523-577 | a scan that reaches tail gives the nodes back with their tokens reset |
| `ShmQueue.ShmQueue.ResetTokens` | src/comm/report/shm_queue.cpp:571-577 | exactly the nodes from old head to new head lose their tokens |
| `ShmQueue.SearchBounds` | src/comm/report/shm_queue.cpp:523-550 | on any bytes, what the scan finds lies within the nodes in use, however long it claims to be |
| `ShmQueue.ShmQueue.ScanAndTake` | src/comm/report/shm_queue.cpp:517-580 | on any bytes: nothing is found and the nodes are given back with their tokens reset, or what the scan finds is handed out when the buffer can hold it, and head moves past it |
| `ShmQueue.ShmQueue.Get` | src/comm/report/shm_queue.cpp:510-580 | on any bytes: refused for a buffer below one byte, otherwise what the scan finds is taken; on a well-formed queue the oldest message leaves, and is handed out with its time when the buffer can hold it, if and only if the reader is not misled; a misled reader is handed the stale bytes of the first skipped node that looks like a message, and if they end no further than the ring the stored messages stay and the queue is well formed; a buffer too short leaves a stale token behind |
| `ShmQueue.ShortBuffer` | src/comm/report/shm_queue.cpp:552-560 | a message that met a short buffer has left the queue: asking again finds nothing |
| `ShmQueue.LurksPlausible` | src/comm/report/shm_queue.cpp:523-550 | a dropped message whose node was not written over looks like a message to a reader that skips over it |
| `ShmQueue.Revived` | src/comm/report/shm_queue.cpp:427-580 | for all data of these sizes, a run in which a message dropped by a short buffer is handed out after three messages put later and before a fourth |
| `ShmQueue.Serve` | src/comm/report/shm_queue.cpp:427-580 | any run of calls in which no buffer is shorter than a message in the queue at the start or put before it gives the replies of a FIFO and leaves its messages |
| `ShmQueue.Handle` | src/comm/report/shm_queue.cpp:427-580 | one call on the nodes answers as the FIFO does, refusals included: a get that is not refused on a non-empty queue replies with its front |
| `ShmQueue.FifoConserves` | src/comm/report/shm_queue.cpp:427-580 | over any calls and the replies of the FIFO to them, what was queued plus what was accepted is what was handed out plus what is left, in order |
| `NetHandler.AccountNext` | src/async_frame/NetHandler.cpp:718-722 | taking up the next waiting action keeps the accounts |
| `NetHandler.AccountExpired` | src/async_frame/NetHandler.cpp:690-708 | a waiting action that is too late is told and leaves |
| `NetHandler.CNetHandler.HandleRequest` | src/async_frame/NetHandler.cpp:86-116 | turned away with nothing changed exactly when the handler is busy and does not queue; otherwise accepted last, and waiting from now behind the current action, or started: the first attempt to open and the first send decide whether it ends with its callback, is being sent or waits for its response |
| `NetHandler.CNetHandler.StartActionProcess` | src/async_frame/NetHandler.cpp:731-764 | without a connection the action is being sent on a new one exactly if the first attempt to open succeeds, and else ended with an error; on one it goes as far as the socket takes it |
| `NetHandler.CNetHandler.Open` | src/async_frame/NetHandler.cpp:118-171 | succeeds exactly when the attempt does, and then the action is still the current one and being sent; a failure ends it with an error |
| `NetHandler.CNetHandler.DoSend` | src/async_frame/NetHandler.cpp:372-433 | the answer of the socket decides: an error ends the action, a part advances it by as much, and the last byte ends a send-only action well and makes any other wait for its response |
| `NetHandler.CNetHandler.DoSendFinished` | src/async_frame/NetHandler.cpp:587-637 | a send-only action ends well with its callback, any other is still the current one and waits for its response |
| `NetHandler.CNetHandler.Finish` | src/async_frame/NetHandler.cpp:639-678 | the current action has its one callback with the result given, made after the handler is free and has taken up the next one; of those waiting exactly the late ones are told so on the way |
| `NetHandler.CNetHandler.DoErrorFinished` | src/async_frame/NetHandler.cpp:523-561 | an error ends the current action, if there is one, with an error callback |
| `NetHandler.CNetHandler.TryNextAction` | src/async_frame/NetHandler.cpp:680-729 | the queue goes on by the clock: of those that leave it exactly the ones whose timeout is over are told so, the others are started, all in order, and the rest stay in order; a handler that does not queue starts nothing; the recursion ends by the number waiting |
| `NetHandler.CNetHandler.InputNotify` | src/async_frame/NetHandler.cpp:244-282 | input while waiting for a response ends the action or leaves it waiting as in DoRecv, in any other state it ends the current action with an error, and a handler without work stays without |
| `NetHandler.CNetHandler.DoRecv` | src/async_frame/NetHandler.cpp:434-521 | a whole response ends the action well, an incomplete one leaves it waiting unless a datagram buffer is full, and anything else ends it with an error |
| `NetHandler.CNetHandler.OutputNotify` | src/async_frame/NetHandler.cpp:284-332 | without a connection, when the one under way failed, or when nothing is being sent, the current action ends with an error; otherwise the answer of the socket decides as in DoSend |
| `NetHandler.CNetHandler.TimerNotify` | src/async_frame/NetHandler.cpp:342-370 | a timer ends the current action with an error, or makes an idle handler recyclable |
| `NetHandler.CNetHandler.Recycle` | src/async_frame/NetHandler.cpp:860-865 | only a handler without work is recycled, with every accepted action told once |
| `NetHandler.Serve` | src/async_frame/NetHandler.cpp:86-764 | any run of requests, socket events and timers, with the states it goes through: each has its effect; the actions accepted are those of the requests taken, in order, all of them if the handler queues; and no callback is taken back |
| `NetHandler.Handle` | src/async_frame/NetHandler.cpp:86-370 | one request or event has its effect; a handler that queues takes on every request |
| `NetHandler.ServesTwice` | src/async_frame/NetHandler.cpp:680-729 | a queue that goes on twice, by the same clock, has gone on once: the late and the started ones follow each other in order |
| `NetHandler.CNetHandler.Notify` | src/async_frame/NetHandler.cpp:244-370 | one event has its effect on the current action, and of those waiting exactly the late ones that leave the queue are told so; a handler without work stays without, and may be recycled when its timer fires |
| `NetHandler.ValidMeans` | src/async_frame/NetHandler.cpp:63-84 | the handler has a current action exactly while sending or receiving, nothing waits behind nobody, every accepted action has had its one callback exactly when it neither is current nor waits, and a recyclable handler has no work, so the destructor finds none |
| `NetMgr.SharedFilled` | src/async_frame/NetMgr.cpp:217-246 | filling an empty place of a destination keeps the table and its count |
| `NetMgr.SharedCleared` | src/async_frame/NetMgr.cpp:424-457 | emptying a place keeps the table and its count |
| `NetMgr.CNetMgr.GetHandler` | src/async_frame/NetMgr.cpp:179-216 | the handler given out is for the destination asked for, without work, and belongs to nobody else; a new one is made only if no idle one is for that destination |
| `NetMgr.CNetMgr.GetQueueing` | src/async_frame/NetMgr.cpp:217-249 | the queueing handler at the place drawn among those of the destination, the first place if the destination is new; a new one is made exactly when that place is empty |
| `NetMgr.CNetMgr.RecycleHandler` | src/async_frame/NetMgr.cpp:294-329 | a handler given out whose action has been told has no work and goes back under its destination; one that queues stays where it is |
| `NetMgr.CNetMgr.Submit` | src/async_frame/NetMgr.cpp:179-216 | a handler fetched for a request never turns it away, and the request has its effect on it |
| `NetMgr.CNetMgr.Dispatch` | src/async_frame/NetMgr.cpp:179-249 | an event has its effect on one handler; every handler keeps its promises and an idle one stays without work; a hangup or a timer tells its action, and a timer makes an idle one recyclable |
| `NetMgr.CNetMgr.CheckIdleHandler` | src/async_frame/NetMgr.cpp:387-457 | exactly the unused and the queueing handlers that may be recycled are destroyed and leave the tables, and each of them has no work and owes no callback |
| `NetMgr.CNetMgr.SweepFree` | src/async_frame/NetMgr.cpp:387-423 | the sweep over unused handlers removes exactly the recyclable ones |
| `NetMgr.CNetMgr.SweepPlaces` | src/async_frame/NetMgr.cpp:424-457 | the sweep over the queueing handlers of a destination removes exactly the recyclable ones, and drops the destination when its count reaches zero |
| `NetMgr.CNetMgr.ReturnIfTold` | src/async_frame/ActionSet.cpp:181-187 | the callback of an action gives its handler back; everyone a handler is still lent to waits for it |
| `NetMgr.CNetMgr.Start` | src/async_frame/NetMgr.cpp:179-216 | an action over a connection of its own: an idle handler of the destination is used if there is one; it has taken the action on, with the effect of a request, the tables stay right, and the handler is back as soon as the action is told, which may be at once |
| `NetMgr.CNetMgr.StartQueueing` | src/async_frame/NetMgr.cpp:217-249 | an action over a shared connection: the handler drawn takes it on, with the effect of a request |
| `NetMgr.CNetMgr.Report` | src/async_frame/NetHandler.cpp:244-370 | an event for any handler, idle, lent or shared, has its effect: a hangup or a timer tells its action, the tables stay right and a told action gives its handler back |
| `NetMgr.Serve` | src/async_frame/NetMgr.cpp:179-457 | any run of requests, events, timers and sweeps: every request is taken on by the handler used for it; no handler is idle and lent at once, an idle one has no work, a lent one is waited for; every handler that left the tables was destroyed, and had told all its actions; no handler loses an action it accepted |
| `NetMgr.Handle` | src/async_frame/NetMgr.cpp:179-457 | one request, event, timer or sweep: a request is taken on by a handler of its destination, with its effect, and by a new one of its own only if none is idle; an event has its effect on the handler picked; and a sweep destroys exactly the recyclable handlers |
| `AsyncFrame.Admit` | src/async_frame/AsyncFrame.cpp:238-299 | an admitted message is one more live one |
| `AsyncFrame.Finalise` | src/async_frame/AsyncFrame.cpp:345-393 | a finalised message was live and is finalised for the first time |
| `AsyncFrame.Register` | src/async_frame/AsyncFrame.cpp:302-344 | a state with actions makes its message wait in one new active set |
| `AsyncFrame.FinishLast` | src/async_frame/ActionSet.cpp:181-198 | the last action of a set takes the message in hand again |
| `AsyncFrame.Processed` | src/async_frame/AsyncFrame.cpp:345-393 | a processed set was not processed before, and the one processed earlier is deleted |
| `AsyncFrame.CAsyncFrame.Process` | src/async_frame/AsyncFrame.cpp:238-299 | a message is admitted exactly when there is no limit or the count is below it; it is then one more message of the record and goes from its first state as far as the rules and the answers of the plugin take it; nothing changes if it is turned away |
| `AsyncFrame.CAsyncFrame.HandleEncode` | src/async_frame/AsyncFrame.cpp:302-344 | -1 exactly for a state there is not; on failure the message is about to end and no set is there; otherwise it waits in a new active set, or has gone on from it; the history goes on by the rules with exactly the answers given, in order |
| `AsyncFrame.CAsyncFrame.HandleProcess` | src/async_frame/AsyncFrame.cpp:345-393 | the state is processed, for the first time, and the message goes to the state the answer asks for, or is finalised if that is none, there is no such state or it cannot be encoded; sets still being started are not touched |
| `AsyncFrame.CAsyncFrame.StartAction` | src/async_frame/ActionSet.cpp:75-179 | every action of the set is started, also when earlier ones finish meanwhile, and the set is there while one is left to start; if the time of the message is up the set has been processed; after the last one the walk looks at a set that is gone if and only if that start did not fail, the set has been processed and another one since |
| `AsyncFrame.Overtaken` | src/async_frame/ActionSet.cpp:84-179 | how that comes about: the last action finishes at once and the next state, without actions, is processed too |
| `AsyncFrame.CAsyncFrame.HandleFinished` | src/async_frame/ActionSet.cpp:181-198 | the action is no longer open and is counted, and the last one of its set has the state processed, once |
| `AsyncFrame.Serve` | src/async_frame/AsyncFrame.cpp:238-393 | any run of messages and finishing actions, with the states it goes through: the invariant holds, each event has its effect, and the four rows that follow hold of it |
| `AsyncFrame.Handle` | src/async_frame/AsyncFrame.cpp:238-393 | one event: a message is admitted as the limit says, or an open action is finished and closed; the histories go on by the rules with the answers given |
| `AsyncFrame.RunAdmits` | src/async_frame/AsyncFrame.cpp:238-299 | over any run, the messages recorded are those of before and one more for each arrival that was admitted |
| `AsyncFrame.RunGrows` | src/async_frame/AsyncFrame.cpp:345-393 | over any run, no finalisation and no processing of a state is taken back |
| `AsyncFrame.RunCloses` | src/async_frame/ActionSet.cpp:181-198 | over any run, an action that has finished is never open again |
| `AsyncFrame.RunStories` | src/async_frame/AsyncFrame.cpp:238-393 | over any run, every step of every message was earned: a state is tried only if the latest answer asked for it, processed only after it was encoded, and a message is finalised if and only if it had no way on; a live one waits in an encoded state; and the answers in the histories are those given, in order |
| `AsyncStory.StoryMeans` | src/async_frame/AsyncFrame.cpp:300-393 | in every history the rules allow, what comes right before a step of a message is what that step needs: nothing before its first state, which without an Init callback is state 1; the answer that asked for it before a state; its encoding before it is processed; no way on before the end |
| `AsyncStory.EndMeans` | src/async_frame/AsyncFrame.cpp:345-393 | a message that waits was encoded last, and one without a way on has ended |
| `AsyncStory.PhaseTells` | src/async_frame/AsyncFrame.cpp:300-393 | where a message stands is what the latest step about it leaves |
| `AsyncFrame.ValidMeans` | src/async_frame/AsyncFrame.cpp:238-393 | the count is the number of live messages and within a positive limit; every admitted message is live or was finalised once; every live one waits in one active set; every set is active or had its state processed once |
| `TimerList.InOrderArmed` | src/comm/timerlist.cpp:15-21 | an object armed now with a positive timeout goes to the tail without breaking the order of expiry |
| `TimerList.MovedLists` | src/comm/timerlist.cpp:15-21 | arming or disarming an object keeps every list in order and every object in one list, and the expired objects of each list of the chain are those of before without that object, in the same order |
| `TimerList.SettlesTwice` | src/comm/timerlist.cpp:15-21 | so over any number of such calls: the expired objects are those of before without the objects touched |
| `TimerList.HeadTells` | src/comm/timerlist.cpp:31-39 | if the head of an ordered list has not expired, nobody in it has |
| `TimerList.HeadMinIsSoonest` | src/comm/timerlist.cpp:96-121 | with positive timeouts, the minimum over the heads is the minimum over every object |
| `TimerUnit.UntimedListMisleads` | src/comm/timerlist.cpp:15-21 | every unit whose chain has a list whose timeout is not positive can be brought, by its calls, to where the heads do not give the minimum: the condition of the previous row cannot be dropped for any such chain |
| `TimerUnit.CTimerUnit.AttachTimer` | src/comm/timerlist.cpp:15-21 | the object leaves wherever it was, joins the tail of the list, and with a positive timeout expires one timeout from now |
| `TimerUnit.CTimerUnit.DisableTimer` | src/comm/timerlist.h:70-72 | the object is in no list afterwards |
| `TimerUnit.CTimerUnit.GetTimerList` | src/comm/timerlist.cpp:57-81 | a list with the timeout asked for; a new one is added exactly when the chain has none |
| `TimerUnit.CTimerUnit.FireHead` | src/comm/timerlist.cpp:31-39 | the head leaves its list before its callback runs; afterwards the expired and the pending objects are those of before without it and without what its callback touched |
| `TimerUnit.CTimerUnit.CheckList` | src/comm/timerlist.cpp:23-42 | whatever the callbacks do it ends, nobody in the list is left expired, and each object notified is the first of those expired at the start that has not been notified or touched by a callback |
| `TimerCalls.FiresMeans` | src/comm/timerlist.cpp:31-39 | so nobody is notified twice, only objects expired at the start are, and each of those is notified unless an earlier callback attached or disabled it |
| `TimerCalls.FiresQuietly` | src/comm/timerlist.cpp:31-39 | with callbacks that leave the unit alone exactly the expired objects are notified, in list order |
| `TimerUnit.CTimerUnit.CheckPending` | src/comm/timerlist.cpp:123-135 | each object notified is the first pending one, until none is, also when callbacks attach objects to the pending list again |
| `TimerCalls.DrainsMeans` | src/comm/timerlist.cpp:123-135 | so an object notified was pending at the start or attached by an earlier callback, and each one pending at the start is notified unless an earlier callback attached or disabled it |
| `TimerUnit.CTimerUnit.CheckExpired` | src/comm/timerlist.cpp:137-150 | whatever the callbacks do and however many lists they add, nobody in the chain is left expired; of the objects of the chain each is notified at most once, only if it had expired at the start and had not been notified or touched, and each that had expired is notified unless a callback touched it |
| `TimerUnit.CTimerUnit.CheckQuietly` | src/comm/timerlist.cpp:137-150 | on any chain, with callbacks that leave the unit alone: of each list exactly the expired objects it starts with are notified; nobody expired is left if and only if none was behind an unexpired one, which holds of every list with a positive timeout |
| `TimerUnit.Endless` | src/comm/timerlist.cpp:23-42 | in every unit with a list whose timeout is not positive, a callback that attaches its own object there again leaves an expired object at the head after any number of turns: the loops over the chain end whatever the callbacks do only where every timeout is positive, and the one over the pending list only if callbacks stop attaching to it |
| `TimerCalls.SweepsMore` | src/comm/timerlist.cpp:145-147 | going on to the next list keeps that over the lists done so far |
| `TimerUnit.CTimerUnit.ExpireMicroSeconds` | src/comm/timerlist.cpp:96-121 | the time to the earliest expiry of any object in the chain, at most the limit and never negative, when the timeouts are positive |
| `TimerUnit.CTimerUnit.TransforTimer` | src/comm/timerlist.cpp:45-55 | every object of the one list follows those of the other, in order and armed anew; no other list changes; an empty list may be transferred to itself |
| `TimerUnit.TransferToItself` | src/comm/timerlist.cpp:45-55 | a list with objects transferred to itself is turned over, and not empty, after any number of turns, so that transfer never ends |
| `IntrusiveList.Node.constructor` | src/comm/tbase/list.h:32-34 | a new node is a ring of its own |
| `IntrusiveList.Node.ResetList` | src/comm/tbase/list.h:106-110 | the entry leaves its ring in order and becomes a ring of its own; on a node of its own it changes nothing |
| `IntrusiveList.Node.ListAddTail` | src/comm/tbase/list.h:72-75 | the entry joins before the head |
| `IntrusiveList.Node.ListMoveTail` | src/comm/tbase/list.h:127-132 | the entry leaves one ring, or none, and joins the tail of another |
| `IntrusiveList.Node.ListMoveToEnd` | src/comm/tbase/list.h:127-132 | the entry moves to the tail of its own ring |
| `IntrusiveList.Node.FreeList` | src/comm/tbase/list.h:316-319 | every node ends as a ring of its own |
| `IntrusiveList.Unlink` | src/comm/tbase/list.h:84-88 | the neighbours of an entry close over it |
| `PollerSlots.TagRoundTrip` | src/comm/poller.h:8-9 | slot and sequence number come back from the packed 64-bit tag |
| `PollerSlots.AllocatedSize` | src/comm/poller.cpp:173-232 | the slots off the free chain number the table less the chain |
| `PollerSlots.Attached` | src/comm/poller.cpp:45-67 | taking the head of the chain for an object keeps the table |
| `PollerSlots.Freed` | src/comm/poller.cpp:212-218 | giving a slot back keeps the table, also when it still points at a deleted object |
| `PollerSlots.VerifyExactly` | src/comm/poller.cpp:201-210 | the event of a registration passes the check if and only if its slot has moved on by a multiple of 2^32 numbers since |
| `PollerSlots.NoStaleEvent` | src/comm/poller.cpp:201-210 | before the number wraps, an event passes exactly when it comes from its slot's latest attach or modify, and then the object that made it still holds the slot |
| `Poller.CPollerUnit.constructor` | src/comm/poller.cpp:173-199 | every slot is free and linked in order |
| `Poller.CPollerUnit.AllocEpollSlot` | src/comm/poller.cpp:220-232 | the head of the free chain, or none when the chain is empty |
| `Poller.CPollerUnit.AttachPoller` | src/comm/poller.cpp:33-70 | an object without a slot gets one and a registration under its latest number exactly if it is not owned twice, has a descriptor, a slot is free and epoll accepts; an attached one has its events applied |
| `Poller.CPollerUnit.ApplyEvents` | src/comm/poller.cpp:91-109 | a changed event mask of an attached object takes the next number for the slot and, exactly if epoll accepts, a registration under it; otherwise nothing changes; no other object changes |
| `Poller.CPollerUnit.DetachPoller` | src/comm/poller.cpp:72-89 | the object has no slot afterwards, and an error is returned exactly if it had one and epoll refused |
| `Poller.CPollerUnit.Destroy` | src/comm/poller.cpp:20-31 | a deleted object gives its slot back |
| `Poller.CPollerUnit.VerifyEvents` | src/comm/poller.cpp:201-210 | passes exactly the tags whose slot is in the table and has this number |
| `Poller.CPollerUnit.Dispatch` | src/comm/poller.cpp:253-303 | an event is delivered exactly when its registration is its slot's latest, to the object that made it: a hangup is told alone, else input before output, and output only if the input callback went well and left the object its slot; the first callback finds the events last given to the kernel, and in the end the kernel watches what the object wants unless it refuses; a stale event changes nothing |
| `Poller.CPollerUnit.ProcessPollerEvents` | src/comm/poller.cpp:249-304 | in a whole batch, whatever the callbacks attach, detach or delete: each event is delivered, to the object whose registration it came from, exactly when that is its slot's latest at its turn, and the callbacks made are those of the events delivered, in order |
| `Poller.LatestIsTold` | src/comm/poller.cpp:249-304 | so the event of a registration that is still its slot's latest after the batch was delivered, and that of one superseded before the batch was not |
| `Poller.ValidMeans` | src/comm/poller.cpp:173-232 | free chain and allocated slots partition the table, usedPollers counts the latter, and no two objects share a slot |
| `Crc32.TableIsShift8` | src/comm/crc32.cpp:12-46 | each of the 256 table entries is its index put through eight steps of the bit-by-bit register |
| `Crc32.TurnIsFeed` | src/comm/crc32.cpp:55-56 | one table-driven turn equals feeding the eight bits of the byte, lowest first, to the register |
| `Crc32.FeedAppend` | src/comm/crc32.cpp:49-61 | feeding two strings one after the other is feeding their concatenation |
| `Crc32.CCrc32.Update` | src/comm/crc32.cpp:49-61 | the register after the bytes is that of the bit-by-bit recurrence; an empty string is refused |
| `Crc32.CCrc32.Crc32` | src/comm/crc32.cpp:70-76 | the one-shot result, zero for an empty string |
| `Crc32.CCrc32.UpdateAll` | src/comm/crc32.cpp:49-61 | any split of the input over several calls gives the register of the whole |
| `Crc32.Pwdtok` | src/comm/keygen.cpp:20-32 | the key is the register after the directory and the four id bytes |
| `Crc32.ShiftInvertible` | src/comm/crc32.cpp:49-61 | a register step can be undone |
| `Crc32.KeysDiffer` | src/comm/keygen.cpp:20-32 | for a fixed directory two different ids never give the same key |
| `ProcTable.Home` | src/comm/tbase/tprocmon.cpp:776-790 | a pid is listed exactly when it is in the bucket it hashes to |
| `ProcTable.TableSize` | src/comm/tbase/tprocmon.cpp:736-809 | the entries of the buckets number the listed processes |
| `ProcTable.Dropped` | src/comm/tbase/tprocmon.cpp:791-809 | taking a pid out of its bucket takes out that process and no other |
| `ProcQueue.TakenFirst` | src/comm/tbase/tprocmon.cpp:83-94 | taking the first message of a type leaves the others of the type and all of every other type |
| `ProcQueue.ReportsWithout` | src/comm/tbase/tprocmon.cpp:351-423 | taking all messages of one pid leaves the reports of the others |
| `ProcMon.SignalsAreEarned` | src/comm/tbase/tprocmon.cpp:570-591 | in every history, a process the reload signals was recorded when it began, and before the signal the reload was released by the count of ready processes listed since reaching the minimum, by a count below -1, or after more than 30 seconds |
| `ProcMon.ReleasedFairly` | src/comm/tbase/tprocmon.cpp:574-581 | if no process was counted down twice since the reload began, it was released by at least the minimum of listed processes or after more than 30 seconds |
| `ProcMon.ReleasedInTime` | src/comm/tbase/tprocmon.cpp:559-582 | over any run, a reload that was released waited since the check that started the new processes, and when released the count, taken as unsigned, had reached the minimum or more than 30 seconds had passed on the clock since that check |
| `ProcMon.KilledInTime` | src/comm/tbase/tprocmon.cpp:584-611 | over any run, a process sent SIGKILL was recorded and alive more than 30 seconds after the check that signalled the old processes for the second time, and none of them had settled the reload in between |
| `ProcMon.ForksApart` | src/comm/tbase/tprocmon.cpp:856-908 | over any run without a reload in between, two checks that start processes are at least the delay apart |
| `ProcMon.OwedTells` | src/comm/tbase/tprocmon.cpp:791-809 | what the count is short by is the number of times it went down for an unlisted process since it was last set to zero |
| `ProcMon.SettledMeansDead` | src/comm/tbase/tprocmon.cpp:593-602 | in every history, the group is back to normal only when every recorded process is dead |
| `ProcMon.OldsStayOut` | src/comm/tbase/tprocmon.cpp:402-416 | in every history, no recorded process enters the buckets between the beginning and the end of its reload |
| `ProcMon.CProcGroup.FindProc` | src/comm/tbase/tprocmon.cpp:776-790 | finds the process exactly when it is listed |
| `ProcMon.CProcGroup.AddProc` | src/comm/tbase/tprocmon.cpp:736-756 | one more process listed and counted, at the front of its bucket |
| `ProcMon.CProcGroup.DelProc` | src/comm/tbase/tprocmon.cpp:791-809 | exactly this process is out of the buckets afterwards; the count keeps in step with them if and only if it was listed before |
| `ProcMon.CProcGroup.RecvInfo` | src/comm/tbase/tprocmon.cpp:376-416 | who enters the buckets, the count and the history on a report, in and outside a reload; a listed process has its latest report; a group at GROUP_UNUSED takes no notice |
| `ProcMon.CProcGroup.DoRecvOf` | src/comm/tbase/tprocmon.cpp:351-423 | receiving the messages of one listed process takes all of them and only them; each report of a fatal signal among them counts down once, and the process is out of the buckets if and only if there was one to act on |
| `ProcMon.CProcGroup.Retire` | src/comm/tbase/tprocmon.cpp:1012-1013 | receiving the messages of a process and then taking it out: only it leaves, but the count goes down once more for each queued report of a fatal signal, and exactly if there is one the record has been freed before its pid is read from it |
| `ProcMon.CProcGroup.DoRecv` | src/comm/tbase/tprocmon.cpp:351-423 | every message is taken, and the listed processes and their count are what the messages make of them one by one; as long as no process has a second report of a fatal signal queued under its own pid the count stays as right as it was |
| `ProcMon.CProcGroup.TakeAll` | src/comm/tbase/tprocmon.cpp:838-846 | every bucket is emptied and exactly the listed processes are recorded |
| `ProcMon.CProcGroup.PreReloadGroup` | src/comm/tbase/tprocmon.cpp:831-854 | the reload begins with every listed process recorded, none listed and the count right |
| `ProcMon.CProcGroup.ReloadKillGroup` | src/comm/tbase/tprocmon.cpp:425-449 | exactly the recorded processes still alive are signalled, with the signal given |
| `ProcMon.CProcGroup.ReloadCheckGroupDead` | src/comm/tbase/tprocmon.cpp:451-478 | true exactly when no recorded process is alive, and then the record is dropped |
| `ProcMon.CProcGroup.CheckReload` | src/comm/tbase/tprocmon.cpp:557-619 | the state machine of the reload: the condition of each transition, the time it leaves behind, how many processes are started, and exactly who is signalled on it and how hard |
| `ProcMon.CProcGroup.Shrink` | src/comm/tbase/tprocmon.cpp:950-985 | as many processes as asked for are signalled and taken out, and no other; the count goes down by as many if and only if none of them has a report of a fatal signal queued |
| `ProcMon.CProcGroup.CheckGroup` | src/comm/tbase/tprocmon.cpp:856-908 | the number to start and the shrinking bring the count to the nearer bound, or one step by load inside the bounds, at most once per delay and then at this time, if and only if no process taken out has a report of a fatal signal queued; else the count is left below |
| `ProcMon.CProcGroup.ProcDead` | src/comm/tbase/tprocmon.cpp:991-1039 | a process that does not outlive its exit signal leaves with its messages, the count going down once more for each queued report of a fatal signal; one that does changes nothing |
| `ProcMon.CProcGroup.CheckProc` | src/comm/tbase/tprocmon.cpp:909-930 | a process without a heartbeat leaves once it is gone, and the list is reported changed exactly then |
| `ProcMon.CProcGroup.ProcessException` | src/comm/tbase/tprocmon.cpp:321-349 | a listed process that reports a fatal signal leaves once it is gone, with the same miscount for further reports of it; an unlisted one, or a group at GROUP_UNUSED, changes nothing |
| `ProcMon.CProcGroup.CheckProcs` | src/comm/tbase/tprocmon.cpp:625-636 | the traversal that starts a bucket again after each removal ends; every process heard of in time stays, and of the others only those that outlive their exit signal; without queued reports of fatal signals the count stays as right as it was |
| `ProcMon.CProcGroup.DoCheck` | src/comm/tbase/tprocmon.cpp:543-641 | one round over a group: outside a reload no silent process that can be killed stays and none enters, as many are started as the count lacks, and the count is not above its target; in a reload exactly one transition is taken and the processes stay; it only adds to the history; without queued reports of fatal signals the count stays as right as it was; a group at GROUP_UNUSED is passed over |
| `ProcMon.Serve` | src/comm/tbase/tprocmon.cpp:245-249 | any run of reports, receives, checks and reloads one at a time, with the states it goes through: each event has its effect, the history obeys its rules, and curprocnum is the number of listed processes less the times it went down for an unlisted one; that is never, if fatal signals are not acted on or never reported under a process's own pid; at GROUP_UNUSED it stays until a reload |
| `ProcMon.Step` | src/comm/tbase/tprocmon.cpp:245-249 | one event: a report is queued, the queue is read to its end, the group is checked, or a reload begins with every listed process recorded |
| `ProcMon.Forgotten` | src/comm/tbase/tprocmon.cpp:1008-1013 | for all processes and all later events without a reload: the last process of a group falls silent with its report of a fatal signal queued, the count ends at GROUP_UNUSED, and no process is ever listed again |
| `IndexChain.Popped` | src/comm/tbase/tstat.cpp:569-577 | taking the head of a chain of table indices leaves the rest a chain |
| `IndexChain.Pushed` | src/comm/tbase/tstat.cpp:584-598 | putting an entry in front of a chain of table indices makes a longer one |
| `StatHash.HashOf` | src/comm/tbase/tstat.h:151-162 | the loop computes the 32-bit hash of the id, reduced to a bucket number |
| `StatTable.NewPool` | src/comm/tbase/tstat.cpp:616-633 | in a new pool every object is on the free chain |
| `StatTable.EnteredPool` | src/comm/tbase/tstat.cpp:538-598 | moving an object from the free chain to the front of its bucket keeps the chains a partition of the table and the value ranges disjoint |
| `StatStep.StepVisitsAll` | src/comm/tbase/tstat.cpp:361-391 | in a contiguous chain the early break visits every object of the id |
| `StatStep.ContiguousFront` | src/comm/tbase/tstat.cpp:584-598 | a new object keeps its chain contiguous if its id is new there or is the one in front |
| `StatRuns.LongIdScatters` | src/comm/tbase/tstat.cpp:26-36 | for every id of 64 characters and more and every other id of the bucket it is stored in: registering the one, the other and the first again leaves a chain that is not contiguous, and a step of the stored id reaches one of its two objects |
| `StatStep.GrownUntidy` | src/comm/tbase/tstat.cpp:584-598 | objects entering in front of a bucket that has the id further back leave its chain not contiguous |
| `StatStep.GrownSame` | src/comm/tbase/tstat.cpp:279-305 | what enters a pool becomes all of the new objects of its id and of no other |
| `StatStep.StepCounts` | src/comm/tbase/tstat.cpp:372-387 | every object stepped is counted once and no other object changes |
| `StatStep.StepValues` | src/comm/tbase/tstat.cpp:372-387 | every object stepped has its own value updated by its own policy once and no other value changes; what the updates come to is in StatValues.MeansMore |
| `StatStep.StepMeans` | src/comm/tbase/tstat.cpp:361-396 | a step by name counts and updates exactly the objects with that id, anywhere in the pool |
| `StatValues.MeansMore` | src/comm/tbase/tstat_policy.h:101-280 | each policy over any steps from zero: SET has the last value, MAX the largest of zero and all of them and MIN the smallest if one is negative and else the smallest since the last zero, where they fit in 32 bits, and SUM and the others the total in 32 bits; one more step keeps that |
| `StatValues.MinIsMinimum` | src/comm/tbase/tstat_policy.h:236-280 | MIN is the minimum of its values if and only if one is negative, none is zero or the last one is zero |
| `StatValues.HoldingMore` | src/comm/tbase/tstat.cpp:361-396 | a step of an id keeps, for every object in use and every index of it, that its value is what its policy makes of the steps of its id at that index, and its count the number of steps at its last index; under MIN there is one value for all indices and every step counts |
| `StatRuns.RegisterAndRun` | src/comm/tbase/tstat.cpp:307-341 | after an id is registered at an index, and after any later registrations that leave the index to it, the objects of that registration are all the objects of the id, with its policies and size, and the index names the first of them |
| `StatRuns.RegisterAll` | src/comm/tbase/tstat.cpp:279-305 | any registrations in a new pool leave contiguous chains and all values and counts at zero, and all find room if there is room for all |
| `StatRuns.StepAll` | src/comm/tbase/tstat.cpp:361-396 | any steps by name: where every index is in range, each value and each count is what the steps of its object come to |
| `StatRuns.Statistics` | src/comm/tbase/tstat.cpp:279-396 | a new pool, any registrations of ids under 64 characters and any steps by name: every value of every object is what its policy promises of the values stepped into it, as long as there was room and every index is in range |
| `StatRuns.OpIsStep0` | src/comm/tbase/tstat.cpp:343-396 | on two pools in the same state with the id registered, the step by index and the step by name give the same pool if it was registered for one policy, and at the last value index only then |
| `StatStep.OpMissesOthers` | src/comm/tbase/tstat.cpp:343-359 | when the id has more than one object, the two differ at the last value index |
| `StatPool.CTStat.constructor` | src/comm/tbase/tstat.cpp:616-633 | a new pool is empty and in order |
| `StatPool.CTStat.FindStatObj` | src/comm/tbase/tstat.cpp:488-523 | the first object of the id in its bucket, or none; the damaged-pool exit is never taken |
| `StatPool.CTStat.Enter` | src/comm/tbase/tstat.cpp:291-297 | one object leaves the free chain and heads its bucket with its id, policy and size; no other object changes |
| `StatPool.CTStat.EnterAll` | src/comm/tbase/tstat.cpp:287-302 | one object with the right policy and size per policy asked for, exactly when there is room for all of them; otherwise the process ends |
| `StatPool.CTStat.InitStatObj` | src/comm/tbase/tstat.cpp:279-305 | refused exactly when the id is present, ended exactly when there is no room, otherwise its objects enter; contiguous chains stay so if and only if nothing enters or the id as stored is new to its bucket or in front of it, which holds for ids under 64 characters |
| `StatPool.CTStat.InitStatObjFrame` | src/comm/tbase/tstat.cpp:307-341 | the same, and the index then names the first object of the id |
| `StatPool.CTStat.Step0` | src/comm/tbase/tstat.cpp:361-396 | the objects from the first of the id to the first of another are stepped once and nothing else changes, in particular no id, policy, size or place; on contiguous chains they are all the objects of the id; whether every value stepped is in the array, and what has been stepped before the first that is not |
| `StatPool.CTStat.Op` | src/comm/tbase/tstat.cpp:343-359 | the object an index names is stepped if the value is in the array, which is reported; any other index changes nothing |
| `EndToEnd.StripOfWire` | src/worker/defaultworker.cpp:666-668 | what the worker strips off is what the proxy appended |
| `EndToEnd.CDefaultProxy.SendTo` | src/comm/tbase/tshmcommu.cpp:847-874 | zero exactly when the payload is below the room left, and then the message is queued and the room is less by its frame |
| `EndToEnd.LoadIsImage` | src/comm/tbase/tshmcommu.cpp:210-335 | the room left in the queue is its size less the bytes of the requests in it |
| `EndToEnd.CDefaultProxy.Forward` | src/proxy/defaultproxy.cpp:670-721 | the packet with the connection's information at its end is queued exactly if it is for this group and there is room; its route, the other groups and the room decide its fate, and nothing else enters the queue |
| `EndToEnd.CDefaultProxy.RecvData` | src/proxy/defaultproxy.cpp:643-751 | the packets are consecutive slices from the start of the received bytes, each as long as the plugin measured, all but the last dealt with, and each queued, sent elsewhere, dropped or failed as its route and the room left by those before it decide; exactly those queued enter the queue, in order; and where the proxy stops, with what answer, is decided by the plugin's answers |
| `EndToEnd.CDefaultWorker.Poll` | src/worker/defaultworker.cpp:655-668 | the oldest request leaves the queue with the flow, payload and connection information it was sent with, and is processed exactly if it did not wait too long |
| `EndToEnd.Serve` | src/comm/tbase/tshmcommu.cpp:826-874 | over any run of a proxy and the workers of a group: each arrival is cut and queued as in RecvData and each poll takes the oldest request; what the workers received is, in order and unchanged, what the proxy queued for them, less what is still in the queue |
| `EndToEnd.NothingLost` | src/comm/tbase/tshmcommu.cpp:826-874 | over any run in which every answer is right, what was in the queue and what the proxy queued is what the workers received and what is left, in order |

## Left out

- Socket, epoll, fork, kill, flock, shmget and mmap calls: only their outcomes are modelled.
- Crashes in the middle of an operation, hardware memory ordering and corrupted shared memory beyond the checks of
  dequeue.
- Interleavings inside `sq_get`, and the signals `sq_put` sends to waiting readers: each call is one step.
- The clear of a ring while the other side is in the middle of a call: the step system has no clear, since no check of
  either side ever fails there.
- The pools of contexts and elements of the parallel handler, the growth of its receive buffer and the collection of
  idle parallel handlers.
- The order of callbacks to different plugins, their arguments, and callbacks that call back into the same handler.
- AsyncFrame.CAsyncFrame.HandleEncode: the answers of the plugin to one event are a finite list, and 0 when it runs out,
  because the source puts no bound on how long a plugin may go from state to state without starting an action.
- TimerUnit.CTimerUnit.CheckPending: callbacks attach objects to the pending list finitely often, because the source
  otherwise never ends.
- TimerUnit.CTimerUnit.TransforTimer: a list with objects transferred to itself is excluded, because the source then never
  ends (`TimerUnit.TransferToItself`).
- TimerUnit.CTimerUnit.CheckExpired: chains with a list of non-positive timeout are excluded, because callbacks can then
  keep the loop going (`TimerUnit.Endless`); with callbacks that leave the unit alone they are in
  `TimerUnit.CTimerUnit.CheckQuietly`.
- Poller.CPollerUnit.ProcessPollerEvents: the calls a callback makes are bounded by a number the caller gives, so that
  the 32-bit sequence number cannot go round within one batch.
- The monitor's other groups: the model is of one group, and the loop of do_check over groups only repeats it.
- StatPool.CTStat.Step0: the pool's arrays are sequence fields of the model, updated by index; a step over several ids
  repeats it for each; what a value index outside the array of values overwrites, which the source does not check, is not
  modelled here and in StatPool.CTStat.Op, only that it is outside.
- ShmQueue.ShmQueue.Get: once stale bytes taken for a message reached past the end of the ring, the bytes are no longer a
  queue of messages, and what is said of later calls is what holds on any bytes; a stale length of 2^31 or more is read
  as that large, not as negative.
- ProcMon.CProcGroup.Retire: the freed record is taken to read as it was.
- The locks, the mapping and the report output of the statistics pool; its averages.
- EndToEnd.CDefaultProxy.RecvData: the queue of one worker group is modelled, and of other groups whether they are
  known and what sending to them returns; the growing static buffer is not.
- EndToEnd.CDefaultWorker.Poll: whether a request waited too long is an argument; the answer path back to the client
  is not modelled.
- Sessions and client units of src/async, configuration, logging, routing, monitoring macros, tools and scripts: plumbing
  and output, or easy members.
