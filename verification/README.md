# Segue's message fabric, verified

Segue runs on small robots. Its drivers and controllers exchange messages through deduplicating work
queues, a publish/subscribe router inside a machine, and a centralized router on the master of an RF24
radio network. This project models that fabric in Dafny and proves what it keeps.

`dafny verify dfyconfig.toml` checks everything.

## What is modelled

| modules | part of the system |
|---|---|
| `WorkQueue`, `QueueWorkers` | the work queue as a class, all runs of its calls, and any number of producers and workers under its condition variable |
| `MessageRouting`, `FanOut` | the machine's publish/subscribe router as a class over queue objects, and all runs of publishers, listeners, subscribers and consumers |
| `CentralRouting`, `CentralRuns` | the master's router with its node table and route table, as a class and over all runs |
| `MasterNode`, `MasterRuns`, `ChildWorker` | discovery by heartbeat, eviction of silent nodes, and the pause/unpause/stop handshake with the worker of a child |
| `Framing`, `ReceiveBuffer`, `RadioPath`, `Cobs` | cutting the radio's byte stream at 0x00, the receive buffer as a slice on arrays, and the path from payloads to the message channel |
| `Decimal`, `Lirc`, `ReplyData` | the reader of lircd's socket, and the array its replies share |
| `MachineLife`, `MachineLeaving`, `StatusRing` | starting and stopping components, leaving the daemon, and the status log |

Objects that the program updates in place are classes, and their methods are proved against functions
on values. Properties of runs are stated over those functions: a run is any sequence of events, and an
event that is not enabled leaves the state as it is, so every interleaving is a run.

## Where code and documentation differ

- The package comment of the queue promises that a message is not processed several times concurrently
  and only once per batch of Adds (`common/message/queue.go:4-8`), but `Done` clears the dirty mark
  before it appends the message again (`common/message/queue.go:93`). Both are modelled.
  `QueueWorkers.MarkKeptIsStingy` proves the promise for a `Done` that keeps the mark;
  `QueueWorkers.WrittenIsStingyIff` proves exactly which runs of the code as written keep it, and
  `QueueWorkers.CyclesLeaveCopies` shows by how much the others miss it.
- `MachineLeave` is meant to stop every component, but each stop deletes from the array that the loop
  is reading. `MachineLeaving.RangeLiveOkIff` says exactly when this works and what is left otherwise.
- A stop gives back every route list, but not the route map: an empty list stays behind where there was
  no entry, as the note at `common/message/message.go:247` says.
- A heartbeat is meant to wake a paused worker, but one that arrives between a failed send and its pause
  is lost: `ChildWorker.UnpauseBeforePauseIsLost`; `ChildWorker.UnpauseIsNotLost` says that this is the
  only case.
- A LIRC reply that has been delivered shares its array with the next one:
  `ReplyData.NextPacketShowsThrough`. The frames of the radio hook share arrays too, but none of them
  is ever overwritten: `ReceiveBuffer.Hook.Receive`.

## Assumptions

- A message is its identifier and an abstract payload. Identifiers of components are unique across
  drivers and controllers, and across the master and its children. What the latter buys is exact: the
  tables of master and router come apart precisely when a tick evicts the master's own entry
  (`MasterRuns.CoupledIffMasterStays`), which unique identifiers prevent.
- Creating, starting and stopping a component succeeds, and stopping shuts its receive queue. No
  listener step falls between the subscription calls of one start, because a queue that is not empty is
  refused (`common/message/message.go:216-218`).
- A critical section is one step. For the work queue the steps are passes of the loops in its methods;
  for the child's worker they are single lock operations and reads. A router call, a forwarded message,
  a heartbeat and a tick of a sweeper are one step each.
- Which goroutine a signal wakes, the order in which a map is visited, how far the radio fills a read,
  how much room an append adds, what the clock shows and whether a send succeeds are parameters or
  nondeterministic choices.

## Model

| member | source | states |
|---|---|---|
| `WorkQueue.Queue.Add` | common/message/queue.go:47-64 | an Add is dropped after shutdown or while the ID is dirty, only marked while it is processed, and otherwise appended, with exactly one waiter woken in that case |
| `WorkQueue.Queue.Get` | common/message/queue.go:66-84 | one pass of Get blocks exactly when the queue is empty and open, reports shutdown exactly when it is empty and shut, and otherwise returns the oldest message and moves its ID from dirty to processing; the waiter lists change accordingly |
| `WorkQueue.Queue.Done` | common/message/queue.go:86-96 | the ID leaves both marks, and the message given to Done is appended, waking one waiter, exactly when the ID was dirty |
| `WorkQueue.Queue.ShutDown` | common/message/queue.go:98-104 | nothing but the flag changes, and nobody stays on the wait list |
| `WorkQueue.FifoRefinement` | common/message/queue.go:1-3 | fairness in every run: the messages returned so far followed by the queue are the messages appended so far, in order |
| `WorkQueue.DistinctAddsKeepOrder` | common/message/queue.go:47-96 | when the IDs accepted before shutdown are pairwise distinct, nothing accepted is dropped, repeated or reordered in any run |
| `WorkQueue.DirtyCoveredAlways` | common/message/queue.go:47-96 | in every run a dirty ID is queued or being processed |
| `WorkQueue.NoAddForgotten` | common/message/queue.go:47-96 | after every Add accepted before shutdown, coalesced or not, a later Get has returned its ID, or it is queued, or it is both dirty and being processed |
| `QueueWorkers.NoLostWakeup` | common/message/queue.go:63-73 | in every interleaving of any number of producers and workers, while some worker waits, no more messages are queued than woken workers are on their way |
| `QueueWorkers.QueuedMessageHasAwakeConsumer` | common/message/queue.go:66-104 | a queued message never leaves every worker asleep: some woken worker's next pass takes one; after shutdown nobody waits |
| `QueueWorkers.MarkKeptIsStingy` | common/message/queue.go:4-8 | with the dirty mark kept by Done, every reachable state has distinct queued IDs, no ID held by two workers, and queued IDs equal to dirty minus processing |
| `QueueWorkers.WrittenIsStingyIff` | common/message/queue.go:86-96 | Done as written keeps distinct queued IDs and single holders in exactly the runs in which no Add appends an ID that is still queued |
| `QueueWorkers.CyclesLeaveCopies` | common/message/queue.go:93-94 | Done as written: the cycle Add, Get, Add, Done on one ID, n times from an empty queue, leaves n copies queued |
| `QueueWorkers.CyclesLeaveOneWhenKept` | common/message/queue.go:4-8 | with the mark kept, any positive number of such cycles leaves one copy |
| `QueueWorkers.AllExitedMeansDrained` | common/message/message.go:178-198 | Done as written: when all of any positive number of workers have left, the queue, the dirty set and the processing set are empty, whatever the interleaving |
| `QueueWorkers.DrainIsBounded` | common/messagerouter/messagerouter.go:161-178 | after shutdown at most queued plus dirty further messages are taken, and workers that do something have a bounded number of turns left |
| `QueueWorkers.DrainNeverStuck` | common/message/queue.go:66-104 | after shutdown, as long as not every worker has left, some worker can do something |
| `MessageRouting.SubscribedDistinct` | common/message/message.go:219-226 | subscribing keeps the IDs of a route list distinct and never lets in another queue than the one given |
| `MessageRouting.UnsubscribedDistinct` | common/message/message.go:239-250 | with distinct IDs, removing an ID leaves exactly the other entries, still distinct |
| `MessageRouting.MessageRouter.AddSubscriberQueue` | common/message/message.go:205-229 | accepted exactly for a known type name and an open, empty queue; then the type's list of queue objects is the old one, with the given queue at its end unless its ID is there already, no other list changes, and the routes that the runs speak of change the same way |
| `MessageRouting.MessageRouter.RemoveSubscriberQueue` | common/message/message.go:233-252 | refused exactly for an unknown type name or when an entry of that ID is still open; otherwise the type's list of queue objects is the old one without the first entry of that ID, no other list changes, and the routes that the runs speak of change the same way |
| `MessageRouting.MessageRouter.Forward` | common/message/message.go:186-195 | every subscriber of the type gets the message added once, except those with the source's ID, which do not change |
| `MessageRouting.MessageRouter.ListenOnce` | common/message/message.go:178-198 | one pass takes the oldest message of the send queue, offers it to the current subscribers without echo, marks it done, and touches no other subscriber |
| `FanOut.OfferedExactlyOnce` | common/message/message.go:186-195 | over a list with distinct IDs the listener's loop offers the message exactly once to every subscriber with another ID and to no other queue of the network |
| `FanOut.NoEchoAlways` | common/message/message.go:176-252 | in every run of publishes, subscriptions, removals and shutdowns each type's IDs stay distinct and the next listener step changes exactly the subscribers with another ID |
| `FanOut.SubscribeEffect` | common/message/message.go:205-229 | in a network an open, empty receive queue under a known name is on the type's list afterwards, at its end, unless its ID was there; a closed or non-empty one changes nothing |
| `FanOut.UnsubscribeEffect` | common/message/message.go:233-252 | an ID leaves exactly the named type's list, unless its entry there is still open, and then nothing changes |
| `FanOut.QueuesRunOnTheirOwn` | common/message/message.go:176-252 | over every run each queue goes through a run of the work queue's own calls: the Adds of publishers and listeners, the Get and Done of each listener's pass and each consumer, and the shutdown |
| `FanOut.HandedOverStep` | common/message/message.go:178-198 | one step of anybody hands an open subscriber exactly those messages of a publisher that the listener took in this step |
| `FanOut.SubscriberSeesPublishOrder` | common/message/message.go:176-252 | while a subscriber stays subscribed and open, the messages of the type that reach it from a publisher are exactly those taken from that publisher since, in order |
| `FanOut.PublishOrderInEveryRun` | common/message/message.go:176-252 | from an empty network, with IDs never reused: publish order end to end, and at every queue what was accepted is what was taken followed by what is queued, without repetition |
| `FanOut.PublishedMessageArrives` | common/message/message.go:178-198 | a fresh message published on an open send queue is taken by every open subscriber of its type once the listener has made as many passes, and the subscriber as many Gets, as messages were waiting |
| `CentralRouting.AddRoutesAgree` | common/messagerouter/messagerouter.go:71-88 | adding routes keeps every route entry equal to the node table's entry and leaves the node table alone |
| `CentralRouting.AddRoutesExact` | common/messagerouter/messagerouter.go:71-88 | after adding routes for a list of types the node is routed for exactly these types besides its earlier ones, and no other node's routes change |
| `CentralRouting.RemoveNodeAgree` | common/messagerouter/messagerouter.go:120-145 | after a removal the tables still agree, the node is in no route set, and all other entries are as before |
| `CentralRouting.RemoveRoutes` | common/messagerouter/messagerouter.go:129-137 | the loop over all message types takes the node out of every route set, in whatever order it visits them |
| `CentralRouting.CentralizedMessageRouter.AddRoute` | common/messagerouter/messagerouter.go:71-88 | a route to an unknown node is refused and changes nothing; otherwise the tables change as specified and still agree |
| `CentralRouting.CentralizedMessageRouter.AddNode` | common/messagerouter/messagerouter.go:98-117 | a known ID gets its existing queues, a new one gets two fresh, empty, open queues |
| `CentralRouting.CentralizedMessageRouter.RemoveNode` | common/messagerouter/messagerouter.go:120-145 | a known node leaves both tables and both its queues are shut, an unknown one is reported and nothing changes |
| `CentralRouting.CentralizedMessageRouter.Stop` | common/messagerouter/messagerouter.go:63-67 | although the loop deletes from the table it ranges over, in any order it ends with no nodes, only empty route sets and all queues shut |
| `CentralRouting.OfferAll` | common/messagerouter/messagerouter.go:172-174 | every node of the set gets the message added exactly once, in whatever order the set is visited |
| `CentralRouting.CentralizedMessageRouter.Forward` | common/messagerouter/messagerouter.go:170-175 | the send queues of all nodes routed for the type, and of no other, get the message; a type without routes changes nothing |
| `CentralRouting.CentralizedMessageRouter.WorkerPass` | common/messagerouter/messagerouter.go:161-178 | one pass of a worker, also of a removed node, takes the oldest message, offers it to exactly the nodes then routed for its type, source included, and marks it done |
| `CentralRuns.TablesAgreeAlways` | common/messagerouter/messagerouter.go:63-145 | in every reachable state each route entry is the node table's entry for its ID, and a node's queues are open exactly while it is in the table |
| `CentralRuns.EmptyRouterInv` | common/messagerouter/messagerouter.go:51-60 | a new router satisfies what all runs keep |
| `CentralRuns.AddNodeEffect` | common/messagerouter/messagerouter.go:98-117 | a new ID gets an object that was never used, with two open, empty queues, and a known one changes nothing |
| `CentralRuns.AddRouteEffect` | common/messagerouter/messagerouter.go:71-88 | a route to a known node is there afterwards, no other type's routes change, and one to an unknown node changes nothing |
| `CentralRuns.RemoveNodeEffect` | common/messagerouter/messagerouter.go:120-145 | a removal takes the ID out of the nodes and out of every type's routes, and nothing else |
| `CentralRuns.QueuesRunOnTheirOwn` | common/messagerouter/messagerouter.go:63-178 | over every run each receive and send queue goes through a run of the work queue's own calls: the Adds of senders and forwards, the Get and Done of each forward and each consumer, and the shutdown |
| `CentralRuns.ForwardReachesExactlyTheRouted` | common/messagerouter/messagerouter.go:158-178 | a node's send queue accepts the forwarded message if the node is then routed for its type, and is unchanged otherwise |
| `CentralRuns.ForwardsReach` | common/messagerouter/messagerouter.go:161-178 | as many passes of a worker as messages are queued empty a receive queue, and each message reaches every node routed for its type |
| `CentralRuns.EnqueuedMessageArrives` | common/messagerouter/messagerouter.go:161-178 | a message put on the open receive queue of a node reaches every node routed for its type |
| `CentralRuns.ReceivedIsForwardedOrQueued` | common/messagerouter/messagerouter.go:161-178 | while a receive queue accepts no identifier twice, what it has accepted is what was forwarded from it, in order, followed by what is queued |
| `CentralRuns.RemovedNodeGetsNothing` | common/messagerouter/messagerouter.go:120-178 | after a removal no message is ever accepted by the node's old queues, whatever happens later, even if its ID is added again |
| `CentralRuns.StopClearsEverything` | common/messagerouter/messagerouter.go:63-67 | after Stop no node is left, every route set is empty and every queue ever created is shut |
| `MasterNode.GraceExactIff` | plugins/rf24networknode/rf24networknodebackend/master.go:197 | the int64 nanosecond product is three intervals exactly for intervals up to 3074457345 seconds |
| `MasterNode.BeatCoupled` | plugins/rf24networknode/rf24networknodebackend/master.go:136-173 | a heartbeat with another ID, new or known, keeps router nodes equal to the children plus the master, each child holding the router's queues for its ID, and the master no child of its own |
| `MasterNode.BeatTablesCoupled` | plugins/rf24networknode/rf24networknodebackend/master.go:136-173 | even a heartbeat with the master's own ID keeps router nodes and queues in step with the children |
| `MasterNode.BeatRoutes` | plugins/rf24networknode/rf24networknodebackend/master.go:144-163 | a heartbeat that discovers a node routes it, with its own queues, for exactly the types it subscribes to besides earlier ones, and changes no other ID's routes |
| `MasterNode.SweptCoupledIff` | plugins/rf24networknode/rf24networknodebackend/master.go:187-211 | a sweep keeps the tables coupled if and only if the master is not among those it evicts |
| `MasterNode.SweptExactly` | plugins/rf24networknode/rf24networknodebackend/master.go:193-211 | a sweep keeps exactly the children whose deadline has not passed, unchanged, and removes the others from the node table and every route set, also when the master is among its own children |
| `MasterNode.CleanupIsRemoval` | plugins/rf24networknode/rf24networknodebackend/master.go:187-211 | cleaning up the listed nodes one after the other is the same as removing them all at once |
| `MasterNode.CleanupNeverMisses` | plugins/rf24networknode/rf24networknodebackend/master.go:187-192 | when its turn comes each listed ID is still a child and still a router node, so no missing child is looked up, not even when the master's own ID is on the list |
| `MasterNode.Master.HeartbeatHandler` | plugins/rf24networknode/rf24networknodebackend/master.go:136-173 | a known child gets the new timestamp, is unpaused and keeps its routes; a new one is a router node with its 16-bit address, its interval, fresh queues that are empty and open, and one worker started, and is routed for exactly the types it subscribes to, no other ID's routes changing |
| `MasterNode.Master.FindStaleNodes` | plugins/rf24networknode/rf24networknodebackend/master.go:193-205 | the list holds exactly the children past their deadline, each once |
| `MasterNode.Master.CleanupNode` | plugins/rf24networknode/rf24networknodebackend/master.go:187-192 | one node leaves router and master, its queues are shut and its worker is unpaused; queues shut earlier in the sweep stay shut |
| `MasterNode.Master.RemoveStaleRoutes` | plugins/rf24networknode/rf24networknodebackend/master.go:186-212 | one tick, done object by object, equals the specified sweep; both queues of every node it removes are shut and the child is unpaused; it touches no queue and no child of an ID that is not stale |
| `MasterRuns.TickIsSweep` | plugins/rf24networknode/rf24networknodebackend/master.go:207-212 | in runs, removing the stale nodes from the router one by one in any order equals the specified sweep |
| `MasterRuns.CoupledAlways` | plugins/rf24networknode/rf24networknodebackend/master.go:136-215 | over every run of heartbeats, ticks, pauses and traffic with unique IDs, master and router stay coupled |
| `MasterRuns.CoupledIffMasterStays` | plugins/rf24networknode/rf24networknodebackend/master.go:136-215 | through a whole run router nodes, children and queues stay coupled if and only if no tick of it evicts the master's own entry |
| `MasterRuns.UniqueIdsKeepMaster` | plugins/rf24networknode/rf24networknode.go:35 | with IDs unique across master and children no tick ever evicts the master |
| `MasterRuns.OwnHeartbeatThenLateTick` | plugins/rf24networknode/rf24networknodebackend/master.go:144-211 | one heartbeat with the master's ID and one tick late enough: the router has lost the master's node and the tables are apart |
| `MasterRuns.MasterQueuesStayOpen` | plugins/rf24networknode/rf24networknodebackend/master.go:50-52 | in every run in which no tick evicts the master, the queues it was given at its start are the router's for its ID and open |
| `MasterRuns.ChildrenOpenAndWorkersUnique` | plugins/rf24networknode/rf24networknodebackend/master.go:146-192 | in every reachable state each child's queues are the router's and open, and of all workers ever started for one ID at most one has an open send queue |
| `MasterRuns.ChildIsRoutedForItsTypes` | plugins/rf24networknode/rf24networknodebackend/master.go:144-163 | from its discovery on, as long as it stays a child, a node is routed for exactly the types of the heartbeat that discovered it, through heartbeats, discoveries and evictions of others, and traffic |
| `MasterRuns.SubscriberIsOffered` | common/messagerouter/messagerouter.go:161-178 | a message of one of these types that a worker takes from any receive queue is put on the child's send queue |
| `MasterRuns.RegularChildIsKept` | plugins/rf24networknode/rf24networknodebackend/master.go:168-211 | a child whose processed heartbeats are at most three intervals apart is never removed meanwhile and keeps its queues |
| `MasterRuns.SilentChildIsRemoved` | plugins/rf24networknode/rf24networknodebackend/master.go:193-211 | a tick removes a child, its node and all its routes exactly when it is later than the last heartbeat plus three intervals |
| `MasterRuns.SilentChildStaysGone` | plugins/rf24networknode/rf24networknodebackend/master.go:179-215 | without further heartbeats the child and its routes are gone from the first such tick on, to the end of the run |
| `ChildWorker.NeverSleepsAfterStop` | plugins/rf24networknode/rf24networknodebackend/master.go:230-287 | once the send queue is shut and stop() has run, the worker neither sleeps nor decides to, in any continuation |
| `ChildWorker.StoppedWorkerExits` | plugins/rf24networknode/rf24networknodebackend/master.go:230-287 | from any reachable state after stop() the worker exits within nine of its own turns, whatever the others do |
| `ChildWorker.ExitsAfterStop` | plugins/rf24networknode/rf24networknodebackend/master.go:283-287 | a stop() that gets the lock after the shutdown takes effect at once: the worker exits within nine of its own turns |
| `ChildWorker.LockIsGivenBack` | plugins/rf24networknode/rf24networknodebackend/master.go:234-239 | nobody waits for that lock longer than three turns of the worker |
| `ChildWorker.AtMostOneMoreSend` | plugins/rf24networknode/rf24networknodebackend/master.go:241-264 | after the shutdown of its send queue a worker performs at most one more send, with or without stop() |
| `ChildWorker.ShutDownAloneIsNotEnough` | plugins/rf24networknode/rf24networknodebackend/master.go:283-287 | a worker that has decided to sleep stays there through any run without an unpause or stop() |
| `ChildWorker.SleepRacesWithShutDown` | plugins/rf24networknode/rf24networknodebackend/master.go:234-239 | a state in which the worker is about to sleep although its queue is shut is reachable, so stop() has to unpause |
| `ChildWorker.SleepsOnlyWhilePaused` | plugins/rf24networknode/rf24networknodebackend/master.go:234-239 | in every run the worker sleeps, or is about to, only while it is paused |
| `ChildWorker.UnpauseIsNotLost` | plugins/rf24networknode/rf24networknodebackend/master.go:268-281 | an unpause leaves the worker awake in every run, and afterwards it is paused or asleep only if a later send fails, or if a send had failed before and its pause was still to come |
| `ChildWorker.UnpauseBeforePauseIsLost` | plugins/rf24networknode/rf24networknodebackend/master.go:258-263 | in that one case the heartbeat is lost: between a failed send and its pause, the pause comes after it |
| `ChildWorker.AboutToPauseIff` | plugins/rf24networknode/rf24networknodebackend/master.go:258-263 | in every run the worker is about to pause exactly when a send has just failed |
| `ChildWorker.PausedIff` | plugins/rf24networknode/rf24networknodebackend/master.go:258-287 | in every run the worker is paused exactly when it has paused after a failed send and neither a heartbeat nor stop() has got the lock since |
| `ChildWorker.SuccessfulSendDoesNotPause` | plugins/rf24networknode/rf24networknodebackend/master.go:258-264 | after a send that succeeds the worker goes on to Done, paused or not as before |
| `ChildWorker.PausedWorkerDoesNotSend` | plugins/rf24networknode/rf24networknodebackend/master.go:234-259 | in every run a paused worker is neither sending nor getting something to send |
| `ChildWorker.QueuedMessageIsSent` | plugins/rf24networknode/rf24networknodebackend/master.go:230-266 | from any reachable state with an open queue, a queued message, no pause and none coming, the worker performs a send within seven of its own turns, whatever the others do short of the shutdown |
| `ChildWorker.SentInOrder` | plugins/rf24networknode/rf24networknodebackend/master.go:251-264 | in every run the messages sent, the one in hand and those queued are the messages put on the send queue, in order |
| `ChildWorker.OnlyInHandIsProcessed` | plugins/rf24networknode/rf24networknodebackend/master.go:251-264 | exactly the identifier of the message in hand is being processed, so every Get is followed by its Done |
| `Framing.SplitUnique` | plugins/rf24networknode/rf24networknodebackend/rfhook.go:67-86 | a byte stream has only one division into frames with their only zero at the end and a zero-free rest |
| `Framing.SplitJoin` | plugins/rf24networknode/rf24networknodebackend/rfhook.go:67-86 | splitting what follows together with an earlier rest continues the split of the whole stream |
| `ReceiveBuffer.Hook.Receive` | plugins/rf24networknode/rf24networknodebackend/rfhook.go:55-86 | one read hands over exactly the frames of the old rest followed by the new bytes and keeps the new rest, although only the new bytes are scanned; all frames handed over earlier still read the same |
| `ReceiveBuffer.Hook.Append` | plugins/rf24networknode/rf24networknodebackend/rfhook.go:68 | an append extends the buffer, in place or in a wider array, without changing any byte of a frame handed over |
| `ReceiveBuffer.Hook.ExtractFrames` | plugins/rf24networknode/rf24networknodebackend/rfhook.go:69-77 | scanning from the end of the old rest finds all frame ends of the buffer |
| `ReceiveBuffer.ReceiveAll` | plugins/rf24networknode/rf24networknodebackend/rfhook.go:55-86 | chunking independence: for every sequence of reads, and any growth of the buffer at each of them, the frames and the rest are the unique split of all bytes received |
| `RadioPath.OneLoopKeepsOrder` | plugins/rf24networknode/rf24networknodebackend/rfhook.go:55-142 | for any codec that keeps the stuffing contract and any cutting of the stream, one frame loop delivers the payloads in order: delivered, in hand and pending make up the list at every moment |
| `RadioPath.ManyLoopsPermute` | plugins/rf24networknode/rf24networknodebackend/master.go:68-72 | with any number of frame loops delivered, in hand and pending together are the payloads as a multiset at every moment |
| `RadioPath.AtRestAllDelivered` | plugins/rf24networknode/rf24networknodebackend/rfhook.go:55-142 | a run that has come to rest has delivered every payload, and in order when there is one loop |
| `RadioPath.SomethingMovesIff` | plugins/rf24networknode/rf24networknodebackend/rfhook.go:71-77 | some read, push, take or delivery changes the pipe if and only if bytes, pending frames or held frames are left, in spite of the bounded frame channel |
| `RadioPath.ChannelHoldsTen` | plugins/rf24networknode/rf24networknodebackend/rf24networknodebackend.go:13 | the receiver can hand over a frame exactly while fewer than ten wait, and reads nothing before it has handed over all |
| `RadioPath.ReadTakesUpToBuffer` | plugins/rf24networknode/rf24networknodebackend/rf24networknodebackend.go:12 | a read takes up to 1024 bytes off the wire |
| `RadioPath.MovesAreBounded` | plugins/rf24networknode/rf24networknodebackend/rfhook.go:55-142 | in no run do more steps change anything than there are bytes, and three more per payload, so every run that goes on moving comes to rest |
| `RadioPath.TwoLoopsCanReorder` | plugins/rf24networknode/rf24networknodebackend/master.go:68-72 | with two frame loops some run delivers two payloads in the opposite order |
| `Cobs.CobsMeetsContract` | plugins/rf24networknode/rf24networknodebackend/rfhook.go:101-102 | a concrete byte-stuffing codec keeps the contract for every payload, so the contract can be met |
| `Lirc.ReadLines` | pkg/controllers/lircbackend/lirc.go:80-172 | the loop over lines reaches the state and sends the output that feeding them to the state machine gives |
| `Lirc.ReadItem` | pkg/controllers/lircbackend/lirc.go:83-171 | from RECEIVE, with any leftovers of earlier packets, reading one printed item sends exactly its meaning and returns to RECEIVE |
| `Lirc.RoundTrip` | pkg/controllers/lircbackend/lirc.go:64-172 | for every sequence of well-formed reply packets and broadcasts, data lines arbitrary, reading what was printed gives the same replies and events in order |
| `Lirc.EveryReplyConsistent` | pkg/controllers/lircbackend/lirc.go:146-170 | on any input whatever, each reply sent has exactly as many data lines as its length field says |
| `Lirc.CrashesIff` | pkg/controllers/lircbackend/lirc.go:88-112 | the reader fails with an index out of range if and only if some line that it reads in RECEIVE has a code of sixteen hex digits and fewer than four fields |
| `Lirc.BroadcastIsSent` | pkg/controllers/lircbackend/lirc.go:88-113 | after any lines, a line read in RECEIVE with a code and at least three more fields sends exactly one key press, of the third and fourth field, with its count as read, which is the number it prints and zero if it is none, and the reader stays in RECEIVE |
| `Lirc.OtherLineIsIgnored` | pkg/controllers/lircbackend/lirc.go:88-97 | any other line read in RECEIVE than BEGIN and a broadcast changes nothing |
| `Lirc.MisplacedLineEndsPacket` | pkg/controllers/lircbackend/lirc.go:132-170 | an invalid status, data start, length or end sends nothing and returns to RECEIVE |
| `Lirc.ReplyIsSentIff` | pkg/controllers/lircbackend/lirc.go:121-170 | a reply is sent exactly at an END line where a packet can end, on any input |
| `Lirc.CodesAre` | pkg/controllers/lircbackend/lirc.go:89-97 | a code is sixteen hex digits of either case |
| `Lirc.StuckInData` | pkg/controllers/lircbackend/lirc.go:156-163 | with a declared length of zero or less every further line is swallowed and nothing but the counter changes |
| `Lirc.DataBlockEndsIff` | pkg/controllers/lircbackend/lirc.go:146-163 | some continuation leads out of a DATA block if and only if its declared length is at least one |
| `Decimal.AtoiOfItoa` | pkg/controllers/lircbackend/lirc.go:149 | parsing a printed length or repeat count gives it back, up to the largest int64 |
| `Decimal.AtoiSigned` | pkg/controllers/lircbackend/lirc.go:106 | signs are read, and a number out of range gives the nearest int64 and an error |
| `Decimal.AtoiOfOther` | pkg/controllers/lircbackend/lirc.go:106 | text that is no number gives zero and an error |
| `Decimal.AtoiLeadingZero` | pkg/controllers/lircbackend/lirc.go:106 | leading zeros do not matter |
| `Decimal.FieldsOfJoin` | pkg/controllers/lircbackend/lirc.go:88 | splitting at a space undoes joining a space-free field to the rest |
| `ReplyData.LineSlice.Refill` | pkg/controllers/lircbackend/lirc.go:119-159 | the slice holds exactly the new packet's lines, and the earlier array has them laid over its old content as far as it reaches |
| `ReplyData.NextPacketShowsThrough` | pkg/controllers/lircbackend/lirc.go:119-167 | after any history, and any growth of the array, a delivered reply reads as the next packet's lines laid over its own once that packet has been read |
| `ReplyData.LaterPacketsShowThrough` | pkg/controllers/lircbackend/lirc.go:119-167 | after any number of later packets it reads as all of them laid over it in turn, or as those up to one that was longer than the reply and got an array of its own |
| `ReplyData.OverKeepsIff` | pkg/controllers/lircbackend/lirc.go:119 | so it survives if and only if the next packet repeats its lines as far as both go |
| `StatusRing.HoldsMore` | pkg/machine/machine.go:66-82 | logging keeps the ring equal to the last min(count, capacity) entries, newest at the last index |
| `StatusRing.MachineStatus.AddStatusLog` | pkg/machine/machine.go:75-82 | the invariant holds for the log extended by the entry, for any capacity of at least one |
| `StatusRing.MachineStatus.LastIndex` | pkg/machine/machine.go:58-64 | it names the newest entry and is in range whenever anything has been logged |
| `StatusRing.MachineStatus.Latest` | pkg/machine/machine.go:84-94 | the newest entry is found exactly when something has been logged |
| `StatusRing.MachineStatus.DumpLog` | pkg/machine/machine.go:96-116 | the dump ends after exactly as many places as the capacity and lists the last entries newest first |
| `MachineLife.MachineObject.StartComponent` | pkg/machine/machine.go:287-316 | refused, without a change, exactly when its type runs or its adaptor is missing; otherwise it is listed last, and the start succeeds exactly if its subscriptions are known names |
| `MachineLife.MachineObject.StartComponents` | pkg/machine/machine.go:282-327 | on success the configurations running are the old ones followed by the whole batch, in order; on an error by a part of it, and the next one was refused or the last one names an unknown type; the other list and the adaptors stay; an empty batch is an error |
| `MachineLife.MachineObject.StopComponent` | pkg/machine/machine.go:340-365 | without a match, by type and ID for a driver and by ID for a controller, it is refused and nothing changes; otherwise the first match is shut and, unless a route is in the way, deleted from its list, and nothing else leaves a list |
| `MachineLife.StartEffect` | pkg/machine/machine.go:282-327 | the same of the specification, for every batch: worked through in order up to the first error |
| `MachineLife.StopIsStopped` | pkg/machine/machine.go:340-365 | the same of the specification, for every stop |
| `MachineLife.SubscribeAllEffect` | pkg/machine/machine.go:306-315 | the queue joins the lists of exactly the types named, once, however often they are named |
| `MachineLife.UnsubscribeAllEffect` | pkg/machine/machine.go:460-467 | the ID leaves the lists of exactly the types named, however often they are named, and no removal is refused |
| `MachineLife.StartOneAgrees` | pkg/machine/machine.go:398-437 | a start keeps lists and routes in agreement, and an error changes nothing |
| `MachineLife.StopAgrees` | pkg/machine/machine.go:450-475 | a stop keeps them in agreement and succeeds exactly when a component matches |
| `MachineLife.StopRestoresRoutes` | pkg/machine/machine.go:340-365 | the smallest case: a component stopped right after its start leaves both component lists and every route list as they were |
| `MachineLife.StoppingRestoresIff` | pkg/machine/machine.go:282-475 | stopping what was started restores: after any run of batches of starts, stops in any order, failed calls and attachments that stops nothing of what ran before, both component lists and every route list are the previous ones if and only if nothing started since still runs |
| `MachineLife.ListsAndRoutesAgree` | pkg/machine/machine.go:282-475 | over every run of starts, stops and attachments each route list is exactly the queues of the running subscribers in start order, types distinct within each list, IDs distinct across both |
| `MachineLeaving.Slice.StopOne` | pkg/machine/machine.go:342-364 | the entry is deleted by shifting the later ones down in the same array; without a match nothing changes |
| `MachineLeaving.Slice.StopAllRanging` | daemon/daemon/machine.go:111-117 | the loop in place computes what ranging over a mutated array is specified to do |
| `MachineLeaving.RangeLiveOkIff` | daemon/daemon/machine.go:111-133 | for any list, alike entries included, ranging over it while each stop deletes from it ends without error if and only if every entry at an odd place equals the last one; it leaves the entries at odd places less those that equal the last, and for different entries in their order; for different entries it ends without error if and only if there are at most two |
| `MachineLeaving.DistinctStoppableIff` | daemon/daemon/machine.go:111-133 | with different entries all three lists can be stopped in place if and only if none has more than two |
| `MachineLeaving.RangeCopyAlwaysEmpties` | daemon/daemon/machine.go:111-117 | ranging over a copy would stop everything, for any list |
| `MachineLeaving.Daemon.MachineLeave` | daemon/daemon/machine.go:102-142 | it succeeds if and only if the machine exists and in each list the entries at odd places equal the last one; then nothing is left and the machine is gone; otherwise what remains in each list, and that the machine stays |
| `MachineLeaving.Daemon.MachineJoin` | daemon/daemon/machine.go:77-98 | a known ID or a missing directory is refused; a machine without an ID is accepted but not kept |

## Left out

- gRPC, the HTTP daemon, its client, the command line and the terminal clients: plumbing.
- Protobuf and the message format converters: a payload is an abstract value or a list of bytes.
- The COBS library is not part of this model; `RadioPath` asks only for its contract, and `Cobs` is this project's own codec that meets it.
- gobot drivers and adaptors, motors, sensors and the RF24 hardware calls.
- The process watcher, and snapshot and restore: files, processes, and the snapshot calls around start, stop and leave.
- The code field of a LIRC event: it is built with `&=` from zero (`pkg/controllers/lircbackend/lirc.go:102`), so it is always zero.
- Data races outside locks, such as `AddSubscriberQueue` changing a list that a listener reads: a call is one step.
- Master.Stop and the kill channel, and the copying loops `sender` and `messageHandler`: runs of the master are those before Stop.
- Loss and truncation on the radio: what is written arrives as a stream of bytes, and a payload's length is not cut to 16 bits.
- The scanner's limit on the length of a line, and the closing of the socket.
- Errors of `NewDriver`, `NewController`, `Start`, `Stop` and `Detach`.
- MachineLife.ListsAndRoutesAgree: the component lists are sequences that are replaced, so their shared arrays are visible only in `MachineLeaving`; a start is asked for unused IDs and known type names.
- Lirc.RoundTrip: the replies are values; what later packets do to the array of a delivered reply is stated in `ReplyData`.
- Lirc.StuckInData: the line counter is an unbounded integer.
- ReceiveBuffer.Hook.Receive: the frame channel never blocks here; its capacity is in `RadioPath`.
- ChildWorker.StoppedWorkerExits: the worker's own send returns; how long the radio takes is not modelled.
- MasterRuns.RegularChildIsKept: time is an integer that never goes back; the case of a larger interval is in `MasterNode.GraceExactIff` and `MasterNode.SweptExactly`.
