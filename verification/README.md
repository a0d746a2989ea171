# Verified model of the vhost test bridge

The bridge connects virtual machines over vhost-user: it registers their devices, starts a loopback port handler for
each of them, moves packets from every guest transmit queue back to a guest receive queue, and reports and logs what
it did. This project models that behaviour in Dafny and proves the properties it rests on.

`dafny verify dfyconfig.toml` checks everything.

## What is modelled

**Loopback data plane** (`PacketChannel`, `QueueLayout`, `WorkerSystem`, `QueueCalls`, `OneThreadModes`,
`TwoThreadModes`, `HandlerShutdown`, `ShutdownHang`, `DefaultSetup`). `PacketChannel` cuts the two queue calls of one
pair into atomic steps and lets them interleave freely over a bounded ring, with a guest that accepts any part of what
it is offered. `WorkerSystem` runs the workers that `dispatch` launches over all pairs. `QueueCalls` holds the calls
as the loops they are and proves that each call is a run of steps of its own side, so what holds of all runs holds of
the loops. Results: every packet is in exactly one place in every interleaving, order is kept, the counters' distance
is bounded and the bound is attained, the producer never waits exactly when the mempool fits the ring, each ring has
one producing and one consuming worker in every mode, packets are thrown away by the drain loop exactly in the
two-thread modes, and the joins of `shutdown` return in every interleaving exactly when every worker is past its entry
line, given room for the enqueue, which is shown to be exactly what they need.

**Device lifecycle** (`DeviceConfig`, `ConfigManager`, `VhostModel`, `VhostController`, `HandlerModel`,
`PortHandlerLoopback`, `PortController`, `PortControllerLoopback`, `Lifecycle`, `DevicePresence`, `ResourceNames`).
The callbacks, the configuration's three maps, the FIFO channel and the controller's map of maps form a two-party
state machine. `Lifecycle` proves its safety over whole runs for arrivals that meet a stated discipline, proves that
the discipline is exactly what gives every device its own vid as port id, and exhibits a run outside it.
`DevicePresence` tells from the devices' own events alone which of them have a handler.

**Final report** (`FinalReport`, `ConfigManager.ConfigManager.PrintFinalReport`). The loop's bound is the size of a
map that its own body grows; it still ends and lists exactly the registered pairs.

**Logger** (`LogStream`, `Logging`). The double buffer with its flush thread, rotation and the destructor's drain.

**Command line** (`CommandLine`, `Cmdline`). The parser, the table registered with it, and the round trip between
assignment lists and command lines.

## What the code does not do

Each of these is a property one would expect; the first lemma named gives the exact condition under which it holds.

- The comment on the receive path calls it lossless and its drain loop a guard against leaks. The drain loop discards
  live packets in the two-thread modes (`DrainLosesIffTwoThread`); the retry budget discards the rest exactly when the
  guest is too slow for it (`GivenUpIffGuestTooSlow`).
- `worker` stores `true` on entry, so a `shutdown` that overtakes a worker that has not started yet may never return
  (`JoinsReturnIffNoneStarting`). The transmit loop ignores `is_running_`; with a mempool larger than the ring it could
  block shutdown for ever (`ShutdownReturnsIffRoom`).
- A PORT_UP looks its handler up with the port id where a vid is expected, and finds the one it just added only if the
  two are equal and no smaller port holds that vid (`UpStartsTheAddedIff`). Port ids come from a counter that any
  removal lowers, so ids and vids agree exactly under a discipline of arrivals (`DisciplinedIffEachGetsItsVid`;
  `DisciplineIsNeeded` is a run that breaks it). Otherwise another handler is started again and its earlier objects
  leak (`MismatchedUpLeaks`).
- Mempool and ring names run the port id and the queue id together: port 1 queue 11 and port 11 queue 1 share a name
  (`NamesUniqueUnlessSpilling`).
- `clear_device` on an unknown vid erases the entry of port 0 (`ClearRemovesOnlyIff`).
- `--help` and `--client` given bare stay off, because their registered default is the text `false`
  (`FlagIsOnIff`).
- A destroyed device keeps its record, so a late state change announces the port again (`DestroyedComesUpIff`).

## Model

| member | source | states |
|---|---|---|
| PacketChannel.StepKeepsInv | src/port_handler_loopback.cpp:132-235 | each atomic step of either call keeps conservation, order, counter and mempool accounting |
| PacketChannel.RunKeepsInv | src/port_handler_loopback.cpp:132-235 | so does every interleaving of the two calls |
| PacketChannel.EveryPacketInOnePlace | src/port_handler_loopback.cpp:145-226 | in every interleaving a packet taken once is in exactly one of producer's hand, ring, consumer's hand and freed; none is freed twice and none has two fates |
| PacketChannel.QuiescentAccounts | src/port_handler_loopback.cpp:209-233 | between receive calls everything that left the ring is freed, and freed equals delivered plus given up plus drained; `rx_frames` counts the delivered |
| PacketChannel.DeliveryOrder | src/port_handler_loopback.cpp:149-196 | what is delivered is an order-preserving subsequence of what was taken; without loss, between calls, taken equals delivered followed by the ring |
| PacketChannel.CounterBound | src/port_handler_loopback.cpp:149-233 | `rx_frames` exceeds `tx_frames` by at most one burst, and not at all while the producer is between calls |
| PacketChannel.CounterBoundIsTight | src/port_handler_loopback.cpp:149-233 | the bound of one burst is attained by a run |
| PacketChannel.NeverWaitsIffPoolFits | src/port_handler_loopback.cpp:149-160 | the sleeping retry of the enqueue is unreachable exactly when the mempool is no larger than the ring |
| PacketChannel.DeployedBurstEntersAtOnce | src/port_handler_loopback.cpp:63-78 | with the sizes that are created, every burst enters its ring in one enqueue |
| QueueCalls.PairIo.DequeueTxPackets | src/port_handler_loopback.cpp:132-171 | with room for the burst, which the created sizes guarantee, the loop ends; the burst is appended whole to the ring and counted, as a run of producer steps |
| QueueCalls.PairIo.SpEnqueueBurst | src/port_handler_loopback.cpp:152-156 | one enqueue takes a nonempty prefix of what is left, appended in order |
| QueueCalls.PairIo.DeliverBurst | src/port_handler_loopback.cpp:185-196 | against any guest: the offers stop at the one that completes the burst or with the budget spent; what was sent is what the guest accepted, delivered in order |
| QueueCalls.GivenUpIffGuestTooSlow | src/port_handler_loopback.cpp:185-212 | what such a loop sends is the smaller of the burst and all the guest would take in the budget; packets are given up exactly when that is less than the burst |
| QueueCalls.PairIo.FreeRange | src/port_handler_loopback.cpp:209-216 | each free loop returns exactly its range of mbufs, once each, in order |
| QueueCalls.PairIo.DrainRing | src/port_handler_loopback.cpp:218-226 | the drain loop ends, empties the ring and frees everything it took out as drained |
| QueueCalls.PairIo.EnqueueRxPackets | src/port_handler_loopback.cpp:173-235 | the whole receive call, against any guest: it ends, and its new state in closed form, with what is delivered, given up, drained, freed and counted, follows from the ring and the guest's willingness at each offer |
| QueueLayout.QueueIdsAt | src/port_handler.cpp:27-37 | the queue list is all transmit ids, then all receive ids |
| QueueLayout.EveryQueueServed | src/port_handler_loopback.cpp:259-302 | in every mode, every queue of n pairs is in the list of a launched worker |
| QueueLayout.ServedOnce | src/port_handler_loopback.cpp:259-302 | no list holds a foreign queue or one that is served elsewhere |
| QueueLayout.LayoutPartitions | src/port_handler_loopback.cpp:259-302 | the launched lists partition {0..2n-1} |
| QueueLayout.SameWorkerIffOneThread | src/port_handler_loopback.cpp:72-78 | each ring has one producing and one consuming worker, the same one exactly in the one-thread modes |
| WorkerSystem.StepKeepsInv | src/port_handler_loopback.cpp:85-130 | every step of any worker is a step of one channel, made by the only worker that serves the queue |
| WorkerSystem.OneProducerOneConsumer | src/port_handler_loopback.cpp:72-78 | in every reachable state of every mode a queue's call runs only in the worker the queue was given to, and each pair is in a state its two calls reach alone: the single-producer and single-consumer flags are justified |
| OneThreadModes.OneThreadModesLoseNothingElse | src/port_handler_loopback.cpp:93-160 | one-thread modes: rings hold at most one burst, the enqueue never waits, the drain frees nothing, the only loss is the retry budget's |
| OneThreadModes.OneThreadCounters | src/port_handler_loopback.cpp:168-233 | one-thread modes: `rx_frames` never exceeds `tx_frames` |
| TwoThreadModes.DrainLosesIffTwoThread | src/port_handler_loopback.cpp:218-226 | some run drains a packet exactly in the two-thread modes, for every pair count |
| HandlerShutdown.StepLowersWork | src/port_handler_loopback.cpp:89-130 | once `is_running_` is false and all workers are past their entry line, every worker step lowers a work measure |
| HandlerShutdown.StoppingRunIsBounded | src/port_handler_loopback.cpp:93-130 | so every run of the workers from there is bounded by that measure, whatever the guests do |
| HandlerShutdown.WorkerCanStep | src/port_handler_loopback.cpp:85-130 | a worker that has not exited always has a step |
| HandlerShutdown.JoinsReturnIffNoneStarting | src/port_handler_loopback.cpp:17-29 | after the store of false the joins return in every interleaving exactly when no worker is still before its own store of true, as long as the enqueue finds room |
| HandlerShutdown.StartLaunchesTheWorkers | src/port_handler_loopback.cpp:237-302 | the threads of a freshly started handler are the workers of the step machine, and its flag is theirs |
| HandlerShutdown.ShutdownStopsTheWorkers | src/port_handler_loopback.cpp:17-29 | with the flag as the handler's shutdown leaves it, the joins of its workers return in every interleaving once all have entered |
| ShutdownHang.ShutdownReturnsIffRoom | src/port_handler_loopback.cpp:149-160 | for every mode, pair count and choice of sizes: once all workers have entered, shutdown returns in every interleaving exactly when the mempool fits the ring or, in a one-thread mode, a burst does |
| ShutdownHang.NoRoomHangs | src/port_handler_loopback.cpp:17-29 | otherwise some run leaves a worker polling a full ring that can never be joined, whatever happens afterwards |
| HandlerModel.LookupsFindTheirObjects | src/port_handler_loopback.cpp:118-125 | every mempool and ring a worker looks up is there after `create_resources`, in every mode, so lookups never insert |
| HandlerModel.SecondShutdownIsHarmless | src/port_handler_loopback.cpp:10-52 | the destructor's second shutdown joins and frees nothing |
| HandlerModel.FreshStartIsStartedOnce | src/port_handler_loopback.cpp:237-250 | a started fresh handler holds, for each transmit queue, the two objects that start made |
| HandlerModel.CreateKeepsSound | src/port_handler_loopback.cpp:54-81 | of all objects exactly those made are live or freed, in all once; creating resources adds exactly the new ones, live and unfreed |
| HandlerModel.StopKeepsSound | src/port_handler_loopback.cpp:34-51 | a shutdown takes each object the handler holds from live to freed with count one, and frees no other |
| PortHandlerLoopback.PortHandlerLoopback.CreateResources | src/port_handler_loopback.cpp:54-81 | one mempool and one ring for each odd queue of the list, none for the even ones |
| PortHandlerLoopback.PortHandlerLoopback.Dispatch | src/port_handler_loopback.cpp:259-302 | each of the four mode names launches its own workers with the lists written out, in order; any other name launches none |
| HandlerModel.NamesSelectLaunches | src/common.cpp:213-227 | the name of a mode decides which workers are launched, the four of them differently |
| DefaultSetup.DefaultLosesNothingElse | src/config_manager.cpp:24-28 | a command line without a value for the threading mode gets one worker per pair, and with the deployed sizes no ring holds more than a burst, no enqueue waits and nothing is drained |
| DefaultSetup.LineDrainsIff | src/config_manager.cpp:24-28 | a command line that selects a mode lets packets be drained exactly when the last value it gives names a two-thread mode |
| PortHandlerLoopback.PortHandlerLoopback.Start | src/port_handler_loopback.cpp:237-250 | for the queues the configuration lists and the mode name the command line gives: resources, then the workers of that name; with an unknown name the resources stay and no worker starts |
| PortHandlerLoopback.PortHandlerLoopback.FreeAll | src/port_handler_loopback.cpp:34-49 | a free loop frees each object of the map once and nothing else |
| PortHandlerLoopback.PortHandlerLoopback.Shutdown | src/port_handler_loopback.cpp:17-52 | the flag cleared, no workers, empty maps, everything held freed exactly once |
| ResourceNames.NamesUniqueUnlessSpilling | src/port_handler_loopback.cpp:58-60 | two queues share a DPDK name exactly when one's two-digit queue id spills its first digit into the other's port id |
| ResourceNames.NamesCollide | src/port_handler_loopback.cpp:58-60 | ports 1 and 11 with six pairs each share a mempool name |
| ResourceNames.NamesUniqueOnSmallSetups | src/port_handler_loopback.cpp:58-60 | up to eleven ports, or with at most five pairs each, names are unique |
| DeviceConfig.ReadyIffHistoryEnables | src/config_manager.cpp:97-194 | after any sequence of events a device is ready exactly when it has pairs and the latest event of each of its queues since its last init is an enable |
| DeviceConfig.SetBitSetsOne | src/config_manager.cpp:143-152 | a state event sets its own queue's flag and no other |
| DeviceConfig.SetIsNoOpIff | src/config_manager.cpp:129-153 | a state event changes nothing exactly when the vid is unknown, the queue is beyond the pairs or the flag already has that value |
| DeviceConfig.InitKeepsInverseIff | src/config_manager.cpp:97-105 | registering keeps the two id maps mutually inverse exactly when neither id is bound to another partner |
| DeviceConfig.ClearRemovesOnlyIff | src/config_manager.cpp:301-309 | clearing removes that device's entries alone, and keeps the maps inverse, exactly when the vid is registered or nobody is port 0 |
| DeviceConfig.TidyKeepsInverse | src/config_manager.cpp:80-105 | under fresh or identical registrations and clears of registered vids the maps stay inverse over the device table's vids |
| ConfigManager.ConfigManager.GetPidByVid | src/config_manager.cpp:89-95 | the bound port id, or -1 |
| ConfigManager.ConfigManager.GetVidByPid | src/config_manager.cpp:80-86 | the bound vid, or -1 |
| DeviceConfig.LookupsAreInverse | src/config_manager.cpp:79-95 | while the maps are inverse the two lookups undo each other, and give -1 exactly for unbound ids |
| ConfigManager.ConfigManager.InitVhostDevice | src/config_manager.cpp:97-127 | the maps and the device entry after registration: pairs numbered 2i and 2i+1, all off, their sockets unconnected, entries beyond them as before |
| DeviceConfig.InitMeans | src/config_manager.cpp:97-127 | a registration binds the two ids to each other, gives pair i the queues 2i and 2i+1 and the control queue 2n, and leaves all other devices and ids as they were |
| ConfigManager.ConfigManager.SetQueueState | src/config_manager.cpp:129-153 | the search loop sets exactly the flag of that queue id, if the device has it |
| ConfigManager.ConfigManager.IsPortReady | src/config_manager.cpp:155-194 | true exactly when the device is known, has pairs and all their flags are on |
| ConfigManager.ConfigManager.ClearDevice | src/config_manager.cpp:301-309 | all three maps after the erasures, including the insertion of port 0 for an unknown vid |
| ConfigManager.ConfigManager.GetNofQueues | src/config_manager.h:48-50 | the pair count; an unknown vid gets a blank entry |
| ConfigManager.ConfigManager.GetQueueIdsByVid | src/port_handler.cpp:7-38 | all transmit ids then all receive ids of the device, empty for an unknown vid |
| ConfigManager.ConfigManager.ReportDevice | src/config_manager.cpp:391-411 | one row per pair, added to the totals |
| ConfigManager.ConfigManager.PrintFinalReport | src/config_manager.cpp:374-426 | the loop ends; a row is printed exactly for each registered pair, in order, with transmit counters of its odd queue and receive counters of its even one, and TOTAL adds those counters up over all registered pairs; the table ends with entries for every vid up to the largest |
| FinalReport.RowsAreTheRegisteredPairs | src/config_manager.cpp:391-411 | the rows are exactly the pairs of the registered devices, each once, in order, each column field by field from the statistics of the queue it reports |
| FinalReport.TotalIsTableSum | src/config_manager.cpp:400-401 | the totals are the sums of those statistics over all registered pairs |
| FinalReport.ProbedSize | src/config_manager.h:48-54 | after v lookups the table has v entries plus one for each registered vid from v on |
| FinalReport.GuardMeansMoreAhead | src/config_manager.cpp:376 | the guard against the growing size holds exactly while a registered vid is ahead |
| FinalReport.LoopEnd | src/config_manager.cpp:376-414 | at the end every registered vid has been visited and the table's keys are the vids up to the largest |
| VhostModel.NewDeviceReadyIff | src/vhost_controller.cpp:133-155 | a new device is ready at once exactly when it has one pair |
| VhostModel.UpOnlyWhenReady | src/vhost_controller.cpp:142-175 | a new device sends a PORT_UP exactly for two vrings, a state event exactly when it leaves the port ready, and in every such state the vid is ready |
| VhostModel.DestroyedGoesDown | src/vhost_controller.cpp:157-163 | a destroyed device is announced as down, once, under its bound port id, whatever state it was in |
| VhostModel.DestroyedComesUpIff | src/vhost_controller.cpp:157-176 | a state event for a destroyed device announces the port exactly when the record has pairs, every other queue is on, and the event, if about one of its queues, is an enable; the same condition holds for a device still there |
| VhostModel.ReadyAfterSetIff | src/config_manager.cpp:129-194 | that condition on the state before is what makes the port ready after the event |
| VhostModel.DestroyedDeviceCanComeUp | src/vhost_controller.cpp:157-176 | a case of it: a device that was ready when destroyed is announced again by its next enable |
| VhostController.VhostController.OnNewDevice | src/vhost_controller.cpp:133-155 | configuration, counter and channel after a new device |
| VhostController.VhostController.OnDestroyDevice | src/vhost_controller.cpp:157-163 | one PORT_DOWN, the counter lowered, the configuration untouched |
| VhostController.VhostController.OnVringStateChanged | src/vhost_controller.cpp:165-176 | the flag set, and one PORT_UP exactly if the port is then ready |
| PortController.UpStartsTheAddedIff | src/port_controller_loopback.cpp:124-129 | a PORT_UP starts the handler it added exactly when port id equals vid and no smaller port holds that vid |
| PortController.UpAtEachSlot | src/port_controller_loopback.cpp:124-129 | a PORT_UP with any ids, slot by slot: a new handler under its own ids, and a start of the handler found first under its port id; nothing else |
| PortController.DownAtEachSlot | src/port_controller_loopback.cpp:106-118 | a PORT_DOWN with any ids, slot by slot: the handler found first under its vid is stopped where it is, and the slot of its own ids is emptied; nothing else |
| PortController.LeavingFrees | src/port_controller_loopback.cpp:67-97 | a handler that is replaced or erased is destroyed, and exactly what it held is freed |
| PortController.DownFreesBoth | src/port_controller_loopback.cpp:106-118 | a PORT_DOWN frees what the stopped handler held and, if another one is erased, what that one held |
| PortController.MatchedNote | src/port_controller_loopback.cpp:99-135 | a notification with port id equal to vid removes, adds or replaces that vid's handler, the new one serving the pairs found, takes each object of the displaced one from live to freed with count one, frees nothing else and touches no other handler |
| PortController.HandlersFollowNotes | src/port_controller_loopback.cpp:67-135 | after any such sequence, with repeated PORT_UPs and unmatched PORT_DOWNs, each vid has at most one handler, present exactly if its last notification was PORT_UP, started once for the pairs that one found; of all objects exactly those made are live or freed, each once, and the live ones are each held by one handler |
| PortController.EachObjectHeldOrFreedOnce | src/port_handler_loopback.cpp:34-81 | object by object: made, and then held by one handler and never freed or held by none and freed once; or not made, and then neither |
| PortController.MadeByMeans | src/port_handler_loopback.cpp:54-81 | the objects made are, for each PORT_UP, a mempool and a ring for each transmit queue of the pairs it found |
| PortController.MismatchedUpLeaks | src/port_controller_loopback.cpp:124-129 | a PORT_UP with another vid as port id keeps the restarted handler's earlier objects live, and those of the queues listed again are held by no handler any more |
| PortControllerLoopback.PortControllerLoopback.GetPortHandlerByVid | src/port_controller.cpp:35-53 | the handler under the first port in map order that has the vid, or none |
| PortControllerLoopback.PortControllerLoopback.AddHandler | src/port_controller_loopback.cpp:67-78 | a new handler in the slot, the replaced one shut down |
| PortControllerLoopback.PortControllerLoopback.RemoveHandler | src/port_controller_loopback.cpp:80-97 | the slot erased with its handler shut down, and the port with its last slot |
| PortControllerLoopback.PortControllerLoopback.ProcessNotification | src/port_controller_loopback.cpp:99-135 | the whole new state for every notification, and whether it ends normally, unfound or in the mode exception that no handler catches |
| PortControllerLoopback.PortControllerLoopback.Shutdown | src/port_controller.cpp:5-20 | every handler of every port stopped in place; each object freed as often as handlers held it and no other; after matched notifications every live object once, none left live, the accounting kept |
| PortControllerLoopback.ShutdownKeepsInv | src/port_controller.cpp:5-20 | that count is one for each live object and none for the rest whenever the accounting holds before |
| Lifecycle.ArrivalMatchedIff | src/vhost_controller.cpp:142-154 | with lowest-free vids, a new device's port id is its vid exactly when the live vids are {0..port_cntr-1} |
| Lifecycle.StepKeepsInv | src/vhost_controller.cpp:133-176 | every event keeps the protocol's invariant across configuration, channel and controller |
| Lifecycle.LifecycleSafety | src/vhost_controller.cpp:133-176 | whole-run safety under the arrival discipline: matched notifications, the right handler started, inverse maps, handlers as last notified and serving the pairs then found, every object made held and not freed or held by none and freed exactly once |
| DevicePresence.HandlersFollowDevices | src/vhost_controller.cpp:133-176 | whenever the channel is empty in a disciplined run, a vid has a handler exactly when some event announced its device and the device has not left since |
| DevicePresence.UpSinceLeaveMeans | src/vhost_controller.cpp:133-176 | that is: at some position of the run an arrival with one pair or the enable of a last missing queue, and no departure after it |
| DevicePresence.ReceiveServesArrivedPairs | src/port_controller_loopback.cpp:124-129 | a notification is processed with the pair count of its vid's latest arrival, and a PORT_UP leaves a handler serving just those pairs |
| Lifecycle.DisciplinedIffEachGetsItsVid | src/vhost_controller.cpp:142-162 | in every permitted run the discipline holds exactly when each arriving device gets its vid as port id |
| Lifecycle.MismatchedUpStartsAnother | src/port_controller_loopback.cpp:126-129 | a PORT_UP with another vid as port id leaves the added handler unstarted and starts that vid's handler again |
| Lifecycle.DisciplineIsNeeded | src/vhost_controller.cpp:133-163 | two arrivals, the first removed, a third arrival: announced with port id 1 and vid 0 |
| LogStream.StepKeepsInv | src/logger.cpp:83-136 | every init, log, flush, rotation, stop and drain step keeps the stream and file invariants |
| LogStream.NothingLostOrReordered | src/logger.cpp:83-136 | in every interleaving stdout, the batch in flight and the active buffer together are the accepted lines in lock order; after the destructor stdout is all of them |
| LogStream.RotationKeepsWholeLines | src/logger.cpp:91-136 | the tracked size is the current file's length, at most the limit or the last batch; backup and current file are the last whole lines written, no line split between them; after the destructor they end with the last line accepted |
| LogStream.WriteRotatesIff | src/logger.cpp:114-121 | a batch goes behind what the file holds exactly when it fits; otherwise what the file held becomes the backup |
| LogStream.RotatesOnlyWhenFull | src/logger.cpp:91-124 | until a rotation the file holds every line written; after one, backup and the batch it was made for exceed the configured limit; so while all accepted lines fit the limit, the file holds all that are written |
| LogStream.LineSaysItAll | src/logger.cpp:83-89 | a line is the level's name, the message and a newline, and no other level or message gives the same line |
| LogStream.FlushThreadEnds | src/logger.cpp:102-130 | once `running_` is false the flush thread takes at most three more steps, whatever is logged, and can always take them, so the join returns |
| Logging.Logger.Initialize | src/logger.cpp:64-81 | only the first call takes effect; it truncates the file and starts the flush thread |
| Logging.Logger.LogMessage | src/logger.cpp:83-89 | a line at or below the level is appended to the active buffer, any other is dropped |
| Logging.Logger.TakeBuffer | src/logger.cpp:105-112 | the active buffer is swapped out whole |
| Logging.Logger.RotateLogs | src/logger.cpp:91-100 | the file becomes the backup and an empty one is open in its place |
| Logging.Logger.WriteBatch | src/logger.cpp:114-123 | rotation if due, then the batch on file and stdout and the size tracked |
| Logging.Logger.FlushPass | src/logger.cpp:102-125 | an uninterrupted pass of the loop brings every accepted line to stdout |
| Logging.Logger.DrainBuffer | src/logger.cpp:127-136 | what is left goes to file and stdout, without rotation |
| CommandLine.CommandLineRoundTrip | src/cmdline_parser.cpp:17-73 | a rendered assignment list is accepted exactly when every required argument is named and none bare before it has a value, else refused for the reason named; accepted, each argument has its last given value or its default |
| CommandLine.ParsesExactlyRenderings | src/cmdline_parser.cpp:38-72 | the token lists that parse are exactly the renderings of complete assignment lists, and they mean what was written |
| CommandLine.SeparatorIsNeeded | src/cmdline_parser.cpp:21-35 | a nonempty line is refused for its separator exactly when it has none, with the table untouched |
| CommandLine.RefusalsNameTheFault | src/cmdline_parser.cpp:50-72 | a refusal names a token no argument has, a required argument given no value, or the first required argument not named |
| CommandLine.LastValueIsLastGiven | src/cmdline_parser.cpp:44-53 | an argument's final value is that of the last assignment that gives it one, or its default if none does |
| CommandLine.GetReadsLastValue | src/cmdline_parser.cpp:89-95 | reading by either name gives that value |
| Cmdline.CmdlineParser.AddArgument | src/cmdline_parser.cpp:8-15 | one argument appended, not yet found |
| Cmdline.CmdlineParser.ParseFrom | src/cmdline_parser.cpp:37-72 | the token loop, which moves its own index, leaves the table and the outcome that the token list determines, on errors too |
| Cmdline.CmdlineParser.Parse | src/cmdline_parser.cpp:17-73 | the same for a whole argument vector |
| Cmdline.CmdlineParser.GetBool | src/cmdline_parser.cpp:109-113 | true exactly for the five affirmative texts |
| Cmdline.RegisteredIsGood | src/config_manager.cpp:8-54 | the registered names are dashed and pairwise distinct and nothing is required |
| Cmdline.FlagIsOnIff | src/config_manager.cpp:9-23 | a flag with default `false` is on exactly when the last value given to it is true, 1 or yes; bare mentions leave it off |
| Cmdline.AcceptsIff | src/config_manager.cpp:64-77 | start-up goes on exactly when help is not switched on by a value |
| Cmdline.ConfigArguments.Init | src/config_manager.cpp:64-77 | parsing errors and help both end start-up |

## Left out

- DPDK itself: vhost bursts, mempools, rings and the EAL. The ring is a bounded sequence, the guest accepts any number
  up to what it is offered, and allocations succeed. Two handlers whose DPDK names collide would see a failed
  allocation; the collision is proved, its aftermath is not modelled.
- QueueCalls.PairIo.DequeueTxPackets: requires room in the ring or a mempool that fits it, which the created sizes
  satisfy; without either the loop does not end on its own, as `NeverWaitsIffPoolFits` and `NoRoomHangs` show.
- Worker threads are interleavings of atomic steps over sequentially consistent state; memory ordering is not
  modelled. The interleaving happens in the step machines, while each class method is one call on its own.
- Handlers inside the controller's map are values, because the map owns them through unique pointers and nothing else
  refers to them; `PortHandlerLoopback` models the same methods on an object.
- PortControllerLoopback.PortControllerLoopback.Shutdown: models the call after notifications have stopped, not its
  race with the epoll thread.
- Reads of the configuration without its mutex (`is_port_ready`, the report, the queue list) happen between updates.
- Sockets, epoll, accept and read framing: the channel is a queue of whole messages. Modes other than
  `Loopback` are not modelled.
- `assign_port_data_socket`, `assign_port_control_socket`, `print_portmap`, `is_queue_ready` and `clear_statistics`:
  plain stores and loops that nothing modelled here depends on.
- ConfigManager.ConfigManager.InitVhostDevice: requires at most MAX_QUEUE_PAIRS pairs, the length of the arrays the
  source indexes without a check; the report likewise requires vids below MAX_VHOST_DEVICES.
- `tx_dropped` and `rx_dropped` are never updated by the data plane; the report carries them along. Counters are
  unbounded integers, without the wrap-around of 64 bits.
- `emergency_flush` and `direct_append` of the logger, which bypass the lock on the crash path, and the level test
  that `log` makes just before it takes the lock: test and append are one step here.
- Log rotation assumes that renaming and reopening succeed and that no backup file from an earlier process exists.
- `get<int>` and `get<uint64_t>`, table layout of the usage text and of the report, signal handling, backtraces and
  terminal settings.
