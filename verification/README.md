# tempio command relay: model and proofs

tempio relays commands from a server to BLE sensor nodes that sleep most of the time. The server
gives a command an id and logs it, MQTT carries it (and may lose it) to a hub, the hub writes it to
the node or parks it until the node is awake, the node acts on it and acknowledges it, and the
acknowledgement travels back and settles the log row. This project models that path and proves what
holds of it in every run.

Code that changes things in place is modelled by classes and loops, each proved against a function
on values; the functions are what the lemmas and the state machines are about.

| file | what it holds |
|---|---|
| `Types.dfy`, `Environment.dfy` | machine integers, commands; clock, link and radio as arbitrary answers |
| `Packets.dfy` | wire layouts, decoding, the type handlers and the in-place IR packet loop |
| `RingBuffer.dfy` | the ring buffer behind every queue of the hub, for any capacity |
| `SlotTable.dfy`, `PendingPool.dfy` | the pending pool as a value and its meaning as a map; the class over an array of slots |
| `FlushSpec.dfy`, `Dispatcher.dfy` | flushing as recursive functions; the dispatcher class over the pool |
| `HubMachine.dfy` and `Hub*.dfy` | MQTT task and loop task interleaved over one pool: invariant, conservation, order, expiry, slot count, and the refinements that tie the machine to the pool and to the flush |
| `ClientSlots.dfy`, `Discovery.dfy` | BLE client objects and their slots under disconnect callbacks; the queue of discovered addresses |
| `NodeState.dfy` | the node: stored interval, configuration writes, wake-ups and resets |
| `CommandLog.dfy` | id counter, `send_command`, the log table and its history |
| `EndToEnd.dfy` and `EndToEnd*.dfy` | all of it together: server, lossy channels, any number of hubs, nodes, acknowledgements; what a success proves, for which ids, what is never duplicated or lost unseen, and what can always get through |

Ring size, slot count, queue capacities and TTL are parameters (`HubMachine.Sane` asks that they be
positive and that the TTL fit 32 bits); the firmware's values are 4, 5, 8 and 300000.

## What the proofs say about the code

Three promises of the design do not hold without a condition. Each is proved with its condition, and
with a run that shows what happens otherwise.

* **Ids.** A success in the log means that the node acted on that command, in every run that issues
  a given list of commands, exactly when no command of the list has the id that another one for the
  same hub is acknowledged by (`TruthfulExactlyWhenUnambiguous`); ids of hub requests, resets and IR
  packets may repeat among themselves, since nothing acknowledges those. A server that hands out
  every id and is not restarted may issue exactly 65535 commands: up to there every run has a
  truthful log, and for every larger number some run has not (`TruthfulExactlyUpToWrap`). A restart
  starts the counter over and two commands are enough (`RestartExample`).
* **Time limit.** The unsigned 32-bit test agrees with the true age exactly when the entry was held
  for less than 2^32 ms or its wrapped age is not below the limit (`TtlTestExact`). No command is
  ever discarded early, counting from its push or its last retry (`HubStamps.ExpiryExact`); one
  parked for 2^32 ms is handed out again (`WrapRevivesExample`).
* **Client objects.** Registration overwrites a kept client exactly when `acquireClient` went past
  the found slot, because that slot kept a client and a lower one was freed between the two searches
  (`OverwriteExactly`, `LostClientExample`). With the two searches as one step nothing is
  lost and at most one client per slot is ever created (`OwnershipWhenAtomic`).

IR packets do keep their promise. The handler alone sends the whole timing list of an accepted command
exactly when it has at most 247 entries (`IrTimingSentWhole`), and the 256-byte payload field never
holds a longer one: every IR command with timings whose text fits the field is accepted and sent whole
(`IrTimingThatFitsIsSent`). `IrTimingWrapExample` is only a remark on the 16-bit count, for whoever
enlarges the field.

Where code and documents disagree, the code is followed: `SetInterval` has 5 bytes and `ResetNode` 4
(docs/spec/ble-protocol.md:104-105 says 3 and 2), commands have no ring buffer of their own, and the
TEST handler sends even if the payload does not parse.

## Model

| member | source | states |
|---|---|---|
| Packets.DecodeInvertsEncode | firmware/lib/protocol/protocol.h:62-128 | decoding recovers every packet from its bytes, whatever follows them in the characteristic; IR lists of any length below 65536 included |
| Packets.EncodeInvertsDecode | firmware/lib/protocol/protocol.h:62-128 | a byte string that a receiver accepts starts with the encoding of the packet it reads |
| Packets.DecodeAcceptsExactlyEncodings | firmware/src/sensor/ble_peripheral.cpp:43-108 | a receiver reads packet p from a byte string if and only if the string starts with p's encoding; the node's switch reads HUB_READY, SET_INTERVAL, RESET_NODE and TEST_CMD this way, the hub NODE_INFO and CMD_ACK, and IR_TIMING has a layout but no receiver |
| Packets.EncodingsArePrefixFree | firmware/lib/protocol/protocol.h:74-128 | no packet's bytes start another packet's bytes, so different packets never look alike |
| Packets.PacketBytes | firmware/lib/protocol/protocol.h:62-128 | the bytes of every fixed-size packet one by one: its tag, then its fields little-endian |
| Packets.IrPacketBytes | firmware/lib/protocol/protocol.h:74-79 | the bytes of an IR packet: five of header with id and count, then value after value little-endian |
| Packets.SetIntervalPacket | firmware/src/hub/cmd/cmd_dispatcher.cpp:19-30 | SET_INTERVAL goes out as a SetInterval with the command's id and the number given (60 if none, low 16 bits if out of range), and not at all if the payload does not parse |
| Packets.ResetNodePacket | firmware/src/hub/cmd/cmd_dispatcher.cpp:33-44 | RESET_NODE goes out as a ResetNode with the command's id and the level given (0 if none, low 8 bits if out of range), and not at all if the payload does not parse |
| Packets.TestPacket | firmware/src/hub/cmd/cmd_dispatcher.cpp:79-90 | TEST always goes out as a TestCmd with the command's id and the number given, 0 if there is none or the payload does not parse |
| Packets.OtherPackets | firmware/src/hub/cmd/cmd_dispatcher.cpp:47-100 | IR_TIMING without timings, with none, or with 248 to 65535 of them gives no packet, and neither does any other type |
| Packets.WritesAreFaithful | firmware/src/hub/cmd/cmd_dispatcher.cpp:19-100 | every write of a handler fits 500 bytes, carries the command's id and is read back as the packet meant |
| Packets.IrTimingThatFitsIsSent | firmware/src/hub/dto/mqtt_command.h:9-15 | every IR command with timings whose list, however its values are written, fits the 256-byte payload field is accepted and sent whole |
| Packets.IrTimingSentWhole | firmware/src/hub/cmd/cmd_dispatcher.cpp:51-60 | for the handler alone: an accepted IR command is sent whole if and only if its list has at most 247 timings (16-bit count) |
| Packets.IrTimingWrapExample | firmware/src/hub/cmd/cmd_dispatcher.cpp:54-56 | a remark on the 16-bit count: a list of 65537 timings, which no payload field holds, would pass the size check and go out as one timing |
| Packets.PutWord | firmware/src/hub/cmd/cmd_dispatcher.cpp:66-70 | writes one little-endian 16-bit value at an offset and nothing behind it |
| Packets.FillIrTiming | firmware/src/hub/cmd/cmd_dispatcher.cpp:65-71 | the header and the loop fill exactly 5 + 2 * count bytes with the packet's encoding and leave the rest of the buffer alone |
| Packets.BuildIrTiming | firmware/src/hub/cmd/cmd_dispatcher.cpp:47-72 | rejects malformed, absent, empty and oversized lists, else hands buffer and length of the encoded packet to the write |
| RingBuffer.ThreadSafeQueue.Push | firmware/src/hub/util/thread_safe_queue.h:25-36 | appends if and only if there is room; `tail == (head + count) mod N` is kept |
| RingBuffer.ThreadSafeQueue.Pop | firmware/src/hub/util/thread_safe_queue.h:40-51 | takes the oldest item if and only if there is one |
| RingBuffer.ThreadSafeQueue.PushFront | firmware/src/hub/util/thread_safe_queue.h:121-127 | puts an item ahead of all others if and only if there is room, so that a pop right after takes it back out |
| RingBuffer.ThreadSafeQueue.Contains | firmware/src/hub/util/thread_safe_queue.h:80-90 | true if and only if some queued item satisfies the predicate |
| SlotTable.AbsSize | firmware/src/hub/util/pending_pool.h:83-91 | the number of used slots is the size of the map, and no slot is free exactly when the map is at its limit |
| SlotTable.PushRefinesMap | firmware/src/hub/util/pending_pool.h:21-50 | push and pushFront act as on a map of bounded sequences: they fail exactly when the node's queue is full or the node is new and all slots are used; used ids stay distinct; no other queue changes |
| SlotTable.PopRefinesMap | firmware/src/hub/util/pending_pool.h:56-79 | pop returns the first live item, discards exactly the dead ones before it, and releases the node if and only if nothing live remained; no other queue changes |
| SlotTable.PushTotal | firmware/src/hub/util/pending_pool.h:21-50 | an accepted push or pushFront adds exactly one to the number of parked commands, a refused one nothing |
| SlotTable.PopTotal | firmware/src/hub/util/pending_pool.h:56-79 | a pop takes away exactly the commands it drops and the one it returns |
| PendingPool.TakeLive | firmware/src/hub/util/pending_pool.h:64-74 | the pop loop splits the queue into the dead entries taken, the first live one and the untouched rest |
| PendingPool.PendingPool.constructor | firmware/src/hub/util/pending_pool.h:14-16 | a new pool has only free slots with separate, empty rings |
| PendingPool.PendingPool.FindOrCreate | firmware/src/hub/util/pending_pool.h:132-145 | answers the node's slot, else claims the first free one without clearing its ring, which is empty |
| PendingPool.PendingPool.Push | firmware/src/hub/util/pending_pool.h:21-34 | the new slot table and verdict are those of the push on values with the clock read before the lock |
| PendingPool.PendingPool.PushFront | firmware/src/hub/util/pending_pool.h:37-50 | as push, at the front, and the command is stamped again |
| PendingPool.PendingPool.Pop | firmware/src/hub/util/pending_pool.h:56-79 | the new slot table and result are those of the pop on values; the clock is read only if the node has a slot |
| PendingPool.PendingPool.ActiveSlots | firmware/src/hub/util/pending_pool.h:83-91 | the loop counts exactly the used slots |
| PendingPool.PendingPool.TotalPending | firmware/src/hub/util/pending_pool.h:95-103 | the loop adds up exactly the queue lengths of the used slots |
| PendingPool.PendingPool.NextNode | firmware/src/hub/util/pending_pool.h:106-119 | finds the first slot with work at or after an index, or that there is none |
| FlushSpec.TtlTestExact | firmware/src/hub/util/pending_pool.h:64-67 | the wrapping test equals the true-age test if and only if the entry was held under 2^32 ms or its wrapped age is not below the limit |
| FlushSpec.FlushLeaves | firmware/src/hub/cmd/cmd_dispatcher.cpp:144-153 | a flush ends with the slot released, exactly when nothing failed, or with the failed command at the head under a new stamp and the exact rest behind it |
| FlushSpec.FlushWrites | firmware/src/hub/cmd/cmd_dispatcher.cpp:144-153 | the writes of a flush are the delivered commands in queue order, then the failed one if it got as far as a write |
| FlushSpec.FlushSkipsOnlyExpired | firmware/src/hub/util/pending_pool.h:66-74 | whatever a flush takes out without delivering was past the limit at one of its clock readings |
| FlushSpec.WalkFlushesEachOnce | firmware/src/hub/cmd/cmd_dispatcher.cpp:156-162 | though slots are emptied and released during the index walk, it flushes exactly the nodes that had work at its start, each once, in slot order |
| FlushSpec.WalkSettlesSlot | firmware/src/hub/cmd/cmd_dispatcher.cpp:144-162 | slot by slot: one with work whose node was connected at its turn ends exactly as the flush of its queue from that turn on leaves it, that flush lying between the two ends of the walk; every other slot is unchanged |
| FlushSpec.WalkLeavesFreeOrFailedHead | firmware/src/hub/cmd/cmd_dispatcher.cpp:144-162 | after the walk a slot whose node was connected at its turn is free, or its head is the command whose send failed in this walk, stamped in this walk, with the exact rest of the old queue behind it |
| FlushSpec.BlockedHead | firmware/src/hub/cmd/cmd_dispatcher.cpp:144-153 | any number of flushes spaced under the limit leave a command that no handler can send at the head and everything behind it in place, and write nothing |
| Dispatcher.TurnRefinesFlush | firmware/src/hub/cmd/cmd_dispatcher.cpp:147-152 | one turn of the loop at the slot table (pop, send, pushFront) is one step of the recursive flush, and that pushFront cannot fail |
| Dispatcher.CmdDispatcher.TrySend | firmware/src/hub/cmd/cmd_dispatcher.cpp:93-100 | writes the bytes of the command's packet to its target, or nothing for types and payloads that give none |
| Dispatcher.CmdDispatcher.HandleHubCommand | firmware/src/hub/cmd/hub_command.cpp:26-29 | HUB_STATUS reports the counts of used slots and parked commands next to what the rest of the hub says of itself; other types report nothing |
| Dispatcher.CmdDispatcher.DispatchCommand | firmware/src/hub/cmd/cmd_dispatcher.cpp:135-141 | sends at once past anything parked, parks exactly on failure, and leaves pool and radio alone for commands to the hub |
| Dispatcher.CmdDispatcher.FlushNodePending | firmware/src/hub/cmd/cmd_dispatcher.cpp:144-153 | terminates, and pool and surroundings end as the recursive flush of the node's queue says |
| Dispatcher.CmdDispatcher.FlushAllPending | firmware/src/hub/cmd/cmd_dispatcher.cpp:156-162 | terminates, and pool and surroundings end as the recursive walk says |
| HubInvariant.StructureKept | firmware/src/hub/cmd/cmd_dispatcher.cpp:135-153 | every step of either task keeps: slots hold their own node's commands with stamps not in the future; a node whose command is in hand keeps its slot, with what the pop left plus the pushes since; only the node being flushed may have a used slot with an empty queue |
| HubLedger.LedgerKept | firmware/src/hub/cmd/cmd_dispatcher.cpp:135-153 | no step of either task creates, duplicates or forgets a command |
| HubOrder.OrderKept | firmware/src/hub/cmd/cmd_dispatcher.cpp:135-153 | every step keeps, per node, delivered then in hand then queued commands in the order they were pushed |
| HubTheorems.Conservation | firmware/src/hub/cmd/cmd_dispatcher.cpp:135-153 | in every run each dispatched command is in exactly one place (sent directly, refused, expired, flushed, lost, in a task's hands, or parked), and parked ones sit in their target's slot |
| HubTheorems.LostOnlyToPushes | firmware/src/hub/cmd/cmd_dispatcher.cpp:147-151 | pushFront loses a command if and only if pushes since the pop filled the queue, which takes at least one; never for lack of a slot |
| HubTheorems.DeliveredInPushOrder | firmware/src/hub/cmd/cmd_dispatcher.cpp:144-153 | in every run what the flush delivered to a node is an in-order subsequence of what was pushed for it, each command at most once |
| HubTheorems.SlotCountAccurate | firmware/src/hub/util/pending_pool.h:83-91 | activeSlots exceeds the number of non-empty queues by at most one, exactly when the node being flushed has an empty queue; outside a flush it is exact |
| HubTheorems.TotalPendingAddsUp | firmware/src/hub/util/pending_pool.h:95-103 | in every reachable state totalPending is the number of dispatched commands less those settled and those in the tasks' hands |
| HubTheorems.TasksNeverWait | firmware/src/hub/cmd/cmd_dispatcher.cpp:135-153 | what each task may do next does not depend on where the other stands, and in every reachable state each has a next step |
| HubTheorems.LossExample | firmware/src/hub/cmd/cmd_dispatcher.cpp:147-151 | for every capacity a run in which pushes between pop and pushFront make pushFront lose the command |
| HubStamps.ItemsAreTimed | firmware/src/hub/util/pending_pool.h:22-39 | in every run a command's stamp time is the clock at the last step that stamped it, its push or its last retry, whatever became of it since |
| HubStamps.ExpiryExact | firmware/src/hub/util/pending_pool.h:56-79 | in every run a discarded command was last stamped at least a TTL of clock ticks ago, and a returned one less than a TTL ago or 2^32 ms ago or more |
| HubTheorems.WrapRevivesExample | firmware/src/hub/util/pending_pool.h:64-70 | a run in which a command parked for exactly 2^32 ms is handed out to be sent |
| HubRefinement.MachineStepsAreThePools | firmware/src/hub/util/pending_pool.h:21-79 | with serials and true times erased, the machine's table steps are the pool's push, pop and pushFront with the same verdicts |
| HubFlush.LoopTaskAloneIsFlushNode | firmware/src/hub/cmd/cmd_dispatcher.cpp:144-153 | from every reachable state: a flush of a connected node with no step of the MQTT task until it ends leaves the table, consumes the readings and makes the writes of the recursive flush under the same readings and send results |
| HubFlush.MqttTaskAloneIsDispatch | firmware/src/hub/cmd/cmd_dispatcher.cpp:135-141 | from every reachable state: a dispatch with no step of the loop task until it ends leaves the table, consumes the readings and makes the writes of dispatchCommand under the same reading and send result |
| HubFlush.SomeOracleAgrees | firmware/src/hub/cmd/cmd_dispatcher.cpp:144-153 | whatever readings and send results such a segment has, there is an oracle that gives them, so the previous row speaks of every segment |
| ClientSlots.BleCentral.FindSlotIndex | firmware/src/hub/ble/ble_central.cpp:20-25 | the first slot satisfying the predicate, or the slot count |
| ClientSlots.BleCentral.FindReusableClient | firmware/src/hub/ble/ble_central.cpp:70-78 | takes the client out of the first unused slot that keeps one |
| ClientSlots.BleCentral.StashClient | firmware/src/hub/ble/ble_connection.cpp:65-72 | puts the client into the first unused slot without one |
| ClientSlots.BleCentral.OnDisconnect | firmware/src/hub/ble/ble_connection.cpp:45-56 | frees the used slot of the client, which keeps the object, and asks for a new scan |
| ClientSlots.BleCentral.CleanupDisconnected | firmware/src/hub/ble/ble_central.cpp:61-67 | clears the characteristic of exactly the unused slots that keep a client |
| ClientSlots.BleCentral.AcquireClient | firmware/src/hub/ble/ble_connection.cpp:81-86 | a kept client if there is one, else a new one if the stack can make it |
| ClientSlots.BleCentral.ConnectToNode | firmware/src/hub/ble/ble_connection.cpp:121-139 | without a callback in between, slots and client count end as the steps of the connect machine in sequence; success exactly when a slot, a client, the link and the service were all there |
| ClientSlots.OneOwnerUnlessOverwritten | firmware/src/hub/ble/ble_connection.cpp:45-139 | in every run, disconnects landing anywhere, a client object has exactly one owner (slot or connect in progress) unless it was overwritten, and the objects created never exceed the slots plus those overwritten |
| ClientSlots.DisconnectFreesItsSlot | firmware/src/hub/ble/ble_connection.cpp:45-56 | in every reachable state a disconnect can come at once, frees exactly the slot in use by that client, which keeps it, and changes no other slot |
| ClientSlots.CleanupOnlyForgets | firmware/src/hub/ble/ble_central.cpp:61-67 | cleanup between connects takes the characteristic from exactly the unused slots with a client and leaves everything else alone |
| ClientSlots.ConnectNeverStuck | firmware/src/hub/ble/ble_connection.cpp:121-139 | in every reachable state the connect in progress has its next step, with either answer of the BLE stack |
| ClientSlots.StashNeverLeaks | firmware/src/hub/ble/ble_connection.cpp:65-78 | in every run a failed connect finds a place for its client, which then has exactly one owner |
| ClientSlots.OverwriteIsDecidedAtAcquire | firmware/src/hub/ble/ble_connection.cpp:81-104 | in every reachable state: a registration overwrites if and only if the acquisition took its client from another slot than the found one, and it does if and only if the found slot keeps a client and a lower one can be taken |
| ClientSlots.OverwriteExactly | firmware/src/hub/ble/ble_connection.cpp:81-104 | over every run from an acquisition to the registration after it: the registration overwrites a client if and only if, at the acquisition, the found slot kept a client and there was one to take below it |
| ClientSlots.OwnershipWhenAtomic | firmware/src/hub/ble/ble_connection.cpp:121-137 | with search and acquisition as one step: one owner each, registration never overwrites, at most one client per slot ever created |
| ClientSlots.LostClientExample | firmware/src/hub/ble/ble_connection.cpp:121-137 | a run in which a disconnect between search and acquisition makes registration overwrite a kept client |
| Discovery.QueueStaysClean | firmware/src/hub/ble/ble_connection.cpp:12-36 | in every interleaving of scan callback and loop the queue holds no address twice, a push that passed the checks finds room, and addresses are taken in the order accepted |
| Discovery.ScanOutcome | firmware/src/hub/ble/ble_connection.cpp:25-36 | undisturbed, a scan result is queued if and only if its address is not connected, not queued, a slot is free and the queue has room |
| Discovery.QueuedOnlyThroughGates | firmware/src/hub/ble/ble_connection.cpp:25-36 | in every interleaving an address is queued only after it was seen unconnected and then a slot was found free, with no other result in between |
| Discovery.TakesOldest | firmware/src/hub/ble/ble_connection.cpp:151-153 | the loop task can take the oldest address whatever the scan callback is doing |
| NodeState.NodeState.Begin | firmware/lib/storage/node_state.cpp:10-17 | restores the stored interval if it is in range, else 60, and opens storage |
| NodeState.NodeState.Clear | firmware/lib/storage/node_state.cpp:26-29 | erases flash only while storage is open; the interval becomes 60 in any case |
| NodeState.NodeState.SetSleepInterval | firmware/lib/storage/node_state.cpp:31-36 | 10..3600 is kept as it is, less becomes 10, more 3600; stored exactly while storage is open |
| NodeState.SensorNode.HandleWrite | firmware/src/sensor/ble_peripheral.cpp:43-108 | what a configuration write does to the node and which acknowledgement it sends: none for id 0 of SET_INTERVAL, none when disconnected, none for a reset |
| NodeState.WriteEffects | firmware/src/sensor/ble_peripheral.cpp:55-81 | SET_INTERVAL sets the clamped number and stores it only while storage is open; RESET_NODE erases only then and from level 1 on, and comes up with storage open and the stored value if in range, else 60; any other write changes nothing |
| NodeState.AnswersOnlyWhenConnected | firmware/src/sensor/ble_peripheral.cpp:62-104 | the node answers, with success for the packet's id, if and only if it is connected and got a TEST or a SET_INTERVAL with an id other than 0 |
| NodeState.BootOpensStorage | firmware/lib/storage/node_state.cpp:10-17 | after a boot storage is open, flash as before, and the interval the stored one if in 10..3600, else 60 |
| NodeState.IntervalAlwaysInRange | firmware/lib/storage/node_state.cpp:10-36 | whatever flash held, the interval is in 10..3600 after any boots, sleeps and writes that start with a boot |
| NodeState.SetIsRestored | firmware/src/sensor/ble_peripheral.cpp:55-60 | an interval set while storage is open is what every later boot restores, until flash is touched again |
| NodeState.ClearIsRemembered | firmware/src/sensor/ble_peripheral.cpp:72-80 | after a factory reset with open storage every later boot yields 60, until flash is touched again |
| NodeState.LateSetIsForgotten | firmware/src/sensor/ble_peripheral.cpp:201-211 | an interval set after storage closed holds for the current wake only |
| CommandLog.IdsRepeatWithPeriod | server/domain/services.py:17-20 | two automatic ids are equal if and only if their positions differ by a multiple of 65535 |
| CommandLog.AssignKeepsRequests | server/domain/services.py:26-28 | giving out ids changes nothing but ids, and only those that were 0; none is 0 afterwards |
| CommandLog.SensorService.NextCmdId | server/domain/services.py:17-20 | the id is the new counter, between 1 and 65535 |
| CommandLog.SensorService.SendCommand | server/domain/services.py:25-38 | ids go into the caller's list as by the recursive assignment; one pending row per command is appended, in order, exactly when the publish succeeded |
| CommandLog.SqliteRepository.UpdateCommandAck | server/adapters/outbound/sqlite_repo.py:126-134 | exactly the pending rows of that hub and id get status and time, their other columns stay, and all other rows and the number of rows stay |
| CommandLog.RowFollowsFirstAck | server/adapters/outbound/sqlite_repo.py:116-134 | after any history a row shows the first acknowledgement of its hub and id after its insertion, and pending if there is none |
| CommandLog.RowsAreTheSaves | server/adapters/outbound/sqlite_repo.py:116-124 | the rows are exactly the insertions, in order |
| CommandLog.AckSettlesAtMostOne | server/domain/services.py:17-41 | from an empty log, with at most 65535 commands ordered and all ids automatic, an acknowledgement settles at most one row |
| EndToEnd.SettleAllIsTheUpdate | server/adapters/outbound/sqlite_repo.py:126-134 | with provenance erased, settling in the relay is the update of the command log |
| EndToEnd.WireIdOf | firmware/src/hub/cmd/cmd_dispatcher.cpp:122-122 | ids that fit 16 bits arrive as they are, other 32-bit ones in their low bits, and anything else as 0 |
| EndToEnd.AckQueued | firmware/src/hub/ble/ble_data.cpp:48-60 | an acknowledgement is queued with its id and success exactly when the queue has room |
| EndToEndNodes.NodeFollowsItsHistory | firmware/src/sensor/ble_peripheral.cpp:42-110 | in every run of the relay each node is what its own writes, boots and sleeps make of it, in order, and nothing else |
| EndToEndOnce.EveryCommandAccountedFor | firmware/src/hub/cmd/cmd_dispatcher.cpp:106-132 | in every run each issued command is in exactly one place (unpublished, on its way, in its hub's inbox or dispatched) or exactly one named step lost it or took it out, and the same holds of its log row |
| EndToEndOnce.NothingTwice | firmware/src/hub/main.cpp:43-49 | in every run no hub dispatches a command twice between restarts, no command has two log rows, and no execution two acknowledgements |
| EndToEndOnce.StepAcks | firmware/src/hub/ble/ble_data.cpp:48-60 | an acknowledgement appears exactly when a connected node answers the write just acted on, the hub hears it and has room, and goes only by a loss, a restart or into the server's hands |
| EndToEndReach.AnyRequestCanGetThrough | server/domain/services.py:25-41 | from any state with the hub ready, any request of acknowledgeable commands has a continuation in which each command is acted on once, in order, and each new row is a success |
| EndToEndReach.ParkedCanGetThrough | firmware/src/hub/cmd/cmd_dispatcher.cpp:135-153 | at a hub just started, a command that is not sent at first can be parked, flushed, acted on and acknowledged |
| EndToEndReach.RebootReadies | firmware/src/hub/main.cpp:43-51 | a restart makes any hub ready and changes nothing else |
| EndToEndReach.NobodyWaits | server/domain/services.py:25-41 | whatever the rest is doing, requests can come, messages be lost or arrive, nodes wake and sleep, and the server restart |
| EndToEndSafety.FlowKept | firmware/src/hub/ble/ble_data.cpp:48-60 | every step of server, channels, hubs and nodes keeps: each message, execution and acknowledgement goes back to an issued command of the same content and target |
| EndToEndSafety.AckFindsItsRow | server/adapters/outbound/sqlite_repo.py:126-134 | with unambiguous ids an acknowledgement matches a pending row only if that row's own command was executed and answered |
| EndToEndSafety.RowsKept | server/domain/services.py:25-41 | with unambiguous ids every step keeps each settled row backed by an execution of its own command |
| EndToEndSafety.NoRowEverFails | firmware/src/sensor/ble_peripheral.cpp:62-102 | in every run, whatever the ids, no row ever becomes a failure |
| EndToEndSafety.SuccessMeansExecuted | server/domain/services.py:25-41 | in every run in which no command has the id that another for the same hub is acknowledged by, a success means that the addressed node acted on that very command (for SET_INTERVAL with a SetInterval of the row's id and the number asked for, and with its interval then set to that number clamped to 10..3600; for TEST with a TestCmd of the row's id), and rows of other types than SET_INTERVAL and TEST stay pending |
| EndToEndIds.TruthfulExactlyWhenUnambiguous | server/domain/services.py:25-41 | for every list of issued commands: all runs that issue it have a truthful log if and only if no command in it has the id that another for the same hub is acknowledged by |
| EndToEndIds.AutomaticIdsFit | server/domain/services.py:17-28 | in every run of automatic ids without restart the k-th is k modulo 65535 plus 1, so it fits the 16-bit field and is never the 0 that suppresses an acknowledgement |
| EndToEndIds.TruthfulExactlyUpToWrap | server/domain/services.py:17-41 | all runs that issue n automatic ids without restart have a truthful log if and only if n is at most 65535 |
| EndToEndIds.RestartExample | server/domain/services.py:11-20 | a run in which a restart reuses an id and an old acknowledgement makes a lost command a success |

## Left out

- JSON: models start from parsed fields. A numeric field that is absent or not a 32-bit integer falls back to its default; IR timings are 16-bit values; truncation of over-long target, type and payload texts is not modelled.
- Node identity: a node is one MAC address; different spellings of the same address in `target` are not told apart.
- NimBLE, MQTT client, WiFi, TLS, LEDs, delays and serial output: their outcomes are arbitrary answers.
- Locks: one region between lock and unlock is one step; the priority and timing of the two tasks are free.
- The two-task hub machine works on values; `MachineStepsAreThePools` ties its table steps and `LoopTaskAloneIsFlushNode` its loop task to the functions that the classes are proved against, but the interleaved steps are not run on the objects themselves.
- The vitals in a status report (connection count, heap, uptime, MQTT flag) are a parameter.
- `BeginFlush` of the hub machine may pick any node at any time, which covers both the walk over all slots and the flush on connect; the link test before it only restricts when it happens.
- The connect machine works on values and interleaves callbacks between its steps; `ConnectToNode` covers the steps in sequence. The `HUB_READY` write and the flush at the end of `registerNode` are not part of it.
- In the relay a node notifies the hub whose write it handles, or nobody: connections come and go on the same BLE task as write callbacks. It may hear a write whose confirmation was lost.
- The relay's `send_command` assigns all ids of a request in one step, as its loop does without awaiting anything; publishing and each saved row are steps of their own.
- FIFO between commands sent directly and parked ones, HUB_READY before every other write, exactly-once execution and delivery guarantees: the code does not promise them.
- Sensor readings, reports and their queue, node info, HTTP routes, dashboard, API key and deployment files.
- IR_SEND and the IR node's executor, which the firmware does not implement; IR packets are checked against their layout only.
- Saving of rows is not interrupted by database errors.
