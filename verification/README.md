# NetworkControl, verified

A Dafny model of the NetworkControl client/server system, with proofs. The system controls a 2D
helicopter simulation over one TCP connection per client and streams its state over UDP. The model
follows the source file by file; each module names the file it models. Values (messages, statistics,
session states) are datatypes with functions; objects the source updates in place are classes whose
methods are proved against those functions; threads that interleave are state machines over their
atomic steps.

What is proved, by part of the system:

- **Wire format** (`ByteOrder`, `BinarySerializer`, `Protocol`, `WireLayout`). Every payload has a
  printer and a parser that undo each other in both directions, in network byte order (Appendix B of RFC 791) on
  hosts of either endianness. A batch comes back whole exactly up to 65535 entries. Patching the
  sequence id of a serialised batch equals serialising it again. `WireLayout` fixes what stands where,
  in literal positions and types.
- **Sockets** (`Tcp`). The send and receive loops move exactly the given bytes for every way the
  kernel may cut them up.
- **Control server** (`ControlChannel`, `SessionCommands`, `SessionTable`, `Sessions`, `Announcements`,
  `AnnouncementStream`, `SpawnBroadcast`, `AnnouncedWorlds`, `ServerShutdown`). A byte stream of
  legal messages is decoded as exactly those messages and acts on the session as a run of commands,
  so that what is proved of runs holds of control streams; the spawn/despawn broadcast converges on
  every client exactly when stated conditions hold, down to the bytes a client reads; stopping the
  server terminates under every interleaving, also when clients stop reading.
- **Scheduling and streaming** (`Timers`, `UdpStreaming`, `StreamingRuns`). The tick scheduler
  neither loses nor invents ticks; over any window of the worker's life batching late ticks does not
  change the simulation; every datagram is the one the recipient's own serialisation would have
  been; and a recipient gets its full rate exactly under a stated condition on the waits.
- **Simulation** (`Sessions`, `SessionRuns`, `Physics`, `Trajectories`). Bounds on speed, turn, path
  and displacement for every reachable state, with the speed bound shown tight, and closed forms for
  turning, coasting and full throttle.
- **Steering** (`ControlInputs`, `ControlInputReceiver`). The newest delivered input wins under
  loss, reordering and duplication, and only the session's own endpoint can steer it.
- **Receive statistics** (`Metrics`, `LossAccounting`, `PacketNumbers`, `ReceiveTiming`). The
  incremental estimator equals a declarative definition of lost, recovered, elapsed and sampled over
  every history, and balances against what the session sent.
- **Client** (`Worlds`, `ShownStates`, `ClientReceiver`, `GameClients`, `ConnectionRuns`, `Playback`).
  A datagram shows the client what the server simulates; a lost link is noticed and restored; exact
  conditions under which client and server agree on who is playing and at which rate, and under
  which being connected means having a receiver that a watchdog looks after.

Where the code does not keep what its design promises, the model keeps the code, gives a failing run
or input and proves the exact condition:

- client worlds: `SpawnBroadcast.StepConverges` and `ConvergedThroughoutIff`, with `MisledRun` and
  `GhostRun`;
- connections: `ConnectionRuns.LinkedThroughoutIff`, with `ConnectOverConnectedSpoils`;
- playback and rate agreement: `Playback.PlaybackAgreesIff` and `RateAgreesIff`;
- loss balance: `LossAccounting.EndToEnd`, with `LatenessMatters`;
- the 30 Hz rate: `StreamingRuns.FullRateIff` and `StarvedIff`, with `SkippedTicksCanStarve`;
- steering: `ControlInputs.NewestWinsIff`, with the consequences in `TopNumberDeafens` and
  `DeafStandsStill`.

The comment at Server/TcpControlServer.cpp:108 says that a session which never registered was never
announced to anyone; the code announces every accepted session to newcomers, registered or not, and
the model follows the code (`SpawnBroadcast.UnregisteredSessionLingers`).

Conventions: floats and doubles are bit patterns on the wire and reals in computations; the clock is
integer nanoseconds; `Trig` is any pair of functions on the unit circle; a method's result that
depends on a system call has the call's outcome as a parameter (for sockets: how many bytes each call
moves). A method protected by a mutex in the source is one atomic step. `Arithmetic` and `Streaming`
hold the definitions several modules share.

## Model

| member | source | states |
|---|---|---|
| ByteOrder.HostToNetworkIsBigEndian16 | Common/ByteOrder.h:40-42 | converting and copying out of memory gives the big-endian image of a 16-bit value on either host |
| ByteOrder.HostToNetworkIsBigEndian32 | Common/ByteOrder.h:32-34 | the same for 32 bits |
| ByteOrder.HostToNetworkIsBigEndian64 | Common/ByteOrder.h:8-26 | the same for 64 bits, through the masks and shifts of ByteSwap64 |
| ByteOrder.NetworkToHostIsBigEndian16 | Common/ByteOrder.h:44-46 | reading two bytes natively and converting gives the value whose big-endian image they are, on either host |
| ByteOrder.NetworkToHostIsBigEndian32 | Common/ByteOrder.h:36-38 | the same for four bytes |
| ByteOrder.NetworkToHostIsBigEndian64 | Common/ByteOrder.h:8-30 | the same for eight bytes |
| ByteOrder.SwapReversesBytes64 | Common/ByteOrder.h:8-17 | ByteSwap64 reverses the eight bytes of any value |
| ByteOrder.RoundTrip32 | Common/ByteOrder.h:32-38 | 32-bit values and four-byte images correspond one to one |
| ByteOrder.RoundTrip64 | Common/ByteOrder.h:24-30 | 64-bit values and eight-byte images correspond one to one |
| ByteOrder.WordValue32 | Common/ByteOrder.h:32-38 | 32-bit words and the numbers below 2^32, in base-256 digits, correspond one to one |
| ByteOrder.WordValue64 | Common/ByteOrder.h:24-30 | 64-bit words and the numbers below 2^64 correspond one to one |
| ByteOrder.ValueOfImage16 | Common/ByteOrder.h:40-46 | a 16-bit value is recovered from its image |
| ByteOrder.ImageOfValue16 | Common/ByteOrder.h:40-46 | two bytes are recovered from the value they denote |
| BinarySerializer.BinaryWriter.WriteUInt8 | Common/BinarySerializer.cpp:9-11 | appends the byte |
| BinarySerializer.BinaryWriter.WriteUInt16 | Common/BinarySerializer.cpp:13-17 | appends the big-endian image, on either host |
| BinarySerializer.BinaryWriter.WriteUInt32 | Common/BinarySerializer.cpp:19-23 | appends the big-endian image, on either host |
| BinarySerializer.BinaryWriter.WriteUInt64 | Common/BinarySerializer.cpp:25-29 | appends the big-endian image, on either host |
| BinarySerializer.BinaryReader.TryReadUInt8 | Common/BinarySerializer.cpp:50-62 | takes one byte if there is one, otherwise leaves the cursor; never past the end |
| BinarySerializer.BinaryReader.TryReadUInt16 | Common/BinarySerializer.cpp:64-74 | takes a big-endian 16-bit value if the bytes are there, otherwise leaves the cursor |
| BinarySerializer.BinaryReader.TryReadUInt32 | Common/BinarySerializer.cpp:76-86 | the same for 32 bits |
| BinarySerializer.BinaryReader.TryReadUInt64 | Common/BinarySerializer.cpp:88-98 | the same for 64 bits |
| BinarySerializer.TakePut32 | Common/BinarySerializer.cpp:19-23 | a written 32-bit value is read back and the rest of the stream is left |
| BinarySerializer.PutTake32 | Common/BinarySerializer.cpp:76-86 | rewriting what was read gives the bytes consumed |
| BinarySerializer.TakePut64 | Common/BinarySerializer.cpp:25-29 | a written 64-bit value is read back and the rest of the stream is left |
| BinarySerializer.PutTake64 | Common/BinarySerializer.cpp:88-98 | rewriting what was read gives the bytes consumed |
| Protocol.SerializeEntityControlInput | Common/Protocol.cpp:40-45 | appends the layout of the payload |
| Protocol.TryDeserializeEntityControlInput | Common/Protocol.cpp:47-52 | succeeds exactly when the parser does, with its value, leaving the rest |
| Protocol.AppPutEntityControlInput | Common/Protocol.cpp:40-45 | what the writer appends is the layout the parser reads |
| Protocol.TakePutEntityControlInput | Common/Protocol.cpp:40-52 | a serialised input parses back, leaving whatever follows |
| Protocol.PutTakeEntityControlInput | Common/Protocol.cpp:40-52 | a parsed input re-serialises to the bytes consumed |
| Protocol.TakeEntityControlInputShortIff | Common/Protocol.cpp:47-52 | the parse fails exactly below 16 bytes |
| Protocol.SerializeEntitySpawn | Common/Protocol.cpp:107-113 | appends the layout of the payload |
| Protocol.TryDeserializeEntitySpawn | Common/Protocol.cpp:115-129 | succeeds exactly when the parser does, with its value, leaving the rest |
| Protocol.TakePutEntitySpawn | Common/Protocol.cpp:107-129 | a serialised Spawn parses back, leaving whatever follows |
| Protocol.PutTakeEntitySpawn | Common/Protocol.cpp:107-129 | a parsed Spawn re-serialises to the bytes consumed |
| Protocol.TakeEntitySpawnShortIff | Common/Protocol.cpp:115-129 | the parse fails exactly below 17 bytes |
| Protocol.SerializeStop | Common/Protocol.cpp:139-159 | appends the fifteen fields in wire order |
| Protocol.TryDeserializeStop | Common/Protocol.cpp:161-177 | succeeds exactly when the parser does, with its value, leaving the rest |
| Protocol.TakePutStopReport | Common/Protocol.cpp:139-177 | a serialised Stop report parses back, leaving whatever follows |
| Protocol.PutTakeStopReport | Common/Protocol.cpp:139-177 | a parsed report re-serialises to the bytes consumed |
| Protocol.TakeStopReportShortIff | Common/Protocol.cpp:161-177 | the parse fails exactly below 120 bytes |
| Protocol.SerializeEntityStateEntry | Common/Protocol.cpp:54-61 | appends the 24-byte layout of an entry |
| Protocol.TryDeserializeEntityStateEntry | Common/Protocol.cpp:63-70 | succeeds exactly when the parser does, with its value, leaving the rest |
| Protocol.SerializeEntityStateBatch | Common/Protocol.cpp:72-80 | the loop appends header fields, the count modulo 65536 and every entry in order |
| Protocol.TryDeserializeEntityStateBatch | Common/Protocol.cpp:82-105 | the loop succeeds exactly when the parser does, with its value, leaving the rest |
| Protocol.AppBatchIsPutBatch | Common/Protocol.cpp:72-80 | what the writer appends is the layout the parser reads |
| Protocol.BatchRoundTripModCount | Common/Protocol.cpp:72-105 | any batch parses to its first n mod 65536 entries and leaves the other entries unread |
| Protocol.BatchRoundTrip | Common/Protocol.cpp:72-105 | a batch parses back whole with nothing left over if and only if it has at most 65535 entries; it takes 18 + 24n bytes |
| Protocol.BatchReserialises | Common/Protocol.cpp:82-105 | a successful parse re-serialises to the bytes consumed |
| Protocol.BatchShortIff | Common/Protocol.cpp:82-105 | the parse fails exactly when the announced entries are not all there |
| Protocol.PatchIsReserialise | Common/Protocol.cpp:179-190 | patching a serialised batch equals serialising it with the other sequence id, whatever id was there |
| Protocol.PatchEntityStateSequenceId | Common/Protocol.cpp:179-190 | overwrites eight bytes in place after the header on either host, or nothing if the packet is too short |
| WireLayout.NetworkOrder | Common/ByteOrder.h:19-46 | the most significant byte comes first |
| WireLayout.ControlBytes | Common/Protocol.h:12-24 | the exact bytes of the control messages without a report: types 0, 1, 2, 4 and 5 and their payloads |
| WireLayout.StopBytes | ClientCore/GameClient.cpp:296-324 | a Stop message is 121 bytes of type 3: each of the fifteen statistics stands at its own place, the latency fields last |
| WireLayout.InputBytes | Common/Protocol.cpp:40-45 | a steering datagram is 17 bytes of type 6: entity, number, throttle, yaw |
| WireLayout.AnnouncementBytes | Common/Protocol.cpp:107-137 | the exact bytes of a Spawn (type 8) and a Despawn (type 9) |
| WireLayout.StateBytes | Common/Protocol.cpp:72-80 | a state datagram is 19 + 24n bytes of type 7: number, time, count modulo 65536, entries |
| WireLayout.EntryBytes | Common/Protocol.cpp:54-80 | entry i stands 24 i bytes behind the count: entity, x, y, heading, velocity x, velocity y |
| WireLayout.WorkerUnderstands | Server/TcpControlServer.cpp:117-225 | for any bytes at all: when a worker waits for more, when it ends the connection, and what an unregistered one skips |
| WireLayout.ClientUnderstands | ClientCore/TcpMessageReceiver.cpp:35-92 | a client takes an announcement exactly if the type is 8 or 9 and the payload is complete |
| WireLayout.DatagramsUnderstood | Server/UdpControlInputReceiver.cpp:51-69 | which datagrams are inputs (17 to 64 bytes of type 6) and which are states (type 7, all announced entries there) |
| Tcp.TcpSocket.Create | Common/TcpSocket.cpp:34-39 | a new handle with nothing sent on it, or none |
| Tcp.TcpSocket.ReceiveAll | Common/TcpSocket.cpp:110-136 | success means the whole buffer holds the next bytes of the stream and exactly those are consumed; it succeeds iff the bytes are there when no recv fails early |
| Tcp.TcpSocket.SendAll | Common/TcpSocket.cpp:82-108 | success means every byte went out in order; failure leaves a prefix; it succeeds when no send fails |
| Sessions.ClientSession.constructor | Server/ClientSession.cpp:27-28 | a session starts stopped at 30 Hz, unnumbered, unregistered, at the origin |
| Sessions.ClientSession.Play | Server/ClientSession.cpp:30-37 | the new session state is PlayedSession of the old one |
| Sessions.ClientSession.Pause | Server/ClientSession.cpp:39-46 | only a playing session becomes paused |
| Sessions.ClientSession.Stop | Server/ClientSession.cpp:49-68 | stops, restarts the numbering and puts the entity at the origin, but keeps the last applied input number |
| Sessions.ClientSession.Reset | Server/ClientSession.cpp:71-75 | restarts the numbering only |
| Sessions.ClientSession.SetRate | Server/ClientSession.cpp:77-92 | 30 and 60 set the rate, anything else changes nothing |
| Sessions.ClientSession.RegisterUdpEndpoint | Server/ClientSession.cpp:94-102 | replaces the endpoint and nothing else |
| Sessions.ClientSession.GetNextSequenceId | Server/ClientSession.cpp:120-122 | returns the next number and remembers it |
| Sessions.ClientSession.ApplyControlInput | Server/ClientSession.cpp:145-157 | the body becomes ApplyInput of the old one: older numbers ignored, values clamped |
| Sessions.ClientSession.StepPhysics | Server/ClientSession.cpp:159-179 | the body takes one step of Perform(Tick): turned first, then carried along its new velocity (Trajectories.TickCarriesAlongNewVelocity) |
| Sessions.ClientSession.StopSession | Server/ClientSession.cpp:210-218 | stops the session and closes the connection on the first call only |
| SessionTable.SessionManager.AddSession | Server/SessionManager.cpp:9-18 | the table gains the session under its own id |
| SessionTable.SessionManager.RemoveSession | Server/SessionManager.cpp:20-39 | the session leaves the table, is stopped and has its connection closed |
| SessionTable.SessionManager.GetSession | Server/SessionManager.cpp:41-48 | the session with that id, or null exactly when there is none |
| SessionTable.SessionManager.GetSessionsSnapshot | Server/SessionManager.cpp:74-86 | lists every session of the table exactly once |
| SessionTable.SessionManager.CloseAll | Server/SessionManager.cpp:50-66 | empties the table and stops every session that was in it |
| ControlChannel.ServesOneMessage | Server/TcpControlServer.cpp:117-225 | each legal message is decoded as itself and takes exactly its own bytes, registered or not |
| ControlChannel.StreamIsMessages | Server/TcpControlServer.cpp:100-104 | n rounds over a stream of messages are the fold over its first n messages |
| ControlChannel.ServeOneConsumes | Server/TcpControlServer.cpp:117-225 | a served message leaves a strictly shorter stream |
| ControlChannel.ProcessOneMessage | Server/TcpControlServer.cpp:117-225 | one round on a real socket: the session and the flag become what ServeOne says of the bytes, or nothing changes |
| ControlChannel.ProcessStop | Server/TcpControlServer.cpp:176-198 | the report is read and only then, if a port is registered, the session stopped; SessionCommands.StopStartsOver says what that leaves |
| ControlChannel.ControlWorker | Server/TcpControlServer.cpp:100-104 | for any delivery of the bytes the session ends where some number of whole messages leads, no more than the times the flag is found set; exactly where that many rounds lead if no recv fails early |
| ControlChannel.ServeClient | Server/TcpControlServer.cpp:100-225 | a stream of legal messages, however cut up, leaves the session where handling them one by one does, as far as the server still runs |
| SessionCommands.PlayAndPause | Server/ClientSession.cpp:30-46 | Play leaves any session playing, Pause only a playing one paused, and all else as it was |
| SessionCommands.StopStartsOver | Server/ClientSession.cpp:49-67 | Stop leaves the session stopped with number 0, the entity at rest at the origin under no control; rate, port and last input number stay |
| SessionCommands.ResetAndRate | Server/ClientSession.cpp:71-92 | Reset sets the number to 0 and keeps all else; SetRate takes 30 and 60 and nothing else |
| SessionCommands.InputTakesHold | Server/ClientSession.cpp:145-157 | a newer input takes hold, each value unchanged between -1 and 1 and cut off there; any other changes nothing |
| SessionCommands.MessagesAreRun | Server/TcpControlServer.cpp:100-225 | the session after any messages is the run of the commands among them that come under a registration in force, with the port last registered: what holds of runs holds of control streams |
| SessionCommands.StreamEndingInStop | Server/TcpControlServer.cpp:176-198 | after the bytes of any messages ending in a Stop a registered session is stopped, with number 0, at rest at the origin under no control |
| SessionCommands.StreamEndingInPause | Server/TcpControlServer.cpp:212-214 | after bytes ending in a Pause it is paused if it was playing, and otherwise as it was |
| SessionCommands.StreamEndingInReset | Server/TcpControlServer.cpp:216-218 | after bytes ending in a Reset its number is 0 and all else as it was |
| Announcements.SpawnsCarryProtocol | Server/TcpControlServer.cpp:286-292 | the Spawns sent to a newcomer are, one for one, those of the broadcast protocol for the same order |
| Announcements.AnnouncementsGrow | Server/TcpControlServer.cpp:255-277 | an announcement written behind a stream of announcements makes a stream of one more |
| Announcements.SendEntitySpawn | Server/TcpControlServer.cpp:255-265 | appends the announcement's bytes to the recipient's connection, or fails |
| Announcements.SendEntityDespawn | Server/TcpControlServer.cpp:267-277 | appends the announcement's bytes to the recipient's connection, or fails |
| Announcements.Introduce | Server/TcpControlServer.cpp:283-292 | the newcomer's stream gets its own Spawn first, then everyone else's in snapshot order |
| Announcements.Announce | Server/TcpControlServer.cpp:294-300 | every other listed session gets exactly the newcomer's Spawn |
| Announcements.BroadcastSpawnsForNewSession | Server/TcpControlServer.cpp:279-301 | both together over the whole table, registered sessions or not |
| Announcements.BroadcastEntityDespawn | Server/TcpControlServer.cpp:303-314 | every session but the excluded one gets exactly the Despawn |
| Announcements.EndWorker | Server/TcpControlServer.cpp:108-113 | a registered session is despawned at all others; any session leaves the table, is stopped and has its connection closed |
| AnnouncedWorlds.IntroductionCarries | Server/TcpControlServer.cpp:279-301 | what a newcomer and everyone else are sent on a registration carries, one for one, the messages of the broadcast protocol |
| AnnouncedWorlds.DespawnCarries | Server/TcpControlServer.cpp:303-314 | so does what everyone else is sent when a session leaves |
| AnnouncedWorlds.HearAllPictures | ClientCore/EntityWorld.cpp:5-26 | a world that hears announcements shows exactly the ids, and the own id, that the replay of the protocol's messages gives |
| AnnouncedWorlds.CatchUp | ClientCore/TcpMessageReceiver.cpp:33-93 | end to end: after any safe run of the server a registered client that reads the bytes of all it was sent, however cut up, shows exactly the registered sessions' entities and knows its own id |
| SpawnBroadcast.StepConverges | Server/TcpControlServer.cpp:279-314 | from a converged state a step leads to a converged state if and only if it is Safe (no other session accepted but unregistered, no revoked registration, no late state update) |
| SpawnBroadcast.SafeRunsConverge | Server/TcpControlServer.cpp:279-314 | in every safe run with fewer than 2^32 sessions each registered client, once its pending announcements are in, shows exactly the registered sessions and knows its own id |
| SpawnBroadcast.ConvergedThroughoutIff | Server/TcpControlServer.cpp:279-314 | a run with fewer than 2^32 sessions is converged at every point if and only if each of its steps is safe |
| SpawnBroadcast.EmptyIsConverged | Server/TcpControlServer.cpp:20-40 | a fresh server is converged |
| SpawnBroadcast.RegisterStep | Server/TcpControlServer.cpp:279-301 | registration keeps convergence if and only if all others are registered |
| SpawnBroadcast.RevokeStep | Server/TcpControlServer.cpp:145-149 | registering port 0 keeps convergence if and only if the session was not registered |
| SpawnBroadcast.LeaveStep | Server/TcpControlServer.cpp:108-113 | leaving keeps convergence |
| SpawnBroadcast.UpdateStep | ClientCore/EntityWorld.cpp:28-40 | a state update keeps convergence if and only if its entity is live or its Despawn is still on the way |
| SpawnBroadcast.OwnIdIsNeverForeign | ClientCore/EntityWorld.cpp:9-12 | a client never takes another entity for its own, however few announcements it has heard |
| SpawnBroadcast.UnregisteredClientIsMisled | Server/TcpControlServer.cpp:294-300 | whoever registers while another client is unregistered becomes that client's own entity in its eyes, for good |
| SpawnBroadcast.UnregisteredSessionLingers | Server/TcpControlServer.cpp:108-111 | a newcomer keeps showing a session it was told of that leaves without ever registering |
| SpawnBroadcast.GhostStays | ClientCore/EntityWorld.cpp:22-33 | a dead entity that is shown, with no Despawn for it on the way, is never removed by anything sent later |
| SpawnBroadcast.LateUpdateRaisesGhost | ClientCore/EntityWorld.cpp:28-33 | a state update after the Despawn revives a dead entity, for good |
| SpawnBroadcast.MisledRun | Server/TcpControlServer.cpp:279-301 | a run from start-up in which a client takes another's entity for its own |
| SpawnBroadcast.GhostRun | ClientCore/EntityWorld.cpp:28-33 | a run from start-up that ends with such a ghost |
| ServerShutdown.StepKeepsInv | Server/TcpControlServer.cpp:42-115 | every step of every thread keeps: the counter is the workers started or about to start and not finished, and every session the sweep spares with an open connection is one that closes itself |
| ServerShutdown.CountStep | Server/TcpControlServer.cpp:95-114 | the counter stays exact |
| ServerShutdown.WorkerFits | Server/TcpControlServer.cpp:100-115 | a worker's own step keeps that account: a session accepted too late for the sweep never registers, receives or sends |
| ServerShutdown.SweepUnblocksEveryone | Server/TcpControlServer.cpp:51-55 | after the sweep no worker waits, in a receive or in a send to another session, on a connection that stays open: it is closed or its own worker is on the way to close it, waiting for nobody |
| ServerShutdown.SomeoneCanMove | Server/TcpControlServer.cpp:42-65 | until Stop returns some thread can move without any client connecting, sending, reading or hanging up, sends to clients that do not read included |
| ServerShutdown.EveryStepDescends | Server/TcpControlServer.cpp:42-115 | once the flag is cleared every step of every thread, each single send included, lowers a rank |
| ServerShutdown.StoppingRunsAreShort | Server/TcpControlServer.cpp:42-115 | no schedule lasts longer than the rank |
| ServerShutdown.ShutdownCompletes | Server/TcpControlServer.cpp:42-115 | from start-up, in every interleaving and whatever clients do or fail to do, the steps after Stop is called are bounded, and when no thread can move Stop has returned with the counter zero and every worker finished |
| Timers.FirstTickAfterIsLeast | Common/TimerCompensator.h:54-61 | ceil((now - start + 1) rate / 10^9) is the least tick due after now |
| Timers.TicksDoNotDrift | Common/TimerCompensator.h:54-61 | every tick time is less than a nanosecond below k/rate seconds |
| Timers.SecondsAreWhole | Common/TimerCompensator.h:54-61 | tick 30 n at 30 Hz and tick 60 n at 60 Hz fall exactly n * 1000000000 ns after the start |
| Timers.TickTimesIncrease | Common/TimerCompensator.h:54-61 | tick times strictly increase, by more than a nanosecond |
| Timers.HalfRateTicksCoincide | Common/TimerCompensator.h:54-61 | a 30 Hz tick falls exactly on every second 60 Hz tick |
| Timers.TimerCompensator.WaitForNextTick | Common/TimerCompensator.h:34-47 | the catch-up loop ends on the later of the next tick and the least tick due after now, and returns the ticks passed |
| Timers.SchedulerKeepsUp | Common/TimerCompensator.h:34-47 | after any run of delayed wake-ups the tick is the least one due after the last reading, and the returned counts sum to it |
| Timers.SumIsTick | Common/TimerCompensator.h:46 | the returned counts sum to the tick index |
| UdpStreaming.StepSession | Server/UdpStreamingService.cpp:70-77 | a playing session is stepped once per elapsed tick; a paused or stopped one not at all, over any window (StreamingRuns.IdleSessionsRest) |
| UdpStreaming.StepAll | Server/UdpStreamingService.cpp:69-77 | the same for every session of the snapshot |
| UdpStreaming.CollectEntries | Server/UdpStreamingService.cpp:79-86 | the entries are those of the playing sessions, in snapshot order |
| UdpStreaming.SerialisePacket | Server/UdpStreamingService.cpp:97-106 | the packet is the whole datagram of the batch |
| UdpStreaming.SendTo | Server/UdpStreamingService.cpp:109-138 | a due recipient gets its own full serialisation out of the patched buffer and one number, others nothing |
| UdpStreaming.SendToAll | Server/UdpStreamingService.cpp:108-138 | every datagram sent from the one patched buffer is the recipient's own full serialisation; exactly the due recipients get one and a number each |
| UdpStreaming.DatagramsAreTheDue | Server/UdpStreamingService.cpp:109-133 | the datagrams of a tick are those of the recipients due, one each, in snapshot order |
| UdpStreaming.NobodyPlaying | Server/UdpStreamingService.cpp:88-90 | skipping the sends when there is no entry loses nothing |
| UdpStreaming.WakeUp | Server/UdpStreamingService.cpp:60-139 | one wake-up: all sessions stepped, all due datagrams sent, all numbers advanced, nothing else |
| StreamingRuns.Worker | Server/UdpStreamingService.cpp:52-140 | the whole loop over a fixed table: every session ends as one wake-up after another makes it |
| StreamingRuns.BatchingIsInvisible | Server/UdpStreamingService.cpp:62-77 | over any window of the worker's life the physics of a playing session depends only on how many ticks the window covers, not on how they were batched |
| StreamingRuns.NoTimeLostOrInvented | Server/UdpStreamingService.cpp:60-77 | a session playing throughout any window has taken one step per tick scheduled in it, with the outcome of one-at-a-time ticking; the window ends on the least tick due after the last reading and k steps are k/60 s to within a nanosecond |
| StreamingRuns.IdleSessionsRest | Server/UdpStreamingService.cpp:70-77 | over any window a paused or stopped session ends exactly as it began: body, number and rate |
| StreamingRuns.NoEndpointNoNumbers | Server/UdpStreamingService.cpp:122-124 | a session without an endpoint gets no number over any window, playing or not |
| StreamingRuns.NumbersCountServedTicks | Server/UdpStreamingService.cpp:108-133 | over any window a playing, registered recipient's packet number grows by exactly the wake-ups on ticks its rate is served |
| StreamingRuns.RateIsNeverExceeded | Server/UdpStreamingService.cpp:115-117 | that growth is at most the even ticks of the window at 30 Hz, and the wake-ups, at most its ticks, at 60 Hz, however late the wake-ups |
| StreamingRuns.FullRateIff | Server/UdpStreamingService.cpp:115-117 | it reaches that maximum if and only if each wait takes one tick from an odd tick and at most two from an even one (30 Hz), or one tick always (60 Hz) |
| StreamingRuns.StarvedIff | Server/UdpStreamingService.cpp:115-117 | a 30 Hz recipient gets nothing in a window if and only if every wait takes an even number of ticks, save an odd first one from an even tick |
| StreamingRuns.PunctualServesEverySecondTick | Server/UdpStreamingService.cpp:115-117 | in a window without skipped ticks a 30 Hz recipient's number grows on every second tick |
| StreamingRuns.SkippedTicksCanStarve | Server/UdpStreamingService.cpp:115-117 | a worker one tick late at every wake-up never sends a playing 30 Hz recipient anything |
| Physics.SpeedLimitNeverActs | Server/ClientSession.cpp:165-170 | from a reachable body the new speed stays strictly below 59/3, so the 50-unit clamp never acts |
| Physics.StepStaysReachable | Server/ClientSession.cpp:159-179 | a step keeps inputs clamped, the speed bounded and the velocity as long as the speed |
| Physics.TurnIsBounded | Server/ClientSession.cpp:163 | one step turns by at most 1/30 radian |
| Physics.RunStaysReachable | Server/ClientSession.cpp:30-179 | the same after any mix of commands, inputs and ticks |
| Physics.OriginIsReachable | Server/ClientSession.h:71-79 | a new session starts reachable |
| Physics.PathIsBounded | Server/ClientSession.cpp:159-179 | n ticks make a path of at most 59n/180 |
| Physics.DisplacementIsAtMostPath | Server/ClientSession.cpp:172-176 | between stops the entity is never further away than its path is long |
| Physics.Coasting | Server/ClientSession.cpp:167-168 | at throttle 0 the speed after n ticks is s (59/60)^n and the path exactly 59/60 of the speed lost, so below 59/60 of the initial speed |
| Physics.FullThrottle | Server/ClientSession.cpp:165-168 | from rest at full throttle the speed after n ticks is 59/3 (1 - (59/60)^n) |
| Physics.BoundIsTight | Server/ClientSession.cpp:165-170 | the gap to 59/3 falls below 59 * 59 / (3 (59 + n)), so the bound cannot be lowered |
| Trajectories.VelocityFollowsHeading | Server/ClientSession.cpp:163-175 | after any run of commands, inputs and ticks of a new session its velocity is its speed along its present heading |
| Trajectories.TickCarriesAlongNewVelocity | Server/ClientSession.cpp:159-179 | for any yaw and speed: a tick turns a playing entity by yaw / 30 and then moves it by its new velocity, along the new heading, over 60; no other entity moves |
| Trajectories.TurnIsUniform | Server/ClientSession.cpp:163 | under a constant yaw input y the heading after n ticks has turned by exactly n y / 30 |
| Trajectories.CoastingTrajectory | Server/ClientSession.cpp:163-176 | left alone, the entity moves along a straight line in its heading by exactly 59/60 of the speed lost |
| ControlInputs.LastInputIsHighest | Server/ClientSession.cpp:145-157 | the last applied number is the highest delivered |
| ControlInputs.HighestInputWins | Server/ClientSession.cpp:145-157 | without a Stop, for any delivery with loss, reordering and copies, the body is under the clamped values of the highest number, or unchanged if none is new |
| ControlInputs.DeliveryOrderDoesNotMatter | Server/ClientSession.cpp:145-157 | two deliveries of the same inputs end under the same control |
| ControlInputs.StopSilencesOldInputs | Server/ClientSession.cpp:49-68 | after a Stop only an input newer than everything delivered before it can move the entity |
| ControlInputs.LatestDeliveredInputWins | ClientCore/UdpReceiver.cpp:110-116 | with fewer than 2^32 inputs sent, the latest sent among those delivered wins |
| ControlInputs.WrappedInputIsLost | ClientCore/UdpReceiver.cpp:114 | inputs numbered 0 are never applied, and none of any number is once number 2^32 - 1 has been |
| ControlInputs.NewestWinsIff | ClientCore/UdpReceiver.cpp:110-116 | for every choice and delivery of n sent inputs the newest one delivered wins, if and only if n is below 2^32 |
| ControlInputs.TopNumberDeafens | Server/ClientSession.cpp:145-157 | once number 2^32 - 1 has been applied no run of inputs, commands and ticks ever changes the control again but to zero by a Stop |
| ControlInputs.DeafStandsStill | Server/ClientSession.cpp:49-68 | such a session, once stopped, stays at the origin for good, since Stop keeps the last number |
| ControlInputReceiver.InputDatagramRoundTrip | Server/UdpControlInputReceiver.cpp:59-69 | a client's steering datagram parses back to its payload |
| ControlInputReceiver.OwnDatagramIsInput | Server/UdpControlInputReceiver.cpp:71-88 | a client's datagram for its own entity, from its registered endpoint, is exactly the numbered input it sent |
| ControlInputReceiver.ForeignDatagramIsNothing | Server/UdpControlInputReceiver.cpp:51-86 | a datagram from another ip or port, for another entity, of another type or length, or to a session without an endpoint, holds no input for the session |
| ControlInputReceiver.OthersMightAsWellBeSilent | Server/UdpControlInputReceiver.cpp:47-90 | leaving out everything that came from elsewhere than a session's endpoint leaves the same inputs for it |
| ControlInputReceiver.Deliver | Server/UdpControlInputReceiver.cpp:77-88 | the input is applied if the datagram came from the registered ip and port; from any other sender, or without a registered endpoint, the session is unchanged |
| ControlInputReceiver.Route | Server/UdpControlInputReceiver.cpp:49-89 | the named session takes the input if it came from its endpoint in at most 64 bytes; every session with another ip or port than the sender, and everything on any other datagram, is unchanged |
| ControlInputReceiver.ReceiveWorker | Server/UdpControlInputReceiver.cpp:47-90 | every session ends as if only the inputs for it, from its own endpoint, had been applied in order of arrival; one that nothing came from ends as it began |
| ControlInputReceiver.NewestOwnInputWins | Server/UdpControlInputReceiver.cpp:47-90 | whatever arrives, the session ends under the newest input from its own endpoint |
| Metrics.MetricsCollector.constructor | ClientCore/MetricsCollector.h:65-101 | a collector starts empty and expects 30 Hz |
| Metrics.MetricsCollector.OnPacketReceived | ClientCore/MetricsCollector.cpp:9-49 | the whole state moves as Apply of a packet says |
| Metrics.MetricsCollector.InsertMissingUpTo | ClientCore/MetricsCollector.cpp:32-34 | the loop adds exactly the ids strictly between |
| Metrics.MetricsCollector.ExpireStaleMissingSequenceIds | ClientCore/MetricsCollector.cpp:258-278 | exactly the ids 1000 or more below the highest are given up and counted |
| Metrics.MetricsCollector.RecordReceiveInterval | ClientCore/MetricsCollector.cpp:180-225 | adds a sample normalised by the id gap, or sets the anchor |
| Metrics.MetricsCollector.SetExpectedDataRate | ClientCore/MetricsCollector.cpp:51-57 | the whole state moves as Apply says |
| Metrics.MetricsCollector.OnPlay | ClientCore/MetricsCollector.cpp:59-70 | the whole state moves as Apply says |
| Metrics.MetricsCollector.OnPause | ClientCore/MetricsCollector.cpp:72-84 | the whole state moves as Apply says |
| Metrics.MetricsCollector.Reset | ClientCore/MetricsCollector.cpp:86-123 | everything but the expected rate starts over |
| Metrics.MetricsCollector.GetSnapshot | ClientCore/MetricsCollector.cpp:125-178 | the statistics of the current state |
| LossAccounting.CollectorIsExact | ClientCore/MetricsCollector.cpp:9-49 | after any history the missing set is exactly the ids between first and highest, less than 1000 below, that never came; confirmed lost are exactly the ids not received before the highest reached id + 1000; recovered and received likewise |
| LossAccounting.WindowIsAThousand | ClientCore/MetricsCollector.cpp:258-278 | after two packets an id between them is still missing exactly if it is less than 1000 below the second; all between are counted as lost |
| LossAccounting.MissingIsBounded | ClientCore/MetricsCollector.cpp:258-278 | at most 999 ids are missing at any time |
| LossAccounting.IdsAreConserved | ClientCore/MetricsCollector.cpp:15-48 | highest - first = advances + recovered + missing + confirmed lost |
| LossAccounting.PacketsAreConserved | ClientCore/MetricsCollector.cpp:143-147 | received + lost = (highest - first + 1) + ignored arrivals |
| LossAccounting.EndToEnd | Server/ClientSession.cpp:120-126 | sent packets balance against received, lost, before the first and after the highest, up to ignored arrivals; without correction if and only if no arrival was a duplicate, below the first, or 1000 late |
| LossAccounting.LossIsSimplePlusLate | ClientCore/MetricsCollector.cpp:144-151 | the loss count is the set-based count plus the ids that came too late |
| LossAccounting.OrderDoesNotMatter | ClientCore/MetricsCollector.cpp:30-48 | orders of the same ids from the same first packet with nothing late report the same loss and, with equally many arrivals, the same rate |
| LossAccounting.LatenessMatters | ClientCore/MetricsCollector.cpp:258-278 | with an id 1000 late two orders of the same ids report different losses |
| LossAccounting.StragglerHidesLoss | ClientCore/MetricsCollector.cpp:18-28 | if the first packet after a reset outnumbers all that follow, no loss is ever reported |
| PacketNumbers.NumbersAreConsecutive | Server/ClientSession.cpp:49-75 | the packets sent since the last Stop or Reset are numbered 1, 2, 3, ..., whatever happens in between |
| PacketNumbers.SentIsAccountedFor | Server/ClientSession.cpp:120-126 | the balance of EndToEnd for the packets a session really sent, with the session's own count |
| PacketNumbers.DatagramIsNumberedPacket | Server/UdpStreamingService.cpp:131-133 | the datagram sent to a recipient is counted by an active client as a packet with the recipient's next number |
| ReceiveTiming.LossSeesPacketsOnly | ClientCore/MetricsCollector.cpp:51-84 | plays, pauses and rate changes between packets leave the loss state that of the packets alone |
| ReceiveTiming.CollectorIsExact | ClientCore/MetricsCollector.cpp:9-84 | after any history of calls the loss state is the declarative one of its packets and the books balance |
| ReceiveTiming.ElapsedIsRunningTime | ClientCore/MetricsCollector.cpp:131-141 | elapsed time is exactly the unpaused nanoseconds since the first packet |
| ReceiveTiming.ElapsedNeverRunsBackwards | ClientCore/MetricsCollector.cpp:59-84 | it is never negative, never decreases, and stands still while paused |
| ReceiveTiming.TimingIsExact | ClientCore/MetricsCollector.cpp:180-225 | sample count, sum, maximum, deviation and delays are those of the declared samples |
| ReceiveTiming.LiveSampleIsAtHighest | ClientCore/MetricsCollector.cpp:180-188 | a live timing sample sits at the highest id |
| ReceiveTiming.AverageIsAtMostMaximum | ClientCore/MetricsCollector.cpp:153-166 | average at most maximum, delayed at most samples, rate between 0 and 100 |
| ReceiveTiming.SamplesTelescope | ClientCore/MetricsCollector.cpp:180-225 | over uninterrupted packets the samples' gaps and durations add up to last minus first |
| ReceiveTiming.SnapshotOfLoss | ClientCore/MetricsCollector.cpp:143-151 | the reported received, lost and out-of-order counts are the declared ones of the packets, and rate * (received + lost) = 100 * lost |
| ReceiveTiming.SnapshotOfTime | ClientCore/MetricsCollector.cpp:131-141 | the reported seconds times 10^9 are the unpaused nanoseconds since the first packet, 0 without one |
| ReceiveTiming.SnapshotOfIntervals | ClientCore/MetricsCollector.cpp:153-166 | reported averages and rate times the number of samples are the sums over the declared samples; all are 0 without samples |
| ReceiveTiming.SampleInNumbers | ClientCore/MetricsCollector.cpp:195-204 | a sample is its nanoseconds per id, in milliseconds; 100/3 ms are expected at 30 Hz and 100/6 ms at 60 Hz |
| ReceiveTiming.DelayedInNumbers | ClientCore/MetricsCollector.cpp:218-221 | a sample counts as delayed exactly above 50 ms per id at 30 Hz and 25 ms per id at 60 Hz |
| Worlds.AnnouncementsMoveIds | ClientCore/EntityWorld.cpp:5-40 | an announcement adds or removes one id, only the first Spawn sets the own id, a state update only adds |
| Worlds.SpawnInFull | ClientCore/EntityWorld.cpp:5-20 | a Spawn sets type, position and heading, keeps a known velocity or starts with none, and touches no other entity |
| Worlds.DespawnInFull | ClientCore/EntityWorld.cpp:22-26 | a Despawn leaves no trace of its entity and touches no other |
| Worlds.StateInFull | ClientCore/EntityWorld.cpp:28-40 | a state update sets position, heading and velocity, keeps a known type, and touches no other entity |
| ShownStates.StatesAreShown | ClientCore/UdpReceiver.cpp:84-88 | once a tick's entries are seen every playing session is pictured with its own position, heading and velocity, and every other entity as before |
| ShownStates.DatagramShowsStates | Server/UdpStreamingService.cpp:79-133 | end to end: an active client that gets the datagram of a tick with at most 84 playing entities pictures each of them as the server has it |
| ShownStates.SpawnIsShown | Server/ClientSession.cpp:196-208 | a Spawn pictures its session as a helicopter at its position and heading |
| Worlds.EntityWorld.OnSpawn | ClientCore/EntityWorld.cpp:5-20 | the world hears the Spawn; a known entity keeps its velocity |
| Worlds.EntityWorld.OnDespawn | ClientCore/EntityWorld.cpp:22-26 | the world hears the Despawn |
| Worlds.EntityWorld.OnState | ClientCore/EntityWorld.cpp:28-40 | the world sees the update, creating an unknown entity |
| Worlds.EntityWorld.TryGetMyEntityId | ClientCore/EntityWorld.cpp:42-52 | the own id if there is one |
| Worlds.EntityWorld.Clear | ClientCore/EntityWorld.cpp:68-75 | the empty world |
| AnnouncementStream.TakesOneAnnouncement | ClientCore/TcpMessageReceiver.cpp:46-83 | each announcement is decoded as itself and takes exactly its own bytes |
| AnnouncementStream.StreamIsAnnouncements | ClientCore/TcpMessageReceiver.cpp:33-93 | n rounds over a stream of announcements hear exactly the first n |
| AnnouncementStream.ReceiveOne | ClientCore/TcpMessageReceiver.cpp:35-92 | one round on a real socket: one announcement heard, or nothing changed |
| AnnouncementStream.ReceiveWorker | ClientCore/TcpMessageReceiver.cpp:33-93 | over any stream, however cut up, some number of whole announcements is heard, all there are before the stream gives out if no recv fails early, and the loss of the connection is flagged |
| AnnouncementStream.HearServer | ClientCore/TcpMessageReceiver.cpp:33-93 | over a stream of announcements a prefix of them is heard, all of them if no recv fails early |
| ClientReceiver.BatchFitsUpTo84 | ClientCore/UdpReceiver.cpp:58-89 | a server datagram reaches an active client whole up to 84 entities and not at all beyond |
| ClientReceiver.UdpReceiver.Start | ClientCore/UdpReceiver.cpp:14-33 | starts inactive with empty statistics, keeping the expected rate, even if the socket then fails |
| ClientReceiver.UdpReceiver.Receive | ClientCore/UdpReceiver.cpp:56-89 | an active client counts a state batch and sees its entities; an inactive one keeps its whole view, whatever arrives |
| ClientReceiver.UdpReceiver.OnPlay | ClientCore/UdpReceiver.cpp:96-99 | becomes active and tells the collector |
| ClientReceiver.UdpReceiver.OnPause | ClientCore/UdpReceiver.cpp:101-104 | becomes inactive and tells the collector |
| ClientReceiver.UdpReceiver.OnStop | ClientCore/UdpReceiver.cpp:106-108 | becomes inactive |
| ClientReceiver.UdpReceiver.SendControlInput | ClientCore/UdpReceiver.cpp:110-126 | a steering datagram with the next number, wrapping at 32 bits; succeeds exactly if the kernel takes all of it |
| GameClients.GameClient.constructor | ClientCore/GameClient.cpp:28-29 | disconnected, inactive, empty |
| GameClients.GameClient.ConnectLocked | ClientCore/GameClient.cpp:81-121 | gives up at the first failing call, so success means that all five succeeded and the registration went out whole; it starts inactive with empty statistics and an empty world and a stream holding just the registration |
| GameClients.GameClient.TeardownConnectionLocked | ClientCore/GameClient.cpp:123-132 | no receiver, UDP stopped, socket closed |
| GameClients.GameClient.Connect | ClientCore/GameClient.cpp:35-57 | the link becomes AfterConnect of the old one; no old receiver is ever replaced in place |
| GameClients.GameClient.Disconnect | ClientCore/GameClient.cpp:59-71 | watchdog stopped, connection torn down, disconnected |
| GameClients.GameClient.Poll | ClientCore/GameClient.cpp:138-168 | one turn of the watchdog: notices a lost link, waits, retries with the last successful configuration; a retry that succeeds has made every call it needs |
| GameClients.GameClient.Play | ClientCore/GameClient.cpp:171-179 | takes effect exactly if its message went out whole |
| GameClients.GameClient.Pause | ClientCore/GameClient.cpp:181-189 | takes effect exactly if its message went out whole |
| GameClients.GameClient.Stop | ClientCore/GameClient.cpp:191-209 | goes inactive first, sends the statistics before they are cleared, clears them if sent |
| GameClients.GameClient.Reset | ClientCore/GameClient.cpp:211-219 | takes effect exactly if its message went out whole |
| GameClients.GameClient.SetRate | ClientCore/GameClient.cpp:221-229 | takes effect exactly if its message went out whole |
| GameClients.GameClient.SendControlInput | ClientCore/GameClient.cpp:231-239 | succeeds exactly when connected with a known own entity and the kernel takes the whole datagram, which holds its id, the next number and the clamped values |
| GameClients.GameClient.SendStop | ClientCore/GameClient.cpp:296-324 | appends the bytes of a Stop message |
| ConnectionRuns.LinkedStepIff | ClientCore/GameClient.cpp:35-169 | an event keeps "connected means a receiver and a running watchdog" if and only if it is not a failing Connect on a connected client |
| ConnectionRuns.LinkedThroughoutIff | ClientCore/GameClient.cpp:35-169 | a run keeps it at every point if and only if no such call is made |
| ConnectionRuns.AlwaysSafe | ClientCore/GameClient.cpp:35-169 | in every run a receiver only exists while connected, and a watchdog runs exactly while not disconnected |
| ConnectionRuns.SpoiledStaysSpoiled | ClientCore/GameClient.cpp:148-167 | after such a call the client stays connected without a receiver until Connect or Disconnect is called |
| ConnectionRuns.ConnectOverConnectedSpoils | ClientCore/GameClient.cpp:39-43 | such a run exists |
| ConnectionRuns.WatchdogHoldsLastConfig | ClientCore/GameClient.cpp:45-54 | unless disconnected a watchdog runs and holds the configuration of the last successful Connect |
| ConnectionRuns.AttemptsAreSpaced | ClientCore/GameClient.cpp:154-166 | every attempt of the watchdog comes at least 2 s after every earlier attempt and every earlier discovery of a lost link |
| ConnectionRuns.CallOutcomes | ClientCore/GameClient.cpp:35-71 | what Connect and Disconnect leave of any connection, field by field |
| ConnectionRuns.LostLinkIsNoticed | ClientCore/GameClient.cpp:148-158 | the first turn after the loss of a link, at t, leaves the client reconnecting, without a receiver, with the next attempt at t + 2000000000 ns |
| ConnectionRuns.TurnInVain | ClientCore/GameClient.cpp:148-167 | a turn on a sound link, or before the time set for the next attempt, changes nothing |
| ConnectionRuns.DueTurnsRetry | ClientCore/GameClient.cpp:159-167 | in any run every turn that finds the client reconnecting 2000000000 ns after all it tried or discovered makes an attempt: success ends connected with a fresh receiver, failure waits as long again |
| ConnectionRuns.LostLinkIsRestored | ClientCore/GameClient.cpp:148-167 | a lost link is restored by the first attempt that succeeds, after any number of failed ones |
| ConnectionRuns.OnlyConnectLeavesDisconnected | ClientCore/GameClient.cpp:59-71 | after Disconnect only a successful Connect leaves the disconnected state |
| Playback.AgreeStepIff | ClientCore/GameClient.cpp:171-209 | an event keeps client and server in agreement if and only if it does not lose a Stop |
| Playback.PlaybackAgreesIff | ClientCore/GameClient.cpp:171-229 | in every run on one connection registered with a non-zero port the client is active exactly when the server, having handled everything sent, plays; if and only if no playing client failed to send a Stop |
| Playback.PortZeroNeverPlays | Server/TcpControlServer.cpp:229-232 | with port 0 the server never plays for the client |
| Playback.RateAgreesIff | ClientCore/MetricsCollector.cpp:101-105 | the expected rate is the server's if and only if it was 30 Hz at connection or a SetRate went out |
| Playback.PausedIsInactive | ClientCore/UdpReceiver.cpp:96-108 | a paused collector belongs to an inactive client in every run, failed sends included |
| Playback.InactiveIgnoresArrivals | ClientCore/UdpReceiver.cpp:80-82 | over any run in which no Play goes out an inactive client stays inactive with its world, and the run ends as if nothing had arrived |
| Playback.PauseAndStopSilence | ClientCore/GameClient.cpp:181-209 | so it is from a Pause that goes out, or any Stop, until the next Play: stragglers are neither counted nor shown |
| Playback.RestartTogether | ClientCore/GameClient.cpp:191-219 | a Stop or Reset that goes out sets the server's number and all the client's statistics to 0 together, keeping the expected rate and the world |
| Playback.OthersKeepCounts | ClientCore/GameClient.cpp:171-229 | Play, Pause and SetRate, sent or not, keep the server's number and body and the client's loss state, samples and world |
| Playback.PauseStopsTheClock | ClientCore/MetricsCollector.cpp:72-84 | from a Pause that goes out until the next Play, Stop or Reset the elapsed time stands still at the time of the Pause |
| Playback.StreamGrows | ClientCore/GameClient.cpp:253-294 | a message written behind a stream of messages makes a stream of one more |
| Playback.BytesAgreeIff | Server/TcpControlServer.cpp:100-225 | a worker reading the very bytes the client wrote ends playing exactly when the client believes so, unless a Stop was lost |

## Left out

- Sockets, accept, bind, listen and Winsock: their outcomes are parameters or nondeterministic steps; the INT_MAX guard of SendAll and ReceiveAll is not modelled.
- Consoles, live views, the WPF GUI, the managed wrapper, ini files and address parsing: display, marshalling or library calls. Endpoints are pairs of a string and a port, and a registered address always converts.
- Metrics.MetricsCollector.OnPacketReceived: does not record latency, the minimum, average and maximum of a difference of two clocks.
- Metrics.MetricsCollector.Reset: the latency fields are not modelled.
- Metrics.MetricsCollector.GetSnapshot: the latency fields are not modelled; they appear only as fields of the Stop report.
- Rounding of float, double and long double, and NaN inputs: arithmetic is exact.
- 64-bit wrap-around of packet numbers and counters: numbers are unbounded; only the 32-bit input number and the 16-bit entry count wrap.
- EntityWorld.GetSnapshot and the field getters: they only copy.
- SpawnBroadcast.SafeRunsConverge: a broadcast is one step to all recipients and its sends succeed; ids are the low 32 bits of session ids.
- SpawnBroadcast.StepConverges: positions and velocities are not part of the state, only which ids are shown.
- ShownStates.DatagramShowsStates: session ids are below 2^32, since beyond it two sessions can share an entity id; a real's bit pattern is any function of it.
- ServerShutdown.ShutdownCompletes: the 10 ms sleep of the waiting loop is not a step.
- UdpStreaming.WakeUp: a session's state does not change between the loops of one wake-up.
- StreamingRuns.Worker: the table and the sessions' states and rates do not change during the run, except by the worker itself.
- Announcements.EndWorker: the worker counter is part of ServerShutdown, not of this method.
- AnnouncedWorlds.CatchUp: the client has seen no state updates yet; SpawnBroadcast covers them, on ids.
- ClientReceiver.UdpReceiver.Receive: the check of the flag and the recording that follows are one step, which in the source they are not.
- GameClients.GameClient.Disconnect: the watchdog has been joined, so it is one step; likewise each turn of the watchdog between two 300 ms sleeps.
- GameClients.GameClient.Play: a failed send may have put a prefix of the message on the wire.
- Playback.PlaybackAgreesIff: a failed send breaks the connection, so later sends fail too; the server's own ending of a broken session is not part of the run.
- ControlChannel.ProcessOneMessage: the announcements that follow a registration are in Announcements, not in this method.
- ControlInputReceiver.ReceiveWorker: nothing else touches the sessions in between; SessionRuns and ControlInputs interleave inputs with ticks and commands.
- Announcements.BroadcastSpawnsForNewSession: the sessions of the table have different connections, since each is made from a socket of its own.
