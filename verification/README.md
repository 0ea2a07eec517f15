# nil/service, verified model

nil/service puts messages on byte streams and datagrams. The services are state machines driven by completion
handlers: framing with resumable partial reads, descriptors and sockets that come and go, 25 ms probes against 50 ms
timers, tables of peers, and typed payloads. This project models those handlers in Dafny, one method for each, and
proves what whole runs of them do.

Conventions. A handler is one atomic step, and handlers are serialised. A timer wait completes at its deadline or is
aborted by `expires_after`, `cancel` or destruction; destroying a descriptor aborts its read. A class keeps outstanding
operations in sequences or counters (`pending`, `retryWaits`, `timers`, ...), so "exactly one outstanding" is proved and
not built in. Every class has an invariant (`Valid`) that each handler keeps, and a method `Run`, `RunAll` or
`Deliver` that drives it with an arbitrary sequence of inputs and states the result for all of them. An input that
cannot happen in a state is skipped. What the environment decides (answers of `make_read`, chunk sizes, errors, times)
is a parameter.

| file | content |
|---|---|
| Bytes, Framing | integers on the wire, the frame format, and the whole-stream parser that both readers refine |
| TcpConnection | the tcp reader and writer |
| PipeSpec, Pipe | the pipe: a machine over byte histories with the theorems about runs, and the service that refines it |
| Codec, Stack | values, `concat`, `consume`, `map`; the whole stack over one pipe |
| Probes, UdpServer, UdpClient, UdpRun, UdpPair | probe histories, the two udp services, probe schedules, and both services on one network |
| PeerLog, ClientLog | what a list of callbacks says about one peer, or about a client |
| Registry, Client | the tcp server's connection list (also that of http WebSocket routes); the reconnecting tcp and ws clients |
| Ids, Routing, Gateway | addressing, who is written to, and the gateway's queue |

## What the proofs found

- A pipe never calls an `on_ready` handler. The only notification is made by the constructor, when no handler can be
  registered yet, and every later `reconnect_read` passes `false` (`Pipe.Run`).
- The probe timers are safe if and only if handler lateness plus delay variation is below 25 ms (`UdpRun.ExactBound` for
  schedules; `UdpPair.TwoParties` and `UdpPair.Unsteady` for the two services on a network).
- `concat` and `consume` invert each other if and only if no string has bytes after it (`Codec.RoundTrip`), and a handler
  gets exactly what was sent if and only if its signature is that of the fields (`Codec.ExactTypes`, `Stack.FullStack`).
- On tcp and WebSocket, `send(ids)` and `publish_ex(ids)` split `publish` if and only if no connection is listed twice;
  on udp they always do (`Routing.RegistryPartition`, `Routing.DatagramPartition`, `Routing.GatewayPartition`).
- A udp receive that fails is final for the server. The client hears again if and only if it was connected at that moment
  and a socket can be opened when its timeout comes due: the timer that opens a new one is armed only while connected
  (`UdpServer.FailedReceive`, `UdpClient.FailedReceive`).
- A pipe stops itself only in a read disconnect. A reopen attempt that is told "disabled" leaves it idle but running
  until a restart (`PipeSpec.SelfStop`, `PipeSpec.IdleForGood`).

## Model

| member | source | states |
|---|---|---|
| Bytes.ToArray | src/src/utils.hpp:50-67 | on a little- or big-endian host the bytes are the little-endian digits of the value |
| Bytes.FromArray | src/src/utils.hpp:69-88 | on either host the number read is that of the little-endian bytes |
| Bytes.Digit | src/src/utils.hpp:50-67 | byte i of the wire form is the base-256 digit of weight 256^i |
| Bytes.AcrossHosts | src/src/utils.hpp:50-88 | a value of any width written on one host is read back on any other |
| Framing.FrameBytes | src/src/pipe/create.cpp:438-464 | a frame is eight length bytes, the lowest first, and then the payload as it is |
| Framing.ParseAppend | src/src/tcp/Connection.cpp:28-89 | parsing is incremental: a prefix that is not oversize fixes its messages, only the incomplete frame is carried on |
| Framing.ParseWire | src/src/pipe/create.cpp:438-464 | a written stream parses to its non-empty frames up to the first oversize one, and is oversize iff there is one |
| Framing.ParseKeepsBytes | src/src/pipe/create.cpp:466-550 | any stream is the encoding of the frames completed in it followed by the incomplete one: no byte lost or invented |
| Framing.Grow | src/src/pipe/create.cpp:466-550 | what one completion, of any size the window allows, changes in the parse of the whole stream |
| TcpConnection.Connection.ReadCompleted | src/src/tcp/Connection.cpp:28-89 | after any completion the in-place buffer, its position and the messages are those of parsing all bytes so far; one read is outstanding with a non-empty window inside the buffer, or one disconnect was made |
| TcpConnection.Connection.Write | src/src/tcp/Connection.cpp:91-101 | one gather write offers exactly the frame |
| TcpConnection.Deliver | src/src/tcp/Connection.cpp:22-89 | chunking independence: for every stream and all chunk sizes the messages are the parser's, and the chain ends iff a frame is oversize |
| Pipe.Service.constructor | src/src/pipe/create.cpp:77-83 | the invariant holds from the start, in the state that the two descriptors given determine |
| Pipe.Service.ReadCompleted | src/src/pipe/create.cpp:466-550 | a completed read takes exactly the step of the byte-history machine: grow, park, or lose the descriptor |
| Pipe.Service.HandleReadError | src/src/pipe/create.cpp:318-345 | aborted: nothing; would-block, try-again, interrupted: parked with nothing lost; anything else: the descriptor is lost |
| Pipe.Service.HandleReadDisconnect | src/src/pipe/create.cpp:426-436 | one disconnect callback iff connected, the next descriptor, and a stop iff there is no descriptor, retry or writer |
| Pipe.Service.ReconnectRead | src/src/pipe/create.cpp:363-399 | a reader iff `make_read` gave a descriptor, the retry timer armed iff it said retry, otherwise idle; the result says whether to keep going |
| Pipe.Service.ReconnectWrite | src/src/pipe/create.cpp:401-424 | the writer is as `make_write` answered and the probe is armed iff both descriptors exist |
| Pipe.Service.RetryFired | src/src/pipe/create.cpp:231-263 | the shared timer reopens, or resumes the parked read where it was |
| Pipe.Service.PostTask | src/src/pipe/create.cpp:128-177 | with a writer the request goes behind those already queued, without one it is dropped |
| Pipe.Service.ProbeFired | src/src/pipe/create.cpp:265-286 | one empty frame is written and the probe armed again |
| Pipe.Service.RunFirstTask | src/src/pipe/create.cpp:128-177 | `publish`, `publish_ex` and `send` write one frame iff the peer is addressed |
| Pipe.Service.WriteMessage | src/src/pipe/create.cpp:438-464 | the bytes on the descriptor are always the encoding of the frames put on it |
| Pipe.Service.StopLoop | src/src/pipe/create.cpp:103-107 | both timers are cancelled and the loop is stopped |
| Pipe.Service.RestartService | src/src/pipe/create.cpp:109-121 | everything queued is dropped, the epoch ends without a disconnect callback, and the service starts anew |
| Pipe.Run | src/src/pipe/create.cpp:231-436 | over every run: callbacks, written bytes and whether the loop is stopped are those of the machine; one continuation, reopen wait or none as its mode says; loop active iff reader; probe armed iff both descriptors; no ready handler is called |
| Pipe.DeliverThrough | src/src/pipe/create.cpp:324-356 | chunking independence with would-blocks anywhere: the callbacks on a descriptor depend on its bytes alone |
| PipeSpec.EventLanguage | src/src/pipe/create.cpp:304-311 | over every run connect and disconnect alternate from connect, messages lie between, and the service is inside a connection iff the descriptor yielded a whole header |
| PipeSpec.Language | src/src/pipe/create.cpp:304-311 | that language event by event: a connect iff none is open, a message or a disconnect iff one is |
| PipeSpec.EpochsAreSpans | src/src/pipe/create.cpp:363-399 | over every run, with any losses, restarts and retries: the epoch of each descriptor is exactly the chunks that completions carried between one loss or restart and the next, ended as the inputs say |
| PipeSpec.DeliveredPerEpoch | src/src/pipe/create.cpp:363-399 | the messages of every run are the independent parses of these spans, concatenated |
| PipeSpec.BytesAreReceived | src/src/pipe/create.cpp:245-263 | over every run all descriptors together yielded what the completions carried, in order: no byte lost or repeated |
| PipeSpec.ChunkingIndependence | src/src/pipe/create.cpp:466-550 | two runs whose descriptors yielded the same bytes and ended alike make the same callbacks, whatever the chunks, would-blocks, timers and writes |
| PipeSpec.OneDescriptor | src/src/pipe/create.cpp:324-345 | while nothing fails and no frame is oversize there is one descriptor and it yielded all that was carried |
| PipeSpec.SelfStop | src/src/pipe/create.cpp:426-436 | over every run the loop is stopped iff some input was `stop`, or a failed or oversize read that found neither descriptor, retry nor writer, and no restart came later |
| PipeSpec.StopsExactly | src/src/pipe/create.cpp:426-436 | which single inputs stop a running loop |
| PipeSpec.ReopensAsTold | src/src/pipe/create.cpp:363-399 | over every run of a loop that is not stopped: it waits to try again iff the last answer of `make_read` was retry, has a descriptor iff it was one, and is idle otherwise |
| PipeSpec.ReopenedReads | src/src/pipe/create.cpp:231-243 | a lost descriptor, a retry that opens the next, and a chunk on it, which begins an epoch of its own |
| PipeSpec.StoppedIsStill | src/src/pipe/create.cpp:103-107 | once stopped, nothing is read, written or called until a restart |
| PipeSpec.DisabledLeavesIdle | src/src/pipe/create.cpp:231-243 | a reopen attempt that is told "disabled" leaves the loop running and idle |
| PipeSpec.IdleForGood | src/src/pipe/create.cpp:363-399 | from then on, until a restart, nothing is opened, no handler is called, and only `stop` stops the loop |
| PipeSpec.WritesAsRouted | src/src/pipe/create.cpp:128-177 | `publish` always writes, `publish_ex` unless the pipe is listed, `send` if it is, as a gateway's service with one peer |
| PipeSpec.EndToEnd | src/src/pipe/create.cpp:438-550 | a peer that has read part of a written stream handed over exactly the non-empty frames it completed, in order and once each; probes are never messages |
| PipeSpec.EndToEndComplete | src/src/pipe/create.cpp:438-550 | with all bytes read and no frame oversize: one connect, then every non-empty frame |
| PipeSpec.EndToEndOversize | src/src/pipe/create.cpp:512-523 | an oversize frame: connect, the non-empty frames before it, disconnect |
| PipeSpec.SentByRun | src/src/pipe/create.cpp:128-177 | over every run the frames on the write descriptor are the payloads of the executed tasks in order, and probes |
| PipeSpec.InOrder | src/src/pipe/create.cpp:128-177 | over every run without restart: the executed requests and then the queue are what was queued and then posted, in order |
| PipeSpec.PipeToPipe | src/src/pipe/create.cpp:128-177 | from any run of one pipe to its peer: a prefix of what was posted for it, in the order of posting, and all of it once the queue is empty and the bytes are read |
| Codec.SerializeEach | src/publish/nil/service/codec.hpp:132-141 | elements are written back to back at the cursor; no byte is skipped and nothing else overwritten |
| Codec.Serialize | src/src/codec.cpp:7-48 | each value fills exactly `codec::size` bytes, all others are as before |
| Codec.SizeOf | src/publish/nil/service/codec.hpp:122-130 | the size of an array field is the sum of its elements' |
| Codec.ConcatInto | src/publish/nil/service/concat.hpp:19-26 | the buffer starts with the values' bytes in order and the count is their total |
| Codec.Concat | src/publish/nil/service/concat.hpp:36-43 | the message is exactly the values' bytes |
| Codec.Cursor.Consume | src/publish/nil/service/consume.hpp:23-31 | one value is taken off and pointer and size move past exactly its bytes |
| Codec.TakeSerial | src/src/codec.cpp:13-47 | a scalar of any width, signed or boolean, is read back whatever follows it; a string takes all that is left |
| Codec.OnTheWire | src/src/utils.hpp:50-88 | true is 1, false is 0, numbers are two's complement, lowest byte first; any byte but 0 is taken for true |
| Codec.RoundTrip | src/publish/nil/service/consume.hpp:23-31 | consuming the concatenated types gives the values back with nothing left iff no string has bytes after it |
| Codec.ArrayIsItsElements | src/publish/nil/service/codec.hpp:119-142 | an array field is the concatenation of its elements |
| Codec.ExactTypes | src/publish/nil/service/consume.hpp:23-31 | consuming any types off a message gives its values with nothing left iff they are the values' types and no string has bytes after it |
| Codec.Route | src/publish/nil/service/map.hpp:26-54 | the first handler registered for the consumed tag is called with the rest; none if no tag matches |
| Stack.FullStack | src/publish/nil/service/map.hpp:26-54 | letters published among probes and read in any chunks: one connect, one message a letter in order, each dispatched by a `map` with one tag type and fixed signatures; a letter whose tag has that type calls the first handler for it, which gets exactly the fields iff its signature is theirs |
| Stack.DispatchHandles | src/publish/nil/service/map.hpp:37-52 | what such a `map` does with a letter: handler, values taken, and when they are exactly the fields |
| Stack.FirstWins | src/publish/nil/service/map.hpp:43-50 | of several handlers for a tag the first registered is the one called |
| Stack.ReadersAgree | src/src/tcp/Connection.cpp:28-89 | pipe and tcp readers with different chunking hand over the same messages and give up on the same streams |
| Probes.RecentIffSomeRecent | src/src/udp/server/create.cpp:207-228 | a re-armed 50 ms timer is pending iff some ping came in the last 50 ms |
| UdpServer.Server.Ping | src/src/udp/server/create.cpp:198-233 | a new endpoint gets one entry and one connect, a known one keeps its entry; the timer is 50 ms from now; one reply |
| UdpServer.Server.Expire | src/src/udp/server/create.cpp:209-227 | a due timer makes one disconnect and removes exactly its entry |
| UdpServer.Server.MessageFrom | src/src/udp/server/create.cpp:235-266 | marker 1 is a ping; any other datagram is a message iff its sender is in the table, otherwise nothing |
| UdpServer.Server.Received | src/src/udp/server/create.cpp:268-287 | at most the buffer's bytes of a datagram count; its callbacks, replies and table changes; the next receive starts unless this one failed |
| UdpServer.WhatArrives | src/src/udp/server/create.cpp:235-287 | one more datagram byte by byte: what it adds to the callbacks and the pings, whole up to the buffer's size |
| UdpServer.Server.AdvanceTo | src/src/udp/server/create.cpp:207-227 | when time passes exactly the entries whose timer came due are gone, the others keep their order |
| UdpServer.Server.TableIsIndex | src/src/udp/server/create.cpp:198-266 | the endpoints are distinct and exactly those heard from in the last 50 ms; an entry was made by the ping that began its present chain of pings under 50 ms apart |
| UdpServer.Server.PublishNow | src/src/udp/server/create.cpp:89-101 | one external datagram to every entry |
| UdpServer.Server.SelectNow | src/src/udp/server/create.cpp:103-137 | the loop of both: one external datagram to every entry that is listed, or to every one that is not |
| UdpServer.Server.SendNow | src/src/udp/server/create.cpp:121-137 | a datagram goes to exactly those entries whose owner and connection some listed id has |
| UdpServer.Server.PublishExNow | src/src/udp/server/create.cpp:103-119 | to exactly the others |
| UdpServer.SelectIsFiltered | src/src/udp/server/create.cpp:170-181 | these are the peers the routing functions give, compared by owner and connection |
| UdpServer.RunAll | src/src/udp/server/create.cpp:198-287 | over every run, receive errors included, the table lists once each the endpoints that pinged in the last 50 ms under the address last given; connects and messages are those that the arrivals amount to; an address is live iff listed, and gone with one disconnect otherwise |
| UdpServer.FailedReceive | src/src/udp/server/create.cpp:268-287 | a failed receive is the last: whatever arrives later is neither a ping nor a message |
| UdpServer.DeafServerEmpties | src/src/udp/server/create.cpp:207-227 | 50 ms after a failed receive the table is empty for good |
| UdpClient.Client.Received | src/src/udp/client/create.cpp:233-263 | a marker above zero is a reply, zero a message even when unconnected; ready and connect only at the first reply |
| UdpClient.WhatArrives | src/src/udp/client/create.cpp:233-263 | one more datagram byte by byte: what it does to the connection and the callbacks, whole up to the buffer's size |
| UdpClient.Client.TimedOut | src/src/udp/client/create.cpp:201-231 | one disconnect, and a new socket with one receive if it could be opened |
| UdpClient.Client.PingFired | src/src/udp/client/create.cpp:265-281 | one probe and the next wait 25 ms from now |
| UdpClient.Client.ConnectedIffRecent | src/src/udp/client/create.cpp:193-217 | connected iff a reply came in the last 50 ms |
| UdpClient.RunAll | src/src/udp/client/create.cpp:193-263 | over every run the callbacks, `connected` and the live receive are as the inputs say; connected iff a reply among them came in the last 50 ms; ready-connect and disconnect alternate; one receive is live if none failed and sockets could be opened |
| UdpClient.DeafForGood | src/src/udp/client/create.cpp:219-231 | from any state without a receive: there will be one again iff the client is connected and a socket can be opened when its timeout comes due; until then only that disconnect is called |
| UdpClient.FailedReceive | src/src/udp/client/create.cpp:248-263 | so for a receive that fails at any point of any run |
| UdpRun.GapBelow | src/src/udp/client/create.cpp:265-281 | with lateness plus delay variation under 25 ms, successive hearings are under 50 ms apart in any order of arrival |
| UdpRun.ExactBound | src/src/utils.hpp:45 | the 50 ms timer never expires in any run iff lateness plus delay variation is below the probe interval |
| UdpPair.TwoParties | src/src/udp/client/create.cpp:193-281 | both services on one network, probes from the client's own timer and replies from the server, any order, user datagrams and other endpoints in between: below the bound the server connects the client once, at its first probe, and the client connects once, at the first reply, and neither ever disconnects; the messages each hands over are those said to it |
| UdpPair.SaidIsHeard | src/src/udp/client/create.cpp:176-186 | what either side says is handed over by the other when it arrives, whole if it fits the buffer next to its marker and otherwise as much as fits |
| UdpPair.World.HearLetter | src/src/udp/server/create.cpp:255-263 | a letter of a client that the server knows is one message with exactly what was said |
| UdpPair.World.HearMail | src/src/udp/client/create.cpp:233-246 | likewise at the client |
| UdpPair.AnyOrder | src/src/udp/client/create.cpp:265-281 | probes and replies may overtake each other |
| UdpPair.ServerSafe | src/src/udp/server/create.cpp:207-227 | at any time to which the network lets time pass, the server's timer for the client is not due |
| UdpPair.ClientSafe | src/src/udp/client/create.cpp:201-217 | nor is the client's |
| UdpPair.Unsteady | src/src/utils.hpp:45 | from the bound on there is an allowed run in which the client disconnects |
| ClientLog.Alternation | src/src/udp/client/create.cpp:193-217 | what alternation means in numbers of ready, connect and disconnect |
| ClientLog.InTurn | src/src/udp/client/create.cpp:193-217 | and callback by callback |
| PeerLog.Shape | src/src/udp/server/create.cpp:198-266 | what the status of a peer says about its callbacks: a connect, messages, and one disconnect when it is gone |
| Registry.Server.Accepted | src/src/tcp/server/create.cpp:198-217 | an accepted connection is announced once and listed; one accept stays outstanding either way |
| Registry.Server.ChainEnded | src/src/tcp/server/create.cpp:174-191 | one removal is posted and the read chain is over |
| Registry.Server.RunTask | src/src/tcp/server/create.cpp:88-137 | a removal finds its connection, says goodbye once and removes exactly it; a write reaches the routed connections in order: on `publish` all, on `publish_ex` those not listed, on `send` those listed |
| Registry.Server.Erase | src/src/http/server/WebSocket.cpp:59-76 | exactly the entries with the id are removed |
| Registry.Server.SendNow | src/src/http/server/WebSocket.cpp:117-136 | one write for every listed id that is connected, as often as it is listed |
| Registry.Server.PublishExNow | src/src/http/server/WebSocket.cpp:95-115 | one write to every connection that is not listed |
| Registry.RunAll | src/src/tcp/server/create.cpp:169-217 | over every run the list is the accepted connections whose removal has not run, in order; callbacks are one connect an accept, messages while the chain is open, one disconnect when the removal runs; writes are those of the executed requests; one accept is outstanding |
| Registry.SilentAfterEnd | src/src/tcp/server/create.cpp:174-191 | after its read chain ended a connection delivers nothing, whatever happens later |
| Client.Service.Connected | src/src/tcp/client/create.cpp:164-190 | a connect leads to the timer, a live connection, or for ws the handshake |
| Client.Service.HandshakeDone | src/src/ws/client/create.cpp:197-217 | a handshake leads to the timer or a live connection |
| Client.Service.ChainEnded | src/src/ws/client/create.cpp:147-161 | the end of the read chain queues one drop |
| Client.Service.RunTask | src/src/tcp/client/create.cpp:75-157 | a drop finds its target, disconnects once and arms the timer; a write happens iff connected and addressed |
| Client.RunAll | src/src/ws/client/create.cpp:142-233 | over every run what is outstanding is exactly the one of connect, handshake, read, drop, timer that the protocol's history of inputs says; callbacks and writes are its too; the callbacks alternate |
| Routing.Reaches | src/src/tcp/server/create.cpp:88-137 | whom each request reaches: `send` those listed, `publish_ex` the others, `publish` all; by id on tcp, WebSocket and with one peer |
| Routing.ReachesTimes | src/src/udp/server/create.cpp:89-137 | and how often: once, but on tcp and WebSocket `send` as often as the id is listed |
| Routing.FannedReaches | src/src/gateway/create.cpp:23-45 | through a gateway: whom some service of it reaches |
| Routing.RegistryPartition | src/src/tcp/server/create.cpp:102-137 | `send` and `publish_ex` split `publish`, each written once, iff no connection is listed twice; repeats are written as often as listed |
| Routing.DatagramPartition | src/src/udp/server/create.cpp:103-137 | on udp they always split it |
| Routing.GatewayPartition | src/src/gateway/create.cpp:23-45 | through a gateway they split it iff no registry's connection is listed twice; nobody is missed |
| Routing.GatewayDisjoint | src/src/gateway/create.cpp:31-45 | for distinct owners nobody gets both |
| Routing.GatewayOnce | src/src/gateway/create.cpp:23-29 | for distinct owners `publish` writes to each recipient once |
| Gateway.Service.Forward | src/src/gateway/create.cpp:23-45 | every added service gets the same request, in order |
| Gateway.ForwardReaches | src/src/gateway/create.cpp:23-45 | these requests reach the recipients of the partition theorem |
| Gateway.Service.Raise | src/src/gateway/create.cpp:143-169 | an event is queued once for every time its service was added, with the payload of that moment |
| Gateway.Service.RunTask | src/src/gateway/create.cpp:117-141 | the first queued event goes to every handler registered by then, as often as it is registered and in that order |
| Gateway.CallsOfJoin | src/src/gateway/create.cpp:106-141 | each handler that is there is called once for each registration, in the order of registration; empty ones are skipped |
| Gateway.CallsForCount | src/src/gateway/create.cpp:117-141 | a handler is called with an event as often as it is registered in the deliveries of that event |
| Gateway.Service.Restart | src/src/gateway/create.cpp:96-99 | exactly the queued events are discarded |
| Gateway.RunAll | src/src/gateway/create.cpp:67-104 | over every run the calls and the queue are those that the history of raised events and their fates gives: each delivered once, in raise order, to the handlers registered at execution; discarded by a restart; or queued; every handler is called as often as its deliveries say |
| Gateway.NoneDiscarded | src/src/gateway/create.cpp:96-99 | without a restart no event is lost |
| Gateway.TurnsDeliver | src/src/gateway/create.cpp:117-141 | after any run that is not stopped, one turn for each waiting event delivers them all, to the handlers registered by then |

## Left out

- `restart` of tcp, udp, ws and http services, which replaces the context under live objects.
- Calls from other threads, and callbacks that call back into the service.
- Socket, acceptor, WebSocket and HTTP internals of asio and beast; HTTP requests and `WebTransaction`.
- Pipe.Service.WriteMessage: an error of `asio::write` is not modelled, so it reports success whenever a writer exists; no
  caller looks at the result, and the theorems about written streams are about frames written in full.
- TcpConnection.Connection.Write: a `write_some` that takes only part of a frame is not modelled, for the same reason.
- Exceptions of `send_to`, for instance on a socket that could not be opened again.
- Connection and peer addresses are fresh numbers; an address that the allocator uses again is not modelled.
- Buffer sizes within 8 of 2^64, where `buffer + 8` would wrap around.
- A scalar consumed from a payload that is too short is read out of bounds by the source; here it is the result
  `OutOfBounds`.
- Tasks that a user hands to the gateway's `dispatch`: only the forwarders' tasks are queued.
- Fan-out of one callback to several handlers, outside the gateway: a callback is one log entry for all of them.
- UdpPair.TwoParties: receive errors, lost probes or replies, and a client that had to open a new socket (its datagrams
  then come from another endpoint).
- A udp datagram that is handled at the very instant a timer comes due finds that timer already completed.
- `self`, `ws/server`, `mkfifo` helpers, `to_id`, C, Python and Lua bindings, and compile-time handler selection.
- Floating-point values are their bit patterns.
