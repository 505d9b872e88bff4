# bevy_eventwork in Dafny

A model of the core of bevy_eventwork, an event-driven networking layer for the Bevy
engine, with proofs of what it promises. The model covers four parts of the crate:

- **The connection manager and message router**: `Network<NP>` (`NetworkManager.Network`).
  It holds a table of established connections, each with an outgoing packet queue and three
  task handles. It also holds a registry from message-kind tag to the `(ConnectionId, bytes)`
  entries awaiting delivery, the FIFO queues of pending sockets, disconnect ids and errors,
  the optional listener handle, the `u32` connection counter, and the bookkeeping of connect
  attempts. The operations are `send_message`, `broadcast`, `disconnect`, `stop`, `listen`,
  `connect` and the per-tick poll step `handle_new_incoming_connections`. Routing is covered
  by the demultiplex task, `listen_for_message` and `register_message`.
- **The request/response matcher** (`NetworkRequest`):
  - the client's `ResponseMap`, a `u64` counter plus one-shot slots;
  - `send_request` and `Response::try_recv`;
  - the server's `Request` handles and `respond`;
  - the two handler systems that create request handles and resolve responses.
- **The length-prefixed TCP framing** (`Tcp`): an 8-byte little-endian length followed by
  the serialized packet.
  - `send_loop` is an imperative loop proved against the pure function `Sending`.
  - `recv_loop` fills a mutable `array` buffer and is proved against `Receiving`.
  - Round-trip, bound and prefix lemmas are proved about those functions.
- **Shared types** (`Eventwork`): `ConnectionId`, `NetworkPacket`, `NetworkData`,
  `NetworkEvent`, `NetworkError`, channels, task handles and `Connection::stop`.

A `Connection` owns its task handles, so dropping it cancels its tasks (`Connection.Drop`).
The table's `remove` in the poll step, its `clear` in `stop` and the end of
`Connection::stop` each drop a connection, and the model says so in their contracts.

Channels are objects (`Eventwork.Channel`) because they are aliased: the `Request` handle
shares its connection's outgoing queue. `open` says whether the receiving end still exists,
and `try_send` is refused once it is dropped or a bounded channel is full. bincode becomes
an abstract `Codec` pair, an encoder that may fail and a partial decoder. Its laws are
stated where they are needed (`RoundTrips`). The background tasks do things to the shared
state, and the model says what as methods of the manager:

- `Incoming`: the accept loop hands over a socket;
- `ReceiveTaskEnded`: `recv_loop` returned and its id is queued;
- `SendTaskEnded`: `send_loop` returned and its queue closes;
- `ConnectTaskFinished`: a connect task ended;
- `AcceptLoopFailed`: the accept loop reports a bind or accept failure;
- `Demux`: the per-connection demultiplex task.

`Scenarios` drives the model through short concrete runs. Each run's outcome is stated in
its contract.

Where the code and its documentation differ, the model follows the code:

- `stop` queues no disconnect ids. `StopAsWritten`, and `ListenAsWritten`, which runs it first,
  follow the code; `Stop` and `Listen` are the corrected versions (see Findings).
- `stop` empties the whole registry, kind keys included (`recv_message_map.clear()`). Kinds
  registered before a `stop` are therefore dropped by the demultiplexer afterwards, not just
  emptied.
- `connect`'s doc comment says it first disconnects from any existing server connection
  (src/managers/network.rs:76-78). Its body only records a new connect task, so `Connect`
  leaves the table, the registry and the queues as they were.
- `NetworkError` gains the `Serialization` and `SendError` variants that
  src/managers/network.rs:119 and src/managers/network_request.rs:349-354 construct. The enum
  in src/error.rs does not list them.

## Model

| member | source | states |
|---|---|---|
| Eventwork.NewDataAccessors | src/lib.rs:232-254 | `NetworkData::new(s, x)` gives back `s` from `source()`, `x` from `into_inner()` and `x` through deref |
| Eventwork.ConnectionIdEquality | src/lib.rs:180-189 | two connection ids are equal exactly when their `u32` values are |
| Eventwork.Packet | src/managers/network.rs:117-120 | a packet exists exactly when the message serializes; its kind is the type's `NAME` and its data the serialized bytes |
| Eventwork.PacketInjective | src/managers/network.rs:117-120 | for round-tripping messages, equal packets mean equal messages and vice versa |
| Eventwork.TaskHandle.Abort | src/runtime/bevy_runtime.rs:41-45 | aborting leaves the handle aborted, whatever it was, so a second abort changes nothing |
| Eventwork.Channel.Unbounded | src/lib.rs:172-177 | `AsyncChannel::new` / `unbounded()`: an empty, open channel with no capacity bound |
| Eventwork.Channel.Bounded | src/managers/network_request.rs:280 | `bounded(n)`: an empty, open channel holding at most `n` |
| Eventwork.Channel.TrySend | src/managers/network.rs:122-128 | `try_send` succeeds exactly when the receiver is alive and there is room, and then appends exactly the item |
| Eventwork.Connection.Drop | src/lib.rs:256-261 | dropping a connection drops its three `Option<Task>` handles, which cancels all three tasks; the cancelled send task drops the queue's receiving end, so the queue refuses further packets and keeps its contents |
| Eventwork.Connection.Stop | src/lib.rs:263-268 | the receive and send tasks are aborted, and `stop` consumes the connection, so on return the demultiplex task is cancelled too and the queue refuses further packets, keeping its contents |
| Eventwork.Decimal | src/lib.rs:191-195 | a number's decimal text is non-empty |
| Eventwork.DecimalRoundTrip | src/lib.rs:191-195 | the decimal text consists of digits and reads back as the same number |
| Eventwork.DisplayConnectionIdInjective | src/lib.rs:191-195 | an id displays as `Connection with ID=` followed by its digits, and distinct ids display differently |
| Eventwork.EscapeRoundTrip | src/lib.rs:204-210 | the `Debug` escaping of the kind loses nothing: it reads back as the original string |
| Eventwork.DebugPacketShowsKindOnly | src/lib.rs:204-210 | two packets print the same debug text exactly when their kinds are equal, so the payload never shows |
| Eventwork.DisplayConnectionId | src/lib.rs:191-195 | `Display`: the fixed text `Connection with ID=` followed by the decimal id |
| Eventwork.DebugPacket | src/lib.rs:204-210 | `Debug`: the struct name and the `kind` field, escaped and quoted; no `data` field |
| Eventwork.Connection.constructor | src/managers/network.rs:206-234 | the connection holds the socket and the given outgoing queue, with its three tasks running |
| NetworkManager.Network.constructor | src/managers/network.rs:27-39 | `Network::new`: empty table, registry and queues, no listener, both counters zero |
| NetworkManager.Network.HasConnections | src/managers/network.rs:43-45 | true exactly when the table is non-empty |
| NetworkManager.Network.Listen | src/managers/network.rs:51-73 | corrected `listen`: the corrected `stop` runs first, with its full effect (every old connection dropped) when a listener was set and none otherwise; then exactly one running listener is left and the result is `Ok` |
| NetworkManager.Network.ListenAsWritten | src/managers/network.rs:51-73 | `listen` as written: `stop` as written runs first, so a restart clears the table, registry and pending sockets and drops every old connection but queues no disconnect id; then exactly one running listener is left and the result is `Ok` |
| NetworkManager.Network.Stop | src/managers/network.rs:155-166 | corrected `stop`: without a listener nothing changes, no connection included; with one, the handle is cleared, every established id is queued for disconnect exactly once after the queue's old contents, every established connection is dropped by the `clear`, and the table, the whole registry and the pending sockets are emptied, with nothing else changed |
| NetworkManager.Network.StopAsWritten | src/managers/network.rs:155-166 | `stop` as written: the same, except that the disconnect queue is unchanged |
| NetworkManager.Network.PostDisconnects | src/managers/network.rs:158-160 | the loop over the table queues each established id once, in some order, after the old queue; nothing else changes |
| NetworkManager.EnumeratesCount | src/managers/network.rs:158-160 | a list naming each key of the table exactly once has as many entries as the table |
| NetworkManager.Network.DiscardNewConnections | src/managers/network.rs:164 | the draining loop empties the socket queue and changes nothing else |
| NetworkManager.Network.Connect | src/managers/network.rs:86-89 | the attempt is recorded as running under the old attempt counter, which moves on by one modulo 2^32 |
| NetworkManager.Network.ConnectTaskFinished | src/managers/network.rs:89-103 | a finished attempt removes itself; a socket joins the new-connection queue and an error the error queue |
| NetworkManager.Network.Incoming | src/tcp.rs:61-64 | the accept loop appends the accepted socket to the new-connection queue |
| NetworkManager.Network.AcceptLoopFailed | src/tcp.rs:37-58 | a failed bind (`Listen`) or a failed accept (`Accept`) is appended to the error queue; nothing else changes |
| NetworkManager.Network.ReceiveTaskEnded | src/managers/network.rs:207-217 | when `recv_loop` returns, the connection's id joins the disconnect queue |
| NetworkManager.Network.SendTaskEnded | src/managers/network.rs:228-231 | when `send_loop` returns, that connection's queue refuses packets from then on; every other queue is unchanged |
| NetworkManager.Network.SendMessage | src/managers/network.rs:107-131 | an unknown id gives `ConnectionNotFound(id)` before any serialization; a failed serialization gives `Serialization`; a closed queue gives `ChannelClosed(id)`; success appends exactly `NetworkPacket{NAME, bytes}` to that queue; no other queue changes |
| NetworkManager.Network.Broadcast | src/managers/network.rs:134-149 | a failed serialization panics with `Couldn't serialize message!`; otherwise every open queue gets the same packet appended and a closed queue is skipped |
| NetworkManager.Network.Disconnect | src/managers/network.rs:169-179 | an absent id gives `ConnectionNotFound(id)` and changes nothing; otherwise the entry is removed and stopped, which leaves none of its three tasks and a queue refusing packets |
| NetworkManager.AcceptAll | src/managers/network.rs:188-238 | each queued socket in FIFO order advances the counter and is entered under the new value with running tasks and a fresh empty queue of its own, emitting `Connected` in queue order; old entries stay |
| NetworkManager.AcceptStep | src/managers/network.rs:189-237 | one more socket extends the accepted table and events by the next id, without touching the other entries |
| NetworkManager.Open | src/managers/network.rs:201-234 | the new connection carries the socket, fresh running tasks and a fresh, empty, unbounded outgoing queue |
| NetworkManager.Network.EstablishNewConnections | src/managers/network.rs:188-238 | the socket loop on the manager: the queue is emptied, the counter advanced by the number of sockets, and the accepted table installed |
| NetworkManager.DropAll | src/managers/network.rs:161 | the connections of a table under the given ids are dropped and every other one is left exactly as it was |
| NetworkManager.Network.DrainDisconnects | src/managers/network.rs:240-245 | each queued id in FIFO order is removed from the table (an absent id is no error) and yields `Disconnected`, in queue order; each removed connection is dropped, and every connection that stays is untouched |
| NetworkManager.Network.HandleNewIncomingConnections | src/managers/network.rs:182-246 | the poll step: all `Connected` events come before all `Disconnected` events; the new keys are the old ones plus the new ids, minus the drained ids; untouched entries are unchanged; the old connections under drained ids are dropped and the others untouched; without wrap-around the `k`-th queued socket is the socket of id `c + k + 1` where that id survives |
| NetworkManager.SuccWraps | src/managers/network.rs:189 | `connection_count += 1` is addition modulo 2^32 |
| Eventwork.Channel.CloseReceiver | src/managers/network.rs:228-231 | the receiving end is gone: the channel refuses from then on and keeps what it holds |
| NetworkManager.AdvanceWraps | src/managers/network.rs:189 | `n` increments of the `u32` counter add `n` modulo 2^32 |
| NetworkManager.AdvanceNoWrap | src/managers/network.rs:189 | without wrap-around, `n` increments add `n` |
| NetworkManager.AcceptedSockets | src/managers/network.rs:188-238 | without wrap-around, the `k`-th queued socket sits under the `k`-th new id |
| NetworkManager.NextIdNoWrap | src/managers/network.rs:189-193 | the `k`-th socket of a step from counter `c` gets id `c + k + 1`, so the first id of a fresh manager is 1 |
| NetworkManager.IdsIncrease | src/managers/network.rs:189-193 | the ids of one poll step lie above its starting counter and strictly increase in queue order |
| NetworkManager.NewIdsRange | src/managers/network.rs:189-193 | the new ids of a step are exactly `c + 1 .. c + n` |
| NetworkManager.ConnectedEventsAt | src/managers/network.rs:237 | the `k`-th event of the socket loop is `Connected` for the `k`-th socket's id |
| NetworkManager.ConnectedEventsLength | src/managers/network.rs:237 | one `Connected` event per socket |
| NetworkManager.Network.Demux | src/managers/network.rs:218-227 | the demultiplex task updates the registry to the in-order routing of the packets |
| NetworkManager.Routed | src/managers/network.rs:218-227 | routing a stream of packets keeps the registry's kinds: no kind is added or removed |
| NetworkManager.RoutedSpec | src/managers/network.rs:219-226 | routing adds and removes no kind, and each registered kind's list grows by exactly its own packets' `(source, data)`, in arrival order |
| NetworkManager.UnregisteredDropped | src/managers/network.rs:222-224 | packets of unregistered kinds leave the registry unchanged |
| NetworkManager.Network.Register | src/managers/network.rs:270-275 | a tag already present panics with `Duplicate registration of <role>: <tag>` and changes nothing; otherwise an empty list is inserted under it |
| NetworkManager.Network.ListenForMessage | src/managers/network.rs:263-278 | the same check and insertion for a message type, with the role `ServerMessage` |
| NetworkManager.Network.RegisterMessage | src/managers/network.rs:281-297 | an absent kind is a no-op; otherwise the list is emptied and its deserializable entries are delivered in order |
| NetworkManager.DecodeAll | src/managers/network.rs:292-296 | at most one delivery per entry |
| NetworkManager.DecodeAllSplits | src/managers/network.rs:292-296 | a mixed list is filtered entry by entry: a concatenation delivers its parts' deliveries in order, and one entry delivers its message exactly when it deserializes |
| NetworkManager.DecodeAllDecodable | src/managers/network.rs:292-296 | when every entry deserializes, each is delivered in order with its source |
| NetworkManager.DecodeAllUndecodable | src/managers/network.rs:292-296 | entries that do not deserialize are dropped |
| NetworkManager.KindEntriesOfMessages | src/managers/network.rs:117-120 | a stream of one type's packets leaves exactly its `(source, data)` entries under that type's tag |
| NetworkManager.DeliveredAsSent | src/managers/network.rs:287-296 | round-tripping messages packed by `send_message` and routed into an empty list are delivered as exactly those messages, in order, tagged with their connection |
| NetworkRequest.RequestKind.RequestType | src/managers/network_request.rs:314-316 | `RequestInternal<T>` travels under the request's `REQUEST_NAME` and uses the request's serializer |
| NetworkRequest.RequestKind.ResponseType | src/managers/network_request.rs:418-420 | `ResponseInternal<T>` travels under the response type's `NAME` and uses the response's serializer |
| NetworkRequest.NextCount | src/managers/network_request.rs:277-279 | `fetch_add(1)` leaves the counter one higher modulo 2^64, never equal to before |
| NetworkRequest.Response.TryRecv | src/managers/network_request.rs:250-256 | `Ok(v)` exactly when the slot holds a value, with `v` the first one; otherwise the very same handle |
| NetworkRequest.ResponseMap.constructor | src/managers/network_request.rs:266-273 | counter zero and no pending slots |
| NetworkRequest.ResponseMap.GetResponder | src/managers/network_request.rs:276-283 | the id is the old counter, the counter moves on by one, and a fresh, empty, open slot is stored under the id |
| NetworkRequest.ResponseMap.Remove | src/managers/network_request.rs:285-287 | returns the slot under the id if there is one and deletes it; the counter stays |
| NetworkRequest.SendRequest | src/managers/network_request.rs:229-238 | the id and its slot are allocated before sending; `RequestInternal{id, request}` is sent with `send_message`'s full contract; on error the counter stays advanced and the slot pending but closed, because the dropped `Response` took its receiver; on success the slot is open and returned |
| NetworkRequest.HandlesFromKnownSources | src/managers/network_request.rs:400-409 | every handle comes from a connected source, answers on that source's queue, and carries the id and the request of an arrived request from it |
| NetworkRequest.HandlesForConnectedSources | src/managers/network_request.rs:400-409 | with every source connected there is exactly one handle per request, in order, with its source, id, payload and queue |
| NetworkRequest.HandlesForDepartedSources | src/managers/network_request.rs:401 | requests from departed sources yield no handle |
| NetworkRequest.RequestHandles | src/managers/network_request.rs:395-410 | the reference definition of the request handler: at most one handle per arrived request |
| NetworkRequest.RequestHandlesSplit | src/managers/network_request.rs:395-410 | a mixed batch is filtered request by request: a concatenation gives its parts' handles in order, and one request gives a handle exactly when its source is connected |
| NetworkRequest.Request.GetRequest | src/managers/network_request.rs:331-333 | the request the handle was built from |
| NetworkRequest.Request.Source | src/managers/network_request.rs:337-339 | the connection the request came from |
| NetworkRequest.CreateRequestHandlers | src/managers/network_request.rs:395-410 | the loop emits exactly the handles of the reference definition |
| NetworkRequest.ResponsePacketDecodes | src/managers/network_request.rs:343-350 | a round-tripping response travels under the response type's name, and its bytes decode to the request's id and the response |
| NetworkRequest.ResponsePacket | src/managers/network_request.rs:343-350 | a response packet exists exactly when `ResponseInternal{id, response}` serializes, and travels under the response type's `NAME` |
| NetworkRequest.Respond | src/managers/network_request.rs:342-355 | a failed serialization gives `Serialization`; a refused queue gives `SendError`; success appends exactly the response packet to the captured queue |
| NetworkRequest.ResponseIdsSpec | src/managers/network_request.rs:463-464 | an id is among the response ids exactly when some response carries it |
| NetworkRequest.FirstResponseIsEarliest | src/managers/network_request.rs:463-467 | the value a slot receives is the response at the earliest position carrying its id |
| NetworkRequest.Deliver | src/managers/network_request.rs:464-467 | a pending id's slot is removed and offered the response, and reports whether it took it; an unknown id does nothing |
| NetworkRequest.DeliverNext | src/managers/network_request.rs:463-468 | one turn of the handler loop extends the resolved prefix by one response |
| NetworkRequest.ResolveResponses | src/managers/network_request.rs:459-470 | corrected handler: the answered ids are removed; each pending slot holds its own id's first response if it accepted, in any arrival order; duplicates, late and unknown ids are dropped; no slot opens or closes |
| NetworkRequest.ResolveResponsesAsWritten | src/managers/network_request.rs:459-470 | the handler as written completes exactly when every answered pending slot still accepted, and then has the corrected effect; otherwise it panics with `Internal channel closed!` |
| NetworkRequest.ListenForRequestMessage | src/managers/network_request.rs:373-382 | `REQUEST_NAME` already registered panics with role `RequestMessage`; otherwise it gets an empty list |
| NetworkRequest.ListenForResponseMessage | src/managers/network_request.rs:429-447 | installs a fresh, empty response map, then performs the same check for the response `NAME` with role `ResponseMessage` |
| Tcp.Pow256 | src/tcp.rs:127 | powers of 256 are positive |
| Tcp.Pow256Eight | src/tcp.rs:127 | eight bytes hold exactly the `u64` range |
| Tcp.LeBytes | src/tcp.rs:197 | `to_le_bytes` has exactly the requested width |
| Tcp.FromLe | src/tcp.rs:127 | `from_le_bytes` of `k` bytes is below 256^k |
| Tcp.FromLeOfLeBytes | src/tcp.rs:127 | decoding the little-endian bytes of a number that fits gives it back |
| Tcp.LeBytesOfFromLe | src/tcp.rs:127 | encoding a decoded byte string gives it back |
| Tcp.LengthRoundTrip | src/tcp.rs:194-197 | a `u64` length survives `to_le_bytes` then `from_le_bytes` |
| Tcp.NewSettings | src/tcp.rs:237-241 | `max_packet_length` is 10 MiB |
| Tcp.Header | src/tcp.rs:194-197 | the length prefix is 8 bytes |
| Tcp.SendLoop | src/tcp.rs:180-217 | the loop writes, consumes and stops exactly as `Sending` defines: unencodable packets skipped, header then payload, a failed write ends it |
| Tcp.Sending | src/tcp.rs:180-217 | the reference definition of `send_loop`: it never takes more packets than the queue delivers, and it ends with the queue closed only after taking all of them |
| Tcp.SendingWithEnoughWrites | src/tcp.rs:185-216 | when writes do not fail, the loop writes the frames of all encodable packets in order and drains the queue |
| Tcp.WrittenIsPrefix | src/tcp.rs:185-216 | whatever fails, the bytes written are a prefix of the full frames and at most the queue is consumed |
| Tcp.ReadFrame | src/tcp.rs:115-176 | a forwarding turn consumes at least the header and no more than the stream holds |
| Tcp.ReadTurn | src/tcp.rs:114-170 | the reads into the buffer and the decode of one turn give exactly `ReadFrame` |
| Tcp.ClosedSinkStops | src/tcp.rs:172-175 | with the manager's end gone, a turn that would forward stops with `SinkClosed` instead |
| Tcp.RecvLoop | src/tcp.rs:109-178 | the loop forwards exactly the packets of `Receiving`, in order, and stops for its reason |
| Tcp.Receiving | src/tcp.rs:109-178 | the reference definition of `recv_loop`: each forwarded packet costs at least its 8-byte header, and with the manager's end gone nothing is forwarded |
| Tcp.PanicsOnlyOnSmallBuffer | src/tcp.rs:114-117 | the header slice panics exactly when the buffer is shorter than 8 |
| Tcp.DefaultSettingsFitHeader | src/tcp.rs:237-241 | with the default settings the loop never panics on the header slice |
| Tcp.FrameSplits | src/tcp.rs:117-128 | a stream starting with a frame yields its length from the header and its payload after it |
| Tcp.OversizedFrameRejected | src/tcp.rs:143-149 | a header declaring any length `L` with `max < L < 2^64` ends the loop with `TooLarge(L)`, whatever bytes follow, so the payload is never read |
| Tcp.FrameAccepted | src/tcp.rs:143-176 | a frame up to and including the maximum whose payload decodes is forwarded, and reading continues after it |
| Tcp.FramesRoundTrip | src/tcp.rs:117-176 | reading the frames of round-tripping packets that fit gives exactly those packets, in order, then end of stream |
| Tcp.WireRoundTrip | src/tcp.rs:180-216 | end to end, when writes succeed the receiver gets every queued packet in queue order |
| Scenarios.ConnectedManager | src/managers/network.rs:188-237 | one queued socket on a fresh manager becomes connection 1, announced with `Connected(1)` |
| Scenarios.SendBeforeAndAfterPoll | src/managers/network.rs:112-131 | sending to a socket's future id fails with `ConnectionNotFound` before the poll step and is queued after it |
| Scenarios.FirstIds | src/managers/network.rs:188-237 | the first two sockets become connections 1 and 2, announced in queue order |
| Scenarios.DisconnectTwice | src/managers/network.rs:169-179 | a second disconnect of the same id, and any send to it, fail with `ConnectionNotFound` |
| Scenarios.TwoConnections | src/managers/network.rs:188-237 | two queued sockets on a fresh manager become connections 1 and 2, each with fresh running tasks and an empty open queue |
| Scenarios.BroadcastSkipsClosedQueue | src/managers/network.rs:134-149 | a connection whose send task ended gets `ChannelClosed` from `send_message` and is skipped by `broadcast`, which still reaches the other |
| Scenarios.EnumeratesSingleton | src/managers/network.rs:158-160 | the only disconnect list for a one-connection table is that connection |
| Scenarios.StopAsWrittenThenPoll | src/managers/network.rs:155-166 | after `stop` as written with one connection, the next poll step reports nothing |
| Scenarios.StopThenPoll | src/managers/network.rs:155-166 | after the corrected `stop` with one connection, the next poll step reports `Disconnected(1)` |
| Scenarios.RelistenAsWrittenThenPoll | src/managers/network.rs:51-73 | restarting a listener as written with connection 1 empties the table, and no poll step reports it |
| Scenarios.RelistenThenPoll | src/managers/network.rs:51-73 | restarting a listener with the corrected `stop`: the next poll step reports `Disconnected(1)` |
| Scenarios.StopWhenNotListening | src/managers/network.rs:155-156 | `stop` without a listener keeps the connection |
| Scenarios.ConsecutiveIds | src/managers/network_request.rs:276-283 | back-to-back responders on a fresh map get ids 0 and 1 |
| Scenarios.RemoveTwice | src/managers/network_request.rs:285-287 | the second `remove` of an id finds nothing |
| Scenarios.OutOfOrderResponses | src/managers/network_request.rs:463-469 | answers in reverse order each reach their own handle; a duplicate and a stray id are dropped, and nothing stays pending |
| Scenarios.PollTooEarly | src/managers/network_request.rs:250-256 | polling an unanswered handle gives back the same handle |
| Scenarios.AnswerToDroppedHandle | src/managers/network_request.rs:463-469 | the answer to a dropped handle panics as written and is dropped, with the slot gone, corrected |
| Scenarios.RequestToUnknownConnection | src/managers/network_request.rs:234-237 | a request to an unknown connection fails with `ConnectionNotFound`, but its id is spent and its slot stays pending and closed, so a stray answer with that id panics the handler as written |
| Scenarios.RespondAfterPoll | src/managers/network.rs:240-245 | a handle whose connection's receive task ended gets `SendError` once the poll step has removed that connection, whose three tasks are then cancelled |
| Scenarios.RespondAfterDisconnect | src/managers/network_request.rs:342-355 | a handle answers on its connection's queue while connected, gets `SendError` after a disconnect, and a request from the departed connection yields no handle |
| Scenarios.RegisterRequestKindTwice | src/managers/network_request.rs:373-382 | registering a request kind twice panics with the `RequestMessage` role and the tag; its response tag still registers |
| Scenarios.LengthBound | src/tcp.rs:143-149 | a frame declaring exactly the maximum is read, and one byte more is rejected with `TooLarge` |

## Left out

- Asynchronous execution: the runtime, task spawning and scheduling, and the interleaving of
  background tasks with the manager. Each task's effect is a method the environment calls
  (`Incoming`, `AcceptLoopFailed`, `ReceiveTaskEnded`, `SendTaskEnded`, `ConnectTaskFinished`,
  `Demux`).
- Eventwork.EscapeChar: the `Debug` escaping covers the backslash escapes and writes the
  control characters U+0000 to U+001F and U+007F to U+009F as `\u{hex}`. The other
  characters Rust prints as `\u{hex}` are left as they are: non-printable characters above
  U+009F and grapheme extenders. Unicode's printable and grapheme-extend tables are not
  modelled.
- Socket I/O: `TcpListener::bind`/`accept`, `TcpStream::connect`, `peer_addr` and `split`
  in src/tcp.rs. The accept loop's and the connect task's failures appear only as the
  errors they push on the error queue (`AcceptLoopFailed`, `ConnectTaskFinished`).
- bincode's byte layout. It is an abstract encoder/decoder pair, and its round-trip law is
  a precondition where needed.
- DashMap, `AtomicU32` and `AtomicU64` thread safety. Maps and counters are sequential.
- Logging (`error!`, `warn!`, `info!`, `debug!`, `trace!`) and the `Debug` impl of
  `Network` (src/managers/network.rs:16-24).
- Bevy app glue: plugin setup, `add_event`/`add_systems`, the resource lookups and their
  `expect` messages. Emitted and delivered events are output sequences.
- NetworkManager.AcceptAll: once the counter has wrapped onto an id still in the table,
  `insert` drops the connection it replaces. The model overwrites the entry and leaves the
  replaced connection's tasks and queue as they were, so `HandleNewIncomingConnections`
  states drops only for old ids that are not new ids of the same step.
- Handles on wasm32 targets, where `spawn` returns `None` (src/runtime/bevy_runtime.rs:17-21)
  and neither aborting nor dropping a handle cancels its task. The model follows the other
  targets, where every handle holds its task.
- The `expect` panics inside the spawned connect task ("Error channel has closed.",
  "Network dropped"). They concern the runtime's shared state, which is not modelled.
- Tcp.ReadFrame: the header read returns as many of the 8 bytes as the stream still holds.
  A socket whose `read` returns fewer bytes while more are on the way is not modelled;
  with `read` rather than `read_exact` (src/tcp.rs:117), that would also end the loop.
- Tcp.Sending: each write either writes everything or fails without writing. A partial
  header `write` (src/tcp.rs:197, `write` rather than `write_all`) is not modelled.
- Tcp.Receiving: a read error other than end of stream is not modelled separately. The
  stream is what the peer sent, and a truncated payload is `ShortPayload`.
- NetworkManager.IdsIncrease: "ids strictly increase and never repeat" is proved only for
  poll steps that do not pass 2^32 - 1. Past that the counter wraps, as release-build
  arithmetic does; `AdvanceWraps` states the wrapped value.
- The receiving side of the outgoing queues is not modelled as a consumer: nothing drains
  `items`. `Tcp.SendLoop` takes the sequence of packets its queue delivers as input.
- The error queue is only filled; no operation of the core drains it into
  `NetworkEvent::Error`.
- src/managers/client_request.rs and src/managers/server_request.rs are not part of this
  model. They are not compiled: src/managers.rs declares only `network` and
  `network_request`.

## Findings

`Scenarios.StopAsWrittenThenPoll` against `Scenarios.StopThenPoll`, and
`Scenarios.AnswerToDroppedHandle`, run each pair of members below on the same input.
`Scenarios.RequestToUnknownConnection` shows the second defect after a failed
`send_request`. `Scenarios.RelistenAsWrittenThenPoll` against `Scenarios.RelistenThenPoll`
shows the first defect through `listen`, which runs `stop` first (`ListenAsWritten` against
`Listen`).

| source | as written | input that shows it | evidently intended | confidence | as-written member | corrected member |
|---|---|---|---|---|---|---|
| src/managers/network.rs:159 | `let _ = self.disconnected_connections.sender.send(*conn.key());` creates an asynchronous send future and drops it unpolled, so `stop` queues no disconnect id | a listening manager with connection 1; `stop`, then one poll step: no `Disconnected(1)` event is emitted | one disconnect id per established connection, so that the poll step reports `Disconnected` for each (as the doc comment "Disconnect all clients" says) | not executed | NetworkManager.Network.StopAsWritten | NetworkManager.Network.Stop |
| src/managers/network_request.rs:465-467 | `sender.try_send(...).expect("Internal channel closed!")` panics when the slot refuses, which happens when the client dropped its `Response` handle before the answer arrived | `get_responder`, drop the handle, then a response with that id arrives: the system panics; a `send_request` that fails (for instance to an unknown connection) drops its handle too, so a stray answer with its id panics the same way | an abandoned request's answer is dropped like a late or unknown one | not executed | NetworkRequest.ResolveResponsesAsWritten | NetworkRequest.ResolveResponses |
