# P2P file sharing: signalling directory, relay and transfer framing

This project models, in Dafny, the core of a peer-to-peer file-sharing
application:

- the **room directory** of the signalling server (`RoomsService`): an
  in-memory map from room id to a room holding an ordered array of peers
  `{id, name, socketId}`, with create/get, upsert of a peer by id, removal by
  socket id and the two lookups used for routing (`directory.dfy`);
- the **presence handlers and signalling relay** (`SignalGateway`): what a
  joining client is sent, what its room channel is told on join and on
  disconnect, and where a `signal` envelope is forwarded and with which
  `from` (`gateway.dfy`). The socket.io server is modelled as an outbox of
  `(destination, event)` records plus a map from channel name to the sockets
  subscribed to it;
- the **transfer framer** of the room page: the `sendFile` loop that sends
  `FILE_META:` + `{name, size}`, 16 KiB binary chunks and `FILE_END`, and the
  data channel's `onmessage` handler that buffers chunks and delivers the
  file on `FILE_END` (`transfer.dfy`);
- the room page's **peer list** reducers for the `peers`, `peer-joined` and
  `peer-left` events (`peer_list.dfy`).

`wrappers.dfy` holds the `Option` type that stands for `undefined`/`null`
results.

The JavaScript `Map` of rooms is a sequence of `(key, room)` entries in
insertion order, the order its `for ... of` loops visit: `Map.set` on a key
already present replaces the value at the same position, a new key is
appended. The directory is a class whose methods reassign that sequence, and
each method is proved against a function of the old sequence (`Set`,
`Upsert`, `AfterRemoveBySocket`, `RemovedBySocket`, `SocketOfUser`,
`PeerOfSocket`); the lemmas prove what those functions mean: first match in
room order, splice removal, order kept, at most one room touched, the
directory invariant kept (keys distinct, each room stored under its own id,
peer ids distinct within a room).

Two behaviours of the code are kept as they are: `createRoom` overwrites a
room already stored under the same id without checking for a collision, and
the receiver ignores the size declared in the meta message.

## Model

| member | source | states |
|---|---|---|
| Directory.FindIndexById | backend/src/signal/rooms.service.ts:36 | `findIndex` by peer id: -1 exactly when no peer has the id, otherwise the first index holding it |
| Directory.FindIndexBySocket | backend/src/signal/rooms.service.ts:43 | `findIndex` by socket id: -1 exactly when no peer is on the socket, otherwise the first such index |
| Directory.KeyIndex | backend/src/signal/rooms.service.ts:26 | the key lookup behind `Map.get` and `Map.set`: -1 exactly when no entry has the key, otherwise the first position holding it |
| Directory.Get | backend/src/signal/rooms.service.ts:25-27 | `Map.get`: not found exactly when no entry has the key, otherwise the value stored under it |
| Directory.Set | backend/src/signal/rooms.service.ts:21 | `Map.set`: the key then maps to the new room, every other key maps to what it did, a present key keeps its position and a new one is appended, keys stay distinct |
| Directory.Upsert | backend/src/signal/rooms.service.ts:36-37 | the added peer is present; an existing id keeps the count and changes only records with that id; a new id is appended at the end; distinct ids stay distinct |
| Directory.UpsertReplacesAt | backend/src/signal/rooms.service.ts:36-37 | with distinct ids, the record with the peer's id is replaced at its own index and nothing else changes |
| Directory.UpsertAllLatest | backend/src/signal/rooms.service.ts:33-39 | after any sequence of addPeer calls on an empty room, ids are distinct, exactly the ids used are present, and each stored record is the one from the latest call with its id |
| Directory.FirstRoomWithSocket | backend/src/signal/rooms.service.ts:42-44 | index of the first room in insertion order holding a peer on the socket, -1 exactly when none does |
| Directory.FirstRoomWithId | backend/src/signal/rooms.service.ts:53-55 | index of the first room in insertion order holding a peer with the id, -1 exactly when none does |
| Directory.RemoveAt | backend/src/signal/rooms.service.ts:45 | `splice(j, 1)`: one shorter, entries before j kept, entries after j shifted down by one |
| Directory.RemovedBySocket | backend/src/signal/rooms.service.ts:41-50 | null exactly when no peer anywhere is on the socket; otherwise the room id and peer of the first match in room order |
| Directory.AfterRemoveBySocket | backend/src/signal/rooms.service.ts:41-50 | unchanged when no peer is on the socket; otherwise only the first matching room changes, by splicing out the first matching peer |
| Directory.RemovesFirstMatch | backend/src/signal/rooms.service.ts:41-50 | for the first match (i, j): returns that room id and peer, every other room unchanged, the room's peers are the rest in their order |
| Directory.RemoveTwiceFindsNothing | backend/src/signal/rooms.service.ts:41-50 | when at most one peer is on the socket, a second removal returns null and changes nothing |
| Directory.RemoveKeepsValid | backend/src/signal/rooms.service.ts:41-50 | removal keeps keys distinct, rooms under their own id and peer ids distinct |
| Directory.SocketOfUser | backend/src/signal/rooms.service.ts:52-58 | null exactly when no room holds a peer with the id; otherwise the socket of the first such peer in room order |
| Directory.PeerOfSocket | backend/src/signal/rooms.service.ts:60-66 | null exactly when no peer is on the socket; otherwise the first such peer in room order |
| Directory.FirstIdAtIsSocketOfUser | backend/src/signal/rooms.service.ts:52-58 | the lookup by user id answers with the socket of the first matching peer |
| Directory.FirstSocketAtIsPeerOfSocket | backend/src/signal/rooms.service.ts:60-66 | the lookup by socket answers with the first peer on it, the same peer removal by socket would remove |
| Directory.RoomsService.constructor | backend/src/signal/rooms.service.ts:16 | the service starts with no rooms |
| Directory.RoomsService.CreateRoom | backend/src/signal/rooms.service.ts:18-23 | returns an empty room with the given id, `getRoom(id)` then yields it, a room already under that id is replaced, other rooms unchanged |
| Directory.RoomsService.GetRoom | backend/src/signal/rooms.service.ts:25-27 | the room stored under the id, not found otherwise; a found room has that id |
| Directory.RoomsService.ListPeers | backend/src/signal/rooms.service.ts:29-31 | the room's peers, the empty array for an unknown room |
| Directory.RoomsService.AddPeer | backend/src/signal/rooms.service.ts:33-39 | unknown room: not found and the map unchanged (no room created); otherwise the room's peers become the upsert, in place, and no other room changes |
| Directory.RoomsService.RemovePeerBySocket | backend/src/signal/rooms.service.ts:41-50 | the loop returns what `RemovedBySocket` states and leaves the directory `AfterRemoveBySocket` states, keeping the invariant |
| Directory.RoomsService.FindSocketIdByUserId | backend/src/signal/rooms.service.ts:52-58 | the loop returns what `SocketOfUser` states |
| Directory.RoomsService.FindPeerBySocketId | backend/src/signal/rooms.service.ts:60-66 | the loop returns what `PeerOfSocket` states |
| Gateway.ChannelOf | backend/src/signal/signal.gateway.ts:28 | the channel name is `room:` followed by the room id; `ChannelOfInjective` is its partner |
| Gateway.Public | backend/src/signal/signal.gateway.ts:30 | the `.map` projection keeps the id and the name; its partner `PublicIgnoresSocket` proves it does not depend on the socket id |
| Gateway.PublicIgnoresSocket | backend/src/signal/signal.gateway.ts:30 | changing a peer's socket id leaves its public record unchanged, so `peers`, `peer-joined` and `peer-left` reveal nothing of the socket field |
| Gateway.SenderId | backend/src/signal/signal.gateway.ts:44 | `fromPeer?.id ?? client.id`: the raw socket id when no peer is on the socket, otherwise the id of the first peer on it in room order |
| Gateway.ChannelOfInjective | backend/src/signal/signal.gateway.ts:28 | `room:<roomId>` channels of different rooms differ |
| Gateway.LeaveAll | backend/src/signal/signal.gateway.ts:12-13 | a closing socket is in no channel any more and every other membership is unchanged |
| Gateway.Visible | backend/src/signal/signal.gateway.ts:30 | the `peers` payload holds `{id, name}` of exactly the room's peers on another socket than the joiner's |
| Gateway.VisibleConcat | backend/src/signal/signal.gateway.ts:30 | the `peers` payload keeps room order |
| Gateway.SenderIdCases | backend/src/signal/signal.gateway.ts:42-44 | `from` is the id of the first peer on the sender's socket, or the raw socket id when no peer is on it |
| Gateway.SecondJoinerSeesFirst | backend/src/signal/signal.gateway.ts:30-31 | of two peers joining an empty room on different sockets, the first is sent an empty list and the second exactly the first's public fields |
| Gateway.SignalGateway.constructor | backend/src/signal/signal.gateway.ts:10 | the gateway starts with nothing emitted and no channel subscriptions over a valid directory |
| Gateway.SignalGateway.HandleDisconnect | backend/src/signal/signal.gateway.ts:12-18 | the peer on the socket is removed; if one was removed exactly one `peer-left {id, name}` goes to its room's channel, otherwise nothing is emitted |
| Gateway.SignalGateway.OnJoinRoom | backend/src/signal/signal.gateway.ts:20-33 | unknown room: `{error: 'Room not found'}`, nothing emitted, no channel joined, directory unchanged; otherwise the upsert, the joiner subscribed to `room:<roomId>`, one `peers` to the joiner, one `peer-joined {id, name}` reaching every other channel member and not the joiner, result `{joined: roomId}` |
| Gateway.SignalGateway.OnSignal | backend/src/signal/signal.gateway.ts:36-46 | a resolvable target gets exactly one `signal {from, payload}` with the payload unchanged; an unresolvable one gets nothing; directory and channels never change |
| Transfer.Slice | frontend/src/pages/P2PRoomPage.tsx:104 | `file.slice(start, end)`: the bytes from `start` up to the smaller of `end` and the size, in order, and empty when `start` is at or past the end of the file |
| Transfer.Chunks | frontend/src/pages/P2PRoomPage.tsx:101-107 | every chunk holds between 1 and 16384 bytes and every chunk but the last exactly 16384 |
| Transfer.ChunkCount | frontend/src/pages/P2PRoomPage.tsx:101-107 | a file of S bytes gives ceil(S / 16384) chunks, none for S = 0 |
| Transfer.ChunkAt | frontend/src/pages/P2PRoomPage.tsx:102-107 | chunk i covers the bytes from offset i * 16384 to the next offset or the end of the file |
| Transfer.ChunksConcat | frontend/src/pages/P2PRoomPage.tsx:102-107 | the chunks concatenated are the file's bytes |
| Transfer.Frames | frontend/src/pages/P2PRoomPage.tsx:100-110 | the send sequence is one meta message with the file's name and size first, only chunks in between, one `FILE_END` last, two more than the chunks |
| Transfer.ReceivedName | frontend/src/pages/P2PRoomPage.tsx:72 | `meta.name`, falling back to `received.bin`: never empty, the given name when present and non-empty, `received.bin` otherwise |
| Transfer.Concat | frontend/src/pages/P2PRoomPage.tsx:75 | `new Blob(chunks)`: empty for no chunks, starts with the first chunk; `ConcatAppend` is its partner |
| Transfer.Receive | frontend/src/pages/P2PRoomPage.tsx:69-83 | the handler on one message: a file is delivered only on `FILE_END`, the name changes only on a meta message, data messages are appended unchanged with nothing else changed, control messages empty the buffer |
| Transfer.DataChannel.Send | frontend/src/pages/P2PRoomPage.tsx:106 | `dc.send` appends one message to what the channel has sent |
| Transfer.SendFile | frontend/src/pages/P2PRoomPage.tsx:97-111 | no channel or not open: nothing sent, only `datachannel not open` logged; open: exactly the meta message, the chunks, then `FILE_END` |
| Transfer.ConcatAppend | frontend/src/pages/P2PRoomPage.tsx:75 | the Blob of a split buffer is the Blobs of its parts concatenated |
| Transfer.ReceiveAllAppend | frontend/src/pages/P2PRoomPage.tsx:69-83 | handling two runs of messages is handling their concatenation |
| Transfer.ReceiveData | frontend/src/pages/P2PRoomPage.tsx:79-81 | messages that are neither meta nor end are buffered unchanged in arrival order and nothing else changes |
| Transfer.EndDeliversBuffered | frontend/src/pages/P2PRoomPage.tsx:74-78 | `FILE_END` delivers the concatenation of everything buffered, in arrival order, and clears the buffer |
| Transfer.NoEndNoDelivery | frontend/src/pages/P2PRoomPage.tsx:69-83 | without `FILE_END` the delivered file does not change |
| Transfer.RoundTrip | frontend/src/pages/P2PRoomPage.tsx:69-83 | from any receiver state, the messages `sendFile` sends deliver exactly the file's bytes under the sent name (the default name when it is empty) and leave the buffer empty |
| Transfer.IncompleteTransfer | frontend/src/pages/P2PRoomPage.tsx:69-83 | a fresh receiver given any proper prefix of a transfer delivers nothing |
| Transfer.FileReceiver.constructor | frontend/src/pages/P2PRoomPage.tsx:11-16 | empty buffer, name `received.bin`, nothing received |
| Transfer.FileReceiver.OnMessage | frontend/src/pages/P2PRoomPage.tsx:69-83 | meta: buffer cleared and name set to `meta.name` or `received.bin`; end: the buffer's concatenation delivered and the buffer cleared; anything else appended unchanged |
| PeerList.Without | frontend/src/pages/P2PRoomPage.tsx:37 | an entry is kept exactly when it was listed and has another id |
| PeerList.WithoutConcat | frontend/src/pages/P2PRoomPage.tsx:37 | the kept entries stay in their order |
| PeerList.WithoutAbsent | frontend/src/pages/P2PRoomPage.tsx:37 | a list without the id is unchanged |
| PeerList.Apply | frontend/src/pages/P2PRoomPage.tsx:35-37 | `peers` replaces the list, `peer-joined` appends one entry and keeps the rest, `peer-left` removes every entry with the id and keeps the others |
| PeerList.JoinThenLeave | frontend/src/pages/P2PRoomPage.tsx:36-37 | `peer-left` undoes `peer-joined` of an id that was not listed |
| PeerList.LeaveIdempotent | frontend/src/pages/P2PRoomPage.tsx:37 | a repeated `peer-left` changes nothing |

## Left out

- Random room ids (`Math.random().toString(36)`): `CreateRoom` takes the id as a parameter.
- Aliasing of the room object: `createRoom` and `addPeer` return the room the map holds by reference; the model returns its value at the time of the call.
- The HTTP controller, the NestJS module wiring and the home page: no logic beyond calls into the service, dependency injection, HTTP and navigation.
- socket.io delivery, the asynchronous `client.join` and concurrency across connections: emits are recorded in an outbox and joins take effect at once; handlers run one at a time.
- The removal of a closing socket from all its channels is socket.io's, not the gateway's; the model performs it at the start of `HandleDisconnect` because it decides who `peer-left` reaches.
- Gateway.Payload: the negotiation payload is an opaque value; the model does not look into offers, answers or candidates.
- JSON text: `Meta` carries the parsed `{name, size}`; `JSON.stringify`/`JSON.parse` and a malformed `FILE_META:` string (which makes `JSON.parse` throw) are not modelled.
- Transfer.Message: a string message other than the two control strings is given by the bytes of the Blob built from it; UTF-8 encoding is not modelled.
- `Blob`, `URL.createObjectURL` and the asynchronous `arrayBuffer()`: a delivered file is its byte sequence.
- Transfer.SendFile: the channel's state is fixed for the whole loop and one `sendFile` runs at a time; a channel closing during the awaits of the loop (the next `dc.send` throws, so only part of the frames are sent) and concurrent `sendFile` calls on one channel (their frames interleave) are not modelled, nor is the `setTimeout` pacing yield itself.
- WebRTC negotiation (`RTCPeerConnection`, offers, answers, ICE candidates, `ensurePeerConnection`, `call`), the `signal` handler of the page and the rendering: browser runtime calls and UI.
- Directory.UpsertAllLatest: states "the peer count equals the number of distinct ids used" as distinct ids plus the same set of ids, not as a cardinality.
