# Live-stream signaling server: a Dafny model

This project models the room and session coordinator of a one-to-many live-streaming
signaling server (`server.js`), together with two small helpers of its browser client
(`public/client.js`): the query-string parser and the client-side rate limiter.

The server keeps an in-memory map from room id to `{ publisher, viewers }`. It records
`roomId`, `role` and `username` on each socket, and reacts to seven socket events:
`join-room`, `offer`/`answer`/`ice-candidate` (relays), `chat-message`, `stop-stream`
and `disconnect`. A read-only `/rooms` endpoint lists the rooms.

## Structure

- `wrappers.dfy` (module `Wrappers`): `Option`, standing for JavaScript's `undefined`/`null`.
- `rooms.dfy` (module `Rooms`): socket ids, the `Room` entry, `ensureRoom` and the `/rooms` projection.
- `session.dfy` (module `Session`): the server state as a value. It holds the room map, the
  per-socket fields and an outbox of emits. Each event handler is one pure transition
  function. Every emit is an outbox record naming its target (a socket id or a room id)
  and its payload.
- `session_props.dfy` (module `SessionProps`): what each handler promises, which
  membership invariants the handlers keep, and where the code departs from the
  single-publisher design.
- `signal_server.dfy` (module `SignalServer`): class `Server`. Its fields `rooms`,
  `conns` and `outbox` are updated in place by one method per handler. Each method is
  proved to reach exactly the state the matching `Session` transition gives, so every
  lemma of `SessionProps` applies to it.
- `query.dfy` (module `Query`): `parseQuery`. It is a loop method proved against a fold
  over the pairs, with JavaScript's one-character `split` and its inverse.
- `rate_limit.dfy` (module `RateLimit`): `createRateLimiter` as a class with `refill` and
  `canSend`, proved against pure bucket functions. `Date.now()` is a parameter `now`.

## The code as written versus the intended design

The intended design has at most one publisher per room, a "clear the slot only if it
still names me" guard, and no orphaned rooms. The model follows the code, which differs
from that design in these ways. Each difference is proved as a lemma:

- A rejected publisher join still records `roomId` and `role = 'publisher'` on the
  socket, because the fields are written before the slot is checked. Two live sockets
  then both hold the publisher role in one room (`RejectedPublisherStillRecorded`).
- A publisher disconnect clears the slot whoever holds it. So a rejected publisher's
  disconnect clears the real publisher's slot (`RejectedPublisherDisconnectClearsSlot`).
  So does the disconnect of a publisher that stopped after a newer one took the room
  (`StaleDisconnectClearsNewPublisher`).
- `stop-stream` never deletes the room it empties (`StopStreamCanOrphanRoom`). It also
  leaves the caller's recorded room and role in place.
- A second `join-room` from the same socket is not rejected: it overwrites the recorded
  room, which leaves the first room's slot stale after disconnect (`RejoinLeavesStaleSlot`).
- The design keeps a publisher out of its own viewer set. A publisher that joins its own
  room again as a viewer is added to the viewers while still holding the slot, and is
  sent `viewer-joined` about itself (`PublisherRejoinsOwnRoomAsViewer`).
- `!roomId` also holds for the empty room id, so a socket in room `""` is never
  cleaned up (`EmptyRoomIdLeaks`).
- A viewer that joins after the publisher never receives `publisher-ready`. Only the
  publisher hears of it, through `viewer-joined`. The model keeps this.

The invariant that holds is `SlotsLive`: every occupied slot names a live socket
recorded in that room with the matching role. It holds as long as each socket joins
once and never joins room `""`. Under it a disconnecting socket disappears from every
room (`DisconnectForgetsSocket`), and no publisher is its own viewer
(`SlotsLiveSeparatesRoles`). "No orphaned rooms" (`NoOrphanRooms`) is kept by
`join-room` and `disconnect`, and broken only by `stop-stream`.

## Model

| member | source | states |
|---|---|---|
| `Rooms.EnsureRoom` | server.js:30-35 | the joined room is present afterwards; an existing entry is unchanged; a missing one is inserted as `{publisher: null, viewers: {}}`; no other entry changes and no key is removed |
| `Rooms.Listing` | server.js:16-24 | one entry per enumerated key, in order, with `hasPublisher` true exactly when the slot is set and `viewerCount` the size of the viewer set |
| `Rooms.ListingOneEntryPerRoom` | server.js:18-22 | when the order enumerates the map's keys once each, the listing has exactly one entry per room, as many entries as rooms, and no room id twice |
| `Session.DisplayName` | server.js:45 | the recorded name is never empty: a missing or empty username becomes `Anonymous`, any other is kept |
| `Session.Connect` | server.js:37 | no contract of its own; behaviour stated by `SessionProps.ConnectPreservesInvariants` |
| `Session.JoinRoom` | server.js:40-72 | no contract of its own; behaviour stated by `SessionProps.JoinRecordsConnection`, `JoinAsPublisher` and `JoinAsViewer` |
| `Session.RelayOffer` | server.js:75-77 | no contract of its own; behaviour stated by `SessionProps.RelayForwardsUnchanged` |
| `Session.RelayAnswer` | server.js:80-82 | no contract of its own; behaviour stated by `SessionProps.RelayForwardsUnchanged` |
| `Session.RelayIceCandidate` | server.js:85-87 | no contract of its own; behaviour stated by `SessionProps.RelayForwardsUnchanged` |
| `Session.Chat` | server.js:90-93 | no contract of its own; behaviour stated by `SessionProps.ChatBroadcastsToRoom` |
| `Session.StopStream` | server.js:96-104 | no contract of its own; behaviour stated by `SessionProps.StopStreamGuard` |
| `Session.SkipsCleanup` | server.js:112 | no contract of its own; the early return of `disconnect`, stated by `SessionProps.DisconnectCleanup` |
| `Session.Disconnect` | server.js:107-132 | no contract of its own; behaviour stated by `SessionProps.DisconnectCleanup` and `DisconnectForgetsSocket` |
| `SessionProps.JoinRecordsConnection` | server.js:40-47 | on every join, accepted or not, the socket records the room, the role as sent and the display name; other sockets and other rooms are unchanged; the joined room exists afterwards; emits are only appended |
| `SessionProps.JoinAsPublisher` | server.js:49-60 | a publisher join is accepted exactly when the slot is empty or the room is new: the slot then names the joiner, the viewers are kept, and `joined` goes to the joiner and then `publisher-ready` to the room; otherwise no room changes and only the joiner receives `ROOM_HAS_PUBLISHER` |
| `SessionProps.JoinAsViewer` | server.js:61-70 | any other role adds the socket to the viewer set and leaves the slot alone; `joined` with role viewer goes to the joiner, then exactly one notice: `viewer-joined` (id and name) to the publisher if there is one, else the waiting `info` to the joiner |
| `SessionProps.JoinAsViewerIdempotent` | server.js:62 | joining the same room again as a viewer leaves rooms and sockets as the first join left them |
| `SessionProps.RelayForwardsUnchanged` | server.js:75-87 | `offer`, `answer` and `ice-candidate` each append exactly one message to `toSocketId`, carrying the sender's id as `fromSocketId` and the payload unchanged; rooms and sockets are untouched |
| `SessionProps.ChatBroadcastsToRoom` | server.js:90-93 | a chat message goes to the named room with the client's name and text and the server clock as `ts`; nothing else changes |
| `SessionProps.StopStreamGuard` | server.js:96-104 | `stop-stream` changes the state exactly when the room exists and its slot holds the caller; it then clears the slot, keeps the viewers and emits `publisher-left` (`publisher_stopped`) to the room; it never adds or deletes a room and never touches a socket's fields |
| `SessionProps.StopStreamCanOrphanRoom` | server.js:96-104 | stopping in a room without viewers leaves an empty room in the map, so "no orphaned rooms" fails afterwards |
| `SessionProps.DisconnectCleanup` | server.js:107-131 | the socket always leaves the table; with no room, room `""` or a vanished room nothing else happens; a recorded publisher clears the slot unconditionally and the room hears `publisher-left` (`publisher_disconnected`); any other role leaves the viewer set and the publisher, if any, hears `viewer-left`; the room is deleted exactly when it has become empty; no other room changes |
| `SessionProps.ConnectPreservesInvariants` | server.js:37 | a new socket joins no slot, so `SlotsLive`, `NoOrphanRooms` and at-most-one-publisher-role all survive |
| `SessionProps.JoinPreservesNoOrphanRooms` | server.js:47-71 | after any join every room in the map still has a publisher or a viewer |
| `SessionProps.JoinPreservesSlotsLive` | server.js:40-72 | a first join into a non-empty room id keeps every slot naming a live socket recorded in that room with the matching role |
| `SessionProps.StopStreamPreservesSlotsLive` | server.js:96-104 | `stop-stream` keeps every remaining slot live |
| `SessionProps.DisconnectForgetsSocket` | server.js:107-131 | under `SlotsLive`, after a disconnect no room names the socket as publisher or viewer, and the remaining slots are still live |
| `SessionProps.DisconnectPreservesNoOrphanRooms` | server.js:127-131 | the room a disconnect empties is deleted, so no orphan appears |
| `SessionProps.SlotsLiveSeparatesRoles` | server.js:49-63 | under `SlotsLive` no room lists its publisher among its viewers |
| `SessionProps.RejectedPublisherStillRecorded` | server.js:43-60 | a refused publisher join changes no room but records the publisher role on the refused socket, so two live sockets hold the publisher role in one room |
| `SessionProps.RejectedPublisherDisconnectClearsSlot` | server.js:115-118 | after a refused join, the refused socket's disconnect clears the live publisher's slot, or deletes the room if it had no viewers, and tells the room the publisher left, while that publisher stays connected with its role |
| `SessionProps.StaleDisconnectClearsNewPublisher` | server.js:96-118 | a publisher that stopped, then disconnects after a newer publisher took the room, clears the newer publisher's slot |
| `SessionProps.RejoinLeavesStaleSlot` | server.js:43-44 | a publisher that joins a second room, as publisher or as viewer, and then disconnects leaves its first room's slot naming a socket that is gone |
| `SessionProps.PublisherRejoinsOwnRoomAsViewer` | server.js:61-66 | a publisher that joins its own room again as a viewer is added to the viewers while keeping the slot, is sent `joined` and then `viewer-joined` about itself, and the slot no longer names a socket recorded as publisher |
| `SessionProps.EmptyRoomIdLeaks` | server.js:112 | a viewer of room `""` stays in it after disconnecting, because `!roomId` skips the cleanup |
| `SessionProps.PublisherViewerLifecycle` | server.js:40-131 | P takes the room, Q is refused, V is announced to P, P's disconnect empties the slot and tells the room, which stays while V is in it, and V's disconnect deletes it |
| `SignalServer.Server.constructor` | server.js:14 | the server starts with no rooms, no sockets and no emits |
| `SignalServer.Server.EnsureRoom` | server.js:30-35 | updates `rooms` as `Rooms.EnsureRoom` does and returns the room's entry, the existing one when present |
| `SignalServer.Server.Connect` | server.js:37 | adds the new socket with no fields recorded |
| `SignalServer.Server.JoinRoom` | server.js:40-72 | updates the fields in place to exactly the state `Session.JoinRoom` gives |
| `SignalServer.Server.Offer` | server.js:75-77 | appends the relayed offer, as `Session.RelayOffer` |
| `SignalServer.Server.Answer` | server.js:80-82 | appends the relayed answer, as `Session.RelayAnswer` |
| `SignalServer.Server.IceCandidate` | server.js:85-87 | appends the relayed candidate, as `Session.RelayIceCandidate` |
| `SignalServer.Server.ChatMessage` | server.js:90-93 | appends the broadcast, as `Session.Chat` |
| `SignalServer.Server.StopStream` | server.js:96-104 | updates the fields in place to exactly the state `Session.StopStream` gives |
| `SignalServer.Server.Disconnect` | server.js:107-132 | updates the fields in place to exactly the state `Session.Disconnect` gives |
| `Query.JoinWith` | public/client.js:7-9 | no contract of its own; the inverse of `split`, stated by `Query.Split` and `SplitJoinWith` |
| `Query.Split` | public/client.js:7-9 | `split` with a one-character separator returns at least one piece; no piece contains the separator; joining the pieces with it gives the input back |
| `Query.SplitJoinWith` | public/client.js:7-9 | the converse: splitting a join of separator-free pieces returns those pieces |
| `Query.StripQuestion` | public/client.js:7 | no contract of its own; behaviour stated by `Query.PairsRebuildSearch` |
| `Query.Pairs` | public/client.js:7 | no contract of its own; behaviour stated by `Query.PairsRebuildSearch` |
| `Query.PairsRebuildSearch` | public/client.js:7 | the pairs contain no `&` and, joined with `&` behind one removed leading `?`, rebuild the search string |
| `Query.KeyValue` | public/client.js:9-10 | no contract of its own; behaviour stated by `Query.KeyValueParts` |
| `Query.KeyValueParts` | public/client.js:9-10 | the key is the text before the first `=`; the value is the text after it up to any second `=`; a pair without `=` gets the value `""` |
| `Query.Assign` | public/client.js:10 | assigning to the plain object overwrites or adds the key, leaves other keys alone, and is a no-op for `__proto__` |
| `Query.DecodePair` | public/client.js:9-10 | no contract of its own; its failure and its keys are stated by `Query.CollectSucceeds` and `CollectKeys` |
| `Query.Step` | public/client.js:8-10 | no contract of its own; one turn of the `forEach`, stated through `Query.CollectSucceeds`, `CollectKeys` and `CollectLastWins` |
| `Query.Collect` | public/client.js:7-11 | no contract of its own; behaviour stated by `Query.CollectFailurePersists`, `CollectSucceeds`, `CollectKeys` and `CollectLastWins` |
| `Query.Parse` | public/client.js:5-13 | no contract of its own; `Collect` over all the pairs, and what `Query.ParseQuery` is proved to return |
| `Query.CollectFailurePersists` | public/client.js:7-11 | once a pair's decoding has thrown, the whole call throws |
| `Query.CollectSucceeds` | public/client.js:8-10 | `parseQuery` returns exactly when every non-empty pair's key and value decode |
| `Query.CollectKeys` | public/client.js:8-10 | the result's keys are exactly the decoded keys of the non-empty pairs, except `__proto__`; empty pairs contribute nothing |
| `Query.CollectLastWins` | public/client.js:10 | a repeated key takes the value of its last pair |
| `Query.ParseQuery` | public/client.js:5-13 | the loop returns exactly the result of the fold `Parse`, so the lemmas above hold of it |
| `RateLimit.Configure` | public/client.js:140 | a missing `tokens` is 1 and a missing `refillMs` is 1000; given values are kept |
| `RateLimit.Start` | public/client.js:141-142 | no contract of its own; behaviour stated by `RateLimit.StartBounded` |
| `RateLimit.Refilled` | public/client.js:143-149 | no contract of its own; behaviour stated by `RateLimit.RefillOnlyAfterInterval` |
| `RateLimit.TrySend` | public/client.js:151-158 | no contract of its own; behaviour stated by `RateLimit.TrySendSpendsOne` and `TrySendPreservesBound` |
| `RateLimit.Run` | public/client.js:151-158 | no contract of its own; a sequence of `canSend` calls, stated by `RateLimit.GrantsWithinWindow` and `AtMostTokensPerWindow` |
| `RateLimit.StartBounded` | public/client.js:141-142 | a new limiter has `available = tokens` and `lastRefill = now`, within the bound |
| `RateLimit.RefillOnlyAfterInterval` | public/client.js:143-149 | `refill` resets `available` to `tokens` and `lastRefill` to `now` exactly when `now - lastRefill >= refillMs`, and otherwise changes neither |
| `RateLimit.TrySendSpendsOne` | public/client.js:151-158 | after refilling, `canSend` is true exactly when a token is available; it then spends exactly one, and on false keeps the refilled state |
| `RateLimit.TrySendPreservesBound` | public/client.js:140-158 | `refill` and `canSend` keep `available <= tokens`, and keep it non-negative unless `tokens` is negative; so with `tokens >= 0`, `0 <= available <= tokens` |
| `RateLimit.GrantsWithinWindow` | public/client.js:143-158 | while no refill is due, a run of calls is granted exactly `min(calls, max(0, available))` times and the refill time stays the same |
| `RateLimit.AtMostTokensPerWindow` | public/client.js:140-158 | from any reachable state, at most `tokens` calls return true before the next refill |
| `RateLimit.RateLimiter.constructor` | public/client.js:140-142 | the limiter starts with the defaulted options, full, at the creation time |
| `RateLimit.RateLimiter.Refill` | public/client.js:143-149 | updates the closure variables in place as `Refilled` gives, keeping the bound |
| `RateLimit.RateLimiter.CanSend` | public/client.js:151-158 | returns and updates in place as `TrySend` gives, keeping the bound |

## Left out

- Express, static file serving, the HTTP response of `/rooms` and `server.listen`/`PORT`
  (server.js:2-11, 23, 136-137): I/O plumbing. Only the listing projection is modelled.
- The order of `Object.entries(rooms)`: JavaScript fixes it (integer-like keys first,
  then insertion order); the listing takes it as a parameter.
- The Socket.IO transport: `socket.join`, delivery of `io.to(...).emit`, and which
  sockets a room name reaches. Emits are outbox records with an unresolved target.
  The `socket.join` audience (which keeps a refused publisher in the room) is not modelled.
- Relays to a socket that has gone: the record is appended; dropping it is the transport's business.
- `console.log`: logging only.
- `Date.now()` (server.js:91, public/client.js:142, 144): the clock reading is a
  parameter. Nothing is claimed about the order of chat timestamps.
- `location.search` and `decodeURIComponent` (public/client.js:7, 10): the search
  string is a parameter, and decoding is a parameter function whose `None` stands for the `URIError` it throws.
- `fmtTime`, `createSocket`, `createChatUI` (public/client.js:16-137): locale formatting, socket creation and DOM wiring.
- Room ids that name members of `Object.prototype` (`toString`, `__proto__`, …):
  `rooms` is a plain object, so `rooms[roomId]` finds those inherited values. The model
  treats every room id as an ordinary key.
- Client payload fields that are missing or not strings: `roomId`, `role`, `toSocketId`,
  chat fields and payload bodies are modelled as strings. A missing `role` behaves like
  any role other than `"publisher"`. A missing `roomId` (the key `"undefined"`) is not modelled.
- JavaScript numbers in the rate limiter are modelled as integers. Fractional `tokens`
  or `refillMs` are not modelled.
