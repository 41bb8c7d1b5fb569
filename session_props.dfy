/**
 * What the session handlers of server.js promise, one event at a time, and
 * which room-membership invariants they keep or break as the code is written.
 */
module SessionProps {
  import opened Wrappers
  import opened Rooms
  import opened Session

  // ----- invariants -----

  /** No orphaned rooms: every entry has a publisher or at least one viewer. */
  ghost predicate NoOrphanRooms(s: State) {
    forall r :: r in s.rooms ==> !IsEmpty(s.rooms[r])
  }

  /** `id` is a live socket whose last join recorded room `r`, with the publisher role
      exactly when `asPublisher`. */
  ghost predicate RecordedIn(s: State, id: SocketId, r: string, asPublisher: bool) {
    && id in s.conns
    && s.conns[id].roomId == Some(r)
    && (s.conns[id].role == Some(PublisherRole) <==> asPublisher)
  }

  /** Every occupied slot names a live socket recorded in that room with the matching
      role; no room has the empty id (which `disconnect` could never clean up). */
  ghost predicate SlotsLive(s: State) {
    forall r :: r in s.rooms ==>
      && r != ""
      && (s.rooms[r].publisher.Some? ==> RecordedIn(s, s.rooms[r].publisher.value, r, true))
      && (forall v :: v in s.rooms[r].viewers ==> RecordedIn(s, v, r, false))
  }

  /** The design's rule: at most one live connection holds the publisher role in a room. */
  ghost predicate AtMostOnePublisherRole(s: State) {
    forall a, b :: a in s.conns && b in s.conns && a != b && s.conns[a].roomId.Some? &&
      s.conns[a].roomId == s.conns[b].roomId && s.conns[a].role == Some(PublisherRole)
      ==> s.conns[b].role != Some(PublisherRole)
  }

  /** Nothing in `s` refers to `id` as a publisher or a viewer. */
  ghost predicate InNoSlot(s: State, id: SocketId) {
    forall r :: r in s.rooms ==> s.rooms[r].publisher != Some(id) && id !in s.rooms[r].viewers
  }

  // ----- join-room -----

  /** Every join, accepted or not, records the room, the role as sent, and the name
      (a missing or empty one as "Anonymous"); only the joined room's entry may change,
      and it exists afterwards; emits are only appended. */
  lemma JoinRecordsConnection(s: State, id: SocketId, roomId: string, role: string, username: Option<string>)
    requires id in s.conns
    ensures var s' := JoinRoom(s, id, roomId, role, username);
      && s'.conns.Keys == s.conns.Keys
      && s'.conns[id].roomId == Some(roomId)
      && s'.conns[id].role == Some(role)
      && s'.conns[id].username == Some(if username.None? || username == Some("") then AnonymousName else username.value)
      && (forall other :: other in s.conns && other != id ==> s'.conns[other] == s.conns[other])
      && s'.rooms.Keys == s.rooms.Keys + {roomId}
      && (forall r :: r in s.rooms && r != roomId ==> s'.rooms[r] == s.rooms[r])
      && |s'.outbox| == |s.outbox| + (if role == PublisherRole && roomId in s.rooms && s.rooms[roomId].publisher.Some? then 1 else 2)
      && s'.outbox[..|s.outbox|] == s.outbox
  {
  }

  /** A publisher join is accepted exactly when the slot is empty (or the room is new):
      the slot then names the joiner and `joined` goes to the joiner, then `publisher-ready`
      to the room. Otherwise no room changes and only the joiner hears `ROOM_HAS_PUBLISHER`. */
  lemma JoinAsPublisher(s: State, id: SocketId, roomId: string, username: Option<string>)
    requires id in s.conns
    ensures var s' := JoinRoom(s, id, roomId, PublisherRole, username);
      var free := roomId !in s.rooms || s.rooms[roomId].publisher.None?;
      && (free ==>
            && s'.rooms[roomId].publisher == Some(id)
            && s'.rooms[roomId].viewers == (if roomId in s.rooms then s.rooms[roomId].viewers else {})
            && s'.outbox == s.outbox + [Msg(ToSocket(id), Joined(roomId, PublisherRole, id)),
                                        Msg(ToRoom(roomId), PublisherReady(id))])
      && (!free ==>
            && s'.rooms == s.rooms
            && s'.outbox == s.outbox + [Msg(ToSocket(id), Error(RoomHasPublisherCode, RoomHasPublisherText))])
  {
  }

  /** Any other role joins as a viewer: the id is added to the viewer set and the
      publisher slot is untouched; `joined` (role viewer) goes to the joiner, then
      exactly one notice: `viewer-joined` to the publisher if there is one, otherwise
      the waiting `info` to the joiner. */
  lemma JoinAsViewer(s: State, id: SocketId, roomId: string, role: string, username: Option<string>)
    requires id in s.conns
    requires role != PublisherRole
    ensures var s' := JoinRoom(s, id, roomId, role, username);
      var before := if roomId in s.rooms then s.rooms[roomId] else EmptyRoom;
      && s'.rooms[roomId].publisher == before.publisher
      && s'.rooms[roomId].viewers == before.viewers + {id}
      && |s'.outbox| == |s.outbox| + 2
      && s'.outbox[..|s.outbox| + 1] == s.outbox + [Msg(ToSocket(id), Joined(roomId, ViewerRole, id))]
      && (before.publisher.Some? ==>
            s'.outbox[|s.outbox| + 1] == Msg(ToSocket(before.publisher.value), ViewerJoined(id, DisplayName(username))))
      && (before.publisher.None? ==>
            s'.outbox[|s.outbox| + 1] == Msg(ToSocket(id), Info(WaitingText)))
  {
  }

  /** Viewer insertion is idempotent: joining the same room again as a viewer leaves
      the room map and the connection table as the first join left them. */
  lemma JoinAsViewerIdempotent(s: State, id: SocketId, roomId: string, role: string, username: Option<string>)
    requires id in s.conns
    requires role != PublisherRole
    ensures var once := JoinRoom(s, id, roomId, role, username);
      var twice := JoinRoom(once, id, roomId, role, username);
      twice.rooms == once.rooms && twice.conns == once.conns
  {
  }

  // ----- relays -----

  /** `offer`, `answer` and `ice-candidate` append exactly one message, addressed to
      `toSocketId`, carrying the sender's id and the payload unchanged; rooms and
      connections are untouched. */
  lemma RelayForwardsUnchanged(s: State, id: SocketId, toSocketId: string, body: string)
    ensures var o := RelayOffer(s, id, toSocketId, body);
      o.rooms == s.rooms && o.conns == s.conns && o.outbox[..|s.outbox|] == s.outbox &&
      |o.outbox| == |s.outbox| + 1 && o.outbox[|s.outbox|].target == ToSocket(toSocketId) &&
      o.outbox[|s.outbox|].payload.Offer? &&
      o.outbox[|s.outbox|].payload.fromSocketId == id && o.outbox[|s.outbox|].payload.sdp == body
    ensures var a := RelayAnswer(s, id, toSocketId, body);
      a.rooms == s.rooms && a.conns == s.conns && a.outbox[..|s.outbox|] == s.outbox &&
      |a.outbox| == |s.outbox| + 1 && a.outbox[|s.outbox|].target == ToSocket(toSocketId) &&
      a.outbox[|s.outbox|].payload.Answer? &&
      a.outbox[|s.outbox|].payload.fromSocketId == id && a.outbox[|s.outbox|].payload.sdp == body
    ensures var c := RelayIceCandidate(s, id, toSocketId, body);
      c.rooms == s.rooms && c.conns == s.conns && c.outbox[..|s.outbox|] == s.outbox &&
      |c.outbox| == |s.outbox| + 1 && c.outbox[|s.outbox|].target == ToSocket(toSocketId) &&
      c.outbox[|s.outbox|].payload.IceCandidate? &&
      c.outbox[|s.outbox|].payload.fromSocketId == id && c.outbox[|s.outbox|].payload.candidate == body
  {
  }

  /** `chat-message` broadcasts one message to the named room with the server's clock
      reading as `ts`; rooms and connections are untouched. */
  lemma ChatBroadcastsToRoom(s: State, roomId: string, username: string, message: string, now: int)
    ensures var s' := Chat(s, roomId, username, message, now);
      && s'.rooms == s.rooms && s'.conns == s.conns
      && s'.outbox[..|s.outbox|] == s.outbox && |s'.outbox| == |s.outbox| + 1
      && s'.outbox[|s.outbox|].target == ToRoom(roomId)
      && s'.outbox[|s.outbox|].payload == ChatMessage(username, message, now)
  {
  }

  // ----- stop-stream -----

  /** `stop-stream` acts exactly when the named room exists and its slot holds the caller:
      then the slot is cleared and `publisher-left` (stopped) goes to the room; otherwise
      nothing changes. It never adds or deletes a room, nor touches any connection. */
  lemma StopStreamGuard(s: State, id: SocketId, roomId: string)
    ensures var s' := StopStream(s, id, roomId);
      var acts := roomId in s.rooms && s.rooms[roomId].publisher == Some(id);
      && s'.rooms.Keys == s.rooms.Keys
      && s'.conns == s.conns
      && (s' != s <==> acts)
      && (acts ==>
            && s'.rooms[roomId] == Room(None, s.rooms[roomId].viewers)
            && (forall r :: r in s.rooms && r != roomId ==> s'.rooms[r] == s.rooms[r])
            && s'.outbox == s.outbox + [Msg(ToRoom(roomId), PublisherLeft(StoppedReason))])
  {
  }

  /** As written, stopping a stream in a room without viewers leaves an empty room
      behind: the "no orphaned rooms" ideal does not survive `stop-stream`. */
  lemma StopStreamCanOrphanRoom(s: State, id: SocketId, roomId: string)
    requires roomId in s.rooms && s.rooms[roomId] == Room(Some(id), {})
    requires NoOrphanRooms(s)
    ensures var s' := StopStream(s, id, roomId);
      roomId in s'.rooms && IsEmpty(s'.rooms[roomId]) && !NoOrphanRooms(s')
  {
  }

  // ----- disconnect -----

  /** `disconnect`: the socket always leaves the table. With no recorded room, the empty
      room id, or a room no longer present, nothing else happens. Otherwise a recorded
      publisher clears the slot, whoever holds it, and `publisher-left` (disconnected)
      goes to the room; any other role leaves the viewer set and the publisher, if any,
      hears `viewer-left`. The room is then deleted exactly when it has become empty,
      and no other room changes. */
  lemma DisconnectCleanup(s: State, id: SocketId)
    requires id in s.conns
    ensures var s' := Disconnect(s, id);
      var c := s.conns[id];
      && s'.conns == s.conns - {id}
      && (SkipsCleanup(s, c) ==> s'.rooms == s.rooms && s'.outbox == s.outbox)
      && (!SkipsCleanup(s, c) ==>
            var r := c.roomId.value;
            var room := s.rooms[r];
            var after := if c.role == Some(PublisherRole) then Room(None, room.viewers)
                         else Room(room.publisher, room.viewers - {id});
            && (r !in s'.rooms <==> IsEmpty(after))
            && (r in s'.rooms ==> s'.rooms[r] == after)
            && s'.rooms.Keys <= s.rooms.Keys
            && (forall r' :: r' in s.rooms && r' != r ==> r' in s'.rooms && s'.rooms[r'] == s.rooms[r'])
            && (c.role == Some(PublisherRole) ==>
                  s'.outbox == s.outbox + [Msg(ToRoom(r), PublisherLeft(DisconnectedReason))])
            && (c.role != Some(PublisherRole) ==>
                  s'.outbox == s.outbox +
                    (if room.publisher.Some? then [Msg(ToSocket(room.publisher.value), ViewerLeft(id))] else [])))
  {
  }

  // ----- invariants kept -----

  /** A new connection is in no slot and holds no role, so both invariants survive. */
  lemma ConnectPreservesInvariants(s: State, id: SocketId)
    requires id !in s.conns
    requires SlotsLive(s) && NoOrphanRooms(s) && AtMostOnePublisherRole(s)
    ensures var s' := Connect(s, id);
      SlotsLive(s') && NoOrphanRooms(s') && AtMostOnePublisherRole(s')
  {
  }

  /** Every join leaves the joined room occupied, so no join creates an orphan. */
  lemma JoinPreservesNoOrphanRooms(s: State, id: SocketId, roomId: string, role: string, username: Option<string>)
    requires id in s.conns
    requires NoOrphanRooms(s)
    ensures NoOrphanRooms(JoinRoom(s, id, roomId, role, username))
  {
  }

  /** Under the one-join-per-connection protocol and a non-empty room id, a join keeps
      every slot pointing at a live socket recorded there with the matching role. */
  lemma JoinPreservesSlotsLive(s: State, id: SocketId, roomId: string, role: string, username: Option<string>)
    requires id in s.conns && s.conns[id].roomId.None?
    requires roomId != ""
    requires SlotsLive(s)
    ensures SlotsLive(JoinRoom(s, id, roomId, role, username))
  {
  }

  /** `stop-stream` only empties a slot, so every remaining reference stays live. */
  lemma StopStreamPreservesSlotsLive(s: State, id: SocketId, roomId: string)
    requires SlotsLive(s)
    ensures SlotsLive(StopStream(s, id, roomId))
  {
  }

  /** Under the same invariant, a disconnecting socket is referenced by no room
      afterwards, and the remaining references are still live. */
  lemma DisconnectForgetsSocket(s: State, id: SocketId)
    requires id in s.conns
    requires SlotsLive(s)
    ensures InNoSlot(Disconnect(s, id), id)
    ensures SlotsLive(Disconnect(s, id))
  {
    var s' := Disconnect(s, id);
    var c := s.conns[id];
    forall r | r in s'.rooms
      ensures s'.rooms[r].publisher != Some(id) && id !in s'.rooms[r].viewers
    {
      if SkipsCleanup(s, c) || r != c.roomId.value {
        assert s'.rooms[r] == s.rooms[r];
      }
    }
  }

  /** `disconnect` deletes the room it empties, so it never leaves an orphan. */
  lemma DisconnectPreservesNoOrphanRooms(s: State, id: SocketId)
    requires id in s.conns
    requires NoOrphanRooms(s)
    ensures NoOrphanRooms(Disconnect(s, id))
  {
  }

  /** Where every slot is live, no room lists its own publisher as a viewer. */
  lemma SlotsLiveSeparatesRoles(s: State, r: string)
    requires SlotsLive(s)
    requires r in s.rooms && s.rooms[r].publisher.Some?
    ensures s.rooms[r].publisher.value !in s.rooms[r].viewers
  {
  }

  // ----- where the code departs from the single-publisher design -----

  /** A rejected publisher join changes no room, yet records the publisher role on the
      rejected socket: two live sockets then claim the publisher role in one room. */
  lemma RejectedPublisherStillRecorded(s: State, id: SocketId, roomId: string, username: Option<string>)
    requires id in s.conns
    requires roomId in s.rooms && s.rooms[roomId].publisher.Some?
    requires RecordedIn(s, s.rooms[roomId].publisher.value, roomId, true)
    requires s.rooms[roomId].publisher.value != id
    ensures var s' := JoinRoom(s, id, roomId, PublisherRole, username);
      && s'.rooms == s.rooms
      && RecordedIn(s', id, roomId, true)
      && !AtMostOnePublisherRole(s')
  {
    var s' := JoinRoom(s, id, roomId, PublisherRole, username);
    var p := s.rooms[roomId].publisher.value;
    assert s'.conns[p] == s.conns[p];
  }

  /** The unguarded clear: when a rejected publisher disconnects, it clears the slot of
      the socket that is still publishing (deleting the room if it had no viewers), and
      the room is told the publisher left. */
  lemma RejectedPublisherDisconnectClearsSlot(s: State, p: SocketId, q: SocketId, r: string, username: Option<string>)
    requires p in s.conns && q in s.conns && p != q
    requires r in s.rooms && r != "" && s.rooms[r].publisher == Some(p)
    ensures var s1 := JoinRoom(s, q, r, PublisherRole, username);
      var s2 := Disconnect(s1, q);
      && s1.rooms[r].publisher == Some(p)
      && (r in s2.rooms ==> s2.rooms[r].publisher.None?)
      && (r !in s2.rooms <==> s.rooms[r].viewers == {})
      && p in s2.conns && s2.conns[p] == s.conns[p]
      && s2.outbox[|s2.outbox| - 1] == Msg(ToRoom(r), PublisherLeft(DisconnectedReason))
  {
  }

  /** The reconnect race the design guards against is open: a publisher that stopped and
      later disconnects clears the slot of the newer publisher who took the room. */
  lemma StaleDisconnectClearsNewPublisher(s: State, p: SocketId, n: SocketId, r: string, username: Option<string>)
    requires SlotsLive(s)
    requires n in s.conns && n != p
    requires r in s.rooms && s.rooms[r].publisher == Some(p)
    ensures p in s.conns
    ensures var s1 := StopStream(s, p, r);
      var s2 := JoinRoom(s1, n, r, PublisherRole, username);
      var s3 := Disconnect(s2, p);
      && s2.rooms[r].publisher == Some(n)
      && (r in s3.rooms ==> s3.rooms[r].publisher.None?)
      && n in s3.conns && s3.conns[n].role == Some(PublisherRole) && s3.conns[n].roomId == Some(r)
  {
  }

  /** Why `JoinPreservesSlotsLive` needs one join per connection: a publisher that joins
      another room, in either role, and then disconnects leaves its first room's slot naming
      a socket that is gone. */
  lemma RejoinLeavesStaleSlot(s: State, p: SocketId, r1: string, r2: string, role: string, username: Option<string>)
    requires SlotsLive(s)
    requires r1 in s.rooms && s.rooms[r1].publisher == Some(p)
    requires r2 != r1 && r2 != ""
    ensures p in s.conns
    ensures var s1 := JoinRoom(s, p, r2, role, username);
      var s2 := Disconnect(s1, p);
      r1 in s2.rooms && s2.rooms[r1].publisher == Some(p) && p !in s2.conns
  {
  }

  /** A publisher that joins its own room again as a viewer is added to that room's
      viewers while still holding the slot, and is sent `viewer-joined` about itself;
      its recorded role is now the viewer's, so its slot is no longer live. */
  lemma PublisherRejoinsOwnRoomAsViewer(s: State, p: SocketId, r: string, role: string, username: Option<string>)
    requires SlotsLive(s)
    requires r in s.rooms && s.rooms[r].publisher == Some(p)
    requires role != PublisherRole
    ensures var s1 := JoinRoom(s, p, r, role, username);
      && s1.rooms[r].publisher == Some(p)
      && p in s1.rooms[r].viewers
      && s1.outbox == s.outbox + [Msg(ToSocket(p), Joined(r, ViewerRole, p)),
                                  Msg(ToSocket(p), ViewerJoined(p, DisplayName(username)))]
      && !SlotsLive(s1)
  {
  }

  /** Why it needs a non-empty room id: `!roomId` is true for "", so a socket that joined
      room "" is never removed from it and the room outlives every member. */
  lemma EmptyRoomIdLeaks(s: State, v: SocketId, role: string, username: Option<string>)
    requires v in s.conns
    requires role != PublisherRole
    ensures var s1 := JoinRoom(s, v, "", role, username);
      var s2 := Disconnect(s1, v);
      "" in s2.rooms && v in s2.rooms[""].viewers && v !in s2.conns
  {
  }
  // ----- a session from start to end -----

  /** Publisher P takes room "r1"; Q is refused as a second publisher; viewer V is
      announced to P and gets no waiting notice; P's disconnect empties the slot and
      tells the room, which stays while V is in it; V's disconnect deletes it. */
  lemma PublisherViewerLifecycle(p: SocketId, q: SocketId, v: SocketId)
    requires p != q && q != v && p != v
    ensures var s0 := Connect(Connect(Connect(Initial, p), q), v);
      var s1 := JoinRoom(s0, p, "r1", PublisherRole, Some("pat"));
      var s2 := JoinRoom(s1, q, "r1", PublisherRole, None);
      var s3 := JoinRoom(s2, v, "r1", ViewerRole, Some("val"));
      var s4 := Disconnect(s3, p);
      var s5 := Disconnect(s4, v);
      && s1.rooms["r1"] == Room(Some(p), {})
      && s2.rooms["r1"] == Room(Some(p), {})
      && s2.outbox[|s2.outbox| - 1] == Msg(ToSocket(q), Error(RoomHasPublisherCode, RoomHasPublisherText))
      && s3.rooms["r1"] == Room(Some(p), {v})
      && s3.outbox[|s3.outbox| - 1] == Msg(ToSocket(p), ViewerJoined(v, "val"))
      && s4.rooms["r1"] == Room(None, {v})
      && s4.outbox[|s4.outbox| - 1] == Msg(ToRoom("r1"), PublisherLeft(DisconnectedReason))
      && "r1" !in s5.rooms
  {
  }
}
