/**
 * The session coordinator of server.js, as pure state transitions.
 *
 * A `State` holds the room map, the per-connection fields that the handlers
 * write on the socket object (`socket.roomId`, `socket.role`,
 * `socket.username`), and an outbox: every `emit` appends one `Msg` naming
 * its target (a socket id or a room id, left unresolved) and its payload.
 * Each handler of the `connection` callback is one function from the state
 * before the event to the state after it. Handlers run to completion one at
 * a time, so a sequence of events is a composition of these functions.
 */
module Session {
  import opened Wrappers
  import opened Rooms

  const PublisherRole := "publisher"
  const ViewerRole := "viewer"
  const AnonymousName := "Anonymous"
  const RoomHasPublisherCode := "ROOM_HAS_PUBLISHER"
  const RoomHasPublisherText := "Room already has a streamer"
  const WaitingText := "Waiting for publisher to go live"
  const StoppedReason := "publisher_stopped"
  const DisconnectedReason := "publisher_disconnected"

  /** The fields a handler records on a socket; `None` is a field never assigned. */
  datatype Conn = Conn(roomId: Option<string>, role: Option<string>, username: Option<string>)

  /** A socket just connected: nothing recorded yet. */
  const Unjoined := Conn(None, None, None)

  /** Where an emit goes: `socket.emit` / `io.to(id)` for a socket id, `io.to(roomId)` for a room. */
  datatype Target = ToSocket(socketId: string) | ToRoom(roomName: string)

  /** The server-to-client events and their payloads. Session descriptions and
      candidates are opaque text. */
  datatype Payload =
    | Joined(roomId: string, role: string, mySocketId: SocketId)
    | Error(code: string, message: string)
    | PublisherReady(publisherSocketId: SocketId)
    | Info(message: string)
    | ViewerJoined(viewerSocketId: SocketId, username: string)
    | ViewerLeft(viewerSocketId: SocketId)
    | Offer(fromSocketId: SocketId, sdp: string)
    | Answer(fromSocketId: SocketId, sdp: string)
    | IceCandidate(fromSocketId: SocketId, candidate: string)
    | ChatMessage(username: string, message: string, ts: int)
    | PublisherLeft(reason: string)

  datatype Msg = Msg(target: Target, payload: Payload)

  /** The whole server state: the `rooms` object, the live sockets, the emits so far. */
  datatype State = State(rooms: map<string, Room>, conns: map<SocketId, Conn>, outbox: seq<Msg>)

  const Initial := State(map[], map[], [])

  /** `username || 'Anonymous'` for a username that is absent or a string. */
  function DisplayName(username: Option<string>): (name: string)
    ensures name != ""
    ensures username.Some? && username.value != "" ==> name == username.value
    ensures username.None? || username.value == "" ==> name == AnonymousName
  {
    if username.Some? && username.value != "" then username.value else AnonymousName
  }

  /** The `connection` event: a new socket with a fresh id and no fields set. */
  function Connect(s: State, id: SocketId): State
    requires id !in s.conns
  {
    s.(conns := s.conns[id := Unjoined])
  }

  /** The `join-room` handler. The socket's fields are written first, on every
      path; then the room is ensured and the role decides the rest. */
  function JoinRoom(s: State, id: SocketId, roomId: string, role: string, username: Option<string>): State
    requires id in s.conns
  {
    var name := DisplayName(username);
    var conns := s.conns[id := Conn(Some(roomId), Some(role), Some(name))];
    var rooms := EnsureRoom(s.rooms, roomId);
    var room := rooms[roomId];
    if role == PublisherRole then
      if room.publisher.None? then
        State(rooms[roomId := room.(publisher := Some(id))], conns,
              s.outbox + [Msg(ToSocket(id), Joined(roomId, PublisherRole, id)),
                          Msg(ToRoom(roomId), PublisherReady(id))])
      else
        State(rooms, conns,
              s.outbox + [Msg(ToSocket(id), Error(RoomHasPublisherCode, RoomHasPublisherText))])
    else
      var notice :=
        if room.publisher.Some? then Msg(ToSocket(room.publisher.value), ViewerJoined(id, name))
        else Msg(ToSocket(id), Info(WaitingText));
      State(rooms[roomId := room.(viewers := room.viewers + {id})], conns,
            s.outbox + [Msg(ToSocket(id), Joined(roomId, ViewerRole, id)), notice])
  }

  /** The `offer` handler: forwarded to `toSocketId`, tagged with the sender. */
  function RelayOffer(s: State, id: SocketId, toSocketId: string, sdp: string): State {
    s.(outbox := s.outbox + [Msg(ToSocket(toSocketId), Offer(id, sdp))])
  }

  /** The `answer` handler. */
  function RelayAnswer(s: State, id: SocketId, toSocketId: string, sdp: string): State {
    s.(outbox := s.outbox + [Msg(ToSocket(toSocketId), Answer(id, sdp))])
  }

  /** The `ice-candidate` handler. */
  function RelayIceCandidate(s: State, id: SocketId, toSocketId: string, candidate: string): State {
    s.(outbox := s.outbox + [Msg(ToSocket(toSocketId), IceCandidate(id, candidate))])
  }

  /** The `chat-message` handler: broadcast to the room named in the payload, with
      the server clock's reading `now` attached. The sender's recorded name is not used. */
  function Chat(s: State, roomId: string, username: string, message: string, now: int): State {
    s.(outbox := s.outbox + [Msg(ToRoom(roomId), ChatMessage(username, message, now))])
  }

  /** The `stop-stream` handler, for the room id named in the payload. */
  function StopStream(s: State, id: SocketId, roomId: string): State {
    if roomId in s.rooms && s.rooms[roomId].publisher == Some(id) then
      State(s.rooms[roomId := s.rooms[roomId].(publisher := None)], s.conns,
            s.outbox + [Msg(ToRoom(roomId), PublisherLeft(StoppedReason))])
    else
      s
  }

  /** `!roomId || !rooms[roomId]`: the early return of the `disconnect` handler.
      The empty room id is falsy too. */
  predicate SkipsCleanup(s: State, c: Conn) {
    c.roomId.None? || c.roomId.value == "" || c.roomId.value !in s.rooms
  }

  /** The `disconnect` handler. The socket leaves the table in every case; the
      room it last joined is cleaned up according to the role it last recorded. */
  function Disconnect(s: State, id: SocketId): State
    requires id in s.conns
  {
    var c := s.conns[id];
    var conns := s.conns - {id};
    if SkipsCleanup(s, c) then
      s.(conns := conns)
    else
      var roomId := c.roomId.value;
      var room := s.rooms[roomId];
      var isPublisher := c.role == Some(PublisherRole);
      var room' :=
        if isPublisher then room.(publisher := None) else room.(viewers := room.viewers - {id});
      var sent :=
        if isPublisher then [Msg(ToRoom(roomId), PublisherLeft(DisconnectedReason))]
        else if room.publisher.Some? then [Msg(ToSocket(room.publisher.value), ViewerLeft(id))]
        else [];
      var rooms := if IsEmpty(room') then s.rooms - {roomId} else s.rooms[roomId := room'];
      State(rooms, conns, s.outbox + sent)
  }
}
