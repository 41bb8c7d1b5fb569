/**
 * server.js as its own mutable state: the `rooms` object, the fields written on
 * each socket, and the emits made so far. Each handler is a method that updates
 * these fields in place, proved to produce the state the matching transition of
 * module Session describes (so every property proved there holds of it).
 */
module SignalServer {
  import opened Wrappers
  import Rooms
  import Session

  class Server {
    var rooms: map<string, Rooms.Room>
    var conns: map<Rooms.SocketId, Session.Conn>
    var outbox: seq<Session.Msg>

    /** The abstract value of the server. */
    function State(): Session.State
      reads this
    {
      Session.State(rooms, conns, outbox)
    }

    /** Process start: no rooms, no sockets, nothing sent. */
    constructor ()
      ensures State() == Session.Initial
    {
      rooms, conns, outbox := map[], map[], [];
    }

    /** `ensureRoom(roomId)`: returns the room's entry, inserting an empty one if needed. */
    method EnsureRoom(roomId: string) returns (room: Rooms.Room)
      modifies this`rooms
      ensures rooms == Rooms.EnsureRoom(old(rooms), roomId)
      ensures room == rooms[roomId]
      ensures roomId in old(rooms) ==> room == old(rooms)[roomId]
    {
      if roomId !in rooms {
        rooms := rooms[roomId := Rooms.EmptyRoom];
      }
      room := rooms[roomId];
    }

    /** The `connection` event. */
    method Connect(id: Rooms.SocketId)
      requires id !in conns
      modifies this
      ensures State() == Session.Connect(old(State()), id)
    {
      conns := conns[id := Session.Unjoined];
    }

    /** The `join-room` handler. */
    method JoinRoom(id: Rooms.SocketId, roomId: string, role: string, username: Option<string>)
      requires id in conns
      modifies this
      ensures State() == Session.JoinRoom(old(State()), id, roomId, role, username)
    {
      var name := Session.DisplayName(username);
      conns := conns[id := Session.Conn(Some(roomId), Some(role), Some(name))];
      var room := EnsureRoom(roomId);
      if role == Session.PublisherRole {
        if room.publisher.None? {
          rooms := rooms[roomId := room.(publisher := Some(id))];
          outbox := outbox + [Session.Msg(Session.ToSocket(id), Session.Joined(roomId, Session.PublisherRole, id))];
          outbox := outbox + [Session.Msg(Session.ToRoom(roomId), Session.PublisherReady(id))];
        } else {
          outbox := outbox + [Session.Msg(Session.ToSocket(id),
                                          Session.Error(Session.RoomHasPublisherCode, Session.RoomHasPublisherText))];
        }
      } else {
        rooms := rooms[roomId := room.(viewers := room.viewers + {id})];
        outbox := outbox + [Session.Msg(Session.ToSocket(id), Session.Joined(roomId, Session.ViewerRole, id))];
        if room.publisher.Some? {
          outbox := outbox + [Session.Msg(Session.ToSocket(room.publisher.value), Session.ViewerJoined(id, name))];
        } else {
          outbox := outbox + [Session.Msg(Session.ToSocket(id), Session.Info(Session.WaitingText))];
        }
      }
    }

    /** The `offer` handler. */
    method Offer(id: Rooms.SocketId, toSocketId: string, sdp: string)
      modifies this
      ensures State() == Session.RelayOffer(old(State()), id, toSocketId, sdp)
    {
      outbox := outbox + [Session.Msg(Session.ToSocket(toSocketId), Session.Offer(id, sdp))];
    }

    /** The `answer` handler. */
    method Answer(id: Rooms.SocketId, toSocketId: string, sdp: string)
      modifies this
      ensures State() == Session.RelayAnswer(old(State()), id, toSocketId, sdp)
    {
      outbox := outbox + [Session.Msg(Session.ToSocket(toSocketId), Session.Answer(id, sdp))];
    }

    /** The `ice-candidate` handler. */
    method IceCandidate(id: Rooms.SocketId, toSocketId: string, candidate: string)
      modifies this
      ensures State() == Session.RelayIceCandidate(old(State()), id, toSocketId, candidate)
    {
      outbox := outbox + [Session.Msg(Session.ToSocket(toSocketId), Session.IceCandidate(id, candidate))];
    }

    /** The `chat-message` handler; `now` is the reading of `Date.now()`. */
    method ChatMessage(roomId: string, username: string, message: string, now: int)
      modifies this
      ensures State() == Session.Chat(old(State()), roomId, username, message, now)
    {
      outbox := outbox + [Session.Msg(Session.ToRoom(roomId), Session.ChatMessage(username, message, now))];
    }

    /** The `stop-stream` handler. */
    method StopStream(id: Rooms.SocketId, roomId: string)
      modifies this
      ensures State() == Session.StopStream(old(State()), id, roomId)
    {
      if roomId in rooms && rooms[roomId].publisher == Some(id) {
        outbox := outbox + [Session.Msg(Session.ToRoom(roomId), Session.PublisherLeft(Session.StoppedReason))];
        rooms := rooms[roomId := rooms[roomId].(publisher := None)];
      }
    }

    /** The `disconnect` handler; the socket object is discarded with it. */
    method Disconnect(id: Rooms.SocketId)
      requires id in conns
      modifies this
      ensures State() == Session.Disconnect(old(State()), id)
    {
      var roomId := conns[id].roomId;
      var role := conns[id].role;
      conns := conns - {id};
      if roomId.None? || roomId.value == "" || roomId.value !in rooms {
        return;
      }
      var room := rooms[roomId.value];
      if role == Some(Session.PublisherRole) {
        room := room.(publisher := None);
        outbox := outbox + [Session.Msg(Session.ToRoom(roomId.value), Session.PublisherLeft(Session.DisconnectedReason))];
      } else {
        room := room.(viewers := room.viewers - {id});
        if room.publisher.Some? {
          outbox := outbox + [Session.Msg(Session.ToSocket(room.publisher.value), Session.ViewerLeft(id))];
        }
      }
      if room.publisher.None? && |room.viewers| == 0 {
        rooms := rooms - {roomId.value};
      } else {
        rooms := rooms[roomId.value := room];
      }
    }
  }
}
