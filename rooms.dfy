/**
 * The room store of server.js: the in-memory map from room id to
 * `{ publisher: socketId|null, viewers: Set }`, the `ensureRoom` helper and
 * the projection served by the read-only `/rooms` listing.
 */
module Rooms {
  import opened Wrappers

  /** A socket.io connection id. The transport assigns it and it is never empty,
      so a stored id is always truthy in JavaScript. */
  type SocketId = s: string | s != "" witness "#"

  /** One room entry: at most one publisher and a set of viewers. */
  datatype Room = Room(publisher: Option<SocketId>, viewers: set<SocketId>)

  /** The entry `ensureRoom` creates: `{ publisher: null, viewers: new Set() }`. */
  const EmptyRoom := Room(None, {})

  /** `room.publisher === null && room.viewers.size === 0`. */
  predicate IsEmpty(room: Room) {
    room.publisher.None? && |room.viewers| == 0
  }

  /** `ensureRoom(roomId)`: the map afterwards. An existing entry is kept as it is;
      a missing one is inserted empty; no other entry changes. */
  function EnsureRoom(rooms: map<string, Room>, roomId: string): (rooms': map<string, Room>)
    ensures roomId in rooms'
    ensures rooms'.Keys == rooms.Keys + {roomId}
    ensures forall r :: r in rooms ==> rooms'[r] == rooms[r]
    ensures roomId !in rooms ==> rooms'[roomId] == EmptyRoom
  {
    if roomId in rooms then rooms else rooms[roomId := EmptyRoom]
  }

  /** One element of the `/rooms` response. */
  datatype RoomInfo = RoomInfo(roomId: string, hasPublisher: bool, viewerCount: nat)

  /** No room id occurs twice in `order`. */
  ghost predicate Distinct(order: seq<string>) {
    forall i, j :: 0 <= i < j < |order| ==> order[i] != order[j]
  }

  /** The `/rooms` projection `Object.entries(rooms).map(...)`. JavaScript fixes the
      enumeration order of the keys; the model takes that order as `order`. */
  function Listing(rooms: map<string, Room>, order: seq<string>): (list: seq<RoomInfo>)
    requires forall i :: 0 <= i < |order| ==> order[i] in rooms
    ensures |list| == |order|
    ensures forall i :: 0 <= i < |list| ==>
      && list[i].roomId == order[i]
      && (list[i].hasPublisher <==> rooms[order[i]].publisher.Some?)
      && list[i].viewerCount == |rooms[order[i]].viewers|
  {
    if order == [] then []
    else
      var room := rooms[order[0]];
      [RoomInfo(order[0], room.publisher.Some?, |room.viewers|)] + Listing(rooms, order[1..])
  }

  /** A sequence without repetitions has as many elements as the set of its elements. */
  lemma {:induction false} DistinctCardinality(order: seq<string>)
    requires Distinct(order)
    ensures |set k | k in order| == |order|
  {
    if order != [] {
      assert Distinct(order[1..]) by {
        forall i, j | 0 <= i < j < |order| - 1 ensures order[1..][i] != order[1..][j] {
          assert order[1..][i] == order[i + 1] && order[1..][j] == order[j + 1];
        }
      }
      DistinctCardinality(order[1..]);
      assert (set k | k in order) == {order[0]} + (set k | k in order[1..]);
      assert order[0] !in order[1..];
    }
  }

  /** When `order` enumerates the keys of the map once each, the listing has exactly
      one entry per room, and no room id is listed twice. */
  lemma ListingOneEntryPerRoom(rooms: map<string, Room>, order: seq<string>)
    requires Distinct(order)
    requires forall k :: k in rooms <==> k in order
    ensures forall i :: 0 <= i < |order| ==> order[i] in rooms
    ensures |Listing(rooms, order)| == |rooms|
    ensures forall k :: k in rooms <==>
      exists i :: 0 <= i < |Listing(rooms, order)| && Listing(rooms, order)[i].roomId == k
    ensures forall i, j :: 0 <= i < j < |Listing(rooms, order)| ==>
      Listing(rooms, order)[i].roomId != Listing(rooms, order)[j].roomId
  {
    assert rooms.Keys == set k | k in order;
    DistinctCardinality(order);
    var list := Listing(rooms, order);
    forall k | k in rooms
      ensures exists i :: 0 <= i < |list| && list[i].roomId == k
    {
      var i :| 0 <= i < |order| && order[i] == k;
      assert list[i].roomId == k;
    }
  }
}
