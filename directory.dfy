/** The room directory of the signalling server (RoomsService in
    backend/src/signal/rooms.service.ts): an in-memory map from room id to a
    room that holds an ordered array of peers.

    The JavaScript Map is modelled as a sequence of entries in insertion
    order, which is the order in which its for-of loops visit the rooms, so
    that "the first room that matches" is exact. */
module Directory {
  import opened Wrappers

  /** PeerInfo: the user id the client announced, its display name and the
      socket it is connected on. */
  datatype PeerInfo = PeerInfo(id: string, name: string, socketId: string)

  /** RoomInfo: a room and its peers in join order. */
  datatype RoomInfo = RoomInfo(id: string, peers: seq<PeerInfo>)

  /** One key/value pair of the `rooms` Map. */
  datatype Entry = Entry(key: string, room: RoomInfo)

  /** What removePeerBySocket returns when it finds the socket. */
  datatype Removal = Removal(roomId: string, peer: PeerInfo)

  ghost predicate UniqueKeys(rooms: seq<Entry>) {
    forall i, j :: 0 <= i < j < |rooms| ==> rooms[i].key != rooms[j].key
  }

  ghost predicate UniqueIds(peers: seq<PeerInfo>) {
    forall i, j :: 0 <= i < j < |peers| ==> peers[i].id != peers[j].id
  }

  /** The invariant the service keeps: a Map has distinct keys, every room is
      stored under its own id, and within a room peer ids are distinct. */
  ghost predicate ValidRooms(rooms: seq<Entry>) {
    && UniqueKeys(rooms)
    && forall i :: 0 <= i < |rooms| ==>
         rooms[i].room.id == rooms[i].key && UniqueIds(rooms[i].room.peers)
  }

  ghost predicate HasPeerId(peers: seq<PeerInfo>, id: string) {
    exists j :: 0 <= j < |peers| && peers[j].id == id
  }

  ghost predicate HasSocket(peers: seq<PeerInfo>, socketId: string) {
    exists j :: 0 <= j < |peers| && peers[j].socketId == socketId
  }

  // ---------------------------------------------------------------------
  // Array and Map primitives the service is written with
  // ---------------------------------------------------------------------

  /** `peers.findIndex((p) => p.id === id)`: the first index, or -1. */
  function FindIndexById(peers: seq<PeerInfo>, id: string): (k: int)
    ensures -1 <= k < |peers|
    ensures k >= 0 ==> peers[k].id == id
    ensures forall j :: 0 <= j < |peers| && (k < 0 || j < k) ==> peers[j].id != id
  {
    if |peers| == 0 then -1
    else if peers[0].id == id then 0
    else
      var k := FindIndexById(peers[1..], id);
      if k < 0 then -1 else k + 1
  }

  /** `peers.findIndex((p) => p.socketId === socketId)`: the first index, or -1.
      Written out per field, like FindIndexById and KeyIndex, so that each
      scan's contract speaks of its own field and needs no function value. */
  function FindIndexBySocket(peers: seq<PeerInfo>, socketId: string): (k: int)
    ensures -1 <= k < |peers|
    ensures k >= 0 ==> peers[k].socketId == socketId
    ensures forall j :: 0 <= j < |peers| && (k < 0 || j < k) ==> peers[j].socketId != socketId
  {
    if |peers| == 0 then -1
    else if peers[0].socketId == socketId then 0
    else
      var k := FindIndexBySocket(peers[1..], socketId);
      if k < 0 then -1 else k + 1
  }

  /** Position of `key` among the Map's entries, or -1. */
  function KeyIndex(rooms: seq<Entry>, key: string): (k: int)
    ensures -1 <= k < |rooms|
    ensures k >= 0 ==> rooms[k].key == key
    ensures forall j :: 0 <= j < |rooms| && (k < 0 || j < k) ==> rooms[j].key != key
  {
    if |rooms| == 0 then -1
    else if rooms[0].key == key then 0
    else
      var k := KeyIndex(rooms[1..], key);
      if k < 0 then -1 else k + 1
  }

  /** Two entry sequences with the same keys position by position have the
      same key positions. */
  lemma {:induction false} KeyIndexSameKeys(a: seq<Entry>, b: seq<Entry>, key: string)
    requires |a| == |b|
    requires forall i :: 0 <= i < |a| ==> a[i].key == b[i].key
    ensures KeyIndex(a, key) == KeyIndex(b, key)
  {
    if |a| > 0 && a[0].key != key {
      KeyIndexSameKeys(a[1..], b[1..], key);
    }
  }

  /** `Map.get`. */
  function Get(rooms: seq<Entry>, key: string): (r: Option<RoomInfo>)
    ensures r.None? <==> forall i :: 0 <= i < |rooms| ==> rooms[i].key != key
    ensures r.Some? ==> exists i :: 0 <= i < |rooms| && rooms[i] == Entry(key, r.value)
  {
    var k := KeyIndex(rooms, key);
    if k < 0 then None else Some(rooms[k].room)
  }

  /** `Map.set`: a present key keeps its position and gets the new value; a
      new key is appended, last in iteration order. */
  function Set(rooms: seq<Entry>, key: string, room: RoomInfo): (r: seq<Entry>)
    ensures Get(r, key) == Some(room)
    ensures forall k :: k != key ==> Get(r, k) == Get(rooms, k)
    ensures Get(rooms, key).Some? ==> |r| == |rooms|
    ensures Get(rooms, key).None? ==> r == rooms + [Entry(key, room)]
    ensures forall i :: 0 <= i < |r| ==>
              r[i] == Entry(key, room) || (i < |rooms| && r[i] == rooms[i])
    ensures UniqueKeys(rooms) ==> UniqueKeys(r)
  {
    var k := KeyIndex(rooms, key);
    if k < 0 then
      var r := rooms + [Entry(key, room)];
      assert forall i :: 0 <= i < |rooms| ==> r[i] == rooms[i];
      assert r[|rooms|].key == key;
      assert KeyIndex(r, key) == |rooms|;
      assert forall k' :: k' != key ==> Get(r, k') == Get(rooms, k') by {
        forall k' | k' != key ensures Get(r, k') == Get(rooms, k') {
          assert r[..|rooms|] == rooms;
          var i := KeyIndex(rooms, k');
          var j := KeyIndex(r, k');
          assert i < 0 ==> j < 0 || j == |rooms|;
        }
      }
      r
    else
      var r := rooms[k := Entry(key, room)];
      KeyIndexSameKeys(r, rooms, key);
      assert forall k' :: KeyIndex(r, k') == KeyIndex(rooms, k') by {
        forall k' ensures KeyIndex(r, k') == KeyIndex(rooms, k') {
          KeyIndexSameKeys(r, rooms, k');
        }
      }
      r
  }

  // ---------------------------------------------------------------------
  // addPeer: upsert by peer id
  // ---------------------------------------------------------------------

  /** The upsert of addPeer: the first peer with the same id is replaced in
      place, socket id included; a new id is pushed at the end. */
  function Upsert(peers: seq<PeerInfo>, peer: PeerInfo): (r: seq<PeerInfo>)
    ensures peer in r
    ensures HasPeerId(peers, peer.id) ==>
              && |r| == |peers|
              && forall i :: 0 <= i < |peers| ==>
                   r[i] == peers[i] || (r[i] == peer && peers[i].id == peer.id)
    ensures !HasPeerId(peers, peer.id) ==> r == peers + [peer]
    ensures UniqueIds(peers) ==> UniqueIds(r)
  {
    var k := FindIndexById(peers, peer.id);
    if k >= 0 then
      assert peers[k := peer][k] == peer;
      peers[k := peer]
    else
      assert (peers + [peer])[|peers|] == peer;
      peers + [peer]
  }

  /** With distinct ids, the one record with the peer's id is the one
      replaced, at its own index, and every other record stays. */
  lemma UpsertReplacesAt(peers: seq<PeerInfo>, peer: PeerInfo, j: nat)
    requires UniqueIds(peers)
    requires j < |peers| && peers[j].id == peer.id
    ensures Upsert(peers, peer) == peers[j := peer]
  {
    assert FindIndexById(peers, peer.id) == j;
  }

  /** The records left by a sequence of addPeer calls on one room, oldest
      call first. */
  function UpsertAll(peers: seq<PeerInfo>, adds: seq<PeerInfo>): seq<PeerInfo>
  {
    if |adds| == 0 then peers
    else Upsert(UpsertAll(peers, adds[..|adds| - 1]), adds[|adds| - 1])
  }

  ghost predicate IsLatest(adds: seq<PeerInfo>, p: PeerInfo) {
    exists i :: 0 <= i < |adds| && adds[i] == p &&
      forall i' :: i < i' < |adds| ==> adds[i'].id != p.id
  }

  /** The ids present after an upsert are the ids before it plus the
      upserted one. */
  lemma UpsertIds(peers: seq<PeerInfo>, a: PeerInfo, id: string)
    ensures HasPeerId(Upsert(peers, a), id) <==> HasPeerId(peers, id) || id == a.id
  {
    var r := Upsert(peers, a);
    if HasPeerId(peers, id) {
      var j :| 0 <= j < |peers| && peers[j].id == id;
      if HasPeerId(peers, a.id) {
        assert r[j].id == id;
      } else {
        assert r[j] == peers[j];
      }
    }
    if HasPeerId(r, id) && id != a.id {
      var j :| 0 <= j < |r| && r[j].id == id;
      assert j < |peers| && r[j] == peers[j];
    }
    if id == a.id {
      var j :| 0 <= j < |r| && r[j] == a;
    }
  }

  /** One more addPeer call keeps every stored record the latest of its id. */
  lemma UpsertKeepsLatest(pre: seq<PeerInfo>, peers: seq<PeerInfo>, a: PeerInfo)
    requires UniqueIds(peers)
    requires forall p :: p in peers ==> IsLatest(pre, p)
    ensures forall p :: p in Upsert(peers, a) ==> IsLatest(pre + [a], p)
  {
    var adds, r := pre + [a], Upsert(peers, a);
    forall p | p in r ensures IsLatest(adds, p) {
      var j :| 0 <= j < |r| && r[j] == p;
      if p == a {
        assert adds[|adds| - 1] == p;
      } else {
        assert j < |peers| && peers[j] == p;
        assert IsLatest(pre, p);
        var i :| 0 <= i < |pre| && pre[i] == p && forall i' :: i < i' < |pre| ==> pre[i'].id != p.id;
        assert adds[i] == p;
        assert a.id != p.id;
      }
    }
  }

  /** Upsert, not append: after any sequence of addPeer calls on a room that
      starts empty, the room holds one record per distinct id used, and that
      record is the one passed by the most recent call with that id. */
  lemma {:induction false} UpsertAllLatest(adds: seq<PeerInfo>)
    ensures UniqueIds(UpsertAll([], adds))
    ensures forall id :: HasPeerId(UpsertAll([], adds), id) <==> HasPeerId(adds, id)
    ensures forall p :: p in UpsertAll([], adds) ==> IsLatest(adds, p)
  {
    if |adds| > 0 {
      var pre, a := adds[..|adds| - 1], adds[|adds| - 1];
      assert adds == pre + [a];
      UpsertAllLatest(pre);
      var before := UpsertAll([], pre);
      forall id ensures HasPeerId(UpsertAll([], adds), id) <==> HasPeerId(adds, id) {
        UpsertIds(before, a, id);
        if HasPeerId(adds, id) && id != a.id {
          var i :| 0 <= i < |adds| && adds[i].id == id;
          assert pre[i].id == id;
        }
        if HasPeerId(pre, id) {
          var i :| 0 <= i < |pre| && pre[i].id == id;
          assert adds[i].id == id;
        }
      }
      UpsertKeepsLatest(pre, before, a);
    }
  }

  // ---------------------------------------------------------------------
  // Scans over rooms in insertion order
  // ---------------------------------------------------------------------

  /** Index of the first room, in insertion order, holding a peer on
      `socketId`, or -1. */
  function FirstRoomWithSocket(rooms: seq<Entry>, socketId: string): (i: int)
    ensures -1 <= i < |rooms|
    ensures i >= 0 ==> HasSocket(rooms[i].room.peers, socketId)
    ensures forall j :: 0 <= j < |rooms| && (i < 0 || j < i) ==>
              !HasSocket(rooms[j].room.peers, socketId)
  {
    if |rooms| == 0 then -1
    else if FindIndexBySocket(rooms[0].room.peers, socketId) >= 0 then 0
    else
      var i := FirstRoomWithSocket(rooms[1..], socketId);
      if i < 0 then -1 else i + 1
  }

  /** Index of the first room, in insertion order, holding a peer with user
      id `id`, or -1. */
  function FirstRoomWithId(rooms: seq<Entry>, id: string): (i: int)
    ensures -1 <= i < |rooms|
    ensures i >= 0 ==> HasPeerId(rooms[i].room.peers, id)
    ensures forall j :: 0 <= j < |rooms| && (i < 0 || j < i) ==>
              !HasPeerId(rooms[j].room.peers, id)
  {
    if |rooms| == 0 then -1
    else if FindIndexById(rooms[0].room.peers, id) >= 0 then 0
    else
      var i := FirstRoomWithId(rooms[1..], id);
      if i < 0 then -1 else i + 1
  }

  /** Peer (i, j) is the first one, rooms in insertion order and peers in
      array order, whose socket is `socketId`. */
  ghost predicate FirstSocketAt(rooms: seq<Entry>, socketId: string, i: int, j: int) {
    && 0 <= i < |rooms| && 0 <= j < |rooms[i].room.peers|
    && rooms[i].room.peers[j].socketId == socketId
    && (forall i' :: 0 <= i' < i ==> !HasSocket(rooms[i'].room.peers, socketId))
    && (forall j' :: 0 <= j' < j ==> rooms[i].room.peers[j'].socketId != socketId)
  }

  /** Peer (i, j) is the first one, in the same order, with user id `id`. */
  ghost predicate FirstIdAt(rooms: seq<Entry>, id: string, i: int, j: int) {
    && 0 <= i < |rooms| && 0 <= j < |rooms[i].room.peers|
    && rooms[i].room.peers[j].id == id
    && (forall i' :: 0 <= i' < i ==> !HasPeerId(rooms[i'].room.peers, id))
    && (forall j' :: 0 <= j' < j ==> rooms[i].room.peers[j'].id != id)
  }

  ghost predicate NoSocketAnywhere(rooms: seq<Entry>, socketId: string) {
    forall i :: 0 <= i < |rooms| ==> !HasSocket(rooms[i].room.peers, socketId)
  }

  ghost predicate NoIdAnywhere(rooms: seq<Entry>, id: string) {
    forall i :: 0 <= i < |rooms| ==> !HasPeerId(rooms[i].room.peers, id)
  }

  /** `peers.slice(0, j).concat(peers.slice(j + 1))`, what `splice(j, 1)`
      leaves behind. */
  function RemoveAt(peers: seq<PeerInfo>, j: nat): (r: seq<PeerInfo>)
    requires j < |peers|
    ensures |r| == |peers| - 1
    ensures forall i :: 0 <= i < j ==> r[i] == peers[i]
    ensures forall i :: j <= i < |r| ==> r[i] == peers[i + 1]
  {
    peers[..j] + peers[j + 1..]
  }

  /** The value removePeerBySocket returns. */
  function RemovedBySocket(rooms: seq<Entry>, socketId: string): (r: Option<Removal>)
    ensures r.None? <==> NoSocketAnywhere(rooms, socketId)
    ensures r.Some? ==>
              exists i, j :: (FirstSocketAt(rooms, socketId, i, j) &&
                              r.value == Removal(rooms[i].key, rooms[i].room.peers[j]))
  {
    var i := FirstRoomWithSocket(rooms, socketId);
    if i < 0 then None
    else
      var j := FindIndexBySocket(rooms[i].room.peers, socketId);
      assert FirstSocketAt(rooms, socketId, i, j);
      Some(Removal(rooms[i].key, rooms[i].room.peers[j]))
  }

  /** The directory removePeerBySocket leaves behind. */
  function AfterRemoveBySocket(rooms: seq<Entry>, socketId: string): (r: seq<Entry>)
    ensures NoSocketAnywhere(rooms, socketId) ==> r == rooms
    ensures forall i, j :: FirstSocketAt(rooms, socketId, i, j) ==>
              r == rooms[i := Entry(rooms[i].key,
                                    RoomInfo(rooms[i].room.id, RemoveAt(rooms[i].room.peers, j)))]
  {
    var i := FirstRoomWithSocket(rooms, socketId);
    if i < 0 then rooms
    else
      var e := rooms[i];
      rooms[i := Entry(e.key, RoomInfo(e.room.id, RemoveAt(e.room.peers, FindIndexBySocket(e.room.peers, socketId))))]
  }

  /** At most one peer anywhere is connected on `socketId`. */
  ghost predicate SocketAtMostOnce(rooms: seq<Entry>, socketId: string) {
    forall i1, j1, i2, j2 ::
      && 0 <= i1 < |rooms| && 0 <= j1 < |rooms[i1].room.peers|
      && 0 <= i2 < |rooms| && 0 <= j2 < |rooms[i2].room.peers|
      && rooms[i1].room.peers[j1].socketId == socketId
      && rooms[i2].room.peers[j2].socketId == socketId
      ==> i1 == i2 && j1 == j2
  }

  /** The first match is unique, so the scans' results are determined. */
  lemma FirstSocketAtUnique(rooms: seq<Entry>, socketId: string, i: int, j: int, i': int, j': int)
    requires FirstSocketAt(rooms, socketId, i, j) && FirstSocketAt(rooms, socketId, i', j')
    ensures i == i' && j == j'
  {
    assert HasSocket(rooms[i].room.peers, socketId);
    assert HasSocket(rooms[i'].room.peers, socketId);
  }

  /** removePeerBySocket removes the peer found by the first-match scan and
      splices out exactly that record: every other room, and the order of
      the remaining peers of its room, are unchanged. */
  lemma RemovesFirstMatch(rooms: seq<Entry>, socketId: string, i: int, j: int)
    requires FirstSocketAt(rooms, socketId, i, j)
    ensures RemovedBySocket(rooms, socketId) == Some(Removal(rooms[i].key, rooms[i].room.peers[j]))
    ensures |AfterRemoveBySocket(rooms, socketId)| == |rooms|
    ensures forall i' :: 0 <= i' < |rooms| && i' != i ==> AfterRemoveBySocket(rooms, socketId)[i'] == rooms[i']
    ensures AfterRemoveBySocket(rooms, socketId)[i].key == rooms[i].key
    ensures AfterRemoveBySocket(rooms, socketId)[i].room.peers ==
              rooms[i].room.peers[..j] + rooms[i].room.peers[j + 1..]
  {
    var r := RemovedBySocket(rooms, socketId);
    assert HasSocket(rooms[i].room.peers, socketId);
    var i', j' :| FirstSocketAt(rooms, socketId, i', j') &&
                  r.value == Removal(rooms[i'].key, rooms[i'].room.peers[j']);
    FirstSocketAtUnique(rooms, socketId, i, j, i', j');
  }

  /** When the socket was on at most one peer, a second removePeerBySocket
      finds nothing and changes nothing. */
  lemma RemoveTwiceFindsNothing(rooms: seq<Entry>, socketId: string)
    requires SocketAtMostOnce(rooms, socketId)
    ensures RemovedBySocket(AfterRemoveBySocket(rooms, socketId), socketId).None?
    ensures AfterRemoveBySocket(AfterRemoveBySocket(rooms, socketId), socketId) ==
              AfterRemoveBySocket(rooms, socketId)
  {
    var after := AfterRemoveBySocket(rooms, socketId);
    if !NoSocketAnywhere(rooms, socketId) {
      var r := RemovedBySocket(rooms, socketId);
      var i, j :| FirstSocketAt(rooms, socketId, i, j) &&
                  r.value == Removal(rooms[i].key, rooms[i].room.peers[j]);
      RemovesFirstMatch(rooms, socketId, i, j);
      var ps := rooms[i].room.peers;
      forall a, b | 0 <= a < |after| && 0 <= b < |after[a].room.peers|
        ensures after[a].room.peers[b].socketId != socketId
      {
        if a != i {
          assert after[a].room.peers[b] == rooms[a].room.peers[b];
        } else {
          var b' := if b < j then b else b + 1;
          assert after[a].room.peers[b] == ps[b'];
        }
      }
    }
  }

  /** removePeerBySocket keeps the directory invariant. */
  lemma RemoveKeepsValid(rooms: seq<Entry>, socketId: string)
    requires ValidRooms(rooms)
    ensures ValidRooms(AfterRemoveBySocket(rooms, socketId))
  {
    if !NoSocketAnywhere(rooms, socketId) {
      var r := RemovedBySocket(rooms, socketId);
      var i, j :| FirstSocketAt(rooms, socketId, i, j) &&
                  r.value == Removal(rooms[i].key, rooms[i].room.peers[j]);
      RemovesFirstMatch(rooms, socketId, i, j);
      var ps := rooms[i].room.peers;
      var qs := AfterRemoveBySocket(rooms, socketId)[i].room.peers;
      forall a, b | 0 <= a < b < |qs| ensures qs[a].id != qs[b].id {
        var a' := if a < j then a else a + 1;
        var b' := if b < j then b else b + 1;
        assert qs[a] == ps[a'] && qs[b] == ps[b'];
      }
    }
  }

  /** The value findSocketIdByUserId returns. */
  function SocketOfUser(rooms: seq<Entry>, userId: string): (r: Option<string>)
    ensures r.None? <==> NoIdAnywhere(rooms, userId)
    ensures r.Some? ==>
              exists i, j :: (FirstIdAt(rooms, userId, i, j) &&
                              r.value == rooms[i].room.peers[j].socketId)
  {
    var i := FirstRoomWithId(rooms, userId);
    if i < 0 then None
    else
      var j := FindIndexById(rooms[i].room.peers, userId);
      assert FirstIdAt(rooms, userId, i, j);
      Some(rooms[i].room.peers[j].socketId)
  }

  /** The value findPeerBySocketId returns. */
  function PeerOfSocket(rooms: seq<Entry>, socketId: string): (r: Option<PeerInfo>)
    ensures r.None? <==> NoSocketAnywhere(rooms, socketId)
    ensures r.Some? ==>
              exists i, j :: (FirstSocketAt(rooms, socketId, i, j) &&
                              r.value == rooms[i].room.peers[j])
  {
    var i := FirstRoomWithSocket(rooms, socketId);
    if i < 0 then None
    else
      var j := FindIndexBySocket(rooms[i].room.peers, socketId);
      assert FirstSocketAt(rooms, socketId, i, j);
      Some(rooms[i].room.peers[j])
  }

  // ---------------------------------------------------------------------
  // The service object
  // ---------------------------------------------------------------------

  /** RoomsService: owns the `rooms` Map and mutates it in place. */
  class RoomsService {
    var rooms: seq<Entry>

    ghost predicate Valid()
      reads this
    {
      ValidRooms(rooms)
    }

    constructor ()
      ensures Valid() && rooms == []
    {
      rooms := [];
    }

    /** createRoom, with the generated id passed in: stores an empty room
        under `id`, replacing a room already stored there. */
    method CreateRoom(id: string) returns (room: RoomInfo)
      requires Valid()
      modifies this
      ensures Valid()
      ensures room == RoomInfo(id, [])
      ensures rooms == Set(old(rooms), id, room)
      ensures Get(rooms, id) == Some(RoomInfo(id, []))
      ensures forall k :: k != id ==> Get(rooms, k) == Get(old(rooms), k)
    {
      room := RoomInfo(id, []);
      rooms := Set(rooms, id, room);
    }

    /** getRoom */
    method GetRoom(id: string) returns (r: Option<RoomInfo>)
      ensures r == Get(rooms, id)
      ensures Valid() && r.Some? ==> r.value.id == id
    {
      r := Get(rooms, id);
    }

    /** listPeers: the room's peers, or the empty array for an unknown id. */
    method ListPeers(id: string) returns (peers: seq<PeerInfo>)
      ensures Get(rooms, id).None? ==> peers == []
      ensures Get(rooms, id).Some? ==> peers == Get(rooms, id).value.peers
    {
      var r := Get(rooms, id);
      peers := if r.Some? then r.value.peers else [];
    }

    /** addPeer: NotFound for an unknown room (no room is created);
        otherwise the upsert, in place in the room's entry. */
    method AddPeer(roomId: string, peer: PeerInfo) returns (r: Option<RoomInfo>)
      requires Valid()
      modifies this
      ensures Valid()
      ensures r.None? <==> Get(old(rooms), roomId).None?
      ensures r.None? ==> rooms == old(rooms)
      ensures r.Some? ==>
                && r.value == RoomInfo(roomId, Upsert(Get(old(rooms), roomId).value.peers, peer))
                && rooms == Set(old(rooms), roomId, r.value)
                && |rooms| == |old(rooms)|
      ensures forall k :: k != roomId ==> Get(rooms, k) == Get(old(rooms), k)
    {
      var k := KeyIndex(rooms, roomId);
      if k < 0 {
        return None;
      }
      var room := rooms[k].room;
      room := RoomInfo(room.id, Upsert(room.peers, peer));
      rooms := rooms[k := Entry(roomId, room)];
      r := Some(room);
    }

    /** removePeerBySocket: scans the rooms in insertion order and splices
        the first peer on `socketId` out of the first room holding one. */
    method RemovePeerBySocket(socketId: string) returns (r: Option<Removal>)
      requires Valid()
      modifies this
      ensures Valid()
      ensures r == RemovedBySocket(old(rooms), socketId)
      ensures rooms == AfterRemoveBySocket(old(rooms), socketId)
    {
      RemoveKeepsValid(rooms, socketId);
      var i := 0;
      while i < |rooms|
        invariant 0 <= i <= |rooms|
        invariant rooms == old(rooms)
        invariant forall i' :: 0 <= i' < i ==> !HasSocket(rooms[i'].room.peers, socketId)
      {
        var e := rooms[i];
        var idx := FindIndexBySocket(e.room.peers, socketId);
        if idx >= 0 {
          assert FirstSocketAt(rooms, socketId, i, idx);
          RemovesFirstMatch(rooms, socketId, i, idx);
          var peer := e.room.peers[idx];
          rooms := rooms[i := Entry(e.key, RoomInfo(e.room.id, RemoveAt(e.room.peers, idx)))];
          return Some(Removal(e.key, peer));
        }
        i := i + 1;
      }
      return None;
    }

    /** findSocketIdByUserId */
    method FindSocketIdByUserId(userId: string) returns (r: Option<string>)
      ensures r == SocketOfUser(rooms, userId)
    {
      var i := 0;
      while i < |rooms|
        invariant 0 <= i <= |rooms|
        invariant forall i' :: 0 <= i' < i ==> !HasPeerId(rooms[i'].room.peers, userId)
      {
        var peers := rooms[i].room.peers;
        var idx := FindIndexById(peers, userId);
        if idx >= 0 {
          assert FirstIdAt(rooms, userId, i, idx);
          FirstIdAtIsSocketOfUser(rooms, userId, i, idx);
          return Some(peers[idx].socketId);
        }
        i := i + 1;
      }
      return None;
    }

    /** findPeerBySocketId */
    method FindPeerBySocketId(socketId: string) returns (r: Option<PeerInfo>)
      ensures r == PeerOfSocket(rooms, socketId)
    {
      var i := 0;
      while i < |rooms|
        invariant 0 <= i <= |rooms|
        invariant forall i' :: 0 <= i' < i ==> !HasSocket(rooms[i'].room.peers, socketId)
      {
        var peers := rooms[i].room.peers;
        var idx := FindIndexBySocket(peers, socketId);
        if idx >= 0 {
          assert FirstSocketAt(rooms, socketId, i, idx);
          FirstSocketAtIsPeerOfSocket(rooms, socketId, i, idx);
          return Some(peers[idx]);
        }
        i := i + 1;
      }
      return None;
    }
  }

  /** findSocketIdByUserId answers with the socket of the first peer, rooms
      in insertion order, with that user id. */
  lemma FirstIdAtIsSocketOfUser(rooms: seq<Entry>, userId: string, i: int, j: int)
    requires FirstIdAt(rooms, userId, i, j)
    ensures SocketOfUser(rooms, userId) == Some(rooms[i].room.peers[j].socketId)
  {
    assert HasPeerId(rooms[i].room.peers, userId);
    var r := SocketOfUser(rooms, userId);
    var i', j' :| FirstIdAt(rooms, userId, i', j') && r.value == rooms[i'].room.peers[j'].socketId;
    assert HasPeerId(rooms[i'].room.peers, userId);
  }

  /** findPeerBySocketId answers with the first peer on that socket, and it
      is the peer removePeerBySocket would remove. */
  lemma FirstSocketAtIsPeerOfSocket(rooms: seq<Entry>, socketId: string, i: int, j: int)
    requires FirstSocketAt(rooms, socketId, i, j)
    ensures PeerOfSocket(rooms, socketId) == Some(rooms[i].room.peers[j])
    ensures RemovedBySocket(rooms, socketId) == Some(Removal(rooms[i].key, rooms[i].room.peers[j]))
  {
    assert HasSocket(rooms[i].room.peers, socketId);
    var r := PeerOfSocket(rooms, socketId);
    var i', j' :| FirstSocketAt(rooms, socketId, i', j') && r.value == rooms[i'].room.peers[j'];
    FirstSocketAtUnique(rooms, socketId, i, j, i', j');
    RemovesFirstMatch(rooms, socketId, i, j);
  }
}
