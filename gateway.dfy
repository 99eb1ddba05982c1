/** The signalling gateway (SignalGateway in
    backend/src/signal/signal.gateway.ts): the presence handlers for
    `join-room` and disconnect, and the `signal` relay.

    The socket.io server is modelled by what the handlers do to it: an
    outbox of emitted events, each with its destination, and the map from
    channel name to the sockets subscribed to it. */
module Gateway {
  import opened Wrappers
  import opened Directory

  /** The public fields of a peer, `{id, name}`. Events about peers carry
      only these, so no event payload has a socket field. */
  datatype PublicPeer = PublicPeer(id: string, name: string)

  /** A negotiation payload (offer, answer or ICE candidate); the relay
      never looks inside it. */
  datatype Payload = Payload(json: string)

  /** The events the gateway emits. */
  datatype Event =
    | Peers(list: seq<PublicPeer>)
    | PeerJoined(joined: PublicPeer)
    | PeerLeft(left: PublicPeer)
    | Signal(from: string, payload: Payload)

  /** Where an emit goes: `client.emit` and `server.to(socketId)` address one
      socket; `server.to(channel)` every socket in the channel;
      `client.to(channel)` every socket in the channel except the client. */
  datatype Destination =
    | ToSocket(socketId: string)
    | ToChannel(channel: string)
    | ToChannelExcept(channel: string, except: string)

  datatype Emission = Emission(dest: Destination, event: Event)

  /** What the `join-room` handler returns as the acknowledgement. */
  datatype JoinResult = Joined(roomId: string) | JoinFailed(error: string)

  const RoomNotFound: string := "Room not found"

  /** The channel of a room: `room:<roomId>`. */
  function ChannelOf(roomId: string): (r: string)
    ensures |r| == |roomId| + 5
    ensures r[..5] == "room:" && r[5..] == roomId
  {
    "room:" + roomId
  }

  /** Distinct rooms have distinct channels. */
  lemma ChannelOfInjective(a: string, b: string)
    requires ChannelOf(a) == ChannelOf(b)
    ensures a == b
  {
    assert a == ChannelOf(a)[5..];
    assert b == ChannelOf(b)[5..];
  }

  function Members(channels: map<string, set<string>>, channel: string): set<string> {
    if channel in channels then channels[channel] else {}
  }

  /** The sockets an emission reaches, given the channel subscriptions. */
  function Recipients(d: Destination, channels: map<string, set<string>>): set<string> {
    match d
    case ToSocket(s) => {s}
    case ToChannel(c) => Members(channels, c)
    case ToChannelExcept(c, x) => Members(channels, c) - {x}
  }

  /** socket.io takes a closing socket out of every channel before the
      disconnect handler runs. */
  function LeaveAll(channels: map<string, set<string>>, socketId: string): (r: map<string, set<string>>)
    ensures r.Keys == channels.Keys
    ensures forall c :: socketId !in Members(r, c)
    ensures forall c, s :: s != socketId ==> (s in Members(r, c) <==> s in Members(channels, c))
  {
    map c | c in channels :: channels[c] - {socketId}
  }

  /** The `.map((p) => ({id: p.id, name: p.name}))` projection. */
  function Public(p: PeerInfo): (r: PublicPeer)
    ensures r.id == p.id && r.name == p.name
  {
    PublicPeer(p.id, p.name)
  }

  /** Non-interference: the public record of a peer does not depend on its
      socket id, so no event built from it can reveal the socket. */
  lemma PublicIgnoresSocket(p: PeerInfo)
    ensures forall s :: Public(p.(socketId := s)) == Public(p)
  {
  }

  /** The `peers` payload: `peers.filter((p) => p.socketId !== self).map(...)`. */
  function Visible(peers: seq<PeerInfo>, self: string): (r: seq<PublicPeer>)
    ensures |r| <= |peers|
    ensures forall q :: q in r <==>
              exists j :: 0 <= j < |peers| && peers[j].socketId != self && q == Public(peers[j])
  {
    if |peers| == 0 then []
    else
      var rest := Visible(peers[1..], self);
      (if peers[0].socketId != self then [Public(peers[0])] else []) + rest
  }

  /** The `peers` payload keeps room order: filtering distributes over
      concatenation. */
  lemma {:induction false} VisibleConcat(a: seq<PeerInfo>, b: seq<PeerInfo>, self: string)
    ensures Visible(a + b, self) == Visible(a, self) + Visible(b, self)
  {
    if |a| > 0 {
      assert (a + b)[1..] == a[1..] + b;
      VisibleConcat(a[1..], b, self);
    } else {
      assert a + b == b;
    }
  }

  /** Two peers joining an empty room on different sockets: the first is
      sent an empty list, the second exactly the first's public fields. */
  lemma SecondJoinerSeesFirst(first: PeerInfo, second: PeerInfo)
    requires first.id != second.id && first.socketId != second.socketId
    ensures Visible(Upsert([], first), first.socketId) == []
    ensures Visible(Upsert(Upsert([], first), second), second.socketId) == [Public(first)]
  {
    var one := Upsert([], first);
    assert one == [first];
    assert Upsert(one, second) == [first, second] by {
      assert !HasPeerId(one, second.id);
    }
    assert Visible([first, second], second.socketId) == [Public(first)] + Visible([second], second.socketId);
  }

  /** The `from` of a forwarded signal: the sender's peer id, or its raw
      socket id when it has no peer record (`fromPeer?.id ?? client.id`). */
  function SenderId(rooms: seq<Entry>, socketId: string): (r: string)
    ensures NoSocketAnywhere(rooms, socketId) ==> r == socketId
    ensures !NoSocketAnywhere(rooms, socketId) ==>
              exists i, j :: (FirstSocketAt(rooms, socketId, i, j) && r == rooms[i].room.peers[j].id)
  {
    match PeerOfSocket(rooms, socketId)
    case Some(p) => p.id
    case None => socketId
  }

  /** The sender is named by the first peer record on its socket, and by
      the socket itself only when no record has that socket. */
  lemma SenderIdCases(rooms: seq<Entry>, socketId: string)
    ensures NoSocketAnywhere(rooms, socketId) ==> SenderId(rooms, socketId) == socketId
    ensures forall i, j :: FirstSocketAt(rooms, socketId, i, j) ==>
              SenderId(rooms, socketId) == rooms[i].room.peers[j].id
  {
    forall i, j | FirstSocketAt(rooms, socketId, i, j)
      ensures SenderId(rooms, socketId) == rooms[i].room.peers[j].id
    {
      FirstSocketAtIsPeerOfSocket(rooms, socketId, i, j);
    }
  }

  /** SignalGateway: the handlers, with the directory service they share. */
  class SignalGateway {
    const directory: RoomsService
    var outbox: seq<Emission>
    var channels: map<string, set<string>>

    ghost predicate Valid()
      reads this, directory
    {
      directory.Valid()
    }

    constructor (directory: RoomsService)
      requires directory.Valid()
      ensures Valid()
      ensures this.directory == directory && outbox == [] && channels == map[]
    {
      this.directory := directory;
      outbox := [];
      channels := map[];
    }

    /** handleDisconnect: remove the peer on the closing socket and tell its
        room, or do nothing when no peer was on that socket. */
    method HandleDisconnect(client: string)
      requires Valid()
      modifies this, directory
      ensures Valid()
      ensures channels == LeaveAll(old(channels), client)
      ensures directory.rooms == AfterRemoveBySocket(old(directory.rooms), client)
      ensures RemovedBySocket(old(directory.rooms), client).None? ==> outbox == old(outbox)
      ensures RemovedBySocket(old(directory.rooms), client).Some? ==>
                var removed := RemovedBySocket(old(directory.rooms), client).value;
                outbox == old(outbox) +
                  [Emission(ToChannel(ChannelOf(removed.roomId)), PeerLeft(Public(removed.peer)))]
    {
      channels := LeaveAll(channels, client);
      var removed := directory.RemovePeerBySocket(client);
      if removed.Some? {
        var roomId := removed.value.roomId;
        outbox := outbox + [Emission(ToChannel(ChannelOf(roomId)), PeerLeft(Public(removed.value.peer)))];
      }
    }

    /** onJoinRoom: upsert the peer; on an unknown room answer with an error
        and do nothing else; otherwise subscribe the client to the room's
        channel, send it the other peers and tell the rest of the channel. */
    method OnJoinRoom(client: string, roomId: string, userId: string, name: string)
      returns (res: JoinResult)
      requires Valid()
      modifies this, directory
      ensures Valid()
      ensures Get(old(directory.rooms), roomId).None? ==>
                && res == JoinFailed(RoomNotFound)
                && directory.rooms == old(directory.rooms)
                && outbox == old(outbox)
                && channels == old(channels)
      ensures Get(old(directory.rooms), roomId).Some? ==>
                var peers := Upsert(Get(old(directory.rooms), roomId).value.peers,
                                    PeerInfo(userId, name, client));
                var channel := ChannelOf(roomId);
                && res == Joined(roomId)
                && directory.rooms == Set(old(directory.rooms), roomId, RoomInfo(roomId, peers))
                && channels == old(channels)[channel := Members(old(channels), channel) + {client}]
                && outbox == old(outbox) +
                     [Emission(ToSocket(client), Peers(Visible(peers, client))),
                      Emission(ToChannelExcept(channel, client), PeerJoined(PublicPeer(userId, name)))]
                && Recipients(outbox[|outbox| - 1].dest, channels) == Members(old(channels), channel) - {client}
    {
      var room := directory.AddPeer(roomId, PeerInfo(userId, name, client));
      if room.None? {
        return JoinFailed(RoomNotFound);
      }
      var channel := ChannelOf(roomId);
      channels := channels[channel := Members(channels, channel) + {client}];
      outbox := outbox + [Emission(ToSocket(client), Peers(Visible(room.value.peers, client)))];
      outbox := outbox + [Emission(ToChannelExcept(channel, client), PeerJoined(PublicPeer(userId, name)))];
      res := Joined(roomId);
    }

    /** onSignal: forward the payload to the target peer's socket, named by
        the sender's peer id; drop it silently when the target is unknown.
        `if (targetSocketId)` also drops an empty socket id. */
    method OnSignal(client: string, targetId: string, payload: Payload)
      modifies this
      ensures directory.rooms == old(directory.rooms)
      ensures channels == old(channels)
      ensures var target := SocketOfUser(directory.rooms, targetId);
              if target.Some? && target.value != "" then
                outbox == old(outbox) +
                  [Emission(ToSocket(target.value), Signal(SenderId(directory.rooms, client), payload))]
              else
                outbox == old(outbox)
    {
      var targetSocketId := directory.FindSocketIdByUserId(targetId);
      var fromPeer := directory.FindPeerBySocketId(client);
      if targetSocketId.Some? && targetSocketId.value != "" {
        var from := if fromPeer.Some? then fromPeer.value.id else client;
        outbox := outbox + [Emission(ToSocket(targetSocketId.value), Signal(from, payload))];
      }
    }
  }
}
