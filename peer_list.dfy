/** The room page's list of other peers (frontend/src/pages/P2PRoomPage.tsx),
    updated by the `peers`, `peer-joined` and `peer-left` socket handlers. */
module PeerList {

  /** The page's `Peer`: `{id, name}`. */
  datatype Peer = Peer(id: string, name: string)

  /** The three socket events that update the list. */
  datatype PeerEvent =
    | PeersEvent(list: seq<Peer>)
    | PeerJoinedEvent(joined: Peer)
    | PeerLeftEvent(left: Peer)

  /** `prev.filter((x) => x.id !== id)` */
  function Without(prev: seq<Peer>, id: string): (r: seq<Peer>)
    ensures |r| <= |prev|
    ensures forall x :: x in r <==> x in prev && x.id != id
  {
    if |prev| == 0 then []
    else (if prev[0].id != id then [prev[0]] else []) + Without(prev[1..], id)
  }

  /** Filtering keeps the order of what it keeps: it distributes over
      concatenation. */
  lemma {:induction false} WithoutConcat(a: seq<Peer>, b: seq<Peer>, id: string)
    ensures Without(a + b, id) == Without(a, id) + Without(b, id)
  {
    if |a| > 0 {
      assert (a + b)[1..] == a[1..] + b;
      WithoutConcat(a[1..], b, id);
    } else {
      assert a + b == b;
    }
  }

  /** A list with no entry for `id` is left as it is. */
  lemma {:induction false} WithoutAbsent(prev: seq<Peer>, id: string)
    requires forall i :: 0 <= i < |prev| ==> prev[i].id != id
    ensures Without(prev, id) == prev
  {
    if |prev| > 0 {
      WithoutAbsent(prev[1..], id);
    }
  }

  /** The list after one event: `peers` replaces it, `peer-joined` appends
      the peer, `peer-left` drops every entry with that id. */
  function Apply(prev: seq<Peer>, e: PeerEvent): (r: seq<Peer>)
    ensures e.PeersEvent? ==> r == e.list
    ensures e.PeerJoinedEvent? ==> |r| == |prev| + 1 && r[..|prev|] == prev && r[|prev|] == e.joined
    ensures e.PeerLeftEvent? ==>
              forall x :: x in r <==> x in prev && x.id != e.left.id
  {
    match e
    case PeersEvent(list) => list
    case PeerJoinedEvent(p) => prev + [p]
    case PeerLeftEvent(p) => Without(prev, p.id)
  }

  /** `peer-left` undoes `peer-joined` for a peer whose id was not listed. */
  lemma JoinThenLeave(prev: seq<Peer>, p: Peer)
    requires forall i :: 0 <= i < |prev| ==> prev[i].id != p.id
    ensures Apply(Apply(prev, PeerJoinedEvent(p)), PeerLeftEvent(p)) == prev
  {
    WithoutConcat(prev, [p], p.id);
    WithoutAbsent(prev, p.id);
    assert Without([p], p.id) == [];
  }

  /** A second `peer-left` for the same id changes nothing. */
  lemma LeaveIdempotent(prev: seq<Peer>, p: Peer)
    ensures Apply(Apply(prev, PeerLeftEvent(p)), PeerLeftEvent(p)) == Apply(prev, PeerLeftEvent(p))
  {
    var once := Without(prev, p.id);
    forall i | 0 <= i < |once| ensures once[i].id != p.id {
      assert once[i] in once;
    }
    WithoutAbsent(once, p.id);
  }
}
