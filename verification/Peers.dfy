/** The table of outbound peers: one per node id, and only a peer itself is ever taken out. */
module Peers {
  /** The table after a peer asks to be added; a node that has a peer keeps it. */
  function WithPeer<P>(peers: map<string, P>, nodeId: string, peer: P): map<string, P> {
    if nodeId in peers then peers else peers[nodeId := peer]
  }

  /** The table after a peer is removed; another peer of the same node stays. */
  function WithoutPeer<P(==)>(peers: map<string, P>, nodeId: string, peer: P): map<string, P> {
    if nodeId in peers && peers[nodeId] == peer then peers - {nodeId} else peers
  }

  class Peer {
    const nodeId: string

    constructor (nodeId: string)
      ensures this.nodeId == nodeId
    {
      this.nodeId := nodeId;
    }
  }

  class PeerTable {
    var peers: map<string, Peer>

    /** Every peer is filed under its own node. */
    ghost predicate Valid()
      reads this
    {
      forall nodeId | nodeId in peers :: peers[nodeId].nodeId == nodeId
    }

    constructor ()
      ensures Valid() && peers == map[]
    {
      peers := map[];
    }

    method AddPeer(peer: Peer) returns (added: bool)
      requires Valid()
      modifies this
      ensures Valid() && peers == WithPeer(old(peers), peer.nodeId, peer)
      ensures added <==> peer.nodeId !in old(peers)
    {
      if peer.nodeId in peers {
        return false;
      }
      peers := peers[peer.nodeId := peer];
      return true;
    }

    method RemovePeer(peer: Peer)
      requires Valid()
      modifies this
      ensures Valid() && peers == WithoutPeer(old(peers), peer.nodeId, peer)
      ensures forall other | other in old(peers).Values && other != peer :: other in peers.Values
      ensures peer !in peers.Values
    {
      if peer.nodeId in peers && peers[peer.nodeId] == peer {
        peers := peers - {peer.nodeId};
      }
      forall other | other in old(peers).Values && other != peer ensures other in peers.Values {
        assert other.nodeId in peers;
      }
    }

    method GetPeer(nodeId: string) returns (peer: Peer?)
      requires Valid()
      ensures peer == null <==> nodeId !in peers
      ensures peer != null ==> peers[nodeId] == peer && peer.nodeId == nodeId
    {
      return if nodeId in peers then peers[nodeId] else null;
    }

    /** Every peer once, in no particular order. */
    method ListPeers() returns (list: seq<Peer>)
      requires Valid()
      ensures forall peer :: peer in list <==> peer in peers.Values
      ensures forall i, j | 0 <= i < j < |list| :: list[i] != list[j]
    {
      list := [];
      var rest := peers.Keys;
      while rest != {}
        invariant rest <= peers.Keys
        invariant forall peer ::
            peer in list <==> peer.nodeId in peers && peers[peer.nodeId] == peer && peer.nodeId !in rest
        invariant forall i, j | 0 <= i < j < |list| :: list[i] != list[j]
      {
        var nodeId :| nodeId in rest;
        rest := rest - {nodeId};
        list := list + [peers[nodeId]];
      }
      assert forall nodeId | nodeId in peers :: peers[nodeId] in peers.Values;
    }
  }
}
