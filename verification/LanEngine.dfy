/** The mutable discovery engine, handler by handler, each proved to make of the engine's
    view exactly what the specification in `LanDiscovery` makes of it. */
module LanEngine {
  import opened Wrappers
  import opened LanDiscovery

  class PeerShard {
    const uid: Uid
    var adjacency: Adjacency
    var lastSeen: real

    constructor (uid: Uid, now: real)
      ensures this.uid == uid && adjacency == Discovered && lastSeen == now
    {
      this.uid := uid;
      adjacency := Discovered;
      lastSeen := now;
    }

    ghost function View(): PeerState
      reads this
    {
      PeerState(adjacency, lastSeen)
    }

    method IsAdjacent(now: real) returns (r: bool)
      ensures r == View().IsAdjacent(now)
    {
      r := adjacency == Confirmed && now - lastSeen < STALE_TIMEOUT;
    }
  }

  class ShardDiscoveryEngine {
    const uid: Uid
    const quorum: nat
    var peers: map<Uid, PeerShard>
    var order: seq<Uid>
    var status: NodeStatus

    /** Each peer record sits under its own uid, so no two entries share a record. */
    ghost predicate Wired()
      reads this, peers.Values
    {
      forall u | u in peers :: peers[u].uid == u
    }

    ghost function View(): ShardState
      reads this, peers.Values
    {
      ShardState(uid, quorum, order, map u | u in peers :: peers[u].View(), status)
    }

    ghost predicate Valid()
      reads this, peers.Values
    {
      Wired() && View().Valid()
    }

    constructor (uid: Uid, quorum: nat)
      ensures Valid() && fresh(peers.Values)
      ensures View() == Fresh(uid, quorum)
    {
      this.uid := uid;
      this.quorum := quorum;
      peers := map[];
      order := [];
      status := Unformed;
    }

    method AddPeer(peer: PeerShard)
      requires Wired() && peer.uid !in peers
      modifies this
      ensures Wired() && peers == old(peers)[peer.uid := peer]
      ensures View() == SetPeer(old(View()), peer.uid, peer.View())
    {
      peers := peers[peer.uid := peer];
      order := order + [peer.uid];
      assert View().peers == SetPeer(old(View()), peer.uid, peer.View()).peers;
    }

    method InitiateHandshake(peer: PeerShard) returns (sent: Option<Datagram>)
      requires Wired() && peer.uid in peers && peers[peer.uid] == peer
      modifies peer
      ensures Wired()
      ensures (View(), sent) == LanDiscovery.InitiateHandshake(old(View()), peer.uid, old(peer.lastSeen))
    {
      sent := Some(Datagram(Init, uid, peer.uid));
      peer.adjacency := HandshakeSent;
      assert View().peers == SetPeer(old(View()), peer.uid, peer.View()).peers;
    }

    method OnBeacon(sender: Uid, now: real) returns (sent: Option<Datagram>)
      requires Valid() && sender != uid
      modifies this, peers.Values
      ensures Wired() && fresh(peers.Values - old(peers.Values))
      ensures (View(), sent) == LanDiscovery.OnBeacon(old(View()), sender, now)
    {
      sent := None;
      if sender in peers {
        var peer := peers[sender];
        peer.lastSeen := now;
        if peer.adjacency == Stale {
          peer.adjacency := Discovered;
          sent := InitiateHandshake(peer);
        }
      } else {
        var peer := new PeerShard(sender, now);
        AddPeer(peer);
        sent := InitiateHandshake(peer);
      }
      assert View().peers == LanDiscovery.OnBeacon(old(View()), sender, now).0.peers;
    }

    method OnHandshakeInit(sender: Uid, now: real) returns (sent: Option<Datagram>)
      requires Valid() && sender != uid
      modifies this, peers.Values
      ensures Wired() && fresh(peers.Values - old(peers.Values))
      ensures (View(), sent) == OnInit(old(View()), sender, now)
    {
      hide ShardState.Valid;
      if sender !in peers {
        var unseen := new PeerShard(sender, now);
        AddPeer(unseen);
      }
      var peer := peers[sender];
      peer.lastSeen := now;
      sent := Some(Datagram(Ack, uid, sender));
      peer.adjacency := HandshakeAcked;
      assert View().peers == OnInit(old(View()), sender, now).0.peers;
    }

    /** The confirmed, alive peers in table order. */
    method Adjacent(now: real) returns (r: seq<Uid>)
      requires Wired() && OrderedKeys(order, peers.Keys)
      ensures r == AdjacentPeers(order, View().peers, now)
    {
      hide AdjacentPeers;
      r := [];
      ghost var table := View().peers;
      AdjacentPeersUpTo(order, 0, table, now);
      for i := 0 to |order|
        invariant r == AdjacentPeers(order[..i], table, now)
      {
        AdjacentPeersUpTo(order, i, table, now);
        assert order[i] in order && table[order[i]] == peers[order[i]].View();
        var adjacent := peers[order[i]].IsAdjacent(now);
        if adjacent {
          r := r + [order[i]];
        }
      }
      assert order[..|order|] == order;
    }

    method EvaluateStatus(now: real)
      requires Wired() && OrderedKeys(order, peers.Keys)
      modifies this`status
      ensures View() == EvaluateNodeStatus(old(View()), now)
    {
      var adjacent := Adjacent(now);
      var total := |adjacent| + 1;
      if total >= quorum {
        if !status.Formed? {
          var members := [uid] + adjacent;
          status := Formed(members[..quorum]);
        }
      } else {
        if status.Formed? {
          status := Unformed;
        }
      }
      assert View().peers == old(View()).peers;
    }

    method OnHandshakeAck(sender: Uid, now: real) returns (sent: Option<Datagram>)
      requires Valid() && sender != uid
      modifies this, peers.Values
      ensures Wired() && peers == old(peers)
      ensures (View(), sent) == OnAck(old(View()), sender, now)
    {
      if sender !in peers {
        return None;
      }
      var peer := peers[sender];
      peer.lastSeen := now;
      sent := Some(Datagram(Confirm, uid, sender));
      peer.adjacency := Confirmed;
      assert View().peers == old(View()).peers[sender := PeerState(Confirmed, now)];
      EvaluateStatus(now);
    }

    method OnHandshakeConfirm(sender: Uid, now: real) returns (sent: Option<Datagram>)
      requires Valid() && sender != uid
      modifies this, peers.Values
      ensures Wired() && peers == old(peers)
      ensures (View(), sent) == OnConfirm(old(View()), sender, now)
    {
      sent := None;
      if sender !in peers {
        return;
      }
      var peer := peers[sender];
      peer.lastSeen := now;
      peer.adjacency := Confirmed;
      assert View().peers == old(View()).peers[sender := PeerState(Confirmed, now)];
      EvaluateStatus(now);
    }

    /** Route one datagram; a shard's own are dropped. */
    method HandleMessage(d: Datagram, now: real) returns (sent: Option<Datagram>)
      requires Valid()
      modifies this, peers.Values
      ensures Valid() && fresh(peers.Values - old(peers.Values))
      ensures (View(), sent) == Receive(old(View()), d, now)
    {
      ReceiveKeepsValid(View(), d, now);
      if d.src == uid {
        return None;
      }
      match d.kind
      case Beacon => sent := OnBeacon(d.src, now);
      case Init => sent := OnHandshakeInit(d.src, now);
      case Ack => sent := OnHandshakeAck(d.src, now);
      case Confirm => sent := OnHandshakeConfirm(d.src, now);
    }

    /** One round of the prune loop: mark the silent peers, then re-evaluate the node. */
    method PruneRound(now: real)
      requires Valid()
      modifies this, peers.Values
      ensures Wired() && peers == old(peers)
      ensures View() == Prune(old(View()), now)
    {
      hide ShardState.ValidMembers, AdjacentPeers;
      ghost var was := View();
      assert forall j | 0 <= j < |order| :: order[j] in order;
      for i := 0 to |order|
        invariant Wired() && peers == old(peers) && order == old(order) && status == old(status)
        invariant forall j | 0 <= j < |order| :: order[j] in peers
        invariant forall j | 0 <= j < i :: peers[order[j]].View() == MarkStale(was.peers[order[j]], now)
        invariant forall j | i <= j < |order| :: peers[order[j]].View() == was.peers[order[j]]
      {
        var peer := peers[order[i]];
        if peer.adjacency != Stale && !(now - peer.lastSeen < STALE_TIMEOUT) {
          peer.adjacency := Stale;
        }
      }
      forall u | u in peers ensures peers[u].View() == MarkStale(was.peers[u], now) {
        assert u in order;
      }
      assert View().peers == map u | u in was.peers :: MarkStale(was.peers[u], now);
      EvaluateStatus(now);
    }
  }
}
