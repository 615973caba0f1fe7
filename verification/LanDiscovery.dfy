/** One shard's side of the LAN handshake: the state a shard keeps about its peers and
    what each datagram handler makes of it (maestro/lan_discovery.py). Functions here are
    the specification; `LanEngine` holds the mutable engine proved against them and
    `LanNetwork` the runs of a whole network. */
module LanDiscovery {
  import opened Wrappers

  /** A shard uid: compared, never inspected. */
  datatype Uid = Uid(text: string)

  const STALE_TIMEOUT := 15.0

  datatype Adjacency = Discovered | HandshakeSent | HandshakeAcked | Confirmed | Stale

  datatype PeerState = PeerState(adjacency: Adjacency, lastSeen: real) {
    predicate IsAlive(now: real) { now - lastSeen < STALE_TIMEOUT }

    predicate IsAdjacent(now: real) { adjacency == Confirmed && IsAlive(now) }
  }

  datatype NodeStatus = Unformed | Formed(members: seq<Uid>)

  datatype Kind = Beacon | Init | Ack | Confirm

  datatype Datagram = Datagram(kind: Kind, src: Uid, dst: Uid)

  ghost predicate OrderedKeys(order: seq<Uid>, keys: set<Uid>) {
    && (forall i, j | 0 <= i < j < |order| :: order[i] != order[j])
    && (forall u :: u in order <==> u in keys)
  }

  /** `order` is the insertion order of the `peers` dictionary. */
  datatype ShardState = ShardState(
    uid: Uid,
    quorum: nat,
    order: seq<Uid>,
    peers: map<Uid, PeerState>,
    status: NodeStatus)
  {
    /** The peer table is a well-formed ordered dictionary that never holds the shard itself
        or a peer left in DISCOVERED, and a formed node lists `quorum` distinct members, the
        shard first, then peers it tracks. */
    ghost predicate Valid() {
      && OrderedKeys(order, peers.Keys)
      && uid !in peers
      && (forall u | u in peers :: peers[u].adjacency != Discovered)
      && (status.Formed? ==> ValidMembers(status.members))
    }

    ghost predicate ValidMembers(members: seq<Uid>) {
      && |members| == quorum
      && (forall i, j | 0 <= i < j < |members| :: members[i] != members[j])
      && (forall i | 0 <= i < |members| :: if i == 0 then members[i] == uid else members[i] in peers)
    }
  }

  function Fresh(uid: Uid, quorum: nat): ShardState {
    ShardState(uid, quorum, [], map[], Unformed)
  }

  /** Dictionary assignment: a new key goes to the end of the insertion order. */
  function SetPeer(s: ShardState, u: Uid, p: PeerState): ShardState {
    s.(peers := s.peers[u := p], order := if u in s.peers then s.order else s.order + [u])
  }

  function InitiateHandshake(s: ShardState, u: Uid, lastSeen: real): (ShardState, Option<Datagram>) {
    (SetPeer(s, u, PeerState(HandshakeSent, lastSeen)), Some(Datagram(Init, s.uid, u)))
  }

  function OnBeacon(s: ShardState, sender: Uid, now: real): (ShardState, Option<Datagram>) {
    if sender !in s.peers || s.peers[sender].adjacency == Stale
    then InitiateHandshake(s, sender, now)
    else (SetPeer(s, sender, s.peers[sender].(lastSeen := now)), None)
  }

  function OnInit(s: ShardState, sender: Uid, now: real): (ShardState, Option<Datagram>) {
    (SetPeer(s, sender, PeerState(HandshakeAcked, now)), Some(Datagram(Ack, s.uid, sender)))
  }

  function AdjacentPeers(order: seq<Uid>, peers: map<Uid, PeerState>, now: real): seq<Uid> {
    if order == [] then [] else
    var rest := AdjacentPeers(order[..|order| - 1], peers, now);
    var u := order[|order| - 1];
    if u in peers && peers[u].IsAdjacent(now) then rest + [u] else rest
  }

  /** One more peer of the table. */
  lemma AdjacentPeersUpTo(order: seq<Uid>, i: nat, peers: map<Uid, PeerState>, now: real)
    requires i <= |order|
    ensures AdjacentPeers(order[..0], peers, now) == []
    ensures i < |order| ==>
              AdjacentPeers(order[..i + 1], peers, now)
              == AdjacentPeers(order[..i], peers, now)
                 + if order[i] in peers && peers[order[i]].IsAdjacent(now) then [order[i]] else []
  {
    if i < |order| { assert order[..i + 1][..i] == order[..i]; }
  }

  function EvaluateNodeStatus(s: ShardState, now: real): ShardState {
    var adjacent := AdjacentPeers(s.order, s.peers, now);
    if |adjacent| + 1 < s.quorum then s.(status := Unformed)
    else if s.status.Formed? then s
    else s.(status := Formed(([s.uid] + adjacent)[..s.quorum]))
  }

  function OnAck(s: ShardState, sender: Uid, now: real): (ShardState, Option<Datagram>) {
    if sender !in s.peers then (s, None) else
    (EvaluateNodeStatus(SetPeer(s, sender, PeerState(Confirmed, now)), now),
     Some(Datagram(Confirm, s.uid, sender)))
  }

  function OnConfirm(s: ShardState, sender: Uid, now: real): (ShardState, Option<Datagram>) {
    if sender !in s.peers then (s, None) else
    (EvaluateNodeStatus(SetPeer(s, sender, PeerState(Confirmed, now)), now), None)
  }

  /** `datagram_received` drops a shard's own datagrams; `_handle_message` routes the rest. */
  function Receive(s: ShardState, d: Datagram, now: real): (ShardState, Option<Datagram>) {
    if d.src == s.uid then (s, None) else
    match d.kind
    case Beacon => OnBeacon(s, d.src, now)
    case Init => OnInit(s, d.src, now)
    case Ack => OnAck(s, d.src, now)
    case Confirm => OnConfirm(s, d.src, now)
  }

  function MarkStale(p: PeerState, now: real): PeerState {
    if p.adjacency != Stale && !p.IsAlive(now) then p.(adjacency := Stale) else p
  }

  /** One round of the prune loop. */
  function Prune(s: ShardState, now: real): ShardState {
    EvaluateNodeStatus(s.(peers := map u | u in s.peers :: MarkStale(s.peers[u], now)), now)
  }

  // ---- what the handlers keep ----

  /** A shard ignores its own datagrams, and answers to a handshake from a shard it does not know. */
  lemma StrangersIgnored(s: ShardState, d: Datagram, now: real)
    requires d.src == s.uid || (d.kind in {Ack, Confirm} && d.src !in s.peers)
    ensures Receive(s, d, now) == (s, None)
  {
  }

  /** `a` is taken from `order` at the positions `at`, from first to last. */
  ghost predicate TakenInOrder(a: seq<Uid>, order: seq<Uid>, at: seq<nat>) {
    && |at| == |a|
    && (forall i, j | 0 <= i < j < |at| :: at[i] < at[j])
    && forall i | 0 <= i < |at| :: at[i] < |order| && a[i] == order[at[i]]
  }

  lemma TakenFromMore(a: seq<Uid>, order: seq<Uid>, at: seq<nat>)
    requires order != [] && TakenInOrder(a, order[..|order| - 1], at)
    ensures TakenInOrder(a, order, at)
    ensures TakenInOrder(a + [order[|order| - 1]], order, at + [|order| - 1])
  {
  }

  lemma {:induction false} AdjacentPeersInOrder(order: seq<Uid>, peers: map<Uid, PeerState>, now: real)
    returns (at: seq<nat>)
    ensures TakenInOrder(AdjacentPeers(order, peers, now), order, at)
  {
    if order == [] {
      at := [];
    } else {
      hide TakenInOrder, AdjacentPeers;
      var last := |order| - 1;
      at := AdjacentPeersInOrder(order[..last], peers, now);
      TakenFromMore(AdjacentPeers(order[..last], peers, now), order, at);
      AdjacentPeersUpTo(order, last, peers, now);
      assert order[..last + 1] == order;
      if order[last] in peers && peers[order[last]].IsAdjacent(now) { at := at + [last]; }
    }
  }

  /** The adjacent list is exactly the confirmed live peers, each once, in table order. */
  lemma {:induction false} AdjacentPeersExact(order: seq<Uid>, peers: map<Uid, PeerState>, now: real)
    requires forall i, j | 0 <= i < j < |order| :: order[i] != order[j]
    ensures var a := AdjacentPeers(order, peers, now);
            && (forall u :: u in a <==> u in order && u in peers && peers[u].IsAdjacent(now))
            && (forall i, j | 0 <= i < j < |a| :: a[i] != a[j])
            && exists at :: TakenInOrder(a, order, at)
  {
    var at := AdjacentPeersInOrder(order, peers, now);
    if order != [] {
      var last := |order| - 1;
      assert order == order[..last] + [order[last]];
      AdjacentPeersExact(order[..last], peers, now);
    }
  }

  /** Right after an evaluation a node is formed exactly when the shard and its adjacent peers
      make a quorum, and the member list is then well formed. */
  lemma EvaluateNodeStatusExact(s: ShardState, now: real)
    requires s.Valid()
    ensures var t := EvaluateNodeStatus(s, now);
            && t.Valid()
            && t == s.(status := t.status)
            && (t.status.Formed? <==> |AdjacentPeers(s.order, s.peers, now)| + 1 >= s.quorum)
            && (t.status.Formed? && !s.status.Formed? ==>
                  forall u | u in t.status.members && u != s.uid :: u in s.peers && s.peers[u].IsAdjacent(now))
  {
    AdjacentPeersExact(s.order, s.peers, now);
    var adjacent := AdjacentPeers(s.order, s.peers, now);
    assert forall u | u in adjacent :: u in s.order;
  }

  /** Every member of a formed node but the shard itself is a confirmed live peer. */
  ghost predicate MembersAdjacent(s: ShardState, now: real) {
    s.status.Formed? ==> forall u | u in s.status.members && u != s.uid :: u in s.peers && s.peers[u].IsAdjacent(now)
  }

  lemma {:induction false} SetOfDistinct(a: seq<Uid>)
    requires forall i, j | 0 <= i < j < |a| :: a[i] != a[j]
    ensures |set u | u in a| == |a|
  {
    if a != [] {
      var front, last := a[..|a| - 1], a[|a| - 1];
      SetOfDistinct(front);
      assert a == front + [last];
      assert (set u | u in a) == (set u | u in front) + {last};
    }
  }

  lemma MembersAreTracked(s: ShardState)
    requires s.Valid() && s.status.Formed?
    ensures forall u | u in s.status.members && u != s.uid :: u in s.peers
    ensures |set u | u in s.status.members && u != s.uid| == if s.quorum == 0 then 0 else s.quorum - 1
  {
    var members := s.status.members;
    SetOfDistinct(members);
    if s.quorum > 0 {
      assert members[0] == s.uid && s.uid in members;
      assert (set u | u in members && u != s.uid) == (set u | u in members) - {s.uid};
    } else {
      assert members == [];
    }
  }

  lemma {:induction false} Smaller(a: set<Uid>, b: set<Uid>)
    requires a <= b
    ensures |a| <= |b|
  {
    if a != {} {
      var x :| x in a;
      Smaller(a - {x}, b - {x});
    }
  }

  /** After an evaluation all members of a formed node are adjacent exactly when it formed just now, or
      they all were; and a member that is not has an adjacent peer outside the node in its place. */
  lemma MembersAdjacentIff(s: ShardState, now: real)
    requires s.Valid() && EvaluateNodeStatus(s, now).status.Formed?
    ensures var t := EvaluateNodeStatus(s, now);
            && (MembersAdjacent(t, now) <==> s.status.Unformed? || MembersAdjacent(s, now))
            && (!MembersAdjacent(t, now) ==>
                  exists v :: v in t.peers && t.peers[v].IsAdjacent(now) && v !in t.status.members)
  {
    var t, adjacent := EvaluateNodeStatus(s, now), AdjacentPeers(s.order, s.peers, now);
    EvaluateNodeStatusExact(s, now);
    AdjacentPeersExact(s.order, s.peers, now);
    if !MembersAdjacent(t, now) {
      var u :| u in t.status.members && u != t.uid && !(u in t.peers && t.peers[u].IsAdjacent(now));
      MembersAreTracked(t);
      SetOfDistinct(adjacent);
      var others, live := set u | u in t.status.members && u != t.uid, set u | u in adjacent;
      if live <= others {
        assert live <= others - {u};
        Smaller(live, others - {u});
      } else {
        var v :| v in live && v !in others;
        assert v in t.peers && v != t.uid;
      }
    }
  }

  lemma OnlyPeer(a: Uid, peers: map<Uid, PeerState>)
    requires peers == map[a := PeerState(Confirmed, 0.0)]
    ensures AdjacentPeers([a], peers, 0.0) == [a]
  {
    assert [a][..0] == [];
  }

  lemma FirstPeer(uid: Uid, a: Uid)
    requires uid != a
    ensures OnAck(OnBeacon(Fresh(uid, 2), a, 0.0).0, a, 0.0).0
            == ShardState(uid, 2, [a], map[a := PeerState(Confirmed, 0.0)], Formed([uid, a]))
  {
    hide AdjacentPeers;
    var start := ShardState(uid, 2, [a], map[a := PeerState(HandshakeSent, 0.0)], Unformed);
    assert [] + [a] == [a];
    assert OnBeacon(Fresh(uid, 2), a, 0.0).0 == start;
    var peers := map[a := PeerState(Confirmed, 0.0)];
    assert start.peers[a := PeerState(Confirmed, 0.0)] == peers;
    assert SetPeer(start, a, PeerState(Confirmed, 0.0)) == start.(peers := peers);
    OnlyPeer(a, peers);
    assert [uid] + [a] == [uid, a] && [uid, a][..2] == [uid, a];
  }

  lemma OnlyTheSecond(a: Uid, b: Uid, peers: map<Uid, PeerState>)
    requires a != b && peers == map[a := PeerState(Confirmed, 0.0), b := PeerState(Confirmed, STALE_TIMEOUT)]
    ensures AdjacentPeers([a, b], peers, STALE_TIMEOUT) == [b]
  {
    assert [a, b][..1] == [a] && [a][..0] == [];
    assert AdjacentPeers([a], peers, STALE_TIMEOUT) == [];
  }

  /** Two shards make a node; the peer falls silent for the timeout as another is confirmed: the node
      stays formed with the silent peer as its member. */
  lemma SilentMemberStays(uid: Uid, a: Uid, b: Uid)
    requires uid != a && uid != b && a != b
    ensures var one := OnAck(OnBeacon(Fresh(uid, 2), a, 0.0).0, a, 0.0).0;
            var two := OnAck(OnBeacon(one, b, STALE_TIMEOUT).0, b, STALE_TIMEOUT).0;
            && one.status == two.status == Formed([uid, a])
            && !two.peers[a].IsAdjacent(STALE_TIMEOUT) && two.peers[b].IsAdjacent(STALE_TIMEOUT)
  {
    hide AdjacentPeers;
    FirstPeer(uid, a);
    var one := ShardState(uid, 2, [a], map[a := PeerState(Confirmed, 0.0)], Formed([uid, a]));
    var next := OnBeacon(one, b, STALE_TIMEOUT).0;
    var peers := map[a := PeerState(Confirmed, 0.0), b := PeerState(Confirmed, STALE_TIMEOUT)];
    assert next.order == [a] + [b] == [a, b];
    assert next.peers[b := PeerState(Confirmed, STALE_TIMEOUT)] == peers;
    OnlyTheSecond(a, b, peers);
  }

  lemma SetPeerKeepsValid(s: ShardState, u: Uid, p: PeerState)
    requires s.Valid() && u != s.uid && p.adjacency != Discovered
    ensures SetPeer(s, u, p).Valid()
  {
  }

  lemma ConfirmKeepsValid(s: ShardState, u: Uid, now: real)
    requires s.Valid() && u != s.uid
    ensures var t := EvaluateNodeStatus(SetPeer(s, u, PeerState(Confirmed, now)), now);
            t.Valid() && t.peers == s.peers[u := PeerState(Confirmed, now)]
  {
    SetPeerKeepsValid(s, u, PeerState(Confirmed, now));
    EvaluateNodeStatusExact(SetPeer(s, u, PeerState(Confirmed, now)), now);
  }

  /** Whatever arrives, a shard never tracks itself and leaves no peer in DISCOVERED. */
  lemma ReceiveKeepsValid(s: ShardState, d: Datagram, now: real)
    requires s.Valid()
    ensures Receive(s, d, now).0.Valid()
    ensures s.peers.Keys <= Receive(s, d, now).0.peers.Keys <= s.peers.Keys + {d.src}
  {
    if d.src != s.uid {
      match d.kind
      case Beacon =>
        if d.src in s.peers && s.peers[d.src].adjacency != Stale {
          SetPeerKeepsValid(s, d.src, s.peers[d.src].(lastSeen := now));
        } else {
          SetPeerKeepsValid(s, d.src, PeerState(HandshakeSent, now));
        }
      case Init => SetPeerKeepsValid(s, d.src, PeerState(HandshakeAcked, now));
      case Ack => ConfirmKeepsValid(s, d.src, now);
      case Confirm => ConfirmKeepsValid(s, d.src, now);
    }
  }

  lemma PruneKeepsValid(s: ShardState, now: real)
    requires s.Valid()
    ensures Prune(s, now).Valid() && Prune(s, now).peers.Keys == s.peers.Keys
    ensures forall u | u in s.peers :: Prune(s, now).peers[u] == MarkStale(s.peers[u], now)
  {
    var marked := s.(peers := map u | u in s.peers :: MarkStale(s.peers[u], now));
    assert marked.peers.Keys == s.peers.Keys;
    EvaluateNodeStatusExact(marked, now);
  }
}
