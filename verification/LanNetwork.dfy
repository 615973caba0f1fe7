/** Runs of a whole LAN: any number of shards, datagrams in flight, and everything ever sent.
    Exactly-once runs consume each handshake datagram when it arrives; a lossy run may also
    lose datagrams and deliver again anything that was ever sent. Order is arbitrary in both. */
module LanNetwork {
  import opened Wrappers
  import opened LanDiscovery

  /** `bag` holds the handshake datagrams in flight, `history` all that were ever sent. */
  datatype World = World(
    shards: map<Uid, ShardState>,
    bag: multiset<Datagram>,
    history: set<Datagram>)

  /** Every action carries the clock reading of the shard that acts; clocks are unconstrained. */
  datatype Action =
    | BeaconArrives(src: Uid, dst: Uid, now: real)
    | Deliver(d: Datagram, now: real)
    | Replay(d: Datagram, now: real)
    | Lose(d: Datagram)
    | PruneFires(at: Uid, now: real)
  {
    /** Replaying and losing are what an exactly-once network never does. */
    predicate IsLossless() { !Replay? && !Lose? }
  }

  ghost predicate Enabled(w: World, a: Action) {
    match a
    case BeaconArrives(src, dst, _) => src in w.shards && dst in w.shards
    case Deliver(d, _) => d in w.bag && d.dst in w.shards
    case Replay(d, _) => d in w.history && d.dst in w.shards
    case Lose(d) => d in w.bag
    case PruneFires(at, _) => at in w.shards
  }

  /** Shard `at` moves to state `s` and sends `reply`; `bag` is what else is in flight. */
  function Put(w: World, at: Uid, s: ShardState, bag: multiset<Datagram>, reply: Option<Datagram>): World {
    match reply
    case None => w.(shards := w.shards[at := s], bag := bag)
    case Some(out) => World(w.shards[at := s], bag + multiset{out}, w.history + {out})
  }

  function Arrive(w: World, d: Datagram, now: real, bag: multiset<Datagram>): World
    requires d.dst in w.shards
  {
    var (s, reply) := Receive(w.shards[d.dst], d, now);
    Put(w, d.dst, s, bag, reply)
  }

  ghost function Next(w: World, a: Action): World
    requires Enabled(w, a)
  {
    match a
    case BeaconArrives(src, dst, now) => Arrive(w, Datagram(Beacon, src, dst), now, w.bag)
    case Deliver(d, now) => Arrive(w, d, now, w.bag - multiset{d})
    case Replay(d, now) => Arrive(w, d, now, w.bag)
    case Lose(d) => w.(bag := w.bag - multiset{d})
    case PruneFires(at, now) => Put(w, at, Prune(w.shards[at], now), w.bag, None)
  }

  ghost predicate Initial(w: World) {
    && w.bag == multiset{}
    && w.history == {}
    && forall u | u in w.shards :: w.shards[u] == Fresh(u, w.shards[u].quorum)
  }

  ghost predicate IsRun(ws: seq<World>, actions: seq<Action>) {
    && |ws| == |actions| + 1
    && forall i | 0 <= i < |actions| :: Enabled(ws[i], actions[i]) && ws[i + 1] == Next(ws[i], actions[i])
  }

  // ---- safety: no confirmed adjacency without a completed handshake ----

  /** `a` tracks `b`. */
  ghost predicate Tracks(w: World, a: Uid, b: Uid) {
    a in w.shards && b in w.shards[a].peers
  }

  /** A whole handshake between the two was sent, started by either side. */
  ghost predicate Handshaken(history: set<Datagram>, a: Uid, b: Uid) {
    || (Datagram(Init, a, b) in history && Datagram(Ack, b, a) in history)
    || (Datagram(Init, b, a) in history && Datagram(Ack, a, b) in history && Datagram(Confirm, b, a) in history)
  }

  ghost predicate Evidence(w: World, a: Uid, b: Uid) {
    Tracks(w, b, a) && Handshaken(w.history, a, b)
  }

  /** Each reply in the history was provoked by the message before it. */
  ghost predicate Provoked(w: World, d: Datagram) {
    && d.src in w.shards && d.dst in w.shards && d.src != d.dst
    && Tracks(w, d.src, d.dst)
    && match d.kind
       case Beacon => false
       case Init => true
       case Ack => Datagram(Init, d.dst, d.src) in w.history
       case Confirm => Datagram(Ack, d.dst, d.src) in w.history
  }

  /** `s` would be a sound state of shard `a` in world `w`. */
  ghost predicate ShardSafe(w: World, a: Uid, s: ShardState) {
    && s.uid == a
    && s.Valid()
    && s.peers.Keys <= w.shards.Keys
    && (forall b | b in s.peers && s.peers[b].adjacency == Confirmed :: Evidence(w, a, b))
    && (s.status.Formed? ==> forall b | b in s.status.members && b != a :: b in s.peers && Evidence(w, a, b))
  }

  /** `reply` may be sent by `at`, now in state `s`. */
  ghost predicate ReplySafe(w: World, at: Uid, s: ShardState, reply: Option<Datagram>) {
    reply.Some? ==>
      var d := reply.value;
      && d.src == at && d.dst in w.shards && d.dst != at
      && d.dst in s.peers
      && match d.kind
         case Beacon => false
         case Init => true
         case Ack => Datagram(Init, d.dst, d.src) in w.history
         case Confirm => Datagram(Ack, d.dst, d.src) in w.history
  }

  ghost predicate ShardsSafe(w: World) {
    forall a | a in w.shards :: ShardSafe(w, a, w.shards[a])
  }

  ghost predicate HistorySafe(w: World) {
    forall d | d in w.history :: Provoked(w, d)
  }

  ghost predicate Safe(w: World) {
    && ShardsSafe(w)
    && HistorySafe(w)
    && (forall d | d in w.bag :: d in w.history)
  }

  /** `w'` has the same shards as `w`, which still track all they tracked, and more history. */
  ghost predicate Grows(w: World, w': World) {
    && w.shards.Keys == w'.shards.Keys
    && w.history <= w'.history
    && forall a | a in w.shards :: w.shards[a].peers.Keys <= w'.shards[a].peers.Keys
  }

  lemma ShardSafeGrows(w: World, w': World, a: Uid, s: ShardState)
    requires Grows(w, w') && ShardSafe(w, a, s)
    ensures ShardSafe(w', a, s)
  {
  }

  lemma ProvokedGrows(w: World, w': World, d: Datagram)
    requires Grows(w, w') && Provoked(w, d)
    ensures Provoked(w', d)
  {
  }

  lemma PutShardsSafe(w: World, w': World, at: Uid, s: ShardState)
    requires ShardsSafe(w) && at in w.shards && ShardSafe(w, at, s)
    requires Grows(w, w') && w'.shards == w.shards[at := s]
    ensures ShardsSafe(w')
  {
    forall a | a in w'.shards ensures ShardSafe(w', a, w'.shards[a]) {
      ShardSafeGrows(w, w', a, w'.shards[a]);
    }
  }

  lemma PutHistorySafe(w: World, at: Uid, s: ShardState, bag: multiset<Datagram>, reply: Option<Datagram>)
    requires HistorySafe(w) && at in w.shards && Grows(w, Put(w, at, s, bag, reply)) && ReplySafe(w, at, s, reply)
    ensures HistorySafe(Put(w, at, s, bag, reply))
  {
    var w' := Put(w, at, s, bag, reply);
    forall d | d in w'.history ensures Provoked(w', d) {
      if d in w.history { ProvokedGrows(w, w', d); }
    }
  }

  lemma PutGrows(w: World, at: Uid, s: ShardState, bag: multiset<Datagram>, reply: Option<Datagram>)
    requires at in w.shards && w.shards[at].peers.Keys <= s.peers.Keys
    ensures Grows(w, Put(w, at, s, bag, reply))
    ensures bag <= w.bag && (forall d | d in w.bag :: d in w.history) ==>
              forall d | d in Put(w, at, s, bag, reply).bag :: d in Put(w, at, s, bag, reply).history
  {
  }

  lemma PutSafe(w: World, at: Uid, s: ShardState, bag: multiset<Datagram>, reply: Option<Datagram>)
    requires Safe(w) && at in w.shards && bag <= w.bag
    requires ShardSafe(w, at, s) && w.shards[at].peers.Keys <= s.peers.Keys && ReplySafe(w, at, s, reply)
    ensures Safe(Put(w, at, s, bag, reply))
  {
    PutGrows(w, at, s, bag, reply);
    PutShardsSafe(w, Put(w, at, s, bag, reply), at, s);
    PutHistorySafe(w, at, s, bag, reply);
  }

  lemma SetPeerSafe(w: World, a: Uid, s: ShardState, u: Uid, p: PeerState)
    requires ShardSafe(w, a, s) && u in w.shards && u != a && p.adjacency != Discovered
    requires p.adjacency == Confirmed ==> Evidence(w, a, u)
    ensures ShardSafe(w, a, SetPeer(s, u, p))
  {
    SetPeerKeepsValid(s, u, p);
  }

  lemma EvaluateSafe(w: World, a: Uid, s: ShardState, now: real)
    requires ShardSafe(w, a, s)
    ensures ShardSafe(w, a, EvaluateNodeStatus(s, now))
  {
    EvaluateNodeStatusExact(s, now);
  }

  /** What a datagram in the history says about the two shards it joins. */
  lemma HistoryTells(w: World, d: Datagram)
    requires HistorySafe(w) && d in w.history
    ensures d.src in w.shards && d.dst in w.shards && d.src != d.dst
    ensures Tracks(w, d.src, d.dst)
    ensures d.kind in {Ack, Confirm} ==> Tracks(w, d.dst, d.src) && Evidence(w, d.dst, d.src)
  {
    assert Provoked(w, d);
    if d.kind == Ack { assert Provoked(w, Datagram(Init, d.dst, d.src)); }
    if d.kind == Confirm {
      assert Provoked(w, Datagram(Ack, d.dst, d.src));
      assert Provoked(w, Datagram(Init, d.src, d.dst));
    }
  }

  lemma ConfirmSafe(w: World, a: Uid, s: ShardState, u: Uid, now: real)
    requires ShardSafe(w, a, s) && u in w.shards && u != a && Evidence(w, a, u)
    ensures ShardSafe(w, a, EvaluateNodeStatus(SetPeer(s, u, PeerState(Confirmed, now)), now))
  {
    SetPeerSafe(w, a, s, u, PeerState(Confirmed, now));
    EvaluateSafe(w, a, SetPeer(s, u, PeerState(Confirmed, now)), now);
  }

  /** Any arrival leaves the receiver in a sound state with a sound reply. */
  lemma ReceiveSafe(w: World, d: Datagram, now: real)
    requires d.dst in w.shards && ShardSafe(w, d.dst, w.shards[d.dst]) && HistorySafe(w)
    requires d.src in w.shards && (d.kind != Beacon ==> d in w.history)
    ensures var (s, reply) := Receive(w.shards[d.dst], d, now);
            && ShardSafe(w, d.dst, s) && w.shards[d.dst].peers.Keys <= s.peers.Keys
            && ReplySafe(w, d.dst, s, reply)
  {
    if d.src != d.dst {
      var s := w.shards[d.dst];
      if d.kind != Beacon { HistoryTells(w, d); }
      ReceiveKeepsValid(s, d, now);
      match d.kind
      case Beacon =>
        if d.src in s.peers && s.peers[d.src].adjacency != Stale {
          SetPeerSafe(w, d.dst, s, d.src, s.peers[d.src].(lastSeen := now));
        } else {
          SetPeerSafe(w, d.dst, s, d.src, PeerState(HandshakeSent, now));
        }
      case Init => SetPeerSafe(w, d.dst, s, d.src, PeerState(HandshakeAcked, now));
      case Ack => ConfirmSafe(w, d.dst, s, d.src, now);
      case Confirm => ConfirmSafe(w, d.dst, s, d.src, now);
    }
  }

  lemma ArriveSafe(w: World, d: Datagram, now: real, bag: multiset<Datagram>)
    requires Safe(w) && d.src in w.shards && d.dst in w.shards && bag <= w.bag
    requires d.kind != Beacon ==> d in w.history
    ensures Safe(Arrive(w, d, now, bag))
  {
    ReceiveSafe(w, d, now);
    var (s, reply) := Receive(w.shards[d.dst], d, now);
    PutSafe(w, d.dst, s, bag, reply);
  }

  lemma PruneKeepsEvidence(w: World, at: Uid, now: real)
    requires at in w.shards && ShardSafe(w, at, w.shards[at])
    ensures ShardSafe(w, at, Prune(w.shards[at], now))
    ensures Prune(w.shards[at], now).peers.Keys == w.shards[at].peers.Keys
  {
    var s := w.shards[at];
    var marked := s.(peers := map u | u in s.peers :: MarkStale(s.peers[u], now));
    assert marked.peers.Keys == s.peers.Keys;
    assert marked.Valid();
    EvaluateNodeStatusExact(marked, now);
  }

  lemma PruneSafe(w: World, at: Uid, now: real)
    requires Safe(w) && at in w.shards
    ensures Safe(Next(w, PruneFires(at, now)))
  {
    hide Prune, ShardSafe;
    var s := w.shards[at];
    assert ShardSafe(w, at, s);
    PruneKeepsEvidence(w, at, now);
    PutSafe(w, at, Prune(s, now), w.bag, None);
  }

  lemma StepSafe(w: World, a: Action)
    requires Safe(w) && Enabled(w, a)
    ensures Safe(Next(w, a))
  {
    match a
    case BeaconArrives(src, dst, now) => ArriveSafe(w, Datagram(Beacon, src, dst), now, w.bag);
    case Deliver(d, now) =>
      assert Provoked(w, d);
      ArriveSafe(w, d, now, w.bag - multiset{d});
    case Replay(d, now) =>
      assert Provoked(w, d);
      ArriveSafe(w, d, now, w.bag);
    case Lose(d) =>
      var w' := Next(w, a);
      forall u | u in w'.shards ensures ShardSafe(w', u, w'.shards[u]) {
        assert ShardSafe(w, u, w.shards[u]);
        assert forall b | Evidence(w, u, b) :: Evidence(w', u, b);
      }
      forall x | x in w'.history ensures Provoked(w', x) { assert Provoked(w, x); }
    case PruneFires(at, now) => PruneSafe(w, at, now);
  }

  lemma {:induction false} RunSafe(ws: seq<World>, actions: seq<Action>, i: nat)
    requires IsRun(ws, actions) && Initial(ws[0]) && i < |ws|
    ensures Safe(ws[i])
  {
    if i > 0 {
      RunSafe(ws, actions, i - 1);
      StepSafe(ws[i - 1], actions[i - 1]);
    }
  }

  /** In any run, with loss, duplication and reordering: a CONFIRMED peer tracks the shard back
      and a full handshake between the two was sent; a formed node lists only such peers. */
  lemma ConfirmedOnlyAfterHandshake(ws: seq<World>, actions: seq<Action>, i: nat, a: Uid, b: Uid)
    requires IsRun(ws, actions) && Initial(ws[0]) && i < |ws| && Tracks(ws[i], a, b)
    ensures a != b && b in ws[i].shards && ws[i].shards[a].peers[b].adjacency != Discovered
    ensures ws[i].shards[a].peers[b].adjacency == Confirmed
            || (ws[i].shards[a].status.Formed? && b in ws[i].shards[a].status.members)
            ==> Tracks(ws[i], b, a) && Handshaken(ws[i].history, a, b)
  {
    RunSafe(ws, actions, i);
    assert ShardSafe(ws[i], a, ws[i].shards[a]);
  }

  // ---- progress: exactly-once delivery always completes ----

  /** A peer waiting for an answer has the answer, or what provokes it, in flight. */
  ghost predicate Attended(w: World, a: Uid, b: Uid)
    requires Tracks(w, a, b)
  {
    && (w.shards[a].peers[b].adjacency == HandshakeSent ==>
          Datagram(Init, a, b) in w.bag || Datagram(Ack, b, a) in w.bag)
    && (w.shards[a].peers[b].adjacency == HandshakeAcked ==>
          Datagram(Ack, a, b) in w.bag || Datagram(Confirm, b, a) in w.bag)
    && (Tracks(w, b, a) || Datagram(Init, a, b) in w.bag)
  }

  ghost predicate AllAttended(w: World) {
    forall a, b | Tracks(w, a, b) :: Attended(w, a, b)
  }

  ghost predicate Live(w: World) { Safe(w) && AllAttended(w) }

  /** What one arrival does to the receiver's table: only the sender's entry is touched. */
  lemma ReceiveFrame(s: ShardState, d: Datagram, now: real, u: Uid)
    requires s.Valid() && u in s.peers && u != d.src
    ensures u in Receive(s, d, now).0.peers && Receive(s, d, now).0.peers[u] == s.peers[u]
  {
    if d.src != s.uid && (d.kind == Ack || d.kind == Confirm) {
      ConfirmKeepsValid(s, d.src, now);
    }
  }

  /** `Put` keeps every entry attended if it touches the entry for `peer` only, attends the two
      entries of the pair, and what leaves the bag was between the two. */
  lemma PutAttended(w: World, w': World, at: Uid, peer: Uid, s: ShardState)
    requires AllAttended(w) && at in w.shards && w'.shards == w.shards[at := s] && Grows(w, w')
    requires s.peers.Keys <= w.shards[at].peers.Keys + {peer}
    requires forall u | u in w.shards[at].peers && u != peer :: s.peers[u] == w.shards[at].peers[u]
    requires Tracks(w', at, peer) ==> Attended(w', at, peer)
    requires Tracks(w', peer, at) ==> Attended(w', peer, at)
    requires forall d | d in w.bag && d !in w'.bag :: (d.src == at && d.dst == peer) || (d.src == peer && d.dst == at)
    ensures AllAttended(w')
  {
    forall a, b | Tracks(w', a, b) ensures Attended(w', a, b) {
      if !(a == at && b == peer) && !(a == peer && b == at) {
        assert Tracks(w, a, b) && Attended(w, a, b);
      }
    }
  }

  /** The receiver's new entry for the sender, and the reply, by kind of datagram. */
  ghost predicate EntryAfter(s: ShardState, d: Datagram, t: ShardState, reply: Option<Datagram>) {
    && d.src in t.peers
    && match d.kind
       case Beacon =>
         if d.src in s.peers && s.peers[d.src].adjacency != Stale
         then t.peers[d.src].adjacency == s.peers[d.src].adjacency && reply == None
         else t.peers[d.src].adjacency == HandshakeSent && reply == Some(Datagram(Init, s.uid, d.src))
       case Init => t.peers[d.src].adjacency == HandshakeAcked && reply == Some(Datagram(Ack, s.uid, d.src))
       case Ack => t.peers[d.src].adjacency == Confirmed && reply == Some(Datagram(Confirm, s.uid, d.src))
       case Confirm => t.peers[d.src].adjacency == Confirmed && reply == None
  }

  lemma ReceiveEntry(s: ShardState, d: Datagram, now: real)
    requires s.Valid() && d.src != s.uid && (d.kind in {Ack, Confirm} ==> d.src in s.peers)
    ensures var (t, reply) := Receive(s, d, now); EntryAfter(s, d, t, reply)
  {
    if d.kind in {Ack, Confirm} { ConfirmKeepsValid(s, d.src, now); }
  }

  /** After a datagram from `d.src` the receiver's entry for it, and its entry for the receiver,
      have what they wait for in flight. */
  lemma PairAttended(w: World, w': World, d: Datagram, t: ShardState, reply: Option<Datagram>)
    requires d.src in w.shards && d.dst in w.shards && d.src != d.dst
    requires Tracks(w, d.dst, d.src) ==> Attended(w, d.dst, d.src)
    requires Tracks(w, d.src, d.dst) ==> Attended(w, d.src, d.dst)
    requires d.kind == Beacon || Tracks(w, d.src, d.dst)
    requires w'.shards == w.shards[d.dst := t] && forall x | (x in w.bag && x != d) || reply == Some(x) :: x in w'.bag
    requires w.shards[d.dst].uid == d.dst && EntryAfter(w.shards[d.dst], d, t, reply)
    ensures Attended(w', d.dst, d.src)
    ensures Tracks(w', d.src, d.dst) ==> Attended(w', d.src, d.dst)
  {
  }

  /** All that an arrival does to the receiver, gathered for a datagram that was really sent. */
  lemma ReceiveEffect(w: World, d: Datagram, now: real)
    requires ShardsSafe(w) && HistorySafe(w)
    requires d.src in w.shards && d.dst in w.shards && d.src != d.dst && (d.kind == Beacon || d in w.history)
    ensures d.kind == Beacon || Tracks(w, d.src, d.dst)
    ensures var s := w.shards[d.dst];
            var (t, reply) := Receive(s, d, now);
            && s.uid == d.dst
            && s.peers.Keys <= t.peers.Keys <= s.peers.Keys + {d.src}
            && (forall u | u in s.peers && u != d.src :: t.peers[u] == s.peers[u])
            && EntryAfter(s, d, t, reply)
  {
    var s := w.shards[d.dst];
    assert ShardSafe(w, d.dst, s);
    if d.kind != Beacon { HistoryTells(w, d); }
    ReceiveKeepsValid(s, d, now);
    ReceiveEntry(s, d, now);
    forall u | u in s.peers && u != d.src ensures Receive(s, d, now).0.peers[u] == s.peers[u] {
      ReceiveFrame(s, d, now, u);
    }
  }

  lemma ArriveAttended(w: World, d: Datagram, now: real)
    requires ShardsSafe(w) && HistorySafe(w) && AllAttended(w)
    requires d.src in w.shards && d.dst in w.shards && d.src != d.dst && (d.kind == Beacon || d in w.history)
    ensures AllAttended(Arrive(w, d, now, w.bag - multiset{d}))
  {
    hide Receive, ShardsSafe, HistorySafe;
    var bag := w.bag - multiset{d};
    var (t, reply) := Receive(w.shards[d.dst], d, now);
    ReceiveEffect(w, d, now);
    PutGrows(w, d.dst, t, bag, reply);
    var w' := Put(w, d.dst, t, bag, reply);
    PairAttended(w, w', d, t, reply);
    PutAttended(w, w', d.dst, d.src, t);
  }

  lemma ArriveLive(w: World, d: Datagram, now: real)
    requires Live(w) && d.src in w.shards && d.dst in w.shards && d.src != d.dst
    requires d.kind == Beacon || d in w.bag
    ensures Live(Arrive(w, d, now, w.bag - multiset{d}))
  {
    var bag := w.bag - multiset{d};
    ArriveSafe(w, d, now, bag);
    ArriveAttended(w, d, now);
  }

  lemma MarkedAttended(w: World, at: Uid, s: ShardState, now: real)
    requires AllAttended(w) && at in w.shards && s.peers.Keys == w.shards[at].peers.Keys
    requires forall u | u in s.peers :: s.peers[u] == MarkStale(w.shards[at].peers[u], now)
    ensures AllAttended(Put(w, at, s, w.bag, None))
  {
    var w' := Put(w, at, s, w.bag, None);
    forall a, b | Tracks(w', a, b) ensures Attended(w', a, b) {
      assert Tracks(w, a, b) && Attended(w, a, b);
    }
  }

  lemma PruneAttended(w: World, at: Uid, now: real)
    requires ShardsSafe(w) && AllAttended(w) && at in w.shards
    ensures AllAttended(Next(w, PruneFires(at, now)))
  {
    var w' := Next(w, PruneFires(at, now));
    assert ShardSafe(w, at, w.shards[at]);
    PruneKeepsValid(w.shards[at], now);
    MarkedAttended(w, at, Prune(w.shards[at], now), now);
  }

  lemma PruneLive(w: World, at: Uid, now: real)
    requires Live(w) && at in w.shards
    ensures Live(Next(w, PruneFires(at, now)))
  {
    PruneSafe(w, at, now);
    PruneAttended(w, at, now);
  }

  /** A shard ignores its own beacon, and no beacon is ever in the bag. */
  lemma BeaconIsNotInFlight(w: World, src: Uid, dst: Uid, now: real)
    requires Safe(w) && src in w.shards && dst in w.shards
    ensures w.bag - multiset{Datagram(Beacon, src, dst)} == w.bag
    ensures src == dst ==> Next(w, BeaconArrives(src, dst, now)) == w
  {
    hide OnBeacon, OnInit, OnAck, OnConfirm, ShardState.Valid;
    assert !Provoked(w, Datagram(Beacon, src, dst));
    assert ShardSafe(w, dst, w.shards[dst]);
    assert w.shards[dst := w.shards[dst]] == w.shards;
  }

  lemma StepLive(w: World, a: Action)
    requires Live(w) && Enabled(w, a) && a.IsLossless()
    ensures Live(Next(w, a))
  {
    hide Receive, ShardsSafe, AllAttended;
    match a
    case BeaconArrives(src, dst, now) =>
      BeaconIsNotInFlight(w, src, dst, now);
      if src != dst { ArriveLive(w, Datagram(Beacon, src, dst), now); }
    case Deliver(d, now) =>
      assert Provoked(w, d);
      ArriveLive(w, d, now);
    case PruneFires(at, now) => PruneLive(w, at, now);
  }

  lemma {:induction false} RunLive(ws: seq<World>, actions: seq<Action>, i: nat)
    requires IsRun(ws, actions) && Initial(ws[0]) && i < |ws|
    requires forall k | 0 <= k < |actions| :: actions[k].IsLossless()
    ensures Live(ws[i])
  {
    if i > 0 {
      RunLive(ws, actions, i - 1);
      StepLive(ws[i - 1], actions[i - 1]);
    }
  }

  ghost predicate NothingStale(w: World) {
    forall a, b | Tracks(w, a, b) :: w.shards[a].peers[b].adjacency != Stale
  }

  lemma ArriveNothingStale(w: World, d: Datagram, now: real, bag: multiset<Datagram>)
    requires ShardsSafe(w) && HistorySafe(w) && NothingStale(w) && d.src in w.shards && d.dst in w.shards
    requires d.kind == Beacon || d in w.history
    ensures NothingStale(Arrive(w, d, now, bag))
  {
    var s := w.shards[d.dst];
    var (t, reply) := Receive(s, d, now);
    var w' := Arrive(w, d, now, bag);
    assert ShardSafe(w, d.dst, s);
    if d.kind != Beacon { HistoryTells(w, d); }
    ReceiveKeepsValid(s, d, now);
    if d.src != d.dst { ReceiveEntry(s, d, now); }
    forall x, y | Tracks(w', x, y) ensures w'.shards[x].peers[y].adjacency != Stale {
      if x == d.dst && y == d.src {
        assert Tracks(w, x, y) ==> w.shards[x].peers[y].adjacency != Stale;
      } else {
        if x == d.dst { ReceiveFrame(s, d, now, y); }
        assert Tracks(w, x, y);
      }
    }
  }

  lemma {:induction false} NeverPrunedNothingStale(ws: seq<World>, actions: seq<Action>, i: nat)
    requires IsRun(ws, actions) && Initial(ws[0]) && i < |ws|
    requires forall k | 0 <= k < |actions| :: actions[k].IsLossless() && !actions[k].PruneFires?
    ensures NothingStale(ws[i])
  {
    if i > 0 {
      NeverPrunedNothingStale(ws, actions, i - 1);
      RunSafe(ws, actions, i - 1);
      match actions[i - 1]
      case BeaconArrives(src, dst, now) =>
        ArriveNothingStale(ws[i - 1], Datagram(Beacon, src, dst), now, ws[i - 1].bag);
      case Deliver(d, now) =>
        assert Provoked(ws[i - 1], d);
        ArriveNothingStale(ws[i - 1], d, now, ws[i - 1].bag - multiset{d});
    }
  }

  /** Exactly-once delivery in any order: with nothing in flight, tracking is mutual and every
      tracked peer is CONFIRMED or STALE; if pruning never fired, all are CONFIRMED. */
  lemma QuiescenceSettlesEveryHandshake(ws: seq<World>, actions: seq<Action>, i: nat, a: Uid, b: Uid)
    requires IsRun(ws, actions) && Initial(ws[0]) && i < |ws|
    requires forall k | 0 <= k < |actions| :: actions[k].IsLossless()
    requires ws[i].bag == multiset{} && Tracks(ws[i], a, b)
    ensures Tracks(ws[i], b, a)
    ensures ws[i].shards[a].peers[b].adjacency in {Confirmed, Stale}
    ensures (forall k | 0 <= k < |actions| :: !actions[k].PruneFires?) ==>
              ws[i].shards[a].peers[b].adjacency == Confirmed && ws[i].shards[b].peers[a].adjacency == Confirmed
  {
    RunLive(ws, actions, i);
    assert Attended(ws[i], a, b);
    assert Attended(ws[i], b, a);
    assert ShardSafe(ws[i], a, ws[i].shards[a]) && ShardSafe(ws[i], b, ws[i].shards[b]);
    if forall k | 0 <= k < |actions| :: !actions[k].PruneFires? {
      NeverPrunedNothingStale(ws, actions, i);
    }
  }

  // ---- termination: a drain takes exactly the weight of what is in flight ----

  function KindWeight(k: Kind): nat {
    match k
    case Beacon => 0
    case Init => 3
    case Ack => 2
    case Confirm => 1
  }

  ghost function Weight(bag: multiset<Datagram>): nat
    decreases |bag|
  {
    if bag == multiset{} then 0 else
    var d :| d in bag;
    KindWeight(d.kind) + Weight(bag - multiset{d})
  }

  lemma {:induction false} WeightTake(bag: multiset<Datagram>, d: Datagram)
    requires d in bag
    ensures Weight(bag) == KindWeight(d.kind) + Weight(bag - multiset{d})
    decreases |bag|
  {
    var e :| e in bag && Weight(bag) == KindWeight(e.kind) + Weight(bag - multiset{e});
    if d != e {
      WeightTake(bag - multiset{e}, d);
      WeightTake(bag - multiset{d}, e);
      assert bag - multiset{e} - multiset{d} == bag - multiset{d} - multiset{e};
    }
  }

  lemma WeightAdd(bag: multiset<Datagram>, d: Datagram)
    ensures Weight(bag + multiset{d}) == Weight(bag) + KindWeight(d.kind)
  {
    WeightTake(bag + multiset{d}, d);
    assert bag + multiset{d} - multiset{d} == bag;
  }

  /** The kind of the reply to a handshake datagram that was really sent. */
  lemma ReplyKind(w: World, d: Datagram, now: real)
    requires ShardsSafe(w) && HistorySafe(w) && d in w.history
    ensures d.dst in w.shards
    ensures var reply := Receive(w.shards[d.dst], d, now).1;
            match d.kind
            case Beacon => false
            case Init => reply.Some? && reply.value.kind == Ack
            case Ack => reply.Some? && reply.value.kind == Confirm
            case Confirm => reply.None?
  {
    HistoryTells(w, d);
    assert Provoked(w, d) && ShardSafe(w, d.dst, w.shards[d.dst]);
    ReceiveEntry(w.shards[d.dst], d, now);
  }

  lemma RepliedWeight(w: World, d: Datagram, t: ShardState, reply: Option<Datagram>)
    requires d in w.bag
    requires match d.kind
             case Beacon => false
             case Init => reply.Some? && reply.value.kind == Ack
             case Ack => reply.Some? && reply.value.kind == Confirm
             case Confirm => reply.None?
    ensures Weight(Put(w, d.dst, t, w.bag - multiset{d}, reply).bag) == Weight(w.bag) - 1
  {
    WeightTake(w.bag, d);
    if reply.Some? { WeightAdd(w.bag - multiset{d}, reply.value); }
  }

  /** Each delivery lowers the weight of what is in flight by exactly one. */
  lemma DeliveryLowersWeight(w: World, d: Datagram, now: real)
    requires Safe(w) && d in w.bag
    ensures Enabled(w, Deliver(d, now))
    ensures Weight(Next(w, Deliver(d, now)).bag) == Weight(w.bag) - 1
  {
    ReplyKind(w, d, now);
    var (t, reply) := Receive(w.shards[d.dst], d, now);
    RepliedWeight(w, d, t, reply);
  }

  lemma {:induction false} SafeAlong(ws: seq<World>, actions: seq<Action>, i: nat)
    requires IsRun(ws, actions) && Safe(ws[0]) && i < |ws|
    ensures Safe(ws[i])
  {
    if i > 0 {
      SafeAlong(ws, actions, i - 1);
      StepSafe(ws[i - 1], actions[i - 1]);
    }
  }

  /** No new handshake is started: deliveries, prunes, and beacons that are answered with nothing. */
  ghost predicate Quiet(w: World, a: Action)
    requires Enabled(w, a)
  {
    match a
    case Deliver(_, _) => true
    case PruneFires(_, _) => true
    case BeaconArrives(src, dst, now) => Receive(w.shards[dst], Datagram(Beacon, src, dst), now).1.None?
    case _ => false
  }

  function Deliveries(actions: seq<Action>): nat {
    if actions == [] then 0 else Deliveries(actions[..|actions| - 1]) + if actions[|actions| - 1].Deliver? then 1 else 0
  }

  /** Prunes and unanswered beacons leave what is in flight alone. */
  lemma QuietKeepsTheBag(w: World, a: Action)
    requires Enabled(w, a) && Quiet(w, a) && !a.Deliver?
    ensures Next(w, a).bag == w.bag
  {
    hide Receive, Prune;
  }

  lemma NothingWeighsNothing()
    ensures Weight(multiset{}) == 0
  {
  }

  /** Once no new handshake is started, whatever else happens and in whatever order datagrams arrive,
      there are at most as many deliveries as the weight in flight, each lowers it by one, and
      nothing is in flight exactly when they are used up. */
  lemma {:induction false} DrainTakesExactlyTheWeight(ws: seq<World>, actions: seq<Action>)
    requires IsRun(ws, actions) && Safe(ws[0])
    requires forall k | 0 <= k < |actions| :: Quiet(ws[k], actions[k])
    ensures Weight(ws[|actions|].bag) == Weight(ws[0].bag) - Deliveries(actions)
    ensures ws[|actions|].bag == multiset{} <==> Deliveries(actions) == Weight(ws[0].bag)
  {
    hide Safe, Quiet, Next, Weight;
    SafeAlong(ws, actions, |actions|);
    var last := ws[|actions|];
    if actions != [] {
      var n := |actions| - 1;
      DrainTakesExactlyTheWeight(ws[..n + 1], actions[..n]);
      SafeAlong(ws, actions, n);
      if actions[n].Deliver? {
        DeliveryLowersWeight(ws[n], actions[n].d, actions[n].now);
      } else {
        QuietKeepsTheBag(ws[n], actions[n]);
      }
    }
    if last.bag != multiset{} {
      var d :| d in last.bag;
      DeliveryLowersWeight(last, d, 0.0);
    } else {
      NothingWeighsNothing();
    }
  }
}
