/** What a shard of the LAN knows, told from what arrived at it and when its prune loop ran: a reading of
    its whole state from the actions of a run alone (maestro/lan_discovery.py). */
module LanPresence {
  import opened Wrappers
  import opened Sequences
  import opened LanDiscovery
  import opened LanNetwork

  // ---- the history of one shard ----

  datatype Arrival = Arrival(src: Uid, kind: Kind, at: real)

  /** What an action brings to shard `a` from another one. */
  function ArrivalAt(x: Action, a: Uid): Option<Arrival> {
    match x
    case BeaconArrives(src, dst, now) => if dst == a && src != a then Some(Arrival(src, Beacon, now)) else None
    case Deliver(d, now) => if d.dst == a && d.src != a then Some(Arrival(d.src, d.kind, now)) else None
    case Replay(d, now) => if d.dst == a && d.src != a then Some(Arrival(d.src, d.kind, now)) else None
    case Lose(_) => None
    case PruneFires(_, _) => None
  }

  /** The shard's clock as the last thing from `b` arrived. */
  function LastHeard(xs: seq<Action>, a: Uid, b: Uid): Option<real> {
    if xs == [] then None
    else
      var n := |xs| - 1;
      match ArrivalAt(xs[n], a)
      case Some(r) => if r.src == b then Some(r.at) else LastHeard(xs[..n], a, b)
      case None => LastHeard(xs[..n], a, b)
  }

  /** Whom the shard heard from, in the order of the first time. */
  function HeardFrom(xs: seq<Action>, a: Uid): seq<Uid> {
    if xs == [] then []
    else
      var n := |xs| - 1;
      var before := HeardFrom(xs[..n], a);
      match ArrivalAt(xs[n], a)
      case Some(r) => if r.src in before then before else before + [r.src]
      case None => before
  }

  /** How `b` stands with the shard: the last answer decides, unless silence was noticed after it. */
  function Standing(xs: seq<Action>, a: Uid, b: Uid): Adjacency {
    if xs == [] then Discovered
    else
      var n := |xs| - 1;
      var x, before := xs[n], Standing(xs[..n], a, b);
      var heard := LastHeard(xs[..n], a, b);
      if x.PruneFires? && x.at == a && heard.Some? && x.now - heard.value >= 15.0 then Stale
      else
        match ArrivalAt(x, a)
        case Some(r) =>
          if r.src != b then before
          else if r.kind == Ack || r.kind == Confirm then Confirmed
          else if r.kind == Init then HandshakeAcked
          else if before == Discovered || before == Stale then HandshakeSent
          else before
        case None => before
  }

  /** Confirmed, and heard from in the last 15 seconds. */
  predicate IsPresent(xs: seq<Action>, a: Uid, now: real, b: Uid) {
    Standing(xs, a, b) == Confirmed && LastHeard(xs, a, b).Some? && now - LastHeard(xs, a, b).value < 15.0
  }

  function Present(xs: seq<Action>, a: Uid, now: real): seq<Uid> {
    Filter(HeardFrom(xs, a), b => IsPresent(xs, a, now, b))
  }

  /** The clock reading at which an action makes the shard count its node: a prune round, or the end of a
      handshake. */
  function CountsAt(x: Action, a: Uid): Option<real> {
    if x.PruneFires? && x.at == a then Some(x.now)
    else
      match ArrivalAt(x, a)
      case Some(r) => if r.kind == Ack || r.kind == Confirm then Some(r.at) else None
      case None => None
  }

  function NodeOver(xs: seq<Action>, a: Uid, quorum: nat): NodeStatus {
    if xs == [] then Unformed
    else
      var n := |xs| - 1;
      var before := NodeOver(xs[..n], a, quorum);
      match CountsAt(xs[n], a)
      case None => before
      case Some(now) =>
        var present := Present(xs, a, now);
        if 1 + |present| < quorum then Unformed
        else if before.Formed? then before
        else Formed(([a] + present)[..quorum])
  }

  /** The peer table of shard `a` is what its history says. */
  ghost predicate KnowsPeers(s: ShardState, xs: seq<Action>, a: Uid) {
    && s.uid == a
    && s.order == HeardFrom(xs, a)
    && (forall b :: b in s.order <==> b in s.peers)
    && (forall b :: b in s.peers <==> LastHeard(xs, a, b).Some?)
    && (forall b | b in s.peers :: s.peers[b] == PeerState(Standing(xs, a, b), LastHeard(xs, a, b).value))
    && (forall b | b !in s.peers :: Standing(xs, a, b) == Discovered)
  }

  /** Its whole state is. */
  ghost predicate IsHistory(s: ShardState, xs: seq<Action>, a: Uid) {
    KnowsPeers(s, xs, a) && s.status == NodeOver(xs, a, s.quorum)
  }

  // ---- one action ----

  lemma {:induction false} AdjacentIsFilter(order: seq<Uid>, peers: map<Uid, PeerState>, now: real, p: Uid -> bool)
    requires forall u | u in order :: p(u) <==> u in peers && peers[u].IsAdjacent(now)
    ensures AdjacentPeers(order, peers, now) == Filter(order, p)
  {
    if order != [] {
      var n := |order| - 1;
      assert order == order[..n] + [order[n]];
      AdjacentIsFilter(order[..n], peers, now, p);
    }
  }

  lemma OneMore(xs: seq<Action>, x: Action)
    ensures (xs + [x])[..|xs|] == xs && (xs + [x])[|xs|] == x && xs + [x] != []
  {
  }

  /** Counting the node in a state that the history tells. */
  lemma CountedNode(t: ShardState, xs: seq<Action>, a: Uid, now: real)
    requires KnowsPeers(t, xs, a)
    ensures var u, present := EvaluateNodeStatus(t, now), Present(xs, a, now);
            && u == t.(status := u.status)
            && u.status == if 1 + |present| < t.quorum then Unformed
                           else if t.status.Formed? then t.status
                           else Formed(([a] + present)[..t.quorum])
  {
    hide Standing, LastHeard, HeardFrom;
    forall b | b in t.order ensures IsPresent(xs, a, now, b) <==> b in t.peers && t.peers[b].IsAdjacent(now) {
    }
    AdjacentIsFilter(t.order, t.peers, now, b => IsPresent(xs, a, now, b));
  }

  lemma HeardNext(xs: seq<Action>, x: Action, a: Uid, b: Uid)
    ensures HeardFrom(xs + [x], a)
            == match ArrivalAt(x, a)
               case Some(r) => if r.src in HeardFrom(xs, a) then HeardFrom(xs, a) else HeardFrom(xs, a) + [r.src]
               case None => HeardFrom(xs, a)
    ensures LastHeard(xs + [x], a, b)
            == match ArrivalAt(x, a)
               case Some(r) => if r.src == b then Some(r.at) else LastHeard(xs, a, b)
               case None => LastHeard(xs, a, b)
  {
    hide ArrivalAt;
    OneMore(xs, x);
  }

  lemma StandingNext(xs: seq<Action>, x: Action, a: Uid, b: Uid)
    ensures var before, heard := Standing(xs, a, b), LastHeard(xs, a, b);
            Standing(xs + [x], a, b)
            == if x.PruneFires? && x.at == a && heard.Some? && x.now - heard.value >= 15.0 then Stale
               else
                 match ArrivalAt(x, a)
                 case Some(r) =>
                   if r.src != b then before
                   else if r.kind == Ack || r.kind == Confirm then Confirmed
                   else if r.kind == Init then HandshakeAcked
                   else if before == Discovered || before == Stale then HandshakeSent
                   else before
                 case None => before
  {
    hide ArrivalAt, LastHeard;
    OneMore(xs, x);
  }

  lemma NodeNext(xs: seq<Action>, x: Action, a: Uid, quorum: nat)
    ensures NodeOver(xs + [x], a, quorum)
            == match CountsAt(x, a)
               case None => NodeOver(xs, a, quorum)
               case Some(now) =>
                 var present := Present(xs + [x], a, now);
                 if 1 + |present| < quorum then Unformed
                 else if NodeOver(xs, a, quorum).Formed? then NodeOver(xs, a, quorum)
                 else Formed(([a] + present)[..quorum])
  {
    hide CountsAt, Present;
    OneMore(xs, x);
  }

  lemma PruneBringsNothing(x: Action, a: Uid)
    requires x.PruneFires? || x.Lose?
    ensures ArrivalAt(x, a) == None
  {
  }

  /** What one arrival changes in the readings: the sender's alone. */
  ghost predicate HeardNextAt(xs: seq<Action>, x: Action, a: Uid, b: Uid) {
    ArrivalAt(x, a).Some? ==>
      var r := ArrivalAt(x, a).value;
      && HeardFrom(xs + [x], a) == (if r.src in HeardFrom(xs, a) then HeardFrom(xs, a) else HeardFrom(xs, a) + [r.src])
      && LastHeard(xs + [x], a, b) == (if r.src == b then Some(r.at) else LastHeard(xs, a, b))
      && (r.src != b ==> Standing(xs + [x], a, b) == Standing(xs, a, b))
  }

  /** One arrival, in the table. */
  lemma ArrivalKnown(s: ShardState, xs: seq<Action>, x: Action, a: Uid)
    requires KnowsPeers(s, xs, a) && ArrivalAt(x, a).Some?
    ensures var r := ArrivalAt(x, a).value;
            var p := PeerState(Standing(xs + [x], a, r.src), r.at);
            KnowsPeers(SetPeer(s, r.src, p), xs + [x], a)
  {
    hide ArrivalAt, Standing, LastHeard, HeardFrom;
    assert !x.PruneFires? by { if x.PruneFires? { PruneBringsNothing(x, a); } }
    forall b ensures HeardNextAt(xs, x, a, b) {
      HeardNext(xs, x, a, b);
      StandingNext(xs, x, a, b);
    }
    var r := ArrivalAt(x, a).value;
    assert HeardNextAt(xs, x, a, r.src);
    var t := SetPeer(s, r.src, PeerState(Standing(xs + [x], a, r.src), r.at));
    assert forall b :: HeardNextAt(xs, x, a, b);
    forall b ensures b in t.peers <==> LastHeard(xs + [x], a, b).Some? { assert HeardNextAt(xs, x, a, b); }
    forall b | b in t.peers
      ensures t.peers[b] == PeerState(Standing(xs + [x], a, b), LastHeard(xs + [x], a, b).value) {
      assert HeardNextAt(xs, x, a, b);
    }
    forall b | b !in t.peers ensures Standing(xs + [x], a, b) == Discovered { assert HeardNextAt(xs, x, a, b); }
  }

  lemma TableNotDiscovered(s: ShardState, b: Uid)
    requires s.Valid() && b in s.peers
    ensures s.peers[b].adjacency != Discovered
  {
  }

  /** The handler's new entry is the reading. */
  lemma ReceiveKnows(s: ShardState, xs: seq<Action>, x: Action, a: Uid)
    requires IsHistory(s, xs, a) && ArrivalAt(x, a).Some? && s.Valid()
    requires var r := ArrivalAt(x, a).value; r.src != a && (r.kind in {Ack, Confirm} ==> r.src in s.peers)
    ensures var r := ArrivalAt(x, a).value;
            IsHistory(Receive(s, Datagram(r.kind, r.src, a), r.at).0, xs + [x], a)
  {
    hide ArrivalAt, Standing, LastHeard, HeardFrom, NodeOver, Present, EvaluateNodeStatus, ShardState.Valid,
          HeardNextAt;
    var r := ArrivalAt(x, a).value;
    var p := PeerState(Standing(xs + [x], a, r.src), r.at);
    var t := SetPeer(s, r.src, p);
    assert !x.PruneFires? by { if x.PruneFires? { PruneBringsNothing(x, a); } }
    ArrivalKnown(s, xs, x, a);
    StandingNext(xs, x, a, r.src);
    NodeNext(xs, x, a, s.quorum);
    CountedNode(t, xs + [x], a, r.at);
    match r.kind
    case Beacon =>
      if r.src in s.peers && s.peers[r.src].adjacency != Stale { TableNotDiscovered(s, r.src); }
    case Init =>
    case Ack =>
    case Confirm =>
  }

  /** A prune round. */
  lemma PruneKnows(s: ShardState, xs: seq<Action>, a: Uid, now: real)
    requires IsHistory(s, xs, a)
    ensures IsHistory(Prune(s, now), xs + [PruneFires(a, now)], a)
  {
    hide ArrivalAt, Standing, LastHeard, HeardFrom, NodeOver, Present, EvaluateNodeStatus;
    var x := PruneFires(a, now);
    var marked := s.(peers := map u | u in s.peers :: MarkStale(s.peers[u], now));
    PruneBringsNothing(x, a);
    var ys := xs + [x];
    HeardNext(xs, x, a, a);
    forall b ensures LastHeard(ys, a, b) == LastHeard(xs, a, b) {
      HeardNext(xs, x, a, b);
    }
    forall b ensures Standing(ys, a, b)
                     == if LastHeard(xs, a, b).Some? && now - LastHeard(xs, a, b).value >= 15.0 then Stale
                        else Standing(xs, a, b) {
      StandingNext(xs, x, a, b);
    }
    assert KnowsPeers(marked, ys, a);
    NodeNext(xs, x, a, s.quorum);
    CountedNode(marked, xs + [x], a, now);
  }

  lemma NothingKnows(s: ShardState, xs: seq<Action>, x: Action, a: Uid)
    requires IsHistory(s, xs, a) && ArrivalAt(x, a) == None && !(x.PruneFires? && x.at == a)
    ensures IsHistory(s, xs + [x], a)
  {
    hide ArrivalAt, Standing, LastHeard, HeardFrom, NodeOver, Present;
    var ys := xs + [x];
    HeardNext(xs, x, a, a);
    forall b ensures LastHeard(ys, a, b) == LastHeard(xs, a, b) {
      HeardNext(xs, x, a, b);
    }
    forall b ensures Standing(ys, a, b) == Standing(xs, a, b) {
      StandingNext(xs, x, a, b);
    }
    assert KnowsPeers(s, ys, a);
    NodeNext(xs, x, a, s.quorum);
  }

  // ---- a run ----

  lemma SafeShard(w: World, a: Uid)
    requires Safe(w) && a in w.shards
    ensures w.shards[a].Valid() && w.shards[a].uid == a
  {
    assert ShardSafe(w, a, w.shards[a]);
  }

  lemma OwnIgnored(s: ShardState, d: Datagram, now: real)
    requires d.src == s.uid
    ensures Receive(s, d, now) == (s, None)
  {
  }

  lemma AckFromTracked(w: World, d: Datagram)
    requires Safe(w) && d in w.history
    ensures d.dst in w.shards && (d.kind in {Ack, Confirm} ==> d.src in w.shards[d.dst].peers)
  {
    assert Provoked(w, d);
    HistoryTells(w, d);
  }

  lemma InHistory(w: World, d: Datagram)
    requires Safe(w) && d in w.bag
    ensures d in w.history
  {
    hide ShardsSafe, HistorySafe;
  }

  /** Which handler an action calls at a shard, if any. */
  lemma ShardStep(w: World, x: Action, a: Uid)
    requires Safe(w) && Enabled(w, x) && a in w.shards
    ensures a in Next(w, x).shards
    ensures var s, t := w.shards[a], Next(w, x).shards[a];
            match ArrivalAt(x, a)
            case Some(r) =>
              && t == Receive(s, Datagram(r.kind, r.src, a), r.at).0
              && r.src != a && (r.kind in {Ack, Confirm} ==> r.src in s.peers)
            case None => t == if x.PruneFires? && x.at == a then Prune(s, x.now) else s
  {
    hide Receive, Prune, Safe, ShardState.Valid;
    assert w.shards[a].uid == a by { SafeShard(w, a); }
    match x
    case BeaconArrives(src, dst, now) =>
      if src == dst == a { OwnIgnored(w.shards[a], Datagram(Beacon, src, dst), now); }
    case Deliver(d, now) =>
      InHistory(w, d);
      AckFromTracked(w, d);
      if d.src == d.dst == a { OwnIgnored(w.shards[a], d, now); }
    case Replay(d, now) =>
      AckFromTracked(w, d);
      if d.src == d.dst == a { OwnIgnored(w.shards[a], d, now); }
    case Lose(_) =>
    case PruneFires(_, _) =>
  }

  lemma ActionKnows(w: World, xs: seq<Action>, x: Action, a: Uid)
    requires Safe(w) && Enabled(w, x) && a in w.shards && IsHistory(w.shards[a], xs, a)
    ensures a in Next(w, x).shards && IsHistory(Next(w, x).shards[a], xs + [x], a)
  {
    hide Receive, Prune, IsHistory, Next, Enabled, Safe, ArrivalAt;
    ShardStep(w, x, a);
    SafeShard(w, a);
    match ArrivalAt(x, a)
    case Some(r) => ReceiveKnows(w.shards[a], xs, x, a);
    case None =>
      if x.PruneFires? && x.at == a {
        PruneKnows(w.shards[a], xs, a, x.now);
      } else {
        NothingKnows(w.shards[a], xs, x, a);
      }
  }

  lemma FreshIsHistory(a: Uid, quorum: nat)
    ensures IsHistory(Fresh(a, quorum), [], a)
  {
  }

  lemma RunStep(ws: seq<World>, actions: seq<Action>, i: nat)
    requires IsRun(ws, actions) && i < |actions|
    ensures Enabled(ws[i], actions[i]) && ws[i + 1] == Next(ws[i], actions[i])
    ensures actions[..i + 1] == actions[..i] + [actions[i]]
  {
  }

  lemma RunLength(ws: seq<World>, actions: seq<Action>)
    requires IsRun(ws, actions)
    ensures |ws| == |actions| + 1
  {
  }

  lemma InitialShard(w: World, a: Uid)
    requires Initial(w) && a in w.shards
    ensures w.shards[a] == Fresh(a, w.shards[a].quorum)
  {
  }

  /** In any run, with loss, replay and reordering, the whole state of a shard is the reading of what
      arrived at it and when it pruned. */
  lemma {:induction false} ShardIsItsHistory(ws: seq<World>, actions: seq<Action>, i: nat, a: Uid)
    requires IsRun(ws, actions) && i < |ws| && Initial(ws[0]) && a in ws[0].shards
    ensures |ws| == |actions| + 1 && a in ws[i].shards && IsHistory(ws[i].shards[a], actions[..i], a)
  {
    hide *;
    RunLength(ws, actions);
    if i == 0 {
      assert actions[..0] == [];
      InitialShard(ws[0], a);
      FreshIsHistory(a, ws[0].shards[a].quorum);
    } else {
      RunSafe(ws, actions, i - 1);
      ShardIsItsHistory(ws, actions, i - 1, a);
      RunStep(ws, actions, i - 1);
      ActionKnows(ws[i - 1], actions[..i - 1], actions[i - 1], a);
    }
  }

  // ---- what it says ----

  predicate ArrivesFrom(x: Action, a: Uid, b: Uid) {
    ArrivalAt(x, a).Some? && ArrivalAt(x, a).value.src == b
  }

  /** Something from `b` arrived at the shard less than 15 seconds before `now`. */
  ghost predicate HeardWithin(xs: seq<Action>, a: Uid, b: Uid, now: real) {
    exists k :: 0 <= k < |xs| && ArrivesFrom(xs[k], a, b) && now - ArrivalAt(xs[k], a).value.at < 15.0
  }

  /** The clock of shard `a` does not go back while things arrive from `b`. */
  ghost predicate ClockRuns(xs: seq<Action>, a: Uid, b: Uid) {
    forall j, k | 0 <= j < k < |xs| && ArrivesFrom(xs[j], a, b) && ArrivesFrom(xs[k], a, b) ::
      ArrivalAt(xs[j], a).value.at <= ArrivalAt(xs[k], a).value.at
  }

  lemma {:induction false} LastHeardIs(xs: seq<Action>, a: Uid, b: Uid)
    ensures LastHeard(xs, a, b).Some? <==> exists k :: 0 <= k < |xs| && ArrivesFrom(xs[k], a, b)
    ensures LastHeard(xs, a, b).Some? ==>
              exists k :: && 0 <= k < |xs| && ArrivesFrom(xs[k], a, b)
                          && ArrivalAt(xs[k], a).value.at == LastHeard(xs, a, b).value
                          && forall j | k < j < |xs| :: !ArrivesFrom(xs[j], a, b)
  {
    hide ArrivalAt;
    if xs != [] {
      var n := |xs| - 1;
      LastHeardIs(xs[..n], a, b);
      assert forall k | 0 <= k < n :: xs[..n][k] == xs[k];
    }
  }

  /** A shard tracks exactly the peers it heard from, and `lastSeen` is when it last did. */
  lemma TracksWhomItHeard(ws: seq<World>, actions: seq<Action>, i: nat, a: Uid, b: Uid)
    requires IsRun(ws, actions) && Initial(ws[0]) && i < |ws| && a in ws[0].shards
    ensures Tracks(ws[i], a, b) <==> exists k :: 0 <= k < i && ArrivesFrom(actions[k], a, b)
    ensures Tracks(ws[i], a, b) ==>
              exists k :: && 0 <= k < i && ArrivesFrom(actions[k], a, b)
                          && ws[i].shards[a].peers[b].lastSeen == ArrivalAt(actions[k], a).value.at
                          && forall j | k < j < i :: !ArrivesFrom(actions[j], a, b)
  {
    hide ArrivalAt, ArrivesFrom, Standing, LastHeard, HeardFrom, NodeOver;
    ShardIsItsHistory(ws, actions, i, a);
    LastHeardIs(actions[..i], a, b);
    assert forall k | 0 <= k < i :: actions[..i][k] == actions[k];
  }

  /** So a prune round marks a peer STALE exactly when nothing from it arrived in the last 15 seconds. */
  lemma PruneMarksTheSilent(ws: seq<World>, actions: seq<Action>, i: nat, a: Uid, b: Uid, now: real)
    requires IsRun(ws, actions) && Initial(ws[0]) && i < |actions| && a in ws[0].shards
    requires actions[i] == PruneFires(a, now) && Tracks(ws[i], a, b) && ClockRuns(actions[..i], a, b)
    ensures Tracks(ws[i + 1], a, b)
    ensures ws[i].shards[a].peers[b].adjacency != Stale ==>
              (ws[i + 1].shards[a].peers[b].adjacency == Stale <==> !HeardWithin(actions[..i], a, b, now))
    ensures ws[i + 1].shards[a].peers[b].adjacency != Stale ==>
              ws[i + 1].shards[a].peers[b] == ws[i].shards[a].peers[b]
  {
    hide ArrivalAt, Standing, LastHeard, HeardFrom, NodeOver, Next, Enabled;
    var xs := actions[..i];
    ShardIsItsHistory(ws, actions, i, a);
    ShardIsItsHistory(ws, actions, i + 1, a);
    assert actions[..i + 1] == xs + [actions[i]];
    PruneBringsNothing(actions[i], a);
    HeardNext(xs, actions[i], a, b);
    StandingNext(xs, actions[i], a, b);
    LastHeardIs(xs, a, b);
    var k :| 0 <= k < |xs| && ArrivesFrom(xs[k], a, b) && ArrivalAt(xs[k], a).value.at == LastHeard(xs, a, b).value
             && forall j | k < j < |xs| :: !ArrivesFrom(xs[j], a, b);
    assert forall j | 0 <= j < |xs| && ArrivesFrom(xs[j], a, b) ::
        ArrivalAt(xs[j], a).value.at <= LastHeard(xs, a, b).value;
  }

  lemma EvaluationKeepsQuorum(s: ShardState, now: real)
    ensures EvaluateNodeStatus(s, now).quorum == s.quorum
  {
    hide AdjacentPeers;
  }

  lemma HandlersKeepQuorum(s: ShardState, d: Datagram, now: real)
    ensures Receive(s, d, now).0.quorum == s.quorum && Prune(s, now).quorum == s.quorum
  {
    hide EvaluateNodeStatus;
    EvaluationKeepsQuorum(SetPeer(s, d.src, PeerState(Confirmed, now)), now);
    EvaluationKeepsQuorum(s.(peers := map u | u in s.peers :: MarkStale(s.peers[u], now)), now);
  }

  lemma QuorumKept(w: World, x: Action, a: Uid)
    requires Safe(w) && Enabled(w, x) && a in w.shards
    ensures a in Next(w, x).shards && Next(w, x).shards[a].quorum == w.shards[a].quorum
  {
    hide Next, Receive, Prune, Safe, Enabled, ArrivalAt;
    ShardStep(w, x, a);
    match ArrivalAt(x, a)
    case Some(r) => HandlersKeepQuorum(w.shards[a], Datagram(r.kind, r.src, a), r.at);
    case None => if x.PruneFires? { HandlersKeepQuorum(w.shards[a], Datagram(Beacon, a, a), x.now); }
  }

  /** A node is formed right after a prune round or the end of a handshake exactly when the shard and
      those present make a quorum, and nothing else changes it. */
  lemma NodeFollowsPresence(ws: seq<World>, actions: seq<Action>, i: nat, a: Uid)
    requires IsRun(ws, actions) && Initial(ws[0]) && i < |actions| && a in ws[0].shards
    ensures a in ws[i].shards && a in ws[i + 1].shards
    ensures var before, after := ws[i].shards[a].status, ws[i + 1].shards[a].status;
            var quorum := ws[i + 1].shards[a].quorum;
            match CountsAt(actions[i], a)
            case None => after == before
            case Some(now) =>
              && (after.Formed? <==> 1 + |Present(actions[..i + 1], a, now)| >= quorum)
              && (after.Formed? ==>
                    after == if before.Formed? then before
                             else Formed(([a] + Present(actions[..i + 1], a, now))[..quorum]))
  {
    hide ArrivalAt, CountsAt, Present, KnowsPeers, Next, Enabled;
    ShardIsItsHistory(ws, actions, i, a);
    ShardIsItsHistory(ws, actions, i + 1, a);
    RunSafe(ws, actions, i);
    assert Enabled(ws[i], actions[i]) && ws[i + 1] == Next(ws[i], actions[i]);
    QuorumKept(ws[i], actions[i], a);
    assert actions[..i + 1] == actions[..i] + [actions[i]];
    NodeNext(actions[..i], actions[i], a, ws[i].shards[a].quorum);
  }
}
