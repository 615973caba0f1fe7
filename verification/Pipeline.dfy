/** The greedy inference pipeline of the weight-host registry (maestro/shard_registry.py):
    candidates gathered from the active hosts, sorted, then covered layer by layer. */
module Pipeline {
  import opened Sequences
  import opened Intervals

  datatype HostStatus = Available | Busy | Offline | Probation | Evicted

  /** `layerRange` is the raw list of the descriptor; fewer than two entries are ignored. */
  datatype Shard = Shard(modelId: string, layerRange: seq<int>)

  datatype WeightHost = WeightHost(
    nodeId: string,
    status: HostStatus,
    shards: seq<Shard>,
    domainAffinity: seq<string>,
    warm: bool,
    reputation: real,
    latency: real)
  {
    predicate Routable() { status != Offline && status != Evicted }
  }

  /** The routing preference: warm before cold, and within each a matching domain first. */
  function LocalityScore(h: WeightHost, queryDomains: seq<string>): real {
    var affinity := exists d :: d in queryDomains && d in h.domainAffinity;
    if h.warm && affinity then 1.0
    else if h.warm then 0.75
    else if affinity then 0.5
    else 0.25
  }

  datatype Candidate = Candidate(host: WeightHost, start: int, end: int, locality: real) {
    predicate Covers(layer: int) { start <= layer <= end }
  }

  // ---- gathering ----

  function HostCandidates(h: WeightHost, shards: seq<Shard>, model: string, domains: seq<string>): seq<Candidate> {
    if shards == [] then [] else
    var rest := HostCandidates(h, shards[..|shards| - 1], model, domains);
    var s := shards[|shards| - 1];
    if s.modelId == model && |s.layerRange| >= 2
    then rest + [Candidate(h, s.layerRange[0], s.layerRange[1], LocalityScore(h, domains))]
    else rest
  }

  function AllCandidates(hosts: seq<WeightHost>, model: string, domains: seq<string>): seq<Candidate> {
    if hosts == [] then [] else
    var rest := AllCandidates(hosts[..|hosts| - 1], model, domains);
    var h := hosts[|hosts| - 1];
    if h.Routable() then rest + HostCandidates(h, h.shards, model, domains) else rest
  }

  predicate Holds(s: Shard, model: string, layer: int) {
    s.modelId == model && |s.layerRange| >= 2 && s.layerRange[0] <= layer <= s.layerRange[1]
  }

  /** Layer `layer` of the model is held by a routable host. */
  ghost predicate Held(hosts: seq<WeightHost>, model: string, layer: int) {
    exists h, s :: h in hosts && h.Routable() && s in h.shards && Holds(s, model, layer)
  }

  lemma {:induction false} HostCandidatesCover(h: WeightHost, shards: seq<Shard>, model: string, domains: seq<string>,
        layer: int)
    ensures (exists c :: c in HostCandidates(h, shards, model, domains) && c.Covers(layer))
            <==> exists s :: s in shards && Holds(s, model, layer)
    ensures forall c | c in HostCandidates(h, shards, model, domains) :: c.host == h
  {
    if shards != [] {
      var n := |shards| - 1;
      var s, init := shards[n], HostCandidates(h, shards[..n], model, domains);
      HostCandidatesCover(h, shards[..n], model, domains, layer);
      assert shards == shards[..n] + [s];
      var all := HostCandidates(h, shards, model, domains);
      if Holds(s, model, layer) {
        assert all[|all| - 1].Covers(layer) && all[|all| - 1] in all;
      }
      assert forall c | c in init :: c in all;
    }
  }

  /** The candidates cover exactly the layers held by routable hosts, and come from such hosts. */
  lemma {:induction false} AllCandidatesCover(hosts: seq<WeightHost>, model: string, domains: seq<string>, layer: int)
    ensures (exists c :: c in AllCandidates(hosts, model, domains) && c.Covers(layer)) <==> Held(hosts, model, layer)
    ensures forall c | c in AllCandidates(hosts, model, domains) :: c.host in hosts && c.host.Routable()
  {
    if hosts != [] {
      var n := |hosts| - 1;
      var h, init := hosts[n], AllCandidates(hosts[..n], model, domains);
      AllCandidatesCover(hosts[..n], model, domains, layer);
      HostCandidatesCover(h, h.shards, model, domains, layer);
      assert hosts == hosts[..n] + [h];
      var all := AllCandidates(hosts, model, domains);
      if h.Routable() {
        assert forall c :: c in all <==> c in init || c in HostCandidates(h, h.shards, model, domains);
      }
      if Held(hosts, model, layer) && !Held(hosts[..n], model, layer) {
        var g, s :| g in hosts && g.Routable() && s in g.shards && Holds(s, model, layer);
        assert g == h;
      }
    }
  }

  // ---- sorting ----

  /** `b` goes strictly before `a`: by start, then higher locality, then higher reputation. */
  predicate Precedes(b: Candidate, a: Candidate) {
    || b.start < a.start
    || (b.start == a.start && b.locality > a.locality)
    || (b.start == a.start && b.locality == a.locality && b.host.reputation > a.host.reputation)
  }

  function InsertAfterEquals(s: seq<Candidate>, x: Candidate): (r: seq<Candidate>)
    ensures multiset(r) == multiset(s) + multiset{x}
  {
    if s == [] then [x] else
    var n := |s| - 1;
    assert s == s[..n] + [s[n]];
    if Precedes(x, s[n]) then InsertAfterEquals(s[..n], x) + [s[n]] else s + [x]
  }

  /** The stable sort of the candidate list. */
  function SortCandidates(s: seq<Candidate>): (r: seq<Candidate>)
    ensures multiset(r) == multiset(s)
    ensures forall c :: c in r <==> c in s
  {
    if s == [] then [] else
    var n := |s| - 1;
    assert s == s[..n] + [s[n]];
    var r := InsertAfterEquals(SortCandidates(s[..n]), s[n]);
    assert forall c :: c in r <==> c in multiset(r);
    r
  }

  ghost predicate Sorted(s: seq<Candidate>) {
    forall i, j | 0 <= i < j < |s| :: !Precedes(s[j], s[i])
  }

  lemma {:induction false} InsertKeepsSorted(s: seq<Candidate>, x: Candidate)
    requires Sorted(s)
    ensures Sorted(InsertAfterEquals(s, x))
  {
    if s != [] {
      var n := |s| - 1;
      if Precedes(x, s[n]) {
        var front := InsertAfterEquals(s[..n], x);
        InsertKeepsSorted(s[..n], x);
        forall c | c in front ensures !Precedes(s[n], c) {
          assert c in multiset(front);
          if c != x { assert c in multiset(s[..n]); }
        }
      } else {
        forall i | 0 <= i < |s| ensures !Precedes(x, s[i]) {
          if i < n { assert !Precedes(s[n], s[i]); }
        }
      }
    }
  }

  lemma {:induction false} SortSorts(s: seq<Candidate>)
    ensures Sorted(SortCandidates(s))
  {
    if s != [] {
      var n := |s| - 1;
      SortSorts(s[..n]);
      InsertKeepsSorted(SortCandidates(s[..n]), s[n]);
    }
  }

  // ---- the greedy choice ----

  /** The key of `max`: reach, then locality, then reputation, then lower latency. */
  predicate Worse(a: Candidate, b: Candidate) {
    || a.end < b.end
    || (a.end == b.end && a.locality < b.locality)
    || (a.end == b.end && a.locality == b.locality && a.host.reputation < b.host.reputation)
    || (a.end == b.end && a.locality == b.locality && a.host.reputation == b.host.reputation
          && -a.host.latency < -b.host.latency)
  }

  /** The first of the best candidates. */
  function Best(s: seq<Candidate>): (b: Candidate)
    requires s != []
    ensures b in s
    ensures forall c | c in s :: !Worse(b, c)
  {
    if |s| == 1 then s[0] else
    var n := |s| - 1;
    assert s == s[..n] + [s[n]];
    var b := Best(s[..n]);
    if Worse(b, s[n]) then s[n] else b
  }

  datatype Route = Route(hops: seq<Candidate>, reached: int)

  function Starters(s: seq<Candidate>, layer: int): (r: seq<Candidate>)
    ensures forall c :: c in r <==> c in s && c.start <= layer
  {
    Filter(s, (c: Candidate) => c.start <= layer)
  }

  function Reaching(s: seq<Candidate>, layer: int): (r: seq<Candidate>)
    ensures forall c :: c in r <==> c in s && c.end >= layer
    ensures (exists c :: c in s && c.end < layer) ==> |r| < |s|
  {
    var p := (c: Candidate) => c.end >= layer;
    assert (exists c :: c in s && c.end < layer) ==> |Filter(s, p)| < |s| by {
      if c :| c in s && c.end < layer { FilterShrinks(s, p, c); }
    }
    Filter(s, p)
  }

  lemma ReachingWithout(s: seq<Candidate>, i: nat, layer: int)
    requires i < |s| && s[i].end < layer
    ensures Reaching(Without(s, i), layer) == Reaching(s, layer)
  {
    FilterWithout(s, i, (c: Candidate) => c.end >= layer);
  }

  /** Cover from `layer` on: take the best candidate that starts early enough, move past its
      end, forget every candidate that ends before that; stop at the first gap. */
  function Greedy(s: seq<Candidate>, layer: int): Route
    decreases |s|
  {
    var starters := Starters(s, layer);
    if starters == [] then Route([], layer) else
    var best := Best(starters);
    var rest := Greedy(Reaching(s, best.end + 1), best.end + 1);
    Route([best] + rest.hops, rest.reached)
  }

  function Hosts(hops: seq<Candidate>): seq<WeightHost> {
    seq(|hops|, i requires 0 <= i < |hops| => hops[i].host)
  }

  // ---- what the greedy pipeline is ----

  ghost predicate Covered(s: seq<Candidate>, layer: int) {
    exists c :: c in s && c.Covers(layer)
  }

  /** `reached` is the least layer from `layer` on that no candidate covers. */
  ghost predicate StopsAtFirstGap(s: seq<Candidate>, layer: int, reached: int) {
    && layer <= reached
    && !Covered(s, reached)
    && forall l | layer <= l < reached :: Covered(s, l)
  }

  /** No selection of candidates, in any order and number, covers the same layers with fewer. */
  ghost predicate FewestHops(s: seq<Candidate>, layer: int, route: Route) {
    forall cover: seq<Candidate> |
      (forall c | c in cover :: c in s) && (forall l | layer <= l < route.reached :: Covered(cover, l)) ::
      |route.hops| <= |cover|
  }

  /** Each hop starts no later than the layer it is needed for and ends past it, and the next
      one takes over right after its end. */
  ghost predicate Contiguous(hops: seq<Candidate>, layer: int, reached: int)
    decreases |hops|
  {
    if hops == [] then reached == layer
    else hops[0].Covers(layer) && Contiguous(hops[1..], hops[0].end + 1, reached)
  }

  /** The first layer is covered, or no candidate starts early enough to be tried. */
  ghost predicate WellStarted(s: seq<Candidate>, layer: int) {
    Covered(s, layer) || forall c | c in s :: c.start > layer
  }

  /** The first step of a greedy run that has a starter; what is left is well started. */
  lemma GreedyStep(s: seq<Candidate>, layer: int) returns (best: Candidate, rest: seq<Candidate>)
    requires exists c :: c in s && c.start <= layer
    ensures best in s && best.start <= layer && forall c | c in s && c.start <= layer :: c.end <= best.end
    ensures |rest| < |s| && forall c :: c in rest <==> c in s && c.end > best.end
    ensures WellStarted(rest, best.end + 1)
    ensures Greedy(s, layer).hops == [best] + Greedy(rest, best.end + 1).hops
    ensures Greedy(s, layer).reached == Greedy(rest, best.end + 1).reached
  {
    hide Starters, Reaching, LocalityScore, Best;
    var c :| c in s && c.start <= layer;
    assert c in Starters(s, layer);
    best := Best(Starters(s, layer));
    rest := Reaching(s, best.end + 1);
    assert forall c | c in s && c.start <= layer :: c in Starters(s, layer) && !Worse(best, c);
    if d :| d in rest && d.start <= best.end + 1 {
      assert d.Covers(best.end + 1);
    }
  }

  lemma NoStarter(s: seq<Candidate>, layer: int)
    requires forall c | c in s :: c.start > layer
    ensures Greedy(s, layer) == Route([], layer) && !Covered(s, layer)
  {
    hide Starters;
    var starters := Starters(s, layer);
    assert starters != [] ==> starters[0] in starters;
  }

  lemma {:induction false} GreedyStops(s: seq<Candidate>, layer: int)
    requires WellStarted(s, layer)
    ensures StopsAtFirstGap(s, layer, Greedy(s, layer).reached)
    ensures Contiguous(Greedy(s, layer).hops, layer, Greedy(s, layer).reached)
    ensures forall c | c in Greedy(s, layer).hops :: c in s
    decreases |s|
  {
    hide Greedy;
    if forall c | c in s :: c.start > layer {
      NoStarter(s, layer);
    } else {
      var best, rest := GreedyStep(s, layer);
      GreedyStops(rest, best.end + 1);
      var route := Greedy(s, layer);
      assert route.hops[1..] == Greedy(rest, best.end + 1).hops;
      forall l | layer <= l < route.reached ensures Covered(s, l) {
        if l <= best.end { assert best.Covers(l); } else { assert Covered(rest, l); }
      }
    }
  }

  /** Greedy stays ahead: whatever covers the same layers has at least as many elements.
      The cover may also hold candidates that already ended. */
  lemma {:induction false} GreedyStaysAhead(s: seq<Candidate>, layer: int, cover: seq<Candidate>)
    requires WellStarted(s, layer)
    requires forall c | c in cover :: c in s || c.end < layer
    requires forall l | layer <= l < Greedy(s, layer).reached :: Covered(cover, l)
    ensures |Greedy(s, layer).hops| <= |cover|
    decreases |s|
  {
    hide Greedy;
    if forall c | c in s :: c.start > layer {
      NoStarter(s, layer);
    } else {
      var best, rest := GreedyStep(s, layer);
      GreedyStops(rest, best.end + 1);
      assert Covered(cover, layer);
      var k :| 0 <= k < |cover| && cover[k].Covers(layer);
      assert cover[k] in cover && cover[k].end <= best.end;
      var others := Without(cover, k);
      forall l | best.end + 1 <= l < Greedy(rest, best.end + 1).reached ensures Covered(others, l) {
        assert Covered(cover, l);
        var m :| 0 <= m < |cover| && cover[m].Covers(l);
        assert cover[m] in others;
      }
      GreedyStaysAhead(rest, best.end + 1, others);
    }
  }

  /** When no candidate covers the first layer but some starts before it, all such candidates
      end before it: the first hop is wasted and the route never gets past the layer. */
  lemma BadStartWastesAHop(s: seq<Candidate>, layer: int)
    requires !WellStarted(s, layer)
    ensures |Greedy(s, layer).hops| >= 1 && Greedy(s, layer).reached <= layer
  {
    hide Greedy;
    var best, rest := GreedyStep(s, layer);
    assert !best.Covers(layer);
    assert !Covered(rest, layer);
    GreedyStops(rest, best.end + 1);
  }

  ghost predicate Right(s: seq<Candidate>, route: Route) {
    StopsAtFirstGap(s, 0, route.reached) && FewestHops(s, 0, route)
  }

  lemma WastedHopIsNotRight(s: seq<Candidate>)
    requires !WellStarted(s, 0)
    ensures !FewestHops(s, 0, Greedy(s, 0))
  {
    hide Greedy;
    BadStartWastesAHop(s, 0);
    var none: seq<Candidate> := [];
    assert FewestHops(s, 0, Greedy(s, 0)) ==> |Greedy(s, 0).hops| <= |none|;
  }

  /** The pipeline stops at the first gap with the fewest possible hops exactly when the list is
      well started; the condition fails only on shards that end before layer 0. */
  lemma GreedyIsRightIffWellStarted(s: seq<Candidate>)
    ensures Right(s, Greedy(s, 0)) <==> WellStarted(s, 0)
    ensures (forall c | c in s :: 0 <= c.start <= c.end) ==> WellStarted(s, 0)
  {
    hide Greedy;
    var route := Greedy(s, 0);
    if WellStarted(s, 0) {
      GreedyStops(s, 0);
      forall cover: seq<Candidate> |
        (forall c | c in cover :: c in s) && (forall l | 0 <= l < route.reached :: Covered(cover, l))
        ensures |route.hops| <= |cover|
      {
        GreedyStaysAhead(s, 0, cover);
      }
    } else {
      WastedHopIsNotRight(s);
    }
    assert forall c | c in s && 0 <= c.start <= c.end && c.start <= 0 :: c.Covers(0);
  }

  /** A shard with the layer range (-1, -1), alone: one hop that covers no layer. */
  lemma UnlayeredShardWastesAHop(h: WeightHost)
    ensures var s := [Candidate(h, -1, -1, 0.25)];
            !FewestHops(s, 0, Greedy(s, 0)) && Greedy(s, 0).hops == s
  {
    var s := [Candidate(h, -1, -1, 0.25)];
    assert s[0] in s && s[0].start <= 0;
    WastedHopIsNotRight(s);
    var best, rest := GreedyStep(s, 0);
    assert rest == [];
    NoStarter(rest, 0);
  }

  lemma {:induction false} GreedyHopsAreCandidates(s: seq<Candidate>, layer: int)
    ensures forall c | c in Greedy(s, layer).hops :: c in s
    decreases |s|
  {
    hide Greedy;
    if exists c :: c in s && c.start <= layer {
      var best, rest := GreedyStep(s, layer);
      GreedyHopsAreCandidates(rest, best.end + 1);
    } else {
      NoStarter(s, layer);
    }
  }

  lemma {:induction false} ContiguousCovers(hops: seq<Candidate>, layer: int, reached: int, l: int)
    requires Contiguous(hops, layer, reached) && layer <= l < reached
    ensures Covered(hops, l)
    decreases |hops|
  {
    if hops[0].end >= l {
      assert hops[0] in hops && hops[0].Covers(l);
    } else {
      ContiguousCovers(hops[1..], hops[0].end + 1, reached, l);
      var c :| c in hops[1..] && c.Covers(l);
      assert c in hops;
    }
  }

  /** The documented promise for a model of `total` layers, that the returned hops cover all of them
      or that nothing is returned, holds exactly when the shards cover all of them or none starts at
      or below layer 0. */
  lemma EmptyOnIncompleteIff(s: seq<Candidate>, total: nat)
    ensures (Greedy(s, 0).hops == [] || forall l | 0 <= l < total :: Covered(Greedy(s, 0).hops, l))
            <==> ((forall c | c in s :: c.start > 0) || forall l | 0 <= l < total :: Covered(s, l))
  {
    hide Greedy;
    var route := Greedy(s, 0);
    GreedyHopsAreCandidates(s, 0);
    assert forall l | Covered(route.hops, l) :: Covered(s, l);
    if forall c | c in s :: c.start > 0 {
      NoStarter(s, 0);
    } else {
      var best, rest := GreedyStep(s, 0);
      if total > 0 && forall l | 0 <= l < total :: Covered(s, l) {
        GreedyStops(s, 0);
        forall l | 0 <= l < total ensures Covered(route.hops, l) { ContiguousCovers(route.hops, 0, route.reached, l); }
      }
    }
  }

  /** Layers 0 to 1 and 5 to 6 of a seven-layer model: the prefix is returned, not nothing. */
  lemma GapReturnsThePrefix(h: WeightHost)
    ensures var s := [Candidate(h, 0, 1, 0.25), Candidate(h, 5, 6, 0.25)];
            Greedy(s, 0).hops == [s[0]] && Greedy(s, 0).reached == 2 && !Covered(s, 4)
  {
    hide Greedy;
    var s := [Candidate(h, 0, 1, 0.25), Candidate(h, 5, 6, 0.25)];
    assert s[0] in s;
    var best, rest := GreedyStep(s, 0);
    NoStarter(rest, 2);
  }
}
