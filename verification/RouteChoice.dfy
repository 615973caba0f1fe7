/** Which hosts the inference pipeline returns (maestro/shard_registry.py:81-108, 234-312), in the words of
    the routing preference: told of the registered hosts, without scores or sort keys. */
module RouteChoice {
  import opened Sequences
  import opened Pipeline

  // ---- the preference ----

  predicate Shares(h: WeightHost, domains: seq<string>) {
    exists d :: d in domains && d in h.domainAffinity
  }

  /** Warm before cold, then a shared domain, then reputation, then latency. */
  predicate Preferable(g: WeightHost, h: WeightHost, domains: seq<string>) {
    if g.warm != h.warm then g.warm
    else if Shares(g, domains) != Shares(h, domains) then Shares(g, domains)
    else if g.reputation != h.reputation then g.reputation > h.reputation
    else g.latency < h.latency
  }

  predicate AsGood(g: WeightHost, h: WeightHost, domains: seq<string>) {
    && g.warm == h.warm && Shares(g, domains) == Shares(h, domains)
    && g.reputation == h.reputation && g.latency == h.latency
  }

  /** A host that takes requests and holds the layers of the model from `start` to `end` in one shard. */
  predicate Offers(h: WeightHost, model: string, start: int, end: int) {
    && h.status != Offline && h.status != Evicted
    && exists s :: s in h.shards && s.modelId == model && |s.layerRange| >= 2
                   && s.layerRange[0] == start && s.layerRange[1] == end
  }

  /** Of all hosts that start by `layer`, the one at position `i` is taken, with a shard from `start` to
      `end`: none reaches further; of those that reach as far none is preferable; of those as good none starts
      earlier; and of those that start there too it was registered first. */
  ghost predicate Taken(hosts: seq<WeightHost>, model: string, domains: seq<string>, layer: int, i: nat, start: int,
        end: int)
  {
    && i < |hosts| && Offers(hosts[i], model, start, end) && start <= layer
    && forall j, from, to | 0 <= j < |hosts| && Offers(hosts[j], model, from, to) && from <= layer ::
         && to <= end
         && (to == end ==> !Preferable(hosts[j], hosts[i], domains))
         && (to == end && AsGood(hosts[j], hosts[i], domains) ==> start <= from && (start == from ==> i <= j))
  }

  /** Hop by hop from `layer` on: each hop is taken for the layer after the one before it and ends past
      it; after the last one nobody is left that could be taken. Only the first hop may end short of its
      layer: nothing was struck off the list before it. */
  ghost predicate TakenFrom(hosts: seq<WeightHost>, model: string, domains: seq<string>, layer: int, first: bool,
        pipeline: seq<WeightHost>)
    decreases |pipeline|
  {
    if pipeline == [] then
      forall h, from, to | h in hosts && Offers(h, model, from, to) :: layer < from || (!first && to < layer)
    else
      exists i: nat, start: int, end: int ::
        && Taken(hosts, model, domains, layer, i, start, end) && pipeline[0] == hosts[i] && (first || layer <= end)
        && TakenFrom(hosts, model, domains, end + 1, false, pipeline[1..])
  }

  // ---- the first of its kind ----

  predicate SameKind(a: Candidate, b: Candidate, domains: seq<string>) {
    a.start == b.start && a.end == b.end && AsGood(a.host, b.host, domains)
  }

  function Kind(c: Candidate, domains: seq<string>): Candidate -> bool {
    x => SameKind(x, c, domains)
  }

  /** `c` is the first of the list that nothing tells from it. */
  predicate FirstOfKind(s: seq<Candidate>, c: Candidate, domains: seq<string>) {
    var same := Filter(s, Kind(c, domains));
    same != [] && same[0] == c
  }

  predicate Scored(s: seq<Candidate>, domains: seq<string>) {
    forall c | c in s :: c.locality == LocalityScore(c.host, domains)
  }

  /** The score orders hosts by the preference. */
  lemma ScoreOrders(g: WeightHost, h: WeightHost, domains: seq<string>)
    ensures LocalityScore(g, domains) > LocalityScore(h, domains)
            <==> (g.warm && !h.warm) || (g.warm == h.warm && Shares(g, domains) && !Shares(h, domains))
    ensures LocalityScore(g, domains) == LocalityScore(h, domains)
            <==> g.warm == h.warm && Shares(g, domains) == Shares(h, domains)
  {
  }

  /** The four values it is documented to have. */
  lemma ScoreIs(h: WeightHost, domains: seq<string>)
    ensures LocalityScore(h, domains) == 1.0 <==> h.warm && Shares(h, domains)
    ensures LocalityScore(h, domains) == 0.75 <==> h.warm && !Shares(h, domains)
    ensures LocalityScore(h, domains) == 0.5 <==> !h.warm && Shares(h, domains)
    ensures LocalityScore(h, domains) == 0.25 <==> !h.warm && !Shares(h, domains)
  {
  }

  lemma WorseMeans(a: Candidate, b: Candidate, domains: seq<string>)
    requires a.locality == LocalityScore(a.host, domains) && b.locality == LocalityScore(b.host, domains)
    ensures Worse(a, b) <==> a.end < b.end || (a.end == b.end && Preferable(b.host, a.host, domains))
    ensures !Worse(a, b) && !Worse(b, a) <==> a.end == b.end && AsGood(a.host, b.host, domains)
  {
    hide LocalityScore, Shares;
    ScoreOrders(a.host, b.host, domains);
    ScoreOrders(b.host, a.host, domains);
  }

  lemma {:induction false} FilterTwice(s: seq<Candidate>, p: Candidate -> bool, q: Candidate -> bool)
    requires forall c | q(c) :: p(c)
    ensures Filter(Filter(s, p), q) == Filter(s, q)
  {
    if s != [] {
      var n := |s| - 1;
      FilterTwice(s[..n], p, q);
      var front := Filter(s[..n], p);
      if p(s[n]) {
        assert (front + [s[n]])[..|front|] == front;
      }
    }
  }

  /** Where the best candidate stands: all before it are worse. */
  lemma {:induction false} BestAt(s: seq<Candidate>) returns (i: nat)
    requires s != []
    ensures i < |s| && s[i] == Best(s)
    ensures forall j | 0 <= j < i :: Worse(s[j], s[i])
  {
    if |s| == 1 {
      i := 0;
    } else {
      var n := |s| - 1;
      var b := Best(s[..n]);
      i := BestAt(s[..n]);
      if Worse(b, s[n]) {
        forall j | 0 <= j < n ensures Worse(s[j], s[n]) {
          assert s[j] in s[..n] && !Worse(b, s[j]);
        }
        i := n;
      }
    }
  }

  lemma {:induction false} NoneOfThem(s: seq<Candidate>, p: Candidate -> bool)
    requires forall j | 0 <= j < |s| :: !p(s[j])
    ensures Filter(s, p) == []
  {
    if s != [] {
      NoneOfThem(s[..|s| - 1], p);
    }
  }

  lemma {:induction false} FirstInFilter(s: seq<Candidate>, i: nat, p: Candidate -> bool)
    requires i < |s| && p(s[i]) && forall j | 0 <= j < i :: !p(s[j])
    ensures Filter(s, p) != [] && Filter(s, p)[0] == s[i]
  {
    var n := |s| - 1;
    if i < n {
      FirstInFilter(s[..n], i, p);
    } else {
      NoneOfThem(s[..n], p);
    }
  }

  lemma OwnKind(c: Candidate, domains: seq<string>)
    ensures SameKind(c, c, domains)
  {
  }

  lemma KindIsAsGood(a: Candidate, b: Candidate, domains: seq<string>)
    requires SameKind(a, b, domains)
    ensures a.start == b.start && a.end == b.end && AsGood(a.host, b.host, domains)
  {
  }

  lemma BestIsFirst(s: seq<Candidate>, domains: seq<string>)
    requires s != [] && Scored(s, domains)
    ensures FirstOfKind(s, Best(s), domains)
  {
    hide Best, Worse, LocalityScore, Filter, AsGood;
    var i := BestAt(s);
    forall j | 0 <= j < i ensures !SameKind(s[j], s[i], domains) {
      WorseMeans(s[j], s[i], domains);
      if SameKind(s[j], s[i], domains) { KindIsAsGood(s[j], s[i], domains); }
    }
    assert SameKind(s[i], s[i], domains) by { OwnKind(s[i], domains); }
    FirstInFilter(s, i, Kind(s[i], domains));
  }

  // ---- sorting keeps who is first ----

  lemma {:induction false} FilterKeepsSorted(s: seq<Candidate>, p: Candidate -> bool)
    requires Sorted(s)
    ensures Sorted(Filter(s, p))
  {
    hide Precedes;
    if s != [] {
      var n := |s| - 1;
      FilterKeepsSorted(s[..n], p);
      forall c | c in Filter(s[..n], p) ensures !Precedes(s[n], c) {
        assert c in s[..n];
      }
    }
  }

  lemma FilterSnoc(s: seq<Candidate>, x: Candidate, p: Candidate -> bool)
    ensures Filter(s + [x], p) == Filter(s, p) + if p(x) then [x] else []
  {
    assert (s + [x])[..|s|] == s;
  }

  lemma {:induction false} InsertedIn(s: seq<Candidate>, x: Candidate, p: Candidate -> bool)
    requires p(x) ==> forall c | p(c) :: !Precedes(x, c)
    ensures Filter(InsertAfterEquals(s, x), p) == Filter(s, p) + if p(x) then [x] else []
  {
    hide Precedes, Filter;
    if s == [] {
      FilterSnoc([], x, p);
      assert [] + [x] == [x];
    } else {
      var n := |s| - 1;
      assert s == s[..n] + [s[n]];
      if Precedes(x, s[n]) {
        InsertedIn(s[..n], x, p);
        FilterSnoc(InsertAfterEquals(s[..n], x), s[n], p);
        FilterSnoc(s[..n], s[n], p);
      } else {
        FilterSnoc(s, x, p);
      }
    }
  }

  lemma SameKindNotBefore(x: Candidate, c: Candidate, k: Candidate, domains: seq<string>)
    requires SameKind(x, k, domains) && SameKind(c, k, domains)
    requires x.locality == LocalityScore(x.host, domains) && c.locality == LocalityScore(c.host, domains)
    ensures !Precedes(x, c)
  {
    hide LocalityScore, Shares;
    ScoreOrders(x.host, c.host, domains);
  }

  /** The kind of `c`, among candidates scored for these domains. */
  function ScoredKind(c: Candidate, domains: seq<string>): Candidate -> bool {
    x => SameKind(x, c, domains) && x.locality == LocalityScore(x.host, domains)
  }

  lemma {:induction false} SortKeepsKinds(s: seq<Candidate>, c: Candidate, domains: seq<string>)
    ensures Filter(SortCandidates(s), ScoredKind(c, domains)) == Filter(s, ScoredKind(c, domains))
  {
    hide LocalityScore, SameKind, Precedes, InsertAfterEquals;
    if s != [] {
      var n := |s| - 1;
      var p := ScoredKind(c, domains);
      SortKeepsKinds(s[..n], c, domains);
      if p(s[n]) {
        forall x | p(x) ensures !Precedes(s[n], x) { SameKindNotBefore(s[n], x, c, domains); }
      }
      InsertedIn(SortCandidates(s[..n]), s[n], p);
    }
  }

  lemma {:induction false} FilterSame(s: seq<Candidate>, p: Candidate -> bool, q: Candidate -> bool)
    requires forall c | c in s :: p(c) == q(c)
    ensures Filter(s, p) == Filter(s, q)
  {
    if s != [] {
      assert s[|s| - 1] in s;
      FilterSame(s[..|s| - 1], p, q);
    }
  }

  lemma SortKeepsFirst(s: seq<Candidate>, c: Candidate, domains: seq<string>)
    requires Scored(s, domains) && FirstOfKind(SortCandidates(s), c, domains)
    ensures FirstOfKind(s, c, domains)
  {
    hide Filter, SameKind, LocalityScore;
    var p, q := Kind(c, domains), ScoredKind(c, domains);
    FilterSame(s, p, q);
    FilterSame(SortCandidates(s), p, q);
    SortKeepsKinds(s, c, domains);
  }

  // ---- who is first in the list was registered first ----

  lemma {:induction false} HostOffers(h: WeightHost, shards: seq<Shard>, model: string, domains: seq<string>,
        c: Candidate)
    ensures c in HostCandidates(h, shards, model, domains)
            <==> && c.host == h && c.locality == LocalityScore(h, domains)
                 && exists s :: s in shards && s.modelId == model && |s.layerRange| >= 2
                                && s.layerRange[0] == c.start && s.layerRange[1] == c.end
  {
    hide LocalityScore;
    if shards != [] {
      var n := |shards| - 1;
      HostOffers(h, shards[..n], model, domains, c);
      assert shards == shards[..n] + [shards[n]];
    }
  }

  lemma {:induction false} CandidatesAre(hosts: seq<WeightHost>, model: string, domains: seq<string>, c: Candidate)
    ensures c in AllCandidates(hosts, model, domains)
            <==> && c.host in hosts && Offers(c.host, model, c.start, c.end)
                 && c.locality == LocalityScore(c.host, domains)
  {
    hide LocalityScore, HostCandidates;
    if hosts != [] {
      var n := |hosts| - 1;
      CandidatesAre(hosts[..n], model, domains, c);
      HostOffers(hosts[n], hosts[n].shards, model, domains, c);
      assert hosts == hosts[..n] + [hosts[n]];
    }
  }

  lemma {:induction false} CandidatesOfMore(hosts: seq<WeightHost>, i: nat, model: string, domains: seq<string>)
    returns (more: seq<Candidate>)
    requires i <= |hosts|
    ensures AllCandidates(hosts, model, domains) == AllCandidates(hosts[..i], model, domains) + more
  {
    if i == |hosts| {
      assert hosts[..i] == hosts;
      more := [];
    } else {
      hide HostCandidates;
      var n := |hosts| - 1;
      assert hosts[..n][..i] == hosts[..i];
      var before := CandidatesOfMore(hosts[..n], i, model, domains);
      more := before + if hosts[n].Routable() then HostCandidates(hosts[n], hosts[n].shards, model, domains) else [];
    }
  }

  /** No host of the same kind was registered before. */
  lemma RegisteredFirst(hosts: seq<WeightHost>, model: string, domains: seq<string>, c: Candidate, j: nat)
    requires FirstOfKind(AllCandidates(hosts, model, domains), c, domains) && j < |hosts|
    requires Offers(hosts[j], model, c.start, c.end) && AsGood(hosts[j], c.host, domains)
    ensures c.host in hosts[..j + 1]
  {
    hide LocalityScore, AllCandidates, Offers, AsGood, Filter;
    var front := AllCandidates(hosts[..j + 1], model, domains);
    var d := Candidate(hosts[j], c.start, c.end, LocalityScore(hosts[j], domains));
    assert hosts[j] == hosts[..j + 1][j];
    CandidatesAre(hosts[..j + 1], model, domains, d);
    var more := CandidatesOfMore(hosts, j + 1, model, domains);
    FilterAppend(front, more, Kind(c, domains));
    assert d in Filter(front, Kind(c, domains));
    assert c in Filter(front, Kind(c, domains));
    CandidatesAre(hosts[..j + 1], model, domains, c);
  }

  lemma FirstPosition(hosts: seq<WeightHost>, h: WeightHost) returns (i: nat)
    requires h in hosts
    ensures i < |hosts| && hosts[i] == h && h !in hosts[..i]
  {
    i := IndexOf(hosts, h);
  }

  // ---- one hop ----

  /** The list on which a hop is chosen: the sorted candidates, without those struck off. */
  ghost predicate Listed(hosts: seq<WeightHost>, model: string, domains: seq<string>, layer: int, first: bool,
        s: seq<Candidate>)
  {
    var all := SortCandidates(AllCandidates(hosts, model, domains));
    s == if first then all else Reaching(all, layer)
  }

  lemma FirstOfMore(s: seq<Candidate>, p: Candidate -> bool, c: Candidate, domains: seq<string>)
    requires FirstOfKind(Filter(s, p), c, domains) && forall x | SameKind(x, c, domains) :: p(x)
    ensures FirstOfKind(s, c, domains)
  {
    hide Filter, SameKind;
    FilterTwice(s, p, Kind(c, domains));
  }

  lemma ListedMeans(hosts: seq<WeightHost>, model: string, domains: seq<string>, layer: int, first: bool,
        s: seq<Candidate>)
    requires Listed(hosts, model, domains, layer, first, s)
    ensures forall c :: c in s <==> c in AllCandidates(hosts, model, domains) && (first || layer <= c.end)
    ensures Sorted(s)
  {
    hide AllCandidates, Precedes, SortCandidates, Filter;
    var all := AllCandidates(hosts, model, domains);
    SortSorts(all);
    FilterKeepsSorted(SortCandidates(all), (c: Candidate) => c.end >= layer);
  }

  lemma StartersSorted(s: seq<Candidate>, layer: int)
    requires Sorted(s)
    ensures Sorted(Starters(s, layer))
  {
    hide Precedes, Filter;
    FilterKeepsSorted(s, (c: Candidate) => c.start <= layer);
  }

  /** First among the starters of the list, so first among all candidates. */
  lemma FirstOfAll(hosts: seq<WeightHost>, model: string, domains: seq<string>, layer: int, first: bool,
        s: seq<Candidate>)
    requires Listed(hosts, model, domains, layer, first, s) && Starters(s, layer) != []
    requires Scored(AllCandidates(hosts, model, domains), domains)
    ensures FirstOfKind(AllCandidates(hosts, model, domains), Best(Starters(s, layer)), domains)
  {
    hide AllCandidates, Best, SortCandidates, LocalityScore, Filter, AsGood, FirstOfKind, Sorted;
    var all := AllCandidates(hosts, model, domains);
    var best := Best(Starters(s, layer));
    ListedMeans(hosts, model, domains, layer, first, s);
    BestIsFirst(Starters(s, layer), domains);
    FirstOfMore(s, (c: Candidate) => c.start <= layer, best, domains);
    if !first {
      FirstOfMore(SortCandidates(all), (c: Candidate) => c.end >= layer, best, domains);
    }
    SortKeepsFirst(all, best, domains);
  }

  lemma AllScored(hosts: seq<WeightHost>, model: string, domains: seq<string>)
    ensures Scored(AllCandidates(hosts, model, domains), domains)
  {
    hide LocalityScore, AllCandidates, Offers;
    forall c | c in AllCandidates(hosts, model, domains) ensures c.locality == LocalityScore(c.host, domains) {
      CandidatesAre(hosts, model, domains, c);
    }
  }

  /** The best starter against any other. */
  lemma BestAgainst(s: seq<Candidate>, d: Candidate, domains: seq<string>)
    requires d in s && Scored(s, domains) && Sorted(s)
    ensures var b := Best(s);
            && d.end <= b.end && (d.end == b.end ==> !Preferable(d.host, b.host, domains))
            && (d.end == b.end && AsGood(d.host, b.host, domains) ==> b.start <= d.start)
  {
    hide LocalityScore, Preferable, AsGood, Best;
    var b := Best(s);
    WorseMeans(b, d, domains);
    WorseMeans(d, b, domains);
    var i := BestAt(s);
    var k :| 0 <= k < |s| && s[k] == d;
    if d.end == b.end && AsGood(d.host, b.host, domains) && i < k { assert !Precedes(s[k], s[i]); }
  }

  /** The best starter is the host taken for the layer. */
  lemma HopTaken(hosts: seq<WeightHost>, model: string, domains: seq<string>, layer: int, first: bool,
        s: seq<Candidate>) returns (i: nat)
    requires Listed(hosts, model, domains, layer, first, s) && Starters(s, layer) != []
    ensures var best := Best(Starters(s, layer));
            && Taken(hosts, model, domains, layer, i, best.start, best.end) && hosts[i] == best.host
            && (first || layer <= best.end)
  {
    hide AllCandidates, Best, SortCandidates, LocalityScore, Filter, AsGood, FirstOfKind, Sorted, Offers, Preferable,
          Listed, Starters;
    var starters := Starters(s, layer);
    var best := Best(starters);
    ListedMeans(hosts, model, domains, layer, first, s);
    StartersSorted(s, layer);
    AllScored(hosts, model, domains);
    FirstOfAll(hosts, model, domains, layer, first, s);
    CandidatesAre(hosts, model, domains, best);
    i := FirstPosition(hosts, best.host);
    forall j, from, to | 0 <= j < |hosts| && Offers(hosts[j], model, from, to) && from <= layer
      ensures to <= best.end
      ensures to == best.end ==> !Preferable(hosts[j], hosts[i], domains)
      ensures to == best.end && AsGood(hosts[j], hosts[i], domains) ==>
                best.start <= from && (best.start == from ==> i <= j)
    {
      if first || layer <= to {
        var d := Candidate(hosts[j], from, to, LocalityScore(hosts[j], domains));
        CandidatesAre(hosts, model, domains, d);
        BestAgainst(starters, d, domains);
        if to == best.end && AsGood(hosts[j], hosts[i], domains) && best.start == from {
          RegisteredFirst(hosts, model, domains, best, j);
        }
      }
    }
  }

  lemma ListedNext(hosts: seq<WeightHost>, model: string, domains: seq<string>, layer: int, first: bool,
        s: seq<Candidate>, next: int)
    requires Listed(hosts, model, domains, layer, first, s) && (first || layer <= next)
    ensures Listed(hosts, model, domains, next, false, Reaching(s, next))
  {
    hide AllCandidates, SortCandidates, Filter;
    if !first {
      FilterTwice(SortCandidates(AllCandidates(hosts, model, domains)), (c: Candidate) => c.end >= layer,
                  (c: Candidate) => c.end >= next);
    }
  }

  lemma NobodyLeft(hosts: seq<WeightHost>, model: string, domains: seq<string>, layer: int, first: bool,
        s: seq<Candidate>)
    requires Listed(hosts, model, domains, layer, first, s) && Starters(s, layer) == []
    ensures TakenFrom(hosts, model, domains, layer, first, [])
  {
    hide AllCandidates, SortCandidates, Filter, LocalityScore, Offers, Sorted, Listed;
    ListedMeans(hosts, model, domains, layer, first, s);
    forall h, from, to | h in hosts && Offers(h, model, from, to) ensures layer < from || (!first && to < layer) {
      var d := Candidate(h, from, to, LocalityScore(h, domains));
      CandidatesAre(hosts, model, domains, d);
      assert d in Starters(s, layer) <==> d in s && d.start <= layer;
    }
  }

  lemma {:induction false} GreedyTakes(hosts: seq<WeightHost>, model: string, domains: seq<string>, layer: int,
        first: bool, s: seq<Candidate>)
    requires Listed(hosts, model, domains, layer, first, s)
    ensures TakenFrom(hosts, model, domains, layer, first, Hosts(Greedy(s, layer).hops))
    decreases |s|
  {
    hide Listed, Taken, Starters, Best, Reaching;
    var starters := Starters(s, layer);
    if starters == [] {
      hide TakenFrom;
      NobodyLeft(hosts, model, domains, layer, first, s);
      assert Hosts([]) == [];
    } else {
      var best := Best(starters);
      var next := best.end + 1;
      var i := HopTaken(hosts, model, domains, layer, first, s);
      ListedNext(hosts, model, domains, layer, first, s, next);
      assert best in s;
      GreedyTakes(hosts, model, domains, next, false, Reaching(s, next));
      var pipeline := Hosts(Greedy(s, layer).hops);
      assert pipeline[1..] == Hosts(Greedy(Reaching(s, next), next).hops);
    }
  }

  /** The hosts of the greedy route are those that the preference takes, hop by hop. */
  lemma RouteIsTaken(hosts: seq<WeightHost>, model: string, domains: seq<string>)
    ensures var route := Greedy(SortCandidates(AllCandidates(hosts, model, domains)), 0);
            TakenFrom(hosts, model, domains, 0, true, Hosts(route.hops))
  {
    hide AllCandidates, SortCandidates, Greedy, TakenFrom;
    GreedyTakes(hosts, model, domains, 0, true, SortCandidates(AllCandidates(hosts, model, domains)));
  }
}
