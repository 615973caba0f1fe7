/** The registry object: hosts by id in registration order, the pipeline loop, and the
    reputation updates the proof engine pushes (maestro/shard_registry.py). */
module ShardRegistry {
  import opened Sequences
  import opened Pipeline
  import opened RouteChoice

  /** Host status after a reputation update: the same cut-offs as the proof engine, but a host
      that is busy or offline is left alone once its score is good. */
  function StatusAfter(status: HostStatus, score: real): HostStatus {
    if score < 0.3 then Evicted
    else if score < 0.7 then Probation
    else if status == Probation || status == Evicted then Available
    else status
  }

  function Rescored(h: WeightHost, score: real): WeightHost {
    h.(reputation := score, status := StatusAfter(h.status, score))
  }

  /** A host takes the score, and the status it asks for: evicted, on probation, or back from either; a busy
      or offline host with a good score stays as it is. */
  lemma RescoredMeans(h: WeightHost, score: real)
    ensures var t := Rescored(h, score);
            && t == h.(reputation := score, status := t.status)
            && (score < 0.3 ==> t.status == Evicted)
            && (0.3 <= score < 0.7 ==> t.status == Probation)
            && (score >= 0.7 ==>
                  t.status == if h.status == Probation || h.status == Evicted then Available else h.status)
  {
  }

  /** Sorting and appending keep the meaning of `Greedy` on the unsorted candidates. */
  lemma SortedRoute(hosts: seq<WeightHost>, model: string, domains: seq<string>)
    ensures var all := AllCandidates(hosts, model, domains);
            var route := Greedy(SortCandidates(all), 0);
            && (Right(SortCandidates(all), route) <==> WellStarted(all, 0))
            && (WellStarted(all, 0) ==>
                  (StopsAtFirstGap(all, 0, route.reached) && FewestHops(all, 0, route)
                   && Contiguous(route.hops, 0, route.reached)))
            && forall c | c in route.hops :: c in all && c.host in hosts && c.host.Routable()
  {
    hide Greedy, AllCandidates;
    var all := AllCandidates(hosts, model, domains);
    var s := SortCandidates(all);
    assert forall l :: Covered(s, l) <==> Covered(all, l);
    GreedyIsRightIffWellStarted(s);
    if WellStarted(all, 0) { GreedyStops(s, 0); }
    GreedyHopsAreCandidates(s, 0);
    AllCandidatesCover(hosts, model, domains, 0);
  }

  lemma GreedyUnfolds(s: seq<Candidate>, layer: int)
    ensures s == [] ==> Starters(s, layer) == []
    ensures Starters(s, layer) == [] ==> Greedy(s, layer).hops == []
    ensures Starters(s, layer) != [] ==>
              var best := Best(Starters(s, layer));
              Greedy(s, layer).hops == [best] + Greedy(Reaching(s, best.end + 1), best.end + 1).hops
  {
    hide Reaching, Best;
  }

  lemma HostsFirst(c: Candidate, hops: seq<Candidate>)
    ensures Pipeline.Hosts([c] + hops) == [c.host] + Pipeline.Hosts(hops)
  {
  }

  lemma NoHosts()
    ensures Pipeline.Hosts([]) == []
  {
  }

  class WeightHostRegistry {
    var order: seq<string>
    var nodes: map<string, WeightHost>

    ghost predicate Valid()
      reads this
    {
      && (forall i, j | 0 <= i < j < |order| :: order[i] != order[j])
      && (forall id :: id in order <==> id in nodes)
    }

    /** `list_nodes`: the hosts in registration order. */
    function Hosts(): seq<WeightHost>
      requires Valid()
      reads this
    {
      assert forall i | 0 <= i < |order| :: order[i] in order;
      seq(|order|, i requires 0 <= i < |order| && order[i] in nodes reads this => nodes[order[i]])
    }

    constructor ()
      ensures Valid() && Hosts() == []
    {
      order := [];
      nodes := map[];
    }

    /** A new id goes last; a known one is replaced in its place. */
    method Register(h: WeightHost)
      requires Valid()
      modifies this
      ensures Valid() && nodes == old(nodes)[h.nodeId := h]
      ensures order == if h.nodeId in old(nodes) then old(order) else old(order) + [h.nodeId]
    {
      if h.nodeId !in nodes {
        order := order + [h.nodeId];
      }
      nodes := nodes[h.nodeId := h];
    }

    method UpdateReputation(id: string, score: real)
      requires Valid()
      modifies this
      ensures Valid() && order == old(order)
      ensures nodes == if id in old(nodes) then old(nodes)[id := Rescored(old(nodes)[id], score)] else old(nodes)
    {
      if id in nodes {
        var node := nodes[id];
        node := node.(reputation := score);
        if score < 0.3 {
          node := node.(status := Evicted);
        } else if score < 0.7 {
          node := node.(status := Probation);
        } else if node.status == Probation || node.status == Evicted {
          node := node.(status := Available);
        }
        nodes := nodes[id := node];
      }
    }

    /** The two collecting loops. */
    method Gather(model: string, domains: seq<string>) returns (found: seq<Candidate>)
      requires Valid()
      ensures found == AllCandidates(Hosts(), model, domains)
    {
      hide LocalityScore;
      found := [];
      var hosts := Hosts();
      for i := 0 to |hosts|
        invariant found == AllCandidates(hosts[..i], model, domains)
      {
        assert hosts[..i + 1][..i] == hosts[..i];
        var h := hosts[i];
        if h.status == Offline || h.status == Evicted {
          continue;
        }
        ghost var before := found;
        for j := 0 to |h.shards|
          invariant found == before + HostCandidates(h, h.shards[..j], model, domains)
        {
          assert h.shards[..j + 1][..j] == h.shards[..j];
          var s := h.shards[j];
          if s.modelId == model && |s.layerRange| >= 2 {
            found := found + [Candidate(h, s.layerRange[0], s.layerRange[1], LocalityScore(h, domains))];
          }
        }
        assert h.shards[..|h.shards|] == h.shards;
      }
      assert hosts[..|hosts|] == hosts;
    }

    /** The greedy loop over the shrinking worklist. */
    method Assemble(candidates: seq<Candidate>) returns (pipeline: seq<WeightHost>)
      ensures pipeline == Pipeline.Hosts(Greedy(candidates, 0).hops)
    {
      hide LocalityScore, Reaching, Starters, Best, Without, Greedy, Pipeline.Hosts;
      pipeline := [];
      var shardNodes, currentLayer := candidates, 0;
      while shardNodes != []
        invariant pipeline + Pipeline.Hosts(Greedy(shardNodes, currentLayer).hops)
                  == Pipeline.Hosts(Greedy(candidates, 0).hops)
        decreases |shardNodes|
      {
        var starters := Starters(shardNodes, currentLayer);
        GreedyUnfolds(shardNodes, currentLayer);
        if starters == [] {
          break;
        }
        var best := Best(starters);
        HostsFirst(best, Greedy(Reaching(shardNodes, best.end + 1), best.end + 1).hops);
        pipeline := pipeline + [best.host];
        currentLayer := best.end + 1;
        var at := IndexOf(shardNodes, best);
        ReachingWithout(shardNodes, at, currentLayer);
        shardNodes := Without(shardNodes, at);
        shardNodes := Reaching(shardNodes, currentLayer);
      }
      GreedyUnfolds(shardNodes, currentLayer);
      NoHosts();
    }

    method BuildInferencePipeline(model: string, domains: seq<string>) returns (pipeline: seq<WeightHost>)
      requires Valid()
      ensures pipeline
              == Pipeline.Hosts(Greedy(SortCandidates(AllCandidates(Hosts(), model, domains)), 0).hops)
      ensures TakenFrom(Hosts(), model, domains, 0, true, pipeline)
    {
      hide Greedy, SortCandidates, AllCandidates, TakenFrom;
      RouteIsTaken(Hosts(), model, domains);
      var shardNodes := Gather(model, domains);
      if shardNodes == [] {
        NoStarter(SortCandidates(shardNodes), 0);
        return [];
      }
      shardNodes := SortCandidates(shardNodes);
      pipeline := Assemble(shardNodes);
    }
  }
}
