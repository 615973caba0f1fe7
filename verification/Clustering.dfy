/** Semantic quorum (maestro/aggregator.py): the greedy clustering loop as functions over its
    worklist, what it guarantees, and the loop itself proved against the functions. */
module Clustering {
  import opened Sequences

  const SIMILARITY_THRESHOLD := 0.5

  datatype Agent = Agent(name: string)

  datatype Pair = Pair(a: Agent, b: Agent, distance: real)

  datatype Cluster = Cluster(members: seq<Agent>)

  type Distances = map<(Agent, Agent), real>

  /** The two-way lookup built from the pairwise list; a later pair overrides an earlier one. */
  function DistanceMap(pairs: seq<Pair>): Distances {
    if pairs == [] then map[] else
    var p := pairs[|pairs| - 1];
    DistanceMap(pairs[..|pairs| - 1])[(p.a, p.b) := p.distance][(p.b, p.a) := p.distance]
  }

  /** `dist_map.get((a, b), 1.0)`. */
  function Dist(m: Distances, a: Agent, b: Agent): real {
    if (a, b) in m then m[(a, b)] else 1.0
  }

  ghost predicate Symmetric(m: Distances) {
    forall a, b :: Dist(m, a, b) == Dist(m, b, a)
  }

  lemma {:induction false} DistanceMapSymmetric(pairs: seq<Pair>)
    ensures Symmetric(DistanceMap(pairs))
  {
    if pairs != [] {
      var n := |pairs| - 1;
      DistanceMapSymmetric(pairs[..n]);
      var m, p := DistanceMap(pairs[..n]), pairs[n];
      forall a, b ensures Dist(DistanceMap(pairs), a, b) == Dist(DistanceMap(pairs), b, a) {
        assert Dist(m, a, b) == Dist(m, b, a);
      }
    }
  }

  function DistanceSum(m: Distances, x: Agent, cluster: seq<Agent>): real {
    if cluster == [] then 0.0 else
    DistanceSum(m, x, cluster[..|cluster| - 1]) + Dist(m, x, cluster[|cluster| - 1])
  }

  /** The mean distance to the current members is below the threshold. */
  predicate Joins(m: Distances, x: Agent, cluster: seq<Agent>)
    requires cluster != []
  {
    DistanceSum(m, x, cluster) / |cluster| as real < SIMILARITY_THRESHOLD
  }

  /** One pass over a snapshot of the worklist: who joined, and who is left. */
  function Pass(m: Distances, cluster: seq<Agent>, todo: seq<Agent>): (r: (seq<Agent>, seq<Agent>))
    requires cluster != []
    ensures |r.0| + |r.1| == |cluster| + |todo|
    ensures cluster <= r.0
    decreases |todo|
  {
    if todo == [] then (cluster, [])
    else if Joins(m, todo[0], cluster) then Pass(m, cluster + [todo[0]], todo[1..])
    else var r := Pass(m, cluster, todo[1..]); (r.0, [todo[0]] + r.1)
  }

  /** Passes until one lets nobody in. */
  function Saturate(m: Distances, cluster: seq<Agent>, remaining: seq<Agent>): (r: (seq<Agent>, seq<Agent>))
    requires cluster != []
    ensures |r.0| + |r.1| == |cluster| + |remaining|
    ensures cluster <= r.0
    decreases |remaining|
  {
    var r := Pass(m, cluster, remaining);
    if |r.1| == |remaining| then (cluster, remaining) else Saturate(m, r.0, r.1)
  }

  function Clusters(m: Distances, remaining: seq<Agent>): seq<Cluster>
    decreases |remaining|
  {
    if remaining == [] then [] else
    var r := Saturate(m, [remaining[0]], remaining[1..]);
    [Cluster(r.0)] + Clusters(m, r.1)
  }

  function Flatten(cs: seq<Cluster>): seq<Agent> {
    if cs == [] then [] else cs[0].members + Flatten(cs[1..])
  }

  // ---- what a pass and a saturated cluster are ----

  /** Sum of the distances over the unordered pairs of a cluster. */
  function PairSum(m: Distances, c: seq<Agent>): real {
    if c == [] then 0.0 else
    PairSum(m, c[..|c| - 1]) + DistanceSum(m, c[|c| - 1], c[..|c| - 1])
  }

  function PairCount(n: nat): real {
    (n * (n - 1)) as real / 2.0
  }

  /** The mean distance over the pairs of a cluster of two or more is below the threshold. */
  ghost predicate Tight(m: Distances, c: seq<Agent>) {
    |c| >= 2 ==> PairSum(m, c) < SIMILARITY_THRESHOLD * PairCount(|c|)
  }

  lemma MeanBelow(sum: real, n: nat)
    requires n > 0 && sum / n as real < 0.5
    ensures sum < 0.5 * n as real
  {
    var mean := sum / n as real;
    assert mean * n as real == sum;
    assert (0.5 - mean) * n as real > 0.0;
  }

  lemma PairCountNext(n: nat)
    ensures PairCount(n + 1) == PairCount(n) + n as real
  {
    assert (n + 1) * n == n * (n - 1) + 2 * n;
  }

  lemma SinglePairs(m: Distances, c: seq<Agent>)
    requires |c| == 1
    ensures PairSum(m, c) == 0.0 && PairCount(1) == 0.0
  {
    assert c[..0] == [];
  }

  lemma JoiningKeepsTight(m: Distances, c: seq<Agent>, x: Agent)
    requires c != [] && Tight(m, c) && Joins(m, x, c)
    ensures Tight(m, c + [x])
  {
    hide DistanceSum, PairCount;
    var n := |c|;
    assert (c + [x])[..n] == c;
    MeanBelow(DistanceSum(m, x, c), n);
    PairCountNext(n);
    if n == 1 { SinglePairs(m, c); }
  }

  lemma {:induction false} PassTight(m: Distances, cluster: seq<Agent>, todo: seq<Agent>)
    requires cluster != [] && Tight(m, cluster)
    ensures Tight(m, Pass(m, cluster, todo).0)
    decreases |todo|
  {
    if todo != [] {
      if Joins(m, todo[0], cluster) {
        JoiningKeepsTight(m, cluster, todo[0]);
        PassTight(m, cluster + [todo[0]], todo[1..]);
      } else {
        PassTight(m, cluster, todo[1..]);
      }
    }
  }

  lemma AddToBoth(a: multiset<Agent>, b: multiset<Agent>, c: multiset<Agent>, d: multiset<Agent>, x: multiset<Agent>)
    requires a + b == c + d
    ensures a + (x + b) == c + (x + d)
  {
    assert a + (x + b) == x + (a + b) && c + (x + d) == x + (c + d);
  }

  lemma {:induction false} PassKeepsAgents(m: Distances, cluster: seq<Agent>, todo: seq<Agent>)
    requires cluster != []
    ensures var r := Pass(m, cluster, todo); multiset(r.0) + multiset(r.1) == multiset(cluster) + multiset(todo)
    decreases |todo|
  {
    hide Joins;
    if todo != [] {
      var x, rest := todo[0], todo[1..];
      assert todo == [x] + rest && multiset(todo) == multiset{x} + multiset(rest);
      if Joins(m, x, cluster) {
        PassKeepsAgents(m, cluster + [x], rest);
        assert multiset(cluster + [x]) == multiset(cluster) + multiset{x};
      } else {
        PassKeepsAgents(m, cluster, rest);
        var r := Pass(m, cluster, rest);
        assert Pass(m, cluster, todo) == (r.0, [x] + r.1);
        assert multiset([x] + r.1) == multiset{x} + multiset(r.1);
        AddToBoth(multiset(r.0), multiset(r.1), multiset(cluster), multiset(rest), multiset{x});
      }
    }
  }

  /** A pass that lets nobody in found nobody who could join. */
  lemma {:induction false} IdlePass(m: Distances, cluster: seq<Agent>, todo: seq<Agent>)
    requires cluster != [] && |Pass(m, cluster, todo).1| == |todo|
    ensures Pass(m, cluster, todo) == (cluster, todo)
    ensures forall x | x in todo :: !Joins(m, x, cluster)
    decreases |todo|
  {
    hide Joins;
    if todo != [] {
      assert !Joins(m, todo[0], cluster);
      IdlePass(m, cluster, todo[1..]);
      assert todo == [todo[0]] + todo[1..];
    }
  }

  lemma {:induction false} SaturateMeans(m: Distances, cluster: seq<Agent>, remaining: seq<Agent>)
    requires cluster != [] && Tight(m, cluster)
    ensures var r := Saturate(m, cluster, remaining);
            && Tight(m, r.0)
            && multiset(r.0) + multiset(r.1) == multiset(cluster) + multiset(remaining)
            && forall x | x in r.1 :: !Joins(m, x, r.0)
    decreases |remaining|
  {
    hide Joins, Tight, Pass;
    var r := Pass(m, cluster, remaining);
    PassTight(m, cluster, remaining);
    PassKeepsAgents(m, cluster, remaining);
    if |r.1| == |remaining| {
      IdlePass(m, cluster, remaining);
    } else {
      SaturateMeans(m, r.0, r.1);
    }
  }

  /** Nobody in a later cluster could have joined this one. */
  ghost predicate Closed(m: Distances, c: Cluster, later: seq<Cluster>) {
    c.members != [] && forall x | x in Flatten(later) :: !Joins(m, x, c.members)
  }

  ghost predicate AllClosed(m: Distances, cs: seq<Cluster>) {
    forall i | 0 <= i < |cs| :: Closed(m, cs[i], cs[i + 1..])
  }

  lemma OneIsTight(m: Distances, x: Agent)
    ensures Tight(m, [x])
  {
  }

  lemma ClosedFirst(m: Distances, c: seq<Agent>, left: seq<Agent>, rest: seq<Cluster>)
    requires c != [] && multiset(Flatten(rest)) == multiset(left) && forall x | x in left :: !Joins(m, x, c)
    ensures Closed(m, Cluster(c), rest)
  {
    hide Joins;
    forall x | x in Flatten(rest) ensures !Joins(m, x, c) {
      assert x in multiset(Flatten(rest)) && x in left;
    }
  }

  /** The clusters partition the agents, each is tight, and nobody left over when a cluster
      closed could still have joined it. */
  lemma {:induction false} ClustersMean(m: Distances, agents: seq<Agent>)
    ensures var cs := Clusters(m, agents);
            && multiset(Flatten(cs)) == multiset(agents)
            && (forall c | c in cs :: c.members != [] && Tight(m, c.members))
            && AllClosed(m, cs)
            && (agents != [] ==> cs != [])
    decreases |agents|
  {
    hide Joins, Tight, Saturate;
    if agents != [] {
      var r := Saturate(m, [agents[0]], agents[1..]);
      OneIsTight(m, agents[0]);
      SaturateMeans(m, [agents[0]], agents[1..]);
      ClustersMean(m, r.1);
      assert agents == [agents[0]] + agents[1..];
      var cs, rest := Clusters(m, agents), Clusters(m, r.1);
      assert cs == [Cluster(r.0)] + rest && cs[1..] == rest;
      ClosedFirst(m, r.0, r.1, rest);
      forall i | 0 <= i < |cs| ensures Closed(m, cs[i], cs[i + 1..]) {
        if i > 0 { assert cs[i] == rest[i - 1] && cs[i + 1..] == rest[i..]; }
      }
    }
  }

  // ---- the largest cluster ----

  /** `sort(key=len, reverse=True)`: longest first, equal lengths in their old order. */
  function InsertByLength(cs: seq<Cluster>, c: Cluster): (r: seq<Cluster>)
    ensures multiset(r) == multiset(cs) + multiset{c}
    ensures |r| == |cs| + 1
  {
    if cs == [] then [c] else
    var n := |cs| - 1;
    assert cs == cs[..n] + [cs[n]];
    if |cs[n].members| < |c.members| then InsertByLength(cs[..n], c) + [cs[n]] else cs + [c]
  }

  function SortByLength(cs: seq<Cluster>): (r: seq<Cluster>)
    ensures multiset(r) == multiset(cs)
    ensures |r| == |cs|
  {
    if cs == [] then [] else
    var n := |cs| - 1;
    assert cs == cs[..n] + [cs[n]];
    InsertByLength(SortByLength(cs[..n]), cs[n])
  }

  /** Longest first means: nothing is longer than what comes before it. */
  ghost predicate LongestFirst(cs: seq<Cluster>) {
    forall i, j | 0 <= i < j < |cs| :: |cs[i].members| >= |cs[j].members|
  }

  lemma InsertUnfolds(cs: seq<Cluster>, c: Cluster)
    ensures cs == [] ==> InsertByLength(cs, c) == [c]
    ensures cs != [] && |cs[|cs| - 1].members| < |c.members| ==>
              InsertByLength(cs, c) == InsertByLength(cs[..|cs| - 1], c) + [cs[|cs| - 1]]
    ensures cs != [] && |cs[|cs| - 1].members| >= |c.members| ==> InsertByLength(cs, c) == cs + [c]
  {
  }

  lemma AppendShorter(cs: seq<Cluster>, c: Cluster)
    requires LongestFirst(cs) && forall d | d in cs :: |d.members| >= |c.members|
    ensures LongestFirst(cs + [c])
  {
  }

  lemma {:induction false} InsertKeepsOrder(cs: seq<Cluster>, c: Cluster)
    requires LongestFirst(cs)
    ensures LongestFirst(InsertByLength(cs, c))
    ensures InsertByLength(cs, c)[0] == if cs != [] && |cs[0].members| >= |c.members| then cs[0] else c
  {
    hide InsertByLength;
    InsertUnfolds(cs, c);
    if cs != [] {
      var n := |cs| - 1;
      if |cs[n].members| < |c.members| {
        var front := InsertByLength(cs[..n], c);
        InsertKeepsOrder(cs[..n], c);
        forall d | d in front ensures |d.members| >= |cs[n].members| {
          assert d in multiset(front);
          if d != c { assert d in multiset(cs[..n]); }
        }
        AppendShorter(front, cs[n]);
      } else {
        AppendShorter(cs, c);
      }
    }
  }

  /** `c` is the first of the longest of `cs`. */
  ghost predicate FirstLongest(cs: seq<Cluster>, c: Cluster) {
    exists k :: 0 <= k < |cs| && cs[k] == c
      && (forall i | 0 <= i < |cs| :: |cs[i].members| <= |c.members|)
      && (forall i | 0 <= i < k :: |cs[i].members| < |c.members|)
  }

  lemma LongestExtends(cs: seq<Cluster>, c: Cluster)
    requires |cs| > 1 && FirstLongest(cs[..|cs| - 1], c)
    ensures FirstLongest(cs, if |c.members| >= |cs[|cs| - 1].members| then c else cs[|cs| - 1])
  {
    var n := |cs| - 1;
    var front := cs[..n];
    var k :| 0 <= k < n && front[k] == c
      && (forall i | 0 <= i < n :: |front[i].members| <= |c.members|)
      && (forall i | 0 <= i < k :: |front[i].members| < |c.members|);
    assert forall i | 0 <= i < n :: front[i] == cs[i];
    var winner := if |c.members| >= |cs[n].members| then k else n;
    assert 0 <= winner < |cs| && cs[winner] == if |c.members| >= |cs[n].members| then c else cs[n];
  }

  lemma {:induction false} SortedHead(cs: seq<Cluster>)
    ensures LongestFirst(SortByLength(cs))
    ensures cs != [] ==> FirstLongest(cs, SortByLength(cs)[0])
  {
    if cs != [] {
      var n := |cs| - 1;
      var front := SortByLength(cs[..n]);
      SortedHead(cs[..n]);
      InsertKeepsOrder(front, cs[n]);
      if n > 0 { LongestExtends(cs, front[0]); } else { assert cs[0] == SortByLength(cs)[0]; }
    }
  }

  lemma FlattenFirst(b: seq<Cluster>)
    requires b != []
    ensures multiset(Flatten(b)) == multiset(b[0].members) + multiset(Flatten(b[1..]))
  {
  }

  lemma WithoutFirst(b: seq<Cluster>)
    requires b != []
    ensures Without(b, 0) == b[1..]
  {
  }

  lemma WithoutLater(b: seq<Cluster>, k: nat)
    requires 0 < k < |b|
    ensures Without(b, k) != [] && Without(b, k)[0] == b[0] && Without(b, k)[1..] == Without(b[1..], k - 1)
  {
  }

  lemma {:induction false} FlattenTakes(b: seq<Cluster>, k: nat)
    requires k < |b|
    ensures multiset(Flatten(b)) == multiset(b[k].members) + multiset(Flatten(Without(b, k)))
  {
    hide Flatten, Without;
    FlattenFirst(b);
    if k == 0 {
      WithoutFirst(b);
    } else {
      FlattenTakes(b[1..], k - 1);
      WithoutLater(b, k);
      FlattenFirst(Without(b, k));
    }
  }

  lemma {:induction false} FlattenPermuted(a: seq<Cluster>, b: seq<Cluster>)
    requires multiset(a) == multiset(b)
    ensures multiset(Flatten(a)) == multiset(Flatten(b))
    decreases |a|
  {
    hide Flatten, Without, IndexOf;
    if a == [] {
      assert |multiset(b)| == 0 && b == [];
    } else {
      FlattenFirst(a);
      assert a == [a[0]] + a[1..] && a[0] in multiset(a);
      assert a[0] in multiset(b);
      var k := IndexOf(b, a[0]);
      var rest := Without(b, k);
      assert multiset(a[1..]) == multiset(a) - multiset{a[0]};
      assert multiset(rest) == multiset(b) - multiset{a[0]};
      FlattenPermuted(a[1..], rest);
      FlattenTakes(b, k);
    }
  }

  // ---- the loops ----

  /** The set of agents is duplicate-free: they are the keys of the responses. */
  ghost predicate Distinct(s: seq<Agent>) {
    forall i, j | 0 <= i < j < |s| :: s[i] != s[j]
  }

  lemma OnlyOccurrence(s: seq<Agent>, k: nat)
    requires Distinct(s) && k < |s|
    ensures IndexOf(s, s[k]) == k && Distinct(Without(s, k)) && Without(s, k) == s[..k] + s[k + 1..]
  {
    var at := IndexOf(s, s[k]);
    assert s[at] == s[k];
  }

  /** `remaining.remove(agent)` takes out the agent the snapshot loop has reached. */
  lemma RemovesTheReached(kept: seq<Agent>, todo: seq<Agent>)
    requires todo != [] && Distinct(kept + todo)
    ensures todo[0] in kept + todo
    ensures Without(kept + todo, IndexOf(kept + todo, todo[0])) == kept + todo[1..]
    ensures Distinct(kept + todo[1..])
  {
    hide Distinct, IndexOf, Without;
    var left := kept + todo;
    assert left[|kept|] == todo[0] && left[..|kept|] == kept && left[|kept| + 1..] == todo[1..];
    OnlyOccurrence(left, |kept|);
  }

  method BuildDistanceMap(pairs: seq<Pair>) returns (m: Distances)
    ensures m == DistanceMap(pairs)
  {
    m := map[];
    for i := 0 to |pairs|
      invariant m == DistanceMap(pairs[..i])
    {
      assert pairs[..i + 1][..i] == pairs[..i];
      m := m[(pairs[i].a, pairs[i].b) := pairs[i].distance];
      m := m[(pairs[i].b, pairs[i].a) := pairs[i].distance];
    }
    assert pairs[..|pairs|] == pairs;
  }

  method WouldJoin(m: Distances, x: Agent, cluster: seq<Agent>) returns (joins: bool)
    requires cluster != []
    ensures joins == Joins(m, x, cluster)
  {
    var sum := 0.0;
    for i := 0 to |cluster|
      invariant sum == DistanceSum(m, x, cluster[..i])
    {
      assert cluster[..i + 1][..i] == cluster[..i];
      sum := sum + Dist(m, x, cluster[i]);
    }
    assert cluster[..|cluster|] == cluster;
    joins := sum / |cluster| as real < SIMILARITY_THRESHOLD;
  }

  /** The rest of a pass that has already let `kept` go by. */
  ghost function PassFrom(m: Distances, cluster: seq<Agent>, kept: seq<Agent>, todo: seq<Agent>): (seq<Agent>,
        seq<Agent>)
    requires cluster != []
  {
    (Pass(m, cluster, todo).0, kept + Pass(m, cluster, todo).1)
  }

  lemma PassFromStarts(m: Distances, cluster: seq<Agent>, todo: seq<Agent>)
    requires cluster != []
    ensures PassFrom(m, cluster, [], todo) == Pass(m, cluster, todo)
  {
    hide Pass;
    var r := Pass(m, cluster, todo);
    assert [] + r.1 == r.1;
    assert r == (r.0, r.1);
  }

  lemma PassFromEnds(m: Distances, cluster: seq<Agent>, kept: seq<Agent>)
    requires cluster != []
    ensures PassFrom(m, cluster, kept, []) == (cluster, kept)
  {
    assert kept + [] == kept;
  }

  lemma PassFromMoves(m: Distances, cluster: seq<Agent>, kept: seq<Agent>, todo: seq<Agent>)
    requires cluster != [] && todo != []
    ensures Joins(m, todo[0], cluster) ==>
              PassFrom(m, cluster, kept, todo) == PassFrom(m, cluster + [todo[0]], kept, todo[1..])
    ensures !Joins(m, todo[0], cluster) ==>
              PassFrom(m, cluster, kept, todo) == PassFrom(m, cluster, kept + [todo[0]], todo[1..])
  {
    hide Joins;
    var r := Pass(m, cluster, todo[1..]).1;
    assert kept + ([todo[0]] + r) == kept + [todo[0]] + r;
  }

  /** The `for` loop over a snapshot of `remaining`. */
  method OnePass(m: Distances, cluster: seq<Agent>, remaining: seq<Agent>)
    returns (grown: seq<Agent>, left: seq<Agent>, changed: bool)
    requires cluster != [] && Distinct(remaining)
    ensures (grown, left) == Pass(m, cluster, remaining)
    ensures changed <==> |left| < |remaining|
    ensures Distinct(left)
  {
    hide Joins, IndexOf, Without, Pass, Distinct, PassFrom;
    PassFromStarts(m, cluster, remaining);
    grown, left, changed := cluster, remaining, false;
    ghost var kept: seq<Agent> := [];
    ghost var todo := remaining;
    for i := 0 to |remaining|
      invariant todo == remaining[i..] && left == kept + todo
      invariant grown != [] && Distinct(left)
      invariant |kept| <= i && (changed <==> |kept| < i)
      invariant PassFrom(m, grown, kept, todo) == Pass(m, cluster, remaining)
    {
      var agent := remaining[i];
      PassFromMoves(m, grown, kept, todo);
      var joins := WouldJoin(m, agent, grown);
      if joins {
        grown := grown + [agent];
        RemovesTheReached(kept, todo);
        left := Without(left, IndexOf(left, agent));
        changed := true;
      } else {
        assert left == kept + [agent] + todo[1..];
        kept := kept + [agent];
      }
      todo := todo[1..];
    }
    assert todo == [] && left == kept;
    PassFromEnds(m, grown, kept);
  }

  /** The `while changed` loop. */
  method Grow(m: Distances, first: seq<Agent>, rest: seq<Agent>) returns (cluster: seq<Agent>, remaining: seq<Agent>)
    requires first != [] && Distinct(rest)
    ensures (cluster, remaining) == Saturate(m, first, rest)
    ensures Distinct(remaining)
  {
    hide Joins, Pass;
    cluster, remaining := first, rest;
    var changed := true;
    while changed
      invariant cluster != [] && Distinct(remaining)
      invariant changed ==> Saturate(m, cluster, remaining) == Saturate(m, first, rest)
      invariant !changed ==> (cluster, remaining) == Saturate(m, first, rest)
      decreases |remaining|, changed
    {
      var grown, left, moved := OnePass(m, cluster, remaining);
      if !moved { IdlePass(m, cluster, remaining); }
      cluster, remaining, changed := grown, left, moved;
    }
  }

  /** The outer loops: start a cluster with the first agent left, grow it until it is saturated. */
  method BuildClusters(m: Distances, agents: seq<Agent>) returns (clusters: seq<Cluster>)
    requires Distinct(agents)
    ensures clusters == Clusters(m, agents)
  {
    hide Saturate, Joins, Pass;
    clusters := [];
    var remaining := agents;
    while remaining != []
      invariant Distinct(remaining)
      invariant clusters + Clusters(m, remaining) == Clusters(m, agents)
      decreases |remaining|
    {
      var cluster := [remaining[0]];
      remaining := remaining[1..];
      cluster, remaining := Grow(m, cluster, remaining);
      clusters := clusters + [Cluster(cluster)];
    }
  }

  lemma {:induction false} FlattenAppend(cs: seq<Cluster>, c: Cluster)
    ensures Flatten(cs + [c]) == Flatten(cs) + c.members
  {
    if cs == [] {
      assert [c][1..] == [];
    } else {
      assert (cs + [c])[1..] == cs[1..] + [c];
      FlattenAppend(cs[1..], c);
    }
  }

  function Majority(clusters: seq<Cluster>): (seq<Agent>, seq<Agent>) {
    var sorted := SortByLength(clusters);
    if sorted == [] then ([], []) else (sorted[0].members, Flatten(sorted[1..]))
  }

  /** The whole function: the majority is the first of the largest clusters, and majority and
      minority together are the agents. */
  method ClusterBySimilarity(agents: seq<Agent>, pairs: seq<Pair>) returns (largest: seq<Agent>, minority: seq<Agent>)
    requires Distinct(agents)
    ensures agents == [] ==> largest == [] && minority == []
    ensures (largest, minority) == Majority(Clusters(DistanceMap(pairs), agents))
  {
    if agents == [] {
      return [], [];
    }
    var m := BuildDistanceMap(pairs);
    var clusters := BuildClusters(m, agents);
    clusters := SortByLength(clusters);
    largest := clusters[0].members;
    minority := [];
    for i := 1 to |clusters|
      invariant minority == Flatten(clusters[1..i])
    {
      FlattenAppend(clusters[1..i], clusters[i]);
      assert clusters[1..i + 1] == clusters[1..i] + [clusters[i]];
      minority := minority + clusters[i].members;
    }
    assert clusters[1..|clusters|] == clusters[1..];
  }

  /** The returned pair splits the agents, and the majority is the first of the largest clusters,
      a tight one. */
  lemma MajorityMeans(m: Distances, agents: seq<Agent>)
    requires agents != []
    ensures var (largest, minority) := Majority(Clusters(m, agents));
            && multiset(largest) + multiset(minority) == multiset(agents)
            && FirstLongest(Clusters(m, agents), Cluster(largest)) && Tight(m, largest)
  {
    hide Clusters, Tight, SortByLength, LongestFirst, FirstLongest, AllClosed, Flatten;
    var cs := Clusters(m, agents);
    ClustersMean(m, agents);
    SortedHead(cs);
    var sorted := SortByLength(cs);
    FlattenPermuted(cs, sorted);
    FlattenFirst(sorted);
    assert sorted == [sorted[0]] + sorted[1..];
    assert sorted[0] in multiset(sorted);
  }

  /** "All members within the threshold of each other" is more than the loop gives: c is 0.9
      from a, yet joins the cluster of a and b on a mean of 0.45. */
  lemma MembersNeedNotBeClose(a: Agent, b: Agent, c: Agent)
    requires a != b && b != c && a != c
    ensures var m := DistanceMap([Pair(a, b, 0.0), Pair(a, c, 0.9), Pair(b, c, 0.0)]);
            Dist(m, a, c) == 0.9 && Clusters(m, [a, b, c]) == [Cluster([a, b, c])]
  {
    var p, q, r := Pair(a, b, 0.0), Pair(a, c, 0.9), Pair(b, c, 0.0);
    assert [p, q, r][..2] == [p, q] && [p, q][..1] == [p] && [p][..0] == [];
    var m := DistanceMap([p, q, r]);
    assert DistanceMap([p]) == map[(a, b) := 0.0, (b, a) := 0.0];
    assert Dist(m, b, a) == 0.0 && Dist(m, c, a) == 0.9 && Dist(m, c, b) == 0.0;
    assert [a][..0] == [] && [a, b][..1] == [a];
    assert DistanceSum(m, b, [a]) == 0.0 && DistanceSum(m, c, [a]) == 0.9;
    assert DistanceSum(m, c, [a, b]) == 0.9;
    assert Joins(m, b, [a]) && Joins(m, c, [a, b]);
    assert [a] + [b] == [a, b] && [a, b] + [c] == [a, b, c];
    assert Pass(m, [a, b, c], []) == ([a, b, c], []);
    assert [b, c][1..] == [c] && [c][1..] == [];
    assert Pass(m, [a, b], [c]) == ([a, b, c], []);
    assert Pass(m, [a], [b, c]) == ([a, b, c], []);
    assert Saturate(m, [a, b, c], []) == ([a, b, c], []);
    assert [a, b, c][1..] == [b, c];
  }
}
