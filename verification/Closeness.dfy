/** When the clusters are what the docstring says (maestro/aggregator.py:9-10): all members within
    the threshold of each other, not just close on average. */
module Closeness {
  import opened Clustering

  predicate Near(m: Distances, a: Agent, b: Agent) {
    Dist(m, a, b) < SIMILARITY_THRESHOLD
  }

  /** All members within the threshold of each other. */
  ghost predicate Close(m: Distances, c: seq<Agent>) {
    forall i, j | 0 <= i < |c| && 0 <= j < |c| && i != j :: Near(m, c[i], c[j])
  }

  ghost predicate AllClose(m: Distances, cs: seq<Cluster>) {
    forall c | c in cs :: Close(m, c.members)
  }

  /** Different agents of the council. */
  ghost predicate Drawn(c: seq<Agent>, agents: seq<Agent>) {
    Distinct(c) && forall x | x in c :: x in agents
  }

  /** A close group, and an agent outside it who would join although not near every member. */
  ghost predicate Straggler(m: Distances, agents: seq<Agent>, c: seq<Agent>, x: Agent) {
    && c != [] && Close(m, c) && Joins(m, x, c)
    && Drawn(c + [x], agents)
    && exists y :: y in c && !Near(m, x, y)
  }

  ghost predicate NoStraggler(m: Distances, agents: seq<Agent>) {
    forall c, x :: !Straggler(m, agents, c, x)
  }

  lemma CloseMore(m: Distances, c: seq<Agent>, x: Agent)
    requires Symmetric(m) && Close(m, c) && forall y | y in c :: Near(m, x, y)
    ensures Close(m, c + [x])
  {
    hide Dist;
    var d := c + [x];
    forall i, j | 0 <= i < |d| && 0 <= j < |d| && i != j ensures Near(m, d[i], d[j]) {
      if i == |c| {
        assert d[j] in c;
      } else if j == |c| {
        assert d[i] in c && Dist(m, x, d[i]) == Dist(m, d[i], x);
      } else {
        assert d[i] == c[i] && d[j] == c[j];
      }
    }
  }

  lemma DrawnParts(cluster: seq<Agent>, todo: seq<Agent>, agents: seq<Agent>)
    requires todo != [] && Drawn(cluster + todo, agents)
    ensures Drawn(cluster + [todo[0]], agents) && Drawn(cluster + todo[1..], agents)
  {
    var s := cluster + todo;
    var a, b := cluster + [todo[0]], cluster + todo[1..];
    assert a == s[..|cluster| + 1];
    forall x | x in b ensures x in agents { assert x in s; }
    forall i, j | 0 <= i < j < |b| ensures b[i] != b[j] {
      assert b[i] == s[if i < |cluster| then i else i + 1] && b[j] == s[if j < |cluster| then j else j + 1];
    }
  }

  lemma JoinerIsNear(m: Distances, agents: seq<Agent>, cluster: seq<Agent>, x: Agent)
    requires NoStraggler(m, agents) && cluster != [] && Close(m, cluster) && Joins(m, x, cluster)
    requires Drawn(cluster + [x], agents)
    ensures forall y | y in cluster :: Near(m, x, y)
  {
    hide Joins, Close, Near, Drawn;
    assert !Straggler(m, agents, cluster, x);
  }

  lemma {:induction false} DistinctCounts(s: seq<Agent>)
    ensures Distinct(s) <==> forall x :: multiset(s)[x] <= 1
  {
    if s != [] {
      var n := |s| - 1;
      DistinctCounts(s[..n]);
      assert s == s[..n] + [s[n]] && multiset(s) == multiset(s[..n]) + multiset{s[n]};
      if Distinct(s) {
        assert s[n] !in s[..n] && s[n] !in multiset(s[..n]);
      } else if Distinct(s[..n]) {
        var i, j :| 0 <= i < j < |s| && s[i] == s[j];
        assert j == n && s[n] in s[..n] && s[n] in multiset(s[..n]);
        assert multiset(s)[s[n]] > 1;
      } else {
        var x :| multiset(s[..n])[x] > 1;
        assert multiset(s)[x] > 1;
      }
    }
  }

  lemma DrawnPermuted(s: seq<Agent>, t: seq<Agent>, agents: seq<Agent>)
    requires Drawn(s, agents) && multiset(s) == multiset(t)
    ensures Drawn(t, agents)
  {
    DistinctCounts(s);
    DistinctCounts(t);
    forall x | x in t ensures x in agents { assert x in multiset(t) && x in s; }
  }

  /** A pass only reorders. */
  lemma PassDrawn(m: Distances, cluster: seq<Agent>, todo: seq<Agent>, agents: seq<Agent>)
    requires cluster != [] && Drawn(cluster + todo, agents)
    ensures var r := Pass(m, cluster, todo); Drawn(r.0 + r.1, agents)
  {
    hide Pass, Drawn;
    PassKeepsAgents(m, cluster, todo);
    var r := Pass(m, cluster, todo);
    assert multiset(r.0 + r.1) == multiset(cluster + todo);
    DrawnPermuted(cluster + todo, r.0 + r.1, agents);
  }

  /** Without stragglers a pass and a saturation keep the growing cluster close. */
  lemma {:induction false} PassClose(m: Distances, agents: seq<Agent>, cluster: seq<Agent>, todo: seq<Agent>)
    requires Symmetric(m) && NoStraggler(m, agents) && cluster != []
    requires Close(m, cluster) && Drawn(cluster + todo, agents)
    ensures var r := Pass(m, cluster, todo); Close(m, r.0) && Drawn(r.0 + r.1, agents)
    decreases |todo|
  {
    hide Joins, Close, Near, Symmetric, Drawn;
    if todo == [] {
      assert cluster + [] == cluster;
    } else {
      var x, rest := todo[0], todo[1..];
      DrawnParts(cluster, todo, agents);
      if Joins(m, x, cluster) {
        JoinerIsNear(m, agents, cluster, x);
        CloseMore(m, cluster, x);
        assert cluster + [x] + rest == cluster + todo;
        PassClose(m, agents, cluster + [x], rest);
      } else {
        PassClose(m, agents, cluster, rest);
        PassDrawn(m, cluster, todo, agents);
      }
    }
  }

  lemma {:induction false} SaturateClose(m: Distances, agents: seq<Agent>, cluster: seq<Agent>, remaining: seq<Agent>)
    requires Symmetric(m) && NoStraggler(m, agents) && cluster != []
    requires Close(m, cluster) && Drawn(cluster + remaining, agents)
    ensures var r := Saturate(m, cluster, remaining); Close(m, r.0) && Drawn(r.0 + r.1, agents)
    decreases |remaining|
  {
    hide Pass, Close, Drawn, NoStraggler, Symmetric;
    PassClose(m, agents, cluster, remaining);
    var r := Pass(m, cluster, remaining);
    if |r.1| != |remaining| { SaturateClose(m, agents, r.0, r.1); }
  }

  lemma OneIsClose(m: Distances, x: Agent)
    ensures Close(m, [x])
  {
  }

  lemma DrawnTail(a: seq<Agent>, b: seq<Agent>, agents: seq<Agent>)
    requires Drawn(a + b, agents)
    ensures Drawn(a, agents) && Drawn(b, agents)
  {
    var s := a + b;
    forall x | x in a ensures x in agents { assert x in s; }
    forall x | x in b ensures x in agents { assert x in s; }
    forall i, j | 0 <= i < j < |b| ensures b[i] != b[j] { assert b[i] == s[|a| + i] && b[j] == s[|a| + j]; }
    forall i, j | 0 <= i < j < |a| ensures a[i] != a[j] { assert a[i] == s[i] && a[j] == s[j]; }
  }

  lemma {:induction false} ClustersClose(m: Distances, agents: seq<Agent>, remaining: seq<Agent>)
    requires Symmetric(m) && NoStraggler(m, agents) && Drawn(remaining, agents)
    ensures AllClose(m, Clusters(m, remaining))
    decreases |remaining|
  {
    hide Saturate, Close, Drawn, NoStraggler, Symmetric;
    if remaining != [] {
      var first, rest := [remaining[0]], remaining[1..];
      assert first + rest == remaining;
      OneIsClose(m, remaining[0]);
      SaturateClose(m, agents, first, rest);
      var r := Saturate(m, first, rest);
      DrawnTail(r.0, r.1, agents);
      ClustersClose(m, agents, r.1);
    }
  }

  // ---- a straggler shows in some order ----

  lemma {:induction false} NearSum(m: Distances, x: Agent, c: seq<Agent>)
    requires forall y | y in c :: Near(m, x, y)
    ensures DistanceSum(m, x, c) <= SIMILARITY_THRESHOLD * |c| as real
    ensures c != [] ==> DistanceSum(m, x, c) < SIMILARITY_THRESHOLD * |c| as real
  {
    if c != [] {
      var n := |c| - 1;
      assert c[n] in c;
      NearSum(m, x, c[..n]);
    }
  }

  lemma QuotientBelow(sum: real, n: real)
    requires n > 0.0 && sum < 0.5 * n
    ensures sum / n < 0.5
  {
    var q := sum / n;
    assert q * n == sum;
    assert q >= 0.5 ==> (q - 0.5) * n >= 0.0;
  }

  /** An agent near every member joins. */
  lemma NearJoins(m: Distances, x: Agent, c: seq<Agent>)
    requires c != [] && forall y | y in c :: Near(m, x, y)
    ensures Joins(m, x, c)
  {
    hide DistanceSum, Near;
    NearSum(m, x, c);
    QuotientBelow(DistanceSum(m, x, c), |c| as real);
  }

  lemma NextIsNear(m: Distances, cluster: seq<Agent>, group: seq<Agent>)
    requires group != [] && Close(m, cluster + group)
    ensures forall y | y in cluster :: Near(m, group[0], y)
  {
    hide Near;
    var s := cluster + group;
    forall y | y in cluster ensures Near(m, group[0], y) {
      var i :| 0 <= i < |cluster| && cluster[i] == y;
      assert s[|cluster|] == group[0] && s[i] == y;
    }
  }

  /** A close group that comes first is gathered in one pass, in order, and the pass goes on. */
  lemma {:induction false} GroupGathers(m: Distances, cluster: seq<Agent>, group: seq<Agent>, rest: seq<Agent>)
    requires cluster != [] && Close(m, cluster + group)
    ensures Pass(m, cluster, group + rest) == Pass(m, cluster + group, rest)
    decreases |group|
  {
    hide Close, Joins;
    if group == [] {
      assert group + rest == rest && cluster + group == cluster;
    } else {
      var x, more := group[0], group[1..];
      assert (group + rest)[0] == x && (group + rest)[1..] == more + rest;
      NextIsNear(m, cluster, group);
      NearJoins(m, x, cluster);
      assert cluster + [x] + more == cluster + group;
      GroupGathers(m, cluster + [x], more, rest);
    }
  }

  lemma SaturateExtends(m: Distances, cluster: seq<Agent>, remaining: seq<Agent>)
    requires cluster != []
    ensures Pass(m, cluster, remaining).0 <= Saturate(m, cluster, remaining).0
  {
    hide Joins;
    var r := Pass(m, cluster, remaining);
    if |r.1| == |remaining| { IdlePass(m, cluster, remaining); }
  }

  lemma FarInside(m: Distances, c: seq<Agent>, x: Agent, big: seq<Agent>)
    requires c + [x] <= big && exists y :: y in c && !Near(m, x, y)
    ensures !Close(m, big)
  {
    hide Near;
    var y :| y in c && !Near(m, x, y);
    var i :| 0 <= i < |c| && c[i] == y;
    assert big[|c|] == (c + [x])[|c|] == x && big[i] == (c + [x])[i] == y;
  }

  /** In the order that puts the group first and the straggler next, both end in one cluster. */
  lemma StragglerJoins(m: Distances, agents: seq<Agent>, c: seq<Agent>, x: Agent, rest: seq<Agent>)
    requires Straggler(m, agents, c, x)
    ensures !AllClose(m, Clusters(m, c + [x] + rest))
  {
    hide Joins, Close, Near, Drawn, Saturate;
    var order := c + [x] + rest;
    var first, group := [c[0]], c[1..];
    assert first + group == c;
    assert order[0] == c[0] && order[1..] == group + ([x] + rest);
    GroupGathers(m, first, group, [x] + rest);
    assert ([x] + rest)[0] == x && ([x] + rest)[1..] == rest;
    assert Pass(m, c, [x] + rest) == Pass(m, c + [x], rest);
    var r := Saturate(m, first, group + ([x] + rest));
    SaturateExtends(m, first, group + ([x] + rest));
    assert c + [x] <= r.0;
    FarInside(m, c, x, r.0);
    assert Clusters(m, order)[0] == Cluster(r.0);
    assert Cluster(r.0) in Clusters(m, order);
  }

  // ---- the exact condition ----

  /** Another order of the same agents. */
  ghost predicate Reorders(order: seq<Agent>, agents: seq<Agent>) {
    multiset(order) == multiset(agents)
  }

  /** The agents that are not in `s`, in order. */
  function Others(agents: seq<Agent>, s: seq<Agent>): seq<Agent> {
    if agents == [] then []
    else (if agents[0] in s then [] else [agents[0]]) + Others(agents[1..], s)
  }

  lemma {:induction false} OthersCount(agents: seq<Agent>, s: seq<Agent>, x: Agent)
    ensures multiset(Others(agents, s))[x] == if x in s then 0 else multiset(agents)[x]
  {
    if agents != [] {
      OthersCount(agents[1..], s, x);
      assert agents == [agents[0]] + agents[1..];
      assert multiset(agents) == multiset{agents[0]} + multiset(agents[1..]);
    }
  }

  lemma FirstThese(agents: seq<Agent>, s: seq<Agent>)
    requires Distinct(agents) && Drawn(s, agents)
    ensures Reorders(s + Others(agents, s), agents)
  {
    hide Others;
    DistinctCounts(agents);
    DistinctCounts(s);
    var order := s + Others(agents, s);
    assert multiset(order) == multiset(s) + multiset(Others(agents, s));
    forall x ensures multiset(order)[x] == multiset(agents)[x] {
      OthersCount(agents, s, x);
      if x in s { assert x in multiset(s) && x in multiset(agents); }
    }
  }

  lemma StragglerDrawn(m: Distances, agents: seq<Agent>, c: seq<Agent>, x: Agent)
    requires Straggler(m, agents, c, x)
    ensures Drawn(c + [x], agents)
  {
  }

  /** Every order of the agents gives clusters whose members are all within the threshold of each
      other exactly when there is no straggler: a condition on the distances alone. */
  lemma AlwaysCloseIff(m: Distances, agents: seq<Agent>)
    requires Symmetric(m) && Distinct(agents)
    ensures (forall order | Reorders(order, agents) :: AllClose(m, Clusters(m, order))) <==> NoStraggler(m, agents)
  {
    hide Straggler, AllClose, Clusters, Symmetric;
    if NoStraggler(m, agents) {
      forall order | Reorders(order, agents) ensures AllClose(m, Clusters(m, order)) {
        assert Drawn(agents, agents);
        DrawnPermuted(agents, order, agents);
        ClustersClose(m, agents, order);
      }
    } else {
      var c, x :| Straggler(m, agents, c, x);
      assert Drawn(c + [x], agents) by { StragglerDrawn(m, agents, c, x); }
      FirstThese(agents, c + [x]);
      StragglerJoins(m, agents, c, x, Others(agents, c + [x]));
    }
  }

  /** Being near is transitive among the agents. */
  ghost predicate NearTransitive(m: Distances, agents: seq<Agent>) {
    forall x, y, z | x in agents && y in agents && z in agents && x != y && y != z && x != z
      :: Near(m, x, y) && Near(m, y, z) ==> Near(m, x, z)
  }

  lemma {:induction false} JoinerHasANearMember(m: Distances, x: Agent, c: seq<Agent>)
    requires forall y | y in c :: !Near(m, x, y)
    ensures DistanceSum(m, x, c) >= SIMILARITY_THRESHOLD * |c| as real
  {
    if c != [] {
      var n := |c| - 1;
      assert c[n] in c;
      JoinerHasANearMember(m, x, c[..n]);
    }
  }

  lemma SomeNear(m: Distances, x: Agent, c: seq<Agent>) returns (z: Agent)
    requires c != [] && Joins(m, x, c)
    ensures z in c && Near(m, x, z)
  {
    hide DistanceSum, Near;
    if forall y | y in c :: !Near(m, x, y) {
      JoinerHasANearMember(m, x, c);
      MeanBelow(DistanceSum(m, x, c), |c|);
      assert false;
    }
    z :| z in c && Near(m, x, z);
  }

  lemma NearThrough(m: Distances, agents: seq<Agent>, c: seq<Agent>, x: Agent, z: Agent, y: Agent)
    requires NearTransitive(m, agents) && Close(m, c) && Drawn(c + [x], agents)
    requires z in c && y in c && Near(m, x, z)
    ensures Near(m, x, y)
  {
    hide Near;
    var s := c + [x];
    assert x in s && z in s && y in s;
    var i :| 0 <= i < |c| && c[i] == z;
    var j :| 0 <= j < |c| && c[j] == y;
    assert s[i] == z && s[j] == y && s[|c|] == x;
    if y != z { assert Near(m, z, y); }
  }

  lemma TransitiveNoStraggler(m: Distances, agents: seq<Agent>, c: seq<Agent>, x: Agent)
    requires Symmetric(m) && NearTransitive(m, agents)
    ensures !Straggler(m, agents, c, x)
  {
    if c != [] && Close(m, c) && Joins(m, x, c) && Drawn(c + [x], agents) {
      var z := SomeNear(m, x, c);
      forall y | y in c ensures Near(m, x, y) {
        NearThrough(m, agents, c, x, z, y);
      }
    }
  }

  /** In particular when near is transitive, a condition on triples only, every cluster is close. */
  lemma TransitiveMeansClose(m: Distances, agents: seq<Agent>)
    requires Symmetric(m) && Distinct(agents) && NearTransitive(m, agents)
    ensures AllClose(m, Clusters(m, agents))
  {
    hide AllClose, Clusters, Symmetric, Straggler, NearTransitive;
    forall c, x ensures !Straggler(m, agents, c, x) { TransitiveNoStraggler(m, agents, c, x); }
    AlwaysCloseIff(m, agents);
    assert Reorders(agents, agents);
  }
}
