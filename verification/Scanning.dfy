/** How the clusters of the quorum come about (maestro/aggregator.py:29-42), told of positions in the list of
    agents: who starts a cluster, who joins it next, and who was asked in vain in between. */
module Scanning {
  import opened Sequences
  import opened Clustering

  // ---- the story of a cluster ----

  function SumTo(m: Distances, x: Agent, members: seq<Agent>): real {
    if members == [] then 0.0
    else (if (x, members[0]) in m then m[(x, members[0])] else 1.0) + SumTo(m, x, members[1..])
  }

  /** The mean of the distances to these members, 1 where none is listed, is below one half. */
  predicate Near(m: Distances, x: Agent, members: seq<Agent>)
    requires members != []
  {
    SumTo(m, x, members) / |members| as real < 0.5
  }

  /** Agents by their position. */
  type Rank = Agent -> int

  /** Going round the list from `p`, `x` comes before `q`. */
  predicate Between(rank: Rank, p: Agent, x: Agent, q: Agent) {
    if rank(p) < rank(q) then rank(p) < rank(x) < rank(q) else rank(x) > rank(p) || rank(x) < rank(q)
  }

  /** Member `j` joined next: near to those before it, and going round from the one before it nobody of the
      pool that comes earlier was. */
  ghost predicate JoinedNext(m: Distances, rank: Rank, pool: set<Agent>, c: seq<Agent>, j: nat)
    requires 0 < j < |c|
  {
    && Near(m, c[j], c[..j])
    && forall x | x in pool && x !in c[..j] && Between(rank, c[j - 1], x, c[j]) :: !Near(m, x, c[..j])
  }

  /** The members from position `from` on joined one after the other. */
  ghost predicate Grown(m: Distances, rank: Rank, pool: set<Agent>, c: seq<Agent>, from: nat) {
    forall j | 0 < from <= j < |c| :: JoinedNext(m, rank, pool, c, j)
  }

  ghost predicate Ordered(rank: Rank, s: seq<Agent>) {
    forall i, j | 0 <= i < j < |s| :: rank(s[i]) < rank(s[j])
  }

  function Members(s: seq<Agent>): set<Agent> {
    set x | x in s
  }

  /** The agents not yet in a cluster, in order: the first starts the next one, which grows until nobody
      left is near. */
  ghost predicate Scanned(m: Distances, rank: Rank, left: seq<Agent>, cs: seq<Cluster>)
    decreases |cs|
  {
    if cs == [] then left == []
    else
      var c := cs[0].members;
      && left != [] && c != [] && c[0] == left[0]
      && Grown(m, rank, Members(left), c, 1)
      && exists rest: seq<Agent> ::
           && (forall x :: x in rest <==> x in left && x !in c) && Ordered(rank, rest)
           && (forall x | x in rest :: !Near(m, x, c))
           && Scanned(m, rank, rest, cs[1..])
  }

  // ---- the sums agree ----

  lemma {:induction false} SumToLast(m: Distances, x: Agent, s: seq<Agent>)
    requires s != []
    ensures SumTo(m, x, s) == SumTo(m, x, s[..|s| - 1]) + Dist(m, x, s[|s| - 1])
  {
    if |s| > 1 {
      SumToLast(m, x, s[1..]);
      assert s[1..][..|s| - 2] == s[..|s| - 1][1..];
    }
  }

  lemma {:induction false} SumsAgree(m: Distances, x: Agent, s: seq<Agent>)
    ensures SumTo(m, x, s) == DistanceSum(m, x, s)
  {
    if s != [] {
      hide Dist;
      SumToLast(m, x, s);
      SumsAgree(m, x, s[..|s| - 1]);
    }
  }

  lemma NearIsJoins(m: Distances, x: Agent, s: seq<Agent>)
    requires s != []
    ensures Near(m, x, s) <==> Joins(m, x, s)
  {
    hide SumTo, DistanceSum;
    SumsAgree(m, x, s);
  }

  // ---- one pass ----

  /** Where the pass stands: `kept` were passed by, `todo` are still to come, and since the last member joined
      everybody asked was refused: those passed by after it, and if it joined in an earlier pass, all behind
      it and all passed by. */
  ghost predicate Refused(m: Distances, rank: Rank, cluster: seq<Agent>, kept: seq<Agent>, todo: seq<Agent>,
        wrapped: bool)
    requires cluster != []
  {
    var last := rank(cluster[|cluster| - 1]);
    && (forall x | x in kept && (wrapped || rank(x) > last) :: !Near(m, x, cluster))
    && (wrapped ==> forall x | x in todo && rank(x) > last :: !Near(m, x, cluster))
    && (!wrapped ==> forall x | x in todo :: rank(x) > last)
  }

  ghost predicate Pool(pool: set<Agent>, cluster: seq<Agent>, kept: seq<Agent>, todo: seq<Agent>) {
    && (forall x :: x in pool <==> x in cluster || x in kept || x in todo)
    && (forall x | x in cluster :: x !in kept && x !in todo)
  }

  lemma NextIsRight(m: Distances, rank: Rank, pool: set<Agent>, cluster: seq<Agent>, kept: seq<Agent>,
        todo: seq<Agent>, wrapped: bool)
    requires cluster != [] && todo != [] && Pool(pool, cluster, kept, todo) && Ordered(rank, kept + todo)
    requires Refused(m, rank, cluster, kept, todo, wrapped) && Near(m, todo[0], cluster)
    ensures JoinedNext(m, rank, pool, cluster + [todo[0]], |cluster|)
  {
    hide Near;
    var c, q, n := cluster + [todo[0]], todo[0], |cluster|;
    assert c[..n] == cluster && c[n] == q && c[n - 1] == cluster[n - 1];
    forall x | x in pool && x !in cluster && Between(rank, cluster[n - 1], x, q) ensures !Near(m, x, cluster) {
      if x in kept {
        var i :| 0 <= i < |kept| && kept[i] == x;
        assert (kept + todo)[i] == x && (kept + todo)[|kept|] == q;
      } else {
        var i :| 0 <= i < |todo| && todo[i] == x;
        assert (kept + todo)[|kept| + i] == x && (kept + todo)[|kept|] == q;
      }
    }
  }

  lemma JoinedState(m: Distances, rank: Rank, pool: set<Agent>, cluster: seq<Agent>, kept: seq<Agent>, todo: seq<Agent>)
    requires cluster != [] && todo != [] && Pool(pool, cluster, kept, todo) && Ordered(rank, kept + todo)
    ensures var q, rest := todo[0], todo[1..];
            && Pool(pool, cluster + [q], kept, rest) && Ordered(rank, kept + rest)
            && Refused(m, rank, cluster + [q], kept, rest, false)
  {
    hide Near;
    var q, rest, all := todo[0], todo[1..], kept + todo;
    assert all[|kept|] == q;
    assert (cluster + [q])[|cluster + [q]| - 1] == q;
    forall x | x in kept ensures rank(x) < rank(q) {
      var i :| 0 <= i < |kept| && kept[i] == x;
      assert all[i] == x;
    }
    forall x | x in rest ensures rank(q) < rank(x) {
      var i :| 0 <= i < |rest| && rest[i] == x;
      assert all[|kept| + 1 + i] == x;
    }
    forall i, j | 0 <= i < j < |kept + rest| ensures rank((kept + rest)[i]) < rank((kept + rest)[j]) {
      var a, b := if i < |kept| then i else i + 1, if j < |kept| then j else j + 1;
      assert all[a] == (kept + rest)[i] && all[b] == (kept + rest)[j];
    }
    assert todo == [q] + rest;
  }

  lemma PassedState(m: Distances, rank: Rank, pool: set<Agent>, cluster: seq<Agent>, kept: seq<Agent>,
        todo: seq<Agent>, wrapped: bool)
    requires cluster != [] && todo != [] && Pool(pool, cluster, kept, todo) && Ordered(rank, kept + todo)
    requires Refused(m, rank, cluster, kept, todo, wrapped) && !Near(m, todo[0], cluster)
    ensures Pool(pool, cluster, kept + [todo[0]], todo[1..]) && Ordered(rank, kept + [todo[0]] + todo[1..])
    ensures Refused(m, rank, cluster, kept + [todo[0]], todo[1..], wrapped)
  {
    hide Near;
    assert kept + [todo[0]] + todo[1..] == kept + todo && todo == [todo[0]] + todo[1..];
  }

  /** What joined next in a prefix joined next. */
  lemma SamePrefix(m: Distances, rank: Rank, pool: set<Agent>, front: seq<Agent>, c: seq<Agent>, j: nat)
    requires front <= c && 0 < j < |front| && JoinedNext(m, rank, pool, front, j)
    ensures JoinedNext(m, rank, pool, c, j)
  {
    hide Near;
    assert front[..j] == c[..j] && front[j] == c[j] && front[j - 1] == c[j - 1];
  }

  lemma {:induction false} PassScans(m: Distances, rank: Rank, pool: set<Agent>, cluster: seq<Agent>,
        kept: seq<Agent>, todo: seq<Agent>, wrapped: bool)
    requires cluster != [] && Pool(pool, cluster, kept, todo) && Ordered(rank, kept + todo)
    requires Refused(m, rank, cluster, kept, todo, wrapped)
    ensures var r := Pass(m, cluster, todo);
            && Grown(m, rank, pool, r.0, |cluster|)
            && Pool(pool, r.0, kept + r.1, []) && Ordered(rank, kept + r.1)
            && Refused(m, rank, r.0, [], kept + r.1, true)
    decreases |todo|
  {
    hide Near, Joins, JoinedNext;
    if todo == [] {
      assert kept + [] == kept;
    } else {
      var q, rest := todo[0], todo[1..];
      NearIsJoins(m, q, cluster);
      assert kept + todo == kept + [q] + rest;
      if Joins(m, q, cluster) {
        NextIsRight(m, rank, pool, cluster, kept, todo, wrapped);
        JoinedState(m, rank, pool, cluster, kept, todo);
        PassScans(m, rank, pool, cluster + [q], kept, rest, false);
        var r := Pass(m, cluster, todo);
        SamePrefix(m, rank, pool, cluster + [q], r.0, |cluster|);
      } else {
        PassedState(m, rank, pool, cluster, kept, todo, wrapped);
        PassScans(m, rank, pool, cluster, kept + [q], rest, wrapped);
        var r := Pass(m, cluster, rest);
        assert kept + [q] + r.1 == kept + ([q] + r.1);
      }
    }
  }

  // ---- a whole cluster ----

  lemma PoolSwapped(pool: set<Agent>, cluster: seq<Agent>, left: seq<Agent>)
    requires Pool(pool, cluster, left, [])
    ensures Pool(pool, cluster, [], left)
  {
  }

  lemma GrownFurther(m: Distances, rank: Rank, pool: set<Agent>, front: seq<Agent>, c: seq<Agent>, from: nat)
    requires front != [] && front <= c && Grown(m, rank, pool, front, from) && Grown(m, rank, pool, c, |front|)
    ensures Grown(m, rank, pool, c, from)
  {
    hide JoinedNext;
    forall j | 0 < from <= j < |c| ensures JoinedNext(m, rank, pool, c, j) {
      if j < |front| { SamePrefix(m, rank, pool, front, c, j); }
    }
  }

  lemma {:induction false} SaturateScans(m: Distances, rank: Rank, pool: set<Agent>, cluster: seq<Agent>,
        remaining: seq<Agent>, wrapped: bool)
    requires cluster != [] && Pool(pool, cluster, [], remaining) && Ordered(rank, remaining)
    requires Refused(m, rank, cluster, [], remaining, wrapped)
    ensures var r := Saturate(m, cluster, remaining);
            && Grown(m, rank, pool, r.0, |cluster|)
            && Pool(pool, r.0, [], r.1) && Ordered(rank, r.1) && forall x | x in r.1 :: !Near(m, x, r.0)
    decreases |remaining|
  {
    hide Near, Joins, JoinedNext, Pass, Refused, Ordered;
    var r := Pass(m, cluster, remaining);
    assert [] + remaining == remaining && [] + r.1 == r.1;
    PassScans(m, rank, pool, cluster, [], remaining, wrapped);
    if |r.1| == |remaining| {
      IdlePass(m, cluster, remaining);
      forall x | x in remaining ensures !Near(m, x, cluster) { NearIsJoins(m, x, cluster); }
    } else {
      PoolSwapped(pool, r.0, r.1);
      SaturateScans(m, rank, pool, r.0, r.1, true);
      GrownFurther(m, rank, pool, r.0, Saturate(m, r.0, r.1).0, |cluster|);
    }
  }

  lemma FirstStands(m: Distances, rank: Rank, agents: seq<Agent>)
    requires agents != [] && Ordered(rank, agents)
    ensures Pool(Members(agents), [agents[0]], [], agents[1..]) && Ordered(rank, agents[1..])
    ensures Refused(m, rank, [agents[0]], [], agents[1..], false)
  {
    hide Near;
    assert agents == [agents[0]] + agents[1..];
    forall x | x in agents[1..] ensures rank(agents[0]) < rank(x) {
      var i :| 0 <= i < |agents| - 1 && agents[1..][i] == x;
      assert agents[i + 1] == x;
    }
  }

  lemma RestLeft(agents: seq<Agent>, cluster: seq<Agent>, left: seq<Agent>)
    requires Pool(Members(agents), cluster, [], left)
    ensures forall x :: x in left <==> x in agents && x !in cluster
  {
    assert forall x :: x in Members(agents) <==> x in agents;
  }

  lemma ScannedNext(m: Distances, rank: Rank, left: seq<Agent>, c: seq<Agent>, rest: seq<Agent>, cs: seq<Cluster>)
    requires left != [] && c != [] && c[0] == left[0] && Grown(m, rank, Members(left), c, 1)
    requires (forall x :: x in rest <==> x in left && x !in c) && Ordered(rank, rest)
    requires (forall x | x in rest :: !Near(m, x, c)) && Scanned(m, rank, rest, cs)
    ensures Scanned(m, rank, left, [Cluster(c)] + cs)
  {
    hide Near, Ordered, Grown;
    assert ([Cluster(c)] + cs)[1..] == cs;
  }

  lemma NobodyScanned(m: Distances, rank: Rank)
    ensures Scanned(m, rank, [], [])
  {
  }

  /** The clusters of the loop are those that scanning the list round and round gives: nothing else is. */
  lemma {:induction false} ClustersAreScanned(m: Distances, rank: Rank, agents: seq<Agent>)
    requires Ordered(rank, agents)
    ensures Scanned(m, rank, agents, Clusters(m, agents))
    decreases |agents|
  {
    if agents == [] {
      NobodyScanned(m, rank);
    } else {
      hide Near, Joins, JoinedNext, Refused, Saturate, Ordered, Grown, Scanned, Pool;
      var r := Saturate(m, [agents[0]], agents[1..]);
      FirstStands(m, rank, agents);
      SaturateScans(m, rank, Members(agents), [agents[0]], agents[1..], false);
      ClustersAreScanned(m, rank, r.1);
      RestLeft(agents, r.0, r.1);
      ScannedNext(m, rank, agents, r.0, r.1, Clusters(m, r.1));
    }
  }
}
