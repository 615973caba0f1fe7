/** The sum of distances over the pairs of a group does not depend on the order of the group, and
    for a whole council it is the sum over the analysed pairs. */
module PairSums {
  import opened Sequences
  import opened Statistics
  import opened Clustering
  import opened Dissent

  lemma {:induction false} DistanceSumAppend(m: Distances, x: Agent, a: seq<Agent>, b: seq<Agent>)
    ensures DistanceSum(m, x, a + b) == DistanceSum(m, x, a) + DistanceSum(m, x, b)
  {
    if b == [] {
      assert a + b == a;
    } else {
      var n := |b| - 1;
      assert (a + b)[..|a + b| - 1] == a + b[..n];
      DistanceSumAppend(m, x, a, b[..n]);
    }
  }

  lemma DistanceSumOne(m: Distances, x: Agent, y: Agent)
    ensures DistanceSum(m, x, [y]) == Dist(m, x, y)
  {
    assert [y][..0] == [];
  }

  lemma DistanceSumTakes(m: Distances, x: Agent, s: seq<Agent>, k: nat)
    requires k < |s|
    ensures DistanceSum(m, x, s) == Dist(m, x, s[k]) + DistanceSum(m, x, Without(s, k))
  {
    hide DistanceSum, Dist;
    var a, b := s[..k], s[k + 1..];
    assert s == a + ([s[k]] + b) && Without(s, k) == a + b;
    DistanceSumAppend(m, x, a, [s[k]] + b);
    DistanceSumAppend(m, x, [s[k]], b);
    DistanceSumAppend(m, x, a, b);
    DistanceSumOne(m, x, s[k]);
  }

  lemma {:induction false} PairSumFirst(m: Distances, x: Agent, s: seq<Agent>)
    requires Symmetric(m)
    ensures PairSum(m, [x] + s) == DistanceSum(m, x, s) + PairSum(m, s)
  {
    if s == [] {
      assert [x] + s == [x] && [x][..0] == [];
    } else {
      var n := |s| - 1;
      var y := s[n];
      PairSumFirst(m, x, s[..n]);
      assert ([x] + s)[..n + 1] == [x] + s[..n];
      DistanceSumAppend(m, y, [x], s[..n]);
      DistanceSumOne(m, y, x);
      assert Dist(m, x, y) == Dist(m, y, x);
    }
  }

  lemma SameBothWays(m: Distances, x: Agent, y: Agent)
    requires Symmetric(m)
    ensures Dist(m, x, y) == Dist(m, y, x)
  {
  }

  lemma WithoutFront(s: seq<Agent>)
    requires s != []
    ensures Without(s, 0) == s[1..]
  {
  }

  lemma WithoutBehind(s: seq<Agent>, k: nat)
    requires 0 < k < |s|
    ensures Without(s, k) == [s[0]] + Without(s[1..], k - 1)
  {
  }

  /** Any member can be taken out first. */
  lemma {:induction false} PairSumTakes(m: Distances, s: seq<Agent>, k: nat)
    requires Symmetric(m) && k < |s|
    ensures PairSum(m, s) == DistanceSum(m, s[k], Without(s, k)) + PairSum(m, Without(s, k))
    decreases |s|
  {
    hide PairSum, DistanceSum, Without, Dist;
    var y, rest := s[0], s[1..];
    assert s == [y] + rest;
    PairSumFirst(m, y, rest);
    if k == 0 {
      WithoutFront(s);
    } else {
      var x, left := s[k], Without(rest, k - 1);
      PairSumTakes(m, rest, k - 1);
      WithoutBehind(s, k);
      PairSumFirst(m, y, left);
      DistanceSumTakes(m, y, rest, k - 1);
      DistanceSumAppend(m, x, [y], left);
      DistanceSumOne(m, x, y);
      SameBothWays(m, x, y);
    }
  }

  /** What is left of two orderings of one group after taking the same member out of both. */
  lemma TakeFromBoth(s: seq<Agent>, t: seq<Agent>) returns (k: nat)
    requires s != [] && multiset(s) == multiset(t)
    ensures k < |t| && t[k] == s[0] && multiset(s[1..]) == multiset(Without(t, k))
  {
    assert s == [s[0]] + s[1..];
    assert s[0] in multiset(t);
    k := IndexOf(t, s[0]);
    assert multiset(s) == multiset{s[0]} + multiset(s[1..]);
    assert multiset(s[1..]) == multiset(s) - multiset{s[0]};
  }

  lemma EmptyBoth(s: seq<Agent>, t: seq<Agent>)
    requires s == [] && multiset(s) == multiset(t)
    ensures t == []
  {
    assert |multiset(t)| == 0;
  }

  lemma {:induction false} DistanceSumPermuted(m: Distances, x: Agent, s: seq<Agent>, t: seq<Agent>)
    requires multiset(s) == multiset(t)
    ensures DistanceSum(m, x, s) == DistanceSum(m, x, t)
    decreases |s|
  {
    if s == [] {
      EmptyBoth(s, t);
    } else {
      hide *;
      var k := TakeFromBoth(s, t);
      DistanceSumPermuted(m, x, s[1..], Without(t, k));
      DistanceSumTakes(m, x, t, k);
      DistanceSumTakes(m, x, s, 0);
      WithoutFront(s);
    }
  }

  lemma {:induction false} PairSumPermuted(m: Distances, s: seq<Agent>, t: seq<Agent>)
    requires Symmetric(m) && multiset(s) == multiset(t)
    ensures PairSum(m, s) == PairSum(m, t)
    decreases |s|
  {
    if s == [] {
      EmptyBoth(s, t);
    } else {
      hide *;
      var k := TakeFromBoth(s, t);
      PairSumPermuted(m, s[1..], Without(t, k));
      DistanceSumPermuted(m, s[0], s[1..], Without(t, k));
      PairSumTakes(m, t, k);
      PairSumTakes(m, s, 0);
      WithoutFront(s);
    }
  }

  // ---- the lookup agrees with the distance ----

  /** The lookup holds only distances of the council's pairs. */
  lemma {:induction false} LookupIsDistance(pairs: seq<Pair>, agents: seq<Agent>, d: Distance)
    requires IsDistance(d) && PairsAmong(pairs, agents, d)
    ensures forall a, b | (a, b) in DistanceMap(pairs) :: DistanceMap(pairs)[(a, b)] == d(a, b)
  {
    if pairs != [] {
      var n := |pairs| - 1;
      LookupIsDistance(pairs[..n], agents, d);
      assert PairOf(pairs[n], agents, d);
    }
  }

  lemma {:induction false} ListedIsFound(pairs: seq<Pair>, p: Pair)
    requires p in pairs
    ensures (p.a, p.b) in DistanceMap(pairs) && (p.b, p.a) in DistanceMap(pairs)
  {
    var n := |pairs| - 1;
    if pairs[n] != p {
      assert pairs == pairs[..n] + [pairs[n]];
      ListedIsFound(pairs[..n], p);
    }
  }

  lemma {:induction false} PairWithListed(x: Agent, others: seq<Agent>, d: Distance, y: Agent)
    requires y in others
    ensures Pair(x, y, d(x, y)) in PairsWith(x, others, d)
  {
    var n := |others| - 1;
    if others[n] != y {
      assert others == others[..n] + [others[n]];
      PairWithListed(x, others[..n], d, y);
    }
  }

  lemma {:induction false} EveryPairListed(agents: seq<Agent>, d: Distance, x: Agent, y: Agent)
    requires x in agents && y in agents && x != y
    ensures Pair(x, y, d(x, y)) in Pairs(agents, d) || Pair(y, x, d(y, x)) in Pairs(agents, d)
  {
    hide PairsWith;
    var rest := agents[1..];
    assert agents == [agents[0]] + rest;
    if x == agents[0] {
      PairWithListed(x, rest, d, y);
    } else if y == agents[0] {
      PairWithListed(y, rest, d, x);
    } else {
      EveryPairListed(rest, d, x, y);
    }
  }

  lemma LookupOfCouncil(agents: seq<Agent>, d: Distance, x: Agent, y: Agent)
    requires IsDistance(d) && Distinct(agents) && x in agents && y in agents && x != y
    ensures Dist(DistanceMap(Pairs(agents, d)), x, y) == d(x, y)
  {
    hide Pairs, DistanceMap;
    var pairs := Pairs(agents, d);
    PairsAreAmong(agents, d);
    LookupIsDistance(pairs, agents, d);
    EveryPairListed(agents, d, x, y);
    if Pair(x, y, d(x, y)) in pairs {
      ListedIsFound(pairs, Pair(x, y, d(x, y)));
    } else {
      ListedIsFound(pairs, Pair(y, x, d(y, x)));
    }
  }

  // ---- the whole council ----

  lemma {:induction false} RowIsDistanceSum(m: Distances, x: Agent, others: seq<Agent>, d: Distance)
    requires forall y | y in others :: Dist(m, x, y) == d(x, y)
    ensures Sum(AllDistances(PairsWith(x, others, d))) == DistanceSum(m, x, others)
  {
    hide Dist;
    if others != [] {
      var n := |others| - 1;
      RowIsDistanceSum(m, x, others[..n], d);
      var row := PairsWith(x, others, d);
      assert AllDistances(row)[..n] == AllDistances(PairsWith(x, others[..n], d));
    }
  }

  lemma AllDistancesAppend(a: seq<Pair>, b: seq<Pair>)
    ensures Sum(AllDistances(a + b)) == Sum(AllDistances(a)) + Sum(AllDistances(b))
  {
    hide Sum;
    assert AllDistances(a + b) == AllDistances(a) + AllDistances(b);
    SumAppend(AllDistances(a), AllDistances(b));
  }

  ghost predicate Agrees(m: Distances, agents: seq<Agent>, d: Distance) {
    forall x, y | x in agents && y in agents && x != y :: Dist(m, x, y) == d(x, y)
  }

  lemma AgreesOnRest(m: Distances, agents: seq<Agent>, d: Distance)
    requires agents != [] && Distinct(agents) && Agrees(m, agents, d)
    ensures Agrees(m, agents[1..], d) && Distinct(agents[1..])
    ensures forall y | y in agents[1..] :: Dist(m, agents[0], y) == d(agents[0], y)
  {
    hide Dist;
  }

  lemma PairsUnfold(agents: seq<Agent>, d: Distance)
    requires agents != []
    ensures Pairs(agents, d) == PairsWith(agents[0], agents[1..], d) + Pairs(agents[1..], d)
    ensures agents == [agents[0]] + agents[1..]
  {
  }

  lemma {:induction false} PairsAddUp(m: Distances, agents: seq<Agent>, d: Distance)
    requires Symmetric(m) && Distinct(agents) && Agrees(m, agents, d)
    ensures Sum(AllDistances(Pairs(agents, d))) == PairSum(m, agents)
  {
    if agents == [] {
    } else {
      hide *;
      var x, rest := agents[0], agents[1..];
      AgreesOnRest(m, agents, d);
      PairsUnfold(agents, d);
      PairSumFirst(m, x, rest);
      PairsAddUp(m, rest, d);
      RowIsDistanceSum(m, x, rest, d);
      AllDistancesAppend(PairsWith(x, rest, d), Pairs(rest, d));
    }
  }

  lemma CouncilAgrees(agents: seq<Agent>, d: Distance)
    requires IsDistance(d) && Distinct(agents)
    ensures Agrees(DistanceMap(Pairs(agents, d)), agents, d)
  {
    hide DistanceMap, Pairs, Dist, IsDistance, Distinct;
    var m := DistanceMap(Pairs(agents, d));
    forall x, y | x in agents && y in agents && x != y ensures Dist(m, x, y) == d(x, y) {
      LookupOfCouncil(agents, d, x, y);
    }
  }

  /** Over any ordering of the council, the sum over its pairs is the sum of the analysed
      distances. */
  lemma CouncilSum(agents: seq<Agent>, d: Distance, group: seq<Agent>)
    requires IsDistance(d) && Distinct(agents) && multiset(group) == multiset(agents)
    ensures PairSum(DistanceMap(Pairs(agents, d)), group) == Sum(AllDistances(Pairs(agents, d)))
  {
    hide *;
    var m := DistanceMap(Pairs(agents, d));
    DistanceMapSymmetric(Pairs(agents, d));
    CouncilAgrees(agents, d);
    PairsAddUp(m, agents, d);
    PairSumPermuted(m, group, agents);
  }
}
