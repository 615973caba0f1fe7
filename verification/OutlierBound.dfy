/** How many outliers the rounded comparison of maestro/dissent.py:144-150 allows: exactly, for every
    council size, group mean and number of outliers. */
module OutlierBound {
  import opened Sequences
  import opened Statistics
  import opened Rounding
  import opened Clustering
  import opened Dissent

  /** The mean each of `k` agents would have if they shared the group's total of means evenly. */
  function Share(g: real, n: nat, k: nat): real
    requires k > 0
  {
    g * n as real / k as real
  }

  lemma ShareTimes(g: real, n: nat, k: nat)
    requires k > 0
    ensures Times(Share(g, n, k), k as real) == Times(g, n as real)
    ensures g > 0.0 ==> Share(g, n, k) >= 0.0
  {
    var s := Share(g, n, k);
    assert s * k as real == g * n as real;
    if g > 0.0 {
      assert g * n as real >= 0.0;
      assert s < 0.0 ==> s * k as real < 0.0;
    }
  }

  // ---- so many outliers need the rounding to lift their share above the threshold ----

  lemma TooMany(c: nat, k: nat, t: real, total: real)
    requires c >= k && t >= 0.0 && Times(t, k as real) == total
    ensures Times(c as real, t) >= total
  {
    assert (c - k) as real * t >= 0.0;
    assert c as real * t == k as real * t + (c - k) as real * t;
  }

  /** Of `k` outliers one has a mean of at most the even share. */
  lemma SomeOutlierIsLow(agents: seq<Agent>, d: Distance, k: nat)
    requires IsDistance(d) && Distinct(agents) && k > 0
    requires GroupMean(Pairs(agents, d), agents) > 0.0 && |Outliers(Pairs(agents, d), agents)| >= k
    ensures var pairs := Pairs(agents, d);
            !ChosenAbove(pairs, agents, OutlierTest(pairs, agents), Share(GroupMean(pairs, agents), |agents|, k))
  {
    hide *;
    var pairs := Pairs(agents, d);
    var g := GroupMean(pairs, agents);
    var t := Share(g, |agents|, k);
    if ChosenAbove(pairs, agents, OutlierTest(pairs, agents), t) {
      ChosenAreFew(pairs, agents, OutlierTest(pairs, agents), t);
      OutliersFilter(pairs, agents);
      FewAbove(agents, d, t);
      ShareTimes(g, |agents|, k);
      TooMany(CountAbove(MeansOf(pairs, agents), t), k, t, Times(g, |agents| as real));
      assert false;
    }
  }

  /** Whatever the distances: with `k` outliers or more, the even share rounds above the threshold. */
  lemma OutliersNeedRounding(agents: seq<Agent>, d: Distance, k: nat)
    requires IsDistance(d) && Distinct(agents) && k > 0
    requires GroupMean(Pairs(agents, d), agents) > 0.0 && |Outliers(Pairs(agents, d), agents)| >= k
    ensures var g := GroupMean(Pairs(agents, d), agents); Round4(Share(g, |agents|, k)) > 1.5 * g
  {
    hide Pairs, MeanOf, MeansOf, Mean, Outliers, Filter, Round4, Share;
    SomeOutlierIsLow(agents, d, k);
    var pairs := Pairs(agents, d);
    var t := Share(GroupMean(pairs, agents), |agents|, k);
    var x :| x in agents && Outlying(pairs, agents, x) && MeanOf(pairs, x) <= t;
    RoundMonotone(MeanOf(pairs, x), t);
  }

  // ---- and that much is enough: a group of agents equally far apart ----

  /** Everybody in the group equally far from the others of the group, nobody else from anyone. */
  function EqualDistance(group: seq<Agent>, v: real): Distance {
    (x: Agent, y: Agent) => if x != y && x in group && y in group then v else 0.0
  }

  lemma EqualIsDistance(group: seq<Agent>, v: real)
    requires 0.0 <= v <= 1.0
    ensures IsDistance(EqualDistance(group, v))
  {
  }

  function RowTotal(others: seq<Agent>, d: Distance, x: Agent): real {
    if others == [] then 0.0 else
    var n := |others| - 1;
    RowTotal(others[..n], d, x) + if others[n] == x then 0.0 else d(x, others[n])
  }

  lemma {:induction false} RowTotalAppend(a: seq<Agent>, b: seq<Agent>, d: Distance, x: Agent)
    ensures RowTotal(a + b, d, x) == RowTotal(a, d, x) + RowTotal(b, d, x)
  {
    if b == [] {
      assert a + b == a;
    } else {
      var n := |b| - 1;
      assert (a + b)[..|a + b| - 1] == a + b[..n];
      RowTotalAppend(a, b[..n], d, x);
    }
  }

  lemma {:induction false} RowWithHead(h: Agent, others: seq<Agent>, d: Distance, x: Agent)
    requires IsDistance(d) && h !in others && Distinct(others)
    ensures Sum(DistancesOf(PairsWith(h, others, d), x))
            == if x == h then RowTotal(others, d, h) else if x in others then d(x, h) else 0.0
  {
    if others != [] {
      hide DistancesOf, Sum;
      var n := |others| - 1;
      RowWithHead(h, others[..n], d, x);
      var ps := PairsWith(h, others, d);
      assert ps[..n] == PairsWith(h, others[..n], d);
      LastRow(ps, x);
      assert others == others[..n] + [others[n]];
      assert d(x, h) == d(h, x);
    }
  }

  lemma FirstPairs(agents: seq<Agent>, d: Distance, x: Agent)
    requires agents != []
    ensures agents == [agents[0]] + agents[1..]
    ensures Pairs(agents, d) == PairsWith(agents[0], agents[1..], d) + Pairs(agents[1..], d)
    ensures RowTotal([agents[0]], d, x) == if agents[0] == x then 0.0 else d(x, agents[0])
  {
    assert [agents[0]][..0] == [];
  }

  lemma DistinctRest(agents: seq<Agent>)
    requires agents != [] && Distinct(agents)
    ensures Distinct(agents[1..]) && agents[0] !in agents[1..]
  {
  }

  /** An agent's listed distances add up to those to everybody else. */
  lemma {:induction false} RowSumIsTotal(agents: seq<Agent>, d: Distance, x: Agent)
    requires IsDistance(d) && Distinct(agents)
    ensures Sum(DistancesOf(Pairs(agents, d), x)) == if x in agents then RowTotal(agents, d, x) else 0.0
  {
    if agents == [] {
    } else {
      hide *;
      var h, rest := agents[0], agents[1..];
      DistinctRest(agents);
      FirstPairs(agents, d, x);
      DistancesOfAppend(PairsWith(h, rest, d), Pairs(rest, d), x);
      SumAppend(DistancesOf(PairsWith(h, rest, d), x), DistancesOf(Pairs(rest, d), x));
      RowWithHead(h, rest, d, x);
      RowSumIsTotal(rest, d, x);
      RowTotalAppend([h], rest, d, x);
    }
  }

  /** How many others `x` has in `s`. */
  function Peers(s: seq<Agent>, x: Agent): nat {
    if s == [] then 0 else Peers(s[..|s| - 1], x) + if s[|s| - 1] == x then 0 else 1
  }

  lemma {:induction false} PeersCount(s: seq<Agent>, x: Agent)
    requires Distinct(s)
    ensures Peers(s, x) == if x in s then |s| - 1 else |s|
  {
    if s != [] {
      var n := |s| - 1;
      assert s == s[..n] + [s[n]];
      PeersCount(s[..n], x);
    }
  }

  lemma AddTime(v: real, k: nat)
    ensures Times(v, (k + 1) as real) == Times(v, k as real) + v
  {
  }

  lemma {:induction false} RowInGroup(s: seq<Agent>, group: seq<Agent>, v: real, x: Agent)
    requires x in group && forall y | y in s :: y in group
    ensures RowTotal(s, EqualDistance(group, v), x) == Times(v, Peers(s, x) as real)
  {
    if s == [] {
    } else {
      var n := |s| - 1;
      assert s[n] in s;
      RowInGroup(s[..n], group, v, x);
      AddTime(v, Peers(s[..n], x));
    }
  }

  lemma {:induction false} RowOutside(s: seq<Agent>, group: seq<Agent>, v: real, x: Agent)
    requires x !in group || forall y | y in s :: y !in group
    ensures RowTotal(s, EqualDistance(group, v), x) == 0.0
  {
    if s != [] {
      assert s[|s| - 1] in s;
      RowOutside(s[..|s| - 1], group, v, x);
    }
  }

  lemma GroupAndRest(agents: seq<Agent>, k: nat)
    requires Distinct(agents) && k <= |agents|
    ensures agents == agents[..k] + agents[k..] && Distinct(agents[..k])
    ensures forall y | y in agents[k..] :: y !in agents[..k]
  {
  }

  lemma EqualRow(agents: seq<Agent>, k: nat, v: real, x: Agent)
    requires Distinct(agents) && 2 <= k <= |agents|
    ensures RowTotal(agents, EqualDistance(agents[..k], v), x)
            == if x in agents[..k] then Times(v, (k - 1) as real) else 0.0
  {
    var group, rest := agents[..k], agents[k..];
    GroupAndRest(agents, k);
    hide *;
    RowTotalAppend(group, rest, EqualDistance(group, v), x);
    RowOutside(rest, group, v, x);
    if x in group {
      RowInGroup(group, group, v, x);
      PeersCount(group, x);
    } else {
      RowOutside(group, group, v, x);
    }
  }

  lemma NoMean(n: real)
    ensures Times(0.0, n) == 0.0
  {
  }

  lemma MeanFromSum(pairs: seq<Pair>, x: Agent, n: real, mean: real)
    requires n > 0.0 && |DistancesOf(pairs, x)| as real == n
    requires Sum(DistancesOf(pairs, x)) == Times(mean, n)
    ensures MeanOf(pairs, x) == mean
  {
    hide DistancesOf, Sum;
    var s := DistancesOf(pairs, x);
    MeanTimes(s);
    SameProduct(Mean(s), mean, n);
  }

  /** The mean of every agent, the group being the first `k`. */
  lemma EqualMeans(agents: seq<Agent>, k: nat, v: real, mean: real, x: Agent)
    requires 0.0 <= v <= 1.0 && Distinct(agents) && 2 <= k <= |agents| && x in agents
    requires Times(v, (k - 1) as real) == Times(mean, (|agents| - 1) as real)
    ensures var d := EqualDistance(agents[..k], v);
            MeanOf(Pairs(agents, d), x) == if x in agents[..k] then mean else 0.0
  {
    hide *;
    var d := EqualDistance(agents[..k], v);
    EqualIsDistance(agents[..k], v);
    RowSumIsTotal(agents, d, x);
    OneDistanceToEachOther(agents, d, x);
    EqualRow(agents, k, v, x);
    var n := (|agents| - 1) as real;
    NoMean(n);
    if x in agents[..k] {
      MeanFromSum(Pairs(agents, d), x, n, mean);
    } else {
      MeanFromSum(Pairs(agents, d), x, n, 0.0);
    }
  }

  function Members(s: seq<Agent>, group: seq<Agent>): nat {
    if s == [] then 0 else Members(s[..|s| - 1], group) + if s[|s| - 1] in group then 1 else 0
  }

  lemma {:induction false} MembersOfPrefix(agents: seq<Agent>, k: nat, j: nat)
    requires Distinct(agents) && k <= |agents| && j <= |agents|
    ensures Members(agents[..j], agents[..k]) == if j <= k then j else k
  {
    if j > 0 {
      assert agents[..j][..j - 1] == agents[..j - 1] && agents[..j][j - 1] == agents[j - 1];
      MembersOfPrefix(agents, k, j - 1);
      GroupAndRest(agents, k);
      if j <= k { assert agents[..k][j - 1] == agents[j - 1]; } else { assert agents[k..][j - 1 - k] == agents[j - 1]; }
    }
  }

  lemma {:induction false} MeansAddUp(pairs: seq<Pair>, s: seq<Agent>, group: seq<Agent>, mean: real)
    requires forall x | x in s :: MeanOf(pairs, x) == if x in group then mean else 0.0
    ensures Sum(MeansOf(pairs, s)) == Times(mean, Members(s, group) as real)
  {
    if s == [] {
    } else {
      hide MeanOf, MeansOf, Sum, Times;
      var n := |s| - 1;
      assert s[n] in s;
      MeansAddUp(pairs, s[..n], group, mean);
      MeansNext(pairs, s);
      AddTime(mean, Members(s[..n], group));
    }
  }

  lemma {:induction false} FilterAll(s: seq<Agent>, p: Agent -> bool)
    requires forall x | x in s :: p(x)
    ensures Filter(s, p) == s
  {
    if s != [] {
      assert s[|s| - 1] in s;
      FilterAll(s[..|s| - 1], p);
    }
  }

  lemma FilterPrefix(agents: seq<Agent>, k: nat, p: Agent -> bool)
    requires Distinct(agents) && k <= |agents|
    requires forall x | x in agents :: p(x) <==> x in agents[..k]
    ensures Filter(agents, p) == agents[..k]
  {
    hide Filter, Distinct;
    GroupAndRest(agents, k);
    FilterAppend(agents[..k], agents[k..], p);
    FilterAll(agents[..k], p);
    forall x | x in agents[k..] ensures !p(x) { assert x in agents; }
    FilterNone(agents[k..], p);
  }

  lemma SameTimes(a: real, b: real, n: real)
    requires n > 0.0 && Times(a, n) == Times(b, n)
    ensures a == b
  {
    SameProduct(a, b, n);
  }

  /** The group mean of such a council, and its outliers: the group, exactly when the even share
      rounds above the threshold. */
  lemma EqualGroup(agents: seq<Agent>, k: nat, g: real, v: real)
    requires 0.0 <= v <= 1.0 && g > 0.0 && Distinct(agents) && 2 <= k <= |agents| && |agents| >= 3
    requires Times(v, (k - 1) as real) == Times(Share(g, |agents|, k), (|agents| - 1) as real)
    ensures var pairs := Pairs(agents, EqualDistance(agents[..k], v));
            && GroupMean(pairs, agents) == g
            && (Round4(Share(g, |agents|, k)) > 1.5 * g ==> Outliers(pairs, agents) == agents[..k])
  {
    hide MeanOf, MeansOf, Mean, Sum, Pairs, Times, Share, Filter, Round4, Members, Distinct;
    var n, group, mean := |agents|, agents[..k], Share(g, |agents|, k);
    var pairs := Pairs(agents, EqualDistance(group, v));
    forall x | x in agents ensures MeanOf(pairs, x) == if x in group then mean else 0.0 {
      EqualMeans(agents, k, v, mean, x);
    }
    MeansAddUp(pairs, agents, group, mean);
    assert agents[..n] == agents;
    MembersOfPrefix(agents, k, n);
    GroupMeanTimes(pairs, agents);
    ShareTimes(g, n, k);
    SameTimes(GroupMean(pairs, agents), g, n as real);
    if Round4(mean) > 1.5 * g {
      RoundsUp();
      FilterPrefix(agents, k, OutlierTest(pairs, agents));
    }
  }

  // ---- the exact count ----

  /** Some distances give this council this group mean and so many outliers. */
  ghost predicate Occurs(agents: seq<Agent>, d: Distance, g: real, k: nat) {
    IsDistance(d) && GroupMean(Pairs(agents, d), agents) == g && |Outliers(Pairs(agents, d), agents)| >= k
  }

  lemma QuotientInUnit(x: real, y: real)
    requires 0.0 <= x <= y && y > 0.0
    ensures 0.0 <= x / y <= 1.0
  {
    assert x / y * y == x;
    CancelPositive(0.0, x / y, y);
    CancelPositive(x / y, 1.0, y);
  }

  lemma TimesQuotient(x: real, y: real)
    requires y > 0.0
    ensures Times(x / y, y) == x
  {
  }

  /** The distance within the group. */
  lemma Spread(g: real, n: nat, k: nat) returns (v: real)
    requires g > 0.0 && n >= 3 && 2 <= k && Times(Share(g, n, k), (n - 1) as real) <= (k - 1) as real
    ensures 0.0 <= v <= 1.0 && Times(v, (k - 1) as real) == Times(Share(g, n, k), (n - 1) as real)
  {
    var x, y := Times(Share(g, n, k), (n - 1) as real), (k - 1) as real;
    ShareTimes(g, n, k);
    assert x >= 0.0 by { assert Share(g, n, k) * (n - 1) as real >= 0.0; }
    hide Share, Times;
    v := x / y;
    QuotientInUnit(x, y);
    assert Times(v, y) == x by { TimesQuotient(x, y); }
  }

  lemma MultiplyBy(a: real, b: real, y: real)
    requires a < b && y > 0.0
    ensures a * y < b * y
  {
  }

  lemma SmallShare(t: real, g: real, x: real, y: real)
    requires t >= 0.0 && y > 0.0 && t * x == g * y && t + 0.00005 > 1.5 * g && 1.5 * x - y >= 0.5
    ensures t <= 0.0001 * y
  {
    MultiplyBy(1.5 * g, t + 0.00005, y);
    assert (t + 0.00005) * y == t * y + 0.00005 * y && 1.5 * g * y == 1.5 * (t * x);
    var m := 1.5 * x - y;
    assert t * m == 1.5 * (t * x) - t * y;
    assert t * (m - 0.5) >= 0.0;
    assert t * (m - 0.5) == t * m - 0.5 * t;
  }

  lemma SmallTotal(t: real, x: real, y: real)
    requires 0.0 <= t <= 0.0001 * y && 1.0 <= y <= 6666.0 && 3.0 * x >= 2.0 * y + 1.0
    ensures t * (y - 1.0) <= x - 1.0
  {
    assert t <= 2.0 / 3.0;
    assert (2.0 / 3.0 - t) * (y - 1.0) >= 0.0;
    assert (2.0 / 3.0 - t) * (y - 1.0) == 2.0 / 3.0 * (y - 1.0) - t * (y - 1.0);
  }

  /** A share that rounds above the threshold is small: for more than two thirds of a council of up to
      6666 agents the distances of the matching council fit in [0, 1]. */
  lemma RoundedSharesFit(g: real, n: nat, k: nat)
    requires g > 0.0 && 3 <= n <= 6666 && 2 * n < 3 * k && Round4(Share(g, n, k)) > 1.5 * g
    ensures Times(Share(g, n, k), (n - 1) as real) <= (k - 1) as real
  {
    hide Round4;
    var t, x, y := Share(g, n, k), k as real, n as real;
    RoundNear(t);
    ShareTimes(g, n, k);
    assert t * x == g * y;
    hide Share;
    assert 3.0 * x >= 2.0 * y + 1.0 && 1.5 * x - y >= 0.5;
    SmallShare(t, g, x, y);
    SmallTotal(t, x, y);
  }

  /** In a council of `n` with group mean `g`, `k` or more outliers can occur exactly when the even
      share of the means rounds above the threshold. For `k` up to two thirds, or councils beyond
      6666 agents, the distances of the matching council must fit in [0, 1]. */
  lemma OutlierCountIff(agents: seq<Agent>, g: real, k: nat)
    requires Distinct(agents) && |agents| >= 3 && 2 <= k <= |agents| && g > 0.0
    requires (2 * |agents| < 3 * k && |agents| <= 6666)
             || Times(Share(g, |agents|, k), (|agents| - 1) as real) <= (k - 1) as real
    ensures (exists d :: Occurs(agents, d, g, k)) <==> Round4(Share(g, |agents|, k)) > 1.5 * g
  {
    hide Pairs, MeanOf, MeansOf, Mean, Outliers, Round4, Share, Distinct, GroupMean, IsDistance, Times;
    var t := Share(g, |agents|, k);
    if d :| Occurs(agents, d, g, k) {
      OutliersNeedRounding(agents, d, k);
    }
    if Round4(t) > 1.5 * g {
      if 2 * |agents| < 3 * k && |agents| <= 6666 {
        RoundedSharesFit(g, |agents|, k);
      }
      var v := Spread(g, |agents|, k);
      EqualIsDistance(agents[..k], v);
      EqualGroup(agents, k, g, v);
      assert Occurs(agents, EqualDistance(agents[..k], v), g, k);
    }
  }

  // ---- two thirds ----

  /** The least number of agents above two thirds of `n`. */
  function AboveTwoThirds(n: nat): (k: nat)
    ensures 3 * k > 2 * n && 3 * (k - 1) <= 2 * n && k > 0
  {
    2 * n / 3 + 1
  }

  /** At most two thirds of the agents are outliers unless the even share of the next number rounds
      above the threshold. */
  lemma TwoThirdsUnlessRounded(agents: seq<Agent>, d: Distance)
    requires IsDistance(d) && Distinct(agents) && GroupMean(Pairs(agents, d), agents) > 0.0
    ensures var g := GroupMean(Pairs(agents, d), agents);
            Round4(Share(g, |agents|, AboveTwoThirds(|agents|))) <= 1.5 * g
            ==> 3 * |Outliers(Pairs(agents, d), agents)| <= 2 * |agents|
  {
    hide Pairs, GroupMean, Outliers, Round4, Share, Distinct, IsDistance;
    var k := AboveTwoThirds(|agents|);
    if |Outliers(Pairs(agents, d), agents)| >= k { OutliersNeedRounding(agents, d, k); }
  }

  lemma FromProducts(s: real, g: real, x: real, gx: real, gy: real)
    requires x > 0.0 && s * x == gy && g * x == gx && 1.5 * gx - gy >= 0.00005 * x
    ensures s + 0.00005 <= 1.5 * g
  {
    var p, q := s + 0.00005, 1.5 * g;
    assert p * x == gy + 0.00005 * x && q * x == 1.5 * gx;
    CancelPositive(p, q, x);
  }

  lemma LargeEnough(g: real, n: nat, k: nat)
    requires n > 0 && k > 0 && 3 * k > 2 * n && Times(g, 1.5 * k as real - n as real) >= 0.00005 * k as real
    ensures g > 0.0 && Share(g, n, k) + 0.00005 <= 1.5 * g
  {
    var x, y := k as real, n as real;
    var m := 1.5 * x - y;
    assert m > 0.0;
    assert g <= 0.0 ==> g * m <= 0.0;
    var s := Share(g, n, k);
    assert s * x == g * y;
    assert g * m == 1.5 * (g * x) - g * y;
    FromProducts(s, g, x, g * x, g * y);
  }

  /** As an explicit bound on the group mean, the one the counting gives for each `n`. */
  lemma OutliersBound(agents: seq<Agent>, d: Distance)
    requires IsDistance(d) && Distinct(agents) && agents != []
    requires var k := AboveTwoThirds(|agents|);
             Times(GroupMean(Pairs(agents, d), agents), 1.5 * k as real - |agents| as real) >= 0.00005 * k as real
    ensures 3 * |Outliers(Pairs(agents, d), agents)| <= 2 * |agents|
  {
    hide Pairs, GroupMean, Outliers, Round4, Distinct, IsDistance;
    var n, k := |agents|, AboveTwoThirds(|agents|);
    var g := GroupMean(Pairs(agents, d), agents);
    LargeEnough(g, n, k);
    RoundNear(Share(g, n, k));
    TwoThirdsUnlessRounded(agents, d);
  }

  /** Just below, with real distances: three agents of four, 0.0001 from each other and equal to the
      fourth, are outliers. */
  lemma RoundingMakesOutliers(a: Agent, b: Agent, c: Agent, e: Agent)
    requires Distinct([a, b, c, e])
    ensures var d := EqualDistance([a, b, c], 0.0001);
            var pairs := Pairs([a, b, c, e], d);
            IsDistance(d) && GroupMean(pairs, [a, b, c, e]) == 0.00005 && Outliers(pairs, [a, b, c, e]) == [a, b, c]
  {
    hide Pairs, GroupMean, Outliers, Distinct;
    var agents := [a, b, c, e];
    assert agents[..3] == [a, b, c];
    EqualIsDistance([a, b, c], 0.0001);
    assert Share(0.00005, 4, 3) == 0.0002 / 3.0;
    RoundsUp();
    EqualGroup(agents, 3, 0.00005, 0.0001);
  }
}
