/** Internal dissent (maestro/dissent.py): pairwise distances, per-agent means, outliers and the
    dissent level. The text distance itself is a parameter. */
module Dissent {
  import opened Sequences
  import opened Statistics
  import opened Rounding
  import opened Clustering

  type Distance = (Agent, Agent) -> real

  ghost predicate IsDistance(d: Distance) {
    forall a, b :: d(a, b) == d(b, a) && 0.0 <= d(a, b) <= 1.0
  }

  datatype Level = NoDissent | LowDissent | ModerateDissent | HighDissent

  datatype Profile = Profile(name: Agent, meanDistance: real, isOutlier: bool)

  datatype Report = Report(
    agreement: real,
    pairwise: seq<Pair>,
    profiles: seq<Profile>,
    outliers: seq<Agent>,
    level: Level)

  // ---- what the analysis computes ----

  function PairsWith(x: Agent, others: seq<Agent>, d: Distance): (r: seq<Pair>)
    ensures |r| == |others|
  {
    if others == [] then [] else
    var n := |others| - 1;
    PairsWith(x, others[..n], d) + [Pair(x, others[n], d(x, others[n]))]
  }

  /** `combinations(agents, 2)` with the distance of each pair. */
  function Pairs(agents: seq<Agent>, d: Distance): seq<Pair> {
    if agents == [] then [] else PairsWith(agents[0], agents[1..], d) + Pairs(agents[1..], d)
  }

  /** What one pair appends to the list of `x`. */
  function Appended(p: Pair, x: Agent): seq<real> {
    (if p.a == x then [p.distance] else []) + (if p.b == x then [p.distance] else [])
  }

  /** The distances appended to the list of `x`, in order. */
  function DistancesOf(pairs: seq<Pair>, x: Agent): seq<real> {
    if pairs == [] then [] else
    DistancesOf(pairs[..|pairs| - 1], x) + Appended(pairs[|pairs| - 1], x)
  }

  function AllDistances(pairs: seq<Pair>): (r: seq<real>)
    ensures |r| == |pairs|
    ensures forall i | 0 <= i < |r| :: r[i] == pairs[i].distance
  {
    seq(|pairs|, i requires 0 <= i < |pairs| => pairs[i].distance)
  }

  function MeanOf(pairs: seq<Pair>, x: Agent): real {
    Mean(DistancesOf(pairs, x))
  }

  function MeansOf(pairs: seq<Pair>, agents: seq<Agent>): (r: seq<real>)
    ensures |r| == |agents|
  {
    if agents == [] then [] else
    MeansOf(pairs, agents[..|agents| - 1]) + [MeanOf(pairs, agents[|agents| - 1])]
  }

  function GroupMean(pairs: seq<Pair>, agents: seq<Agent>): real {
    Mean(MeansOf(pairs, agents))
  }

  function MeanPairwise(pairs: seq<Pair>): real {
    Mean(AllDistances(pairs))
  }

  function Threshold(groupMean: real): real {
    if groupMean > 0.0 then groupMean * 1.5 else 0.5
  }

  /** The code compares the mean after rounding it to four digits. */
  predicate Outlying(pairs: seq<Pair>, agents: seq<Agent>, x: Agent) {
    |agents| >= 3 && Round4(MeanOf(pairs, x)) > Threshold(GroupMean(pairs, agents))
  }

  function OutlierTest(pairs: seq<Pair>, agents: seq<Agent>): Agent -> bool {
    (x: Agent) => Outlying(pairs, agents, x)
  }

  function Outliers(pairs: seq<Pair>, agents: seq<Agent>): seq<Agent> {
    Filter(agents, OutlierTest(pairs, agents))
  }

  function LevelOf(mean: real): Level {
    if mean < 0.1 then NoDissent
    else if mean < 0.3 then LowDissent
    else if mean < 0.6 then ModerateDissent
    else HighDissent
  }

  function ProfileOf(pairs: seq<Pair>, agents: seq<Agent>, x: Agent): Profile {
    Profile(x, Round4(MeanOf(pairs, x)), Outlying(pairs, agents, x))
  }

  function ProfilesOf(pairs: seq<Pair>, agents: seq<Agent>): seq<Profile> {
    seq(|agents|, i requires 0 <= i < |agents| => ProfileOf(pairs, agents, agents[i]))
  }

  function Analysis(agents: seq<Agent>, d: Distance): Report {
    var pairs := Pairs(agents, d);
    Report(
      Round4(1.0 - MeanPairwise(pairs)), pairs, ProfilesOf(pairs, agents), Outliers(pairs, agents),
      LevelOf(MeanPairwise(pairs)))
  }

  // ---- the shape of the pairs ----

  /** Both ends are different agents of the council, and the distance is theirs. */
  ghost predicate PairOf(p: Pair, agents: seq<Agent>, d: Distance) {
    p.a in agents && p.b in agents && p.a != p.b && p.distance == d(p.a, p.b)
  }

  ghost predicate PairsAmong(pairs: seq<Pair>, agents: seq<Agent>, d: Distance) {
    forall p | p in pairs :: PairOf(p, agents, d)
  }

  lemma {:induction false} PairsWithAmong(x: Agent, others: seq<Agent>, agents: seq<Agent>, d: Distance)
    requires x in agents && forall y | y in others :: y in agents && y != x
    ensures PairsAmong(PairsWith(x, others, d), agents, d)
  {
    if others != [] {
      PairsWithAmong(x, others[..|others| - 1], agents, d);
    }
  }

  lemma {:induction false} PairsAreAmong(agents: seq<Agent>, d: Distance)
    requires Distinct(agents)
    ensures PairsAmong(Pairs(agents, d), agents, d)
  {
    if agents != [] {
      PairsWithAmong(agents[0], agents[1..], agents, d);
      PairsAreAmong(agents[1..], d);
      forall p | p in Pairs(agents[1..], d) ensures PairOf(p, agents, d) {
        assert PairOf(p, agents[1..], d);
      }
    }
  }

  lemma {:induction false} PairsCounted(agents: seq<Agent>, d: Distance)
    ensures |Pairs(agents, d)| as real == PairCount(|agents|)
  {
    if agents == [] {
      assert PairCount(0) == 0.0;
    } else {
      PairsCounted(agents[1..], d);
      PairCountNext(|agents| - 1);
    }
  }

  lemma {:induction false} DistancesOfAppend(a: seq<Pair>, b: seq<Pair>, x: Agent)
    ensures DistancesOf(a + b, x) == DistancesOf(a, x) + DistancesOf(b, x)
  {
    if b == [] {
      assert a + b == a;
    } else {
      var n := |b| - 1;
      assert (a + b)[..|a + b| - 1] == a + b[..n];
      DistancesOfAppend(a, b[..n], x);
    }
  }

  lemma {:induction false} DistancesWith(h: Agent, others: seq<Agent>, d: Distance, x: Agent)
    requires h !in others && Distinct(others)
    ensures |DistancesOf(PairsWith(h, others, d), x)| == if x == h then |others| else if x in others then 1 else 0
  {
    if others != [] {
      var n := |others| - 1;
      DistancesWith(h, others[..n], d, x);
      var ps := PairsWith(h, others, d);
      assert ps[..n] == PairsWith(h, others[..n], d);
      assert others == others[..n] + [others[n]];
    }
  }

  /** Every agent of the council has one distance to each of the others; nobody else has any. */
  lemma {:induction false} OneDistanceToEachOther(agents: seq<Agent>, d: Distance, x: Agent)
    requires Distinct(agents)
    ensures |DistancesOf(Pairs(agents, d), x)| == if x in agents then |agents| - 1 else 0
  {
    if agents != [] {
      var h, rest := agents[0], agents[1..];
      DistancesOfAppend(PairsWith(h, rest, d), Pairs(rest, d), x);
      DistancesWith(h, rest, d, x);
      OneDistanceToEachOther(rest, d, x);
    }
  }

  // ---- double counting ----

  function RowSums(pairs: seq<Pair>, agents: seq<Agent>): (r: seq<real>)
    ensures |r| == |agents|
  {
    if agents == [] then [] else
    RowSums(pairs, agents[..|agents| - 1]) + [Sum(DistancesOf(pairs, agents[|agents| - 1]))]
  }

  function Credit(v: real, x: Agent, agents: seq<Agent>): real {
    if x in agents then v else 0.0
  }

  lemma SumOne(x: real)
    ensures Sum([x]) == x && Sum([]) == 0.0
  {
    assert [x][..0] == [];
  }

  lemma LastRow(pairs: seq<Pair>, x: Agent)
    requires pairs != []
    ensures var p := pairs[|pairs| - 1];
            Sum(DistancesOf(pairs, x)) == Sum(DistancesOf(pairs[..|pairs| - 1], x))
              + (if p.a == x then p.distance else 0.0) + (if p.b == x then p.distance else 0.0)
  {
    var p := pairs[|pairs| - 1];
    SumAppend(DistancesOf(pairs[..|pairs| - 1], x), Appended(p, x));
    SumAppend(if p.a == x then [p.distance] else [], if p.b == x then [p.distance] else []);
    SumOne(p.distance);
  }

  lemma RowSumsNext(pairs: seq<Pair>, agents: seq<Agent>)
    requires agents != []
    ensures Sum(RowSums(pairs, agents))
            == Sum(RowSums(pairs, agents[..|agents| - 1])) + Sum(DistancesOf(pairs, agents[|agents| - 1]))
  {
    hide DistancesOf;
    var n := |agents| - 1;
    assert RowSums(pairs, agents)[..n] == RowSums(pairs, agents[..n]);
  }

  lemma CreditNext(v: real, x: Agent, agents: seq<Agent>)
    requires agents != [] && Distinct(agents)
    ensures Credit(v, x, agents) == Credit(v, x, agents[..|agents| - 1]) + if x == agents[|agents| - 1] then v else 0.0
  {
    assert agents == agents[..|agents| - 1] + [agents[|agents| - 1]];
  }

  lemma {:induction false} LastPairCounted(pairs: seq<Pair>, agents: seq<Agent>)
    requires pairs != [] && Distinct(agents)
    ensures var p := pairs[|pairs| - 1];
            Sum(RowSums(pairs, agents)) == Sum(RowSums(pairs[..|pairs| - 1], agents))
              + Credit(p.distance, p.a, agents) + Credit(p.distance, p.b, agents)
  {
    if agents == [] {
    } else {
      hide DistancesOf, RowSums, Credit, Sum;
      var n := |agents| - 1;
      var p, front := pairs[|pairs| - 1], pairs[..|pairs| - 1];
      LastPairCounted(pairs, agents[..n]);
      LastRow(pairs, agents[n]);
      RowSumsNext(pairs, agents);
      RowSumsNext(front, agents);
      CreditNext(p.distance, p.a, agents);
      CreditNext(p.distance, p.b, agents);
    }
  }

  lemma {:induction false} NothingToSum(agents: seq<Agent>)
    ensures Sum(RowSums([], agents)) == 0.0
  {
    if agents != [] {
      var n := |agents| - 1;
      NothingToSum(agents[..n]);
      assert RowSums([], agents)[..n] == RowSums([], agents[..n]);
    }
  }

  /** Summed over the agents, every pair is counted twice. */
  lemma {:induction false} EveryPairCountedTwice(pairs: seq<Pair>, agents: seq<Agent>, d: Distance)
    requires Distinct(agents) && PairsAmong(pairs, agents, d)
    ensures Sum(RowSums(pairs, agents)) == 2.0 * Sum(AllDistances(pairs))
  {
    hide RowSums, DistancesOf, Distinct;
    if pairs == [] {
      NothingToSum(agents);
    } else {
      var n := |pairs| - 1;
      EveryPairCountedTwice(pairs[..n], agents, d);
      LastPairCounted(pairs, agents);
      assert PairOf(pairs[n], agents, d);
      assert AllDistances(pairs)[..n] == AllDistances(pairs[..n]);
    }
  }

  lemma MeansNext(pairs: seq<Pair>, agents: seq<Agent>)
    requires agents != []
    ensures Sum(MeansOf(pairs, agents))
            == Sum(MeansOf(pairs, agents[..|agents| - 1])) + MeanOf(pairs, agents[|agents| - 1])
  {
    hide MeanOf;
    var n := |agents| - 1;
    assert MeansOf(pairs, agents)[..n] == MeansOf(pairs, agents[..n]);
  }

  lemma RowTimes(pairs: seq<Pair>, x: Agent, k: real)
    requires k > 0.0 && |DistancesOf(pairs, x)| as real == k
    ensures Times(MeanOf(pairs, x), k) == Sum(DistancesOf(pairs, x))
  {
    hide DistancesOf, Mean, Sum;
    MeanTimes(DistancesOf(pairs, x));
  }

  /** Every agent has as many distances. */
  ghost predicate RowsOfLength(pairs: seq<Pair>, agents: seq<Agent>, k: real) {
    forall x | x in agents :: |DistancesOf(pairs, x)| as real == k
  }

  lemma LastRowLength(pairs: seq<Pair>, agents: seq<Agent>, k: real)
    requires agents != [] && RowsOfLength(pairs, agents, k)
    ensures RowsOfLength(pairs, agents[..|agents| - 1], k)
    ensures |DistancesOf(pairs, agents[|agents| - 1])| as real == k
  {
    hide DistancesOf;
    assert agents[|agents| - 1] in agents;
  }

  lemma {:induction false} MeansTimes(pairs: seq<Pair>, agents: seq<Agent>, k: real)
    requires k > 0.0 && RowsOfLength(pairs, agents, k)
    ensures Times(Sum(MeansOf(pairs, agents)), k) == Sum(RowSums(pairs, agents))
  {
    if agents == [] {
    } else {
      hide *;
      var n := |agents| - 1;
      LastRowLength(pairs, agents, k);
      MeansTimes(pairs, agents[..n], k);
      RowTimes(pairs, agents[n], k);
      MeansNext(pairs, agents);
      RowSumsNext(pairs, agents);
      TimesAdds(Sum(MeansOf(pairs, agents[..n])), MeanOf(pairs, agents[n]), k);
    }
  }

  lemma SameProduct(g: real, p: real, c: real)
    requires c > 0.0 && g * c == p * c
    ensures g == p
  {
    CancelPositive(g, p, c);
    CancelPositive(p, g, c);
  }

  lemma EqualByCount(g: real, p: real, n: nat, total: real)
    requires n >= 2 && Times(Times(g, n as real), (n - 1) as real) == 2.0 * total && Times(p, PairCount(n)) == total
    ensures g == p
  {
    var x, y := n as real, (n - 1) as real;
    assert x * y == 2.0 * PairCount(n);
    assert g * (x * y) == 2.0 * total;
    assert p * (x * y) == 2.0 * total;
    SameProduct(g, p, x * y);
  }

  lemma PairCountPositive(n: nat)
    requires n >= 2
    ensures PairCount(n) > 0.0
  {
    assert n * (n - 1) > 0;
  }

  lemma GroupMeanTimes(pairs: seq<Pair>, agents: seq<Agent>)
    ensures Times(GroupMean(pairs, agents), |agents| as real) == Sum(MeansOf(pairs, agents))
  {
    if agents != [] { MeanTimes(MeansOf(pairs, agents)); }
  }

  /** The mean of the agents' mean distances is the mean pairwise distance. */
  lemma GroupMeanIsMeanPairwise(agents: seq<Agent>, d: Distance)
    requires Distinct(agents) && |agents| >= 2
    ensures GroupMean(Pairs(agents, d), agents) == MeanPairwise(Pairs(agents, d))
  {
    hide DistancesOf, RowSums, MeansOf, Pairs, PairCount, Distinct;
    var pairs, n := Pairs(agents, d), |agents|;
    PairsAreAmong(agents, d);
    EveryPairCountedTwice(pairs, agents, d);
    forall x | x in agents ensures |DistancesOf(pairs, x)| == n - 1 { OneDistanceToEachOther(agents, d, x); }
    MeansTimes(pairs, agents, (n - 1) as real);
    PairsCounted(agents, d);
    PairCountPositive(n);
    MeanTimes(AllDistances(pairs));
    GroupMeanTimes(pairs, agents);
    EqualByCount(GroupMean(pairs, agents), MeanPairwise(pairs), n, Sum(AllDistances(pairs)));
  }

  // ---- outliers ----

  lemma {:induction false} DistancesAreDistances(pairs: seq<Pair>, agents: seq<Agent>, d: Distance, x: Agent)
    requires IsDistance(d) && PairsAmong(pairs, agents, d)
    ensures forall i | 0 <= i < |DistancesOf(pairs, x)| :: 0.0 <= DistancesOf(pairs, x)[i] <= 1.0
  {
    if pairs != [] {
      var n := |pairs| - 1;
      DistancesAreDistances(pairs[..n], agents, d, x);
      assert PairOf(pairs[n], agents, d);
      assert 0.0 <= d(pairs[n].a, pairs[n].b) <= 1.0;
    }
  }

  lemma MeanIsDistance(pairs: seq<Pair>, agents: seq<Agent>, d: Distance, x: Agent)
    requires IsDistance(d) && PairsAmong(pairs, agents, d)
    ensures 0.0 <= MeanOf(pairs, x) <= 1.0
  {
    DistancesAreDistances(pairs, agents, d, x);
    if DistancesOf(pairs, x) != [] { MeanBounds(DistancesOf(pairs, x), 0.0, 1.0); }
  }

  /** However the agents are chosen, each chosen one has a mean above `t`. */
  ghost predicate ChosenAbove(pairs: seq<Pair>, agents: seq<Agent>, p: Agent -> bool, t: real) {
    forall x | x in agents && p(x) :: MeanOf(pairs, x) > t
  }

  lemma {:induction false} ChosenAreFew(pairs: seq<Pair>, agents: seq<Agent>, p: Agent -> bool, t: real)
    requires ChosenAbove(pairs, agents, p, t)
    ensures |Filter(agents, p)| <= CountAbove(MeansOf(pairs, agents), t)
  {
    hide MeanOf;
    if agents != [] {
      var n := |agents| - 1;
      ChosenAreFew(pairs, agents[..n], p, t);
      assert MeansOf(pairs, agents)[..n] == MeansOf(pairs, agents[..n]);
    }
  }

  function ExactTest(pairs: seq<Pair>, agents: seq<Agent>): Agent -> bool {
    (x: Agent) => |agents| >= 3 && MeanOf(pairs, x) > Threshold(GroupMean(pairs, agents))
  }

  lemma HalfOf(m: real, g: real)
    requires g >= 0.0
    ensures m >= 0.5 ==> m * g >= 0.5 * g
  {
    if m >= 0.5 { assert (m - 0.5) * g >= 0.0; }
  }

  lemma FewerThanTwoThirds(k: nat, n: nat, g: real)
    requires g > 0.0 && Times(k as real, g * 1.5) < Times(g, n as real)
    ensures 3 * k < 2 * n
  {
    var m := 1.5 * k as real - n as real;
    assert m * g == k as real * (g * 1.5) - g * n as real;
    HalfOf(m, g);
    assert m == 0.0 ==> m * g == 0.0;
  }

  lemma {:induction false} MeansNonNegative(pairs: seq<Pair>, agents: seq<Agent>)
    requires forall x | x in agents :: MeanOf(pairs, x) >= 0.0
    ensures forall i | 0 <= i < |agents| :: MeansOf(pairs, agents)[i] >= 0.0
  {
    hide MeanOf;
    if agents != [] {
      MeansNonNegative(pairs, agents[..|agents| - 1]);
    }
  }

  lemma MeansAreDistances(agents: seq<Agent>, d: Distance)
    requires IsDistance(d) && Distinct(agents)
    ensures forall x :: 0.0 <= MeanOf(Pairs(agents, d), x) <= 1.0
  {
    hide MeanOf, Pairs;
    PairsAreAmong(agents, d);
    forall x ensures 0.0 <= MeanOf(Pairs(agents, d), x) <= 1.0 { MeanIsDistance(Pairs(agents, d), agents, d, x); }
  }

  lemma FewAbove(agents: seq<Agent>, d: Distance, t: real)
    requires IsDistance(d) && Distinct(agents)
    ensures var pairs := Pairs(agents, d);
            var k := CountAbove(MeansOf(pairs, agents), t);
            k <= |agents| && (k > 0 ==> Times(k as real, t) < Times(GroupMean(pairs, agents), |agents| as real))
  {
    hide Pairs, MeanOf, Times, CountAbove, Sum, Mean;
    var pairs := Pairs(agents, d);
    MeansAreDistances(agents, d);
    MeansNonNegative(pairs, agents);
    GroupMeanTimes(pairs, agents);
    Markov(MeansOf(pairs, agents), t);
  }

  lemma NonEmpty(pairs: seq<Pair>, agents: seq<Agent>)
    requires GroupMean(pairs, agents) > 0.0
    ensures |agents| > 0
  {
  }

  lemma ExactChosen(agents: seq<Agent>, d: Distance)
    requires GroupMean(Pairs(agents, d), agents) > 0.0
    ensures var pairs := Pairs(agents, d);
            ChosenAbove(pairs, agents, ExactTest(pairs, agents), GroupMean(pairs, agents) * 1.5)
  {
    hide MeanOf, MeansOf, Pairs, Mean;
  }

  /** Compared exactly, fewer than two thirds of the agents exceed one and a half times a
      positive group mean. */
  lemma ExactOutliersBound(agents: seq<Agent>, d: Distance)
    requires IsDistance(d) && Distinct(agents)
    requires GroupMean(Pairs(agents, d), agents) > 0.0
    ensures 3 * |Filter(agents, ExactTest(Pairs(agents, d), agents))| < 2 * |agents|
  {
    hide *;
    var pairs := Pairs(agents, d);
    var g := GroupMean(pairs, agents);
    ExactChosen(agents, d);
    ChosenAreFew(pairs, agents, ExactTest(pairs, agents), g * 1.5);
    FewAbove(agents, d, g * 1.5);
    var k := CountAbove(MeansOf(pairs, agents), g * 1.5);
    if k > 0 { FewerThanTwoThirds(k, |agents|, g); }
    NonEmpty(pairs, agents);
  }

  lemma OutliersFilter(pairs: seq<Pair>, agents: seq<Agent>)
    ensures Outliers(pairs, agents) == Filter(agents, OutlierTest(pairs, agents))
  {
  }

  lemma RoundsUp()
    ensures Round4(0.0002 / 3.0) == 0.0001 && Round4(0.0) == 0.0
  {
  }

  lemma TimesZero(x: real, y: real)
    ensures Times(x, 0.0) == 0.0 && Times(0.0, y) == 0.0
  {
  }

  lemma PositiveChosen(pairs: seq<Pair>, agents: seq<Agent>)
    requires GroupMean(pairs, agents) == 0.0
    ensures ChosenAbove(pairs, agents, OutlierTest(pairs, agents), 0.0)
  {
    hide MeanOf, GroupMean, Round4;
    RoundsUp();
    forall x | x in agents && Outlying(pairs, agents, x) ensures MeanOf(pairs, x) > 0.0 {
      if MeanOf(pairs, x) <= 0.0 { RoundMonotone(MeanOf(pairs, x), 0.0); }
    }
  }

  /** With no distance anywhere nobody is an outlier. */
  lemma NoDissentNoOutliers(agents: seq<Agent>, d: Distance)
    requires IsDistance(d) && Distinct(agents) && GroupMean(Pairs(agents, d), agents) == 0.0
    ensures Outliers(Pairs(agents, d), agents) == []
  {
    hide *;
    var pairs := Pairs(agents, d);
    FewAbove(agents, d, 0.0);
    TimesZero(CountAbove(MeansOf(pairs, agents), 0.0) as real, |agents| as real);
    PositiveChosen(pairs, agents);
    ChosenAreFew(pairs, agents, OutlierTest(pairs, agents), 0.0);
    OutliersFilter(pairs, agents);
  }

  lemma MeanOfNone()
    ensures Mean([]) == 0.0
  {
  }

  lemma AgreementInUnit(agents: seq<Agent>, d: Distance)
    requires IsDistance(d) && Distinct(agents)
    ensures 0.0 <= MeanPairwise(Pairs(agents, d)) <= 1.0 && 0.0 <= Analysis(agents, d).agreement <= 1.0
  {
    hide Pairs, Mean, Round4, Outliers, ProfilesOf, LevelOf, Distinct;
    var pairs := Pairs(agents, d);
    PairsAreAmong(agents, d);
    assert Mean([]) == 0.0 by { MeanOfNone(); }
    if pairs != [] {
      forall i | 0 <= i < |pairs| ensures 0.0 <= AllDistances(pairs)[i] <= 1.0 {
        assert PairOf(pairs[i], agents, d);
      }
      MeanBounds(AllDistances(pairs), 0.0, 1.0);
    }
    RoundMonotone(0.0, 1.0 - MeanPairwise(pairs));
    RoundMonotone(1.0 - MeanPairwise(pairs), 1.0);
    RoundExact(0);
    RoundExact(10000);
  }

  // ---- the loops ----

  lemma PairsFrom(agents: seq<Agent>, i: nat, d: Distance)
    requires i < |agents|
    ensures Pairs(agents[i..], d) == PairsWith(agents[i], agents[i + 1..], d) + Pairs(agents[i + 1..], d)
  {
    assert agents[i..][1..] == agents[i + 1..];
  }

  lemma NoPairs(d: Distance)
    ensures Pairs([], d) == []
  {
  }

  method ComputePairs(agents: seq<Agent>, d: Distance) returns (pairwise: seq<Pair>)
    ensures pairwise == Pairs(agents, d)
  {
    hide Pairs;
    pairwise := [];
    assert agents[0..] == agents;
    for i := 0 to |agents|
      invariant pairwise + Pairs(agents[i..], d) == Pairs(agents, d)
    {
      PairsFrom(agents, i, d);
      ghost var before := pairwise;
      for j := i + 1 to |agents|
        invariant pairwise == before + PairsWith(agents[i], agents[i + 1..j], d)
      {
        assert agents[i + 1..j + 1][..j - i - 1] == agents[i + 1..j];
        pairwise := pairwise + [Pair(agents[i], agents[j], d(agents[i], agents[j]))];
      }
      assert agents[i + 1..|agents|] == agents[i + 1..];
    }
    NoPairs(d);
    assert agents[|agents|..] == [] && pairwise + [] == pairwise;
  }

  /** The per-agent lists of distances. */
  method CollectDistances(agents: seq<Agent>, pairs: seq<Pair>) returns (m: map<Agent, seq<real>>)
    requires forall p | p in pairs :: p.a in agents && p.b in agents
    ensures forall x | x in agents :: x in m && m[x] == DistancesOf(pairs, x)
  {
    m := map x | x in agents :: [];
    for i := 0 to |pairs|
      invariant forall x | x in agents :: x in m && m[x] == DistancesOf(pairs[..i], x)
    {
      var p := pairs[i];
      assert p in pairs && pairs[..i + 1][..i] == pairs[..i];
      m := m[p.a := m[p.a] + [p.distance]];
      m := m[p.b := m[p.b] + [p.distance]];
    }
    assert pairs[..|pairs|] == pairs;
  }

  method Average(s: seq<real>) returns (mean: real)
    ensures mean == Mean(s)
  {
    if s == [] {
      return 0.0;
    }
    var sum := 0.0;
    for i := 0 to |s|
      invariant sum == Sum(s[..i])
    {
      assert s[..i + 1][..i] == s[..i];
      sum := sum + s[i];
    }
    assert s[..|s|] == s;
    mean := sum / |s| as real;
  }

  lemma MeanOfIs(pairs: seq<Pair>, x: Agent)
    ensures MeanOf(pairs, x) == Mean(DistancesOf(pairs, x))
  {
  }

  /** One profile for each agent, nobody an outlier yet, and the exact means. */
  method BuildProfiles(pairs: seq<Pair>, agents: seq<Agent>, distances: map<Agent, seq<real>>)
    returns (profiles: seq<Profile>, means: seq<real>)
    requires forall x | x in agents :: x in distances && distances[x] == DistancesOf(pairs, x)
    ensures means == MeansOf(pairs, agents) && |profiles| == |agents|
    ensures forall i | 0 <= i < |agents| :: profiles[i] == Profile(agents[i], Round4(MeanOf(pairs, agents[i])), false)
  {
    hide MeanOf, Round4;
    profiles, means := [], [];
    for i := 0 to |agents|
      invariant means == MeansOf(pairs, agents[..i]) && |profiles| == i
      invariant forall k | 0 <= k < i :: profiles[k] == Profile(agents[k], Round4(MeanOf(pairs, agents[k])), false)
    {
      var mean := Average(distances[agents[i]]);
      assert mean == MeanOf(pairs, agents[i]) by { MeanOfIs(pairs, agents[i]); }
      assert agents[..i + 1][..i] == agents[..i];
      means := means + [mean];
      profiles := profiles + [Profile(agents[i], Round4(mean), false)];
    }
    assert agents[..|agents|] == agents;
  }

  lemma FilterNext(agents: seq<Agent>, i: nat, p: Agent -> bool)
    requires i < |agents|
    ensures Filter(agents[..i + 1], p) == Filter(agents[..i], p) + if p(agents[i]) then [agents[i]] else []
  {
    assert agents[..i + 1][..i] == agents[..i];
  }

  lemma {:induction false} FilterNone(agents: seq<Agent>, p: Agent -> bool)
    requires forall x | x in agents :: !p(x)
    ensures Filter(agents, p) == []
  {
    if agents != [] { FilterNone(agents[..|agents| - 1], p); }
  }

  lemma NobodyOutlying(pairs: seq<Pair>, agents: seq<Agent>)
    requires |agents| < 3
    ensures Outliers(pairs, agents) == [] && forall x :: !Outlying(pairs, agents, x)
  {
    var t := OutlierTest(pairs, agents);
    assert forall x :: !t(x);
    FilterNone(agents, t);
  }

  /** The loop that marks the outliers in place. */
  method MarkOutliers(pairs: seq<Pair>, agents: seq<Agent>, blank: seq<Profile>, means: seq<real>)
    returns (profiles: seq<Profile>, outliers: seq<Agent>)
    requires means == MeansOf(pairs, agents) && |blank| == |agents|
    requires forall i | 0 <= i < |agents| :: blank[i] == Profile(agents[i], Round4(MeanOf(pairs, agents[i])), false)
    ensures |profiles| == |agents| && outliers == Outliers(pairs, agents)
    ensures forall i | 0 <= i < |agents| :: profiles[i] == ProfileOf(pairs, agents, agents[i])
  {
    hide MeanOf, Round4, Mean, MeansOf, Filter, Outliers;
    profiles, outliers := blank, [];
    if |agents| < 3 {
      NobodyOutlying(pairs, agents);
      return;
    }
    var groupMean := Average(means);
    var threshold := if groupMean > 0.0 then groupMean * 1.5 else 0.5;
    FilterNone([], OutlierTest(pairs, agents));
    for i := 0 to |agents|
      invariant |profiles| == |agents|
      invariant forall k | 0 <= k < i :: profiles[k] == ProfileOf(pairs, agents, agents[k])
      invariant forall k | i <= k < |agents| :: profiles[k] == blank[k]
      invariant outliers == Filter(agents[..i], OutlierTest(pairs, agents))
    {
      FilterNext(agents, i, OutlierTest(pairs, agents));
      if profiles[i].meanDistance > threshold {
        profiles := profiles[i := profiles[i].(isOutlier := true)];
        outliers := outliers + [profiles[i].name];
      }
    }
    assert agents[..|agents|] == agents;
    OutliersFilter(pairs, agents);
  }

  lemma ProfilesAre(pairs: seq<Pair>, agents: seq<Agent>, profiles: seq<Profile>)
    requires |profiles| == |agents|
    requires forall i | 0 <= i < |agents| :: profiles[i] == ProfileOf(pairs, agents, agents[i])
    ensures profiles == ProfilesOf(pairs, agents)
  {
    hide ProfileOf;
  }

  lemma EndsAreAgents(agents: seq<Agent>, d: Distance)
    requires Distinct(agents)
    ensures forall p | p in Pairs(agents, d) :: p.a in agents && p.b in agents
  {
    PairsAreAmong(agents, d);
    forall p | p in Pairs(agents, d) ensures p.a in agents && p.b in agents { assert PairOf(p, agents, d); }
  }

  lemma AnalysisIs(agents: seq<Agent>, d: Distance)
    ensures var pairs := Pairs(agents, d);
            var mean := Mean(AllDistances(pairs));
            Analysis(agents, d)
            == Report(Round4(1.0 - mean), pairs, ProfilesOf(pairs, agents), Outliers(pairs, agents), LevelOf(mean))
  {
  }

  method Analyze(agents: seq<Agent>, d: Distance) returns (report: Report)
    requires Distinct(agents)
    ensures report == Analysis(agents, d)
  {
    hide *;
    var pairwise := ComputePairs(agents, d);
    EndsAreAgents(agents, d);
    var distances := CollectDistances(agents, pairwise);
    var profiles, means := BuildProfiles(pairwise, agents, distances);
    var outliers;
    profiles, outliers := MarkOutliers(pairwise, agents, profiles, means);
    var mean := Average(AllDistances(pairwise));
    ProfilesAre(pairwise, agents, profiles);
    report := Report(Round4(1.0 - mean), pairwise, profiles, outliers, LevelOf(mean));
    AnalysisIs(agents, d);
  }
}
