/** What a dissent report says of the council (maestro/dissent.py:96-185), told of the distances between the
    agents alone. */
module DissentReport {
  import opened Sequences
  import opened Statistics
  import opened Rounding
  import opened Clustering
  import opened Dissent

  /** The distances from agent `i` to the others, in the order of the council. */
  function DistancesTo(agents: seq<Agent>, i: nat, d: Distance): (r: seq<real>)
    requires i < |agents|
  {
    seq(|agents| - 1, k requires 0 <= k < |agents| - 1 =>
      if k < i then d(agents[k], agents[i]) else d(agents[i], agents[k + 1]))
  }

  /** Alone, an agent is at distance zero. */
  function MeanTo(agents: seq<Agent>, i: nat, d: Distance): real
    requires i < |agents|
  {
    if |agents| == 1 then 0.0 else Sum(DistancesTo(agents, i, d)) / (|agents| - 1) as real
  }

  /** The mean over the council of the agents' means. */
  function CouncilMean(agents: seq<Agent>, d: Distance): real {
    if agents == [] then 0.0
    else Sum(seq(|agents|, i requires 0 <= i < |agents| => MeanTo(agents, i, d))) / |agents| as real
  }

  /** Where the pair of agents `i` and `j` stands in the list. */
  function Position(n: nat, i: nat, j: nat): nat
    requires i < j < n
  {
    if i == 0 then j - 1 else n - 1 + Position(n - 1, i - 1, j - 1)
  }

  ghost predicate ListsPairs(pairs: seq<Pair>, agents: seq<Agent>, d: Distance) {
    && 2 * |pairs| == |agents| * (|agents| - 1)
    && forall i, j | 0 <= i < j < |agents| ::
         Position(|agents|, i, j) < |pairs|
         && pairs[Position(|agents|, i, j)] == Pair(agents[i], agents[j], d(agents[i], agents[j]))
  }

  ghost predicate Profiled(p: Profile, agents: seq<Agent>, i: nat, d: Distance)
    requires i < |agents|
  {
    var g := CouncilMean(agents, d);
    && p.name == agents[i] && p.meanDistance == Round4(MeanTo(agents, i, d))
    && (p.isOutlier <==>
          |agents| >= 3 && Round4(MeanTo(agents, i, d)) > if g > 0.0 then g * 1.5 else 0.5)
  }

  /** The outliers are the agents so profiled, in order: `at` are their positions. */
  ghost predicate ListsOutliers(outliers: seq<Agent>, profiles: seq<Profile>, at: seq<nat>) {
    && |at| == |outliers|
    && (forall i, j | 0 <= i < j < |at| :: at[i] < at[j])
    && (forall k | 0 <= k < |at| ::
          at[k] < |profiles| && profiles[at[k]].isOutlier && outliers[k] == profiles[at[k]].name)
    && forall i | 0 <= i < |profiles| && profiles[i].isOutlier :: i in at
  }

  ghost predicate Tells(report: Report, agents: seq<Agent>, d: Distance) {
    var mean := if |agents| < 2 then 0.0 else CouncilMean(agents, d);
    && ListsPairs(report.pairwise, agents, d)
    && |report.profiles| == |agents|
    && (forall i | 0 <= i < |agents| :: Profiled(report.profiles[i], agents, i, d))
    && (exists at :: ListsOutliers(report.outliers, report.profiles, at))
    && report.agreement == Round4(1.0 - mean)
    && (report.level == NoDissent <==> mean < 0.1)
    && (report.level == LowDissent <==> 0.1 <= mean < 0.3)
    && (report.level == ModerateDissent <==> 0.3 <= mean < 0.6)
    && (report.level == HighDissent <==> mean >= 0.6)
  }

  // ---- the pairs ----

  lemma {:induction false} WithAt(x: Agent, others: seq<Agent>, d: Distance, k: nat)
    requires k < |others|
    ensures PairsWith(x, others, d)[k] == Pair(x, others[k], d(x, others[k]))
  {
    if k < |others| - 1 {
      WithAt(x, others[..|others| - 1], d, k);
    }
  }

  lemma {:induction false} PairAt(agents: seq<Agent>, d: Distance, i: nat, j: nat)
    requires i < j < |agents|
    ensures Position(|agents|, i, j) < |Pairs(agents, d)|
    ensures Pairs(agents, d)[Position(|agents|, i, j)] == Pair(agents[i], agents[j], d(agents[i], agents[j]))
  {
    if i == 0 {
      WithAt(agents[0], agents[1..], d, j - 1);
    } else {
      PairAt(agents[1..], d, i - 1, j - 1);
    }
  }

  lemma {:induction false} CountOfPairs(agents: seq<Agent>, d: Distance)
    ensures 2 * |Pairs(agents, d)| == |agents| * (|agents| - 1)
  {
    if agents != [] {
      CountOfPairs(agents[1..], d);
      var n := |agents|;
      assert 2 * (n - 1) + (n - 1) * (n - 2) == n * (n - 1);
    }
  }

  // ---- the rows ----

  lemma {:induction false} FirstRow(h: Agent, others: seq<Agent>, d: Distance)
    requires h !in others
    ensures DistancesOf(PairsWith(h, others, d), h) == seq(|others|, k requires 0 <= k < |others| => d(h, others[k]))
  {
    if others != [] {
      var n := |others| - 1;
      FirstRow(h, others[..n], d);
      assert PairsWith(h, others, d)[..n] == PairsWith(h, others[..n], d);
      assert others[n] in others;
    }
  }

  lemma {:induction false} OthersRow(h: Agent, others: seq<Agent>, d: Distance, i: nat)
    requires h !in others && Distinct(others) && i < |others|
    ensures DistancesOf(PairsWith(h, others, d), others[i]) == [d(h, others[i])]
  {
    var n := |others| - 1;
    var ps := PairsWith(h, others, d);
    assert ps[..n] == PairsWith(h, others[..n], d);
    assert others[n] in others && others == others[..n] + [others[n]];
    if i < n {
      OthersRow(h, others[..n], d, i);
    } else {
      DistancesWith(h, others[..n], d, others[n]);
    }
  }

  lemma {:induction false} RowInOrder(agents: seq<Agent>, d: Distance, i: nat)
    requires Distinct(agents) && i < |agents|
    ensures DistancesOf(Pairs(agents, d), agents[i]) == DistancesTo(agents, i, d)
  {
    hide DistancesOf;
    var h, rest := agents[0], agents[1..];
    DistancesOfAppend(PairsWith(h, rest, d), Pairs(rest, d), agents[i]);
    if i == 0 {
      FirstRow(h, rest, d);
      OneDistanceToEachOther(rest, d, h);
    } else {
      OthersRow(h, rest, d, i - 1);
      RowInOrder(rest, d, i - 1);
    }
  }

  lemma MeanIs(agents: seq<Agent>, d: Distance, i: nat)
    requires Distinct(agents) && i < |agents|
    ensures MeanOf(Pairs(agents, d), agents[i]) == MeanTo(agents, i, d)
  {
    hide DistancesOf, Pairs, Sum;
    RowInOrder(agents, d, i);
  }

  lemma {:induction false} MeansInOrder(pairs: seq<Pair>, agents: seq<Agent>, i: nat)
    requires i < |agents|
    ensures MeansOf(pairs, agents)[i] == MeanOf(pairs, agents[i])
  {
    hide MeanOf;
    if i < |agents| - 1 {
      MeansInOrder(pairs, agents[..|agents| - 1], i);
    }
  }

  lemma CouncilMeanIs(agents: seq<Agent>, d: Distance)
    requires Distinct(agents)
    ensures GroupMean(Pairs(agents, d), agents) == CouncilMean(agents, d)
  {
    hide Pairs, MeanOf, MeansOf, Sum, MeanTo, Distinct;
    var means := seq(|agents|, i requires 0 <= i < |agents| => MeanTo(agents, i, d));
    forall i | 0 <= i < |agents| ensures MeansOf(Pairs(agents, d), agents)[i] == means[i] {
      MeansInOrder(Pairs(agents, d), agents, i);
      MeanIs(agents, d, i);
    }
    assert MeansOf(Pairs(agents, d), agents) == means;
  }

  lemma MeanPairwiseIs(agents: seq<Agent>, d: Distance)
    requires Distinct(agents)
    ensures MeanPairwise(Pairs(agents, d)) == if |agents| < 2 then 0.0 else CouncilMean(agents, d)
  {
    if |agents| < 2 {
      CountOfPairs(agents, d);
      assert Pairs(agents, d) == [];
    } else {
      hide Pairs, MeanPairwise, GroupMean, CouncilMean, Distinct;
      GroupMeanIsMeanPairwise(agents, d);
      CouncilMeanIs(agents, d);
    }
  }

  // ---- the outliers ----

  /** The elements of `s` that satisfy `p` are `picked`, at the positions `at`. */
  ghost predicate PickedAt(s: seq<Agent>, p: Agent -> bool, picked: seq<Agent>, at: seq<nat>) {
    && |at| == |picked|
    && (forall i, j | 0 <= i < j < |at| :: at[i] < at[j])
    && (forall k | 0 <= k < |at| :: at[k] < |s| && p(s[at[k]]) && picked[k] == s[at[k]])
    && forall i | 0 <= i < |s| && p(s[i]) :: i in at
  }

  lemma PickedNext(s: seq<Agent>, x: Agent, p: Agent -> bool, picked: seq<Agent>, at: seq<nat>)
    requires PickedAt(s, p, picked, at)
    ensures if p(x) then PickedAt(s + [x], p, picked + [x], at + [|s|]) else PickedAt(s + [x], p, picked, at)
  {
    if p(x) {
      assert (at + [|s|])[|at|] == |s|;
      forall i | 0 <= i < |s + [x]| && p((s + [x])[i]) ensures i in at + [|s|] {
        if i < |s| { assert i in at; }
      }
    }
  }

  lemma {:induction false} FilterPositions(agents: seq<Agent>, p: Agent -> bool) returns (at: seq<nat>)
    ensures PickedAt(agents, p, Filter(agents, p), at)
  {
    if agents == [] {
      at := [];
    } else {
      hide PickedAt;
      var n := |agents| - 1;
      at := FilterPositions(agents[..n], p);
      PickedNext(agents[..n], agents[n], p, Filter(agents[..n], p), at);
      assert agents == agents[..n] + [agents[n]];
      if p(agents[n]) { at := at + [n]; }
    }
  }

  // ---- the report ----

  lemma ProfilesTell(agents: seq<Agent>, d: Distance, i: nat)
    requires Distinct(agents) && i < |agents|
    ensures Profiled(Analysis(agents, d).profiles[i], agents, i, d)
    ensures Analysis(agents, d).profiles[i].isOutlier <==> OutlierTest(Pairs(agents, d), agents)(agents[i])
  {
    hide Pairs, MeanOf, GroupMean, MeanTo, CouncilMean, Round4, Outliers, Distinct, Mean;
    MeanIs(agents, d, i);
    CouncilMeanIs(agents, d);
  }

  /** The report of a council is what its distances say. */
  lemma AnalysisTells(agents: seq<Agent>, d: Distance)
    requires Distinct(agents)
    ensures Tells(Analysis(agents, d), agents, d)
  {
    hide Pairs, MeanOf, MeanPairwise, Profiled, CouncilMean, Round4, Distinct, Filter, Outlying;
    var report, pairs := Analysis(agents, d), Pairs(agents, d);
    CountOfPairs(agents, d);
    forall i, j | 0 <= i < j < |agents|
      ensures Position(|agents|, i, j) < |pairs|
      ensures pairs[Position(|agents|, i, j)] == Pair(agents[i], agents[j], d(agents[i], agents[j])) {
      PairAt(agents, d, i, j);
    }
    forall i | 0 <= i < |agents|
      ensures Profiled(report.profiles[i], agents, i, d)
      ensures report.profiles[i].name == agents[i]
      ensures report.profiles[i].isOutlier <==> OutlierTest(pairs, agents)(agents[i]) {
      ProfilesTell(agents, d, i);
    }
    MeanPairwiseIs(agents, d);
    var at := FilterPositions(agents, OutlierTest(pairs, agents));
    assert ListsOutliers(report.outliers, report.profiles, at);
  }
}
