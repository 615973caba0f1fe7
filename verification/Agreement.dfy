/** The quorum (maestro/aggregator.py) and the session grade (maestro/r2.py) drawn from the same
    distances, and what a unanimous council implies for the grade. */
module Agreement {
  import opened Wrappers
  import opened Sequences
  import opened Statistics
  import opened Rounding
  import opened Clustering
  import opened Dissent
  import PairSums
  import Reputation

  const QUORUM_THRESHOLD := 0.66

  datatype Confidence = High | Medium | Low

  datatype Verdict = Verdict(
    confidence: Confidence,
    ratio: real,
    majorityView: Option<string>,
    minorityViews: seq<string>)

  function ConfidenceOf(ratio: real): Confidence {
    if ratio >= QUORUM_THRESHOLD then High else if ratio >= 0.5 then Medium else Low
  }

  function NamesOf(profiles: seq<Profile>): (r: seq<Agent>)
    ensures |r| == |profiles|
  {
    seq(|profiles|, i requires 0 <= i < |profiles| => profiles[i].name)
  }

  /** `resp_dict.get(agent, "")`. */
  function View(responses: map<Agent, string>, a: Agent): string {
    if a in responses then responses[a] else ""
  }

  function Views(responses: map<Agent, string>, agents: seq<Agent>): (r: seq<string>)
    ensures |r| == |agents|
  {
    seq(|agents|, i requires 0 <= i < |agents| => View(responses, agents[i]))
  }

  function RatioOf(largest: seq<Agent>, agents: seq<Agent>): real {
    if |agents| > 0 then |largest| as real / |agents| as real else 0.0
  }

  function MajorityOf(report: Report): (seq<Agent>, seq<Agent>) {
    Majority(Clusters(DistanceMap(report.pairwise), NamesOf(report.profiles)))
  }

  function VerdictOn(report: Report, responses: map<Agent, string>): Verdict {
    var (largest, minority) := MajorityOf(report);
    var ratio := RatioOf(largest, NamesOf(report.profiles));
    Verdict(
      ConfidenceOf(ratio), ratio,
      if largest == [] then None else Some(View(responses, largest[0])),
      Views(responses, minority))
  }

  // ---- what a verdict says ----

  /** What `a` answered, as far as it is known. */
  predicate Answered(responses: map<Agent, string>, a: Agent, view: string) {
    if a in responses then view == responses[a] else view == ""
  }

  function HasLength(n: nat): Cluster -> bool {
    (c: Cluster) => |c.members| == n
  }

  /** The largest cluster and the others: it is the first of the longest, and the minority are the members
      of the others, longer ones first and equally long ones as they were found. */
  ghost predicate Split(cs: seq<Cluster>, largest: seq<Agent>, minority: seq<Agent>) {
    exists k: nat, others: seq<Cluster> ::
      && k < |cs| && cs[k].members == largest
      && (forall i | 0 <= i < |cs| :: |cs[i].members| <= |largest|)
      && (forall i | 0 <= i < k :: |cs[i].members| < |largest|)
      && minority == Flatten(others)
      && (forall i, j | 0 <= i < j < |others| :: |others[i].members| >= |others[j].members|)
      && forall n: nat :: Filter(others, HasLength(n)) == Filter(Without(cs, k), HasLength(n))
  }

  /** The verdict is about these two lists: ratio, confidence and views. */
  ghost predicate Reports(verdict: Verdict, agents: seq<Agent>, largest: seq<Agent>, minority: seq<Agent>,
        responses: map<Agent, string>)
  {
    && multiset(largest) + multiset(minority) == multiset(agents)
    && verdict.ratio * |agents| as real == |largest| as real
    && (verdict.confidence == High <==> verdict.ratio >= 0.66)
    && (verdict.confidence == Medium <==> 0.5 <= verdict.ratio < 0.66)
    && (verdict.confidence == Low <==> verdict.ratio < 0.5)
    && largest != [] && verdict.majorityView.Some? && Answered(responses, largest[0], verdict.majorityView.value)
    && |verdict.minorityViews| == |minority|
    && forall i | 0 <= i < |minority| :: Answered(responses, minority[i], verdict.minorityViews[i])
  }

  lemma FilterSnoc(cs: seq<Cluster>, c: Cluster, p: Cluster -> bool)
    ensures Filter(cs + [c], p) == Filter(cs, p) + if p(c) then [c] else []
  {
    assert (cs + [c])[..|cs|] == cs;
  }

  lemma {:induction false} InsertedOfLength(cs: seq<Cluster>, c: Cluster, n: nat)
    ensures Filter(InsertByLength(cs, c), HasLength(n))
            == Filter(cs, HasLength(n)) + if HasLength(n)(c) then [c] else []
  {
    hide Filter, InsertByLength;
    InsertUnfolds(cs, c);
    if cs == [] {
      FilterSnoc([], c, HasLength(n));
      assert [] + [c] == [c];
    } else {
      var last := |cs| - 1;
      assert cs == cs[..last] + [cs[last]];
      if |cs[last].members| < |c.members| {
        InsertedOfLength(cs[..last], c, n);
        FilterSnoc(InsertByLength(cs[..last], c), cs[last], HasLength(n));
        FilterSnoc(cs[..last], cs[last], HasLength(n));
      } else {
        FilterSnoc(cs, c, HasLength(n));
      }
    }
  }

  /** Sorting by length keeps the clusters of each length in their order. */
  lemma {:induction false} SortIsStable(cs: seq<Cluster>, n: nat)
    ensures Filter(SortByLength(cs), HasLength(n)) == Filter(cs, HasLength(n))
  {
    hide InsertByLength;
    if cs != [] {
      SortIsStable(cs[..|cs| - 1], n);
      InsertedOfLength(SortByLength(cs[..|cs| - 1]), cs[|cs| - 1], n);
    }
  }

  lemma FilterOne(c: Cluster, p: Cluster -> bool)
    ensures Filter([c], p) == if p(c) then [c] else []
  {
    assert [c][..0] == [];
  }

  lemma {:induction false} NoneSoLong(cs: seq<Cluster>, p: Cluster -> bool)
    requires forall i | 0 <= i < |cs| :: !p(cs[i])
    ensures Filter(cs, p) == []
  {
    if cs != [] {
      NoneSoLong(cs[..|cs| - 1], p);
    }
  }

  /** Without the first of the longest, the clusters of each length are the rest of the sorted ones. */
  lemma RestOfLength(cs: seq<Cluster>, k: nat, sorted: seq<Cluster>, n: nat)
    requires k < |cs| && sorted != [] && sorted[0] == cs[k]
    requires forall i | 0 <= i < k :: |cs[i].members| < |cs[k].members|
    requires Filter(sorted, HasLength(n)) == Filter(cs, HasLength(n))
    ensures Filter(sorted[1..], HasLength(n)) == Filter(Without(cs, k), HasLength(n))
  {
    hide Filter;
    var p, c := HasLength(n), cs[k];
    assert sorted == [c] + sorted[1..] && cs == cs[..k] + ([c] + cs[k + 1..]);
    assert Without(cs, k) == cs[..k] + cs[k + 1..];
    FilterAppend([c], sorted[1..], p);
    FilterAppend(cs[..k], [c] + cs[k + 1..], p);
    FilterAppend([c], cs[k + 1..], p);
    FilterAppend(cs[..k], cs[k + 1..], p);
    FilterOne(c, p);
    var a, b, before := Filter(sorted[1..], p), Filter(cs[k + 1..], p), Filter(cs[..k], p);
    if p(c) {
      NoneSoLong(cs[..k], p);
      assert ([c] + a)[1..] == a && ([c] + b)[1..] == b && before + b == b && before + ([c] + b) == [c] + b;
    } else {
      assert [] + a == a && [] + b == b;
    }
  }

  lemma RestInOrder(cs: seq<Cluster>)
    requires cs != []
    ensures var sorted := SortByLength(cs);
            Split(cs, sorted[0].members, Flatten(sorted[1..]))
  {
    hide Flatten, Without, SortByLength, Filter;
    SortedHead(cs);
    var sorted := SortByLength(cs);
    var k :| 0 <= k < |cs| && cs[k] == sorted[0]
             && (forall i | 0 <= i < |cs| :: |cs[i].members| <= |sorted[0].members|)
             && (forall i | 0 <= i < k :: |cs[i].members| < |sorted[0].members|);
    forall n: nat ensures Filter(sorted[1..], HasLength(n)) == Filter(Without(cs, k), HasLength(n)) {
      SortIsStable(cs, n);
      RestOfLength(cs, k, sorted, n);
    }
  }

  lemma RatioTimes(largest: seq<Agent>, agents: seq<Agent>)
    requires agents != []
    ensures RatioOf(largest, agents) * |agents| as real == |largest| as real
  {
  }

  lemma NonEmptyMajority(m: Distances, agents: seq<Agent>)
    requires agents != []
    ensures Majority(Clusters(m, agents)).0 != []
  {
    hide Clusters, Tight, Flatten, AllClosed;
    ClustersMean(m, agents);
    var cs := Clusters(m, agents);
    assert SortByLength(cs)[0] in multiset(SortByLength(cs));
  }

  lemma VerdictReports(report: Report, responses: map<Agent, string>)
    requires report.profiles != []
    ensures var agents := NamesOf(report.profiles);
            var cs := Clusters(DistanceMap(report.pairwise), agents);
            exists largest, minority ::
              && Split(cs, largest, minority)
              && Reports(VerdictOn(report, responses), agents, largest, minority, responses)
  {
    hide Clusters, DistanceMap, SortByLength, Flatten, FirstLongest, Tight, Without, Split, RatioOf;
    var agents := NamesOf(report.profiles);
    var cs := Clusters(DistanceMap(report.pairwise), agents);
    var (largest, minority) := MajorityOf(report);
    MajorityMeans(DistanceMap(report.pairwise), agents);
    ClustersMean(DistanceMap(report.pairwise), agents);
    RestInOrder(cs);
    RatioTimes(largest, agents);
    assert largest != [] by { NonEmptyMajority(DistanceMap(report.pairwise), agents); }
    assert Reports(VerdictOn(report, responses), agents, largest, minority, responses);
  }

  lemma NobodyAgrees(report: Report, responses: map<Agent, string>)
    requires report.profiles == []
    ensures VerdictOn(report, responses) == Verdict(Low, 0.0, None, [])
  {
    hide DistanceMap;
    assert Clusters(DistanceMap(report.pairwise), []) == [];
  }

  /** The semantic branch: there are pairwise distances. */
  method AnalyzeAgreement(responses: map<Agent, string>, report: Report) returns (verdict: Verdict)
    requires report.pairwise != [] && Distinct(NamesOf(report.profiles))
    ensures verdict == VerdictOn(report, responses)
    ensures report.profiles == [] ==> verdict == Verdict(Low, 0.0, None, [])
    ensures report.profiles != [] ==>
              exists largest, minority ::
                && Split(Clusters(DistanceMap(report.pairwise), NamesOf(report.profiles)), largest, minority)
                && Reports(verdict, NamesOf(report.profiles), largest, minority, responses)
  {
    hide Majority, Clusters, DistanceMap, Split, Reports;
    if report.profiles != [] {
      VerdictReports(report, responses);
    } else {
      NobodyAgrees(report, responses);
    }
    var agents := NamesOf(report.profiles);
    var largest, minority := ClusterBySimilarity(agents, report.pairwise);
    var total := |agents|;
    var ratio := if total > 0 then |largest| as real / total as real else 0.0;
    var majorityView: Option<string> := None;
    if largest != [] {
      majorityView := Some(View(responses, largest[0]));
    }
    var minorityViews := Views(responses, minority);
    var confidence;
    if ratio >= QUORUM_THRESHOLD {
      confidence := High;
    } else if ratio >= 0.5 {
      confidence := Medium;
    } else {
      confidence := Low;
    }
    verdict := Verdict(confidence, ratio, majorityView, minorityViews);
  }

  // ---- the session grade ----

  datatype Drift = Drift(distance: real, silentCollapse: bool, compressionAlert: bool)

  datatype Flag =
    | SilentCollapse | CompressionAlert | OutliersDetected | SuspiciousConsensus | HighInternalDissent | QuorumNotMet

  datatype Grade = Strong | Acceptable | Weak | Suspicious

  datatype Score = Score(grade: Grade, confidence: real, quorumMet: bool, silentCollapse: bool, flags: seq<Flag>)

  function DriftOf(drift: Option<Drift>): Drift {
    match drift case Some(d) => d case None => Drift(0.0, false, false)
  }

  predicate Suspect(report: Report, drift: Drift) {
    report.agreement > 0.9 && drift.distance > 0.5
  }

  predicate QuorumMet(confidence: Confidence) {
    confidence == High || confidence == Medium
  }

  predicate Raises(flag: Flag, report: Report, drift: Drift, confidence: Confidence) {
    match flag
    case SilentCollapse => drift.silentCollapse
    case CompressionAlert => drift.compressionAlert
    case OutliersDetected => report.outliers != []
    case SuspiciousConsensus => Suspect(report, drift)
    case HighInternalDissent => report.level == HighDissent
    case QuorumNotMet => !QuorumMet(confidence)
  }

  function GradeOf(report: Report, drift: Drift, confidence: Confidence, flags: seq<Flag>): Grade {
    if drift.silentCollapse || Suspect(report, drift) then Suspicious
    else if !QuorumMet(confidence) || report.level == HighDissent then Weak
    else if flags != [] then Acceptable
    else Strong
  }

  function Clamp(x: real): real {
    if x < 0.0 then 0.0 else if x > 1.0 then 1.0 else x
  }

  function Weighted(report: Report, drift: Option<Drift>, confidence: Confidence): real {
    var base := report.agreement * 0.4
                + (if drift.Some? then (1.0 - drift.value.distance) * 0.3 else 0.3)
                + (if QuorumMet(confidence) then 0.3 else 0.0);
    if DriftOf(drift).silentCollapse then base * 0.5 else base
  }

  method RaiseFlags(report: Report, drift: Drift, quorumMet: bool) returns (flags: seq<Flag>)
    ensures forall f :: f in flags <==> Raises(f, report, drift, if quorumMet then High else Low)
  {
    flags := [];
    if drift.silentCollapse {
      flags := flags + [SilentCollapse];
    }
    if drift.compressionAlert {
      flags := flags + [CompressionAlert];
    }
    if report.outliers != [] {
      flags := flags + [OutliersDetected];
    }
    if report.agreement > 0.9 && drift.distance > 0.5 {
      flags := flags + [SuspiciousConsensus];
    }
    if report.level == HighDissent {
      flags := flags + [HighInternalDissent];
    }
    if !quorumMet {
      flags := flags + [QuorumNotMet];
    }
  }

  /** A strong session is one with nothing flagged: no other grade comes without a flag. */
  lemma StrongIffUnflagged(report: Report, drift: Drift, confidence: Confidence, flags: seq<Flag>)
    requires forall f :: f in flags <==> Raises(f, report, drift, confidence)
    ensures GradeOf(report, drift, confidence, flags) == Strong <==> flags == []
  {
    if flags == [] {
      assert !Raises(SilentCollapse, report, drift, confidence);
      assert !Raises(SuspiciousConsensus, report, drift, confidence);
      assert !Raises(HighInternalDissent, report, drift, confidence);
      assert !Raises(QuorumNotMet, report, drift, confidence);
    }
  }

  /** A clamped, rounded number: `x` where it is between zero and one. */
  ghost predicate ClampedTo(r: real, x: real) {
    r == Round4(if 0.0 <= x <= 1.0 then x else if x < 0.0 then 0.0 else 1.0)
  }

  /** What a session's score says, in terms of what was measured. */
  ghost predicate Grades(score: Score, report: Report, drift: Option<Drift>, confidence: Confidence) {
    var collapsed := drift.Some? && drift.value.silentCollapse;
    var suspect := report.agreement > 0.9 && drift.Some? && drift.value.distance > 0.5;
    var quorum := confidence != Low;
    var high := report.level == HighDissent;
    var base := 0.4 * report.agreement + (if drift.None? then 0.3 else 0.3 * (1.0 - drift.value.distance))
                + if quorum then 0.3 else 0.0;
    && (SilentCollapse in score.flags <==> collapsed)
    && (CompressionAlert in score.flags <==> drift.Some? && drift.value.compressionAlert)
    && (OutliersDetected in score.flags <==> report.outliers != [])
    && (SuspiciousConsensus in score.flags <==> suspect)
    && (HighInternalDissent in score.flags <==> high)
    && (QuorumNotMet in score.flags <==> !quorum)
    && (score.grade == Suspicious <==> collapsed || suspect)
    && (score.grade == Weak <==> !collapsed && !suspect && (high || !quorum))
    && (score.grade == Strong <==> score.flags == [])
    && ClampedTo(score.confidence, if collapsed then base / 2.0 else base)
    && score.quorumMet == quorum && score.silentCollapse == collapsed
  }

  lemma ScoreGrades(score: Score, report: Report, drift: Option<Drift>, confidence: Confidence)
    requires forall f :: f in score.flags <==> Raises(f, report, DriftOf(drift), confidence)
    requires score.grade == GradeOf(report, DriftOf(drift), confidence, score.flags)
    requires score.confidence == Round4(Clamp(Weighted(report, drift, confidence)))
    requires score.quorumMet == QuorumMet(confidence) && score.silentCollapse == DriftOf(drift).silentCollapse
    ensures Grades(score, report, drift, confidence)
  {
    hide Round4;
    StrongIffUnflagged(report, DriftOf(drift), confidence, score.flags);
  }

  /** The flags are exactly the signals raised; grade and confidence follow from them. */
  method ScoreSession(report: Report, drift: Option<Drift>, confidence: Confidence) returns (score: Score)
    ensures forall f :: f in score.flags <==> Raises(f, report, DriftOf(drift), confidence)
    ensures Grades(score, report, drift, confidence)
    ensures score.grade == GradeOf(report, DriftOf(drift), confidence, score.flags)
    ensures score.confidence == Round4(Clamp(Weighted(report, drift, confidence)))
    ensures score.quorumMet == QuorumMet(confidence) && score.silentCollapse == DriftOf(drift).silentCollapse
  {
    hide Round4;
    var signals := DriftOf(drift);
    var quorumMet := QuorumMet(confidence);
    var flags := RaiseFlags(report, signals, quorumMet);
    var grade;
    if signals.silentCollapse || (report.agreement > 0.9 && signals.distance > 0.5) {
      grade := Suspicious;
    } else if !quorumMet || report.level == HighDissent {
      grade := Weak;
    } else if flags != [] {
      grade := Acceptable;
    } else {
      grade := Strong;
    }
    var base := report.agreement * 0.4;
    if drift.Some? {
      base := base + (1.0 - drift.value.distance) * 0.3;
    } else {
      base := base + 0.3;
    }
    base := base + if quorumMet then 0.3 else 0.0;
    if signals.silentCollapse {
      base := base * 0.5;
    }
    score := Score(grade, Round4(Clamp(base)), quorumMet, signals.silentCollapse, flags);
    ScoreGrades(score, report, drift, confidence);
  }

  // ---- what a node earns ----

  function GradeScore(grade: Grade): real {
    match grade case Strong => 1.0 case Acceptable => 0.7 case Weak => 0.4 case Suspicious => 0.1
  }

  /** `score_node_contribution`. */
  function Contribution(grade: Grade, silentCollapse: bool): real {
    Round4(if silentCollapse then GradeScore(grade) * 0.5 else GradeScore(grade))
  }

  /** What each grade earns, and half of it after a silent collapse. */
  lemma ContributionIs(grade: Grade, silentCollapse: bool)
    ensures var whole := if grade == Strong then 1.0 else if grade == Acceptable then 0.7
                         else if grade == Weak then 0.4 else 0.1;
            Contribution(grade, silentCollapse) == if silentCollapse then whole / 2.0 else whole
  {
    hide Round4;
    RoundExact(10000);
    RoundExact(7000);
    RoundExact(4000);
    RoundExact(1000);
    RoundExact(5000);
    RoundExact(3500);
    RoundExact(2000);
    RoundExact(500);
  }

  /** What a session earns a node always fits the range the reputation formula relies on, and a
      session that collapsed silently earns 0.05, whatever else it did. */
  lemma ContributionInUnit(report: Report, drift: Drift, confidence: Confidence, flags: seq<Flag>)
    ensures var g := GradeOf(report, drift, confidence, flags);
            && Reputation.InUnit(Contribution(g, drift.silentCollapse))
            && (drift.silentCollapse ==> Contribution(g, drift.silentCollapse) == 0.05)
            && (g == Strong <==> Contribution(g, drift.silentCollapse) == 1.0)
  {
    RoundExact(500);
    RoundExact(1000);
    RoundExact(4000);
    RoundExact(7000);
    RoundExact(10000);
  }

  // ---- quorum, dissent and grade over one council ----

  lemma NamesOfAnalysis(agents: seq<Agent>, d: Distance)
    ensures NamesOf(Analysis(agents, d).profiles) == agents
  {
    hide Round4, MeanOf, Outlying, Outliers, Pairs;
    var names := NamesOf(ProfilesOf(Pairs(agents, d), agents));
    assert |names| == |agents|;
    assert forall i | 0 <= i < |agents| :: names[i] == agents[i];
  }

  lemma DivideToOne(x: real, n: real)
    requires n > 0.0
    ensures x / n == 1.0 <==> x == n
  {
    var q := x / n;
    assert q * n == x;
    assert n / n == 1.0;
    assert q == 1.0 ==> q * n == n;
  }

  lemma RatioOne(largest: seq<Agent>, agents: seq<Agent>)
    requires agents != []
    ensures RatioOf(largest, agents) == 1.0 <==> |largest| == |agents|
  {
    DivideToOne(|largest| as real, |agents| as real);
  }

  lemma EverybodyInOne(largest: seq<Agent>, minority: seq<Agent>, agents: seq<Agent>)
    requires multiset(largest) + multiset(minority) == multiset(agents) && |largest| == |agents|
    ensures multiset(largest) == multiset(agents) && minority == []
  {
    assert |multiset(largest)| + |multiset(minority)| == |multiset(agents)|;
    assert |minority| == 0;
  }

  lemma MeanBelowThreshold(s: seq<real>, n: real)
    requires |s| as real == n > 0.0 && Sum(s) < 0.5 * n
    ensures Mean(s) < 0.5
  {
    hide Sum;
    var mean := Mean(s);
    assert mean * n == Sum(s);
    CancelStrict(mean, 0.5, n);
  }

  /** If the whole council of two or more is one cluster, its mean pairwise distance is below the
      similarity threshold. */
  lemma UnanimousMeansClose(agents: seq<Agent>, d: Distance)
    requires IsDistance(d) && Distinct(agents) && |agents| >= 2
    requires RatioOf(MajorityOf(Analysis(agents, d)).0, agents) == 1.0
    ensures MeanPairwise(Pairs(agents, d)) < SIMILARITY_THRESHOLD
  {
    hide Pairs, DistanceMap, Clusters, Majority, PairSum, PairCount, Sum, Mean, Distinct, RatioOf, Outliers,
          ProfilesOf, Round4;
    var pairs := Pairs(agents, d);
    var m := DistanceMap(pairs);
    NamesOfAnalysis(agents, d);
    MajorityMeans(m, agents);
    var (largest, minority) := Majority(Clusters(m, agents));
    RatioOne(largest, agents);
    EverybodyInOne(largest, minority, agents);
    PairSums.CouncilSum(agents, d, largest);
    PairsCounted(agents, d);
    PairCountPositive(|agents|);
    MeanBelowThreshold(AllDistances(pairs), PairCount(|agents|));
  }

  /** A unanimous council is never highly dissenting, has its quorum on both readings, and is
      never graded weak, whatever the drift. */
  lemma UnanimousNeverWeak(agents: seq<Agent>, d: Distance, responses: map<Agent, string>, drift: Drift,
        flags: seq<Flag>)
    requires IsDistance(d) && Distinct(agents) && |agents| >= 2
    requires VerdictOn(Analysis(agents, d), responses).ratio == 1.0
    ensures var report := Analysis(agents, d);
            var verdict := VerdictOn(report, responses);
            && report.level != HighDissent && verdict.confidence == High && verdict.minorityViews == []
            && GradeOf(report, drift, verdict.confidence, flags) != Weak
  {
    hide Pairs, DistanceMap, Clusters, Majority, Mean, Distinct, Outliers, ProfilesOf, Round4, RatioOf;
    var pairs := Pairs(agents, d);
    NamesOfAnalysis(agents, d);
    UnanimousMeansClose(agents, d);
    MajorityMeans(DistanceMap(pairs), agents);
    var (largest, minority) := Majority(Clusters(DistanceMap(pairs), agents));
    RatioOne(largest, agents);
    EverybodyInOne(largest, minority, agents);
  }

  /** The aggregator's `quorum_met` and the grade's disagree exactly for a ratio from one half up
      to the quorum threshold. */
  lemma QuorumsDisagreeIff(ratio: real)
    ensures (ratio >= QUORUM_THRESHOLD) != QuorumMet(ConfidenceOf(ratio)) <==> 0.5 <= ratio < QUORUM_THRESHOLD
  {
  }
}
