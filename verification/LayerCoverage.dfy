/** Layer coverage as the topology endpoint and the shard manager compute it
    (maestro/api_storage.py, maestro/shard_manager.py): a set of layers, its ranges, its gaps. */
module LayerCoverage {
  import opened Intervals
  import opened Pipeline

  // ---- sorting a set of layers ----

  ghost predicate Increasing(s: seq<int>) {
    forall i, j | 0 <= i < j < |s| :: s[i] < s[j]
  }

  lemma EmptyOrNot(s: set<int>)
    ensures s == {} || exists x :: x in s
  {
    if forall x :: x !in s { assert s == {}; }
  }

  lemma {:induction false} SomeLeast(s: set<int>) returns (m: int)
    requires s != {}
    ensures m in s && forall x | x in s :: m <= x
    decreases |s|
  {
    EmptyOrNot(s);
    m :| m in s;
    var rest := s - {m};
    if rest != {} {
      var n := SomeLeast(rest);
      assert forall x | x in s :: x == m || x in rest;
      if n < m { m := n; }
    }
  }

  lemma LeastExists(s: set<int>)
    requires s != {}
    ensures exists m :: m in s && forall x | x in s :: m <= x
  {
    var m := SomeLeast(s);
  }

  function Least(s: set<int>): (m: int)
    requires s != {}
    ensures m in s && forall x | x in s :: m <= x
  {
    LeastExists(s);
    var m :| m in s && forall x | x in s :: m <= x;
    m
  }

  /** `sorted(layers)`. */
  function SortedLayers(layers: set<int>): (r: seq<int>)
    ensures Increasing(r)
    ensures forall x :: x in r <==> x in layers
    ensures |r| == |layers|
    decreases |layers|
  {
    if layers == {} then [] else
    var m := Least(layers);
    [m] + SortedLayers(layers - {m})
  }

  /** `max(layers)`. */
  function Greatest(layers: set<int>): (m: int)
    requires layers != {}
    ensures m in layers && forall x | x in layers :: x <= m
  {
    var s := SortedLayers(layers);
    s[|s| - 1]
  }

  // ---- ranges ----

  /** Maximal runs of consecutive layers of an increasing list. */
  function Ranges(s: seq<int>): seq<Interval> {
    if s == [] then [] else
    var n := |s| - 1;
    var r := Ranges(s[..n]);
    if r != [] && s[n] == r[|r| - 1].hi + 1
    then r[..|r| - 1] + [Interval(r[|r| - 1].lo, s[n])]
    else r + [Interval(s[n], s[n])]
  }

  function LayersOf(s: seq<int>): set<int> {
    set x | x in s
  }

  lemma NothingCanonical()
    ensures Canonical([], {})
  {
    var none: seq<Interval> := [];
    assert forall x :: !InRanges(none, x);
  }

  lemma SameButLast(r: seq<Interval>, t: seq<Interval>, last: nat, layers: set<int>, x: int)
    requires Canonical(r, layers) && Separated(t) && |t| == last + 1 && last <= |r| <= last + 1
    requires r[..last] == t[..last] && t[last].hi == x
    requires if |r| == last then t[last].lo == x else t[last].lo == r[last].lo && r[last].hi + 1 == x
    ensures Canonical(t, layers + {x})
  {
    assert t[last].Has(x);
    assert forall i | 0 <= i < last :: r[..last][i] == t[..last][i];
    forall y ensures y in layers + {x} <==> InRanges(t, y) {
      if InRanges(r, y) {
        var i :| 0 <= i < |r| && r[i].Has(y);
        assert t[i].Has(y);
      }
      if InRanges(t, y) && y != x {
        var i :| 0 <= i < |t| && t[i].Has(y);
        assert r[i].Has(y);
      }
    }
  }

  /** One more layer past the last interval: it extends that interval or opens a new one. */
  lemma AppendCanonical(r: seq<Interval>, layers: set<int>, x: int)
    requires Canonical(r, layers)
    requires r != [] ==> r[|r| - 1].hi < x
    ensures r == [] || x != r[|r| - 1].hi + 1 ==> Canonical(r + [Interval(x, x)], layers + {x})
    ensures r != [] && x == r[|r| - 1].hi + 1 ==> Canonical(r[..|r| - 1] + [Interval(r[|r| - 1].lo, x)], layers + {x})
  {
    if r == [] || x != r[|r| - 1].hi + 1 {
      var t := r + [Interval(x, x)];
      SameButLast(r, t, |r|, layers, x);
    } else {
      var t := r[..|r| - 1] + [Interval(r[|r| - 1].lo, x)];
      SameButLast(r, t, |r| - 1, layers, x);
    }
  }

  /** The ranges are the canonical form of the listed layers. */
  lemma {:induction false} RangesCanonical(s: seq<int>)
    requires Increasing(s)
    ensures Canonical(Ranges(s), LayersOf(s))
    ensures s != [] ==> Ranges(s) != [] && Ranges(s)[|Ranges(s)| - 1].hi == s[|s| - 1]
  {
    hide Canonical;
    if s == [] {
      NothingCanonical();
      assert LayersOf(s) == {};
    } else {
      var n := |s| - 1;
      RangesCanonical(s[..n]);
      AppendCanonical(Ranges(s[..n]), LayersOf(s[..n]), s[n]);
      assert s == s[..n] + [s[n]];
      assert LayersOf(s) == LayersOf(s[..n]) + {s[n]};
    }
  }

  /** The range-building loop: the open run is [`start`, `prev`]. */
  method BuildRanges(layers: set<int>) returns (ranges: seq<Interval>)
    ensures ranges == Ranges(SortedLayers(layers))
    ensures Canonical(ranges, layers)
  {
    hide Canonical, SortedLayers;
    var sorted := SortedLayers(layers);
    RangesCanonical(sorted);
    assert layers == LayersOf(sorted);
    ranges := [];
    if sorted != [] {
      var start := sorted[0];
      var prev := start;
      assert sorted[..1] == [start] && [start][..0] == [];
      for i := 1 to |sorted|
        invariant ranges + [Interval(start, prev)] == Ranges(sorted[..i])
      {
        assert sorted[..i + 1][..i] == sorted[..i];
        var layer := sorted[i];
        if layer != prev + 1 {
          ranges := ranges + [Interval(start, prev)];
          start := layer;
        }
        prev := layer;
      }
      ranges := ranges + [Interval(start, prev)];
      assert sorted[..|sorted|] == sorted;
    }
  }

  // ---- gaps ----

  function Gaps(layers: set<int>, total: int): seq<Interval>
    decreases total
  {
    if total <= 0 then [] else
    var g := Gaps(layers, total - 1);
    if total - 1 in layers then g
    else if g == [] || g[|g| - 1].hi != total - 2 then g + [Interval(total - 1, total - 1)]
    else g[..|g| - 1] + [Interval(g[|g| - 1].lo, total - 1)]
  }

  function Missing(layers: set<int>, total: int): set<int> {
    set i | 0 <= i < total && i !in layers
  }

  lemma LastIsMissing(g: seq<Interval>, layers: set<int>, total: int)
    requires Canonical(g, Missing(layers, total)) && g != []
    ensures g[|g| - 1].hi < total
  {
    PastTheEnd(g, Missing(layers, total), |g| - 1);
  }

  lemma NothingMissing(layers: set<int>, total: int)
    requires total <= 0
    ensures Missing(layers, total) == {}
  {
  }

  lemma MissingNext(layers: set<int>, total: int)
    requires total > 0
    ensures Missing(layers, total)
            == if total - 1 in layers then Missing(layers, total - 1) else Missing(layers, total - 1) + {total - 1}
  {
  }

  /** The gaps are the canonical form of exactly the layers below `total` that are missing. */
  lemma {:induction false} GapsCanonical(layers: set<int>, total: int)
    ensures Canonical(Gaps(layers, total), Missing(layers, total))
    decreases total
  {
    hide Canonical, Missing;
    if total <= 0 {
      NothingCanonical();
      NothingMissing(layers, total);
    } else {
      var g := Gaps(layers, total - 1);
      GapsCanonical(layers, total - 1);
      MissingNext(layers, total);
      if total - 1 !in layers {
        if g != [] { LastIsMissing(g, layers, total - 1); }
        AppendCanonical(g, Missing(layers, total - 1), total - 1);
      }
    }
  }

  method FindGaps(layers: set<int>, total: int) returns (gaps: seq<Interval>)
    ensures gaps == Gaps(layers, total)
    ensures Canonical(gaps, Missing(layers, total))
  {
    gaps := [];
    var i := 0;
    while i < total
      invariant 0 <= i && (i <= total || i == 0)
      invariant gaps == Gaps(layers, i)
    {
      if i !in layers {
        if gaps == [] || gaps[|gaps| - 1].hi != i - 1 {
          gaps := gaps + [Interval(i, i)];
        } else {
          gaps := gaps[|gaps| - 1 := gaps[|gaps| - 1].(hi := i)];
        }
      }
      i := i + 1;
    }
    GapsCanonical(layers, total);
  }

  // ---- the topology of one model ----

  /** `range(lo, hi + 1)` as a set. */
  function RangeLayers(lo: int, hi: int): (r: set<int>)
    ensures forall l :: l in r <==> lo <= l <= hi
    ensures |r| == if lo <= hi then hi - lo + 1 else 0
    decreases hi - lo
  {
    if lo > hi then {} else RangeLayers(lo, hi - 1) + {hi}
  }

  ghost predicate AnyHolds(shards: seq<Shard>, model: string, layer: int) {
    exists s :: s in shards && Holds(s, model, layer)
  }

  ghost predicate IsLayerSet(layers: set<int>, hosts: seq<WeightHost>, model: string) {
    forall l :: l in layers <==> Held(hosts, model, l)
  }

  lemma HeldAfter(hosts: seq<WeightHost>, i: nat, model: string)
    requires i < |hosts|
    ensures forall l :: Held(hosts[..i + 1], model, l)
                        <==> Held(hosts[..i], model, l) || (hosts[i].Routable() && AnyHolds(hosts[i].shards, model, l))
  {
    var more := hosts[..i + 1];
    assert more == hosts[..i] + [hosts[i]];
    forall l
      ensures Held(more, model, l)
              <==> Held(hosts[..i], model, l) || (hosts[i].Routable() && AnyHolds(hosts[i].shards, model, l))
    {
      if Held(more, model, l) {
        var h, s :| h in more && h.Routable() && s in h.shards && Holds(s, model, l);
        assert h in hosts[..i] || h == hosts[i];
      }
      if hosts[i].Routable() && AnyHolds(hosts[i].shards, model, l) {
        var s :| s in hosts[i].shards && Holds(s, model, l);
        assert hosts[i] in more;
      }
    }
  }

  /** `all_layers`: the loops over hosts, their shards and each shard's layers. */
  method CollectLayers(hosts: seq<WeightHost>, model: string) returns (layers: set<int>)
    ensures IsLayerSet(layers, hosts, model)
  {
    layers := {};
    for i := 0 to |hosts|
      invariant IsLayerSet(layers, hosts[..i], model)
    {
      var h := hosts[i];
      ghost var before := layers;
      if h.status == Offline || h.status == Evicted {
        HeldAfter(hosts, i, model);
        continue;
      }
      for j := 0 to |h.shards|
        invariant forall l :: l in layers <==> l in before || AnyHolds(h.shards[..j], model, l)
      {
        var s := h.shards[j];
        assert h.shards[..j + 1] == h.shards[..j] + [s];
        assert forall l ::
            AnyHolds(h.shards[..j + 1], model, l) <==> AnyHolds(h.shards[..j], model, l) || Holds(s, model, l);
        if s.modelId == model && |s.layerRange| >= 2 {
          layers := layers + RangeLayers(s.layerRange[0], s.layerRange[1]);
        }
      }
      assert h.shards[..|h.shards|] == h.shards;
      HeldAfter(hosts, i, model);
    }
    assert hosts[..|hosts|] == hosts;
  }

  datatype ModelTopology = ModelTopology(
    totalLayers: int,
    coveredLayers: nat,
    coverageRanges: seq<Interval>,
    gaps: seq<Interval>,
    isMirror: bool)

  function Topology(layers: set<int>): ModelTopology {
    var total := if layers != {} then Greatest(layers) + 1 else 0;
    ModelTopology(total, |layers|, Ranges(SortedLayers(layers)), Gaps(layers, total),
                  total > 0 && |layers| == total && Least(layers) == 0)
  }

  method NetworkTopology(hosts: seq<WeightHost>, model: string) returns (t: ModelTopology)
    ensures exists layers: set<int> :: IsLayerSet(layers, hosts, model) && t == Topology(layers)
  {
    var layers := CollectLayers(hosts, model);
    var total := if layers != {} then Greatest(layers) + 1 else 0;
    var covered := |layers|;
    var isMirror := total > 0 && covered == total && Least(layers) == 0;
    var ranges := BuildRanges(layers);
    var gaps := FindGaps(layers, total);
    t := ModelTopology(total, covered, ranges, gaps, isMirror);
    assert t == Topology(layers);
  }

  // ---- four computations, one answer ----

  function Initial(total: int): set<int> {
    RangeLayers(0, total - 1)
  }

  lemma SubsetOfSameSize(a: set<int>, b: set<int>)
    requires a <= b && |a| == |b|
    ensures a == b
  {
    assert b == a + (b - a);
  }

  /** The set computation: a mirror is exactly a non-empty initial segment of the layers. */
  lemma MirrorIsInitialSegment(layers: set<int>)
    ensures var t := Topology(layers);
            t.isMirror <==> layers != {} && layers == Initial(t.totalLayers)
  {
    var total := Topology(layers).totalLayers;
    if layers != {} {
      assert layers == Initial(total) ==> 0 in layers by { assert total - 1 in layers; }
      if Topology(layers).isMirror {
        SubsetOfSameSize(layers, Initial(total));
      }
    }
  }

  /** The canonical form of a set is the one interval from 0 exactly when the set is that interval. */
  lemma WholeRange(layers: set<int>, ranges: seq<Interval>, total: int)
    requires Canonical(ranges, layers) && total > 0
    ensures ranges == [Interval(0, total - 1)] <==> layers == Initial(total)
  {
    var whole := [Interval(0, total - 1)];
    assert forall x :: InRanges(whole, x) <==> whole[0].Has(x);
    assert Canonical(whole, Initial(total));
    if layers == Initial(total) { CanonicalIsUnique(ranges, whole, layers); }
  }

  lemma NoGapsIffAllPresent(layers: set<int>, total: int)
    ensures Gaps(layers, total) == [] <==> forall l | 0 <= l < total :: l in layers
  {
    var g := Gaps(layers, total);
    GapsCanonical(layers, total);
    if g != [] {
      PastTheEnd(g, Missing(layers, total), 0);
    } else {
      assert forall x :: x in Missing(layers, total) <==> InRanges(g, x);
      assert forall l | 0 <= l < total :: l !in Missing(layers, total);
    }
  }

  /** Mirror status, the ranges and the gaps of any set of layers, negative layers included: the
      ranges are the single interval exactly for a mirror, and so are the gaps empty unless a
      negative layer is held. */
  lemma MirrorRangesGapsAgree(layers: set<int>)
    ensures var t := Topology(layers);
            && (t.isMirror <==> t.totalLayers > 0 && t.coverageRanges == [Interval(0, t.totalLayers - 1)])
            && (t.isMirror <==> t.totalLayers > 0 && t.gaps == [] && forall l | l in layers :: l >= 0)
  {
    hide Ranges, Gaps, SortedLayers, Canonical;
    var total := Topology(layers).totalLayers;
    MirrorIsInitialSegment(layers);
    NoGapsIffAllPresent(layers, total);
    RangesCanonical(SortedLayers(layers));
    assert layers == LayersOf(SortedLayers(layers));
    if total > 0 {
      WholeRange(layers, Topology(layers).coverageRanges, total);
      assert forall l | l in layers :: l < total;
    }
  }

  /** The greedy computation: the pipeline over the same hosts gets past the last held layer
      exactly when the topology shows no gap. No assumption on the layer ranges. */
  lemma PipelineReachesTotalIffNoGaps(hosts: seq<WeightHost>, model: string, domains: seq<string>, layers: set<int>)
    requires IsLayerSet(layers, hosts, model) && Topology(layers).totalLayers > 0
    ensures var t := Topology(layers);
            Greedy(SortCandidates(AllCandidates(hosts, model, domains)), 0).reached == t.totalLayers <==> t.gaps == []
  {
    hide Greedy, SortCandidates, AllCandidates, Held, Gaps;
    var s := SortCandidates(AllCandidates(hosts, model, domains));
    var total := Topology(layers).totalLayers;
    NoGapsIffAllPresent(layers, total);
    forall l ensures Covered(s, l) <==> l in layers {
      AllCandidatesCover(hosts, model, domains, l);
      assert Covered(s, l) <==> Held(hosts, model, l);
    }
    if WellStarted(s, 0) {
      GreedyStops(s, 0);
      var reached := Greedy(s, 0).reached;
      assert total !in layers && total - 1 in layers;
      assert !Covered(s, reached) && !Covered(s, total);
    } else {
      BadStartWastesAHop(s, 0);
      assert !Covered(s, 0);
    }
  }

  /** All four agree on well-formed layers: mirror status, the single range, no gaps, and a
      pipeline that reaches the total. */
  lemma FourComputationsAgree(hosts: seq<WeightHost>, model: string, domains: seq<string>, layers: set<int>)
    requires IsLayerSet(layers, hosts, model) && Topology(layers).totalLayers > 0
    ensures var t := Topology(layers);
            var reached := Greedy(SortCandidates(AllCandidates(hosts, model, domains)), 0).reached;
            && (t.isMirror <==> t.coverageRanges == [Interval(0, t.totalLayers - 1)])
            && (t.gaps == [] <==> reached == t.totalLayers)
            && (t.isMirror <==> t.gaps == [] && forall l | l in layers :: l >= 0)
  {
    MirrorRangesGapsAgree(layers);
    PipelineReachesTotalIffNoGaps(hosts, model, domains, layers);
  }

  /** Layers -1 to 1: no gap, yet no mirror. */
  lemma NegativeLayerBreaksTheAgreement()
    ensures var t := Topology({-1, 0, 1});
            t.totalLayers == 2 && t.gaps == [] && !t.isMirror
  {
    var layers := {-1, 0, 1};
    assert -1 in layers && 0 in layers && 1 in layers;
    MirrorRangesGapsAgree(layers);
    NoGapsIffAllPresent(layers, 2);
  }

  // ---- the shard manager's manifest ----

  datatype ShardManifest = ShardManifest(totalLayers: int, layerCoverage: seq<Interval>, complete: bool)

  ghost predicate Indexed(descs: seq<Interval>, layer: int) {
    exists d :: d in descs && d.lo >= 0 && d.Has(layer)
  }

  lemma IndexedIff(descs: seq<Interval>, layer: int)
    ensures Indexed(descs, layer) <==> exists d :: d in descs && 0 <= d.lo <= layer <= d.hi
  {
  }

  method IndexedLayers(descs: seq<Interval>) returns (layers: set<int>)
    ensures forall l :: l in layers <==> Indexed(descs, l)
  {
    layers := {};
    for i := 0 to |descs|
      invariant forall l :: l in layers <==> Indexed(descs[..i], l)
    {
      var d := descs[i];
      assert descs[..i + 1] == descs[..i] + [d];
      assert forall l :: Indexed(descs[..i + 1], l) <==> Indexed(descs[..i], l) || (d.lo >= 0 && d.Has(l));
      if d.lo >= 0 {
        layers := layers + RangeLayers(d.lo, d.hi);
      }
    }
    assert descs[..|descs|] == descs;
  }

  lemma SingleRangeFromZero(layers: set<int>, ranges: seq<Interval>)
    requires layers != {} && Canonical(ranges, layers)
    ensures |ranges| == 1 && ranges[0].lo == 0 <==> layers == Initial(Greatest(layers) + 1)
  {
    var total := Greatest(layers) + 1;
    if |ranges| == 1 && ranges[0].lo == 0 {
      PastTheEnd(ranges, layers, 0);
      assert forall x :: InRanges(ranges, x) <==> ranges[0].Has(x);
    } else if total > 0 {
      hide Canonical;
      WholeRange(layers, ranges, total);
    }
  }

  /** `index_shards` on the layer ranges of the readable files; a range that starts below zero
      (no layer tensors) is skipped. The manifest is complete exactly when the indexed layers
      are 0 to some last layer. */
  method IndexShards(descs: seq<Interval>) returns (m: ShardManifest)
    ensures exists layers: set<int> ::
              && (forall l :: l in layers <==> Indexed(descs, l))
              && Canonical(m.layerCoverage, layers)
              && m.totalLayers == Topology(layers).totalLayers
              && (m.complete <==> layers != {} && layers == Initial(m.totalLayers))
  {
    hide Canonical;
    var layers := IndexedLayers(descs);
    m := ShardManifest(0, [], false);
    NothingCanonical();
    if layers != {} {
      var ranges := BuildRanges(layers);
      m := ShardManifest(Greatest(layers) + 1, ranges, |ranges| == 1 && ranges[0].lo == 0);
      SingleRangeFromZero(layers, ranges);
    }
    assert m.totalLayers == Topology(layers).totalLayers;
  }
}
