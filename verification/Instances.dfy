/** Cluster membership (maestro/instances.py, maestro/cluster.py): numbering, roles and shard indices
    over any run of spawns and stops, and who owns a task. Containers are not modelled: what is
    running is an input, and a start may fail. */
module Instances {
  import opened Wrappers

  datatype Role = Orchestrator | Shard

  datatype Info = Info(role: Role, index: Option<nat>)

  type Registry = map<nat, Info>

  // ---- smallest free index ----

  function Below(n: nat): (s: set<nat>)
    ensures |s| == n
    ensures forall i: nat :: i in s <==> i < n
  {
    if n == 0 then {} else Below(n - 1) + {n - 1}
  }

  lemma SubsetSize(a: set<nat>, b: set<nat>)
    requires a <= b
    ensures |a| <= |b|
    ensures |a| == |b| ==> a == b
  {
    assert |b| == |a| + |b - a| by { assert b == a + (b - a); }
    assert |b - a| == 0 ==> b - a == {};
  }

  /** The least index from `i` on that is not used. */
  function FreeFrom(used: set<nat>, i: nat): (r: nat)
    requires Below(i) <= used
    ensures r !in used && Below(r) <= used
    decreases |used| - i
  {
    SubsetSize(Below(i), used);
    if i in used then
      assert Below(i + 1) <= used;
      SubsetSize(Below(i + 1), used);
      FreeFrom(used, i + 1)
    else i
  }

  /** There is a free index no larger than the number of used ones. */
  lemma FreeIsSmall(used: set<nat>)
    ensures FreeFrom(used, 0) <= |used|
  {
    SubsetSize(Below(FreeFrom(used, 0)), used);
  }

  lemma FreeIsLeast(used: set<nat>, i: nat)
    requires i !in used
    ensures FreeFrom(used, 0) <= i
  {
    var r := FreeFrom(used, 0);
    assert i < r ==> i in Below(r);
  }

  // ---- spawning and stopping ----

  function Shards(reg: Registry): set<nat> {
    set n | n in reg && reg[n].role == Shard
  }

  function Used(reg: Registry): set<nat> {
    set n | n in Shards(reg) && reg[n].index.Some? :: reg[n].index.value
  }

  predicate IsFirst(reg: Registry, running: set<nat>, n: nat) {
    (running == {} && reg == map[]) || n == 1
  }

  function NewInfo(reg: Registry, running: set<nat>, n: nat): Info {
    if IsFirst(reg, running, n) then Info(Orchestrator, None) else Info(Shard, Some(FreeFrom(Used(reg), 0)))
  }

  /** The shard count the new instance is started with. */
  function ToldCount(reg: Registry, running: set<nat>, n: nat): nat {
    var current := |Shards(reg)|;
    if IsFirst(reg, running, n) then current + (if current > 1 then current else 1) else current + 1
  }

  function Spawned(reg: Registry, running: set<nat>, n: nat): Registry {
    reg[n := NewInfo(reg, running, n)]
  }

  function Stopped(reg: Registry, n: nat): Registry {
    reg - {n}
  }

  /** One more than the largest known number, or one. */
  predicate IsNext(known: set<nat>, n: nat) {
    if known == {} then n == 1 else n > 0 && n - 1 in known && forall k | k in known :: k < n
  }

  class InstanceRegistry {
    var registered: Registry

    constructor ()
      ensures registered == map[]
    {
      registered := map[];
    }

    method NextInstanceNumber(running: set<nat>) returns (n: nat)
      ensures IsNext(running + registered.Keys, n)
    {
      var known := running + registered.Keys;
      if known == {} {
        return 1;
      }
      var largest :| largest in known;
      var todo := known - {largest};
      while todo != {}
        invariant todo <= known && largest in known
        invariant forall k | k in known && k !in todo :: k <= largest
      {
        var k :| k in todo;
        if k > largest {
          largest := k;
        }
        todo := todo - {k};
      }
      return largest + 1;
    }

    /** The `while shard_index in used_indices` loop. */
    method SmallestFreeIndex(used: set<nat>) returns (index: nat)
      ensures index == FreeFrom(used, 0)
    {
      index := 0;
      while index in used
        invariant Below(index) <= used && FreeFrom(used, 0) == FreeFrom(used, index)
        decreases |used| - index
      {
        SubsetSize(Below(index), used);
        assert Below(index + 1) <= used;
        SubsetSize(Below(index + 1), used);
        index := index + 1;
      }
    }

    /** `number` is the number asked for, if any; a failed start registers nothing. */
    method Spawn(number: Option<nat>, running: set<nat>, starts: bool) returns (n: nat, info: Info, told: nat)
      modifies this
      ensures number.Some? ==> n == number.value
      ensures number.None? ==> IsNext(running + old(registered).Keys, n)
      ensures info == NewInfo(old(registered), running, n) && told == ToldCount(old(registered), running, n)
      ensures registered == if starts then Spawned(old(registered), running, n) else old(registered)
    {
      hide IsNext, Used, FreeFrom;
      if number.Some? {
        n := number.value;
      } else {
        n := NextInstanceNumber(running);
      }
      var first := (running == {} && registered == map[]) || n == 1;
      var current := |Shards(registered)|;
      if first {
        info := Info(Orchestrator, None);
        told := current + if current > 1 then current else 1;
      } else {
        var index := SmallestFreeIndex(Used(registered));
        info := Info(Shard, Some(index));
        told := current + 1;
      }
      if starts {
        registered := registered[n := info];
      }
    }

    method StopInstance(n: nat)
      modifies this
      ensures registered == Stopped(old(registered), n)
    {
      registered := registered - {n};
    }
  }

  // ---- what every run keeps ----

  ghost predicate OneOrchestrator(reg: Registry) {
    forall a, b | a in reg && b in reg && reg[a].role == Orchestrator && reg[b].role == Orchestrator :: a == b
  }

  ghost predicate DistinctIndices(reg: Registry) {
    && (forall n | n in Shards(reg) :: reg[n].index.Some?)
    && forall a, b | a in Shards(reg) && b in Shards(reg) && reg[a].index == reg[b].index :: a == b
  }

  /** `peak` is the largest number of shards alive at once so far. */
  ghost predicate Sound(reg: Registry, peak: nat) {
    && OneOrchestrator(reg) && DistinctIndices(reg) && |Shards(reg)| <= peak
    && forall i | i in Used(reg) :: i < peak
  }

  lemma {:induction false} ImageSmaller(reg: Registry, shards: set<nat>, image: set<nat>)
    requires forall i | i in image :: exists n :: n in shards && n in reg && reg[n].index == Some(i)
    ensures |image| <= |shards|
    decreases shards
  {
    if image != {} {
      var i :| i in image;
      var n :| n in shards && n in reg && reg[n].index == Some(i);
      forall j | j in image - {i} ensures exists k :: k in shards - {n} && k in reg && reg[k].index == Some(j) {
        var k :| k in shards && k in reg && reg[k].index == Some(j);
        assert k in shards - {n};
      }
      ImageSmaller(reg, shards - {n}, image - {i});
    }
  }

  lemma UsedNoMoreThanShards(reg: Registry)
    ensures |Used(reg)| <= |Shards(reg)|
  {
    ImageSmaller(reg, Shards(reg), Used(reg));
  }

  /** Whatever the registry holds, a new shard's index is below the count it is told. */
  lemma NewIndexBelowTold(reg: Registry, running: set<nat>, n: nat)
    requires !IsFirst(reg, running, n)
    ensures NewInfo(reg, running, n).index.value < ToldCount(reg, running, n)
    ensures NewInfo(reg, running, n).index.value !in Used(reg)
  {
    FreeIsSmall(Used(reg));
    UsedNoMoreThanShards(reg);
  }

  datatype Event = Spawn(running: set<nat>, number: nat) | Stop(number: nat)

  /** Numbers are assigned automatically; running instances count from one. */
  ghost predicate Legal(reg: Registry, e: Event) {
    e.Spawn? ==> IsNext(e.running + reg.Keys, e.number) && 0 !in e.running
  }

  function After(reg: Registry, e: Event): Registry {
    match e
    case Spawn(running, n) => Spawned(reg, running, n)
    case Stop(n) => Stopped(reg, n)
  }

  function Larger(a: nat, b: nat): nat {
    if a > b then a else b
  }

  /** An automatic number is nobody's, so a spawn never overwrites an instance, and only the very
      first instance of an empty cluster is the orchestrator. */
  lemma NextIsNew(reg: Registry, running: set<nat>, n: nat)
    requires IsNext(running + reg.Keys, n) && 0 !in running && 0 !in reg
    ensures n !in reg && n !in running && n > 0
    ensures IsFirst(reg, running, n) <==> running == {} && reg == map[]
  {
    var known := running + reg.Keys;
    if known == {} {
      assert reg.Keys == {} && running == {};
    } else {
      assert n - 1 in known && n - 1 != 0;
    }
  }

  lemma SpawnShards(reg: Registry, running: set<nat>, n: nat)
    requires n !in reg
    ensures Shards(Spawned(reg, running, n)) == Shards(reg) + if IsFirst(reg, running, n) then {} else {n}
    ensures |Shards(Spawned(reg, running, n))| == |Shards(reg)| + if IsFirst(reg, running, n) then 0 else 1
  {
    hide IsFirst, FreeFrom, Used;
  }

  /** The count a new instance is told is the number of live shards, itself included, or one where there are
      none: except for an orchestrator started beside shards, which is told twice their number. */
  lemma ToldCountIff(reg: Registry, running: set<nat>, n: nat)
    requires n !in reg
    ensures var told, live := ToldCount(reg, running, n), |Shards(Spawned(reg, running, n))|;
            && (told == (if live > 1 then live else 1) <==> !IsFirst(reg, running, n) || Shards(reg) == {})
            && (IsFirst(reg, running, n) && Shards(reg) != {} ==> told == 2 * live)
  {
    hide IsFirst;
    SpawnShards(reg, running, n);
  }

  /** The orchestrator restarted beside two shards is told four. */
  lemma RestartedOrchestratorIsToldTwice()
    ensures var reg: Registry := map[2 := Info(Shard, Some(0)), 3 := Info(Shard, Some(1))];
            NewInfo(reg, {2, 3}, 1).role == Orchestrator && ToldCount(reg, {2, 3}, 1) == 4
            && |Shards(Spawned(reg, {2, 3}, 1))| == 2
  {
    var reg: Registry := map[2 := Info(Shard, Some(0)), 3 := Info(Shard, Some(1))];
    assert Shards(reg) == {2, 3};
    SpawnShards(reg, {2, 3}, 1);
  }

  lemma AddShard(reg: Registry, n: nat, r: nat)
    requires DistinctIndices(reg) && n !in reg && r !in Used(reg)
    ensures DistinctIndices(reg[n := Info(Shard, Some(r))])
    ensures forall i | i in Used(reg[n := Info(Shard, Some(r))]) :: i in Used(reg) || i == r
  {
    var after := reg[n := Info(Shard, Some(r))];
    assert Shards(after) == Shards(reg) + {n};
    forall a | a in Shards(reg) ensures after[a] == reg[a] && reg[a].index != Some(r) {
      assert reg[a].index.Some? ==> reg[a].index.value in Used(reg);
    }
  }

  lemma AddOrchestrator(reg: Registry, n: nat)
    requires DistinctIndices(reg) && n !in reg
    ensures DistinctIndices(reg[n := Info(Orchestrator, None)]) && Used(reg[n := Info(Orchestrator, None)]) == Used(reg)
  {
    var after := reg[n := Info(Orchestrator, None)];
    assert Shards(after) == Shards(reg);
    assert forall a | a in Shards(reg) :: after[a] == reg[a];
  }

  lemma SpawnKeepsDistinct(reg: Registry, running: set<nat>, n: nat)
    requires DistinctIndices(reg) && n !in reg
    ensures DistinctIndices(Spawned(reg, running, n))
    ensures forall i | i in Used(Spawned(reg, running, n)) ::
              i in Used(reg) || (!IsFirst(reg, running, n) && i == FreeFrom(Used(reg), 0))
  {
    hide IsFirst, FreeFrom, Used, DistinctIndices;
    if IsFirst(reg, running, n) {
      AddOrchestrator(reg, n);
    } else {
      AddShard(reg, n, FreeFrom(Used(reg), 0));
    }
  }

  lemma SpawnKeepsOneOrchestrator(reg: Registry, running: set<nat>, n: nat)
    requires OneOrchestrator(reg) && n !in reg && (IsFirst(reg, running, n) ==> reg == map[])
    ensures OneOrchestrator(Spawned(reg, running, n))
  {
    hide IsFirst, FreeFrom, Used;
  }

  lemma SpawnKeepsSound(reg: Registry, peak: nat, running: set<nat>, n: nat)
    requires Sound(reg, peak) && 0 !in reg && Legal(reg, Spawn(running, n))
    ensures var after := Spawned(reg, running, n); Sound(after, Larger(peak, |Shards(after)|)) && 0 !in after
  {
    hide FreeFrom, DistinctIndices, IsNext, OneOrchestrator, IsFirst, Used, Shards;
    NextIsNew(reg, running, n);
    SpawnShards(reg, running, n);
    SpawnKeepsDistinct(reg, running, n);
    SpawnKeepsOneOrchestrator(reg, running, n);
    if !IsFirst(reg, running, n) { NewIndexBelowTold(reg, running, n); }
  }

  lemma StopKeepsSound(reg: Registry, peak: nat, n: nat)
    requires Sound(reg, peak) && 0 !in reg
    ensures Sound(Stopped(reg, n), Larger(peak, |Shards(Stopped(reg, n))|)) && 0 !in Stopped(reg, n)
  {
    var after := Stopped(reg, n);
    assert Shards(after) <= Shards(reg);
    SubsetSize(Shards(after), Shards(reg));
    assert Used(after) <= Used(reg);
  }

  function Run(events: seq<Event>): Registry {
    if events == [] then map[] else After(Run(events[..|events| - 1]), events[|events| - 1])
  }

  /** The largest number of shards alive at once over a run. */
  function Peak(events: seq<Event>): nat {
    if events == [] then 0 else Larger(Peak(events[..|events| - 1]), |Shards(Run(events))|)
  }

  ghost predicate LegalRun(events: seq<Event>) {
    forall i | 0 <= i < |events| :: Legal(Run(events[..i]), events[i])
  }

  lemma EmptyIsSound()
    ensures Sound(map[], 0)
  {
    assert Shards(map[]) == {} && Used(map[]) == {};
  }

  /** Over any run of automatic spawns and stops: at most one orchestrator, different indices, all
      below the largest number of shards ever alive at once. */
  lemma {:induction false} RunKeepsSound(events: seq<Event>)
    requires LegalRun(events)
    ensures Sound(Run(events), Peak(events)) && 0 !in Run(events)
  {
    if events != [] {
      hide Sound, Legal;
      var n := |events| - 1;
      assert forall i | 0 <= i < n :: events[..n][..i] == events[..i];
      RunKeepsSound(events[..n]);
      assert Legal(Run(events[..n]), events[n]);
      match events[n]
      case Spawn(running, number) => SpawnKeepsSound(Run(events[..n]), Peak(events[..n]), running, number);
      case Stop(number) => StopKeepsSound(Run(events[..n]), Peak(events[..n]), number);
    } else {
      EmptyIsSound();
    }
  }

  // ---- who owns a task ----

  /** `assign_shard`: the digest of the task id, modulo the shard count. */
  function AssignShard(digest: nat, count: nat): (r: nat)
    requires count > 0
    ensures r < count
  {
    digest % count
  }

  predicate IsTaskOwned(digest: nat, index: nat, count: nat)
    requires count > 0
  {
    AssignShard(digest, count) == index
  }

  ghost function Owners(reg: Registry, digest: nat): set<nat>
    requires Shards(reg) != {}
  {
    set n | n in Shards(reg) && reg[n].index.Some? && IsTaskOwned(digest, reg[n].index.value, |Shards(reg)|)
  }

  lemma {:induction false} ShardsNoMoreThanUsed(reg: Registry, shards: set<nat>, image: set<nat>)
    requires DistinctIndices(reg) && shards <= Shards(reg)
    requires forall n | n in shards :: reg[n].index.Some? && reg[n].index.value in image
    ensures |shards| <= |image|
    decreases shards
  {
    if shards != {} {
      var n :| n in shards;
      var i := reg[n].index.value;
      assert forall k | k in shards - {n} :: reg[k].index != reg[n].index;
      ShardsNoMoreThanUsed(reg, shards - {n}, image - {i});
    }
  }

  lemma UsedCountsShards(reg: Registry)
    requires DistinctIndices(reg)
    ensures |Used(reg)| == |Shards(reg)|
  {
    UsedNoMoreThanShards(reg);
    ShardsNoMoreThanUsed(reg, Shards(reg), Used(reg));
  }

  lemma SomeMissing(a: set<nat>, b: set<nat>)
    requires |a| == |b| && a != b
    ensures exists i :: i in a && i !in b
  {
    if a <= b { SubsetSize(a, b); }
  }

  lemma OneOwner(reg: Registry, digest: nat, n: nat)
    requires DistinctIndices(reg) && n in Shards(reg) && reg[n].index == Some(AssignShard(digest, |Shards(reg)|))
    ensures |Owners(reg, digest)| == 1
  {
    assert Owners(reg, digest) == {n};
  }

  lemma SmallModulo(i: nat, k: nat)
    requires i < k
    ensures i % k == i
  {
  }

  lemma NoOwner(reg: Registry, i: nat)
    requires Shards(reg) != {} && i < |Shards(reg)| && i !in Used(reg)
    ensures Owners(reg, i) == {} && |Owners(reg, i)| == 0
  {
    assert AssignShard(i, |Shards(reg)|) == i by { SmallModulo(i, |Shards(reg)|); }
    assert forall n | n in Shards(reg) && reg[n].index.Some? :: reg[n].index.value in Used(reg);
  }

  /** Every task has exactly one owner, under the count of live shards, exactly when their indices
      are 0, 1 and so on up to that count. */
  lemma OwnedOnceIff(reg: Registry)
    requires DistinctIndices(reg) && Shards(reg) != {}
    ensures (forall digest: nat :: |Owners(reg, digest)| == 1) <==> Used(reg) == Below(|Shards(reg)|)
  {
    var k := |Shards(reg)|;
    UsedCountsShards(reg);
    if Used(reg) == Below(k) {
      forall digest: nat ensures |Owners(reg, digest)| == 1 {
        var i := AssignShard(digest, k);
        assert i in Used(reg);
        var n :| n in Shards(reg) && reg[n].index == Some(i);
        OneOwner(reg, digest, n);
      }
    } else {
      SomeMissing(Below(k), Used(reg));
      var i :| i in Below(k) && i !in Used(reg);
      NoOwner(reg, i);
    }
  }

  /** Whenever as many shards are alive as ever were, their indices are exactly 0, 1 and so on, and
      every task has exactly one owner. */
  lemma FullClusterOwnsEverything(events: seq<Event>)
    requires LegalRun(events) && Shards(Run(events)) != {} && |Shards(Run(events))| == Peak(events)
    ensures Used(Run(events)) == Below(|Shards(Run(events))|)
    ensures forall digest: nat :: |Owners(Run(events), digest)| == 1
  {
    hide Run, Peak, LegalRun, DistinctIndices, OneOrchestrator;
    var reg := Run(events);
    RunKeepsSound(events);
    UsedCountsShards(reg);
    SubsetSize(Used(reg), Below(|Shards(reg)|));
    OwnedOnceIff(reg);
  }

  /** `n` automatic spawns, one after another. */
  function Spawns(n: nat): seq<Event> {
    if n == 0 then [] else Spawns(n - 1) + [Spawn({}, n)]
  }

  /** Instance 1 is the orchestrator, every later one the shard two below its number. */
  ghost predicate InARow(reg: Registry, n: nat) {
    && (forall k: nat :: k in reg <==> 1 <= k <= n)
    && forall k | k in reg :: reg[k] == if k == 1 then Info(Orchestrator, None) else Info(Shard, Some((k - 2) as nat))
  }

  lemma RunNext(events: seq<Event>, e: Event)
    ensures Run(events + [e]) == After(Run(events), e)
    ensures LegalRun(events) && Legal(Run(events), e) ==> LegalRun(events + [e])
  {
    hide After, Legal;
    var more := events + [e];
    assert more[..|events|] == events;
    if LegalRun(events) && Legal(Run(events), e) {
      forall i | 0 <= i < |more| ensures Legal(Run(more[..i]), more[i]) {
        if i < |events| { assert more[..i] == events[..i] && more[i] == events[i]; }
      }
    }
  }

  lemma RowUses(reg: Registry, n: nat)
    requires n > 0 && InARow(reg, n)
    ensures Used(reg) == Below(n - 1) && IsNext({} + reg.Keys, n + 1) && FreeFrom(Used(reg), 0) == n - 1
    ensures !IsFirst(reg, {}, n + 1)
  {
    assert n in reg;
    forall i: nat ensures i in Used(reg) <==> i < n - 1 {
      if i < n - 1 { assert i + 2 in reg && reg[i + 2].index == Some(i); }
    }
    FreeIsLeast(Used(reg), n - 1);
    assert FreeFrom(Used(reg), 0) !in Used(reg);
  }

  lemma ExtendRow(reg: Registry, n: nat)
    requires n > 0 && InARow(reg, n)
    ensures InARow(reg[n + 1 := Info(Shard, Some(n - 1))], n + 1)
  {
  }

  lemma NextInARow(reg: Registry, n: nat)
    requires n > 0 && InARow(reg, n)
    ensures InARow(Spawned(reg, {}, n + 1), n + 1) && Legal(reg, Spawn({}, n + 1))
  {
    hide FreeFrom, Used, IsNext, IsFirst, InARow, Below;
    RowUses(reg, n);
    ExtendRow(reg, n);
  }

  lemma FirstInARow()
    ensures InARow(Spawned(map[], {}, 1), 1) && Legal(map[], Spawn({}, 1))
  {
    var reg: Registry := map[];
    assert reg.Keys == {};
  }

  lemma NothingRun()
    ensures Run([]) == map[] && LegalRun([]) && Spawns(0) == []
  {
  }

  lemma {:induction false} SpawnsMean(n: nat)
    requires n > 0
    ensures LegalRun(Spawns(n)) && InARow(Run(Spawns(n)), n)
  {
    hide InARow, Legal, LegalRun, Run, Spawned;
    RunNext(Spawns(n - 1), Spawn({}, n));
    if n == 1 {
      NothingRun();
      FirstInARow();
    } else {
      SpawnsMean(n - 1);
      NextInARow(Run(Spawns(n - 1)), n - 1);
    }
  }

  lemma StoppedRow(reg: Registry, n: nat)
    requires n >= 3 && InARow(reg, n)
    ensures Legal(reg, Stop(2)) && 0 !in Used(Stopped(reg, 2)) && Shards(Stopped(reg, 2)) != {}
  {
    assert 3 in reg && 3 in Shards(Stopped(reg, 2));
  }

  /** After a stop the live count is no longer right for the indices left: in a cluster of two shards
      or more, grown by automatic spawns, stop the first shard, and the tasks of residue 0 have no
      owner. */
  lemma StopLeavesATaskUnowned(n: nat)
    requires n >= 3
    ensures var events := Spawns(n) + [Stop(2)];
            LegalRun(events) && Shards(Run(events)) != {} && Owners(Run(events), 0) == {}
  {
    SpawnsMean(n);
    RunNext(Spawns(n), Stop(2));
    StoppedRow(Run(Spawns(n)), n);
    NoOwner(Stopped(Run(Spawns(n)), 2), 0);
  }

  /** With numbers given by hand the orchestrator stays unique exactly when instance 1 is not
      started beside an orchestrator of another number. */
  lemma ExplicitNumberIff(reg: Registry, running: set<nat>, n: nat)
    requires OneOrchestrator(reg)
    ensures OneOrchestrator(Spawned(reg, running, n))
            <==> !(n == 1 && exists k :: k in reg && k != 1 && reg[k].role == Orchestrator)
  {
    hide FreeFrom, Used;
    var after := Spawned(reg, running, n);
    if n == 1 {
      assert after[1].role == Orchestrator;
      if k :| k in reg && k != 1 && reg[k].role == Orchestrator { assert k in after && after[k].role == Orchestrator; }
    }
  }
}
