/** What becomes of every request of a batch (maestro/applicator.py:81-167), told of the requests, the settings
    and what was there before, for a guard that starts with nothing remembered. */
module BatchStory {
  import opened Wrappers
  import opened Sequences
  import opened InjectionGuard
  import opened Rollback
  import opened Injector

  // ---- the story ----

  /** The category may be injected, and a parameter update that reads as a number keeps every bound. */
  predicate Allowed(c: Codec, cfg: Config, p: Proposal) {
    && p.category in cfg.injectable && p.category !in cfg.blocked
    && (p.changeType == ParameterUpdate && c.parse(p.proposed).Some? ==>
          var v := c.parse(p.proposed).value;
          && (p.targetName in cfg.thresholds ==> forall b | b in cfg.thresholds[p.targetName] :: b.lo <= v <= b.hi)
          && (p.targetName == cfg.temperatureName ==> forall b | b in cfg.temperature :: b.lo <= v <= b.hi))
  }

  /** The requests before the `n`-th that were applied. */
  ghost function AppliedBefore(outs: seq<Outcome>, n: nat): set<nat>
    requires n <= |outs|
  {
    set j | 0 <= j < n && outs[j].Applied?
  }

  /** Those of them recorded less than an hour before `now`. */
  ghost function RecentBefore(rs: seq<Request>, outs: seq<Outcome>, n: nat, now: real): set<nat>
    requires n <= |outs| == |rs|
  {
    set j | j in AppliedBefore(outs, n) && rs[j].recordedAt > now - 3600.0
  }

  /** Still open: proposed or validated, and not promoted, before or by this batch. */
  ghost predicate StillOpen(m: Machine, rs: seq<Request>, outs: seq<Outcome>, n: nat)
    requires n < |outs| == |rs|
  {
    && (rs[n].p.status == Validated || rs[n].p.status == Proposed)
    && rs[n].p.id !in m.promoted
    && forall j | j in AppliedBefore(outs, n) :: rs[j].p.id != rs[n].p.id
  }

  /** There is something to change: a key of the configuration always, a variable if it exists. */
  predicate IsThere(store: Store, p: Proposal) {
    p.changeType == ConfigChange || p.changeType == PromptRewrite || Variable(p.moduleName, p.targetName) in store
  }

  ghost function Fate(c: Codec, cfg: Config, m: Machine, dry: bool, rs: seq<Request>, outs: seq<Outcome>,
        n: nat): Outcome
    requires n < |outs| == |rs|
  {
    if !Allowed(c, cfg, rs[n].p) || !StillOpen(m, rs, outs, n) then NotInjectable
    else if |RecentBefore(rs, outs, n, rs[n].checkedAt)| >= cfg.maxPerHour then RateLimited
    else if dry then DryRun
    else if !IsThere(m.store, rs[n].p) then Failed
    else Applied(rs[n].id)
  }

  /** The clock does not go back between checks. */
  ghost predicate ClockRuns(rs: seq<Request>) {
    forall i, j | 0 <= i < j < |rs| :: rs[i].checkedAt <= rs[j].checkedAt
  }

  // ---- what the machine remembers ----

  /** The clock readings at which requests were recorded, in order. */
  function RecordedTimes(rs: seq<Request>, outs: seq<Outcome>, n: nat): seq<real>
    requires n <= |outs| == |rs|
  {
    if n == 0 then []
    else RecordedTimes(rs, outs, n - 1) + if outs[n - 1].Applied? then [rs[n - 1].recordedAt] else []
  }

  ghost predicate SameRecent(l: Limiter, now: real) {
    Pruned(l.times, now) == Pruned(l.applied, now)
  }

  /** The machine after the first `n` requests is as they say. */
  ghost predicate Follows(b: Machine, m: Machine, rs: seq<Request>, outs: seq<Outcome>, n: nat)
    requires n <= |outs| == |rs|
  {
    && (forall id :: id in b.promoted
                     <==> id in m.promoted || exists j :: j in AppliedBefore(outs, n) && rs[j].p.id == id)
    && (forall t: Target :: t.Variable? ==> (t in b.store <==> t in m.store))
    && b.limiter.applied == RecordedTimes(rs, outs, n)
    && forall now | (forall j | 0 <= j < n :: rs[j].checkedAt <= now) :: SameRecent(b.limiter, now)
  }

  lemma {:induction false} PrunedTwice(times: seq<real>, now: real, later: real)
    requires now <= later
    ensures Pruned(Pruned(times, now), later) == Pruned(times, later)
  {
    if times != [] {
      var n := |times| - 1;
      PrunedTwice(times[..n], now, later);
      var front := Pruned(times[..n], now);
      assert (front + [times[n]])[..|front|] == front;
    }
  }

  lemma PrunedMore(times: seq<real>, t: real, now: real)
    ensures Pruned(times + [t], now) == Pruned(times, now) + if t > now - WINDOW then [t] else []
  {
    assert (times + [t])[..|times|] == times;
  }

  lemma NothingPruned(now: real)
    ensures Pruned([], now) == []
  {
  }

  lemma RecentNext(rs: seq<Request>, outs: seq<Outcome>, n: nat, now: real)
    requires 0 < n <= |outs| == |rs|
    ensures |RecentBefore(rs, outs, n, now)|
            == |RecentBefore(rs, outs, n - 1, now)|
               + if outs[n - 1].Applied? && rs[n - 1].recordedAt > now - 3600.0 then 1 else 0
  {
    var before := RecentBefore(rs, outs, n - 1, now);
    assert RecentBefore(rs, outs, n, now)
        == if outs[n - 1].Applied? && rs[n - 1].recordedAt > now - 3600.0 then before + {n - 1} else before;
  }

  lemma NothingRecent(rs: seq<Request>, outs: seq<Outcome>, now: real)
    requires |outs| == |rs|
    ensures RecentBefore(rs, outs, 0, now) == {}
  {
  }

  lemma {:induction false} RecentCounted(rs: seq<Request>, outs: seq<Outcome>, n: nat, now: real)
    requires n <= |outs| == |rs|
    ensures |Pruned(RecordedTimes(rs, outs, n), now)| == |RecentBefore(rs, outs, n, now)|
  {
    hide Pruned, RecentBefore;
    if n == 0 {
      NothingPruned(now);
      assert |RecentBefore(rs, outs, 0, now)| == 0 by { NothingRecent(rs, outs, now); }
    } else {
      RecentCounted(rs, outs, n - 1, now);
      RecentNext(rs, outs, n, now);
      var times := RecordedTimes(rs, outs, n - 1);
      PrunedMore(times, rs[n - 1].recordedAt, now);
      assert times + [] == times;
    }
  }

  // ---- one request ----

  lemma AllowedIff(c: Codec, cfg: Config, p: Proposal, status: ProposalStatus)
    ensures Injectable(c, cfg, p, status)
            <==> Allowed(c, cfg, p) && (status == Validated || status == Proposed)
  {
    hide Injectable;
    InjectableIff(c, cfg, p, status);
  }

  lemma OpenIff(b: Machine, m: Machine, rs: seq<Request>, outs: seq<Outcome>, n: nat)
    requires n < |outs| == |rs| && Follows(b, m, rs, outs, n)
    ensures var status := StatusNow(b.promoted, rs[n].p);
            (status == Validated || status == Proposed) <==> StillOpen(m, rs, outs, n)
  {
    hide Pruned, RecordedTimes;
  }

  lemma ThereIff(b: Machine, m: Machine, rs: seq<Request>, outs: seq<Outcome>, n: nat)
    requires n < |outs| == |rs| && Follows(b, m, rs, outs, n)
    ensures Accepts(b.store, TargetOf(rs[n].p)) <==> IsThere(m.store, rs[n].p)
  {
    hide Pruned, RecordedTimes;
  }

  lemma RecentIs(b: Machine, m: Machine, rs: seq<Request>, outs: seq<Outcome>, n: nat)
    requires n < |outs| == |rs| && Follows(b, m, rs, outs, n) && ClockRuns(rs)
    ensures |Pruned(b.limiter.times, rs[n].checkedAt)| == |RecentBefore(rs, outs, n, rs[n].checkedAt)|
  {
    hide Pruned, RecordedTimes, RecentBefore;
    assert SameRecent(b.limiter, rs[n].checkedAt);
    RecentCounted(rs, outs, n, rs[n].checkedAt);
  }

  /** Its outcome. */
  lemma FateIs(c: Codec, cfg: Config, b: Machine, m: Machine, dry: bool, rs: seq<Request>, outs: seq<Outcome>, n: nat)
    requires n < |outs| == |rs| && Follows(b, m, rs, outs, n) && ClockRuns(rs)
    ensures OutcomeOf(c, cfg, b, dry, rs[n]) == Fate(c, cfg, m, dry, rs, outs, n)
  {
    hide Pruned, Follows, RecentBefore, Allowed, StillOpen, IsThere, Injectable, Accepts, TargetOf, StatusNow,
          ClockRuns;
    AllowedIff(c, cfg, rs[n].p, StatusNow(b.promoted, rs[n].p));
    OpenIff(b, m, rs, outs, n);
    ThereIff(b, m, rs, outs, n);
    RecentIs(b, m, rs, outs, n);
  }

  /** And the machine after it. */
  lemma FollowsNext(c: Codec, cfg: Config, b: Machine, m: Machine, cycle: CycleId, dry: bool, rs: seq<Request>,
        outs: seq<Outcome>, n: nat)
    requires n < |outs| == |rs| && Follows(b, m, rs, outs, n) && outs[n] == OutcomeOf(c, cfg, b, dry, rs[n])
    ensures Follows(ApplyOne(c, cfg, b, cycle, dry, rs[n]), m, rs, outs, n + 1)
  {
    hide Pruned, Injectable, TargetOf, Injected, EntryFor, StatusNow;
    var after := ApplyOne(c, cfg, b, cycle, dry, rs[n]);
    var o := outs[n];
    assert AppliedBefore(outs, n + 1) == AppliedBefore(outs, n) + if o.Applied? then {n} else {};
    forall now | (forall j | 0 <= j < n + 1 :: rs[j].checkedAt <= now) ensures SameRecent(after.limiter, now) {
      assert rs[n].checkedAt <= now && SameRecent(b.limiter, now);
      var kept := Pruned(b.limiter.times, rs[n].checkedAt);
      PrunedTwice(b.limiter.times, rs[n].checkedAt, now);
      PrunedMore(kept, rs[n].recordedAt, now);
      PrunedMore(b.limiter.applied, rs[n].recordedAt, now);
    }
    assert RecordedTimes(rs, outs, n) + [] == RecordedTimes(rs, outs, n);
  }

  // ---- a batch ----

  lemma {:induction false} OutcomesCounted(c: Codec, cfg: Config, m: Machine, cycle: CycleId, dry: bool,
        rs: seq<Request>, n: nat)
    requires n < |rs|
    ensures |Outcomes(c, cfg, m, cycle, dry, rs)| == |rs|
    ensures Outcomes(c, cfg, m, cycle, dry, rs)[n]
            == OutcomeOf(c, cfg, ApplyAll(c, cfg, m, cycle, dry, rs[..n]), dry, rs[n])
  {
    hide OutcomeOf, ApplyOne;
    var last := |rs| - 1;
    if last == 0 {
      assert Outcomes(c, cfg, m, cycle, dry, rs[..0]) == [];
    } else {
      OutcomesCounted(c, cfg, m, cycle, dry, rs[..last], if n < last then n else 0);
      if n < last { assert rs[..last][..n] == rs[..n]; }
    }
  }

  lemma OutcomesAt(c: Codec, cfg: Config, m: Machine, cycle: CycleId, dry: bool, rs: seq<Request>, n: nat)
    requires n < |rs|
    ensures |Outcomes(c, cfg, m, cycle, dry, rs)| == |rs|
    ensures Outcomes(c, cfg, m, cycle, dry, rs)[n]
            == OutcomeOf(c, cfg, ApplyAll(c, cfg, m, cycle, dry, rs[..n]), dry, rs[n])
    ensures ApplyAll(c, cfg, m, cycle, dry, rs[..n + 1])
            == ApplyOne(c, cfg, ApplyAll(c, cfg, m, cycle, dry, rs[..n]), cycle, dry, rs[n])
  {
    hide OutcomeOf, ApplyOne;
    assert rs[..n + 1][..n] == rs[..n];
    OutcomesCounted(c, cfg, m, cycle, dry, rs, n);
  }

  lemma {:induction false} MachineFollows(c: Codec, cfg: Config, m: Machine, cycle: CycleId, dry: bool,
        rs: seq<Request>, n: nat)
    requires m.limiter == Limiter([], []) && n <= |rs| == |Outcomes(c, cfg, m, cycle, dry, rs)|
    ensures Follows(ApplyAll(c, cfg, m, cycle, dry, rs[..n]), m, rs, Outcomes(c, cfg, m, cycle, dry, rs), n)
  {
    hide OutcomeOf, ApplyOne, Outcomes;
    if n == 0 {
      assert rs[..0] == [];
    } else {
      hide Follows;
      MachineFollows(c, cfg, m, cycle, dry, rs, n - 1);
      OutcomesAt(c, cfg, m, cycle, dry, rs, n - 1);
      FollowsNext(c, cfg, ApplyAll(c, cfg, m, cycle, dry, rs[..n - 1]), m, cycle, dry, rs,
                  Outcomes(c, cfg, m, cycle, dry, rs), n - 1);
    }
  }

  lemma {:induction false} OneOutcomeEach(c: Codec, cfg: Config, m: Machine, cycle: CycleId, dry: bool,
        rs: seq<Request>)
    ensures |Outcomes(c, cfg, m, cycle, dry, rs)| == |rs|
  {
    if rs != [] {
      hide OutcomeOf, ApplyAll;
      OneOutcomeEach(c, cfg, m, cycle, dry, rs[..|rs| - 1]);
    }
  }

  /** The outcome of every request of a batch, and who is promoted by it, as its story says. */
  lemma BatchOutcomes(c: Codec, cfg: Config, m: Machine, cycle: CycleId, dry: bool, rs: seq<Request>)
    requires m.limiter == Limiter([], []) && ClockRuns(rs)
    ensures var outs := Outcomes(c, cfg, m, cycle, dry, rs);
            && |outs| == |rs|
            && (forall n | 0 <= n < |rs| :: outs[n] == Fate(c, cfg, m, dry, rs, outs, n))
            && forall id :: id in ApplyAll(c, cfg, m, cycle, dry, rs).promoted
                            <==> id in m.promoted || exists j :: j in AppliedBefore(outs, |rs|) && rs[j].p.id == id
  {
    hide OutcomeOf, ApplyOne, Outcomes, Fate, ApplyAll;
    var outs := Outcomes(c, cfg, m, cycle, dry, rs);
    OneOutcomeEach(c, cfg, m, cycle, dry, rs);
    forall n | 0 <= n < |rs| ensures outs[n] == Fate(c, cfg, m, dry, rs, outs, n) {
      MachineFollows(c, cfg, m, cycle, dry, rs, n);
      OutcomesAt(c, cfg, m, cycle, dry, rs, n);
      FateIs(c, cfg, ApplyAll(c, cfg, m, cycle, dry, rs[..n]), m, dry, rs, outs, n);
    }
    MachineFollows(c, cfg, m, cycle, dry, rs, |rs|);
    assert rs[..|rs|] == rs;
  }
}
