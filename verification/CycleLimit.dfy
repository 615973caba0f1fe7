/** The rate limit across improvement cycles (maestro/self_improve.py:218-227): every cycle makes a
    guard of its own, so the hourly bound of one guard says nothing about two of them. */
module CycleLimit {
  import opened Wrappers
  import opened Sequences
  import opened InjectionGuard
  import opened Rollback
  import opened Injector

  // ---- a cycle's batch is one run of a new limiter ----

  ghost function AttemptAt(m: Machine, dry: bool, r: Request): Attempt {
    Attempt(r.checkedAt, r.recordedAt, !dry && Accepts(m.store, TargetOf(r.p)))
  }

  /** What the limiter sees of a batch: the requests that pass the other checks. */
  ghost function AttemptsOf(c: Codec, cfg: Config, m: Machine, cycle: CycleId, dry: bool,
        rs: seq<Request>): (r: seq<Attempt>)
    ensures |r| <= |rs|
  {
    if rs == [] then [] else
    var n := |rs| - 1;
    var before := ApplyAll(c, cfg, m, cycle, dry, rs[..n]);
    var r := rs[n];
    AttemptsOf(c, cfg, m, cycle, dry, rs[..n])
    + if Injectable(c, cfg, r.p, StatusNow(before.promoted, r.p))
      then [AttemptAt(before, dry, r)]
      else []
  }

  lemma AttemptsNext(c: Codec, cfg: Config, m: Machine, cycle: CycleId, dry: bool, rs: seq<Request>)
    requires rs != []
    ensures var n := |rs| - 1;
            var before := ApplyAll(c, cfg, m, cycle, dry, rs[..n]);
            && ApplyAll(c, cfg, m, cycle, dry, rs) == ApplyOne(c, cfg, before, cycle, dry, rs[n])
            && AttemptsOf(c, cfg, m, cycle, dry, rs)
               == if Injectable(c, cfg, rs[n].p, StatusNow(before.promoted, rs[n].p))
                  then AttemptsOf(c, cfg, m, cycle, dry, rs[..n]) + [AttemptAt(before, dry, rs[n])]
                  else AttemptsOf(c, cfg, m, cycle, dry, rs[..n])
  {
    hide Injectable, StatusNow, AttemptAt, ApplyOne;
  }

  lemma RunMore(max: int, attempts: seq<Attempt>, a: Attempt)
    ensures Run(max, attempts + [a]) == Step(max, Run(max, attempts), a)
  {
    hide Step;
    assert (attempts + [a])[..|attempts|] == attempts;
  }

  /** One request, as its limiter sees it. */
  lemma RequestIsStep(c: Codec, cfg: Config, m: Machine, cycle: CycleId, dry: bool, r: Request)
    ensures ApplyOne(c, cfg, m, cycle, dry, r).limiter
            == if Injectable(c, cfg, r.p, StatusNow(m.promoted, r.p))
               then Step(cfg.maxPerHour, m.limiter, AttemptAt(m, dry, r))
               else m.limiter
  {
    hide Injectable, Accepts, Pruned, Injected, EntryFor, TargetOf, StatusNow;
  }

  lemma {:induction false} CycleIsRun(c: Codec, cfg: Config, m: Machine, cycle: CycleId, dry: bool, rs: seq<Request>)
    requires m.limiter == Limiter([], [])
    ensures ApplyAll(c, cfg, m, cycle, dry, rs).limiter == Run(cfg.maxPerHour, AttemptsOf(c, cfg, m, cycle, dry, rs))
  {
    if rs == [] {
      assert Run(cfg.maxPerHour, []) == Limiter([], []);
    } else {
      hide *;
      var n := |rs| - 1;
      var r, before := rs[n], ApplyAll(c, cfg, m, cycle, dry, rs[..n]);
      CycleIsRun(c, cfg, m, cycle, dry, rs[..n]);
      RequestIsStep(c, cfg, before, cycle, dry, r);
      AttemptsNext(c, cfg, m, cycle, dry, rs);
      RunMore(cfg.maxPerHour, AttemptsOf(c, cfg, m, cycle, dry, rs[..n]), AttemptAt(before, dry, r));
    }
  }

  datatype Batch = Batch(attempts: seq<Attempt>)

  function InjectedBy(max: int, batch: Batch): seq<real> {
    Run(max, batch.attempts).applied
  }

  /** The injections of a series of cycles, each under a limiter of its own. */
  function Joined(max: int, cycles: seq<Batch>): seq<real> {
    if cycles == [] then [] else Joined(max, cycles[..|cycles| - 1]) + InjectedBy(max, cycles[|cycles| - 1])
  }

  // ---- what is left of the bound ----

  /** How many of the cycles inject something in the window that starts at `from`. */
  function Meeting(max: int, cycles: seq<Batch>, from: real): nat {
    if cycles == [] then 0 else
    Meeting(max, cycles[..|cycles| - 1], from)
    + if CountWithin(InjectedBy(max, cycles[|cycles| - 1]), from) > 0 then 1 else 0
  }

  lemma {:induction false} CountAppend(a: seq<real>, b: seq<real>, from: real)
    ensures CountWithin(a + b, from) == CountWithin(a, from) + CountWithin(b, from)
  {
    if b == [] {
      assert a + b == a;
    } else {
      var n := |b| - 1;
      assert (a + b)[..|a + b| - 1] == a + b[..n];
      CountAppend(a, b[..n], from);
    }
  }

  function Allowance(max: nat, cycles: nat): nat {
    max * cycles
  }

  /** The clock never goes back within a cycle. */
  ghost predicate EachMonotonic(cycles: seq<Batch>) {
    forall i | 0 <= i < |cycles| :: Monotonic(cycles[i].attempts)
  }

  lemma LastCycle(max: nat, cycles: seq<Batch>, from: real)
    requires cycles != [] && EachMonotonic(cycles)
    ensures EachMonotonic(cycles[..|cycles| - 1])
    ensures CountWithin(InjectedBy(max, cycles[|cycles| - 1]), from) <= max
  {
    hide Monotonic, CountWithin, Run;
    AtMostMaxPerWindow(max, cycles[|cycles| - 1].attempts, from);
  }

  lemma OneMoreCycle(max: nat, cycles: seq<Batch>, from: real)
    requires cycles != []
    ensures var n := |cycles| - 1;
            var last := CountWithin(InjectedBy(max, cycles[n]), from);
            && CountWithin(Joined(max, cycles), from) == CountWithin(Joined(max, cycles[..n]), from) + last
            && Meeting(max, cycles, from) == Meeting(max, cycles[..n], from) + if last > 0 then 1 else 0
  {
    hide CountWithin, InjectedBy;
    CountAppend(Joined(max, cycles[..|cycles| - 1]), InjectedBy(max, cycles[|cycles| - 1]), from);
  }

  lemma OneMoreTimes(max: nat, k: nat)
    ensures Allowance(max, k + 1) == Allowance(max, k) + max
  {
  }

  /** A window holds at most the allowance for each cycle that injects in it. */
  lemma {:induction false} AllowanceForEachCycle(max: nat, cycles: seq<Batch>, from: real)
    requires EachMonotonic(cycles)
    ensures CountWithin(Joined(max, cycles), from) <= Allowance(max, Meeting(max, cycles, from))
  {
    if cycles == [] {
    } else {
      hide *;
      var n := |cycles| - 1;
      LastCycle(max, cycles, from);
      AllowanceForEachCycle(max, cycles[..n], from);
      OneMoreCycle(max, cycles, from);
      OneMoreTimes(max, Meeting(max, cycles[..n], from));
    }
  }

  function Copies<T>(x: T, n: nat): (r: seq<T>)
    ensures |r| == n
  {
    if n == 0 then [] else Copies(x, n - 1) + [x]
  }

  lemma {:induction false} CopiesWithin(t: real, n: nat)
    ensures CountWithin(Copies(t, n), t) == n
  {
    if n > 0 {
      assert Copies(t, n)[..n - 1] == Copies(t, n - 1);
      CopiesWithin(t, n - 1);
    }
  }

  lemma {:induction false} AllRecent(times: seq<real>, t: real)
    requires times == Copies(t, |times|)
    ensures Pruned(times, t) == times
  {
    if times != [] {
      var n := |times| - 1;
      assert times[..n] == Copies(t, n) && times[n] == t;
      AllRecent(times[..n], t);
      PruneLast(times, t - WINDOW);
    }
  }

  lemma StepCopies(max: nat, t: real, k: nat)
    requires k < max
    ensures Step(max, Limiter(Copies(t, k), Copies(t, k)), Attempt(t, t, true))
            == Limiter(Copies(t, k + 1), Copies(t, k + 1))
  {
    hide Pruned;
    AllRecent(Copies(t, k), t);
  }

  /** As many attempts as are allowed, all at one moment, all take place. */
  lemma {:induction false} FullBatch(max: nat, t: real, n: nat)
    requires n <= max
    ensures Run(max, Copies(Attempt(t, t, true), n)) == Limiter(Copies(t, n), Copies(t, n))
  {
    if n == 0 {
      assert Run(max, []) == Limiter([], []);
    } else {
      hide Run, Step;
      FullBatch(max, t, n - 1);
      RunMore(max, Copies(Attempt(t, t, true), n - 1), Attempt(t, t, true));
      StepCopies(max, t, n - 1);
    }
  }

  /** The bound is reached: cycles that all inject their allowance at one moment. */
  lemma {:induction false} AllowanceIsReached(max: nat, t: real, n: nat)
    requires max > 0
    ensures var cycles := Copies(Batch(Copies(Attempt(t, t, true), max)), n);
            CountWithin(Joined(max, cycles), t) == Allowance(max, n) && Meeting(max, cycles, t) == n
  {
    if n == 0 {
    } else {
      hide CountWithin, Run, Allowance;
      var batch := Batch(Copies(Attempt(t, t, true), max));
      var cycles := Copies(batch, n);
      assert cycles[..n - 1] == Copies(batch, n - 1) && cycles[n - 1] == batch;
      AllowanceIsReached(max, t, n - 1);
      FullBatch(max, t, max);
      CopiesWithin(t, max);
      CountAppend(Joined(max, cycles[..n - 1]), InjectedBy(max, batch), t);
      OneMoreTimes(max, n - 1);
    }
  }

  // ---- exactly when the next cycle keeps the limit ----

  ghost predicate KeepsLimit(applied: seq<real>, max: nat) {
    forall from :: CountWithin(applied, from) <= max
  }

  /** A batch whose first clock reading is `start`. */
  ghost predicate StartsAt(batch: seq<Attempt>, start: real) {
    Monotonic(batch) && batch != [] && batch[0].checkedAt == start
  }

  ghost predicate EveryBatchKeeps(applied: seq<real>, max: nat, start: real) {
    forall batch | StartsAt(batch, start) :: KeepsLimit(applied + Run(max, batch).applied, max)
  }

  lemma {:induction false} CountNone(applied: seq<real>, from: real)
    requires forall i | 0 <= i < |applied| :: !(from <= applied[i] < from + WINDOW)
    ensures CountWithin(applied, from) == 0
  {
    if applied != [] { CountNone(applied[..|applied| - 1], from); }
  }

  lemma {:induction false} CountSome(applied: seq<real>, from: real, i: nat)
    requires i < |applied| && from <= applied[i] < from + WINDOW
    ensures CountWithin(applied, from) > 0
  {
    if i < |applied| - 1 { CountSome(applied[..|applied| - 1], from, i); }
  }

  lemma {:induction false} AppliedNotBefore(max: nat, batch: seq<Attempt>, start: real)
    requires forall i | 0 <= i < |batch| :: start <= batch[i].checkedAt <= batch[i].recordedAt
    ensures forall i | 0 <= i < |Run(max, batch).applied| :: start <= Run(max, batch).applied[i]
  {
    if batch != [] {
      hide Pruned;
      AppliedNotBefore(max, batch[..|batch| - 1], start);
    }
  }

  lemma BatchNotBefore(batch: seq<Attempt>, start: real)
    requires StartsAt(batch, start)
    ensures forall i | 0 <= i < |batch| :: start <= batch[i].checkedAt <= batch[i].recordedAt
  {
    forall i | 0 <= i < |batch| ensures start <= batch[i].checkedAt <= batch[i].recordedAt {
      assert batch[0].checkedAt <= batch[0].recordedAt;
      if i > 0 { assert batch[0].recordedAt <= batch[i].checkedAt; }
    }
  }

  lemma OldCyclesDoNotMatter(applied: seq<real>, max: nat, start: real, batch: seq<Attempt>)
    requires KeepsLimit(applied, max) && StartsAt(batch, start)
    requires forall i | 0 <= i < |applied| :: applied[i] <= start - WINDOW
    ensures KeepsLimit(applied + Run(max, batch).applied, max)
  {
    hide CountWithin, Run;
    BatchNotBefore(batch, start);
    AppliedNotBefore(max, batch, start);
    var fresh' := Run(max, batch).applied;
    forall from ensures CountWithin(applied + fresh', from) <= max {
      CountAppend(applied, fresh', from);
      AtMostMaxPerWindow(max, batch, from);
      assert CountWithin(applied, from) <= max;
      if from <= start - WINDOW { CountNone(fresh', from); } else { CountNone(applied, from); }
    }
  }

  lemma {:induction false} AllTheSame<T>(x: T, n: nat)
    ensures forall i | 0 <= i < n :: Copies(x, n)[i] == x
  {
    if n > 0 { AllTheSame(x, n - 1); }
  }

  lemma {:induction false} CopiesMonotonic(t: real, n: nat)
    ensures Monotonic(Copies(Attempt(t, t, true), n))
    ensures n > 0 ==> Copies(Attempt(t, t, true), n)[0] == Attempt(t, t, true)
  {
    if n > 0 {
      CopiesMonotonic(t, n - 1);
      AllTheSame(Attempt(t, t, true), n);
    }
  }

  lemma {:induction false} CountCopies(t: real, n: nat, from: real)
    requires from <= t < from + WINDOW
    ensures CountWithin(Copies(t, n), from) == n
  {
    if n > 0 {
      assert Copies(t, n)[..n - 1] == Copies(t, n - 1);
      CountCopies(t, n - 1, from);
    }
  }

  lemma RecentCycleBreaks(applied: seq<real>, max: nat, start: real, i: nat)
    requires max >= 1 && i < |applied| && start - WINDOW < applied[i] <= start
    ensures !EveryBatchKeeps(applied, max, start)
  {
    hide CountWithin, Run, Monotonic;
    var batch := Copies(Attempt(start, start, true), max);
    CopiesMonotonic(start, max);
    FullBatch(max, start, max);
    var from := applied[i];
    CountAppend(applied, Copies(start, max), from);
    CountSome(applied, from, i);
    CountCopies(start, max, from);
    assert CountWithin(applied + Run(max, batch).applied, from) > max;
    assert StartsAt(batch, start) && !KeepsLimit(applied + Run(max, batch).applied, max);
  }

  /** Whatever the next cycle injects, the joined run keeps the hourly limit exactly when none of the
      earlier cycles' injections lies within the last 3600 seconds as the cycle starts. */
  lemma NextCycleKeepsLimitIff(applied: seq<real>, max: nat, start: real)
    requires max >= 1 && Before(applied, start) && KeepsLimit(applied, max)
    ensures EveryBatchKeeps(applied, max, start)
            <==> forall i | 0 <= i < |applied| :: applied[i] <= start - WINDOW
  {
    hide CountWithin, KeepsLimit, StartsAt, Run;
    if forall i | 0 <= i < |applied| :: applied[i] <= start - WINDOW {
      forall batch | StartsAt(batch, start) ensures KeepsLimit(applied + Run(max, batch).applied, max) {
        OldCyclesDoNotMatter(applied, max, start, batch);
      }
    } else {
      var i :| 0 <= i < |applied| && applied[i] > start - WINDOW;
      RecentCycleBreaks(applied, max, start, i);
    }
  }

  // ---- two cycles of the real machine ----

  /** The machine a new cycle finds: everything but the limiter carries over. */
  function NewGuard(m: Machine): Machine {
    m.(limiter := Limiter([], []))
  }

  /** A proposal no check stops, alone before a new limiter, is applied. */
  lemma OneApplies(c: Codec, cfg: Config, m: Machine, cycle: CycleId, r: Request)
    requires m.limiter == Limiter([], []) && cfg.maxPerHour >= 1 && Accepts(m.store, TargetOf(r.p))
    requires Injectable(c, cfg, r.p, StatusNow(m.promoted, r.p))
    ensures var after := ApplyAll(c, cfg, m, cycle, false, [r]);
            && after.limiter == Limiter([r.recordedAt], [r.recordedAt])
            && after.promoted == m.promoted + {r.p.id}
            && after.store.Keys == m.store.Keys + {TargetOf(r.p)}
  {
    hide Injectable, Accepts, TargetOf, Injected, EntryFor;
    assert [r][..0] == [] && ApplyAll(c, cfg, m, cycle, false, []) == m;
    assert Pruned([], r.checkedAt) == [];
    assert [] + [r.recordedAt] == [r.recordedAt];
  }

  /** One injection allowed in an hour, and two cycles a second apart inject one each. */
  lemma TwoCyclesInjectTwice(c: Codec, one: CycleId, two: CycleId)
    ensures var a, b := Name("a"), Name("b");
            var cfg := Config(1, {Category("threshold")}, {}, map[], [], Name("temperature"));
            var store: Store := map[Variable(a, a) := Number(1.0), Variable(a, b) := Number(1.0)];
            var m := Machine(store, [], {}, Limiter([], []));
            var p := Proposal(ProposalId("p"), Category("threshold"), ParameterUpdate, a, a, "2", Validated);
            var q := Proposal(ProposalId("q"), Category("threshold"), ParameterUpdate, a, b, "2", Validated);
            var first := ApplyAll(c, cfg, m, one, false, [Request(p, 0.0, 0.0, EntryId("x"))]);
            var second := ApplyAll(c, cfg, NewGuard(first), two, false, [Request(q, 1.0, 1.0, EntryId("y"))]);
            && first.limiter.applied == [0.0] && second.limiter.applied == [1.0]
            && CountWithin(first.limiter.applied + second.limiter.applied, 0.0) == 2
  {
    hide ApplyAll, Pruned, ApplyOne;
    var a, b := Name("a"), Name("b");
    assert a.text != b.text;
    var cfg := Config(1, {Category("threshold")}, {}, map[], [], Name("temperature"));
    assert |a.text| == 1 && |b.text| == 1 && |cfg.temperatureName.text| > 1;
    var store: Store := map[Variable(a, a) := Number(1.0), Variable(a, b) := Number(1.0)];
    var m := Machine(store, [], {}, Limiter([], []));
    var p := Proposal(ProposalId("p"), Category("threshold"), ParameterUpdate, a, a, "2", Validated);
    var q := Proposal(ProposalId("q"), Category("threshold"), ParameterUpdate, a, b, "2", Validated);
    assert p.id.text[0] != q.id.text[0];
    var r, s := Request(p, 0.0, 0.0, EntryId("x")), Request(q, 1.0, 1.0, EntryId("y"));
    OneApplies(c, cfg, m, one, r);
    OneApplies(c, cfg, NewGuard(ApplyAll(c, cfg, m, one, false, [r])), two, s);
    assert [0.0] + [1.0] == [0.0, 1.0] && [0.0, 1.0][..1] == [0.0] && [0.0][..0] == [];
    assert CountWithin([0.0], 0.0) == 1;
  }
}
