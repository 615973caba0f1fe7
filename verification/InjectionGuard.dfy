/** The injection guard (maestro/injection_guard.py): who may be injected, and the sliding-window
    rate limiter, with the bound it keeps over a whole run. */
module InjectionGuard {
  import opened Wrappers
  import opened Sequences

  const WINDOW := 3600.0

  datatype Category = Category(text: string)

  datatype ProposalId = ProposalId(text: string)

  datatype ProposalStatus = Proposed | Testing | Validated | Rejected | Promoted

  datatype ChangeType = ParameterUpdate | CodePatch | ArchitectureRefactor | ConfigChange | PromptRewrite | OtherChange

  datatype Name = Name(text: string)

  datatype Proposal = Proposal(
    id: ProposalId,
    category: Category,
    changeType: ChangeType,
    moduleName: Name,
    targetName: Name,
    proposed: string,
    status: ProposalStatus)

  datatype Bounds = Bounds(lo: real, hi: real)

  /** The guard's settings and the strategy bounds it reads. */
  datatype Config = Config(
    maxPerHour: int,
    injectable: set<Category>,
    blocked: set<Category>,
    thresholds: map<Name, seq<Bounds>>,
    temperature: seq<Bounds>,
    temperatureName: Name)

  /** `float(text)` and `str(number)`. */
  datatype Codec = Codec(parse: string -> Option<real>, show: real -> string)

  predicate Inside(v: real, b: Bounds) {
    b.lo <= v <= b.hi
  }

  function BoundsOn(cfg: Config, target: Name): seq<Bounds> {
    (if target in cfg.thresholds then cfg.thresholds[target] else [])
    + (if target == cfg.temperatureName then cfg.temperature else [])
  }

  /** Bounds bind numeric parameter updates only. */
  ghost predicate WithinBounds(c: Codec, cfg: Config, p: Proposal) {
    p.changeType == ParameterUpdate && c.parse(p.proposed).Some?
    ==> forall b | b in BoundsOn(cfg, p.targetName) :: Inside(c.parse(p.proposed).value, b)
  }

  /** `status` is what the proposal's status is now; a promoted one is never injected again. */
  ghost predicate Injectable(c: Codec, cfg: Config, p: Proposal, status: ProposalStatus) {
    && p.category !in cfg.blocked
    && p.category in cfg.injectable
    && (status == Validated || status == Proposed)
    && WithinBounds(c, cfg, p)
  }

  /** Who may be injected, spelled out: an allowed category that is not blocked, a proposal still open, and
      for a parameter update that reads as a number, every bound on its target. */
  lemma InjectableIff(c: Codec, cfg: Config, p: Proposal, status: ProposalStatus)
    ensures Injectable(c, cfg, p, status)
            <==> && p.category in cfg.injectable && p.category !in cfg.blocked
                 && status != Testing && status != Rejected && status != Promoted
                 && (p.changeType == ParameterUpdate && c.parse(p.proposed).Some? ==>
                       var v := c.parse(p.proposed).value;
                       && (p.targetName in cfg.thresholds ==>
                             forall b | b in cfg.thresholds[p.targetName] :: b.lo <= v <= b.hi)
                       && (p.targetName == cfg.temperatureName ==>
                             forall b | b in cfg.temperature :: b.lo <= v <= b.hi))
  {
    if p.changeType == ParameterUpdate && c.parse(p.proposed).Some? {
      var of := if p.targetName in cfg.thresholds then cfg.thresholds[p.targetName] else [];
      var warm := if p.targetName == cfg.temperatureName then cfg.temperature else [];
      assert forall b :: b in BoundsOn(cfg, p.targetName) <==> b in of || b in warm;
    }
  }

  // ---- the rate limiter as functions ----

  function Recent(cutoff: real): real -> bool {
    (t: real) => t > cutoff
  }

  /** `[t for t in times if t > cutoff]`. */
  function After(times: seq<real>, cutoff: real): seq<real> {
    Filter(times, Recent(cutoff))
  }

  /** What a check keeps of the remembered times. */
  function Pruned(times: seq<real>, now: real): seq<real> {
    After(times, now - WINDOW)
  }

  /** One `apply` as the limiter sees it: the clock is read at the check and again at the record,
      and the record is made only if everything in between went well. */
  datatype Attempt = Attempt(checkedAt: real, recordedAt: real, succeeds: bool)

  datatype Limiter = Limiter(times: seq<real>, applied: seq<real>)

  function Step(max: int, l: Limiter, a: Attempt): Limiter {
    var kept := Pruned(l.times, a.checkedAt);
    if |kept| < max && a.succeeds
    then Limiter(kept + [a.recordedAt], l.applied + [a.recordedAt])
    else Limiter(kept, l.applied)
  }

  function Run(max: int, attempts: seq<Attempt>): Limiter {
    if attempts == [] then Limiter([], []) else
    Step(max, Run(max, attempts[..|attempts| - 1]), attempts[|attempts| - 1])
  }

  /** The clock never goes back. */
  ghost predicate Monotonic(attempts: seq<Attempt>) {
    && (forall i | 0 <= i < |attempts| :: attempts[i].checkedAt <= attempts[i].recordedAt)
    && forall i, j | 0 <= i < j < |attempts| :: attempts[i].recordedAt <= attempts[j].checkedAt
  }

  ghost predicate Ordered(times: seq<real>) {
    forall i, j | 0 <= i < j < |times| :: times[i] <= times[j]
  }

  ghost predicate Before(times: seq<real>, now: real) {
    forall i | 0 <= i < |times| :: times[i] <= now
  }

  /** Any `max + 1` applications in a row span at least one window. */
  ghost predicate Spaced(applied: seq<real>, max: int) {
    max >= 0 && forall i | 0 <= i && i + max < |applied| :: applied[i + max] - applied[i] >= WINDOW
  }

  /** The limiter remembers a tail of the applications; what it forgot is a window old. */
  ghost predicate Remembers(l: Limiter, now: real) {
    && |l.times| <= |l.applied|
    && l.times == l.applied[|l.applied| - |l.times|..]
    && Before(l.applied[..|l.applied| - |l.times|], now - WINDOW)
  }

  ghost predicate Sound(l: Limiter, max: int, now: real) {
    && Ordered(l.applied) && Before(l.applied, now) && Remembers(l, now)
    && (max > 0 ==> Spaced(l.applied, max)) && (max <= 0 ==> l.applied == [])
  }

  /** How many leading entries of an ordered list a prune drops. */
  function Stale(times: seq<real>, cutoff: real): (k: nat)
    ensures k <= |times|
  {
    if times == [] then 0
    else if times[|times| - 1] <= cutoff then |times|
    else Stale(times[..|times| - 1], cutoff)
  }

  lemma {:induction false} StaleSplits(times: seq<real>, cutoff: real)
    requires Ordered(times)
    ensures forall i | 0 <= i < Stale(times, cutoff) :: times[i] <= cutoff
    ensures forall i | Stale(times, cutoff) <= i < |times| :: times[i] > cutoff
  {
    if times != [] && times[|times| - 1] > cutoff {
      StaleSplits(times[..|times| - 1], cutoff);
    }
  }

  lemma {:induction false} NoneRecent(times: seq<real>, cutoff: real)
    requires forall i | 0 <= i < |times| :: times[i] <= cutoff
    ensures After(times, cutoff) == []
  {
    if times != [] { NoneRecent(times[..|times| - 1], cutoff); }
  }

  lemma PruneLast(times: seq<real>, cutoff: real)
    requires times != [] && times[|times| - 1] > cutoff
    ensures var n := |times| - 1; After(times, cutoff) == After(times[..n], cutoff) + [times[n]]
  {
  }

  lemma LastIsLatest(times: seq<real>)
    requires times != [] && Ordered(times)
    ensures forall i | 0 <= i < |times| :: times[i] <= times[|times| - 1]
    ensures Ordered(times[..|times| - 1])
  {
  }

  lemma SliceLast(times: seq<real>, k: nat)
    requires k < |times|
    ensures times[k..] == times[..|times| - 1][k..] + [times[|times| - 1]]
  {
  }

  /** Pruning an ordered list drops a prefix. */
  lemma {:induction false} PruneIsSuffix(times: seq<real>, cutoff: real)
    requires Ordered(times)
    ensures After(times, cutoff) == times[Stale(times, cutoff)..]
  {
    if times == [] {
    } else {
      hide After, Ordered;
      var n := |times| - 1;
      LastIsLatest(times);
      if times[n] <= cutoff {
        NoneRecent(times, cutoff);
      } else {
        PruneIsSuffix(times[..n], cutoff);
        PruneLast(times, cutoff);
        var k := Stale(times, cutoff);
        SliceLast(times, k);
      }
    }
  }

  lemma SuffixOrdered(l: Limiter)
    requires Ordered(l.applied) && |l.times| <= |l.applied| && l.times == l.applied[|l.applied| - |l.times|..]
    ensures Ordered(l.times)
  {
  }

  lemma BeforeLater(times: seq<real>, now: real, later: real)
    requires Before(times, now) && now <= later
    ensures Before(times, later)
  {
  }

  lemma ForgottenIsOld(l: Limiter, k: nat, now: real, later: real)
    requires Remembers(l, now) && now <= later && k <= |l.times|
    requires forall i | 0 <= i < k :: l.times[i] <= later - WINDOW
    ensures Before(l.applied[..|l.applied| - |l.times| + k], later - WINDOW)
  {
    var d := |l.applied| - |l.times|;
    forall i | 0 <= i < d + k ensures l.applied[i] <= later - WINDOW {
      if i < d {
        assert l.applied[..d][i] <= now - WINDOW;
      } else {
        assert l.applied[i] == l.times[i - d];
      }
    }
  }

  lemma CheckKeepsSound(l: Limiter, max: int, now: real, later: real)
    requires Sound(l, max, now) && now <= later
    ensures Sound(Limiter(Pruned(l.times, later), l.applied), max, later)
  {
    hide After, Spaced, Ordered, Before;
    SuffixOrdered(l);
    BeforeLater(l.applied, now, later);
    var d := |l.applied| - |l.times|;
    var k := Stale(l.times, later - WINDOW);
    PruneIsSuffix(l.times, later - WINDOW);
    StaleSplits(l.times, later - WINDOW);
    assert Pruned(l.times, later) == l.times[k..] == l.applied[d + k..];
    ForgottenIsOld(l, k, now, later);
  }

  lemma AppendLater(applied: seq<real>, now: real, later: real)
    requires Ordered(applied) && Before(applied, now) && now <= later
    ensures Ordered(applied + [later]) && Before(applied + [later], later)
  {
  }

  lemma AppendSpaced(applied: seq<real>, max: int, d: nat, now: real, later: real)
    requires Spaced(applied, max) && d <= |applied| < d + max && now <= later
    requires Before(applied[..d], now - WINDOW)
    ensures Spaced(applied + [later], max)
  {
    var more := applied + [later];
    forall i | 0 <= i && i + max < |more| ensures more[i + max] - more[i] >= WINDOW {
      if i + max == |applied| {
        assert more[i] == applied[..d][i];
      }
    }
  }

  lemma RecordKeepsSound(l: Limiter, max: int, now: real, later: real)
    requires Sound(l, max, now) && |l.times| < max && now <= later
    ensures Sound(Limiter(l.times + [later], l.applied + [later]), max, later)
  {
    hide Ordered, Before, Spaced;
    var d := |l.applied| - |l.times|;
    var applied := l.applied + [later];
    assert applied[d..] == l.times + [later] && applied[..d] == l.applied[..d];
    BeforeLater(l.applied[..d], now - WINDOW, later - WINDOW);
    AppendLater(l.applied, now, later);
    AppendSpaced(l.applied, max, d, now, later);
  }

  lemma LaterStaysSound(l: Limiter, max: int, now: real, later: real)
    requires Sound(l, max, now) && now <= later
    ensures Sound(l, max, later)
  {
  }

  /** Over any run with a clock that never goes back, any `max + 1` applications in a row span a
      whole window; with no allowance nothing is ever applied. */
  lemma {:induction false} RunSound(max: int, attempts: seq<Attempt>, now: real)
    requires Monotonic(attempts) && forall i | 0 <= i < |attempts| :: attempts[i].recordedAt <= now
    ensures Sound(Run(max, attempts), max, now)
  {
    if attempts != [] {
      var n := |attempts| - 1;
      var a, before := attempts[n], Run(max, attempts[..n]);
      RunSound(max, attempts[..n], a.checkedAt);
      CheckKeepsSound(before, max, a.checkedAt, a.checkedAt);
      var checked := Limiter(Pruned(before.times, a.checkedAt), before.applied);
      if |checked.times| < max && a.succeeds {
        RecordKeepsSound(checked, max, a.checkedAt, a.recordedAt);
        LaterStaysSound(Run(max, attempts), max, a.recordedAt, now);
      } else {
        LaterStaysSound(checked, max, a.checkedAt, now);
      }
    }
  }

  /** Applications in the half-open window of 3600 seconds that starts at `from`. */
  function CountWithin(applied: seq<real>, from: real): nat {
    if applied == [] then 0 else
    var n := |applied| - 1;
    CountWithin(applied[..n], from) + if from <= applied[n] < from + WINDOW then 1 else 0
  }

  /** In an ordered list the applications of a window are neighbours. */
  lemma {:induction false} WindowIsRun(applied: seq<real>, from: real) returns (first: nat)
    requires Ordered(applied)
    ensures first + CountWithin(applied, from) <= |applied|
    ensures forall i | first <= i < first + CountWithin(applied, from) :: from <= applied[i] < from + WINDOW
    ensures forall i | 0 <= i < first :: applied[i] < from
    ensures forall i | first + CountWithin(applied, from) <= i < |applied| :: applied[i] >= from + WINDOW
  {
    if applied == [] {
      first := 0;
    } else {
      var n := |applied| - 1;
      first := WindowIsRun(applied[..n], from);
      if applied[n] < from {
        assert forall i | 0 <= i < n :: applied[i] < from;
        first := n + 1;
      }
    }
  }

  lemma SoundBoundsWindow(l: Limiter, max: int, now: real, from: real)
    requires Sound(l, max, now)
    ensures CountWithin(l.applied, from) <= if max < 0 then 0 else max
  {
    var first := WindowIsRun(l.applied, from);
    assert max > 0 && first + max < |l.applied| ==> l.applied[first + max] - l.applied[first] >= WINDOW;
  }

  /** The promise: in any window of 3600 seconds at most `max` applications, although old times
      are forgotten and the clock is read twice. */
  lemma AtMostMaxPerWindow(max: int, attempts: seq<Attempt>, from: real)
    requires Monotonic(attempts)
    ensures CountWithin(Run(max, attempts).applied, from) <= if max < 0 then 0 else max
  {
    hide CountWithin, Run;
    var now := if attempts == [] then 0.0 else attempts[|attempts| - 1].recordedAt;
    forall i | 0 <= i < |attempts| ensures attempts[i].recordedAt <= now {
      assert attempts[|attempts| - 1].checkedAt <= attempts[|attempts| - 1].recordedAt;
    }
    RunSound(max, attempts, now);
    SoundBoundsWindow(Run(max, attempts), max, now, from);
  }

  lemma OldDropped(gone: seq<real>, times: seq<real>, cutoff: real)
    requires Before(gone, cutoff)
    ensures After(gone + times, cutoff) == After(times, cutoff)
  {
    FilterAppend(gone, times, Recent(cutoff));
    NoneRecent(gone, cutoff);
  }

  /** Forgetting loses nothing: a check allows an application exactly when fewer than `max` of all
      the applications ever made lie within the last window. */
  lemma ForgettingLosesNothing(max: int, attempts: seq<Attempt>, now: real)
    requires Monotonic(attempts) && forall i | 0 <= i < |attempts| :: attempts[i].recordedAt <= now
    ensures Pruned(Run(max, attempts).times, now) == Pruned(Run(max, attempts).applied, now)
  {
    hide After, Run, Monotonic, Ordered, Spaced;
    RunSound(max, attempts, now);
    var l := Run(max, attempts);
    var d := |l.applied| - |l.times|;
    assert l.applied == l.applied[..d] + l.times;
    OldDropped(l.applied[..d], l.times, now - WINDOW);
  }

  // ---- the guard object ----

  class Guard {
    const cfg: Config
    var times: seq<real>
    /** Every application ever recorded. */
    ghost var applied: seq<real>

    ghost function View(): Limiter
      reads this
    {
      Limiter(times, applied)
    }

    constructor (cfg: Config)
      ensures this.cfg == cfg && View() == Limiter([], [])
    {
      this.cfg := cfg;
      times, applied := [], [];
    }

    /** The clock's reading is `now`; the remembered times shrink, nothing else changes. */
    method CheckRateLimit(now: real) returns (allowed: bool)
      modifies this
      ensures View() == Limiter(Pruned(old(times), now), old(applied))
      ensures allowed <==> |times| < cfg.maxPerHour
    {
      times := After(times, now - WINDOW);
      allowed := |times| < cfg.maxPerHour;
    }

    method RecordInjection(now: real)
      modifies this
      ensures View() == Limiter(old(times) + [now], old(applied) + [now])
    {
      times := times + [now];
      applied := applied + [now];
    }

    method CheckBounds(c: Codec, p: Proposal) returns (ok: bool)
      ensures ok == WithinBounds(c, cfg, p)
    {
      if p.changeType != ParameterUpdate || c.parse(p.proposed).None? {
        return true;
      }
      var v := c.parse(p.proposed).value;
      var bounds := BoundsOn(cfg, p.targetName);
      for i := 0 to |bounds|
        invariant forall k | 0 <= k < i :: Inside(v, bounds[k])
      {
        if v < bounds[i].lo || v > bounds[i].hi {
          assert bounds[i] in bounds && !Inside(v, bounds[i]);
          return false;
        }
      }
      return true;
    }

    method IsInjectable(c: Codec, p: Proposal, status: ProposalStatus) returns (ok: bool)
      ensures ok == Injectable(c, cfg, p, status)
    {
      if p.category in cfg.blocked || p.category !in cfg.injectable || (status != Validated && status != Proposed) {
        return false;
      }
      ok := CheckBounds(c, p);
    }
  }
}
