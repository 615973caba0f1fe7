/** Batches of injections, their rollback and automatic injection (maestro/applicator.py,
    maestro/self_improve.py): what a batch followed by a rollback leaves, and the objects that do it. */
module Injector {
  import opened Wrappers
  import opened Sequences
  import opened InjectionGuard
  import opened Rollback

  datatype Machine = Machine(store: Store, log: seq<Entry>, promoted: set<ProposalId>, limiter: Limiter)

  datatype Outcome = Applied(id: EntryId) | NotInjectable | RateLimited | DryRun | Failed

  /** Source patches are not part of this model. */
  predicate InModel(p: Proposal) {
    p.changeType != CodePatch && p.changeType != ArchitectureRefactor
  }

  /** One call of `apply`: the two clock readings and the fresh ledger id it would use. */
  datatype AnyRequest = Request(p: Proposal, checkedAt: real, recordedAt: real, id: EntryId)

  type Request = r: AnyRequest | InModel(r.p)
    witness Request(
      Proposal(ProposalId(""), Category(""), ParameterUpdate, Name(""), Name(""), "", Proposed), 0.0, 0.0, EntryId(""))

  function TargetOf(p: Proposal): Target {
    if p.changeType == ConfigChange || p.changeType == PromptRewrite
    then ConfigKey(p.targetName)
    else Variable(p.moduleName, p.targetName)
  }

  function StatusNow(promoted: set<ProposalId>, p: Proposal): ProposalStatus {
    if p.id in promoted then Promoted else p.status
  }

  ghost function OutcomeOf(c: Codec, cfg: Config, m: Machine, dry: bool, r: Request): Outcome {
    if !Injectable(c, cfg, r.p, StatusNow(m.promoted, r.p)) then NotInjectable
    else if |Pruned(m.limiter.times, r.checkedAt)| >= cfg.maxPerHour then RateLimited
    else if dry then DryRun
    else if !Accepts(m.store, TargetOf(r.p)) then Failed
    else Applied(r.id)
  }

  ghost function Checked(l: Limiter, now: real): Limiter {
    Limiter(Pruned(l.times, now), l.applied)
  }

  ghost function ApplyOne(c: Codec, cfg: Config, m: Machine, cycle: CycleId, dry: bool, r: Request): Machine {
    match OutcomeOf(c, cfg, m, dry, r)
    case NotInjectable => m
    case Applied(_) =>
      var t := TargetOf(r.p);
      var kept := Checked(m.limiter, r.checkedAt);
      Machine(
        m.store[t := Injected(c, m.store, t, r.p.proposed)],
        m.log + [EntryFor(c, m.store, r.id, r.p, cycle, t)],
        m.promoted + {r.p.id},
        Limiter(kept.times + [r.recordedAt], kept.applied + [r.recordedAt]))
    case _ => m.(limiter := Checked(m.limiter, r.checkedAt))
  }

  ghost function ApplyAll(c: Codec, cfg: Config, m: Machine, cycle: CycleId, dry: bool, rs: seq<Request>): Machine {
    if rs == [] then m else
    var n := |rs| - 1;
    ApplyOne(c, cfg, ApplyAll(c, cfg, m, cycle, dry, rs[..n]), cycle, dry, rs[n])
  }

  ghost function Outcomes(c: Codec, cfg: Config, m: Machine, cycle: CycleId, dry: bool,
        rs: seq<Request>): seq<Outcome> {
    if rs == [] then [] else
    var n := |rs| - 1;
    Outcomes(c, cfg, m, cycle, dry, rs[..n]) + [OutcomeOf(c, cfg, ApplyAll(c, cfg, m, cycle, dry, rs[..n]), dry, rs[n])]
  }

  // ---- the injections of a batch that took place ----

  /** An injection that took place, with the store it found. */
  datatype Landing = Landing(store: Store, id: EntryId, p: Proposal)

  ghost predicate Legal(l: Landing) {
    Accepts(l.store, TargetOf(l.p))
  }

  ghost function EntryOf(c: Codec, cycle: CycleId, l: Landing): Entry
    requires Legal(l)
  {
    EntryFor(c, l.store, l.id, l.p, cycle, TargetOf(l.p))
  }

  ghost predicate Recovers(c: Codec, l: Landing) {
    Recoverable(c, l.store, TargetOf(l.p), l.p.proposed)
  }

  ghost function Landings(c: Codec, cfg: Config, m: Machine, cycle: CycleId, dry: bool,
        rs: seq<Request>): (r: seq<Landing>)
    ensures forall l | l in r :: Legal(l)
    ensures |r| <= |rs|
  {
    if rs == [] then [] else
    var n := |rs| - 1;
    var before := ApplyAll(c, cfg, m, cycle, dry, rs[..n]);
    Landings(c, cfg, m, cycle, dry, rs[..n])
    + if OutcomeOf(c, cfg, before, dry, rs[n]).Applied? then [Landing(before.store, rs[n].id, rs[n].p)] else []
  }

  ghost function EntriesOf(c: Codec, cycle: CycleId, ls: seq<Landing>): (r: seq<Entry>)
    requires forall l | l in ls :: Legal(l)
    ensures |r| == |ls|
  {
    if ls == [] then [] else EntriesOf(c, cycle, ls[..|ls| - 1]) + [EntryOf(c, cycle, ls[|ls| - 1])]
  }

  ghost function LastLanding(ls: seq<Landing>, t: Target): Option<Landing> {
    if ls == [] then None
    else if TargetOf(ls[|ls| - 1].p) == t then Some(ls[|ls| - 1])
    else LastLanding(ls[..|ls| - 1], t)
  }

  lemma OneStep(c: Codec, cfg: Config, before: Machine, cycle: CycleId, dry: bool, r: Request)
    ensures var l := Landing(before.store, r.id, r.p);
            var after := ApplyOne(c, cfg, before, cycle, dry, r);
            if OutcomeOf(c, cfg, before, dry, r).Applied? then
              && Legal(l)
              && after.store == before.store[TargetOf(l.p) := Injected(c, l.store, TargetOf(l.p), l.p.proposed)]
              && after.log == before.log + [EntryOf(c, cycle, l)]
            else
              after.store == before.store && after.log == before.log
  {
    hide EntryFor, Injected, TargetOf, Injectable, Pruned, InModel, Accepts;
  }

  lemma LandingsStep(c: Codec, cfg: Config, m: Machine, cycle: CycleId, dry: bool, rs: seq<Request>)
    requires rs != []
    ensures var n := |rs| - 1;
            var before := ApplyAll(c, cfg, m, cycle, dry, rs[..n]);
            var ls, front := Landings(c, cfg, m, cycle, dry, rs), Landings(c, cfg, m, cycle, dry, rs[..n]);
            var l := Landing(before.store, rs[n].id, rs[n].p);
            var after := ApplyAll(c, cfg, m, cycle, dry, rs);
            if OutcomeOf(c, cfg, before, dry, rs[n]).Applied? then
              && ls == front + [l] && ls[..|ls| - 1] == front && Legal(l)
              && after.store == before.store[TargetOf(l.p) := Injected(c, l.store, TargetOf(l.p), l.p.proposed)]
              && after.log == before.log + [EntryOf(c, cycle, l)]
            else
              ls == front && after.store == before.store && after.log == before.log
  {
    hide EntryOf, Injected, TargetOf, InModel, Legal, ApplyOne, OutcomeOf;
    OneStep(c, cfg, ApplyAll(c, cfg, m, cycle, dry, rs[..|rs| - 1]), cycle, dry, rs[|rs| - 1]);
  }

  lemma EntriesOfNext(c: Codec, cycle: CycleId, front: seq<Landing>, l: Landing)
    requires Legal(l) && forall x | x in front :: Legal(x)
    ensures forall x | x in front + [l] :: Legal(x)
    ensures EntriesOf(c, cycle, front + [l]) == EntriesOf(c, cycle, front) + [EntryOf(c, cycle, l)]
  {
    hide Legal, EntryOf;
    assert (front + [l])[..|front|] == front;
  }

  lemma Regroup(a: seq<Entry>, b: seq<Entry>, e: Entry)
    ensures a + b + [e] == a + (b + [e])
  {
  }

  /** The ledger grows by the entries of the injections that took place, in order. */
  lemma {:induction false} LedgerGrows(c: Codec, cfg: Config, m: Machine, cycle: CycleId, dry: bool, rs: seq<Request>)
    ensures ApplyAll(c, cfg, m, cycle, dry, rs).log == m.log + EntriesOf(c, cycle, Landings(c, cfg, m, cycle, dry, rs))
  {
    if rs == [] {
    } else {
      hide *;
      var n := |rs| - 1;
      LedgerGrows(c, cfg, m, cycle, dry, rs[..n]);
      LandingsStep(c, cfg, m, cycle, dry, rs);
      var before := ApplyAll(c, cfg, m, cycle, dry, rs[..n]);
      if OutcomeOf(c, cfg, before, dry, rs[n]).Applied? {
        var l, front := Landing(before.store, rs[n].id, rs[n].p), Landings(c, cfg, m, cycle, dry, rs[..n]);
        EntriesOfNext(c, cycle, front, l);
        Regroup(m.log, EntriesOf(c, cycle, front), EntryOf(c, cycle, l));
      }
    }
  }

  /** What an injection puts at its target. */
  ghost function Written(c: Codec, l: Landing): Option<Value>
    requires Legal(l)
  {
    Some(Injected(c, l.store, TargetOf(l.p), l.p.proposed))
  }

  /** The injection before the last one at a target. */
  ghost function Previous(ls: seq<Landing>, t: Target): Option<Landing> {
    if ls == [] then None
    else if TargetOf(ls[|ls| - 1].p) == t then LastLanding(ls[..|ls| - 1], t)
    else Previous(ls[..|ls| - 1], t)
  }

  lemma LastLandingNext(front: seq<Landing>, l: Landing, t: Target)
    ensures LastLanding(front + [l], t) == if TargetOf(l.p) == t then Some(l) else LastLanding(front, t)
    ensures Previous(front + [l], t) == if TargetOf(l.p) == t then LastLanding(front, t) else Previous(front, t)
  {
    hide TargetOf;
    assert (front + [l])[..|front|] == front;
  }

  lemma WriteThenGet(c: Codec, l: Landing, t: Target)
    requires Legal(l)
    ensures Get(l.store[TargetOf(l.p) := Injected(c, l.store, TargetOf(l.p), l.p.proposed)], t)
            == if TargetOf(l.p) == t then Written(c, l) else Get(l.store, t)
  {
    hide TargetOf, Injected;
  }

  /** A target holds what the last injection there put, or what it held before the batch. */
  lemma {:induction false} LastWriteHolds(c: Codec, cfg: Config, m: Machine, cycle: CycleId, dry: bool,
        rs: seq<Request>, t: Target)
    ensures var ls := Landings(c, cfg, m, cycle, dry, rs);
            var now := Get(ApplyAll(c, cfg, m, cycle, dry, rs).store, t);
            match LastLanding(ls, t)
            case None => now == Get(m.store, t)
            case Some(l) => l in ls && now == Written(c, l)
  {
    if rs == [] {
    } else {
      hide *;
      var n := |rs| - 1;
      var before := ApplyAll(c, cfg, m, cycle, dry, rs[..n]);
      var l := Landing(before.store, rs[n].id, rs[n].p);
      LandingsStep(c, cfg, m, cycle, dry, rs);
      LastWriteHolds(c, cfg, m, cycle, dry, rs[..n], t);
      LastLandingNext(Landings(c, cfg, m, cycle, dry, rs[..n]), l, t);
      if OutcomeOf(c, cfg, before, dry, rs[n]).Applied? { WriteThenGet(c, l, t); }
    }
  }

  lemma {:induction false} LastEntryIsLastLanding(c: Codec, cycle: CycleId, ls: seq<Landing>, t: Target)
    requires forall l | l in ls :: Legal(l)
    ensures LastLanding(ls, t).Some? ==> LastLanding(ls, t).value in ls && TargetOf(LastLanding(ls, t).value.p) == t
    ensures LastFor(EntriesOf(c, cycle, ls), t)
            == match LastLanding(ls, t) case Some(l) => Some(EntryOf(c, cycle, l)) case None => None
  {
    hide Legal, Original, Injected, TargetOf;
    if ls != [] {
      var n := |ls| - 1;
      assert ls[n] in ls;
      LastEntryIsLastLanding(c, cycle, ls[..n], t);
      assert EntriesOf(c, cycle, ls)[..n] == EntriesOf(c, cycle, ls[..n]);
    }
  }

  lemma {:induction false} BatchEntriesActive(c: Codec, cycle: CycleId, ls: seq<Landing>)
    requires forall l | l in ls :: Legal(l)
    ensures forall e | e in EntriesOf(c, cycle, ls) :: ActiveIn(cycle)(e)
  {
    hide Legal, Original, Injected, TargetOf;
    if ls != [] {
      assert ls[|ls| - 1] in ls;
      BatchEntriesActive(c, cycle, ls[..|ls| - 1]);
    }
  }

  ghost function RequestIds(rs: seq<Request>): set<EntryId> {
    set r | r in rs :: r.id
  }

  /** Every request brings an id nobody has used. */
  ghost predicate FreshIds(log: seq<Entry>, rs: seq<Request>) {
    DistinctIds(log) && forall i | 0 <= i < |rs| :: rs[i].id !in Ids(log) + RequestIds(rs[..i])
  }

  lemma AppendDistinct(log: seq<Entry>, e: Entry)
    requires DistinctIds(log) && e.id !in Ids(log)
    ensures DistinctIds(log + [e]) && Ids(log + [e]) == Ids(log) + {e.id}
  {
    forall i | 0 <= i < |log| ensures log[i].id != e.id {
      assert log[i] in log;
    }
  }

  lemma FreshFront(log: seq<Entry>, rs: seq<Request>)
    requires rs != [] && FreshIds(log, rs)
    ensures FreshIds(log, rs[..|rs| - 1])
    ensures rs[|rs| - 1].id !in Ids(log) + RequestIds(rs[..|rs| - 1])
    ensures RequestIds(rs) == RequestIds(rs[..|rs| - 1]) + {rs[|rs| - 1].id}
  {
    hide DistinctIds, Ids;
    var n := |rs| - 1;
    assert rs == rs[..n] + [rs[n]];
    forall i | 0 <= i < n ensures rs[..n][i].id !in Ids(log) + RequestIds(rs[..n][..i]) {
      assert rs[..n][..i] == rs[..i];
    }
  }

  lemma {:induction false} LedgerIds(c: Codec, cfg: Config, m: Machine, cycle: CycleId, dry: bool, rs: seq<Request>)
    requires FreshIds(m.log, rs)
    ensures var log := ApplyAll(c, cfg, m, cycle, dry, rs).log;
            DistinctIds(log) && Ids(log) <= Ids(m.log) + RequestIds(rs)
  {
    if rs == [] {
    } else {
      hide ApplyAll, Landings, OutcomeOf, Injected, Legal, TargetOf, DistinctIds, Ids, RequestIds;
      var n := |rs| - 1;
      FreshFront(m.log, rs);
      LedgerIds(c, cfg, m, cycle, dry, rs[..n]);
      LandingsStep(c, cfg, m, cycle, dry, rs);
      var before := ApplyAll(c, cfg, m, cycle, dry, rs[..n]);
      if OutcomeOf(c, cfg, before, dry, rs[n]).Applied? {
        AppendDistinct(before.log, EntryOf(c, cycle, Landing(before.store, rs[n].id, rs[n].p)));
      }
    }
  }

  // ---- a batch and its rollback ----

  ghost function AfterRollback(c: Codec, cfg: Config, m: Machine, cycle: CycleId, rs: seq<Request>): State {
    var after := ApplyAll(c, cfg, m, cycle, false, rs);
    RollbackCycle(c, State(after.store, after.log), cycle)
  }

  lemma {:induction false} AllChosen(es: seq<Entry>, p: Entry -> bool)
    requires forall e | e in es :: p(e)
    ensures Filter(es, p) == es
  {
    if es != [] {
      assert es[|es| - 1] in es;
      AllChosen(es[..|es| - 1], p);
    }
  }

  /** In a cycle with nothing active before, the active entries afterwards are the batch's. */
  lemma ActiveIsBatch(c: Codec, cfg: Config, m: Machine, cycle: CycleId, rs: seq<Request>)
    requires Active(m.log, cycle) == []
    ensures Active(ApplyAll(c, cfg, m, cycle, false, rs).log, cycle)
            == EntriesOf(c, cycle, Landings(c, cfg, m, cycle, false, rs))
  {
    hide ApplyAll, Landings, Filter, ActiveIn, Legal, EntriesOf;
    var es := EntriesOf(c, cycle, Landings(c, cfg, m, cycle, false, rs));
    LedgerGrows(c, cfg, m, cycle, false, rs);
    FilterAppend(m.log, es, ActiveIn(cycle));
    BatchEntriesActive(c, cycle, Landings(c, cfg, m, cycle, false, rs));
    AllChosen(es, ActiveIn(cycle));
  }

  /** After a batch and the rollback of its cycle, a target no injection took place at holds what
      it held; any other holds what the snapshot of its last injection gives, which is the value
      that injection found exactly when it was recoverable. */
  lemma BatchThenRollback(c: Codec, cfg: Config, m: Machine, cycle: CycleId, rs: seq<Request>, t: Target)
    requires SoundCodec(c) && FreshIds(m.log, rs) && Active(m.log, cycle) == []
    ensures var last := LastLanding(Landings(c, cfg, m, cycle, false, rs), t);
            var now := Get(AfterRollback(c, cfg, m, cycle, rs).store, t);
            match last
            case None => now == Get(m.store, t)
            case Some(l) => now == Get(l.store, t) <==> Recovers(c, l)
  {
    hide ApplyAll, Landings, Active, FreshIds, RollbackCycle, DistinctIds, Original, Restored, Get, Recoverable,
          TargetOf, EntriesOf, LastLanding, LastFor;
    var after := ApplyAll(c, cfg, m, cycle, false, rs);
    var ls := Landings(c, cfg, m, cycle, false, rs);
    LedgerIds(c, cfg, m, cycle, false, rs);
    RollbackCycleMeans(c, State(after.store, after.log), cycle);
    ActiveIsBatch(c, cfg, m, cycle, rs);
    LastEntryIsLastLanding(c, cycle, ls, t);
    match LastLanding(ls, t)
    case None =>
      LastWriteHolds(c, cfg, m, cycle, false, rs, t);
    case Some(l) =>
      assert l in ls;
      RestoredIff(c, l.store, l.id, l.p, cycle, t);
  }

  /** The last injection at a target found what the one before it had put there, or the value from
      before the batch. */
  lemma {:induction false} FoundByLast(c: Codec, cfg: Config, m: Machine, cycle: CycleId, dry: bool, rs: seq<Request>,
        t: Target)
    ensures var ls := Landings(c, cfg, m, cycle, dry, rs);
            LastLanding(ls, t).Some? ==>
              match Previous(ls, t)
              case None => Get(LastLanding(ls, t).value.store, t) == Get(m.store, t)
              case Some(l) => l in ls && Get(LastLanding(ls, t).value.store, t) == Written(c, l)
  {
    if rs == [] {
    } else {
      hide *;
      var n := |rs| - 1;
      var before := ApplyAll(c, cfg, m, cycle, dry, rs[..n]);
      LandingsStep(c, cfg, m, cycle, dry, rs);
      LastWriteHolds(c, cfg, m, cycle, dry, rs[..n], t);
      FoundByLast(c, cfg, m, cycle, dry, rs[..n], t);
      LastLandingNext(Landings(c, cfg, m, cycle, dry, rs[..n]), Landing(before.store, rs[n].id, rs[n].p), t);
    }
  }

  lemma {:induction false} NoPrevious(ls: seq<Landing>, t: Target)
    requires LastLanding(ls, t).None?
    ensures Previous(ls, t).None?
  {
    hide TargetOf;
    if ls != [] { NoPrevious(ls[..|ls| - 1], t); }
  }

  lemma {:induction false} LastIsOneOf(ls: seq<Landing>, t: Target)
    requires LastLanding(ls, t).Some?
    ensures exists k :: 0 <= k < |ls| && ls[k] == LastLanding(ls, t).value && TargetOf(ls[k].p) == t
  {
    hide TargetOf;
    var n := |ls| - 1;
    if TargetOf(ls[n].p) != t {
      LastIsOneOf(ls[..n], t);
      var k :| 0 <= k < n && ls[..n][k] == LastLanding(ls[..n], t).value && TargetOf(ls[..n][k].p) == t;
      assert ls[k] == LastLanding(ls, t).value;
    } else {
      assert ls[n] == LastLanding(ls, t).value;
    }
  }

  /** Undoing oldest first, the rollback takes a target back by its last injection only: what stays
      is what the injection before that one put there, if there was one. */
  lemma RollbackUndoesTheLastOnly(c: Codec, cfg: Config, m: Machine, cycle: CycleId, rs: seq<Request>, t: Target)
    requires SoundCodec(c) && FreshIds(m.log, rs) && Active(m.log, cycle) == []
    requires forall l | l in Landings(c, cfg, m, cycle, false, rs) :: Recovers(c, l)
    ensures var ls := Landings(c, cfg, m, cycle, false, rs);
            var now := Get(AfterRollback(c, cfg, m, cycle, rs).store, t);
            match Previous(ls, t)
            case None => now == Get(m.store, t)
            case Some(l) => l in ls && now == Written(c, l)
  {
    hide Landings, AfterRollback, Active, FreshIds, Recovers, Previous, SoundCodec, Written, LastLanding, Get;
    var ls := Landings(c, cfg, m, cycle, false, rs);
    BatchThenRollback(c, cfg, m, cycle, rs, t);
    FoundByLast(c, cfg, m, cycle, false, rs, t);
    if LastLanding(ls, t).Some? { LastIsOneOf(ls, t); } else { NoPrevious(ls, t); }
  }

  ghost predicate DistinctTargets(ls: seq<Landing>) {
    forall i, j | 0 <= i < j < |ls| :: TargetOf(ls[i].p) != TargetOf(ls[j].p)
  }

  lemma {:induction false} LastOfDistinct(ls: seq<Landing>, k: nat)
    requires DistinctTargets(ls) && k < |ls|
    ensures LastLanding(ls, TargetOf(ls[k].p)) == Some(ls[k])
  {
    hide TargetOf;
    var n := |ls| - 1;
    if k < n {
      assert TargetOf(ls[k].p) != TargetOf(ls[n].p);
      LastOfDistinct(ls[..n], k);
    }
  }

  lemma NoLandings(c: Codec, cfg: Config, m: Machine, cycle: CycleId, dry: bool)
    ensures Landings(c, cfg, m, cycle, dry, []) == []
  {
  }

  lemma {:induction false} NobodyElse(front: seq<Landing>, l: Landing)
    requires DistinctTargets(front + [l])
    ensures LastLanding(front, TargetOf(l.p)).None?
  {
    hide TargetOf;
    if front != [] {
      var n := |front| - 1;
      var all := front + [l];
      assert TargetOf(all[n].p) != TargetOf(all[n + 1].p);
      forall i, j | 0 <= i < j < |front[..n] + [l]|
        ensures TargetOf((front[..n] + [l])[i].p) != TargetOf((front[..n] + [l])[j].p)
      {
        assert TargetOf(all[i].p) != TargetOf(all[if j == n then n + 1 else j].p);
      }
      NobodyElse(front[..n], l);
    }
  }

  /** With one injection for each target, every injection finds the value from before the batch. */
  lemma {:induction false} FoundBefore(c: Codec, cfg: Config, m: Machine, cycle: CycleId, dry: bool, rs: seq<Request>,
        k: nat)
    requires var ls := Landings(c, cfg, m, cycle, dry, rs); DistinctTargets(ls) && k < |ls|
    ensures var l := Landings(c, cfg, m, cycle, dry, rs)[k]; Get(l.store, TargetOf(l.p)) == Get(m.store, TargetOf(l.p))
  {
    hide ApplyAll, Landings, OutcomeOf, Injected, Legal, TargetOf, EntryOf, Get, LastLanding;
    if rs == [] {
      NoLandings(c, cfg, m, cycle, dry);
    } else {
      var n := |rs| - 1;
      LandingsStep(c, cfg, m, cycle, dry, rs);
      var front := Landings(c, cfg, m, cycle, dry, rs[..n]);
      var ls := Landings(c, cfg, m, cycle, dry, rs);
      if k < |front| {
        assert ls[k] == front[k];
        FoundBefore(c, cfg, m, cycle, dry, rs[..n], k);
      } else {
        NobodyElse(front, ls[k]);
        LastWriteHolds(c, cfg, m, cycle, dry, rs[..n], TargetOf(ls[k].p));
      }
    }
  }

  lemma SameEverywhere(a: Store, b: Store)
    requires forall t :: Get(a, t) == Get(b, t)
    ensures a == b
  {
    forall t ensures t in a <==> t in b { assert Get(a, t) == Get(b, t); }
    forall t | t in a ensures a[t] == b[t] { assert Get(a, t) == Get(b, t); }
  }

  /** With one injection for each target the rollback gives back the whole store exactly when each
      of them was recoverable. */
  lemma OneEachRestoresIff(c: Codec, cfg: Config, m: Machine, cycle: CycleId, rs: seq<Request>)
    requires SoundCodec(c) && FreshIds(m.log, rs) && Active(m.log, cycle) == []
    requires DistinctTargets(Landings(c, cfg, m, cycle, false, rs))
    ensures AfterRollback(c, cfg, m, cycle, rs).store == m.store
            <==> forall l | l in Landings(c, cfg, m, cycle, false, rs) :: Recovers(c, l)
  {
    hide Landings, AfterRollback, Active, FreshIds, Recovers, TargetOf, DistinctTargets, LastLanding, SoundCodec;
    var ls := Landings(c, cfg, m, cycle, false, rs);
    var store := AfterRollback(c, cfg, m, cycle, rs).store;
    forall k | 0 <= k < |ls|
      ensures Get(store, TargetOf(ls[k].p)) == Get(m.store, TargetOf(ls[k].p)) <==> Recovers(c, ls[k])
    {
      LastOfDistinct(ls, k);
      FoundBefore(c, cfg, m, cycle, false, rs, k);
      BatchThenRollback(c, cfg, m, cycle, rs, TargetOf(ls[k].p));
    }
    if forall l | l in ls :: Recovers(c, l) {
      forall t ensures Get(store, t) == Get(m.store, t) {
        BatchThenRollback(c, cfg, m, cycle, rs, t);
        if LastLanding(ls, t).Some? { LastIsOneOf(ls, t); }
      }
      SameEverywhere(store, m.store);
    } else {
      var l :| l in ls && !Recovers(c, l);
    }
  }

  // ---- the rate limit over batches ----

  /** The requests read a clock that starts at `now` and never goes back. */
  ghost predicate ClockFrom(rs: seq<Request>, now: real) {
    && (forall i | 0 <= i < |rs| :: now <= rs[i].checkedAt <= rs[i].recordedAt)
    && forall i, j | 0 <= i < j < |rs| :: rs[i].recordedAt <= rs[j].checkedAt
  }

  lemma ClockFront(rs: seq<Request>, now: real)
    requires rs != [] && ClockFrom(rs, now)
    ensures var n := |rs| - 1;
            ClockFrom(rs[..n], now) && now <= rs[n].checkedAt <= rs[n].recordedAt
            && forall i | 0 <= i < n :: rs[..n][i].recordedAt <= rs[n].checkedAt
  {
  }

  lemma RequestKeepsLimit(c: Codec, cfg: Config, m: Machine, cycle: CycleId, dry: bool, r: Request)
    requires Sound(m.limiter, cfg.maxPerHour, r.checkedAt) && r.checkedAt <= r.recordedAt
    ensures Sound(ApplyOne(c, cfg, m, cycle, dry, r).limiter, cfg.maxPerHour, r.recordedAt)
  {
    hide Sound, Injectable, Accepts, Injected, EntryFor, After, TargetOf, StatusNow;
    var kept := Checked(m.limiter, r.checkedAt);
    CheckKeepsSound(m.limiter, cfg.maxPerHour, r.checkedAt, r.checkedAt);
    LaterStaysSound(m.limiter, cfg.maxPerHour, r.checkedAt, r.recordedAt);
    LaterStaysSound(kept, cfg.maxPerHour, r.checkedAt, r.recordedAt);
    if |kept.times| < cfg.maxPerHour { RecordKeepsSound(kept, cfg.maxPerHour, r.checkedAt, r.recordedAt); }
  }

  /** Whatever a batch does, dry or not, it keeps the limiter's bound: with `SoundBoundsWindow`, no
      window of 3600 seconds ever holds more than the allowed number of injections. */
  lemma {:induction false} BatchKeepsLimit(c: Codec, cfg: Config, m: Machine, cycle: CycleId, dry: bool,
        rs: seq<Request>, now: real, later: real)
    requires Sound(m.limiter, cfg.maxPerHour, now) && ClockFrom(rs, now) && now <= later
    requires forall i | 0 <= i < |rs| :: rs[i].recordedAt <= later
    ensures Sound(ApplyAll(c, cfg, m, cycle, dry, rs).limiter, cfg.maxPerHour, later)
  {
    if rs == [] {
      LaterStaysSound(m.limiter, cfg.maxPerHour, now, later);
    } else {
      hide Sound, ApplyOne, ClockFrom;
      var n := |rs| - 1;
      ClockFront(rs, now);
      BatchKeepsLimit(c, cfg, m, cycle, dry, rs[..n], now, rs[n].checkedAt);
      RequestKeepsLimit(c, cfg, ApplyAll(c, cfg, m, cycle, dry, rs[..n]), cycle, dry, rs[n]);
      LaterStaysSound(ApplyAll(c, cfg, m, cycle, dry, rs).limiter, cfg.maxPerHour, rs[n].recordedAt, later);
    }
  }
}
