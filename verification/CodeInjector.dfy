/** The mutable injector, its ledger and the automatic injection of one improvement cycle, proved
    against the functions of `Injector` and `Rollback`. */
module CodeInjector {
  import opened Wrappers
  import opened Sequences
  import opened InjectionGuard
  import opened Rollback
  import opened Injector
  import opened RestoredStore

  lemma {:induction false} MarkFirst(log: seq<Entry>, id: EntryId, i: nat)
    requires i < |log| && log[i].id == id && log[i].active
    requires forall k | 0 <= k < i :: !(log[k].id == id && log[k].active)
    ensures Mark(log, id) == log[i := log[i].(active := false)]
  {
    if i > 0 { MarkFirst(log[1..], id, i - 1); }
  }

  lemma {:induction false} MarkNothing(log: seq<Entry>, id: EntryId)
    requires forall k | 0 <= k < |log| :: !(log[k].id == id && log[k].active)
    ensures Mark(log, id) == log
  {
    if log != [] { MarkNothing(log[1..], id); }
  }

  class RollbackLog {
    var entries: seq<Entry>

    constructor (entries: seq<Entry>)
      ensures this.entries == entries
    {
      this.entries := entries;
    }

    /** `snapshot_runtime` and `snapshot_config`. */
    method Snapshot(id: EntryId, proposal: ProposalId, cycle: CycleId, target: Target, original: string,
          replacement: string)
      returns (entry: Entry)
      modifies this
      ensures entry == Entry(id, proposal, cycle, target, original, replacement, true)
      ensures entries == old(entries) + [entry]
    {
      entry := Entry(id, proposal, cycle, target, original, replacement, true);
      entries := entries + [entry];
    }

    method Lookup(id: EntryId) returns (entry: Option<Entry>)
      ensures entry == Find(entries, id)
    {
      for i := 0 to |entries|
        invariant Find(entries, id) == Find(entries[i..], id)
      {
        assert entries[i..][1..] == entries[i + 1..];
        if entries[i].id == id {
          return Some(entries[i]);
        }
      }
      return None;
    }

    method MarkRolledBack(id: EntryId) returns (found: bool)
      modifies this
      ensures entries == Mark(old(entries), id)
      ensures found <==> exists i :: 0 <= i < |old(entries)| && old(entries)[i].id == id && old(entries)[i].active
    {
      hide Mark;
      for i := 0 to |entries|
        invariant entries == old(entries)
        invariant forall k | 0 <= k < i :: !(entries[k].id == id && entries[k].active)
      {
        if entries[i].id == id && entries[i].active {
          MarkFirst(entries, id, i);
          entries := entries[i := entries[i].(active := false)];
          return true;
        }
      }
      MarkNothing(entries, id);
      return false;
    }

    /** Each active entry of the cycle once, oldest first. */
    method GetActiveByCycle(cycle: CycleId) returns (active: seq<Entry>)
      ensures active == Active(entries, cycle)
      ensures exists at :: TakenAt(active, entries, at)
                && forall k | 0 <= k < |entries| :: k in at <==> entries[k].cycle == cycle && entries[k].active
    {
      active := [];
      for i := 0 to |entries|
        invariant active == Active(entries[..i], cycle)
      {
        assert entries[..i + 1][..i] == entries[..i];
        if entries[i].cycle == cycle && entries[i].active {
          active := active + [entries[i]];
        }
      }
      assert entries[..|entries|] == entries;
      ghost var at := ActiveMeans(entries, cycle);
    }
  }

  /** The running system an injector changes: module variables and the configuration overlay, and
      which proposals it has promoted. */
  class Environment {
    var store: Store
    var promoted: set<ProposalId>

    constructor (store: Store)
      ensures this.store == store && promoted == {}
    {
      this.store, promoted := store, {};
    }
  }

  class CodeInjector {
    const codec: Codec
    const env: Environment
    const guard: Guard
    const log: RollbackLog

    constructor (codec: Codec, env: Environment, guard: Guard, log: RollbackLog)
      ensures this.codec == codec && this.env == env && this.guard == guard && this.log == log
    {
      this.codec, this.env, this.guard, this.log := codec, env, guard, log;
    }

    ghost function View(): Machine
      reads env, guard, log
    {
      Machine(env.store, log.entries, env.promoted, guard.View())
    }

    method InjectRuntime(p: Proposal, cycle: CycleId, id: EntryId) returns (done: Option<Entry>)
      requires TargetOf(p).Variable?
      modifies env`store, log
      ensures done.Some? <==> Accepts(old(env.store), TargetOf(p))
      ensures done.None? ==> env.store == old(env.store) && log.entries == old(log.entries)
      ensures done.Some? ==>
                && done.value == EntryFor(codec, old(env.store), id, p, cycle, TargetOf(p))
                && env.store == old(env.store)[TargetOf(p) := Injected(codec, old(env.store), TargetOf(p), p.proposed)]
                && log.entries == old(log.entries) + [done.value]
    {
      var t := TargetOf(p);
      if t !in env.store {
        return None;
      }
      var original := Str(codec, env.store[t]);
      var value := Coerce(codec, p.proposed, original);
      env.store := env.store[t := value];
      var entry := log.Snapshot(id, p.id, cycle, t, original, Str(codec, value));
      done := Some(entry);
    }

    method InjectConfig(p: Proposal, cycle: CycleId, id: EntryId) returns (done: Option<Entry>)
      requires TargetOf(p).ConfigKey?
      modifies env`store, log
      ensures done == Some(EntryFor(codec, old(env.store), id, p, cycle, TargetOf(p)))
      ensures env.store == old(env.store)[TargetOf(p) := Injected(codec, old(env.store), TargetOf(p), p.proposed)]
      ensures log.entries == old(log.entries) + [done.value]
    {
      var t := TargetOf(p);
      var original := if t in env.store then Str(codec, env.store[t]) else "";
      env.store := env.store[t := Text(p.proposed)];
      var entry := log.Snapshot(id, p.id, cycle, t, original, p.proposed);
      done := Some(entry);
    }

    method Apply(r: Request, cycle: CycleId, dry: bool) returns (outcome: Outcome)
      modifies env, guard, log
      ensures outcome == OutcomeOf(codec, guard.cfg, old(View()), dry, r)
      ensures View() == ApplyOne(codec, guard.cfg, old(View()), cycle, dry, r)
    {
      hide Injectable, EntryFor, Injected, After;
      var allowed := guard.IsInjectable(codec, r.p, StatusNow(env.promoted, r.p));
      if !allowed {
        return NotInjectable;
      }
      allowed := guard.CheckRateLimit(r.checkedAt);
      if !allowed {
        return RateLimited;
      }
      if dry {
        return DryRun;
      }
      var done;
      if TargetOf(r.p).Variable? {
        done := InjectRuntime(r.p, cycle, r.id);
      } else {
        done := InjectConfig(r.p, cycle, r.id);
      }
      if done.None? {
        return Failed;
      }
      guard.RecordInjection(r.recordedAt);
      env.promoted := env.promoted + {r.p.id};
      return Applied(r.id);
    }

    method ApplyBatch(rs: seq<Request>, cycle: CycleId, dry: bool) returns (outcomes: seq<Outcome>)
      modifies env, guard, log
      ensures View() == ApplyAll(codec, guard.cfg, old(View()), cycle, dry, rs)
      ensures outcomes == Outcomes(codec, guard.cfg, old(View()), cycle, dry, rs)
    {
      hide OutcomeOf, ApplyOne;
      outcomes := [];
      for i := 0 to |rs|
        invariant View() == ApplyAll(codec, guard.cfg, old(View()), cycle, dry, rs[..i])
        invariant outcomes == Outcomes(codec, guard.cfg, old(View()), cycle, dry, rs[..i])
      {
        assert rs[..i + 1][..i] == rs[..i];
        var outcome := Apply(rs[i], cycle, dry);
        outcomes := outcomes + [outcome];
      }
      assert rs[..|rs|] == rs;
    }

    ghost function Undoable(): State
      reads env, log
    {
      State(env.store, log.entries)
    }

    method RollbackEntry(id: EntryId) returns (ok: bool)
      modifies env`store, log
      ensures Undoable() == RollbackOne(codec, old(Undoable()), id)
      ensures ok <==> (Find(old(log.entries), id).Some? && Find(old(log.entries), id).value.active)
    {
      var entry := log.Lookup(id);
      if entry.None? || !entry.value.active {
        return false;
      }
      var e := entry.value;
      if e.target.Variable? {
        env.store := env.store[e.target := Coerce(codec, e.original, e.replacement)];
      } else if e.original != "" {
        env.store := env.store[e.target := Text(e.original)];
      } else {
        env.store := env.store - {e.target};
      }
      var _ := log.MarkRolledBack(id);
      return true;
    }

    method RollbackOfCycle(cycle: CycleId) returns (results: seq<(EntryId, bool)>)
      modifies env`store, log
      ensures Undoable() == RollbackCycle(codec, old(Undoable()), cycle)
      ensures results == RollbackResults(codec, old(Undoable()), Active(old(log.entries), cycle))
    {
      hide RollbackOne, Active, Find;
      var entries := log.GetActiveByCycle(cycle);
      results := [];
      for i := 0 to |entries|
        invariant Undoable() == RollbackAll(codec, old(Undoable()), entries[..i])
        invariant results == RollbackResults(codec, old(Undoable()), entries[..i])
      {
        assert entries[..i + 1][..i] == entries[..i];
        var ok := RollbackEntry(entries[i].id);
        results := results + [(entries[i].id, ok)];
      }
      assert entries[..|entries|] == entries;
    }
  }

  // ---- automatic injection ----

  datatype CycleRecord = CycleRecord(
    autoInjected: bool,
    injections: seq<Outcome>,
    rollbackTriggered: bool,
    rollbackResults: seq<(EntryId, bool)>)

  /** A cycle starts with a guard of its own, so with an empty limiter. */
  ghost function Fresh(env: Environment, log: RollbackLog): Machine
    reads env, log
  {
    Machine(env.store, log.entries, env.promoted, Limiter([], []))
  }

  /** Inject the batch; if anything was applied and the smoke test fails, roll the cycle back.
      `passed` is the smoke test's verdict. */
  method TryAutoInject(codec: Codec, cfg: Config, env: Environment, log: RollbackLog,
                       enabled: bool, rs: seq<Request>, cycle: CycleId, passed: bool)
    returns (record: CycleRecord)
    modifies env, log
    ensures !enabled ==>
              record == CycleRecord(false, [], false, []) && Fresh(env, log) == old(Fresh(env, log))
    ensures enabled ==>
              && record.autoInjected
              && record.injections == Outcomes(codec, cfg, old(Fresh(env, log)), cycle, false, rs)
              && (record.rollbackTriggered <==> !passed && exists o :: o in record.injections && o.Applied?)
              && var m := ApplyAll(codec, cfg, old(Fresh(env, log)), cycle, false, rs);
                 && env.promoted == m.promoted
                 && State(env.store, log.entries)
                    == (if record.rollbackTriggered then RollbackCycle(codec, State(m.store, m.log), cycle)
                        else State(m.store, m.log))
                 && record.rollbackResults
                    == (if record.rollbackTriggered
                        then RollbackResults(codec, State(m.store, m.log), Active(m.log, cycle)) else [])
  {
    hide ApplyAll, Outcomes, RollbackCycle, RollbackResults, Active;
    if !enabled {
      return CycleRecord(false, [], false, []);
    }
    var guard := new Guard(cfg);
    var injector := new CodeInjector(codec, env, guard, log);
    assert injector.View() == Fresh(env, log);
    var outcomes := injector.ApplyBatch(rs, cycle, false);
    var any := false;
    for i := 0 to |outcomes|
      invariant any <==> exists k :: 0 <= k < i && outcomes[k].Applied?
    {
      any := any || outcomes[i].Applied?;
    }
    if any && !passed {
      var results := injector.RollbackOfCycle(cycle);
      return CycleRecord(true, outcomes, true, results);
    }
    return CycleRecord(true, outcomes, false, []);
  }

  /** After a failed smoke test the store is what it was exactly when, for each target, undoing the
      last injection alone gives the value from before the cycle; nothing of the cycle stays active,
      the entries of other cycles are as they were, and every undo is reported a success. */
  lemma FailedSmokeTest(c: Codec, cfg: Config, m: Machine, cycle: CycleId, rs: seq<Request>)
    requires FreshIds(m.log, rs) && Active(m.log, cycle) == []
    ensures var s := AfterRollback(c, cfg, m, cycle, rs);
            var after := ApplyAll(c, cfg, m, cycle, false, rs);
            var undone := Active(after.log, cycle);
            && (s.store == m.store
                <==> forall t ::
                       ValueRolledBack(c, t, Get(m.store, t), Injections(c, cfg, m, rs, t)) == Get(m.store, t))
            && Active(s.log, cycle) == []
            && |s.log| >= |m.log|
            && (forall i | 0 <= i < |m.log| && m.log[i].cycle != cycle :: s.log[i] == m.log[i])
            && forall i | 0 <= i < |undone| ::
                 RollbackResults(c, State(after.store, after.log), undone)[i] == (undone[i].id, true)
  {
    hide Landings, RollbackCycle, ApplyAll, EntriesOf, DistinctIds, Ids, ValueRolledBack, Injections, Get,
          RollbackResults;
    RollbackRestoresIff(c, cfg, m, cycle, rs);
    LedgerGrows(c, cfg, m, cycle, false, rs);
    LedgerIds(c, cfg, m, cycle, false, rs);
    var after := ApplyAll(c, cfg, m, cycle, false, rs);
    RollbackCycleMeans(c, State(after.store, after.log), cycle);
    CycleUndosSucceed(c, State(after.store, after.log), cycle);
    NothingLeft(AfterRollback(c, cfg, m, cycle, rs).log, cycle);
  }
}
