/** Injections and their undo (maestro/applicator.py, maestro/rollback.py): one step, the ledger,
    and what rolling back a whole cycle leaves behind. */
module Rollback {
  import opened Wrappers
  import opened Sequences
  import opened InjectionGuard

  datatype Target = Variable(moduleName: Name, name: Name) | ConfigKey(key: Name)

  /** A Python value as far as `float(str(v))` can tell it apart: a number, a string, anything else. */
  datatype Value = Number(value: real) | Text(text: string) | Other(repr: string)

  type Store = map<Target, Value>

  ghost predicate SoundCodec(c: Codec) {
    forall x :: c.parse(c.show(x)) == Some(x)
  }

  function Str(c: Codec, v: Value): string {
    match v case Number(x) => c.show(x) case Text(t) => t case Other(r) => r
  }

  /** `_coerce_value`: a number only if both strings read as one. */
  function Coerce(c: Codec, text: string, reference: string): Value {
    if c.parse(reference).Some? && c.parse(text).Some? then Number(c.parse(text).value) else Text(text)
  }

  function Get(store: Store, t: Target): Option<Value> {
    if t in store then Some(store[t]) else None
  }

  function Put(store: Store, t: Target, v: Option<Value>): Store {
    if v.Some? then store[t := v.value] else store - {t}
  }

  datatype EntryId = EntryId(text: string)

  datatype CycleId = CycleId(text: string)

  datatype Entry = Entry(
    id: EntryId,
    proposal: ProposalId,
    cycle: CycleId,
    target: Target,
    original: string,
    replacement: string,
    active: bool)

  // ---- one injection and its undo ----

  /** A missing module attribute raises; a missing configuration key reads as the empty string. */
  predicate Accepts(store: Store, t: Target) {
    t.Variable? ==> t in store
  }

  function Original(c: Codec, store: Store, t: Target): string
    requires Accepts(store, t)
  {
    if t in store then Str(c, store[t]) else ""
  }

  function Injected(c: Codec, store: Store, t: Target, proposed: string): Value
    requires Accepts(store, t)
  {
    if t.Variable? then Coerce(c, proposed, Original(c, store, t)) else Text(proposed)
  }

  /** The ledger entry an injection leaves. */
  function EntryFor(c: Codec, store: Store, id: EntryId, p: Proposal, cycle: CycleId, t: Target): Entry
    requires Accepts(store, t)
  {
    Entry(id, p.id, cycle, t, Original(c, store, t), Str(c, Injected(c, store, t, p.proposed)), true)
  }

  /** What undoing an entry puts at its target: it depends on the two recorded strings alone. */
  function Restored(c: Codec, e: Entry): Option<Value> {
    if e.target.Variable? then Some(Coerce(c, e.original, e.replacement))
    else if e.original != "" then Some(Text(e.original))
    else None
  }

  function Undo(c: Codec, store: Store, e: Entry): Store {
    Put(store, e.target, Restored(c, e))
  }

  /** What a caller can check before injecting: numbers replaced by numbers, strings that are not
      number-like on both sides, and configuration keys absent or holding a non-empty string. */
  predicate Recoverable(c: Codec, store: Store, t: Target, proposed: string) {
    if t.Variable? then
      t in store &&
      match store[t]
      case Number(_) => c.parse(proposed).Some?
      case Text(s) => c.parse(s).None? || c.parse(proposed).None?
      case Other(_) => false
    else
      t !in store || (store[t].Text? && store[t].text != "")
  }

  lemma VariableRestoredIff(c: Codec, v: Value, proposed: string)
    requires SoundCodec(c)
    ensures var s := Str(c, v);
            Coerce(c, s, Str(c, Coerce(c, proposed, s))) == v
            <==> match v
                 case Number(_) => c.parse(proposed).Some?
                 case Text(t) => c.parse(t).None? || c.parse(proposed).None?
                 case Other(_) => false
  {
    var s := Str(c, v);
    if v.Number? { assert c.parse(s) == Some(v.value); }
    if c.parse(s).Some? && c.parse(proposed).Some? {
      var x := c.parse(proposed).value;
      assert c.parse(c.show(x)) == Some(x);
    }
  }

  /** The snapshot restores the value that was there exactly for a recoverable injection. */
  lemma RestoredIff(c: Codec, store: Store, id: EntryId, p: Proposal, cycle: CycleId, t: Target)
    requires SoundCodec(c) && Accepts(store, t)
    ensures Restored(c, EntryFor(c, store, id, p, cycle, t)) == Get(store, t) <==> Recoverable(c, store, t, p.proposed)
  {
    if t.Variable? {
      VariableRestoredIff(c, store[t], p.proposed);
    }
  }

  lemma TargetOfEntry(c: Codec, store: Store, id: EntryId, p: Proposal, cycle: CycleId, t: Target)
    requires Accepts(store, t)
    ensures EntryFor(c, store, id, p, cycle, t).target == t
  {
  }

  lemma PutBackIff(store: Store, t: Target, v: Value, back: Option<Value>)
    ensures Put(store[t := v], t, back) == store <==> back == Get(store, t)
  {
    var after := Put(store[t := v], t, back);
    if back == Get(store, t) {
      assert after.Keys == store.Keys;
    } else {
      assert Get(after, t) == back;
    }
  }

  /** So one undo right after its injection gives back the store exactly when it was recoverable. */
  lemma UndoExactIff(c: Codec, store: Store, id: EntryId, p: Proposal, cycle: CycleId, t: Target)
    requires SoundCodec(c) && Accepts(store, t)
    ensures Undo(c, store[t := Injected(c, store, t, p.proposed)], EntryFor(c, store, id, p, cycle, t)) == store
            <==> Recoverable(c, store, t, p.proposed)
  {
    hide Restored, Injected, EntryFor, Recoverable;
    RestoredIff(c, store, id, p, cycle, t);
    assert EntryFor(c, store, id, p, cycle, t).target == t by { TargetOfEntry(c, store, id, p, cycle, t); }
    PutBackIff(store, t, Injected(c, store, t, p.proposed), Restored(c, EntryFor(c, store, id, p, cycle, t)));
  }

  // ---- the ledger ----

  ghost predicate DistinctIds(log: seq<Entry>) {
    forall i, j | 0 <= i < j < |log| :: log[i].id != log[j].id
  }

  function ActiveIn(cycle: CycleId): Entry -> bool {
    (e: Entry) => e.cycle == cycle && e.active
  }

  /** `get_active_by_cycle`: oldest first. */
  function Active(log: seq<Entry>, cycle: CycleId): seq<Entry> {
    Filter(log, ActiveIn(cycle))
  }

  /** `get`: the first entry with the id. */
  function Find(log: seq<Entry>, id: EntryId): Option<Entry> {
    if log == [] then None
    else if log[0].id == id then Some(log[0])
    else Find(log[1..], id)
  }

  /** `mark_rolled_back`: the first active entry with the id. */
  function Mark(log: seq<Entry>, id: EntryId): (r: seq<Entry>)
    ensures |r| == |log|
  {
    if log == [] then []
    else if log[0].id == id && log[0].active then [log[0].(active := false)] + log[1..]
    else [log[0]] + Mark(log[1..], id)
  }

  datatype State = State(store: Store, log: seq<Entry>)

  /** `rollback(id)` for an id in use. */
  function RollbackOne(c: Codec, s: State, id: EntryId): State {
    var e := Find(s.log, id);
    if e.Some? && e.value.active then State(Undo(c, s.store, e.value), Mark(s.log, id)) else s
  }

  function RollbackAll(c: Codec, s: State, entries: seq<Entry>): State
    decreases |entries|
  {
    if entries == [] then s else
    RollbackOne(c, RollbackAll(c, s, entries[..|entries| - 1]), entries[|entries| - 1].id)
  }

  lemma {:induction false} FindNothing(log: seq<Entry>, id: EntryId)
    requires forall k | 0 <= k < |log| :: log[k].id != id
    ensures Find(log, id) == None
  {
    if log != [] {
      FindNothing(log[1..], id);
    }
  }

  lemma {:induction false} FindUnique(log: seq<Entry>, k: nat)
    requires DistinctIds(log) && k < |log|
    ensures Find(log, log[k].id) == Some(log[k])
  {
    if k > 0 {
      assert log[0].id != log[k].id;
      FindUnique(log[1..], k - 1);
    }
  }

  lemma {:induction false} MarkUnique(log: seq<Entry>, k: nat)
    requires DistinctIds(log) && k < |log| && log[k].active
    ensures Mark(log, log[k].id) == log[k := log[k].(active := false)]
  {
    if k > 0 {
      assert log[0].id != log[k].id;
      MarkUnique(log[1..], k - 1);
    }
  }

  /** One rollback: an active entry is undone at its target and marked, one that is unknown or rolled back
      already changes nothing, so a second rollback never does. */
  lemma RollbackOneMeans(c: Codec, s: State, id: EntryId)
    requires DistinctIds(s.log)
    ensures var r := RollbackOne(c, s, id);
            if exists k :: 0 <= k < |s.log| && s.log[k].id == id && s.log[k].active then
              exists k :: && 0 <= k < |s.log| && s.log[k].id == id && s.log[k].active
                          && r.log == s.log[k := s.log[k].(active := false)]
                          && (forall t :: Get(r.store, t)
                               == if t == s.log[k].target then Restored(c, s.log[k]) else Get(s.store, t))
            else r == s
  {
    hide Restored, Find, Mark;
    if k :| 0 <= k < |s.log| && s.log[k].id == id && s.log[k].active {
      FindUnique(s.log, k);
      MarkUnique(s.log, k);
    } else if k :| 0 <= k < |s.log| && s.log[k].id == id {
      FindUnique(s.log, k);
    } else {
      FindNothing(s.log, id);
    }
  }

  /** `rollback_cycle`: the cycle's active entries, in ledger order. */
  function RollbackCycle(c: Codec, s: State, cycle: CycleId): State {
    RollbackAll(c, s, Active(s.log, cycle))
  }

  /** The (id, success) pairs `rollback_cycle` returns. */
  function RollbackResults(c: Codec, s: State, entries: seq<Entry>): (r: seq<(EntryId, bool)>)
    ensures |r| == |entries|
    decreases |entries|
  {
    if entries == [] then []
    else
      var n := |entries| - 1;
      var e := Find(RollbackAll(c, s, entries[..n]).log, entries[n].id);
      RollbackResults(c, s, entries[..n]) + [(entries[n].id, e.Some? && e.value.active)]
  }

  function UndoAll(c: Codec, store: Store, entries: seq<Entry>): Store {
    if entries == [] then store else
    Undo(c, UndoAll(c, store, entries[..|entries| - 1]), entries[|entries| - 1])
  }

  /** The ledger with exactly the given entries marked. */
  function Marked(log: seq<Entry>, ids: set<EntryId>): (r: seq<Entry>)
    ensures |r| == |log|
  {
    seq(|log|, i requires 0 <= i < |log| => if log[i].id in ids then log[i].(active := false) else log[i])
  }

  ghost function Ids(entries: seq<Entry>): set<EntryId> {
    set e | e in entries :: e.id
  }

  // ---- rolling back a cycle ----

  lemma MarkedKeepsIds(log: seq<Entry>, ids: set<EntryId>)
    requires DistinctIds(log)
    ensures DistinctIds(Marked(log, ids))
  {
    forall i, j | 0 <= i < j < |log| ensures Marked(log, ids)[i].id != Marked(log, ids)[j].id {
      assert log[i].id != log[j].id;
    }
  }

  /** Every entry is an active one of the ledger. */
  ghost predicate ActiveAmong(entries: seq<Entry>, log: seq<Entry>) {
    forall e | e in entries :: e in log && e.active
  }

  lemma MarkedNone(log: seq<Entry>)
    ensures Marked(log, {}) == log
  {
  }

  lemma MarkOneMore(log: seq<Entry>, ids: set<EntryId>, k: nat)
    requires DistinctIds(log) && k < |log| && log[k].active && log[k].id !in ids
    ensures Find(Marked(log, ids), log[k].id) == Some(log[k])
    ensures Mark(Marked(log, ids), log[k].id) == Marked(log, ids + {log[k].id})
  {
    hide Find, Mark;
    var m := Marked(log, ids);
    MarkedKeepsIds(log, ids);
    assert m[k] == log[k];
    FindUnique(m, k);
    MarkUnique(m, k);
    assert forall i | 0 <= i < |log| && i != k :: log[i].id != log[k].id;
  }

  lemma IdsOfMore(entries: seq<Entry>)
    requires entries != [] && DistinctIds(entries)
    ensures Ids(entries) == Ids(entries[..|entries| - 1]) + {entries[|entries| - 1].id}
    ensures entries[|entries| - 1].id !in Ids(entries[..|entries| - 1])
  {
    var n := |entries| - 1;
    assert entries == entries[..n] + [entries[n]];
  }

  lemma DistinctFront(entries: seq<Entry>)
    requires entries != [] && DistinctIds(entries)
    ensures DistinctIds(entries[..|entries| - 1])
  {
  }

  lemma {:induction false} RollbackAllMeans(c: Codec, s: State, entries: seq<Entry>)
    requires DistinctIds(s.log) && DistinctIds(entries) && ActiveAmong(entries, s.log)
    ensures RollbackAll(c, s, entries) == State(UndoAll(c, s.store, entries), Marked(s.log, Ids(entries)))
    decreases |entries|
  {
    if entries == [] {
      MarkedNone(s.log);
    } else {
      hide DistinctIds, Undo, Marked, Ids, Find, Mark;
      var n := |entries| - 1;
      var e, front := entries[n], entries[..n];
      DistinctFront(entries);
      RollbackAllMeans(c, s, front);
      IdsOfMore(entries);
      var k :| 0 <= k < |s.log| && s.log[k] == e;
      MarkOneMore(s.log, Ids(front), k);
    }
  }

  /** Every undo of the cycle succeeds, so each id comes back with a success, in ledger order. */
  lemma {:induction false} EveryUndoSucceeds(c: Codec, s: State, entries: seq<Entry>)
    requires DistinctIds(s.log) && DistinctIds(entries) && ActiveAmong(entries, s.log)
    ensures forall i | 0 <= i < |entries| :: RollbackResults(c, s, entries)[i] == (entries[i].id, true)
    decreases |entries|
  {
    if entries != [] {
      hide DistinctIds, Undo, Marked, Ids, Find, Mark;
      var n := |entries| - 1;
      var e, front := entries[n], entries[..n];
      DistinctFront(entries);
      EveryUndoSucceeds(c, s, front);
      RollbackAllMeans(c, s, front);
      IdsOfMore(entries);
      var k :| 0 <= k < |s.log| && s.log[k] == e;
      MarkOneMore(s.log, Ids(front), k);
    }
  }

  lemma {:induction false} FilterKeepsDistinct(log: seq<Entry>, p: Entry -> bool)
    requires DistinctIds(log)
    ensures DistinctIds(Filter(log, p))
  {
    if log != [] {
      var n := |log| - 1;
      FilterKeepsDistinct(log[..n], p);
      var front := Filter(log[..n], p);
      forall i | 0 <= i < |front| ensures front[i].id != log[n].id {
        assert front[i] in log[..n];
      }
    }
  }

  lemma CycleUndosSucceed(c: Codec, s: State, cycle: CycleId)
    requires DistinctIds(s.log)
    ensures var entries := Active(s.log, cycle);
            forall i | 0 <= i < |entries| :: RollbackResults(c, s, entries)[i] == (entries[i].id, true)
  {
    hide DistinctIds, Filter, RollbackResults;
    FilterKeepsDistinct(s.log, ActiveIn(cycle));
    EveryUndoSucceeds(c, s, Active(s.log, cycle));
  }

  /** Where a selection was found: the positions in the ledger, in order. */
  ghost predicate TakenAt(r: seq<Entry>, log: seq<Entry>, at: seq<nat>) {
    && |at| == |r|
    && (forall i, j | 0 <= i < j < |at| :: at[i] < at[j])
    && forall i | 0 <= i < |at| :: at[i] < |log| && r[i] == log[at[i]]
  }

  /** The active entries of a cycle are exactly the ledger's, each occurrence once, oldest first. */
  lemma {:induction false} ActiveMeans(log: seq<Entry>, cycle: CycleId) returns (at: seq<nat>)
    ensures TakenAt(Active(log, cycle), log, at)
    ensures forall k | 0 <= k < |log| :: k in at <==> log[k].cycle == cycle && log[k].active
  {
    if log == [] {
      at := [];
    } else {
      var n := |log| - 1;
      at := ActiveMeans(log[..n], cycle);
      if log[n].cycle == cycle && log[n].active { at := at + [n]; }
    }
  }

  /** The last entry for a target. */
  function LastFor(entries: seq<Entry>, t: Target): Option<Entry> {
    if entries == [] then None
    else if entries[|entries| - 1].target == t then Some(entries[|entries| - 1])
    else LastFor(entries[..|entries| - 1], t)
  }

  lemma {:induction false} UndoAllWritesLast(c: Codec, store: Store, entries: seq<Entry>, t: Target)
    ensures Get(UndoAll(c, store, entries), t)
            == match LastFor(entries, t) case Some(e) => Restored(c, e) case None => Get(store, t)
  {
    hide Restored;
    if entries != [] {
      UndoAllWritesLast(c, store, entries[..|entries| - 1], t);
    }
  }

  lemma CycleMarked(log: seq<Entry>, cycle: CycleId)
    requires DistinctIds(log)
    ensures forall i | 0 <= i < |log| ::
              Marked(log, Ids(Active(log, cycle)))[i]
              == if log[i].cycle == cycle then log[i].(active := false) else log[i]
  {
    var ids := Ids(Active(log, cycle));
    forall i | 0 <= i < |log| ensures log[i].id in ids <==> log[i].cycle == cycle && log[i].active {
      if log[i].id in ids {
        var e :| e in Active(log, cycle) && e.id == log[i].id;
        assert e == log[i];
      }
    }
  }

  lemma {:induction false} NoneChosen(log: seq<Entry>, p: Entry -> bool)
    requires forall e | e in log :: !p(e)
    ensures Filter(log, p) == []
  {
    if log != [] { NoneChosen(log[..|log| - 1], p); }
  }

  lemma NothingLeft(log: seq<Entry>, cycle: CycleId)
    requires forall e | e in log :: e.cycle == cycle ==> !e.active
    ensures Active(log, cycle) == []
  {
    NoneChosen(log, ActiveIn(cycle));
  }

  /** Rolling back a cycle leaves each of its targets as its last active snapshot says, whatever
      the order of the undos suggests; it marks exactly the cycle's entries, leaves those of other
      cycles alone, and a second time it changes nothing. */
  lemma RollbackCycleMeans(c: Codec, s: State, cycle: CycleId)
    requires DistinctIds(s.log)
    ensures var r := RollbackCycle(c, s, cycle);
            && (forall t :: Get(r.store, t)
                 == match LastFor(Active(s.log, cycle), t) case Some(e) => Restored(c, e) case None => Get(s.store, t))
            && |r.log| == |s.log|
            && (forall i | 0 <= i < |s.log| ::
                 r.log[i] == if s.log[i].cycle == cycle then s.log[i].(active := false) else s.log[i])
            && RollbackCycle(c, r, cycle) == r
  {
    hide Restored, UndoAll, LastFor, Filter, DistinctIds;
    var entries := Active(s.log, cycle);
    FilterKeepsDistinct(s.log, ActiveIn(cycle));
    RollbackAllMeans(c, s, entries);
    var r := RollbackCycle(c, s, cycle);
    forall t ensures Get(r.store, t)
                     == match LastFor(entries, t) case Some(e) => Restored(c, e) case None => Get(s.store, t) {
      UndoAllWritesLast(c, s.store, entries, t);
    }
    CycleMarked(s.log, cycle);
    NothingLeft(r.log, cycle);
  }
}
