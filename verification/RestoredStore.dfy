/** Exactly when a batch and the rollback of its cycle give back the store (maestro/applicator.py),
    told from the requests and the store before, repeated targets included. */
module RestoredStore {
  import opened Wrappers
  import opened Sequences
  import opened InjectionGuard
  import opened Rollback
  import opened Injector

  // ---- which requests take effect ----

  /** What decides about the next request: who was promoted, and the limiter's times. */
  datatype Gate = Gate(promoted: set<ProposalId>, times: seq<real>, taken: seq<Proposal>)

  ghost function PassGate(c: Codec, cfg: Config, store: Store, g: Gate, r: Request): Gate {
    var kept := Pruned(g.times, r.checkedAt);
    if !Injectable(c, cfg, r.p, StatusNow(g.promoted, r.p)) then g
    else if |kept| < cfg.maxPerHour && Accepts(store, TargetOf(r.p))
    then Gate(g.promoted + {r.p.id}, kept + [r.recordedAt], g.taken + [r.p])
    else g.(times := kept)
  }

  /** The proposals that take effect, told from the requests, the guard and the names in the store. */
  ghost function Gated(c: Codec, cfg: Config, m: Machine, rs: seq<Request>): Gate {
    if rs == [] then Gate(m.promoted, m.limiter.times, [])
    else
      var n := |rs| - 1;
      PassGate(c, cfg, m.store, Gated(c, cfg, m, rs[..n]), rs[n])
  }

  function Proposals(ls: seq<Landing>): (r: seq<Proposal>)
    ensures |r| == |ls|
  {
    if ls == [] then [] else Proposals(ls[..|ls| - 1]) + [ls[|ls| - 1].p]
  }

  lemma ProposalsMore(ls: seq<Landing>, l: Landing)
    ensures Proposals(ls + [l]) == Proposals(ls) + [l.p]
  {
    assert (ls + [l])[..|ls|] == ls;
  }

  /** The same variables exist. */
  ghost predicate SameNames(a: Store, b: Store) {
    forall t: Target :: Accepts(a, t) == Accepts(b, t)
  }

  lemma WritingKeepsNames(a: Store, b: Store, t: Target, v: Value)
    requires SameNames(a, b) && Accepts(b, t)
    ensures SameNames(a, b[t := v])
  {
    forall u: Target ensures Accepts(a, u) == Accepts(b[t := v], u) {
      assert Accepts(a, u) == Accepts(b, u);
    }
  }

  lemma NamesAt(a: Store, b: Store, t: Target)
    requires SameNames(a, b)
    ensures Accepts(a, t) == Accepts(b, t)
  {
  }

  lemma GateNext(c: Codec, cfg: Config, m: Machine, cycle: CycleId, r: Request, g: Gate, store: Store)
    requires g.promoted == m.promoted && g.times == m.limiter.times && SameNames(store, m.store)
    ensures var after, h := ApplyOne(c, cfg, m, cycle, false, r), PassGate(c, cfg, store, g, r);
            && h.promoted == after.promoted && h.times == after.limiter.times && SameNames(store, after.store)
            && h.taken == if OutcomeOf(c, cfg, m, false, r).Applied? then g.taken + [r.p] else g.taken
  {
    hide Injectable, Pruned, Injected, EntryFor, TargetOf, StatusNow, SameNames, Accepts;
    var t := TargetOf(r.p);
    assert Accepts(store, t) == Accepts(m.store, t) by { NamesAt(store, m.store, t); }
    if Accepts(m.store, t) { WritingKeepsNames(store, m.store, t, Injected(c, m.store, t, r.p.proposed)); }
  }

  /** The gate lets through exactly the injections that take place. */
  lemma {:induction false} GateFollows(c: Codec, cfg: Config, m: Machine, cycle: CycleId, rs: seq<Request>)
    ensures var after, g := ApplyAll(c, cfg, m, cycle, false, rs), Gated(c, cfg, m, rs);
            && g.promoted == after.promoted && g.times == after.limiter.times && SameNames(m.store, after.store)
            && g.taken == Proposals(Landings(c, cfg, m, cycle, false, rs))
  {
    if rs == [] {
    } else {
      hide PassGate, ApplyOne, OutcomeOf, SameNames, Landings, Proposals, EntryOf, Injected, Legal, TargetOf;
      var n := |rs| - 1;
      var before := ApplyAll(c, cfg, m, cycle, false, rs[..n]);
      GateFollows(c, cfg, m, cycle, rs[..n]);
      GateNext(c, cfg, before, cycle, rs[n], Gated(c, cfg, m, rs[..n]), m.store);
      LandingsStep(c, cfg, m, cycle, false, rs);
      ProposalsMore(Landings(c, cfg, m, cycle, false, rs[..n]), Landing(before.store, rs[n].id, rs[n].p));
    }
  }

  // ---- the value of one target ----

  /** The string a snapshot records for what it found. */
  function FoundText(c: Codec, found: Option<Value>): string {
    match found case Some(v) => Str(c, v) case None => ""
  }

  function PutValue(c: Codec, t: Target, found: Option<Value>, proposed: string): Value {
    if t.Variable? then Coerce(c, proposed, FoundText(c, found)) else Text(proposed)
  }

  /** What undoing an injection of `proposed` over `found` puts. */
  function Back(c: Codec, t: Target, found: Option<Value>, proposed: string): Option<Value> {
    if t.Variable? then Some(Coerce(c, FoundText(c, found), Str(c, PutValue(c, t, found, proposed))))
    else if FoundText(c, found) != "" then Some(Text(FoundText(c, found)))
    else None
  }

  /** The strings proposed for a target, in order. */
  function ProposedFor(taken: seq<Proposal>, t: Target): seq<string> {
    if taken == [] then []
    else ProposedFor(taken[..|taken| - 1], t)
         + if TargetOf(taken[|taken| - 1]) == t then [taken[|taken| - 1].proposed] else []
  }

  /** The value after injecting these strings, one after another. */
  function ValueAfter(c: Codec, t: Target, before: Option<Value>, proposed: seq<string>): Option<Value> {
    if proposed == [] then before
    else
      var n := |proposed| - 1;
      Some(PutValue(c, t, ValueAfter(c, t, before, proposed[..n]), proposed[n]))
  }

  /** The value once the cycle is rolled back: the last injection is undone, the others are not. */
  function ValueRolledBack(c: Codec, t: Target, before: Option<Value>, proposed: seq<string>): Option<Value> {
    if proposed == [] then before
    else
      var n := |proposed| - 1;
      Back(c, t, ValueAfter(c, t, before, proposed[..n]), proposed[n])
  }

  lemma ProposedNext(taken: seq<Proposal>, p: Proposal, t: Target)
    ensures ProposedFor(taken + [p], t) == ProposedFor(taken, t) + if TargetOf(p) == t then [p.proposed] else []
  {
    hide TargetOf;
    assert (taken + [p])[..|taken|] == taken;
  }

  lemma ValueNext(c: Codec, t: Target, before: Option<Value>, proposed: seq<string>, p: string)
    ensures ValueAfter(c, t, before, proposed + [p]) == Some(PutValue(c, t, ValueAfter(c, t, before, proposed), p))
    ensures ValueRolledBack(c, t, before, proposed + [p]) == Back(c, t, ValueAfter(c, t, before, proposed), p)
  {
    hide PutValue, Back;
    assert (proposed + [p])[..|proposed|] == proposed;
  }

  /** A landing writes and records what the value it found says. */
  lemma LandingValues(c: Codec, cycle: CycleId, l: Landing)
    requires Legal(l)
    ensures var t := TargetOf(l.p);
            && Written(c, l) == Some(PutValue(c, t, Get(l.store, t), l.p.proposed))
            && Restored(c, EntryOf(c, cycle, l)) == Back(c, t, Get(l.store, t), l.p.proposed)
  {
    hide Coerce;
  }

  /** The strings the landings of a batch put at a target. */
  function ProposedAt(ls: seq<Landing>, t: Target): seq<string> {
    ProposedFor(Proposals(ls), t)
  }

  lemma ProposedAtNext(front: seq<Landing>, l: Landing, t: Target)
    ensures ProposedAt(front + [l], t) == ProposedAt(front, t) + if TargetOf(l.p) == t then [l.p.proposed] else []
  {
    ProposalsMore(front, l);
    ProposedNext(Proposals(front), l.p, t);
  }

  /** One more landing: the value it writes. */
  lemma LandedValue(c: Codec, l: Landing, front: seq<Landing>, t: Target, v: Option<Value>)
    requires Legal(l) && Get(l.store, t) == ValueAfter(c, t, v, ProposedAt(front, t))
    ensures Get(l.store[TargetOf(l.p) := Injected(c, l.store, TargetOf(l.p), l.p.proposed)], t)
            == ValueAfter(c, t, v, ProposedAt(front + [l], t))
  {
    hide *;
    ProposedAtNext(front, l, t);
    WriteThenGet(c, l, t);
    LandingValues(c, CycleId(""), l);
    ValueNext(c, t, v, ProposedAt(front, t), l.p.proposed);
    assert ProposedAt(front, t) + [] == ProposedAt(front, t);
  }

  /** The value of a target after a batch. */
  lemma {:induction false} BatchValue(c: Codec, cfg: Config, m: Machine, cycle: CycleId, rs: seq<Request>, t: Target)
    ensures Get(ApplyAll(c, cfg, m, cycle, false, rs).store, t)
            == ValueAfter(c, t, Get(m.store, t), ProposedAt(Landings(c, cfg, m, cycle, false, rs), t))
  {
    if rs == [] {
    } else {
      hide *;
      var n := |rs| - 1;
      var before, front := ApplyAll(c, cfg, m, cycle, false, rs[..n]), Landings(c, cfg, m, cycle, false, rs[..n]);
      var l := Landing(before.store, rs[n].id, rs[n].p);
      BatchValue(c, cfg, m, cycle, rs[..n], t);
      LandingsStep(c, cfg, m, cycle, false, rs);
      if OutcomeOf(c, cfg, before, false, rs[n]).Applied? { LandedValue(c, l, front, t, Get(m.store, t)); }
    }
  }

  /** One more landing: what its snapshot restores. */
  lemma LandedBack(c: Codec, cycle: CycleId, l: Landing, front: seq<Landing>, t: Target, v: Option<Value>)
    requires Legal(l) && Get(l.store, t) == ValueAfter(c, t, v, ProposedAt(front, t)) && TargetOf(l.p) == t
    ensures Restored(c, EntryOf(c, cycle, l)) == ValueRolledBack(c, t, v, ProposedAt(front + [l], t))
    ensures ProposedAt(front + [l], t) != []
  {
    hide *;
    ProposedAtNext(front, l, t);
    LandingValues(c, cycle, l);
    ValueNext(c, t, v, ProposedAt(front, t), l.p.proposed);
  }

  /** What the last snapshot of a target restores. */
  lemma {:induction false} BatchBack(c: Codec, cfg: Config, m: Machine, cycle: CycleId, rs: seq<Request>, t: Target)
    ensures var ls := Landings(c, cfg, m, cycle, false, rs);
            match LastLanding(ls, t)
            case None => ProposedAt(ls, t) == []
            case Some(l) =>
              && l in ls && ProposedAt(ls, t) != []
              && Restored(c, EntryOf(c, cycle, l)) == ValueRolledBack(c, t, Get(m.store, t), ProposedAt(ls, t))
  {
    if rs == [] {
    } else {
      hide *;
      var n := |rs| - 1;
      var before, front := ApplyAll(c, cfg, m, cycle, false, rs[..n]), Landings(c, cfg, m, cycle, false, rs[..n]);
      var l := Landing(before.store, rs[n].id, rs[n].p);
      BatchBack(c, cfg, m, cycle, rs[..n], t);
      BatchValue(c, cfg, m, cycle, rs[..n], t);
      LandingsStep(c, cfg, m, cycle, false, rs);
      if OutcomeOf(c, cfg, before, false, rs[n]).Applied? {
        LastLandingNext(front, l, t);
        if TargetOf(l.p) == t {
          LandedBack(c, cycle, l, front, t, Get(m.store, t));
        } else {
          ProposedAtNext(front, l, t);
          assert ProposedAt(front, t) + [] == ProposedAt(front, t);
        }
      }
    }
  }

  // ---- the whole store ----

  /** The strings injected into a target, told before the batch. */
  ghost function Injections(c: Codec, cfg: Config, m: Machine, rs: seq<Request>, t: Target): seq<string> {
    ProposedFor(Gated(c, cfg, m, rs).taken, t)
  }

  lemma InjectionsAre(c: Codec, cfg: Config, m: Machine, rs: seq<Request>, t: Target, ls: seq<Landing>)
    requires Gated(c, cfg, m, rs).taken == Proposals(ls)
    ensures Injections(c, cfg, m, rs, t) == ProposedAt(ls, t)
  {
  }

  lemma NothingProposed(c: Codec, t: Target, v: Option<Value>)
    ensures ValueRolledBack(c, t, v, []) == v && ValueAfter(c, t, v, []) == v
  {
  }

  lemma RolledBackIsRestored(c: Codec, cfg: Config, m: Machine, cycle: CycleId, rs: seq<Request>, t: Target)
    requires FreshIds(m.log, rs) && Active(m.log, cycle) == []
    ensures var ls := Landings(c, cfg, m, cycle, false, rs);
            var now := Get(AfterRollback(c, cfg, m, cycle, rs).store, t);
            match LastLanding(ls, t)
            case Some(l) => l in ls && now == Restored(c, EntryOf(c, cycle, l))
            case None => now == Get(ApplyAll(c, cfg, m, cycle, false, rs).store, t)
  {
    hide ApplyAll, Landings, Active, FreshIds, RollbackCycle, DistinctIds, Original, Restored, Get, TargetOf, EntriesOf,
          LastLanding, LastFor;
    var after, ls := ApplyAll(c, cfg, m, cycle, false, rs), Landings(c, cfg, m, cycle, false, rs);
    LedgerIds(c, cfg, m, cycle, false, rs);
    RollbackCycleMeans(c, State(after.store, after.log), cycle);
    ActiveIsBatch(c, cfg, m, cycle, rs);
    LastEntryIsLastLanding(c, cycle, ls, t);
  }

  /** Every target after a batch and the rollback of its cycle, whatever is recoverable or repeated. */
  lemma RolledBackValue(c: Codec, cfg: Config, m: Machine, cycle: CycleId, rs: seq<Request>, t: Target)
    requires FreshIds(m.log, rs) && Active(m.log, cycle) == []
    ensures Get(AfterRollback(c, cfg, m, cycle, rs).store, t)
            == ValueRolledBack(c, t, Get(m.store, t), Injections(c, cfg, m, rs, t))
  {
    var after, ls := ApplyAll(c, cfg, m, cycle, false, rs), Landings(c, cfg, m, cycle, false, rs);
    RolledBackIsRestored(c, cfg, m, cycle, rs, t);
    BatchValue(c, cfg, m, cycle, rs, t);
    BatchBack(c, cfg, m, cycle, rs, t);
    GateFollows(c, cfg, m, cycle, rs);
    NothingProposed(c, t, Get(m.store, t));
    hide *;
    assert Injections(c, cfg, m, rs, t) == ProposedAt(ls, t) by { InjectionsAre(c, cfg, m, rs, t, ls); }
  }

  /** A batch and the rollback of its cycle give back the store exactly when, for each target, undoing
      the last injection alone gives the value from before: a condition on the requests, the guard
      and the store before, with nothing assumed about the targets. */
  lemma RollbackRestoresIff(c: Codec, cfg: Config, m: Machine, cycle: CycleId, rs: seq<Request>)
    requires FreshIds(m.log, rs) && Active(m.log, cycle) == []
    ensures AfterRollback(c, cfg, m, cycle, rs).store == m.store
            <==> forall t :: ValueRolledBack(c, t, Get(m.store, t), Injections(c, cfg, m, rs, t)) == Get(m.store, t)
  {
    hide AfterRollback, Active, FreshIds, ValueRolledBack, Get, Injections;
    var store := AfterRollback(c, cfg, m, cycle, rs).store;
    forall t ensures Get(store, t) == ValueRolledBack(c, t, Get(m.store, t), Injections(c, cfg, m, rs, t)) {
      RolledBackValue(c, cfg, m, cycle, rs, t);
    }
    if forall t :: Get(store, t) == Get(m.store, t) { SameEverywhere(store, m.store); }
  }

  // ---- in closed form ----

  /** The text a target holds after these strings, before the last: only the last two decide. */
  function TextAfter(c: Codec, t: Target, before: Option<Value>, proposed: seq<string>): string {
    if proposed == [] then FoundText(c, before)
    else
      var n := |proposed| - 1;
      var was := if n == 0 then FoundText(c, before) else proposed[n - 1];
      if t.Variable? && c.parse(proposed[n]).Some? && c.parse(was).Some?
      then c.show(c.parse(proposed[n]).value) else proposed[n]
  }

  /** What a caller can check of the strings proposed for a target: the last one is undone to the text
      found then, and that is the value from before. */
  predicate ComesBack(c: Codec, t: Target, before: Option<Value>, proposed: seq<string>) {
    if proposed == [] then true
    else
      var last, front := proposed[|proposed| - 1], proposed[..|proposed| - 1];
      match before
      case None => t.ConfigKey? && TextAfter(c, t, before, front) == ""
      case Some(Number(x)) =>
        && t.Variable? && c.parse(last).Some?
        && c.parse(if front == [] then c.show(x) else front[|front| - 1]) == Some(x)
      case Some(Text(s)) =>
        && TextAfter(c, t, before, front) == s
        && if t.Variable? then c.parse(s).None? || c.parse(last).None? else s != ""
      case Some(Other(_)) => false
  }

  lemma {:induction false} TextIsAfter(c: Codec, t: Target, before: Option<Value>, proposed: seq<string>)
    requires SoundCodec(c)
    ensures FoundText(c, ValueAfter(c, t, before, proposed)) == TextAfter(c, t, before, proposed)
    ensures proposed != [] ==>
              c.parse(TextAfter(c, t, before, proposed)) == c.parse(proposed[|proposed| - 1])
  {
    if proposed != [] {
      var n := |proposed| - 1;
      var front := proposed[..n];
      TextIsAfter(c, t, before, front);
      if c.parse(proposed[n]).Some? {
        var x := c.parse(proposed[n]).value;
        assert c.parse(c.show(x)) == Some(x);
      }
    }
  }

  lemma BackIs(c: Codec, t: Target, found: Option<Value>, proposed: string)
    requires SoundCodec(c)
    ensures var text := FoundText(c, found);
            Back(c, t, found, proposed)
            == if t.ConfigKey? then (if text != "" then Some(Text(text)) else None)
               else if c.parse(text).Some? && c.parse(proposed).Some? then Some(Number(c.parse(text).value))
               else Some(Text(text))
  {
    if c.parse(proposed).Some? {
      var x := c.parse(proposed).value;
      assert c.parse(c.show(x)) == Some(x);
    }
  }

  /** The value comes back exactly when these strings say so. */
  lemma ComesBackIff(c: Codec, t: Target, before: Option<Value>, proposed: seq<string>)
    requires SoundCodec(c)
    ensures ValueRolledBack(c, t, before, proposed) == before <==> ComesBack(c, t, before, proposed)
  {
    hide Back, PutValue;
    if proposed != [] {
      var n := |proposed| - 1;
      var front := proposed[..n];
      TextIsAfter(c, t, before, front);
      BackIs(c, t, ValueAfter(c, t, before, front), proposed[n]);
      if before.Some? && before.value.Number? {
        var x := before.value.value;
        assert c.parse(c.show(x)) == Some(x);
      }
    }
  }

  /** A batch and the rollback of its cycle give back the store exactly when the strings injected into
      each target let its value come back: for a number, the last string reads as a number and the one
      before it as the number from before; for a configuration key, the one before it is the text from
      before. */
  lemma RestoresIffStrings(c: Codec, cfg: Config, m: Machine, cycle: CycleId, rs: seq<Request>)
    requires SoundCodec(c) && FreshIds(m.log, rs) && Active(m.log, cycle) == []
    ensures AfterRollback(c, cfg, m, cycle, rs).store == m.store
            <==> forall t :: ComesBack(c, t, Get(m.store, t), Injections(c, cfg, m, rs, t))
  {
    hide AfterRollback, Active, FreshIds, ValueRolledBack, Get, Injections, ComesBack, SoundCodec;
    RollbackRestoresIff(c, cfg, m, cycle, rs);
    forall t ensures ValueRolledBack(c, t, Get(m.store, t), Injections(c, cfg, m, rs, t)) == Get(m.store, t)
                     <==> ComesBack(c, t, Get(m.store, t), Injections(c, cfg, m, rs, t)) {
      ComesBackIff(c, t, Get(m.store, t), Injections(c, cfg, m, rs, t));
    }
  }

  ghost predicate PutBack(c: Codec, before: Store, ls: seq<Landing>, t: Target)
    requires forall l | l in ls :: Legal(l)
  {
    match Previous(ls, t)
    case Some(l) => l in ls && Written(c, l) == Get(before, t)
    case None => true
  }

  /** When every injection was recoverable: exactly when, wherever one injection followed another at
      the same target, the one before the last had put back the value from before the batch. */
  lemma RecoverableRestoresIff(c: Codec, cfg: Config, m: Machine, cycle: CycleId, rs: seq<Request>)
    requires SoundCodec(c) && FreshIds(m.log, rs) && Active(m.log, cycle) == []
    requires forall l | l in Landings(c, cfg, m, cycle, false, rs) :: Recovers(c, l)
    ensures var ls := Landings(c, cfg, m, cycle, false, rs);
            AfterRollback(c, cfg, m, cycle, rs).store == m.store
            <==> forall t | Previous(ls, t).Some? :: PutBack(c, m.store, ls, t)
  {
    hide Landings, AfterRollback, Active, FreshIds, Recovers, Previous, SoundCodec, Written, Get;
    var ls := Landings(c, cfg, m, cycle, false, rs);
    var store := AfterRollback(c, cfg, m, cycle, rs).store;
    forall t ensures Get(store, t) == Get(m.store, t) <==> (Previous(ls, t).Some? ==> PutBack(c, m.store, ls, t)) {
      RollbackUndoesTheLastOnly(c, cfg, m, cycle, rs, t);
    }
    if forall t :: Get(store, t) == Get(m.store, t) { SameEverywhere(store, m.store); }
  }

  // ---- one variable injected twice ----

  lemma ProposedTwice(p: Proposal, q: Proposal, t: Target)
    requires TargetOf(p) == t && TargetOf(q) == t
    ensures ProposedFor([p, q], t) == [p.proposed, q.proposed]
  {
    assert [p, q][..1] == [p] && [p][..0] == [];
    assert ProposedFor([p], t) == [p.proposed];
  }

  /** A number replaced by a number. */
  lemma NumbersComeBack(c: Codec, x: real, proposed: string, y: real)
    requires SoundCodec(c) && c.parse(proposed) == Some(y)
    ensures forall t: Target | t.Variable? ::
              && PutValue(c, t, Some(Number(x)), proposed) == Number(y)
              && Back(c, t, Some(Number(x)), proposed) == Some(Number(x))
  {
    assert c.parse(c.show(x)) == Some(x) && c.parse(c.show(y)) == Some(y);
  }

  lemma TwoIdsFresh(r: Request, s: Request)
    requires r.id != s.id
    ensures FreshIds([], [r, s])
  {
    assert [r, s][..0] == [] && [r, s][..1] == [r];
    assert RequestIds([r]) == {r.id} && RequestIds([]) == {} && Ids([]) == {};
  }

  lemma OneRecent()
    ensures Pruned([0.0], 1.0) == [0.0]
  {
    assert [0.0][..0] == [];
  }

  lemma PassOnce(c: Codec, cfg: Config, store: Store, g: Gate, r: Request)
    requires Injectable(c, cfg, r.p, r.p.status) && r.p.id !in g.promoted && Accepts(store, TargetOf(r.p))
    requires |Pruned(g.times, r.checkedAt)| < cfg.maxPerHour
    ensures PassGate(c, cfg, store, g, r)
            == Gate(g.promoted + {r.p.id}, Pruned(g.times, r.checkedAt) + [r.recordedAt], g.taken + [r.p])
  {
    hide Injectable, Accepts, TargetOf, Pruned;
  }

  lemma TwoRequests(c: Codec, cfg: Config, m: Machine, r: Request, s: Request)
    requires m.limiter == Limiter([], []) && m.promoted == {} && cfg.maxPerHour >= 2
    requires r.recordedAt == 0.0 && s.checkedAt == 1.0
    requires Injectable(c, cfg, r.p, r.p.status) && Injectable(c, cfg, s.p, s.p.status) && r.p.id != s.p.id
    requires Accepts(m.store, TargetOf(r.p)) && Accepts(m.store, TargetOf(s.p))
    ensures Gated(c, cfg, m, [r, s]).taken == [r.p, s.p]
  {
    assert [r, s][..1] == [r] && [r][..0] == [];
    assert Pruned([], r.checkedAt) == [] && Pruned([0.0], 1.0) == [0.0] by { OneRecent(); }
    hide Injectable, Accepts, TargetOf, PassGate, Pruned;
    assert Gated(c, cfg, m, []) == Gate({}, [], []);
    PassOnce(c, cfg, m.store, Gate({}, [], []), r);
    assert [] + [r.recordedAt] == [0.0] && [] + [r.p] == [r.p];
    assert Gated(c, cfg, m, [r]) == Gate({r.p.id}, [0.0], [r.p]);
    PassOnce(c, cfg, m.store, Gate({r.p.id}, [0.0], [r.p]), s);
  }

  /** A variable at 1.0, two proposals for it in one cycle: after the rollback it stays at 2.0. */
  lemma InjectedTwiceStaysChanged(c: Codec, cycle: CycleId)
    requires SoundCodec(c) && c.parse("2") == Some(2.0) && c.parse("3") == Some(3.0)
    ensures var a := Name("a");
            var cfg := Config(5, {Category("threshold")}, {}, map[], [], Name("temperature"));
            var m := Machine(map[Variable(a, a) := Number(1.0)], [], {}, Limiter([], []));
            var p := Proposal(ProposalId("p"), Category("threshold"), ParameterUpdate, a, a, "2", Validated);
            var q := Proposal(ProposalId("q"), Category("threshold"), ParameterUpdate, a, a, "3", Validated);
            var rs := [Request(p, 0.0, 0.0, EntryId("x")), Request(q, 1.0, 1.0, EntryId("y"))];
            Get(AfterRollback(c, cfg, m, cycle, rs).store, Variable(a, a)) == Some(Number(2.0))
  {
    var a := Name("a");
    var t := Variable(a, a);
    var cfg := Config(5, {Category("threshold")}, {}, map[], [], Name("temperature"));
    var m := Machine(map[t := Number(1.0)], [], {}, Limiter([], []));
    var p := Proposal(ProposalId("p"), Category("threshold"), ParameterUpdate, a, a, "2", Validated);
    var q := Proposal(ProposalId("q"), Category("threshold"), ParameterUpdate, a, a, "3", Validated);
    var r, s := Request(p, 0.0, 0.0, EntryId("x")), Request(q, 1.0, 1.0, EntryId("y"));
    assert p.id.text[0] != q.id.text[0] && r.id.text[0] != s.id.text[0] && |a.text| != |cfg.temperatureName.text|;
    var rs := [r, s];
    TwoRequests(c, cfg, m, r, s);
    assert Injections(c, cfg, m, rs, t) == ["2", "3"] by { ProposedTwice(p, q, t); }
    TwoIdsFresh(r, s);
    RolledBackValue(c, cfg, m, cycle, rs, t);
    ValueNext(c, t, Some(Number(1.0)), [], "2");
    ValueNext(c, t, Some(Number(1.0)), ["2"], "3");
    assert [] + ["2"] == ["2"] && ["2"] + ["3"] == ["2", "3"];
    NumbersComeBack(c, 1.0, "2", 2.0);
    NumbersComeBack(c, 2.0, "3", 3.0);
  }
}
