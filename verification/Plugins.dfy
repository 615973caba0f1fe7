/** The plugin lifecycle (maestro/plugins/manager.py) as functions of the registry, and what enabling,
    disabling and restoring a snapshot do to the enabled set. */
module Plugins {
  datatype PluginId = PluginId(text: string)

  datatype Phase = Discovered | Validated | Loaded | Enabled | Disabled | Failed | Unloaded

  /** A plugin's record: what its manifest depends on, and its lifecycle state. */
  datatype Record = Record(deps: seq<PluginId>, phase: Phase)

  type Registry = map<PluginId, Record>

  /** What importing and activating a plugin answer; `tick` counts the questions asked so far, so
      the same plugin may answer differently the next time. */
  datatype Answers = Answers(loads: (PluginId, nat) -> bool, activates: (PluginId, nat) -> bool)

  datatype State = State(plugins: Registry, tick: nat)

  datatype Outcome = Outcome(state: State, ok: bool)

  function Phased(plugins: Registry, p: PluginId, phase: Phase): Registry
    requires p in plugins
  {
    plugins[p := plugins[p].(phase := phase)]
  }

  function EnabledSet(plugins: Registry): set<PluginId> {
    set p | p in plugins && plugins[p].phase == Enabled
  }

  /** The dependency graph has no cycle. */
  ghost predicate Acyclic(plugins: Registry, rank: PluginId -> nat) {
    forall p, d | p in plugins && d in plugins[p].deps && d in plugins :: rank(d) < rank(p)
  }

  // ---- the operations ----

  function Load(env: Answers, s: State, p: PluginId): Outcome {
    if p !in s.plugins then Outcome(s, false)
    else if s.plugins[p].phase == Enabled then Outcome(s, true)
    else
      var ok := env.loads(p, s.tick);
      Outcome(State(Phased(s.plugins, p, if ok then Loaded else Failed), s.tick + 1), ok)
  }

  /** Same plugins, same dependencies. */
  predicate SameShape(a: Registry, b: Registry) {
    a.Keys == b.Keys && forall p | p in a :: a[p].deps == b[p].deps
  }

  /** Loading comes first for a plugin that is neither loaded nor disabled. */
  function Prepare(env: Answers, s: State, p: PluginId): (r: Outcome)
    requires p in s.plugins && s.plugins[p].phase != Enabled
    ensures p in r.state.plugins && SameShape(s.plugins, r.state.plugins)
    ensures r.state.plugins[p].phase != Enabled
  {
    if s.plugins[p].phase == Loaded || s.plugins[p].phase == Disabled then Outcome(s, true) else Load(env, s, p)
  }

  function Activate(env: Answers, s: State, p: PluginId): Outcome
    requires p in s.plugins
  {
    var ok := env.activates(p, s.tick);
    Outcome(State(Phased(s.plugins, p, if ok then Enabled else Failed), s.tick + 1), ok)
  }

  /** The dependencies from the `i`-th on; unknown ones are skipped, the first failure stops. */
  function EnableDeps(env: Answers, ghost rank: PluginId -> nat, s: State, p: PluginId, i: nat): (r: Outcome)
    requires Acyclic(s.plugins, rank) && p in s.plugins && i <= |s.plugins[p].deps|
    ensures SameShape(s.plugins, r.state.plugins)
    decreases rank(p), 0, |s.plugins[p].deps| - i
  {
    if i == |s.plugins[p].deps| then Outcome(s, true)
    else
      var d := s.plugins[p].deps[i];
      if d in s.plugins && s.plugins[d].phase != Enabled then
        var r := Enable(env, rank, s, d);
        if !r.ok then r else EnableDeps(env, rank, r.state, p, i + 1)
      else EnableDeps(env, rank, s, p, i + 1)
  }

  function Enable(env: Answers, ghost rank: PluginId -> nat, s: State, p: PluginId): (r: Outcome)
    requires Acyclic(s.plugins, rank)
    ensures SameShape(s.plugins, r.state.plugins)
    decreases rank(p), 1, 0
  {
    if p !in s.plugins then Outcome(s, false)
    else if s.plugins[p].phase == Enabled then Outcome(s, true)
    else
      var prepared := Prepare(env, s, p);
      if !prepared.ok then prepared
      else
        var dependent := EnableDeps(env, rank, prepared.state, p, 0);
        if !dependent.ok
        then Outcome(State(Phased(dependent.state.plugins, p, Failed), dependent.state.tick), false)
        else Activate(env, dependent.state, p)
  }

  /** Disabling asks nobody: an enabled plugin that needs this one stays enabled. */
  function Disable(s: State, p: PluginId): State {
    if p in s.plugins && s.plugins[p].phase == Enabled then s.(plugins := Phased(s.plugins, p, Disabled)) else s
  }

  function Unload(s: State, p: PluginId): State {
    if p in s.plugins then s.(plugins := Phased(s.plugins, p, Unloaded)) else s
  }

  function DisableAll(s: State): State {
    s.(plugins := map p | p in s.plugins ::
         if s.plugins[p].phase == Enabled then s.plugins[p].(phase := Disabled) else s.plugins[p])
  }

  /** New manifests join as discovered; known plugins keep their record. */
  function Discover(s: State, found: map<PluginId, seq<PluginId>>): State {
    s.(plugins := map p | p in s.plugins.Keys + found.Keys ::
         if p in s.plugins then s.plugins[p] else Record(found[p], Discovered))
  }

  /** `load`, whatever it answers. */
  function Reload(env: Answers, s: State, p: PluginId): (r: State)
    ensures SameShape(s.plugins, r.plugins)
  {
    Load(env, s, p).state
  }

  /** The loop over a snapshot's enabled plugins. */
  function EnableListed(env: Answers, ghost rank: PluginId -> nat, s: State, list: seq<PluginId>): (r: State)
    requires Acyclic(s.plugins, rank)
    ensures SameShape(s.plugins, r.plugins)
    decreases |list|
  {
    if list == [] then s
    else
      var n := |list| - 1;
      var before := EnableListed(env, rank, s, list[..n]);
      if list[n] !in before.plugins then before
      else Enable(env, rank, Reload(env, before, list[n]), list[n]).state
  }

  lemma Fresh(s: State, found: map<PluginId, seq<PluginId>>, rank: PluginId -> nat)
    requires Acyclic(Discover(s, found).plugins, rank)
    ensures Acyclic(Discover(DisableAll(s), found).plugins, rank)
    ensures EnabledSet(Discover(DisableAll(s), found).plugins) == {}
    ensures SameShape(Discover(s, found).plugins, Discover(DisableAll(s), found).plugins)
  {
    var a, b := Discover(s, found).plugins, Discover(DisableAll(s), found).plugins;
    assert a.Keys == b.Keys;
    assert forall p | p in a :: a[p].deps == b[p].deps && b[p].phase != Enabled;
  }

  function Restore(env: Answers, ghost rank: PluginId -> nat, s: State, found: map<PluginId, seq<PluginId>>,
        list: seq<PluginId>): State
    requires Acyclic(Discover(s, found).plugins, rank)
  {
    Fresh(s, found, rank);
    EnableListed(env, rank, Discover(DisableAll(s), found), list)
  }

  // ---- what enabling does to the enabled set ----

  /** Every known dependency of a member is a member. */
  ghost predicate ClosedSet(plugins: Registry, c: set<PluginId>) {
    forall p, d | p in c && p in plugins && d in plugins[p].deps && d in plugins :: d in c
  }

  ghost predicate Closed(plugins: Registry) {
    ClosedSet(plugins, EnabledSet(plugins))
  }

  ghost predicate DepsEnabled(plugins: Registry, p: PluginId) {
    p in plugins && forall d | d in plugins[p].deps && d in plugins :: plugins[d].phase == Enabled
  }

  /** From `a` to `b` plugins were only enabled, all from `c`, and each with its dependencies. */
  ghost predicate Progress(a: Registry, b: Registry, c: set<PluginId>) {
    && SameShape(a, b)
    && (forall p | p in a && a[p].phase == Enabled :: b[p].phase == Enabled)
    && (forall p | p in b && b[p].phase == Enabled && a[p].phase != Enabled :: p in c && DepsEnabled(b, p))
  }

  lemma NoProgress(a: Registry, c: set<PluginId>)
    ensures Progress(a, a, c)
  {
  }

  lemma ProgressThen(a: Registry, b: Registry, x: Registry, c: set<PluginId>)
    requires Progress(a, b, c) && Progress(b, x, c)
    ensures Progress(a, x, c)
  {
    forall p | p in x && x[p].phase == Enabled && a[p].phase != Enabled ensures p in c && DepsEnabled(x, p) {
      if b[p].phase == Enabled { assert DepsEnabled(b, p); }
    }
  }

  lemma NotEnabledProgress(a: Registry, p: PluginId, phase: Phase, c: set<PluginId>)
    requires p in a && a[p].phase != Enabled && phase != Enabled
    ensures Progress(a, Phased(a, p, phase), c)
  {
  }

  lemma ActivatedProgress(a: Registry, p: PluginId, c: set<PluginId>)
    requires p in c && DepsEnabled(a, p)
    ensures Progress(a, Phased(a, p, Enabled), c)
  {
  }

  lemma ShapeClosed(a: Registry, b: Registry, c: set<PluginId>)
    requires SameShape(a, b) && ClosedSet(a, c)
    ensures ClosedSet(b, c)
  {
  }

  lemma ShapeAcyclic(a: Registry, b: Registry, rank: PluginId -> nat)
    requires SameShape(a, b) && Acyclic(a, rank)
    ensures Acyclic(b, rank)
  {
  }

  /** Records of plugins of this rank or higher are untouched, but for `p`. */
  ghost predicate HighKept(a: Registry, b: Registry, rank: PluginId -> nat, floor: nat, p: PluginId) {
    forall q | q in a && q != p && rank(q) >= floor :: q in b && b[q] == a[q]
  }

  lemma HighKeptThen(a: Registry, b: Registry, x: Registry, rank: PluginId -> nat, floor: nat, p: PluginId)
    requires HighKept(a, b, rank, floor, p) && HighKept(b, x, rank, floor, p)
    ensures HighKept(a, x, rank, floor, p)
  {
  }

  lemma PhasedKept(a: Registry, p: PluginId, phase: Phase, rank: PluginId -> nat, floor: nat)
    requires p in a
    ensures HighKept(a, Phased(a, p, phase), rank, floor, p)
  {
  }

  lemma PrepareProgress(env: Answers, s: State, p: PluginId, rank: PluginId -> nat, c: set<PluginId>)
    requires p in s.plugins && s.plugins[p].phase != Enabled
    ensures var r := Prepare(env, s, p).state.plugins;
            Progress(s.plugins, r, c) && HighKept(s.plugins, r, rank, rank(p), p)
  {
    NoProgress(s.plugins, c);
    NotEnabledProgress(s.plugins, p, Loaded, c);
    NotEnabledProgress(s.plugins, p, Failed, c);
  }

  lemma NothingMoved(a: Registry, rank: PluginId -> nat, floor: nat, p: PluginId)
    ensures HighKept(a, a, rank, floor, p)
  {
  }

  ghost predicate DepEnabled(plugins: Registry, p: PluginId, k: nat) {
    p in plugins && k < |plugins[p].deps|
    && (plugins[p].deps[k] in plugins ==> plugins[plugins[p].deps[k]].phase == Enabled)
  }

  lemma ThisDep(plugins: Registry, p: PluginId, k: nat)
    requires p in plugins && k < |plugins[p].deps|
    requires plugins[p].deps[k] in plugins ==> plugins[plugins[p].deps[k]].phase == Enabled
    ensures DepEnabled(plugins, p, k)
  {
  }

  lemma AllDepsEnabled(plugins: Registry, p: PluginId)
    requires p in plugins && forall k | 0 <= k < |plugins[p].deps| :: DepEnabled(plugins, p, k)
    ensures DepsEnabled(plugins, p)
  {
    forall d | d in plugins[p].deps && d in plugins ensures plugins[d].phase == Enabled {
      var k :| 0 <= k < |plugins[p].deps| && plugins[p].deps[k] == d;
      assert DepEnabled(plugins, p, k);
    }
  }

  lemma DepIsLower(plugins: Registry, rank: PluginId -> nat, p: PluginId, d: PluginId, c: set<PluginId>)
    requires Acyclic(plugins, rank) && ClosedSet(plugins, c) && p in c
    requires p in plugins && d in plugins[p].deps && d in plugins
    ensures rank(d) < rank(p) && d in c
  {
  }

  /** Enabling a lower plugin leaves `p` and everything as high as it alone. */
  lemma LowerKeeps(a: Registry, b: Registry, rank: PluginId -> nat, p: PluginId, d: PluginId)
    requires HighKept(a, b, rank, rank(d), d) && rank(d) < rank(p) && p in a
    ensures p in b && b[p] == a[p] && HighKept(a, b, rank, rank(p), p)
  {
  }

  lemma DepsStayEnabled(a: Registry, b: Registry, c: set<PluginId>, p: PluginId, i: nat)
    requires Progress(a, b, c) && p in a && p in b && b[p] == a[p] && i < |a[p].deps|
    requires forall k | 0 <= k < i :: DepEnabled(a, p, k)
    requires a[p].deps[i] in b && b[a[p].deps[i]].phase == Enabled
    ensures forall k | 0 <= k < i + 1 :: DepEnabled(b, p, k)
  {
    forall k | 0 <= k < i ensures DepEnabled(b, p, k) {
      assert DepEnabled(a, p, k);
    }
  }

  lemma EnableDepsProgress(env: Answers, rank: PluginId -> nat, s: State, p: PluginId, i: nat, c: set<PluginId>)
    requires Acyclic(s.plugins, rank) && ClosedSet(s.plugins, c) && p in c && p in s.plugins && i <= |s.plugins[p].deps|
    requires forall k | 0 <= k < i :: DepEnabled(s.plugins, p, k)
    ensures var r := EnableDeps(env, rank, s, p, i);
            && Progress(s.plugins, r.state.plugins, c)
            && HighKept(s.plugins, r.state.plugins, rank, rank(p), p)
            && p in r.state.plugins && r.state.plugins[p] == s.plugins[p]
            && (r.ok ==> DepsEnabled(r.state.plugins, p))
    decreases rank(p), 0, |s.plugins[p].deps| - i
  {
    hide Progress, HighKept, SameShape, ClosedSet, Acyclic, DepsEnabled, Enable, DepEnabled;
    NoProgress(s.plugins, c);
    NothingMoved(s.plugins, rank, rank(p), p);
    if i == |s.plugins[p].deps| {
      AllDepsEnabled(s.plugins, p);
    } else {
      var d := s.plugins[p].deps[i];
      if d in s.plugins && s.plugins[d].phase != Enabled {
        DepIsLower(s.plugins, rank, p, d, c);
        EnableProgress(env, rank, s, d, c);
        var r := Enable(env, rank, s, d);
        LowerKeeps(s.plugins, r.state.plugins, rank, p, d);
        if r.ok {
          ShapeClosed(s.plugins, r.state.plugins, c);
          ShapeAcyclic(s.plugins, r.state.plugins, rank);
          DepsStayEnabled(s.plugins, r.state.plugins, c, p, i);
          EnableDepsProgress(env, rank, r.state, p, i + 1, c);
          var x := EnableDeps(env, rank, r.state, p, i + 1).state.plugins;
          ProgressThen(s.plugins, r.state.plugins, x, c);
          HighKeptThen(s.plugins, r.state.plugins, x, rank, rank(p), p);
        }
      } else {
        assert DepEnabled(s.plugins, p, i) by { ThisDep(s.plugins, p, i); }
        EnableDepsProgress(env, rank, s, p, i + 1, c);
      }
    }
  }

  /** Enabling only adds to the enabled set, only from a closed set that holds the plugin, and what
      it adds comes with its dependencies; if it answers yes the plugin is enabled. */
  lemma EnableProgress(env: Answers, rank: PluginId -> nat, s: State, p: PluginId, c: set<PluginId>)
    requires Acyclic(s.plugins, rank) && ClosedSet(s.plugins, c) && p in c
    ensures var r := Enable(env, rank, s, p);
            && Progress(s.plugins, r.state.plugins, c)
            && HighKept(s.plugins, r.state.plugins, rank, rank(p), p)
            && (r.ok ==> p in r.state.plugins && r.state.plugins[p].phase == Enabled)
    decreases rank(p), 1, 0
  {
    hide Progress, HighKept, SameShape, ClosedSet, Acyclic, DepsEnabled, Prepare, EnableDeps;
    NoProgress(s.plugins, c);
    NothingMoved(s.plugins, rank, rank(p), p);
    if p in s.plugins && s.plugins[p].phase != Enabled {
      var prepared := Prepare(env, s, p);
      PrepareProgress(env, s, p, rank, c);
      if prepared.ok {
        var a, t := s.plugins, prepared.state;
        ShapeClosed(a, t.plugins, c);
        ShapeAcyclic(a, t.plugins, rank);
        EnableDepsProgress(env, rank, t, p, 0, c);
        var dependent := EnableDeps(env, rank, t, p, 0);
        var x := dependent.state.plugins;
        ProgressThen(a, t.plugins, x, c);
        HighKeptThen(a, t.plugins, x, rank, rank(p), p);
        if dependent.ok {
          ActivatedProgress(x, p, c);
          ProgressThen(a, x, Phased(x, p, Enabled), c);
        }
        NotEnabledProgress(x, p, Failed, c);
        ProgressThen(a, x, Phased(x, p, Failed), c);
        PhasedKept(x, p, Failed, rank, rank(p));
        PhasedKept(x, p, Enabled, rank, rank(p));
        HighKeptThen(a, x, Phased(x, p, Failed), rank, rank(p), p);
        HighKeptThen(a, x, Phased(x, p, Enabled), rank, rank(p), p);
      }
    }
  }

  lemma ProgressKeepsClosed(a: Registry, b: Registry, c: set<PluginId>)
    requires Progress(a, b, c) && Closed(a)
    ensures Closed(b) && EnabledSet(a) <= EnabledSet(b) <= EnabledSet(a) + c
  {
    forall p, d | p in EnabledSet(b) && d in b[p].deps && d in b ensures d in EnabledSet(b) {
      if p in EnabledSet(a) { assert d in EnabledSet(a); } else { assert DepsEnabled(b, p); }
    }
  }

  /** From a closed state enabling ends in a closed state, whatever fails on the way. */
  lemma EnableKeepsClosed(env: Answers, rank: PluginId -> nat, s: State, p: PluginId, c: set<PluginId>)
    requires Acyclic(s.plugins, rank) && Closed(s.plugins) && ClosedSet(s.plugins, c) && p in c
    ensures var r := Enable(env, rank, s, p);
            && Closed(r.state.plugins)
            && EnabledSet(s.plugins) <= EnabledSet(r.state.plugins) <= EnabledSet(s.plugins) + c
            && (r.ok ==> p in EnabledSet(r.state.plugins))
  {
    hide Closed, ClosedSet, Acyclic, Progress, HighKept, Enable;
    EnableProgress(env, rank, s, p, c);
    ProgressKeepsClosed(s.plugins, Enable(env, rank, s, p).state.plugins, c);
  }

  /** Disabling keeps a closed state closed exactly when no other enabled plugin depends on it. */
  lemma DisableKeepsClosedIff(s: State, p: PluginId)
    requires Closed(s.plugins) && p in EnabledSet(s.plugins)
    ensures Closed(Disable(s, p).plugins)
            <==> forall q | q in EnabledSet(s.plugins) && q != p :: p !in s.plugins[q].deps
  {
    var a, b := s.plugins, Disable(s, p).plugins;
    assert EnabledSet(b) == EnabledSet(a) - {p};
    if q :| q in EnabledSet(a) && q != p && p in a[q].deps {
      assert q in EnabledSet(b) && p in b[q].deps && p in b && p !in EnabledSet(b);
    }
  }

  // ---- restoring a snapshot ----

  ghost function Known(plugins: Registry, list: seq<PluginId>): set<PluginId> {
    set p | p in list && p in plugins
  }

  lemma ReloadProgress(env: Answers, s: State, p: PluginId, c: set<PluginId>)
    ensures Progress(s.plugins, Reload(env, s, p).plugins, c)
  {
    NoProgress(s.plugins, c);
    if p in s.plugins && s.plugins[p].phase != Enabled {
      NotEnabledProgress(s.plugins, p, Loaded, c);
      NotEnabledProgress(s.plugins, p, Failed, c);
    }
  }

  lemma SameKeys(a: Registry, b: Registry)
    requires SameShape(a, b)
    ensures a.Keys == b.Keys
  {
  }

  lemma {:induction false} EnableListedProgress(env: Answers, rank: PluginId -> nat, s: State, list: seq<PluginId>,
        c: set<PluginId>)
    requires Acyclic(s.plugins, rank) && ClosedSet(s.plugins, c) && Known(s.plugins, list) <= c
    ensures Progress(s.plugins, EnableListed(env, rank, s, list).plugins, c)
    decreases |list|
  {
    hide Progress, Acyclic, ClosedSet, Enable, HighKept, SameShape, Reload;
    NoProgress(s.plugins, c);
    if list != [] {
      var n := |list| - 1;
      var before := EnableListed(env, rank, s, list[..n]);
      EnableListedProgress(env, rank, s, list[..n], c);
      if list[n] in before.plugins {
        SameKeys(s.plugins, before.plugins);
        var t := Reload(env, before, list[n]);
        ShapeClosed(s.plugins, before.plugins, c);
        ShapeAcyclic(s.plugins, before.plugins, rank);
        ReloadProgress(env, before, list[n], c);
        ShapeClosed(before.plugins, t.plugins, c);
        ShapeAcyclic(before.plugins, t.plugins, rank);
        EnableProgress(env, rank, t, list[n], c);
        ProgressThen(s.plugins, before.plugins, t.plugins, c);
        ProgressThen(s.plugins, t.plugins, Enable(env, rank, t, list[n]).state.plugins, c);
      }
    }
  }

  lemma NothingEnabledIsClosed(plugins: Registry)
    requires EnabledSet(plugins) == {}
    ensures Closed(plugins)
  {
    hide EnabledSet;
  }

  /** Restoring a snapshot always ends in a closed state, and within any closed set that holds the
      known plugins of its list: whatever was enabled before, and whatever fails. */
  lemma RestoreIsClosed(env: Answers, rank: PluginId -> nat, s: State, found: map<PluginId, seq<PluginId>>,
        list: seq<PluginId>, c: set<PluginId>)
    requires Acyclic(Discover(s, found).plugins, rank)
    requires ClosedSet(Discover(s, found).plugins, c) && Known(Discover(s, found).plugins, list) <= c
    ensures var r := Restore(env, rank, s, found, list).plugins;
            Closed(r) && EnabledSet(r) <= c && SameShape(Discover(s, found).plugins, r)
  {
    hide Acyclic, Discover, DisableAll, EnableListed, Progress, ClosedSet, EnabledSet;
    Fresh(s, found, rank);
    var start := Discover(DisableAll(s), found);
    assert Discover(s, found).plugins.Keys == start.plugins.Keys;
    ShapeClosed(Discover(s, found).plugins, start.plugins, c);
    EnableListedProgress(env, rank, start, list, c);
    NothingEnabledIsClosed(start.plugins);
    ProgressKeepsClosed(start.plugins, EnableListed(env, rank, start, list).plugins, c);
  }

  /** Every plugin loads and activates. */
  ghost predicate AllWell(env: Answers) {
    forall p, t :: env.loads(p, t) && env.activates(p, t)
  }

  lemma PrepareSucceeds(env: Answers, s: State, p: PluginId)
    requires AllWell(env) && p in s.plugins && s.plugins[p].phase != Enabled
    ensures Prepare(env, s, p).ok
  {
    assert env.loads(p, s.tick) && env.activates(p, s.tick);
  }

  lemma ActivateSucceeds(env: Answers, s: State, p: PluginId)
    requires AllWell(env) && p in s.plugins
    ensures Activate(env, s, p).ok
  {
    assert env.loads(p, s.tick) && env.activates(p, s.tick);
  }

  lemma EnableDepsSucceeds(env: Answers, rank: PluginId -> nat, s: State, p: PluginId, i: nat)
    requires AllWell(env) && Acyclic(s.plugins, rank) && p in s.plugins && i <= |s.plugins[p].deps|
    ensures EnableDeps(env, rank, s, p, i).ok
    decreases rank(p), 0, |s.plugins[p].deps| - i
  {
    hide Enable, AllWell;
    if i < |s.plugins[p].deps| {
      var d := s.plugins[p].deps[i];
      if d in s.plugins && s.plugins[d].phase != Enabled {
        EnableSucceeds(env, rank, s, d);
        ShapeAcyclic(s.plugins, Enable(env, rank, s, d).state.plugins, rank);
        EnableDepsSucceeds(env, rank, Enable(env, rank, s, d).state, p, i + 1);
      } else {
        EnableDepsSucceeds(env, rank, s, p, i + 1);
      }
    }
  }

  lemma EnableSucceeds(env: Answers, rank: PluginId -> nat, s: State, p: PluginId)
    requires AllWell(env) && Acyclic(s.plugins, rank) && p in s.plugins
    ensures Enable(env, rank, s, p).ok
    decreases rank(p), 1, 0
  {
    hide EnableDeps, Phased;
    if s.plugins[p].phase != Enabled {
      var prepared := Prepare(env, s, p);
      assert prepared.ok by { PrepareSucceeds(env, s, p); }
      ShapeAcyclic(s.plugins, prepared.state.plugins, rank);
      EnableDepsSucceeds(env, rank, prepared.state, p, 0);
      ActivateSucceeds(env, EnableDeps(env, rank, prepared.state, p, 0).state, p);
    }
  }

  lemma EverythingClosed(plugins: Registry)
    ensures ClosedSet(plugins, plugins.Keys)
  {
  }

  lemma ProgressGrows(a: Registry, b: Registry, c: set<PluginId>)
    requires Progress(a, b, c)
    ensures EnabledSet(a) <= EnabledSet(b) && EnabledSet(b) <= b.Keys
  {
  }

  lemma {:induction false} EnableListedCovers(env: Answers, rank: PluginId -> nat, s: State, list: seq<PluginId>)
    requires AllWell(env) && Acyclic(s.plugins, rank)
    ensures Known(s.plugins, list) <= EnabledSet(EnableListed(env, rank, s, list).plugins)
    decreases |list|
  {
    if list != [] {
      hide Progress, Acyclic, ClosedSet, Enable, HighKept, SameShape, Reload, AllWell;
      var n := |list| - 1;
      var before := EnableListed(env, rank, s, list[..n]);
      EnableListedCovers(env, rank, s, list[..n]);
      SameKeys(s.plugins, before.plugins);
      assert list == list[..n] + [list[n]];
      if list[n] in before.plugins {
        var t := Reload(env, before, list[n]);
        var all := s.plugins.Keys;
        EverythingClosed(t.plugins);
        ReloadProgress(env, before, list[n], t.plugins.Keys);
        SameKeys(before.plugins, t.plugins);
        ShapeAcyclic(s.plugins, before.plugins, rank);
        ShapeAcyclic(before.plugins, t.plugins, rank);
        EnableProgress(env, rank, t, list[n], t.plugins.Keys);
        EnableSucceeds(env, rank, t, list[n]);
        ProgressThen(before.plugins, t.plugins, Enable(env, rank, t, list[n]).state.plugins, t.plugins.Keys);
        ProgressGrows(before.plugins, Enable(env, rank, t, list[n]).state.plugins, t.plugins.Keys);
      }
    }
  }

  lemma ShapeBack(a: Registry, b: Registry)
    requires SameShape(a, b) && Closed(b)
    ensures ClosedSet(a, EnabledSet(b))
  {
  }

  /** When every plugin works, restoring enables exactly the dependency closure of the known part of
      the list: the least closed set that holds it. */
  lemma RestoreIsClosure(env: Answers, rank: PluginId -> nat, s: State, found: map<PluginId, seq<PluginId>>,
        list: seq<PluginId>, c: set<PluginId>)
    requires AllWell(env) && Acyclic(Discover(s, found).plugins, rank)
    ensures var plugins := Discover(s, found).plugins;
            var r := EnabledSet(Restore(env, rank, s, found, list).plugins);
            && Known(plugins, list) <= r && ClosedSet(plugins, r)
            && (ClosedSet(plugins, c) && Known(plugins, list) <= c ==> r <= c)
  {
    hide AllWell, Acyclic, Discover, DisableAll, EnableListed, ClosedSet, Progress;
    var plugins := Discover(s, found).plugins;
    Fresh(s, found, rank);
    var start := Discover(DisableAll(s), found);
    EnableListedCovers(env, rank, start, list);
    EverythingClosed(plugins);
    RestoreIsClosed(env, rank, s, found, list, plugins.Keys);
    var r := Restore(env, rank, s, found, list).plugins;
    ShapeBack(plugins, r);
    assert Known(plugins, list) == Known(start.plugins, list);
    if ClosedSet(plugins, c) && Known(plugins, list) <= c {
      RestoreIsClosed(env, rank, s, found, list, c);
    }
  }

  /** A snapshot lists the enabled plugins. */
  ghost predicate Lists(list: seq<PluginId>, plugins: Registry) {
    forall p :: p in list <==> p in EnabledSet(plugins)
  }

  /** Saving and restoring gives back the enabled set exactly when it was closed under what is known
      at the restore: otherwise the restore enables more than was saved. */
  lemma SaveRestoreIff(env: Answers, rank: PluginId -> nat, s: State, later: State, found: map<PluginId,
        seq<PluginId>>, list: seq<PluginId>)
    requires AllWell(env) && Lists(list, s.plugins) && Acyclic(Discover(later, found).plugins, rank)
    requires s.plugins.Keys <= Discover(later, found).plugins.Keys
    ensures EnabledSet(Restore(env, rank, later, found, list).plugins) == EnabledSet(s.plugins)
            <==> ClosedSet(Discover(later, found).plugins, EnabledSet(s.plugins))
  {
    hide AllWell, Acyclic, Discover, Restore, ClosedSet;
    var plugins := Discover(later, found).plugins;
    RestoreIsClosure(env, rank, later, found, list, EnabledSet(s.plugins));
    assert Known(plugins, list) == EnabledSet(s.plugins);
  }

  // ---- two plugins, one needing the other ----

  /** A plugin `a` that needs `b`, in these phases. */
  function Pair(a: PluginId, b: PluginId, ofA: Phase, ofB: Phase): Registry {
    map[a := Record([b], ofA), b := Record([], ofB)]
  }

  /** Disabling the needed one leaves the other enabled without it. */
  lemma DisableBreaksTheClosure(a: PluginId, b: PluginId)
    requires a != b
    ensures Closed(Pair(a, b, Enabled, Enabled))
    ensures Disable(State(Pair(a, b, Enabled, Enabled), 0), b).plugins == Pair(a, b, Enabled, Disabled)
    ensures !Closed(Pair(a, b, Enabled, Disabled))
  {
    var after := Pair(a, b, Enabled, Disabled);
    assert a in EnabledSet(after) && b in after[a].deps && b in after && b !in EnabledSet(after);
  }

  lemma PairFacts(a: PluginId, b: PluginId)
    requires a != b
    ensures var s := State(Pair(a, b, Enabled, Disabled), 0);
            && EnabledSet(s.plugins) == {a} && Lists([a], s.plugins) && Discover(s, map[]).plugins == s.plugins
            && s.plugins.Keys == {a, b} && s.plugins[a].deps == [b] && s.plugins[b].deps == []
            && Acyclic(s.plugins, (p: PluginId) => if p == a then 1 else 0)
            && ClosedSet(s.plugins, {a, b}) && Known(s.plugins, [a]) == {a}
  {
    var s := State(Pair(a, b, Enabled, Disabled), 0);
    assert EnabledSet(s.plugins) == {a};
    assert Discover(s, map[]).plugins == s.plugins;
  }

  /** A snapshot saved then lists one plugin, and restoring it enables both. */
  lemma RestoreEnablesMore(env: Answers, a: PluginId, b: PluginId)
    requires AllWell(env) && a != b
    ensures var s := State(Pair(a, b, Enabled, Disabled), 0);
            var rank := (p: PluginId) => if p == a then 1 else 0;
            && Lists([a], s.plugins) && Acyclic(Discover(s, map[]).plugins, rank)
            && EnabledSet(Restore(env, rank, s, map[], [a]).plugins) == {a, b} != EnabledSet(s.plugins)
  {
    var s := State(Pair(a, b, Enabled, Disabled), 0);
    var rank := (p: PluginId) => if p == a then 1 else 0;
    PairFacts(a, b);
    hide Restore, Discover, Pair, AllWell, EnabledSet;
    RestoreIsClosure(env, rank, s, map[], [a], {a, b});
    var r := EnabledSet(Restore(env, rank, s, map[], [a]).plugins);
    assert a in Known(s.plugins, [a]) && a in r;
    assert b in r;
    assert r == {a, b} && b !in {a};
  }
}
