/** Which phase each plugin is left in, and what is asked of it on the way (maestro/plugins/manager.py:265-470):
    the lifecycle told operation by operation. */
module PluginPhases {
  import opened Plugins

  /** Only this plugin's record may differ, and only in its phase. */
  predicate OnlyPhaseOf(a: Registry, b: Registry, p: PluginId) {
    && a.Keys == b.Keys
    && (forall q | q in a && q != p :: b[q] == a[q])
    && (p in a ==> b[p].deps == a[p].deps)
  }

  /** `load`: an enabled plugin is left alone; any other is imported, once, and is loaded or failed. */
  lemma LoadMeans(env: Answers, s: State, p: PluginId)
    ensures var r := Load(env, s, p);
            if p !in s.plugins then r.state == s && !r.ok
            else if s.plugins[p].phase == Enabled then r.state == s && r.ok
            else
              && OnlyPhaseOf(s.plugins, r.state.plugins, p) && r.state.tick == s.tick + 1
              && r.ok == env.loads(p, s.tick) && (r.state.plugins[p].phase == Loaded <==> r.ok)
              && (r.state.plugins[p].phase == Failed <==> !r.ok)
  {
  }

  lemma {:induction false} NoDepsLeft(env: Answers, rank: PluginId -> nat, s: State, p: PluginId, i: nat)
    requires Acyclic(s.plugins, rank) && p in s.plugins && i <= |s.plugins[p].deps| && DepsEnabled(s.plugins, p)
    ensures EnableDeps(env, rank, s, p, i) == Outcome(s, true)
    decreases |s.plugins[p].deps| - i
  {
    hide Enable;
    if i < |s.plugins[p].deps| {
      assert s.plugins[p].deps[i] in s.plugins[p].deps;
      NoDepsLeft(env, rank, s, p, i + 1);
    }
  }

  lemma StillDepsEnabled(a: Registry, b: Registry, p: PluginId)
    requires OnlyPhaseOf(a, b, p) && DepsEnabled(a, p) && p in a && p !in a[p].deps
    ensures DepsEnabled(b, p)
  {
  }

  lemma NotItsOwn(plugins: Registry, rank: PluginId -> nat, p: PluginId)
    requires Acyclic(plugins, rank) && p in plugins
    ensures p !in plugins[p].deps
  {
    assert p in plugins[p].deps ==> rank(p) < rank(p);
  }

  /** `enable` once the dependencies are: a loaded or disabled plugin is only activated, any other is imported
      first; it ends enabled, or failed at the first no. */
  lemma EnableAlone(env: Answers, rank: PluginId -> nat, s: State, p: PluginId)
    requires Acyclic(s.plugins, rank) && p in s.plugins && DepsEnabled(s.plugins, p)
    ensures var r := Enable(env, rank, s, p);
            var imported := s.plugins[p].phase == Loaded || s.plugins[p].phase == Disabled;
            if s.plugins[p].phase == Enabled then r == Outcome(s, true)
            else
              && OnlyPhaseOf(s.plugins, r.state.plugins, p)
              && r.ok == ((imported || env.loads(p, s.tick))
                          && env.activates(p, if imported then s.tick else s.tick + 1))
              && r.state.tick == (if imported || !env.loads(p, s.tick) then s.tick + 1 else s.tick + 2)
              && (r.state.plugins[p].phase == Enabled <==> r.ok) && (r.state.plugins[p].phase == Failed <==> !r.ok)
  {
    hide EnableDeps, Acyclic, DepsEnabled;
    if s.plugins[p].phase != Enabled {
      var prepared := Prepare(env, s, p);
      NotItsOwn(s.plugins, rank, p);
      ShapeAcyclic(s.plugins, prepared.state.plugins, rank);
      if prepared.ok {
        assert DepsEnabled(prepared.state.plugins, p) by { StillDepsEnabled(s.plugins, prepared.state.plugins, p); }
        NoDepsLeft(env, rank, prepared.state, p, 0);
      }
    }
  }

  // ---- whatever enabling touches ----

  /** Every plugin whose record changed ended enabled or failed. */
  predicate Settled(a: Registry, b: Registry, but: PluginId) {
    && a.Keys == b.Keys
    && forall q | q in a && q != but ::
         b[q] == a[q] || (b[q].deps == a[q].deps && a[q].phase != Enabled && b[q].phase in {Enabled, Failed})
  }

  lemma SettledThen(a: Registry, b: Registry, x: Registry, but: PluginId)
    requires Settled(a, b, but) && Settled(b, x, but)
    ensures Settled(a, x, but)
  {
  }

  lemma SettledAll(a: Registry, b: Registry, q: PluginId, but: PluginId)
    requires Settled(a, b, q)
    requires q in a ==> b[q].deps == a[q].deps && a[q].phase != Enabled && b[q].phase in {Enabled, Failed}
    ensures Settled(a, b, but)
  {
  }

  lemma Below(plugins: Registry, rank: PluginId -> nat, p: PluginId, d: PluginId)
    requires Acyclic(plugins, rank) && p in plugins && d in plugins[p].deps && d in plugins
    ensures rank(d) < rank(p)
  {
  }

  lemma SameDeps(a: Registry, b: Registry, p: PluginId)
    requires SameShape(a, b) && p in a
    ensures p in b && b[p].deps == a[p].deps
  {
  }

  lemma NothingSettles(a: Registry, p: PluginId)
    ensures Settled(a, a, p)
  {
  }

  lemma DepsUnfold(env: Answers, rank: PluginId -> nat, s: State, p: PluginId, i: nat)
    requires Acyclic(s.plugins, rank) && p in s.plugins && i <= |s.plugins[p].deps|
    ensures i == |s.plugins[p].deps| ==> EnableDeps(env, rank, s, p, i) == Outcome(s, true)
    ensures i < |s.plugins[p].deps| ==>
              var d := s.plugins[p].deps[i];
              EnableDeps(env, rank, s, p, i)
              == if d in s.plugins && s.plugins[d].phase != Enabled then
                   var r := Enable(env, rank, s, d);
                   if !r.ok then r
                   else
                     ShapeAcyclic(s.plugins, r.state.plugins, rank);
                     EnableDeps(env, rank, r.state, p, i + 1)
                 else EnableDeps(env, rank, s, p, i + 1)
  {
    hide Enable;
  }

  lemma {:induction false} EnableDepsSettles(env: Answers, rank: PluginId -> nat, s: State, p: PluginId, i: nat)
    requires Acyclic(s.plugins, rank) && p in s.plugins && i <= |s.plugins[p].deps|
    ensures var r := EnableDeps(env, rank, s, p, i); Settled(s.plugins, r.state.plugins, p) && s.tick <= r.state.tick
    decreases rank(p), 0, |s.plugins[p].deps| - i
  {
    hide Enable, EnableDeps, Acyclic, Settled, SameShape;
    DepsUnfold(env, rank, s, p, i);
    if i < |s.plugins[p].deps| {
      var d := s.plugins[p].deps[i];
      if d in s.plugins && s.plugins[d].phase != Enabled {
        assert rank(d) < rank(p) by { Below(s.plugins, rank, p, d); }
        var r := Enable(env, rank, s, d);
        EnableSettles(env, rank, s, d);
        ShapeAcyclic(s.plugins, r.state.plugins, rank);
        SameDeps(s.plugins, r.state.plugins, p);
        SettledAll(s.plugins, r.state.plugins, d, p);
        if r.ok {
          EnableDepsSettles(env, rank, r.state, p, i + 1);
          SettledThen(s.plugins, r.state.plugins, EnableDeps(env, rank, r.state, p, i + 1).state.plugins, p);
        }
      } else {
        EnableDepsSettles(env, rank, s, p, i + 1);
      }
    } else {
      NothingSettles(s.plugins, p);
    }
  }

  lemma PhaseSettles(a: Registry, b: Registry, p: PluginId)
    requires OnlyPhaseOf(a, b, p)
    ensures Settled(a, b, p)
  {
  }

  lemma PreparedMeans(env: Answers, s: State, p: PluginId)
    requires p in s.plugins && s.plugins[p].phase != Enabled
    ensures var r := Prepare(env, s, p);
            && OnlyPhaseOf(s.plugins, r.state.plugins, p) && s.tick <= r.state.tick
            && p in r.state.plugins && r.state.plugins[p].phase != Enabled
            && (!r.ok ==> r.state.plugins[p].phase == Failed)
  {
  }

  /** The last step: failed when a dependency was, otherwise as the activation answers. */
  lemma LastPhase(env: Answers, s: State, p: PluginId)
    requires p in s.plugins
    ensures var r := Activate(env, s, p);
            && OnlyPhaseOf(s.plugins, r.state.plugins, p) && r.state.tick == s.tick + 1
            && p in r.state.plugins && r.state.plugins[p].phase == if r.ok then Enabled else Failed
    ensures OnlyPhaseOf(s.plugins, Phased(s.plugins, p, Failed), p) && Phased(s.plugins, p, Failed)[p].phase == Failed
  {
  }

  /** Enabling leaves every record as it was, enabled or failed; the plugin itself is enabled exactly when
      the answer is yes, and failed otherwise. */
  lemma {:induction false} EnableSettles(env: Answers, rank: PluginId -> nat, s: State, p: PluginId)
    requires Acyclic(s.plugins, rank)
    ensures var r := Enable(env, rank, s, p);
            && Settled(s.plugins, r.state.plugins, p) && s.tick <= r.state.tick
            && (p !in s.plugins ==> !r.ok && r.state == s)
            && (p in s.plugins && s.plugins[p].phase == Enabled ==> r == Outcome(s, true))
            && (p in s.plugins ==>
                  && p in r.state.plugins && r.state.plugins[p].deps == s.plugins[p].deps
                  && (r.state.plugins[p].phase == Enabled <==> r.ok)
                  && (r.state.plugins[p].phase == Failed <==> !r.ok))
    decreases rank(p), 1, 0
  {
    hide EnableDeps, Acyclic, SameShape, Settled, OnlyPhaseOf, Prepare, Phased;
    NothingSettles(s.plugins, p);
    if p in s.plugins && s.plugins[p].phase != Enabled {
      var prepared, r := Prepare(env, s, p), Enable(env, rank, s, p);
      PreparedMeans(env, s, p);
      ShapeAcyclic(s.plugins, prepared.state.plugins, rank);
      PhaseSettles(s.plugins, prepared.state.plugins, p);
      if prepared.ok {
        var ready := EnableDeps(env, rank, prepared.state, p, 0);
        EnableDepsSettles(env, rank, prepared.state, p, 0);
        SameDeps(prepared.state.plugins, ready.state.plugins, p);
        LastPhase(env, ready.state, p);
        PhaseSettles(ready.state.plugins, r.state.plugins, p);
        SettledThen(s.plugins, prepared.state.plugins, ready.state.plugins, p);
        SettledThen(s.plugins, ready.state.plugins, r.state.plugins, p);
      }
      SameDeps(s.plugins, r.state.plugins, p);
    }
  }

  // ---- the other operations ----

  /** `disable` and `unload`: an enabled plugin ends disabled, any known one unloaded; nobody is asked. */
  lemma DisableMeans(s: State, p: PluginId)
    ensures var r := Disable(s, p);
            && OnlyPhaseOf(s.plugins, r.plugins, p) && r.tick == s.tick
            && (p in s.plugins ==>
                  r.plugins[p].phase == if s.plugins[p].phase == Enabled then Disabled else s.plugins[p].phase)
    ensures var r := Unload(s, p);
            && OnlyPhaseOf(s.plugins, r.plugins, p) && r.tick == s.tick
            && (p in s.plugins ==> r.plugins[p].phase == Unloaded)
  {
  }

  /** The first half of a restore: what was enabled is disabled, and new manifests join as discovered. */
  lemma RestartMeans(s: State, found: map<PluginId, seq<PluginId>>)
    ensures var r := Discover(DisableAll(s), found);
            && r.tick == s.tick && (forall p :: p in r.plugins <==> p in s.plugins || p in found)
            && forall p | p in r.plugins ::
                 r.plugins[p] == if p !in s.plugins then Record(found[p], Discovered)
                                 else if s.plugins[p].phase == Enabled then Record(s.plugins[p].deps, Disabled)
                                 else s.plugins[p]
  {
  }

  /** The second half, one plugin of the list at a time: unknown ones are passed over, the others loaded and
      then enabled, whatever either answers. */
  lemma RestoreStep(env: Answers, rank: PluginId -> nat, s: State, list: seq<PluginId>, p: PluginId)
    requires Acyclic(s.plugins, rank)
    ensures var before, after := EnableListed(env, rank, s, list), EnableListed(env, rank, s, list + [p]);
            if p !in before.plugins then after == before
            else
              var loaded := Load(env, before, p).state;
              Acyclic(loaded.plugins, rank) && after == Enable(env, rank, loaded, p).state
  {
    hide Load, Enable, Acyclic, SameShape;
    assert (list + [p])[..|list|] == list;
    var before := EnableListed(env, rank, s, list);
    ShapeAcyclic(s.plugins, before.plugins, rank);
    ShapeAcyclic(before.plugins, Reload(env, before, p).plugins, rank);
  }
}
