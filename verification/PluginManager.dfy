/** The mutable plugin manager, proved against `Plugins`, and the pipeline hooks it keeps for them
    (maestro/plugins/manager.py). */
module PluginManager {
  import opened Sequences
  import opened Plugins

  lemma ShapeAt(a: Registry, b: Registry, p: PluginId)
    requires SameShape(a, b) && p in a
    ensures p in b && b[p].deps == a[p].deps
  {
  }

  lemma ShapeSelf(a: Registry)
    ensures SameShape(a, a)
  {
  }

  lemma ShapeThen(a: Registry, b: Registry, x: Registry)
    requires SameShape(a, b) && SameShape(b, x)
    ensures SameShape(a, x)
  {
  }

  lemma DepBelow(plugins: Registry, rank: PluginId -> nat, p: PluginId, d: PluginId)
    requires Acyclic(plugins, rank) && p in plugins && d in plugins[p].deps && d in plugins
    ensures rank(d) < rank(p)
  {
  }

  class ModManager {
    const env: Answers
    var plugins: Registry
    var tick: nat

    ghost function View(): State
      reads this
    {
      State(plugins, tick)
    }

    constructor (env: Answers)
      ensures this.env == env && View() == State(map[], 0)
    {
      this.env, plugins, tick := env, map[], 0;
    }

    method LoadPlugin(p: PluginId) returns (ok: bool)
      modifies this
      ensures Outcome(View(), ok) == Load(env, old(View()), p)
    {
      if p !in plugins {
        return false;
      }
      if plugins[p].phase == Enabled {
        return true;
      }
      ok := env.loads(p, tick);
      tick := tick + 1;
      plugins := plugins[p := plugins[p].(phase := if ok then Loaded else Failed)];
    }

    method EnablePlugin(ghost rank: PluginId -> nat, p: PluginId) returns (ok: bool)
      requires Acyclic(plugins, rank)
      modifies this
      ensures Outcome(View(), ok) == Enable(env, rank, old(View()), p)
      decreases rank(p)
    {
      hide Acyclic, SameShape, Load;
      if p !in plugins {
        return false;
      }
      if plugins[p].phase == Enabled {
        return true;
      }
      if plugins[p].phase != Loaded && plugins[p].phase != Disabled {
        ok := LoadPlugin(p);
        if !ok {
          return false;
        }
      }
      assert View() == Prepare(env, old(View()), p).state && Prepare(env, old(View()), p).ok;
      ghost var prepared := View();
      ShapeAcyclic(old(plugins), plugins, rank);
      var deps := plugins[p].deps;
      ShapeSelf(plugins);
      for i := 0 to |deps|
        invariant SameShape(prepared.plugins, plugins) && Acyclic(plugins, rank)
        invariant p in plugins && plugins[p].deps == deps
        invariant EnableDeps(env, rank, View(), p, i) == EnableDeps(env, rank, prepared, p, 0)
      {
        var d := deps[i];
        if d in plugins && plugins[d].phase != Enabled {
          assert rank(d) < rank(p) by { DepBelow(plugins, rank, p, d); }
          ghost var before := View();
          ok := EnablePlugin(rank, d);
          ShapeThen(prepared.plugins, before.plugins, plugins);
          ShapeAcyclic(before.plugins, plugins, rank);
          ShapeAt(before.plugins, plugins, p);
          if !ok {
            plugins := plugins[p := plugins[p].(phase := Failed)];
            return false;
          }
        }
      }
      ok := env.activates(p, tick);
      tick := tick + 1;
      plugins := plugins[p := plugins[p].(phase := if ok then Enabled else Failed)];
    }

    method DisablePlugin(p: PluginId) returns (ok: bool)
      modifies this
      ensures View() == Disable(old(View()), p) && ok == (p in old(plugins))
    {
      if p !in plugins {
        return false;
      }
      if plugins[p].phase != Enabled {
        return true;
      }
      plugins := plugins[p := plugins[p].(phase := Disabled)];
      return true;
    }

    method UnloadPlugin(p: PluginId) returns (ok: bool)
      modifies this
      ensures View() == Unload(old(View()), p) && ok == (p in old(plugins))
    {
      if p !in plugins {
        return false;
      }
      if plugins[p].phase == Enabled {
        var _ := DisablePlugin(p);
      }
      plugins := plugins[p := plugins[p].(phase := Unloaded)];
      return true;
    }

    /** Installed manifests join the registry. */
    method DiscoverPlugins(found: map<PluginId, seq<PluginId>>)
      modifies this
      ensures View() == Discover(old(View()), found)
    {
      plugins := map p | p in plugins.Keys + found.Keys ::
        if p in plugins then plugins[p] else Record(found[p], Discovered);
    }

    method SaveSnapshot() returns (list: seq<PluginId>)
      ensures Lists(list, plugins)
    {
      list := [];
      var todo := plugins.Keys;
      while todo != {}
        invariant todo <= plugins.Keys
        invariant forall p :: p in list <==> p in plugins && p !in todo && plugins[p].phase == Enabled
      {
        var p :| p in todo;
        if plugins[p].phase == Enabled {
          list := list + [p];
        }
        todo := todo - {p};
      }
    }

    /** The first loop of a restore. */
    method DisableEverything()
      modifies this
      ensures View() == DisableAll(old(View()))
    {
      var todo := plugins.Keys;
      while todo != {}
        invariant todo <= plugins.Keys == old(plugins).Keys && tick == old(tick)
        invariant forall p | p in plugins ::
                    plugins[p] == if p in todo then old(plugins)[p] else DisableAll(old(View())).plugins[p]
      {
        var p :| p in todo;
        var _ := DisablePlugin(p);
        todo := todo - {p};
      }
      assert plugins == DisableAll(old(View())).plugins;
    }

    method RestoreSnapshot(ghost rank: PluginId -> nat, found: map<PluginId, seq<PluginId>>, list: seq<PluginId>)
      requires Acyclic(Discover(View(), found).plugins, rank)
      modifies this
      ensures View() == Restore(env, rank, old(View()), found, list)
    {
      hide Acyclic, SameShape, Load, Enable, Discover, DisableAll;
      Fresh(View(), found, rank);
      DisableEverything();
      DiscoverPlugins(found);
      ghost var start := View();
      for i := 0 to |list|
        invariant Acyclic(plugins, rank) && View() == EnableListed(env, rank, start, list[..i])
      {
        assert list[..i + 1][..i] == list[..i];
        var p := list[i];
        if p in plugins {
          ghost var before := View();
          var _ := LoadPlugin(p);
          assert View() == Reload(env, before, p);
          ShapeAcyclic(before.plugins, plugins, rank);
          ghost var loaded := View();
          var _ := EnablePlugin(rank, p);
          ShapeAcyclic(loaded.plugins, plugins, rank);
        }
      }
      assert list[..|list|] == list;
    }
  }

  // ---- the hooks of one hook point ----

  datatype Callback = Callback(name: string)

  datatype Owned = Owned(owner: PluginId, callback: Callback)

  /** The callbacks a point runs, and who registered which. */
  datatype Hooks = Hooks(callbacks: seq<Callback>, owned: seq<Owned>)

  function CallbacksOf(owned: seq<Owned>): (r: seq<Callback>)
    ensures |r| == |owned|
  {
    if owned == [] then [] else CallbacksOf(owned[..|owned| - 1]) + [owned[|owned| - 1].callback]
  }

  /** The owned callbacks, counted. */
  ghost function Bag(owned: seq<Owned>): multiset<Callback> {
    multiset(CallbacksOf(owned))
  }

  /** `list.remove`, a missing callback ignored. */
  function RemoveFirst(callbacks: seq<Callback>, cb: Callback): seq<Callback> {
    if cb in callbacks then Without(callbacks, IndexOf(callbacks, cb)) else callbacks
  }

  function RemoveEach(callbacks: seq<Callback>, owned: seq<Owned>): seq<Callback> {
    if owned == [] then callbacks
    else RemoveFirst(RemoveEach(callbacks, owned[..|owned| - 1]), owned[|owned| - 1].callback)
  }

  function OwnedBy(p: PluginId): Owned -> bool {
    (o: Owned) => o.owner == p
  }

  function OwnedByOthers(p: PluginId): Owned -> bool {
    (o: Owned) => o.owner != p
  }

  function Mine(owned: seq<Owned>, p: PluginId): seq<Owned> {
    Filter(owned, OwnedBy(p))
  }

  function Theirs(owned: seq<Owned>, p: PluginId): seq<Owned> {
    Filter(owned, OwnedByOthers(p))
  }

  /** A plugin registers through its context, anyone else directly. */
  function RegisterFor(h: Hooks, p: PluginId, cb: Callback): Hooks {
    Hooks(h.callbacks + [cb], h.owned + [Owned(p, cb)])
  }

  function RegisterDirect(h: Hooks, cb: Callback): Hooks {
    h.(callbacks := h.callbacks + [cb])
  }

  /** `unregister_hook` leaves the ownership list alone. */
  function Unregister(h: Hooks, cb: Callback): Hooks {
    h.(callbacks := RemoveFirst(h.callbacks, cb))
  }

  function RemoveHooksOf(h: Hooks, p: PluginId): Hooks {
    Hooks(RemoveEach(h.callbacks, Mine(h.owned, p)), Theirs(h.owned, p))
  }

  /** Registering puts the callback last, so hooks run in the order of registration; only a plugin's own way of
      registering records an owner. */
  lemma RegisteringMeans(h: Hooks, p: PluginId, cb: Callback)
    ensures RegisterFor(h, p, cb).callbacks == RegisterDirect(h, cb).callbacks == h.callbacks + [cb]
    ensures RegisterFor(h, p, cb).owned == h.owned + [Owned(p, cb)] && RegisterDirect(h, cb).owned == h.owned
  {
  }

  lemma FirstIndex(a: seq<Callback>, cb: Callback, b: seq<Callback>)
    requires cb !in a
    ensures IndexOf(a + [cb] + b, cb) == |a|
  {
    var s := a + [cb] + b;
    assert s[|a|] == cb;
    assert forall j | 0 <= j < |a| :: s[j] == a[j] && a[j] in a;
    assert forall i | |a| < i <= |s| :: cb in s[..i] by {
      forall i | |a| < i <= |s| ensures cb in s[..i] {
        assert s[..i][|a|] == cb;
      }
    }
  }

  /** Unregistering takes out the first registration of the callback, and the others keep their order. */
  lemma UnregisteringMeans(a: seq<Callback>, cb: Callback, b: seq<Callback>, owned: seq<Owned>)
    requires cb !in a
    ensures Unregister(Hooks(a + [cb] + b, owned), cb) == Hooks(a + b, owned)
    ensures Unregister(Hooks(a, owned), cb) == Hooks(a, owned)
  {
    FirstIndex(a, cb, b);
    var s := a + [cb] + b;
    assert s[..|a|] == a && s[|a| + 1..] == b && cb in s by { assert s[|a|] == cb; }
  }

  /** Every owned callback is there, as often as it is owned. */
  ghost predicate Covered(h: Hooks) {
    Bag(h.owned) <= multiset(h.callbacks)
  }

  lemma RemoveFirstTakes(callbacks: seq<Callback>, cb: Callback)
    ensures multiset(RemoveFirst(callbacks, cb)) == multiset(callbacks) - multiset{cb}
  {
  }

  lemma {:induction false} RemoveEachTakes(callbacks: seq<Callback>, owned: seq<Owned>)
    ensures multiset(RemoveEach(callbacks, owned)) == multiset(callbacks) - Bag(owned)
  {
    if owned != [] {
      hide RemoveFirst;
      var n := |owned| - 1;
      var cb := owned[n].callback;
      var front := CallbacksOf(owned[..n]);
      assert Bag(owned) == multiset(front) + multiset{cb};
      RemoveEachTakes(callbacks, owned[..n]);
      RemoveFirstTakes(RemoveEach(callbacks, owned[..n]), cb);
    }
  }

  lemma FilterLast(owned: seq<Owned>, p: PluginId)
    requires owned != []
    ensures var n := |owned| - 1;
            if owned[n].owner == p then
              && Mine(owned, p) == Mine(owned[..n], p) + [owned[n]]
              && Theirs(owned, p) == Theirs(owned[..n], p)
            else
              && Mine(owned, p) == Mine(owned[..n], p)
              && Theirs(owned, p) == Theirs(owned[..n], p) + [owned[n]]
  {
  }

  lemma AddToEither(a: multiset<Callback>, b: multiset<Callback>, x: multiset<Callback>)
    ensures a + b + x == (a + x) + b && a + b + x == a + (b + x)
  {
  }

  lemma CallbacksNext(owned: seq<Owned>, o: Owned)
    ensures Bag(owned + [o]) == Bag(owned) + multiset{o.callback}
  {
    assert (owned + [o])[..|owned|] == owned;
  }

  lemma BagLast(owned: seq<Owned>)
    requires owned != []
    ensures Bag(owned) == Bag(owned[..|owned| - 1]) + multiset{owned[|owned| - 1].callback}
  {
    hide Bag;
    assert owned == owned[..|owned| - 1] + [owned[|owned| - 1]];
    CallbacksNext(owned[..|owned| - 1], owned[|owned| - 1]);
  }

  lemma BagsLast(owned: seq<Owned>, p: PluginId)
    requires owned != []
    ensures var n := |owned| - 1;
            var x, mine, theirs := multiset{owned[n].callback}, Bag(Mine(owned[..n], p)), Bag(Theirs(owned[..n], p));
            if owned[n].owner == p then Bag(Mine(owned, p)) == mine + x && Bag(Theirs(owned, p)) == theirs
            else Bag(Mine(owned, p)) == mine && Bag(Theirs(owned, p)) == theirs + x
  {
    hide *;
    var n := |owned| - 1;
    FilterLast(owned, p);
    CallbacksNext(Mine(owned[..n], p), owned[n]);
    CallbacksNext(Theirs(owned[..n], p), owned[n]);
  }

  lemma {:induction false} OwnersSplit(owned: seq<Owned>, p: PluginId)
    ensures Bag(owned) == Bag(Mine(owned, p)) + Bag(Theirs(owned, p))
  {
    if owned == [] {
    } else {
      hide *;
      var n := |owned| - 1;
      OwnersSplit(owned[..n], p);
      BagLast(owned);
      BagsLast(owned, p);
      AddToEither(Bag(Mine(owned[..n], p)), Bag(Theirs(owned[..n], p)), multiset{owned[n].callback});
    }
  }

  lemma OthersRemain(owned: seq<Owned>, p: PluginId)
    ensures forall o | o in Theirs(owned, p) :: o.owner != p
  {
    hide CallbacksOf;
    forall o | o in Theirs(owned, p) ensures o.owner != p {
      assert OwnedByOthers(p)(o);
    }
  }

  /** Removing a plugin's hooks takes away the callbacks it owns, as often as it owns them and as far as
      they are there, and leaves the ownership of the others. */
  lemma RemoveHooksOfMeans(h: Hooks, p: PluginId)
    ensures var r := RemoveHooksOf(h, p);
            && multiset(r.callbacks) == multiset(h.callbacks) - Bag(Mine(h.owned, p))
            && (Covered(h) ==> Covered(r))
            && (forall o | o in r.owned :: o.owner != p)
            && Bag(h.owned) == Bag(Mine(h.owned, p)) + Bag(r.owned)
  {
    hide CallbacksOf, Mine, Theirs, RemoveEach;
    OwnersSplit(h.owned, p);
    RemoveEachTakes(h.callbacks, Mine(h.owned, p));
    OthersRemain(h.owned, p);
  }

  /** It leaves the others all their hooks exactly when every callback that another plugin owns is there
      as often as it is owned, by that plugin and the others together. */
  lemma OthersKeepTheirsIff(h: Hooks, p: PluginId)
    ensures Covered(RemoveHooksOf(h, p))
            <==> forall cb | Bag(Theirs(h.owned, p))[cb] > 0 ::
                   Bag(Theirs(h.owned, p))[cb] + Bag(Mine(h.owned, p))[cb] <= multiset(h.callbacks)[cb]
  {
    hide CallbacksOf, Mine, Theirs, RemoveEach;
    var mine, theirs, all := Bag(Mine(h.owned, p)), Bag(Theirs(h.owned, p)), multiset(h.callbacks);
    RemoveHooksOfMeans(h, p);
    assert Covered(RemoveHooksOf(h, p)) <==> theirs <= all - mine;
    if forall cb | theirs[cb] > 0 :: theirs[cb] + mine[cb] <= all[cb] {
      forall cb ensures theirs[cb] <= (all - mine)[cb] {
      }
    }
    if theirs <= all - mine {
      forall cb | theirs[cb] > 0 ensures theirs[cb] + mine[cb] <= all[cb] {
        assert theirs[cb] <= (all - mine)[cb];
      }
    }
  }

  lemma RemoveNothing(h: Hooks, cb: Callback)
    requires cb !in h.callbacks
    ensures Unregister(h, cb) == h
  {
  }

  /** Unregistering by hand keeps the owners covered exactly when the callback was not there, or was
      there more often than owned. */
  lemma UnregisterCoversIff(h: Hooks, cb: Callback)
    requires Covered(h)
    ensures Covered(Unregister(h, cb))
            <==> cb !in h.callbacks || Bag(h.owned)[cb] < multiset(h.callbacks)[cb]
  {
    hide CallbacksOf, RemoveFirst;
    var a, o := multiset(h.callbacks), Bag(h.owned);
    if cb in h.callbacks {
      RemoveFirstTakes(h.callbacks, cb);
      assert (a - multiset{cb})[cb] == a[cb] - 1;
    } else {
      assert Unregister(h, cb) == h by { RemoveNothing(h, cb); }
    }
  }

  // ---- runs of hook operations ----

  datatype HookAction = RegisterHook(owner: PluginId, callback: Callback) | RegisterByHand(callback: Callback)
    | UnregisterByHand(callback: Callback) | RemoveOwner(owner: PluginId)

  function Perform(h: Hooks, a: HookAction): Hooks {
    match a
    case RegisterHook(p, cb) => RegisterFor(h, p, cb)
    case RegisterByHand(cb) => RegisterDirect(h, cb)
    case UnregisterByHand(cb) => Unregister(h, cb)
    case RemoveOwner(p) => RemoveHooksOf(h, p)
  }

  function HooksAfter(actions: seq<HookAction>): Hooks {
    if actions == [] then Hooks([], []) else Perform(HooksAfter(actions[..|actions| - 1]), actions[|actions| - 1])
  }

  /** What is unregistered by hand is not there, or there more often than owned. */
  ghost predicate Spares(h: Hooks, a: HookAction) {
    a.UnregisterByHand? && a.callback in h.callbacks ==> Bag(h.owned)[a.callback] < multiset(h.callbacks)[a.callback]
  }

  ghost predicate AllSpare(actions: seq<HookAction>) {
    actions == []
    || (AllSpare(actions[..|actions| - 1]) && Spares(HooksAfter(actions[..|actions| - 1]), actions[|actions| - 1]))
  }

  /** The owners are covered after the run, and were after each of its operations. */
  ghost predicate AlwaysCovered(actions: seq<HookAction>) {
    Covered(HooksAfter(actions)) && (actions != [] ==> AlwaysCovered(actions[..|actions| - 1]))
  }

  lemma RegisteringCovers(h: Hooks, o: Owned)
    requires Covered(h)
    ensures Covered(RegisterFor(h, o.owner, o.callback)) && Covered(RegisterDirect(h, o.callback))
  {
    CallbacksNext(h.owned, o);
  }

  lemma PerformCoversIff(h: Hooks, a: HookAction)
    requires Covered(h)
    ensures Covered(Perform(h, a)) <==> Spares(h, a)
  {
    hide Covered, RegisterFor, RegisterDirect, Unregister, RemoveHooksOf, Bag;
    match a
    case RegisterHook(p, cb) => RegisteringCovers(h, Owned(p, cb));
    case RegisterByHand(cb) => RegisteringCovers(h, Owned(PluginId(""), cb));
    case UnregisterByHand(cb) => UnregisterCoversIff(h, cb);
    case RemoveOwner(p) => RemoveHooksOfMeans(h, p);
  }

  /** Over any run of operations at a hook point, every owner has its hooks all along exactly when no
      callback is unregistered by hand that is not there more often than owned. */
  lemma {:induction false} AlwaysCoveredIff(actions: seq<HookAction>)
    ensures AlwaysCovered(actions) <==> AllSpare(actions)
  {
    if actions != [] {
      hide Covered, Spares, Perform;
      var n := |actions| - 1;
      AlwaysCoveredIff(actions[..n]);
      if AlwaysCovered(actions[..n]) {
        PerformCoversIff(HooksAfter(actions[..n]), actions[n]);
      }
    }
  }

  /** So a plugin that unregisters a callback by hand can cost another its hook: once the first is
      disabled, the same callback registered by the second is gone. */
  lemma StaleOwnerTakesAnothersHook(p: PluginId, q: PluginId, cb: Callback)
    requires p != q
    ensures var h := RegisterFor(Unregister(RegisterFor(Hooks([], []), p, cb), cb), q, cb);
            h.callbacks == [cb] && RemoveHooksOf(h, p) == Hooks([], [Owned(q, cb)])
  {
    var one := RegisterFor(Hooks([], []), p, cb);
    assert one.callbacks == [cb] && one.owned == [Owned(p, cb)];
    assert IndexOf([cb], cb) == 0 && Without([cb], 0) == [];
    var h := RegisterFor(Unregister(one, cb), q, cb);
    var both := [Owned(p, cb), Owned(q, cb)];
    assert h.owned == both && both[..1] == [Owned(p, cb)] && [Owned(p, cb)][..0] == [];
    assert Filter(both[..1], OwnedBy(p)) == [Owned(p, cb)] && Filter(both[..1], OwnedByOthers(p)) == [];
    assert Filter(both, OwnedBy(p)) == [Owned(p, cb)] && Filter(both, OwnedByOthers(p)) == [Owned(q, cb)];
    assert RemoveEach([cb], [Owned(p, cb)]) == [];
  }

  class HookTable {
    var hooks: Hooks

    constructor ()
      ensures hooks == Hooks([], [])
    {
      hooks := Hooks([], []);
    }

    /** `_remove_plugin_hooks` at one hook point. */
    method RemovePluginHooks(p: PluginId)
      modifies this
      ensures hooks == RemoveHooksOf(old(hooks), p)
    {
      var owned := Filter(hooks.owned, OwnedBy(p));
      var callbacks := hooks.callbacks;
      for i := 0 to |owned|
        invariant callbacks == RemoveEach(hooks.callbacks, owned[..i]) && hooks == old(hooks)
      {
        assert owned[..i + 1][..i] == owned[..i];
        if owned[i].callback in callbacks {
          callbacks := Without(callbacks, IndexOf(callbacks, owned[i].callback));
        }
      }
      assert owned[..|owned|] == owned;
      hooks := Hooks(callbacks, Filter(hooks.owned, OwnedByOthers(p)));
    }
  }
}
