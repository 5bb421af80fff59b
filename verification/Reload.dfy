/**
 The hot reload of script deciders: what the registry serves after a reload, and the
 prospective set that answers for it before the swap.
 */
module Reload {
  import opened Wrappers

  /** A decider: commands is what it declares, empty when it declares nothing. */
  datatype Spec = Spec(aggregate: string, commands: set<string>, code: string)

  type Table = map<string, Spec>

  datatype Mode = Running | Maintenance

  /** What a reload finds: the deciders in load order, which validate, and whether the schemas reconcile. */
  datatype Load = Load(deciders: seq<Spec>, valid: set<Spec>, reconciled: bool)

  /**
   The registry, which of its deciders came from scripts, and the deciders whose transform
   chains the store's upcaster was last built of.
   */
  datatype Served = Served(registry: Table, managed: Table, chains: seq<Spec>)

  predicate Accepted(s: Served, load: Load, spec: Spec) {
    spec in load.valid && (spec.aggregate in s.registry ==> spec.aggregate in s.managed)
  }

  /** One loaded decider: registered, or refused with the old script kept if there was one. */
  function SwapOne(before: Table, now: Served, load: Load, spec: Spec): Served {
    var a := spec.aggregate;
    if a in now.registry && a !in before then now
    else if spec in load.valid then Served(now.registry[a := spec], now.managed[a := spec], now.chains + [spec])
    else if a in before then Served(now.registry, now.managed[a := before[a]], now.chains + [before[a]])
    else now
  }

  /** The first n loaded deciders; before is what the reload started from. */
  function SwapFirst(before: Served, load: Load, n: nat): Served
    requires n <= |load.deciders|
  {
    if n == 0 then Served(before.registry, map[], [])
    else SwapOne(before.managed, SwapFirst(before, load, n - 1), load, load.deciders[n - 1])
  }

  /** A whole reload: outside maintenance, or when the schemas do not reconcile, deciders stay. */
  function After(s: Served, mode: Mode, load: Load): Served {
    if mode.Running? || !load.reconciled then s
    else
      var swapped := SwapFirst(s, load, |load.deciders|);
      swapped.(registry := swapped.registry - (s.managed.Keys - swapped.managed.Keys))
  }

  // ---------------------------------------------------------------------
  // The prospective set
  // ---------------------------------------------------------------------

  datatype Prospective = Prospective(live: Table, adds: map<string, set<string>>, removes: set<string>) {
    predicate Has(aggregate: string) {
      aggregate in adds || (aggregate !in removes && aggregate in live)
    }

    function Commands(aggregate: string): set<string> {
      if aggregate in adds then adds[aggregate]
      else if aggregate in removes then {}
      else CommandsOf(live, aggregate)
    }
  }

  function CommandsOf(registry: Table, aggregate: string): set<string> {
    if aggregate in registry then registry[aggregate].commands else {}
  }

  /** The commands each loaded decider declares; for an aggregate loaded twice, the last one's. */
  function Adds(deciders: seq<Spec>): map<string, set<string>> {
    if |deciders| == 0 then map[]
    else
      var spec := deciders[|deciders| - 1];
      Adds(deciders[..|deciders| - 1])[spec.aggregate := spec.commands]
  }

  function ProspectiveOf(s: Served, mode: Mode, load: Load): Prospective {
    if mode.Running? then Prospective(s.registry, map[], {})
    else Prospective(s.registry, Adds(load.deciders), s.managed.Keys - Adds(load.deciders).Keys)
  }

  class State {
    var registry: Table
    var jsDeciders: Table
    var upcasting: seq<Spec>

    constructor (builtin: Table)
      ensures Now() == Served(builtin, map[], [])
    {
      registry, jsDeciders, upcasting := builtin, map[], [];
    }

    function Now(): Served
      reads this
    {
      Served(registry, jsDeciders, upcasting)
    }

    /** ProspectiveCommands: live script deciders are candidates for removal until the load carries them. */
    method ProspectiveCommands(mode: Mode, load: Load) returns (p: Prospective)
      ensures p == ProspectiveOf(Now(), mode, load)
    {
      if mode.Running? {
        return Prospective(registry, map[], {});
      }
      var adds, removes := map[], jsDeciders.Keys;
      for i := 0 to |load.deciders|
        invariant adds == Adds(load.deciders[..i]) && removes == jsDeciders.Keys - adds.Keys
      {
        var spec := load.deciders[i];
        assert load.deciders[..i + 1][..i] == load.deciders[..i];
        removes := removes - {spec.aggregate};
        adds := adds[spec.aggregate := spec.commands];
      }
      assert load.deciders[..|load.deciders|] == load.deciders;
      p := Prospective(registry, adds, removes);
    }

    /** The decider swap of reloadFunctions. */
    method ReloadFunctions(mode: Mode, load: Load)
      modifies this
      ensures Now() == After(old(Now()), mode, load)
    {
      if mode.Running? || !load.reconciled {
        return;
      }
      ghost var before := Now();
      var newManaged: Table := map[];
      var validated: seq<Spec> := [];
      for i := 0 to |load.deciders|
        invariant jsDeciders == before.managed
        invariant Served(registry, newManaged, validated) == SwapFirst(before, load, i)
      {
        var spec := load.deciders[i];
        if spec.aggregate in registry && spec.aggregate !in jsDeciders {
          continue;
        }
        if spec !in load.valid {
          if spec.aggregate in jsDeciders {
            newManaged := newManaged[spec.aggregate := jsDeciders[spec.aggregate]];
            validated := validated + [jsDeciders[spec.aggregate]];
          }
          continue;
        }
        registry := registry[spec.aggregate := spec];
        newManaged := newManaged[spec.aggregate := spec];
        validated := validated + [spec];
      }
      ghost var swapped := registry;
      var left := jsDeciders.Keys;
      while left != {}
        invariant left <= jsDeciders.Keys && jsDeciders == before.managed
        invariant registry == swapped - ((jsDeciders.Keys - left) - newManaged.Keys)
        decreases left
      {
        var agg :| agg in left;
        if agg !in newManaged {
          registry := registry - {agg};
        }
        left := left - {agg};
      }
      jsDeciders, upcasting := newManaged, validated;
    }
  }

  // ---------------------------------------------------------------------
  // Every sequence of reloads
  // ---------------------------------------------------------------------

  /** The decider whose chain the store's upcaster sends an aggregate's events through: the last one it was given. */
  function Route(chains: seq<Spec>, aggregate: string): Option<Spec> {
    if |chains| == 0 then None
    else if chains[|chains| - 1].aggregate == aggregate then Some(chains[|chains| - 1])
    else Route(chains[..|chains| - 1], aggregate)
  }

  /** Built-ins as they were compiled in; the rest of the registry, and every chain, is exactly the script set's. */
  ghost predicate Sound(builtin: Table, s: Served) {
    && (forall a :: a in builtin ==> a in s.registry && s.registry[a] == builtin[a] && a !in s.managed)
    && s.registry.Keys == builtin.Keys + s.managed.Keys
    && (forall a :: a in s.managed ==> s.managed[a].aggregate == a)
    && RoutesManaged(s)
  }

  ghost predicate RoutesManaged(s: Served) {
    forall a :: Route(s.chains, a) == if a in s.managed then Some(s.managed[a]) else None
  }

  lemma RouteMore(chains: seq<Spec>, spec: Spec, a: string)
    ensures Route(chains + [spec], a) == if spec.aggregate == a then Some(spec) else Route(chains, a)
  {
    assert (chains + [spec])[..|chains|] == chains;
  }

  /** Each loaded decider moves the managed set and the chains together. */
  lemma {:induction false} SwapRoutesManaged(s: Served, load: Load, n: nat)
    requires n <= |load.deciders| && forall a :: a in s.managed ==> s.managed[a].aggregate == a
    ensures RoutesManaged(SwapFirst(s, load, n))
  {
    if n > 0 {
      SwapRoutesManaged(s, load, n - 1);
      var now, spec := SwapFirst(s, load, n - 1), load.deciders[n - 1];
      var t := SwapFirst(s, load, n);
      forall a
        ensures Route(t.chains, a) == if a in t.managed then Some(t.managed[a]) else None
      {
        RouteMore(now.chains, spec, a);
        if spec.aggregate in s.managed {
          RouteMore(now.chains, s.managed[spec.aggregate], a);
        }
      }
    }
  }

  /** What a swap keeps at every point: the built-ins stay, nothing is dropped yet. */
  predicate SwapSound(builtin: Table, s: Served, t: Served) {
    && (forall a :: a in builtin ==> a in t.registry && t.registry[a] == builtin[a] && a !in t.managed)
    && t.registry.Keys == s.registry.Keys + t.managed.Keys
    && (forall a :: a in t.managed ==> t.managed[a].aggregate == a)
  }

  lemma SwapNext(s: Served, load: Load, n: nat)
    requires 0 < n <= |load.deciders|
    ensures SwapFirst(s, load, n) == SwapOne(s.managed, SwapFirst(s, load, n - 1), load, load.deciders[n - 1])
  {
  }

  lemma SwapNone(builtin: Table, s: Served, load: Load)
    requires Sound(builtin, s)
    ensures SwapSound(builtin, s, SwapFirst(s, load, 0))
  {
    hide RoutesManaged;
  }

  lemma SwapOneKeepsSound(builtin: Table, s: Served, t: Served, load: Load, spec: Spec)
    requires Sound(builtin, s) && SwapSound(builtin, s, t)
    ensures SwapSound(builtin, s, SwapOne(s.managed, t, load, spec))
  {
    hide RoutesManaged;
  }

  lemma {:induction false} SwapKeepsSound(builtin: Table, s: Served, load: Load, n: nat)
    requires Sound(builtin, s) && n <= |load.deciders|
    ensures SwapSound(builtin, s, SwapFirst(s, load, n))
  {
    hide *;
    if n > 0 {
      SwapKeepsSound(builtin, s, load, n - 1);
      SwapNext(s, load, n);
      SwapOneKeepsSound(builtin, s, SwapFirst(s, load, n - 1), load, load.deciders[n - 1]);
    } else {
      SwapNone(builtin, s, load);
    }
  }

  lemma ReloadKeepsSound(builtin: Table, s: Served, mode: Mode, load: Load)
    requires Sound(builtin, s)
    ensures Sound(builtin, After(s, mode, load))
  {
    SwapKeepsSound(builtin, s, load, |load.deciders|);
    SwapRoutesManaged(s, load, |load.deciders|);
  }

  datatype Pass = Pass(mode: Mode, load: Load)

  function AfterAll(builtin: Table, passes: seq<Pass>): Served {
    if |passes| == 0 then Served(builtin, map[], [])
    else After(AfterAll(builtin, passes[..|passes| - 1]), passes[|passes| - 1].mode, passes[|passes| - 1].load)
  }

  /**
   Over every sequence of reloads and mode changes, whatever they load and refuse: every
   built-in decider is still served as it was, no script ever takes its place, the registry
   holds nothing else than the built-ins and the managed scripts, and the store upcasts each
   aggregate by its managed script's chain and no other.
   */
  lemma {:induction false} ReloadsKeepTheRegistry(builtin: Table, passes: seq<Pass>)
    ensures Sound(builtin, AfterAll(builtin, passes))
  {
    if |passes| > 0 {
      ReloadsKeepTheRegistry(builtin, passes[..|passes| - 1]);
      var last := passes[|passes| - 1];
      ReloadKeepsSound(builtin, AfterAll(builtin, passes[..|passes| - 1]), last.mode, last.load);
    }
  }
}
