/**
 What a maintenance reload serves, told from what it loads: exactly when every managed script
 is the code the registry serves, and exactly when the prospective set is right about it.
 */
module ReloadPrediction {
  import opened Wrappers
  import opened Reload

  // ---------------------------------------------------------------------
  // The loaded deciders of one aggregate
  // ---------------------------------------------------------------------

  function LastLoaded(load: Load, n: nat, a: string): Option<Spec>
    requires n <= |load.deciders|
  {
    if n == 0 then None
    else if load.deciders[n - 1].aggregate == a then Some(load.deciders[n - 1])
    else LastLoaded(load, n - 1, a)
  }

  function LastValid(load: Load, n: nat, a: string): Option<Spec>
    requires n <= |load.deciders|
  {
    if n == 0 then None
    else if load.deciders[n - 1].aggregate == a && load.deciders[n - 1] in load.valid then Some(load.deciders[n - 1])
    else LastValid(load, n - 1, a)
  }

  function FirstValid(load: Load, n: nat, a: string): Option<Spec>
    requires n <= |load.deciders|
  {
    if n == 0 then None
    else
      var before := FirstValid(load, n - 1, a);
      if before.None? && load.deciders[n - 1].aggregate == a && load.deciders[n - 1] in load.valid
      then Some(load.deciders[n - 1]) else before
  }

  function Lookup(t: Table, a: string): Option<Spec> {
    if a in t then Some(t[a]) else None
  }

  /**
   What an aggregate serves once the first n are looked at: a script's is replaced each time,
   a free one taken once.
   */
  function Serves(s: Served, load: Load, n: nat, a: string): Option<Spec>
    requires n <= |load.deciders|
  {
    if a in s.managed && LastValid(load, n, a).Some? then LastValid(load, n, a)
    else if a in s.managed || a in s.registry then Lookup(s.registry, a)
    else FirstValid(load, n, a)
  }

  /** Which script is held to be its decider: the last one loaded, or for a refused one the old script. */
  function Manages(s: Served, load: Load, n: nat, a: string): Option<Spec>
    requires n <= |load.deciders|
  {
    var last := LastLoaded(load, n, a);
    if a in s.managed then (if last.Some? && last.value !in load.valid then Some(s.managed[a]) else last)
    else if a in s.registry then None
    else FirstValid(load, n, a)
  }

  lemma {:induction false} SwapIs(s: Served, load: Load, n: nat, a: string)
    requires n <= |load.deciders|
    ensures var t := SwapFirst(s, load, n);
            && Lookup(t.managed, a) == Manages(s, load, n, a)
            && Lookup(t.registry, a) == if a in s.managed && LastValid(load, n, a).None? then Lookup(s.registry, a)
               else Serves(s, load, n, a)
  {
    if n > 0 {
      SwapIs(s, load, n - 1, a);
    }
  }

  lemma {:induction false} ValidIsLoaded(load: Load, n: nat, a: string)
    requires n <= |load.deciders|
    ensures LastValid(load, n, a).Some? ==> LastLoaded(load, n, a).Some? && LastValid(load, n, a).value.aggregate == a
    ensures LastLoaded(load, n, a).Some? && LastLoaded(load, n, a).value in load.valid ==>
              LastValid(load, n, a) == LastLoaded(load, n, a)
    ensures FirstValid(load, n, a).Some? <==> LastValid(load, n, a).Some?
  {
    if n > 0 {
      ValidIsLoaded(load, n - 1, a);
    }
  }

  /** The registry after a maintenance reload: a script that was not loaded again is gone. */
  lemma ReloadServes(s: Served, load: Load, a: string)
    requires load.reconciled
    ensures var t, n := After(s, Maintenance, load), |load.deciders|;
            && Lookup(t.managed, a) == Manages(s, load, n, a)
            && Lookup(t.registry, a) ==
               if a in s.managed && LastLoaded(load, n, a).None? then None else Serves(s, load, n, a)
  {
    SwapIs(s, load, |load.deciders|, a);
    ValidIsLoaded(load, |load.deciders|, a);
  }

  // ---------------------------------------------------------------------
  // Is every managed script the one that is served?
  // ---------------------------------------------------------------------

  predicate ServedAsManaged(s: Served, a: string) {
    a in s.managed ==> a in s.registry && s.registry[a] == s.managed[a]
  }

  /** A script loaded several times: the last is refused, but another one before it was not, and is not the old one. */
  predicate Displaced(s: Served, load: Load, a: string) {
    var n := |load.deciders|;
    && a in s.managed
    && LastLoaded(load, n, a).Some? && LastLoaded(load, n, a).value !in load.valid
    && LastValid(load, n, a).Some? && LastValid(load, n, a).value != s.managed[a]
  }

  /**
   After a maintenance reload a managed script is the code the registry serves if and only
   if its aggregate was not loaded with a script that took over and then a refused one.
   */
  lemma ManagedIsServedIff(s: Served, load: Load, a: string)
    requires load.reconciled && ServedAsManaged(s, a)
    ensures ServedAsManaged(After(s, Maintenance, load), a) <==> !Displaced(s, load, a)
  {
    ReloadServes(s, load, a);
    ValidIsLoaded(load, |load.deciders|, a);
  }

  /** In particular when no aggregate is loaded twice. */
  lemma ManagedIsServed(s: Served, load: Load, a: string)
    requires load.reconciled && Distinct(load.deciders) && ServedAsManaged(s, a)
    ensures ServedAsManaged(After(s, Maintenance, load), a)
  {
    ManagedIsServedIff(s, load, a);
    if LastLoaded(load, |load.deciders|, a).Some? {
      var i := LoadedAt(load, |load.deciders|, a);
      OnlyOne(load, |load.deciders|, i);
    }
  }

  /**
   Over every sequence of reloads: while no reload displaces a script, every managed script
   is the code the registry serves.
   */
  lemma {:induction false} ServedThroughReloads(builtin: Table, passes: seq<Pass>, a: string)
    requires forall k :: 0 <= k < |passes| && passes[k].mode.Maintenance? && passes[k].load.reconciled ==>
               !Displaced(AfterAll(builtin, passes[..k]), passes[k].load, a)
    ensures ServedAsManaged(AfterAll(builtin, passes), a)
  {
    if |passes| > 0 {
      var n := |passes| - 1;
      assert forall k :: 0 <= k < n ==> passes[..n][..k] == passes[..k];
      ServedThroughReloads(builtin, passes[..n], a);
      if passes[n].mode.Maintenance? && passes[n].load.reconciled {
        ManagedIsServedIff(AfterAll(builtin, passes[..n]), passes[n].load, a);
      }
    }
  }

  /** Such a load: the first valid and the second not, in place of an old script. */
  lemma LoadedTwiceSplits(old': Spec, first: Spec, second: Spec)
    requires old'.aggregate == first.aggregate == second.aggregate && first != second && first != old'
    ensures var s := Served(map[old'.aggregate := old'], map[old'.aggregate := old'], [old']);
            var load := Load([first, second], {first}, true);
            && Displaced(s, load, old'.aggregate)
            && Lookup(After(s, Maintenance, load).registry, old'.aggregate) == Some(first)
            && Lookup(After(s, Maintenance, load).managed, old'.aggregate) == Some(old')
  {
    var s := Served(map[old'.aggregate := old'], map[old'.aggregate := old'], [old']);
    var load, a := Load([first, second], {first}, true), old'.aggregate;
    assert LastLoaded(load, 2, a) == Some(second) && LastValid(load, 1, a) == Some(first) == LastValid(load, 2, a);
    ReloadServes(s, load, a);
  }

  // ---------------------------------------------------------------------
  // Is the prospective set right?
  // ---------------------------------------------------------------------

  lemma {:induction false} AddsAre(load: Load, n: nat, a: string)
    requires n <= |load.deciders|
    ensures var adds, last := Adds(load.deciders[..n]), LastLoaded(load, n, a);
            (a in adds <==> last.Some?) && (last.Some? ==> adds[a] == last.value.commands)
  {
    if n > 0 {
      assert load.deciders[..n][..n - 1] == load.deciders[..n - 1];
      AddsAre(load, n - 1, a);
    }
  }

  /** The prospective set's two answers about an aggregate are the registry's. */
  predicate Predicts(p: Prospective, registry: Table, a: string) {
    (p.Has(a) <==> a in registry) && p.Commands(a) == CommandsOf(registry, a)
  }

  /** What can be read off before the swap: whatever will be served declares what the last loaded decider declares. */
  predicate Foreseen(s: Served, load: Load, a: string) {
    var last, serves := LastLoaded(load, |load.deciders|, a), Serves(s, load, |load.deciders|, a);
    last.Some? ==> serves.Some? && serves.value.commands == last.value.commands
  }

  /**
   The prospective set predicts a maintenance reload about an aggregate if and only if what
   will be served for it declares the commands of the last decider loaded for it.
   */
  lemma PredictionIff(s: Served, load: Load, a: string)
    requires load.reconciled && s.managed.Keys <= s.registry.Keys
    ensures Predicts(ProspectiveOf(s, Maintenance, load), After(s, Maintenance, load).registry, a) <==>
            Foreseen(s, load, a)
  {
    assert load.deciders[..|load.deciders|] == load.deciders;
    AddsAre(load, |load.deciders|, a);
    ReloadServes(s, load, a);
    ValidIsLoaded(load, |load.deciders|, a);
  }

  predicate Distinct(deciders: seq<Spec>) {
    forall i, j :: 0 <= i < j < |deciders| ==> deciders[i].aggregate != deciders[j].aggregate
  }

  lemma {:induction false} LoadedAt(load: Load, n: nat, a: string) returns (i: nat)
    requires n <= |load.deciders| && LastLoaded(load, n, a).Some?
    ensures i < n && load.deciders[i] == LastLoaded(load, n, a).value && load.deciders[i].aggregate == a
  {
    i := n - 1;
    if load.deciders[i].aggregate != a {
      i := LoadedAt(load, n - 1, a);
    }
  }

  lemma {:induction false} OnlyOne(load: Load, n: nat, i: nat)
    requires i < n <= |load.deciders| && Distinct(load.deciders)
    ensures var a, spec := load.deciders[i].aggregate, load.deciders[i];
            && LastLoaded(load, n, a) == Some(spec)
            && LastValid(load, n, a) == FirstValid(load, n, a) == if spec in load.valid then Some(spec) else None
    decreases n
  {
    if i == n - 1 {
      NoneLoaded(load, i, load.deciders[i].aggregate);
    } else {
      OnlyOne(load, n - 1, i);
    }
  }

  lemma {:induction false} NoneLoaded(load: Load, n: nat, a: string)
    requires n <= |load.deciders| && forall i :: 0 <= i < n ==> load.deciders[i].aggregate != a
    ensures LastLoaded(load, n, a) == LastValid(load, n, a) == FirstValid(load, n, a) == None
  {
    if n > 0 {
      NoneLoaded(load, n - 1, a);
    }
  }

  /**
   With distinct aggregates that is: each loaded decider is accepted (it validates and takes
   no built-in's place) or declares the commands its aggregate serves already.
   */
  lemma DistinctPredictionIff(s: Served, load: Load, i: nat)
    requires load.reconciled && s.managed.Keys <= s.registry.Keys && Distinct(load.deciders) && i < |load.deciders|
    ensures var spec := load.deciders[i];
            Predicts(ProspectiveOf(s, Maintenance, load), After(s, Maintenance, load).registry, spec.aggregate) <==>
            Accepted(s, load, spec)
                || (spec.aggregate in s.registry && s.registry[spec.aggregate].commands == spec.commands)
  {
    PredictionIff(s, load, load.deciders[i].aggregate);
    OnlyOne(load, |load.deciders|, i);
  }

  /** After any history, in a reload that refuses nothing the prediction is right about every aggregate. */
  lemma CleanReloadIsPredicted(builtin: Table, passes: seq<Pass>, load: Load, a: string)
    requires load.reconciled && Distinct(load.deciders)
    requires forall i :: 0 <= i < |load.deciders| ==>
             load.deciders[i] in load.valid && load.deciders[i].aggregate !in builtin
    ensures var s := AfterAll(builtin, passes);
            Predicts(ProspectiveOf(s, Maintenance, load), After(s, Maintenance, load).registry, a)
  {
    var s := AfterAll(builtin, passes);
    ReloadsKeepTheRegistry(builtin, passes);
    if LastLoaded(load, |load.deciders|, a).Some? {
      var i := LoadedAt(load, |load.deciders|, a);
      DistinctPredictionIff(s, load, i);
    } else {
      PredictionIff(s, load, a);
    }
  }

  /** Outside maintenance nothing is swapped, and the registry predicts itself. */
  lemma RunningIsPredicted(s: Served, load: Load, a: string)
    ensures Predicts(ProspectiveOf(s, Running, load), After(s, Running, load).registry, a)
  {
  }
}
