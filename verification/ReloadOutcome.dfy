/**
 What one hot reload leaves an aggregate with, for every load and whatever was served
 before: the script that was loaded, the one it had, its built-in, or nothing.
 */
module ReloadOutcome {
  import opened Reload

  /** The load holds no decider for the aggregate from index i on. */
  predicate NotLoaded(load: Load, a: string, from: nat, to: nat) {
    forall i :: from <= i < to && i < |load.deciders| ==> load.deciders[i].aggregate != a
  }

  predicate Untouched(s: Served, t: Served, a: string) {
    && (a in t.registry <==> a in s.registry) && (a in s.registry && a in t.registry ==> t.registry[a] == s.registry[a])
  }

  /** Outside maintenance, or with schemas that do not reconcile, nothing at all changes. */
  lemma NothingReloads(s: Served, mode: Mode, load: Load)
    requires mode == Running || !load.reconciled
    ensures var t := After(s, mode, load); t.registry == s.registry && t.managed == s.managed && t.chains == s.chains
  {
  }

  lemma {:induction false} SwapPassesOver(s: Served, load: Load, from: nat, n: nat, a: string)
    requires from <= n <= |load.deciders| && NotLoaded(load, a, from, n)
    ensures var t, u := SwapFirst(s, load, from), SwapFirst(s, load, n);
            && Untouched(t, u, a) && (a in u.managed <==> a in t.managed)
            && (a in t.managed && a in u.managed ==> u.managed[a] == t.managed[a])
  {
    if from < n {
      SwapPassesOver(s, load, from, n - 1, a);
    }
  }

  lemma {:induction false} SwapKeepsBuiltIn(s: Served, load: Load, n: nat, a: string)
    requires n <= |load.deciders| && a in s.registry && a !in s.managed
    ensures var t := SwapFirst(s, load, n); Untouched(s, t, a) && a !in t.managed
  {
    if n > 0 {
      SwapKeepsBuiltIn(s, load, n - 1, a);
    }
  }

  /** A decider that is no script's is kept, whatever is loaded for its aggregate. */
  lemma BuiltInIsKept(s: Served, load: Load, a: string)
    requires load.reconciled && a in s.registry && a !in s.managed
    ensures var t := After(s, Maintenance, load);
            a in t.registry && t.registry[a] == s.registry[a] && a !in t.managed
  {
    SwapKeepsBuiltIn(s, load, |load.deciders|, a);
  }

  /** A script's aggregate that the load does not carry is served no more. */
  lemma UnloadedIsDropped(s: Served, load: Load, a: string)
    requires load.reconciled && NotLoaded(load, a, 0, |load.deciders|) && (a in s.registry <==> a in s.managed)
    ensures var t := After(s, Maintenance, load); a !in t.registry && a !in t.managed
  {
    SwapPassesOver(s, load, 0, |load.deciders|, a);
  }

  /**
   A script loaded for an aggregate that no built-in holds: served if it validates, and from
   then on the aggregate's script; if it does not, the script the aggregate had stays, and an
   aggregate that had none is not served.
   */
  lemma LoadedIsServed(s: Served, load: Load, i: nat)
    requires load.reconciled && i < |load.deciders|
    requires var a := load.deciders[i].aggregate;
             && NotLoaded(load, a, 0, i) && NotLoaded(load, a, i + 1, |load.deciders|)
             && (a in s.registry <==> a in s.managed)
    ensures var t, spec := After(s, Maintenance, load), load.deciders[i];
            var a := spec.aggregate;
            if spec in load.valid then
              a in t.registry && t.registry[a] == spec && a in t.managed && t.managed[a] == spec
            else if a in s.managed then
              && a in t.registry && t.registry[a] == s.registry[a] && a in t.managed && t.managed[a] == s.managed[a]
            else a !in t.registry && a !in t.managed
  {
    var a := load.deciders[i].aggregate;
    SwapPassesOver(s, load, 0, i, a);
    SwapPassesOver(s, load, i + 1, |load.deciders|, a);
    assert SwapFirst(s, load, i + 1) == SwapOne(s.managed, SwapFirst(s, load, i), load, load.deciders[i]);
    hide SwapFirst;
  }
}
