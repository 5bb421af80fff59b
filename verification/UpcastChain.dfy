/**
 What upcasting does to an event, one declared transform at a time: which transform, what
 data it is given, and where the chain stops.
 */
module UpcastChain {
  import opened Wrappers
  import opened EventLog
  import opened Upcasting
  import opened UpcastStore

  /** The transform that applies: the first declared for the event's type and version. */
  predicate Applies(spec: Spec, e: Event, i: nat) {
    && i < |spec.transforms| && spec.transforms[i].kind == e.kind && spec.transforms[i].from == e.version
    && forall j :: 0 <= j < i ==> spec.transforms[j].kind != e.kind || spec.transforms[j].from != e.version
  }

  predicate NoneApplies(spec: Spec, e: Event) {
    forall i :: 0 <= i < |spec.transforms| ==> spec.transforms[i].kind != e.kind || spec.transforms[i].from != e.version
  }

  /** One transform: the script is given the event's data so far, and only data and version change. */
  predicate Transformed(spec: Spec, e: Event, i: nat, next: Event) {
    && Applies(spec, e, i) && spec.run(spec.transforms[i], e.data) == Some(next.data)
    && next.version == spec.transforms[i].to
    && next.position == e.position && next.eid == e.eid && next.aggregate == e.aggregate
    && next.aggregateId == e.aggregateId && next.sequence == e.sequence && next.kind == e.kind
    && next.metadata == e.metadata && next.created == e.created
  }

  /** The script throws on the data it is given. */
  ghost predicate ThrowsOn(spec: Spec, e: Event) {
    exists i: nat :: Applies(spec, e, i) && spec.run(spec.transforms[i], e.data).None?
  }

  ghost predicate TransformedBy(spec: Spec, e: Event, next: Event) {
    exists i: nat :: Transformed(spec, e, i, next)
  }

  /** Each event of through is the one before it, one transform on. */
  ghost predicate Chain(spec: Spec, through: seq<Event>) {
    |through| > 0 && forall k, l :: 0 <= k && l == k + 1 < |through| ==> TransformedBy(spec, through[k], through[l])
  }

  lemma ChainFrom(spec: Spec, e: Event, rest: seq<Event>)
    requires Chain(spec, rest) && TransformedBy(spec, e, rest[0])
    ensures Chain(spec, [e] + rest)
  {
    var all := [e] + rest;
    forall k, l | 0 <= k && l == k + 1 < |all|
      ensures TransformedBy(spec, all[k], all[l])
    {
      if k > 0 {
        assert all[k] == rest[k - 1] && all[l] == rest[k];
      }
    }
  }

  /**
   The chain of an event: transform after transform, each given what the one before it made,
   to an event no transform applies to, or to one whose transform throws.
   */
  lemma {:induction false} UpcastChains(spec: Spec, e: Event, n: nat) returns (through: seq<Event>)
    requires Ends(spec.transforms, e.kind, e.version, n)
    ensures Chain(spec, through) && through[0] == e && |through| <= n + 1
    ensures var r, last := UpcastOf(spec, e, n), through[|through| - 1];
            if r.Some? then r.value == last && NoneApplies(spec, last) else ThrowsOn(spec, last)
    decreases n
  {
    var i := First(spec.transforms, e.kind, e.version);
    through := [e];
    if i < |spec.transforms| {
      assert Applies(spec, e, i);
      var data := spec.Run(spec.transforms[i], e.data);
      if data.Some? {
        var next := e.(data := data.value, version := spec.transforms[i].to);
        var rest := UpcastChains(spec, next, n - 1);
        assert Transformed(spec, e, i, next);
        ChainFrom(spec, e, rest);
        through := [e] + rest;
      }
    }
  }

  // ---------------------------------------------------------------------
  // Streams
  // ---------------------------------------------------------------------

  /** The last decider given for an aggregate. */
  predicate LastFor(specs: seq<Spec>, aggregate: string, i: nat) {
    i < |specs| && specs[i].aggregate == aggregate
    && forall j :: i < j < |specs| ==> specs[j].aggregate != aggregate
  }

  lemma {:induction false} WinnerHolds(specs: seq<Spec>, aggregate: string)
    ensures var i := Winner(specs, aggregate);
            if i < |specs| then LastFor(specs, aggregate, i)
            else forall j :: 0 <= j < |specs| ==> specs[j].aggregate != aggregate
  {
    if |specs| > 0 && specs[|specs| - 1].aggregate != aggregate {
      var front := specs[..|specs| - 1];
      WinnerHolds(front, aggregate);
      assert forall j :: 0 <= j < |front| ==> front[j] == specs[j];
    }
  }

  /**
   The store's upcaster: an event of an aggregate with a script decider goes down the chain of
   the last one given for it, and any other event is left as it is.
   */
  lemma RoutedChains(specs: seq<Spec>, e: Event) returns (i: nat, through: seq<Event>)
    requires |specs| > 0
    ensures BuildUpcaster(specs).Some?
    ensures if exists j: nat :: LastFor(specs, e.aggregate, j) then LastFor(specs, e.aggregate, i)
            else BuildUpcaster(specs).value.up(e) == Some(e)
    ensures LastFor(specs, e.aggregate, i)
            && Ends(specs[i].transforms, e.kind, e.version, |specs[i].transforms|) ==>
              && Chain(specs[i], through) && through[0] == e
              && var r, last := BuildUpcaster(specs).value.up(e), through[|through| - 1];
                 if r.Some? then r.value == last && NoneApplies(specs[i], last) else ThrowsOn(specs[i], last)
  {
    hide Ends, UpcastOf, NoneApplies, ThrowsOn, Chain;
    WinnerHolds(specs, e.aggregate);
    i := Winner(specs, e.aggregate);
    through := [];
    if i < |specs| && Ends(specs[i].transforms, e.kind, e.version, |specs[i].transforms|) {
      through := UpcastChains(specs[i], e, |specs[i].transforms|);
    }
  }
}
