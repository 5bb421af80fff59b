/**
 The store-level upcaster composed of script deciders' chains, and exactly when bringing
 events up to date by an older chain first, then by a newer one, makes no difference.
 */
module UpcastStore {
  import opened Wrappers
  import opened EventLog
  import opened EventStore
  import opened Deciding
  import opened Upcasting

  /** What upcast returns: None when a transform throws, or when the chain never ends and nothing does return. */
  function Full(spec: Spec, e: Event): Option<Event> {
    if Ends(spec.transforms, e.kind, e.version, |spec.transforms|) then UpcastOf(spec, e, |spec.transforms|) else None
  }

  /** The event after the one transform that applies to it, if any does. */
  function Step(spec: Spec, e: Event): Option<Event> {
    var i := First(spec.transforms, e.kind, e.version);
    if i == |spec.transforms| then Some(e)
    else
      var data := spec.Run(spec.transforms[i], e.data);
      if data.None? then None else Some(e.(data := data.value, version := spec.transforms[i].to))
  }

  /** An event that can be brought up to date takes one step, and is brought to the same place from there. */
  lemma FullSteps(spec: Spec, e: Event)
    requires Full(spec, e).Some?
    ensures Step(spec, e).Some? && Full(spec, Step(spec, e).value) == Full(spec, e)
  {
    var ts := spec.transforms;
    var i := First(ts, e.kind, e.version);
    if i < |ts| {
      var next := Step(spec, e).value;
      EndsLater(ts, next.kind, next.version, |ts| - 1, |ts|);
      BoundDoesNotMatter(spec, next, |ts| - 1, |ts|);
    }
  }

  /**
   Upcasting normalises: the result has no applicable transform left, is the same event in
   everything but data and version, and is the event itself when there was nothing to do.
   */
  lemma {:induction false} UpcastReachesLatest(spec: Spec, e: Event, n: nat)
    requires Ends(spec.transforms, e.kind, e.version, n) && UpcastOf(spec, e, n).Some?
    ensures var r := UpcastOf(spec, e, n).value;
            && Latest(spec.transforms, r) && r == e.(data := r.data, version := r.version)
            && (Latest(spec.transforms, e) ==> r == e)
            && (Rising(spec.transforms) ==> r.version >= e.version)
    decreases n
  {
    var ts := spec.transforms;
    var i := First(ts, e.kind, e.version);
    if i < |ts| {
      UpcastReachesLatest(spec, e.(data := spec.Run(ts[i], e.data).value, version := ts[i].to), n - 1);
    }
  }

  lemma UpcastIsIdempotent(spec: Spec, e: Event)
    requires Full(spec, e).Some?
    ensures Full(spec, Full(spec, e).value) == Full(spec, e)
  {
    UpcastReachesLatest(spec, e, |spec.transforms|);
  }

  // ---------------------------------------------------------------------
  // An older chain, then a newer one
  // ---------------------------------------------------------------------

  /**
   Whatever the older chain has done to an event of its aggregate, the newer one ends where
   it would have without it.
   */
  ghost predicate Harmless(older: Spec, newer: Spec) {
    forall e: Event :: e.aggregate == newer.aggregate && Full(older, e).Some? ==>
      Full(newer, Full(older, e).value) == Full(newer, e)
  }

  /** The same of one transform of the older chain at a time. */
  ghost predicate StepHarmless(older: Spec, newer: Spec) {
    forall e: Event :: e.aggregate == newer.aggregate && Full(older, e).Some? ==>
      Full(newer, Step(older, e).value) == Full(newer, e)
  }

  lemma {:induction false} StepsAreHarmless(older: Spec, newer: Spec, e: Event, n: nat)
    requires StepHarmless(older, newer) && e.aggregate == newer.aggregate
    requires Full(older, e).Some? && Ends(older.transforms, e.kind, e.version, n)
    ensures Full(newer, Full(older, e).value) == Full(newer, e)
    decreases n
  {
    var i := First(older.transforms, e.kind, e.version);
    FullSteps(older, e);
    if i < |older.transforms| {
      StepsAreHarmless(older, newer, Step(older, e).value, n - 1);
    }
  }

  /** An older chain is harmless if and only if each of its transforms is, on every event it can bring up to date. */
  lemma OlderChainHarmlessIff(older: Spec, newer: Spec)
    ensures Harmless(older, newer) <==> StepHarmless(older, newer)
  {
    if StepHarmless(older, newer) {
      forall e: Event | e.aggregate == newer.aggregate && Full(older, e).Some?
        ensures Full(newer, Full(older, e).value) == Full(newer, e)
      {
        StepsAreHarmless(older, newer, e, |older.transforms|);
      }
    }
    if Harmless(older, newer) {
      forall e: Event | e.aggregate == newer.aggregate && Full(older, e).Some?
        ensures Full(newer, Step(older, e).value) == Full(newer, e)
      {
        FullSteps(older, e);
        var next := Step(older, e).value;
        assert Full(newer, Full(older, next).value) == Full(newer, next);
      }
    }
  }

  /**
   The newer script keeps every transform the older one applies: to the same version, with
   the same result wherever the older one had one. It may add any others.
   */
  ghost predicate Extends(newer: Spec, older: Spec) {
    forall kind: string, version: int ::
      var i, j := First(older.transforms, kind, version), First(newer.transforms, kind, version);
      i < |older.transforms| ==>
        && j < |newer.transforms| && newer.transforms[j].to == older.transforms[i].to
        && forall data: string :: older.Run(older.transforms[i], data).Some? ==>
             newer.Run(newer.transforms[j], data) == older.Run(older.transforms[i], data)
  }

  lemma FullAfterStep(spec: Spec, e: Event)
    requires Step(spec, e).Some?
    ensures Full(spec, Step(spec, e).value) == Full(spec, e)
  {
    var ts := spec.transforms;
    if First(ts, e.kind, e.version) < |ts| {
      var next := Step(spec, e).value;
      if Ends(ts, next.kind, next.version, |ts|) {
        var more: nat := |ts| + 1;
        assert Ends(ts, e.kind, e.version, more);
        EndsInTime(ts, e.kind, e.version, more);
        BoundDoesNotMatter(spec, e, more, |ts|);
      } else if Ends(ts, e.kind, e.version, |ts|) {
        EndsLater(ts, next.kind, next.version, |ts| - 1, |ts|);
      }
    }
  }

  /** A script that extends the one the store runs makes good whatever that one's chain gets through. */
  lemma ExtendingIsHarmless(older: Spec, newer: Spec)
    requires Extends(newer, older)
    ensures Harmless(older, newer)
  {
    forall e: Event | e.aggregate == newer.aggregate && Full(older, e).Some?
      ensures Full(newer, Step(older, e).value) == Full(newer, e)
    {
      FullSteps(older, e);
      if First(older.transforms, e.kind, e.version) < |older.transforms| {
        assert Step(newer, e) == Step(older, e);
        FullAfterStep(newer, e);
      }
    }
    OlderChainHarmlessIff(older, newer);
  }

  /** Where the older chain throws (or never ends), so does the newer one. */
  ghost predicate FailsToo(older: Spec, newer: Spec) {
    forall e: Event :: e.aggregate == newer.aggregate && Full(older, e).None? ==> Full(newer, e).None?
  }

  /**
   The newer script keeps every transform the older one applies as it is, throwing included.
   It may add any others.
   */
  ghost predicate Keeps(newer: Spec, older: Spec) {
    forall kind: string, version: int ::
      var i, j := First(older.transforms, kind, version), First(newer.transforms, kind, version);
      i < |older.transforms| ==>
        && j < |newer.transforms| && newer.transforms[j].to == older.transforms[i].to
        && forall data: string :: newer.Run(newer.transforms[j], data) == older.Run(older.transforms[i], data)
  }

  lemma {:induction false} KeptChainGoesThrough(older: Spec, newer: Spec, e: Event, n: nat)
    requires Keeps(newer, older) && Full(newer, e).Some? && Ends(newer.transforms, e.kind, e.version, n)
    ensures Full(older, e).Some?
    decreases n
  {
    if First(older.transforms, e.kind, e.version) < |older.transforms| {
      FullSteps(newer, e);
      assert Step(newer, e) == Step(older, e);
      KeptChainGoesThrough(older, newer, Step(newer, e).value, n - 1);
      FullAfterStep(older, e);
    }
  }

  /** A script that keeps the one it replaces and only adds transforms is harmless, and fails wherever that one does. */
  lemma KeepingIsHarmless(older: Spec, newer: Spec)
    requires Keeps(newer, older)
    ensures Harmless(older, newer) && FailsToo(older, newer)
  {
    assert Extends(newer, older);
    ExtendingIsHarmless(older, newer);
    forall e: Event | e.aggregate == newer.aggregate && Full(older, e).None?
      ensures Full(newer, e).None?
    {
      if Full(newer, e).Some? {
        KeptChainGoesThrough(older, newer, e, |newer.transforms|);
      }
    }
  }

  // ---------------------------------------------------------------------
  // BuildUpcaster
  // ---------------------------------------------------------------------

  /** The decider an aggregate's events go to: the last one given. */
  function Winner(specs: seq<Spec>, aggregate: string): (i: nat)
    ensures i <= |specs|
    ensures i < |specs| ==> specs[i].aggregate == aggregate
  {
    if |specs| == 0 then 0
    else if specs[|specs| - 1].aggregate == aggregate then |specs| - 1
    else
      var i := Winner(specs[..|specs| - 1], aggregate);
      if i < |specs| - 1 then i else |specs|
  }

  lemma {:induction false} WinnerIsLast(specs: seq<Spec>, j: nat)
    requires j < |specs|
    ensures j <= Winner(specs, specs[j].aggregate) < |specs|
  {
    var n := |specs| - 1;
    if specs[n].aggregate != specs[j].aggregate {
      assert specs[..n][j] == specs[j];
      WinnerIsLast(specs[..n], j);
    }
  }

  function Routed(specs: seq<Spec>, e: Event): Option<Event> {
    var i := Winner(specs, e.aggregate);
    if i == |specs| then Some(e) else Full(specs[i], e)
  }

  function BuildUpcaster(specs: seq<Spec>): Option<Upcaster> {
    if |specs| == 0 then None else Some(Upcaster((e: Event) => Routed(specs, e)))
  }

  function UpcastEach(spec: Spec, rows: seq<Event>): Option<seq<Event>> {
    if |rows| == 0 then Some([])
    else
      var front, last := UpcastEach(spec, rows[..|rows| - 1]), Full(spec, rows[|rows| - 1]);
      if front.None? || last.None? then None else Some(front.value + [last.value])
  }

  /** A stream of an aggregate as the store with these chains gives it; without a chain for it, as it is stored. */
  function Loaded(specs: seq<Spec>, aggregate: string, rows: seq<Event>): Option<seq<Event>> {
    var i := Winner(specs, aggregate);
    if i < |specs| then UpcastEach(specs[i], rows) else Some(rows)
  }

  /** The store's upcaster sends a stream of an aggregate through its last decider's chain. */
  lemma {:induction false} StoreUpcastsEach(specs: seq<Spec>, aggregate: string, rows: seq<Event>)
    requires forall k :: 0 <= k < |rows| ==> rows[k].aggregate == aggregate
    ensures UpcastAll(BuildUpcaster(specs), rows) == Loaded(specs, aggregate, rows)
  {
    if |rows| > 0 {
      StoreUpcastsEach(specs, aggregate, rows[..|rows| - 1]);
      assert rows[..|rows| - 1] + [rows[|rows| - 1]] == rows;
    } else {
      assert rows == [];
    }
  }

  lemma {:induction false} HarmlessOnStreams(older: Spec, newer: Spec, rows: seq<Event>)
    requires Harmless(older, newer) && UpcastEach(older, rows).Some?
    requires forall k :: 0 <= k < |rows| ==> rows[k].aggregate == newer.aggregate
    ensures UpcastEach(newer, UpcastEach(older, rows).value) == UpcastEach(newer, rows)
  {
    if |rows| > 0 {
      var n := |rows| - 1;
      var front, last := UpcastEach(older, rows[..n]).value, Full(older, rows[n]).value;
      HarmlessOnStreams(older, newer, rows[..n]);
      assert (front + [last])[..|front + [last]| - 1] == front;
    }
  }

  // ---------------------------------------------------------------------
  // Validating a script against the store
  // ---------------------------------------------------------------------

  /** ValidateDeciderSpec's fold of one stream: every event as loaded upcast by the script's own chain, then folded. */
  function Validated(script: Spec, d: Decider, loaded: Option<seq<Event>>): Option<State> {
    if loaded.None? || UpcastEach(script, loaded.value).None? then None
    else Fold(d, UpcastEach(script, loaded.value).value)
  }

  /**
   The events validation folds of a stream, in view of what the store's upcaster makes of it;
   None when either throws.
   */
  function Seen(specs: seq<Spec>, script: Spec, rows: seq<Event>): Option<seq<Event>> {
    var loaded := Loaded(specs, script.aggregate, rows);
    if loaded.None? then None else UpcastEach(script, loaded.value)
  }

  /** The store does not show: whatever the stream, they are those of the raw one, and it fails where that does. */
  ghost predicate StoreUnseen(specs: seq<Spec>, script: Spec) {
    forall rows: seq<Event> :: OfAggregate(rows, script.aggregate) ==>
        Seen(specs, script, rows) == UpcastEach(script, rows)
  }

  predicate OfAggregate(rows: seq<Event>, aggregate: string) {
    forall k :: 0 <= k < |rows| ==> rows[k].aggregate == aggregate
  }

  /** The older chain is made good wherever it goes through, and missed nowhere it does not. */
  ghost predicate MadeGood(older: Spec, script: Spec) {
    StepHarmless(older, script) && FailsToo(older, script)
  }

  lemma {:induction false} UnseenOnOne(specs: seq<Spec>, script: Spec, e: Event)
    requires StoreUnseen(specs, script) && Winner(specs, script.aggregate) < |specs| && e.aggregate == script.aggregate
    ensures var up := Full(specs[Winner(specs, script.aggregate)], e);
            if up.None? then Full(script, e).None? else Full(script, up.value) == Full(script, e)
  {
    hide Full;
    var older, rows := specs[Winner(specs, script.aggregate)], [e];
    OneUpcast(older, e);
    assert OfAggregate(rows, script.aggregate);
    assert Seen(specs, script, rows) == UpcastEach(script, rows);
    OneUpcast(script, e);
    if Full(older, e).Some? {
      assert Loaded(specs, script.aggregate, rows) == Some([Full(older, e).value]);
      OneUpcast(script, Full(older, e).value);
    }
  }

  lemma {:induction false} OneUpcast(script: Spec, e: Event)
    ensures UpcastEach(script, [e]) == if Full(script, e).None? then None else Some([Full(script, e).value])
  {
    assert [e][..0] == [];
    if Full(script, e).Some? {
      assert [] + [Full(script, e).value] == [Full(script, e).value];
    }
  }

  lemma {:induction false} FailsTooOnStreams(older: Spec, newer: Spec, rows: seq<Event>)
    requires FailsToo(older, newer) && OfAggregate(rows, newer.aggregate) && UpcastEach(older, rows).None?
    ensures UpcastEach(newer, rows).None?
  {
    var n := |rows| - 1;
    if UpcastEach(older, rows[..n]).None? {
      FailsTooOnStreams(older, newer, rows[..n]);
    } else {
      assert Full(older, rows[n]).None?;
    }
  }

  /**
   Validation does not depend on what the store's upcaster has done, or failed to do, if and
   only if the chain the store runs for the script's aggregate, when it runs one, takes no
   single step that the script's own chain would not make good, and throws on nothing the
   script's own chain gets through.
   */
  lemma ValidationIgnoresTheStoreIff(specs: seq<Spec>, script: Spec)
    ensures var i := Winner(specs, script.aggregate);
            StoreUnseen(specs, script) <==> (i < |specs| ==> MadeGood(specs[i], script))
  {
    var i := Winner(specs, script.aggregate);
    if i < |specs| {
      OlderChainHarmlessIff(specs[i], script);
      if StoreUnseen(specs, script) {
        forall e: Event | e.aggregate == script.aggregate
          ensures Full(specs[i], e).Some? ==> Full(script, Full(specs[i], e).value) == Full(script, e)
          ensures Full(specs[i], e).None? ==> Full(script, e).None?
        {
          UnseenOnOne(specs, script, e);
        }
      }
    }
    if i < |specs| ==> MadeGood(specs[i], script) {
      forall rows: seq<Event> | OfAggregate(rows, script.aggregate)
        ensures Seen(specs, script, rows) == UpcastEach(script, rows)
      {
        if i < |specs| {
          SeenAsRaw(specs[i], script, rows);
        }
      }
    }
  }

  lemma SeenAsRaw(older: Spec, script: Spec, rows: seq<Event>)
    requires MadeGood(older, script) && OfAggregate(rows, script.aggregate)
    ensures UpcastEach(script, rows) ==
            if UpcastEach(older, rows).None? then None else UpcastEach(script, UpcastEach(older, rows).value)
  {
    OlderChainHarmlessIff(older, script);
    if UpcastEach(older, rows).None? {
      FailsTooOnStreams(older, script, rows);
    } else {
      HarmlessOnStreams(older, script, rows);
    }
  }

  /** Then the script is validated on every stream as on the raw one, streams that do not load included. */
  lemma ValidatedAsRaw(specs: seq<Spec>, script: Spec, d: Decider, rows: seq<Event>)
    requires var i := Winner(specs, script.aggregate);
             i < |specs| ==> MadeGood(specs[i], script)
    requires OfAggregate(rows, script.aggregate)
    ensures Validated(script, d, UpcastAll(BuildUpcaster(specs), rows)) == Validated(script, d, Some(rows))
  {
    ValidationIgnoresTheStoreIff(specs, script);
    StoreUpcastsEach(specs, script.aggregate, rows);
    assert Seen(specs, script, rows) == UpcastEach(script, rows);
  }

  /** In particular when the script extends the chain the store runs, if any, and fails wherever that one does. */
  lemma ExtendedScriptValidatesAsRaw(specs: seq<Spec>, script: Spec, d: Decider, rows: seq<Event>)
    requires var i := Winner(specs, script.aggregate);
             i < |specs| ==> Extends(script, specs[i]) && FailsToo(specs[i], script)
    requires OfAggregate(rows, script.aggregate)
    ensures Validated(script, d, UpcastAll(BuildUpcaster(specs), rows)) == Validated(script, d, Some(rows))
  {
    var i := Winner(specs, script.aggregate);
    if i < |specs| {
      ExtendingIsHarmless(specs[i], script);
      OlderChainHarmlessIff(specs[i], script);
    }
    ValidatedAsRaw(specs, script, d, rows);
  }

  /** So a script that keeps the one it replaces as it is, and may add transforms, is validated as on the raw stream. */
  lemma KeptScriptValidatesAsRaw(specs: seq<Spec>, script: Spec, d: Decider, rows: seq<Event>)
    requires var i := Winner(specs, script.aggregate);
             i < |specs| ==> Keeps(script, specs[i])
    requires OfAggregate(rows, script.aggregate)
    ensures Validated(script, d, UpcastAll(BuildUpcaster(specs), rows)) == Validated(script, d, Some(rows))
  {
    var i := Winner(specs, script.aggregate);
    if i < |specs| {
      KeepingIsHarmless(specs[i], script);
      assert Extends(script, specs[i]);
    }
    ExtendedScriptValidatesAsRaw(specs, script, d, rows);
  }

  /** So folding what the store has upcast by the script's own chain, upcast once more, is folding it upcast once. */
  lemma FoldingTwiceIsFoldingOnce(specs: seq<Spec>, i: nat, d: Decider, rows: seq<Event>)
    requires i < |specs| && Winner(specs, specs[i].aggregate) == i && OfAggregate(rows, specs[i].aggregate)
    ensures var loaded := UpcastAll(BuildUpcaster(specs), rows);
            && loaded == UpcastEach(specs[i], rows)
            && (loaded.Some? ==> UpcastEach(specs[i], loaded.value) == loaded)
            && Validated(specs[i], d, loaded) == Validated(specs[i], d, Some(rows))
  {
    StoreUpcastsEach(specs, specs[i].aggregate, rows);
    forall e: Event | Full(specs[i], e).Some?
      ensures Full(specs[i], Full(specs[i], e).value) == Full(specs[i], e)
    {
      UpcastIsIdempotent(specs[i], e);
    }
    if UpcastEach(specs[i], rows).Some? {
      HarmlessOnStreams(specs[i], specs[i], rows);
    }
  }

  function Rewriting(text: string): Spec {
    Spec("doc", [Transform("Opened", 1, 2)], (t: Transform, data: string) => Some(text))
  }

  /**
   A script that rewrites a transform of the chain the store runs is such a case: it is
   validated on the older chain's events, where its own transform finds nothing left to do.
   */
  lemma OlderChainShowsThrough(e: Event)
    requires e.aggregate == "doc" && e.kind == "Opened" && e.version == 1
    ensures Routed([Rewriting("old")], e) == Some(e.(data := "old", version := 2))
    ensures Full(Rewriting("new"), e.(data := "old", version := 2)) == Some(e.(data := "old", version := 2))
    ensures Full(Rewriting("new"), e) == Some(e.(data := "new", version := 2))
    ensures !StoreUnseen([Rewriting("old")], Rewriting("new"))
  {
    var ts := [Transform("Opened", 1, 2)];
    assert First(ts, "Opened", 1) == 0 && First(ts, "Opened", 2) == 1;
    assert Ends(ts, "Opened", 2, 0) && Ends(ts, "Opened", 1, 1);
    assert Winner([Rewriting("old")], "doc") == 0;
    assert !StepHarmless(Rewriting("old"), Rewriting("new"));
    assert !MadeGood(Rewriting("old"), Rewriting("new"));
    ValidationIgnoresTheStoreIff([Rewriting("old")], Rewriting("new"));
  }

  /** A transform that throws on everything. */
  function Throwing(): Spec {
    Spec("doc", [Transform("Opened", 1, 2)], (t: Transform, data: string) => None)
  }

  /**
   A script that repairs a transform that throws is refused: it makes good every step the
   installed chain takes, but the stream does not load. On the raw stream it would fold.
   */
  lemma RepairIsRefused(d: Decider, e: Event, text: string)
    requires e.aggregate == "doc" && e.kind == "Opened" && e.version == 1
    ensures StepHarmless(Throwing(), Rewriting(text)) && Extends(Rewriting(text), Throwing())
    ensures !StoreUnseen([Throwing()], Rewriting(text))
    ensures Validated(Rewriting(text), d, UpcastAll(BuildUpcaster([Throwing()]), [e])).None?
    ensures Validated(Rewriting(text), d, Some([e])) == Fold(d, [e.(data := text, version := 2)])
  {
    hide Fold, StoreUnseen, StepHarmless, Extends;
    var ts := [Transform("Opened", 1, 2)];
    assert First(ts, "Opened", 1) == 0 && First(ts, "Opened", 2) == 1;
    assert Ends(ts, "Opened", 2, 0) && Ends(ts, "Opened", 1, 1);
    assert Winner([Throwing()], "doc") == 0;
    assert Full(Throwing(), e) == None && Full(Rewriting(text), e) == Some(e.(data := text, version := 2));
    ThrowingExtended(text);
    hide Full, StepHarmless, Extends, StoreUnseen, Throwing, Rewriting, Fold, First, Ends;
    StoreUpcastsEach([Throwing()], "doc", [e]);
    OneUpcast(Throwing(), e);
    OneUpcast(Rewriting(text), e);
    ValidationIgnoresTheStoreIff([Throwing()], Rewriting(text));
  }

  lemma ThrowingExtended(text: string)
    ensures StepHarmless(Throwing(), Rewriting(text)) && Extends(Rewriting(text), Throwing())
  {
    var older, newer := Throwing(), Rewriting(text);
    assert older.transforms == newer.transforms;
    ExtendingIsHarmless(older, newer);
    OlderChainHarmlessIff(older, newer);
  }
}
