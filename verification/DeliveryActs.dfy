/**
 What a delivery does to a consumer's state, in the consumer's own terms: an imported event
 never reaches an effect consumer's Apply, on any run; and what a rebuild request and a
 pass end with when nothing fails in them.
 */
module DeliveryActs {
  import opened Wrappers
  import opened EventLog
  import opened Delivery

  // ---------------------------------------------------------------------
  // One delivery
  // ---------------------------------------------------------------------

  /** after is what c makes of e in before: an effect consumer only ever folds an imported event, if that. */
  predicate DeliveredInto(c: Consumer, before: State, e: Event, after: State) {
    if c.effect && "imported" in e.metadata && e.metadata["imported"] == "true" then
      if c.folder then after == c.fold(before, e) else after == before
    else after == c.apply(before, e)
  }

  predicate LabelHolds(c: Consumer, e: Event, how: How) {
    if c.commits then how == Committed
    else if c.effect && "imported" in e.metadata && e.metadata["imported"] == "true" then
      how == if c.folder then Folded else Skipped
    else how == Applied
  }

  predicate OthersKeep(s: Sys, t: Sys, name: string) {
    && (forall n :: n in s.states && n != name ==> n in t.states && t.states[n] == s.states[n])
    && (forall n :: n in s.heard && n != name ==> n in t.heard && t.heard[n] == s.heard[n])
    && (forall n :: n in s.own && n != name ==> n in t.own && t.own[n] == s.own[n])
    && (forall n :: n in s.checkpoints && n != name ==> n in t.checkpoints && t.checkpoints[n] == s.checkpoints[n])
    && t.requests == s.requests && t.log == s.log
  }

  /** One more delivery in the history of name: of event i, labelled for what was done. */
  predicate HeardOnce(s: Sys, t: Sys, c: Consumer, i: nat) {
    && i < |s.log| && c.name in s.heard && c.name in t.heard
    && t.heard[c.name].from == s.heard[c.name].from
    && |t.heard[c.name].heard| == |s.heard[c.name].heard| + 1
    && t.heard[c.name].heard[..|s.heard[c.name].heard|] == s.heard[c.name].heard
    && t.heard[c.name].heard[|s.heard[c.name].heard|].nth == i + 1
    && LabelHolds(c, s.log[i], t.heard[c.name].heard[|s.heard[c.name].heard|].how)
  }

  /** What a delivery to a consumer that does not commit leaves, landed or not: its label fits its effect. */
  lemma ApplyStepHolds(cat: Catalog, s: Sys, name: string, ok: bool, landed: bool)
    requires Enabled(cat, s, ApplyNext(name, ok, landed))
    ensures var t, c, i := After(cat, s, ApplyNext(name, ok, landed)), cat[name], NextIndex(cat, s, name);
            && name in t.states && HeardOnce(s, t, c, i) && OthersKeep(s, t, name)
            && (landed ==> DeliveredInto(c, s.states[name], s.log[i], t.states[name]))
            && (!landed ==> t.states[name] == s.states[name])
            && t.own == s.own && t.checkpoints == s.checkpoints
            && t.doing == if ok then Delivered(name, s.log[i].position) else Nothing
  {
    hide Upto, LogOfPositions;
  }

  /** A commit moves state and position together, or moves neither. */
  lemma CommitStepHolds(cat: Catalog, s: Sys, name: string, ok: bool)
    requires Enabled(cat, s, CommitNext(name, ok))
    ensures var t, c, i := After(cat, s, CommitNext(name, ok)), cat[name], NextIndex(cat, s, name);
            var r := c.commit(s.states[name], s.log[i]);
            if ok && r.Some? then
              && name in t.states && t.states[name] == r.value && HeardOnce(s, t, c, i) && OthersKeep(s, t, name)
              && (if c.ownsPosition then name in t.own && t.own[name] == s.log[i].position
                  else name in t.checkpoints && t.checkpoints[name] == s.log[i].position)
            else t == s
  {
    hide Upto, LogOfPositions;
  }

  predicate SameDelivered(s: Sys, t: Sys) {
    t.log == s.log && t.own == s.own && t.checkpoints == s.checkpoints && t.heard == s.heard
  }

  predicate SameDurable(s: Sys, t: Sys) {
    SameDelivered(s, t) && t.states == s.states && t.requests == s.requests
  }

  /**
   The other steps. A crash, and anything but a delivery, a rebuild or a saved position, leaves
   every state and every position as it was; a request adds or takes off one name; a
   wipe empties one projection or leaves it partly emptied.
   */
  lemma OtherStepsHold(cat: Catalog, s: Sys, step: Step)
    requires Enabled(cat, s, step)
    ensures var t := After(cat, s, step);
            match step
            case Append(rows) => t == s.(log := s.log + rows)
            case Request(name) => t == s.(requests := s.requests + {name})
            case Drop(name) => t == s.(requests := s.requests - {name})
            case Crash => SameDurable(s, t) && t.doing == Nothing
            case Wipe(name, partial) =>
              && SameDelivered(s, t) && t.requests == s.requests && name in t.states
              && (forall n :: n in s.states && n != name ==> n in t.states && t.states[n] == s.states[n])
              && t.states[name] == (if partial.None? then cat[name].empty else partial.value)
              && t.doing == if partial.None? then Wiped(name) else Nothing
            case TakeOff(ok) =>
              && SameDelivered(s, t) && t.states == s.states && t.doing == Nothing
              && (forall n :: n in t.requests <==> n in s.requests && !(ok && n == s.doing.name))
            case _ => true
  {
    hide Upto, LogOfPositions, Act, HowDelivered;
  }

  /** A position is saved where its consumer keeps it, or nothing is; a reset also starts the history again. */
  lemma SaveStepsHold(cat: Catalog, s: Sys, step: Step)
    requires Enabled(cat, s, step) && (step.SaveNext? || step.SaveReset?)
    ensures var t, c := After(cat, s, step), cat[s.doing.name];
            && t.log == s.log && t.states == s.states && t.requests == s.requests
            && (forall n :: n in s.heard && n != c.name ==> n in t.heard && t.heard[n] == s.heard[n])
            && (!step.landed ==> SameDurable(s, t))
            && (step.landed ==>
                  && var position := if step.SaveNext? then s.doing.position else 0;
                     if c.ownsPosition then t.own == s.own[c.name := position] && t.checkpoints == s.checkpoints
                     else t.checkpoints == s.checkpoints[c.name := position] && t.own == s.own)
            && (step.SaveNext? ==> t.heard == s.heard && t.doing == Nothing)
            && (step.SaveReset? && step.landed ==> c.name in t.heard && t.heard[c.name] == History(0, []))
            && (step.SaveReset? ==> t.doing == if step.ok then Reset(c.name) else Nothing)
  {
    hide Upto, LogOfPositions, Act, HowDelivered;
  }

  /** The single pass, one event longer. */
  lemma FoldStepHolds(c: Consumer, log: seq<Event>, n: nat)
    requires n < |log|
    ensures FoldTo(c, log, 0) == Some(c.empty)
    ensures var before, after := FoldTo(c, log, n), FoldTo(c, log, n + 1);
            if before.None? then after.None?
            else if c.commits then after == c.commit(before.value, log[n])
            else after.Some? && DeliveredInto(c, before.value, log[n], after.value)
  {
  }

  // ---------------------------------------------------------------------
  // Every run: what Apply makes of an imported event cannot matter
  // ---------------------------------------------------------------------

  /**
   Two consumers alike but for what no run may ask of them: Apply of an imported event by an
   effect consumer, FoldOnly of any other event, either of a consumer that commits.
   */
  ghost predicate Alike(c: Consumer, d: Consumer) {
    && c.name == d.name && c.commits == d.commits && c.ownsPosition == d.ownsPosition
    && c.collections == d.collections && c.effect == d.effect && c.folder == d.folder && c.empty == d.empty
    && (c.commits ==> c.commit == d.commit)
    && (!c.commits ==> forall s: State, e: Event ::
          if c.effect && "imported" in e.metadata && e.metadata["imported"] == "true" then
            c.folder ==> c.FoldOnly(s, e) == d.FoldOnly(s, e)
          else c.Apply(s, e) == d.Apply(s, e))
  }

  ghost predicate AlikeCatalogs(cat: Catalog, cat': Catalog) {
    cat.Keys == cat'.Keys && forall name :: name in cat ==> Alike(cat[name], cat'[name])
  }

  lemma AlikePositions(s: Sys, c: Consumer, d: Consumer, position: nat)
    requires Alike(c, d)
    ensures PositionOf(s, c) == PositionOf(s, d) && SavePosition(s, c, position) == SavePosition(s, d, position)
  {
  }

  lemma AlikeDelivers(c: Consumer, d: Consumer, s: State, e: Event)
    requires Alike(c, d)
    ensures c.commits ==> c.Commit(s, e) == d.Commit(s, e)
    ensures !c.commits ==> Act(c, s, e) == Act(d, s, e)
    ensures HowDelivered(c, e) == HowDelivered(d, e)
  {
  }

  lemma AlikeMoves(s: Sys, c: Consumer, d: Consumer, i: nat, state: State)
    requires Alike(c, d) && c.name in s.heard && i < |s.log|
    ensures ApplyTo(s, c, i, state) == ApplyTo(s, d, i, state)
    ensures CommitTo(s, c, i, state) == CommitTo(s, d, i, state)
  {
    AlikeDelivers(c, d, state, s.log[i]);
    AlikePositions(ApplyTo(s, c, i, state), c, d, s.log[i].position);
    hide Alike, HowDelivered, PositionOf, SavePosition;
  }

  lemma AlikeCommits(cat: Catalog, cat': Catalog, s: Sys, name: string, ok: bool)
    requires AlikeCatalogs(cat, cat') && Enabled(cat, s, CommitNext(name, ok)) && Enabled(cat', s, CommitNext(name, ok))
    ensures After(cat', s, CommitNext(name, ok)) == After(cat, s, CommitNext(name, ok))
  {
    var c, d := cat[name], cat'[name];
    AlikePositions(s, c, d, 0);
    var i := NextIndex(cat, s, name);
    AlikeDelivers(c, d, s.states[name], s.log[i]);
    hide Alike, Act, HowDelivered, PositionOf, SavePosition, Upto, CommitTo;
    var r := c.Commit(s.states[name], s.log[i]);
    if r.Some? && ok {
      AlikeMoves(s, c, d, i, r.value);
    }
  }

  lemma AlikeApplies(cat: Catalog, cat': Catalog, s: Sys, name: string, ok: bool, landed: bool)
    requires AlikeCatalogs(cat, cat')
    requires Enabled(cat, s, ApplyNext(name, ok, landed)) && Enabled(cat', s, ApplyNext(name, ok, landed))
    ensures After(cat', s, ApplyNext(name, ok, landed)) == After(cat, s, ApplyNext(name, ok, landed))
  {
    var c, d := cat[name], cat'[name];
    AlikePositions(s, c, d, 0);
    var i := NextIndex(cat, s, name);
    AlikeDelivers(c, d, s.states[name], s.log[i]);
    AlikeMoves(s, c, d, i, if landed then Act(c, s.states[name], s.log[i]) else s.states[name]);
    hide Alike, Act, HowDelivered, PositionOf, SavePosition, Upto, ApplyTo;
  }

  lemma AlikeSaves(cat: Catalog, cat': Catalog, s: Sys, step: Step)
    requires AlikeCatalogs(cat, cat') && (step.SaveReset? || step.SaveNext?)
    requires Enabled(cat, s, step) && Enabled(cat', s, step)
    ensures After(cat', s, step) == After(cat, s, step)
  {
    AlikePositions(s, cat[s.doing.name], cat'[s.doing.name], 0);
    if step.SaveNext? {
      AlikePositions(s, cat[s.doing.name], cat'[s.doing.name], s.doing.position);
    }
    hide Alike, SavePosition, PositionOf, Upto;
  }

  lemma AlikeEnabled(cat: Catalog, cat': Catalog, s: Sys, step: Step)
    requires AlikeCatalogs(cat, cat')
    ensures Enabled(cat, s, step) <==> Enabled(cat', s, step)
  {
    if (step.CommitNext? || step.ApplyNext?) && step.name in cat {
      AlikePositions(s, cat[step.name], cat'[step.name], 0);
    }
    hide PositionOf, Upto, LogOfPositions;
  }

  lemma AlikeSteps(cat: Catalog, cat': Catalog, s: Sys, step: Step)
    requires AlikeCatalogs(cat, cat') && Enabled(cat, s, step)
    ensures Enabled(cat', s, step) && After(cat', s, step) == After(cat, s, step)
  {
    AlikeEnabled(cat, cat', s, step);
    match step
    case CommitNext(name, ok) => AlikeCommits(cat, cat', s, name, ok);
    case ApplyNext(name, ok, landed) => AlikeApplies(cat, cat', s, name, ok, landed);
    case SaveReset(_, _) => AlikeSaves(cat, cat', s, step);
    case SaveNext(_, _) => AlikeSaves(cat, cat', s, step);
    case _ => hide Upto, LogOfPositions;
  }

  /**
   The history law, through the state: consumers that differ only in what Apply makes of
   imported events (where they are effect consumers), in what FoldOnly makes of any other
   event, or in either where they commit, end every run alike: in their states, positions,
   histories and everything else.
   */
  lemma {:induction false} ImportedNeverReachesApply(cat: Catalog, cat': Catalog, s: Sys, steps: seq<Step>)
    requires AlikeCatalogs(cat, cat')
    ensures AfterAll(cat', s, steps) == AfterAll(cat, s, steps)
  {
    hide Enabled, After, AlikeCatalogs;
    if |steps| > 0 {
      var front, last := steps[..|steps| - 1], steps[|steps| - 1];
      ImportedNeverReachesApply(cat, cat', s, front);
      var before := AfterAll(cat, s, front);
      if before.Some? {
        AlikeEnabled(cat, cat', before.value, last);
        if Enabled(cat, before.value, last) {
          AlikeSteps(cat, cat', before.value, last);
        }
      }
    }
  }
}
