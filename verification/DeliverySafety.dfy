/**
 What every run of delivery keeps: rebuilds are safe, deliveries only stutter, and imported
 events never make an effect consumer act.
 */
module DeliverySafety {
  import opened Wrappers
  import opened EventLog
  import opened LogInvariant
  import opened Delivery

  // ---------------------------------------------------------------------
  // One consumer
  // ---------------------------------------------------------------------

  lemma ConsumerAtGrown(c: Consumer, log: seq<Event>, more: seq<Event>, position: nat, h: History, state: State,
                        settled: bool)
    requires LogOfPositions(log + more) && ConsumerAt(c, log, position, h, state, settled)
    ensures ConsumerAt(c, log + more, position, h, state, settled)
  {
    hide IsImported;
    InStepGrown(c, log, more, position, state);
    PartsOfPositions(log, more);
  }

  lemma InStepGrown(c: Consumer, log: seq<Event>, more: seq<Event>, position: nat, state: State)
    requires LogOfPositions(log + more) && position <= MaxPosition(log)
    ensures Upto(log + more, position) == Upto(log, position)
    ensures InStep(c, log, position, state) ==> InStep(c, log + more, position, state)
  {
    var i := Upto(log, position);
    UptoGrown(log, more, position);
    FoldToGrown(c, log, more, i);
    if i < |log| {
      FoldToGrown(c, log, more, i + 1);
    }
  }

  lemma DeliveredAtGrown(c: Consumer, log: seq<Event>, more: seq<Event>, position: nat, h: History, state: State,
                         settled: bool, at: nat)
    requires LogOfPositions(log + more) && position <= MaxPosition(log)
    requires DeliveredAt(c, log, position, h, state, settled, at)
    ensures DeliveredAt(c, log + more, position, h, state, settled, at)
  {
    InStepGrown(c, log, more, position, state);
    FoldToGrown(c, log, more, Upto(log, position) + 1);
  }

  lemma ConsumerAtReset(c: Consumer, log: seq<Event>, state: State, settled: bool)
    requires LogOfPositions(log) && (c.commits ==> c.ownsPosition)
    ensures state == c.empty ==> InStep(c, log, 0, state)
    ensures !settled || state == c.empty ==> ConsumerAt(c, log, 0, History(0, []), state, settled)
  {
    hide IsImported;
    UptoUnique(log, 0, 0);
  }

  lemma HeardMore(c: Consumer, log: seq<Event>, h: History, nth: nat)
    requires RightlyHeard(c, log, h.heard) && Stutters(h)
    requires 0 < nth <= |log| && (nth == h.Last() || nth == h.Last() + 1)
    ensures var h' := h.(heard := h.heard + [Heard(nth, HowDelivered(c, log[nth - 1]))]);
            RightlyHeard(c, log, h'.heard) && Stutters(h') && h'.Last() == nth
  {
    hide IsImported;
  }

  lemma MaxIsLast(log: seq<Event>, i: nat)
    requires Increasing(log) && i < |log|
    ensures log[i].position <= MaxPosition(log)
  {
    assert i < |log| - 1 ==> log[i].position < log[|log| - 1].position;
  }

  /** A commit moves the state and the position together. */
  lemma ConsumerAtCommitted(c: Consumer, log: seq<Event>, position: nat, h: History, state: State, settled: bool)
    requires LogOfPositions(log) && c.commits && ConsumerAt(c, log, position, h, state, settled)
    requires Upto(log, position) < |log| && c.Commit(state, log[Upto(log, position)]).Some?
    ensures var i := Upto(log, position);
            ConsumerAt(c, log, log[i].position, h.(heard := h.heard + [Heard(i + 1, Committed)]),
                       c.Commit(state, log[i]).value, settled)
  {
    hide IsImported, Stutters, RightlyHeard, Increasing;
    var i := Upto(log, position);
    UptoOf(log, i);
    MaxIsLast(log, i);
    HeardMore(c, log, h, i + 1);
  }

  /** The next event, delivered from either state a consumer may be in, ends one event further. */
  lemma DeliverAdvances(c: Consumer, log: seq<Event>, i: nat, state: State)
    requires i < |log| && !c.commits && Idempotent(c)
    requires FoldTo(c, log, i) == Some(state) || FoldTo(c, log, i + 1) == Some(state)
    ensures Deliver(c, state, log[i]) == FoldTo(c, log, i + 1)
  {
    hide IsImported;
    if FoldTo(c, log, i) != Some(state) {
      var before := FoldTo(c, log, i).value;
      assert Deliver(c, before, log[i]) == Some(state);
      assert c.Apply(c.Apply(before, log[i]), log[i]) == c.Apply(before, log[i]);
      assert c.FoldOnly(c.FoldOnly(before, log[i]), log[i]) == c.FoldOnly(before, log[i]);
    }
  }

  /** An Apply, whether or not it landed or returned, leaves the position where it was. */
  lemma ConsumerAtApplied(c: Consumer, log: seq<Event>, position: nat, h: History, state: State, settled: bool,
                          landed: bool)
    requires LogOfPositions(log) && !c.commits && ConsumerAt(c, log, position, h, state, settled)
    requires Upto(log, position) < |log|
    ensures var i := Upto(log, position);
            var h' := h.(heard := h.heard + [Heard(i + 1, HowDelivered(c, log[i]))]);
            var state' := if landed then Act(c, state, log[i]) else state;
            && ConsumerAt(c, log, position, h', state', settled)
            && (landed ==> DeliveredAt(c, log, position, h', state', settled, log[i].position))
  {
    hide IsImported, Stutters, RightlyHeard, Increasing;
    var i := Upto(log, position);
    HeardMore(c, log, h, i + 1);
    if settled && Idempotent(c) {
      DeliverAdvances(c, log, i, state);
    }
  }

  /** Saving the position of a delivery that is in the state catches the checkpoint up with it. */
  lemma ConsumerAtSaved(c: Consumer, log: seq<Event>, position: nat, h: History, state: State, settled: bool, at: nat)
    requires LogOfPositions(log) && ConsumerAt(c, log, position, h, state, settled)
    requires DeliveredAt(c, log, position, h, state, settled, at)
    ensures ConsumerAt(c, log, at, h, state, settled)
  {
    hide IsImported;
    var i := Upto(log, position);
    UptoOf(log, i);
    MaxIsLast(log, i);
  }

  // ---------------------------------------------------------------------
  // Steps
  // ---------------------------------------------------------------------

  lemma SavedPosition(cat: Catalog, s: Sys, name: string, position: nat, other: string)
    requires name in cat && cat[name].name == name && other in cat && cat[other].name == other
    ensures PositionOf(SavePosition(s, cat[name], position), cat[other]) == if other == name then position
            else PositionOf(s, cat[other])
  {
  }

  /** What a step leaves alone, seen from one consumer. */
  predicate SameFor(cat: Catalog, s: Sys, s': Sys, name: string)
    requires name in cat
  {
    && s'.log == s.log && Live(cat, s', name) && Live(cat, s, name)
    && s'.states[name] == s.states[name] && s'.heard[name] == s.heard[name]
    && PositionOf(s', cat[name]) == PositionOf(s, cat[name])
    && (Settled(cat, s', name) ==> Settled(cat, s, name))
  }

  lemma SameForKeeps(cat: Catalog, s: Sys, s': Sys, name: string)
    requires name in cat && SameFor(cat, s, s', name) && ConsumerOk(cat, s, name)
    ensures ConsumerOk(cat, s', name)
  {
  }

  predicate AboutAnother(s: Sys, step: Step, other: string) {
    match step
    case Append(_) => false
    case Request(_) => true
    case Drop(name) => name != other
    case Wipe(name, _) => name != other
    case CommitNext(name, _) => name != other
    case ApplyNext(name, _, _) => name != other
    case SaveReset(_, _) => s.doing == Nothing || s.doing.name != other
    case TakeOff(_) => s.doing == Nothing || s.doing.name != other
    case SaveNext(_, _) => s.doing == Nothing || s.doing.name != other
    case Crash => true
  }

  lemma MovesLeaveOthers(s: Sys, c: Consumer, i: nat, state: State, other: Consumer)
    requires c.name in s.heard && i < |s.log| && other.name != c.name && other.name in s.states && other.name in s.heard
    ensures forall s' :: s' == CommitTo(s, c, i, state) || s' == ApplyTo(s, c, i, state) ==>
              && s'.log == s.log && s'.requests == s.requests && s'.doing == s.doing
              && other.name in s'.states && s'.states[other.name] == s.states[other.name]
              && other.name in s'.heard && s'.heard[other.name] == s.heard[other.name]
              && PositionOf(s', other) == PositionOf(s, other)
  {
  }

  lemma CommitLeavesOthers(cat: Catalog, s: Sys, name: string, ok: bool, other: string)
    requires Enabled(cat, s, CommitNext(name, ok)) && name != other
    requires other in cat && Live(cat, s, other)
    ensures SameFor(cat, s, After(cat, s, CommitNext(name, ok)), other)
  {
    hide IsImported, LogOfPositions, Act, HowDelivered, Upto, CommitTo, PositionOf;
    var i := NextIndex(cat, s, name);
    var r := cat[name].Commit(s.states[name], s.log[i]);
    if ok && r.Some? {
      MovesLeaveOthers(s, cat[name], i, r.value, cat[other]);
    }
  }

  lemma ApplyLeavesOthers(cat: Catalog, s: Sys, name: string, ok: bool, landed: bool, other: string)
    requires Enabled(cat, s, ApplyNext(name, ok, landed)) && name != other
    requires other in cat && Live(cat, s, other)
    ensures SameFor(cat, s, After(cat, s, ApplyNext(name, ok, landed)), other)
  {
    hide IsImported, LogOfPositions, Act, HowDelivered, Upto, ApplyTo;
    var i := NextIndex(cat, s, name);
    var state := if landed then Act(cat[name], s.states[name], s.log[i]) else s.states[name];
    MovesLeaveOthers(s, cat[name], i, state, cat[other]);
  }

  lemma SaveLeavesOthers(cat: Catalog, s: Sys, step: Step, other: string)
    requires Enabled(cat, s, step) && (step.SaveReset? || step.SaveNext?) && s.doing.name != other
    requires other in cat && Live(cat, s, other)
    ensures SameFor(cat, s, After(cat, s, step), other)
  {
    hide LogOfPositions, Act, Upto, CommitTo, ApplyTo;
    SavedPosition(cat, s, s.doing.name, 0, other);
    if step.SaveNext? {
      SavedPosition(cat, s, s.doing.name, s.doing.position, other);
    }
  }

  /** A step about one consumer is invisible to every other: its state, history and position stay. */
  lemma OthersUntouched(cat: Catalog, s: Sys, step: Step, other: string)
    requires Enabled(cat, s, step) && AboutAnother(s, step, other)
    requires other in cat && Live(cat, s, other)
    ensures SameFor(cat, s, After(cat, s, step), other)
  {
    hide LogOfPositions, Act, Upto, CommitTo, ApplyTo, SavePosition;
    match step
    case CommitNext(name, ok) => CommitLeavesOthers(cat, s, name, ok, other);
    case ApplyNext(name, ok, landed) => ApplyLeavesOthers(cat, s, name, ok, landed, other);
    case SaveReset(_, _) => SaveLeavesOthers(cat, s, step, other);
    case SaveNext(_, _) => SaveLeavesOthers(cat, s, step, other);
    case _ =>
  }

  lemma AppendKeepsInv(cat: Catalog, s: Sys, rows: seq<Event>)
    requires Inv(cat, s) && Enabled(cat, s, Append(rows))
    ensures Inv(cat, After(cat, s, Append(rows)))
  {
    hide IsImported;
    var s' := After(cat, s, Append(rows));
    hide ConsumerAt, DeliveredAt, InStep, LogOfPositions;
    forall name | name in cat
      ensures Live(cat, s', name) && ConsumerOk(cat, s', name)
    {
      assert PositionOf(s', cat[name]) == PositionOf(s, cat[name]);
      ConsumerAtGrown(cat[name], s.log, rows, PositionOf(s, cat[name]), s.heard[name], s.states[name],
                      Settled(cat, s, name));
    }
    AppendKeepsDoing(cat, s, rows);
  }

  lemma PositionKnown(cat: Catalog, s: Sys, name: string)
    requires Inv(cat, s) && name in cat
    ensures Live(cat, s, name) && PositionOf(s, cat[name]) <= MaxPosition(s.log)
  {
  }

  lemma AppendKeepsDoing(cat: Catalog, s: Sys, rows: seq<Event>)
    requires Inv(cat, s) && Enabled(cat, s, Append(rows))
    ensures DoingOk(cat, After(cat, s, Append(rows)))
  {
    hide IsImported;
    var s' := After(cat, s, Append(rows));
    if s.doing.Reset? || s.doing.Delivered? {
      var name := s.doing.name;
      PositionKnown(cat, s, name);
      assert PositionOf(s', cat[name]) == PositionOf(s, cat[name]);
      hide ConsumerOk, InStep, DeliveredAt, LogOfPositions;
      if s.doing.Reset? {
        InStepGrown(cat[name], s.log, rows, PositionOf(s, cat[name]), s.states[name]);
      } else {
        DeliveredAtGrown(cat[name], s.log, rows, PositionOf(s, cat[name]), s.heard[name], s.states[name],
                         Settled(cat, s, name), s.doing.position);
      }
    }
  }

  /** A step that leaves every consumer but one alone keeps the invariant when it does so for that one. */
  lemma OneConsumerStep(cat: Catalog, s: Sys, step: Step, name: string)
    requires Inv(cat, s) && Enabled(cat, s, step)
    requires forall other :: other in cat && other != name ==> AboutAnother(s, step, other)
    requires name in cat ==> Live(cat, After(cat, s, step), name) && ConsumerOk(cat, After(cat, s, step), name)
    requires DoingOk(cat, After(cat, s, step)) && After(cat, s, step).log == s.log
    ensures Inv(cat, After(cat, s, step))
  {
    var s' := After(cat, s, step);
    forall other | other in cat
      ensures Live(cat, s', other) && ConsumerOk(cat, s', other)
    {
      if other != name {
        OthersUntouched(cat, s, step, other);
        SameForKeeps(cat, s, s', other);
      }
    }
  }

  lemma RequestKeepsInv(cat: Catalog, s: Sys, name: string)
    requires Inv(cat, s)
    ensures Inv(cat, After(cat, s, Request(name)))
  {
    hide IsImported, ConsumerAt, LogOfPositions, InStep, HeardOk, Upto;
    if name in cat {
      SameForKeeps(cat, s, After(cat, s, Request(name)), name);
    }
    assert DoingOk(cat, After(cat, s, Request(name))) by {
      hide ConsumerOk, HeardOk, InStep, LogOfPositions;
    }
    hide ConsumerOk, DoingOk;
    OneConsumerStep(cat, s, Request(name), name);
  }

  lemma DropKeepsInv(cat: Catalog, s: Sys, name: string)
    requires Inv(cat, s) && Enabled(cat, s, Drop(name))
    ensures Inv(cat, After(cat, s, Drop(name)))
  {
    hide IsImported;
    SameForKeeps(cat, s, After(cat, s, Drop(name)), name);
    OneConsumerStep(cat, s, Drop(name), name);
  }

  lemma WipeKeepsInv(cat: Catalog, s: Sys, name: string, partial: Option<State>)
    requires Inv(cat, s) && Enabled(cat, s, Wipe(name, partial))
    ensures Inv(cat, After(cat, s, Wipe(name, partial)))
  {
    hide IsImported;
    OneConsumerStep(cat, s, Wipe(name, partial), name);
  }

  lemma ResetKeepsInv(cat: Catalog, s: Sys, ok: bool, landed: bool)
    requires Inv(cat, s) && Enabled(cat, s, SaveReset(ok, landed))
    ensures Inv(cat, After(cat, s, SaveReset(ok, landed)))
  {
    hide IsImported, HeardOk, InStep, FoldTo, Deliver, LogOfPositions, Upto;
    var name := s.doing.name;
    SavedPosition(cat, s, name, 0, name);
    ConsumerAtReset(cat[name], s.log, s.states[name], Settled(cat, s, name));
    hide HeardOk, InStep, FoldTo, Deliver, LogOfPositions;
    OneConsumerStep(cat, s, SaveReset(ok, landed), name);
  }

  lemma InStepSettles(c: Consumer, log: seq<Event>, position: nat, h: History, state: State, settled: bool)
    requires ConsumerAt(c, log, position, h, state, settled) && InStep(c, log, position, state)
    ensures ConsumerAt(c, log, position, h, state, true) && ConsumerAt(c, log, position, h, state, false)
  {
  }

  lemma TakeOffKeepsInv(cat: Catalog, s: Sys, ok: bool)
    requires Inv(cat, s) && Enabled(cat, s, TakeOff(ok))
    ensures Inv(cat, After(cat, s, TakeOff(ok)))
  {
    hide IsImported, LogOfPositions, InStep, ConsumerAt;
    var name := s.doing.name;
    InStepSettles(cat[name], s.log, PositionOf(s, cat[name]), s.heard[name], s.states[name], Settled(cat, s, name));
    assert PositionOf(After(cat, s, TakeOff(ok)), cat[name]) == PositionOf(s, cat[name]);
    hide ConsumerAt, InStep, LogOfPositions, PositionOf;
    OneConsumerStep(cat, s, TakeOff(ok), name);
  }

  lemma CommitToFacts(s: Sys, c: Consumer, i: nat, state: State)
    requires c.name in s.heard && i < |s.log|
    ensures var s', h := CommitTo(s, c, i, state), s.heard[c.name];
            && s'.log == s.log && s'.requests == s.requests
            && c.name in s'.states && s'.states[c.name] == state
            && c.name in s'.heard
               && s'.heard[c.name] == h.(heard := h.heard + [Heard(i + 1, HowDelivered(c, s.log[i]))])
            && s'.doing == s.doing && PositionOf(s', c) == s.log[i].position
  {
  }

  lemma CommitMoves(cat: Catalog, s: Sys, name: string, i: nat, state: State)
    requires LogOfPositions(s.log) && HasNext(cat, s, name) && ConsumerOk(cat, s, name)
    requires i == NextIndex(cat, s, name) && cat[name].commits
             && cat[name].Commit(s.states[name], s.log[i]) == Some(state)
    ensures ConsumerOk(cat, CommitTo(s, cat[name], i, state), name)
  {
    hide ConsumerAt, LogOfPositions, CommitTo, PositionOf, Upto, Increasing, IsImported;
    var c := cat[name];
    CommitToFacts(s, c, i, state);
    ConsumerAtCommitted(c, s.log, PositionOf(s, c), s.heard[name], s.states[name], Settled(cat, s, name));
  }

  lemma CommitMovesBoth(cat: Catalog, s: Sys, name: string, ok: bool)
    requires LogOfPositions(s.log) && Enabled(cat, s, CommitNext(name, ok)) && ConsumerOk(cat, s, name)
    ensures var s' := After(cat, s, CommitNext(name, ok));
            s'.log == s.log && s'.doing == s.doing && Live(cat, s', name) && ConsumerOk(cat, s', name)
  {
    hide ConsumerOk, LogOfPositions, CommitTo, PositionOf, Upto;
    var i := NextIndex(cat, s, name);
    var r := cat[name].Commit(s.states[name], s.log[i]);
    if ok && r.Some? {
      CommitMoves(cat, s, name, i, r.value);
      CommitToFacts(s, cat[name], i, r.value);
    }
  }

  lemma CommitKeepsInv(cat: Catalog, s: Sys, name: string, ok: bool)
    requires Inv(cat, s) && Enabled(cat, s, CommitNext(name, ok))
    ensures Inv(cat, After(cat, s, CommitNext(name, ok)))
  {
    hide ConsumerOk, LogOfPositions, After;
    CommitMovesBoth(cat, s, name, ok);
    OneConsumerStep(cat, s, CommitNext(name, ok), name);
  }

  lemma ApplyToFacts(s: Sys, c: Consumer, i: nat, state: State)
    requires c.name in s.heard && i < |s.log|
    ensures var s', h := ApplyTo(s, c, i, state), s.heard[c.name];
            && s'.log == s.log && s'.requests == s.requests
            && c.name in s'.states && s'.states[c.name] == state
            && c.name in s'.heard
               && s'.heard[c.name] == h.(heard := h.heard + [Heard(i + 1, HowDelivered(c, s.log[i]))])
            && s'.own == s.own && s'.checkpoints == s.checkpoints
  {
  }

  lemma ApplyMoves(cat: Catalog, s: Sys, name: string, i: nat, landed: bool)
    requires LogOfPositions(s.log) && HasNext(cat, s, name) && ConsumerOk(cat, s, name)
    requires i == NextIndex(cat, s, name) && !cat[name].commits
    ensures var state := if landed then Act(cat[name], s.states[name], s.log[i]) else s.states[name];
            var s' := ApplyTo(s, cat[name], i, state);
            && ConsumerOk(cat, s', name)
            && (landed ==> DeliveredAt(cat[name], s.log, PositionOf(s, cat[name]), s'.heard[name], state,
                                       Settled(cat, s, name), s.log[i].position))
  {
    hide IsImported, Upto, ConsumerAt, DeliveredAt, LogOfPositions, HowDelivered;
    var c := cat[name];
    var state := if landed then Act(c, s.states[name], s.log[i]) else s.states[name];
    var s' := ApplyTo(s, c, i, state);
    ApplyToFacts(s, c, i, state);
    assert PositionOf(s', c) == PositionOf(s, c);
    hide ConsumerAt, DeliveredAt, LogOfPositions, Act, HowDelivered, ApplyTo, PositionOf;
    ConsumerAtApplied(c, s.log, PositionOf(s, c), s.heard[name], s.states[name], Settled(cat, s, name), landed);
  }

  lemma ApplyMovesBoth(cat: Catalog, s: Sys, name: string, ok: bool, landed: bool)
    requires LogOfPositions(s.log) && Enabled(cat, s, ApplyNext(name, ok, landed)) && ConsumerOk(cat, s, name)
    ensures var s' := After(cat, s, ApplyNext(name, ok, landed));
            s'.log == s.log && Live(cat, s', name) && ConsumerOk(cat, s', name) && DoingOk(cat, s')
  {
    hide IsImported;
    var i, c := NextIndex(cat, s, name), cat[name];
    var state := if landed then Act(c, s.states[name], s.log[i]) else s.states[name];
    var s1, s' := ApplyTo(s, c, i, state), After(cat, s, ApplyNext(name, ok, landed));
    ApplyMoves(cat, s, name, i, landed);
    ApplyToFacts(s, c, i, state);
    assert s' == s1.(doing := if ok then Delivered(name, s.log[i].position) else Nothing);
    assert PositionOf(s', c) == PositionOf(s, c) == PositionOf(s1, c);
    hide ConsumerAt, DeliveredAt, LogOfPositions, ApplyTo, PositionOf, Act, After, Enabled, HasNext;
  }

  lemma ApplyKeepsInv(cat: Catalog, s: Sys, name: string, ok: bool, landed: bool)
    requires Inv(cat, s) && Enabled(cat, s, ApplyNext(name, ok, landed))
    ensures Inv(cat, After(cat, s, ApplyNext(name, ok, landed)))
  {
    ApplyMovesBoth(cat, s, name, ok, landed);
    hide ConsumerOk, DoingOk, After, LogOfPositions;
    OneConsumerStep(cat, s, ApplyNext(name, ok, landed), name);
  }

  lemma SaveMoves(cat: Catalog, s: Sys, ok: bool, landed: bool)
    requires Enabled(cat, s, SaveNext(ok, landed)) && LogOfPositions(s.log)
    requires ConsumerOk(cat, s, s.doing.name) && DoingOk(cat, s)
    ensures ConsumerOk(cat, After(cat, s, SaveNext(ok, landed)), s.doing.name)
  {
    hide IsImported;
    var name := s.doing.name;
    SavedPosition(cat, s, name, s.doing.position, name);
    ConsumerAtSaved(cat[name], s.log, PositionOf(s, cat[name]), s.heard[name], s.states[name], Settled(cat, s, name),
                    s.doing.position);
    hide ConsumerAt, DeliveredAt, LogOfPositions;
  }

  lemma SaveKeepsInv(cat: Catalog, s: Sys, ok: bool, landed: bool)
    requires Inv(cat, s) && Enabled(cat, s, SaveNext(ok, landed))
    ensures Inv(cat, After(cat, s, SaveNext(ok, landed)))
  {
    hide IsImported;
    SaveMoves(cat, s, ok, landed);
    assert After(cat, s, SaveNext(ok, landed)).doing == Nothing;
    hide ConsumerOk, LogOfPositions;
    OneConsumerStep(cat, s, SaveNext(ok, landed), s.doing.name);
  }

  lemma CrashKeepsInv(cat: Catalog, s: Sys)
    requires Inv(cat, s)
    ensures Inv(cat, After(cat, s, Crash))
  {
    hide HeardOk, InStep, Upto, LogOfPositions, ConsumerAt;
    OneConsumerStep(cat, s, Crash, "");
  }

  lemma StepKeepsInv(cat: Catalog, s: Sys, step: Step)
    requires Inv(cat, s) && Enabled(cat, s, step)
    ensures Inv(cat, After(cat, s, step))
  {
    hide *;
    match step
    case Append(rows) => AppendKeepsInv(cat, s, rows);
    case Request(name) => RequestKeepsInv(cat, s, name);
    case Drop(name) => DropKeepsInv(cat, s, name);
    case Wipe(name, partial) => WipeKeepsInv(cat, s, name, partial);
    case SaveReset(ok, landed) => ResetKeepsInv(cat, s, ok, landed);
    case TakeOff(ok) => TakeOffKeepsInv(cat, s, ok);
    case CommitNext(name, ok) => CommitKeepsInv(cat, s, name, ok);
    case ApplyNext(name, ok, landed) => ApplyKeepsInv(cat, s, name, ok, landed);
    case SaveNext(ok, landed) => SaveKeepsInv(cat, s, ok, landed);
    case Crash => CrashKeepsInv(cat, s);
  }

  lemma {:induction false} RunKeepsInv(cat: Catalog, s: Sys, steps: seq<Step>)
    requires Inv(cat, s) && AfterAll(cat, s, steps).Some?
    ensures Inv(cat, AfterAll(cat, s, steps).value)
  {
    if |steps| > 0 {
      RunKeepsInv(cat, s, steps[..|steps| - 1]);
      StepKeepsInv(cat, AfterAll(cat, s, steps[..|steps| - 1]).value, steps[|steps| - 1]);
    }
  }

  // ---------------------------------------------------------------------
  // What every run promises
  // ---------------------------------------------------------------------

  /**
   Rebuild safety. After any run, with wipes that failed or stopped half-way, resets and
   take-offs that failed, and crashes anywhere: a committing projection either still has
   its rebuild requested, or holds exactly the fold of all events up to its position.
   */
  lemma RebuildSafety(cat: Catalog, s: Sys, steps: seq<Step>, name: string)
    requires Inv(cat, s) && AfterAll(cat, s, steps).Some? && name in cat && cat[name].commits
    ensures var t := AfterAll(cat, s, steps).value;
            && name in t.states
            && (name in t.requests
                || FoldTo(cat[name], t.log, Upto(t.log, PositionOf(t, cat[name]))) == Some(t.states[name]))
  {
    RunKeepsInv(cat, s, steps);
    var t := AfterAll(cat, s, steps).value;
    assert Live(cat, t, name) && ConsumerOk(cat, t, name);
  }

  /**
   A reset restarts a wiped projection from nothing, whatever older position the engine's
   own store holds: the 0 it stores wins. Erasing the stored position instead would bring
   the older one back.
   */
  lemma StoredZeroWins(cat: Catalog, s: Sys, older: nat)
    requires Inv(cat, s) && s.doing.Wiped? && cat[s.doing.name].ownsPosition
    ensures var name := s.doing.name;
            var t := After(cat, s.(checkpoints := s.checkpoints[name := older]), SaveReset(true, true));
            && PositionOf(t, cat[name]) == 0 && name in t.states && t.states[name] == cat[name].empty
            && PositionOf(t.(own := t.own - {name}), cat[name]) == older
  {
  }

  predicate Reached(h: History, n: nat) {
    exists k :: 0 <= k < |h.heard| && h.heard[k].nth == n
  }

  /** A history that only stutters reaches every event on its way. */
  lemma {:induction false} NoneSkipped(h: History, n: nat)
    requires Stutters(h) && h.from < n <= h.Last()
    ensures Reached(h, n)
    decreases |h.heard|
  {
    var m := |h.heard| - 1;
    if h.heard[m].nth != n {
      var front := h.(heard := h.heard[..m]);
      NoneSkipped(front, n);
      var k :| 0 <= k < |front.heard| && front.heard[k].nth == n;
      assert h.heard[k].nth == n;
    }
  }

  /**
   Delivery only stutters. After any run, a consumer has been handed every event from its
   first to its checkpoint, in order; the only event it may have been handed beyond that,
   and the only one that can come again, is the one just past the checkpoint.
   */
  lemma DeliveryOnlyStutters(cat: Catalog, s: Sys, steps: seq<Step>, name: string)
    requires Inv(cat, s) && AfterAll(cat, s, steps).Some? && name in cat
    ensures var t := AfterAll(cat, s, steps).value;
            && name in t.heard
            && var i, h := Upto(t.log, PositionOf(t, cat[name])), t.heard[name];
            && Stutters(h) && (h.Last() == i || (!cat[name].commits && h.Last() == i + 1))
            && (forall n :: h.from < n <= i ==> Reached(h, n))
  {
    RunKeepsInv(cat, s, steps);
    var t := AfterAll(cat, s, steps).value;
    assert Live(cat, t, name) && ConsumerOk(cat, t, name);
    var i, h := Upto(t.log, PositionOf(t, cat[name])), t.heard[name];
    hide Inv, InStep, RightlyHeard, AfterAll, Reached;
    forall n | h.from < n <= i
      ensures Reached(h, n)
    {
      NoneSkipped(h, n);
    }
  }

  /** An effect consumer is never handed an imported event to act on, though its history passes it. */
  lemma ImportedNeverActedOn(cat: Catalog, s: Sys, steps: seq<Step>, name: string, k: nat)
    requires Inv(cat, s) && AfterAll(cat, s, steps).Some? && name in cat && cat[name].effect && !cat[name].commits
    ensures var t := AfterAll(cat, s, steps).value;
            && name in t.heard
            && (k < |t.heard[name].heard| ==>
                  var d := t.heard[name].heard[k];
                  0 < d.nth <= |t.log| && (IsImported(t.log[d.nth - 1]) <==> d.how != Applied))
  {
    RunKeepsInv(cat, s, steps);
    var t := AfterAll(cat, s, steps).value;
    assert Live(cat, t, name) && ConsumerOk(cat, t, name);
  }

  /**
   With an idempotent Apply, a consumer whose checkpoint has reached the head holds the
   single-pass fold of the whole log, whatever failed and crashed on the way and whatever
   the other consumers did.
   */
  lemma CaughtUpIsTheSinglePass(cat: Catalog, s: Sys, steps: seq<Step>, name: string)
    requires Inv(cat, s) && AfterAll(cat, s, steps).Some? && name in cat
    requires cat[name].commits || Idempotent(cat[name])
    requires var t := AfterAll(cat, s, steps).value;
             Settled(cat, t, name) && Upto(t.log, PositionOf(t, cat[name])) == |t.log|
    ensures var t := AfterAll(cat, s, steps).value;
            name in t.states && FoldTo(cat[name], t.log, |t.log|) == Some(t.states[name])
  {
    RunKeepsInv(cat, s, steps);
    var t := AfterAll(cat, s, steps).value;
    assert Live(cat, t, name) && ConsumerOk(cat, t, name);
  }
}
