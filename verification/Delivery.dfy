/**
 Checkpointed delivery as a machine: the log, the engine's checkpoint store, positions
 consumers keep beside their own state, rebuild requests, and the one engine that works
 through them. Every durable write is a step that may fail (and, where its outcome is
 unknown to the caller, may have landed all the same); a crash may fall between any two.
 */
module Delivery {
  import opened Wrappers
  import opened EventLog
  import opened LogInvariant

  type State = string

  /**
   A consumer. A committing one (Commit) writes its effects and its own position in one
   transaction; any other applies an event and has its checkpoint saved after it.
   */
  datatype Consumer = Consumer(
    name: string,
    commits: bool,
    ownsPosition: bool,
    collections: bool,
    effect: bool,
    folder: bool,
    empty: State,
    commit: (State, Event) -> Option<State>,
    apply: (State, Event) -> State,
    fold: (State, Event) -> State
  ) {
    function Apply(s: State, e: Event): State {
      apply(s, e)
    }

    function FoldOnly(s: State, e: Event): State {
      fold(s, e)
    }

    function Commit(s: State, e: Event): Option<State> {
      commit(s, e)
    }
  }

  datatype How = Committed | Applied | Folded | Skipped

  /** What the engine hands a consumer: an effect consumer never gets to act on an imported event. */
  function HowDelivered(c: Consumer, e: Event): How {
    if c.commits then Committed
    else if c.effect && IsImported(e) then (if c.folder then Folded else Skipped)
    else Applied
  }

  /** A consumer's state after an Apply, a Fold, or an event passed over. */
  function Act(c: Consumer, s: State, e: Event): State {
    if c.effect && IsImported(e) then (if c.folder then c.FoldOnly(s, e) else s) else c.Apply(s, e)
  }

  /** A consumer's state after one event; None when a projection throws on it. */
  function Deliver(c: Consumer, s: State, e: Event): Option<State> {
    if c.commits then c.Commit(s, e) else Some(Act(c, s, e))
  }

  /** The single pass: the first n events of the log, each delivered once. */
  function FoldTo(c: Consumer, log: seq<Event>, n: nat): Option<State>
    requires n <= |log|
  {
    if n == 0 then Some(c.empty)
    else
      var before := FoldTo(c, log, n - 1);
      if before.None? then None else Deliver(c, before.value, log[n - 1])
  }

  /** How many events lie at or below a position. */
  function Upto(log: seq<Event>, position: nat): (n: nat)
    ensures n <= |log|
  {
    if |log| == 0 then 0
    else if log[|log| - 1].position <= position then |log|
    else Upto(log[..|log| - 1], position)
  }

  lemma {:induction false} UptoSplits(log: seq<Event>, position: nat)
    requires Increasing(log)
    ensures forall k :: 0 <= k < |log| ==> (log[k].position <= position <==> k < Upto(log, position))
  {
    if |log| > 0 && log[|log| - 1].position > position {
      UptoSplits(log[..|log| - 1], position);
    }
  }

  lemma UptoOf(log: seq<Event>, i: nat)
    requires Increasing(log) && i < |log|
    ensures Upto(log, log[i].position) == i + 1
  {
    UptoSplits(log, log[i].position);
    if i + 1 < |log| {
      assert log[i].position < log[i + 1].position;
    }
  }

  lemma {:induction false} UptoUnique(log: seq<Event>, position: nat, n: nat)
    requires n <= |log| && forall k :: 0 <= k < |log| ==> (log[k].position <= position <==> k < n)
    ensures Upto(log, position) == n
  {
    if n < |log| {
      UptoUnique(log[..|log| - 1], position, n);
    }
  }

  predicate LogOfPositions(log: seq<Event>) {
    Increasing(log) && forall k :: 0 <= k < |log| ==> log[k].position > 0
  }

  lemma PartsOfPositions(log: seq<Event>, more: seq<Event>)
    requires LogOfPositions(log + more)
    ensures LogOfPositions(log) && MaxPosition(log) <= MaxPosition(log + more)
    ensures forall k :: 0 <= k < |more| ==> more[k].position > MaxPosition(log)
  {
    var all := log + more;
    assert forall i :: 0 <= i < |log| ==> all[i] == log[i];
    assert forall k :: 0 <= k < |more| ==> all[|log| + k] == more[k];
  }

  lemma UptoGrown(log: seq<Event>, more: seq<Event>, position: nat)
    requires LogOfPositions(log + more) && position <= MaxPosition(log)
    ensures Upto(log + more, position) == Upto(log, position)
  {
    PartsOfPositions(log, more);
    UptoSplits(log, position);
    UptoUnique(log + more, position, Upto(log, position));
  }

  lemma {:induction false} FoldToGrown(c: Consumer, log: seq<Event>, more: seq<Event>, n: nat)
    requires n <= |log|
    ensures FoldTo(c, log + more, n) == FoldTo(c, log, n)
  {
    if n > 0 {
      FoldToGrown(c, log, more, n - 1);
    }
  }

  // ---------------------------------------------------------------------
  // The machine
  // ---------------------------------------------------------------------

  type Catalog = map<string, Consumer>

  /** One delivery in a consumer's history: which event (counted from 1), and how. */
  datatype Heard = Heard(nth: nat, how: How)

  /** Where the engine stands between two durable writes; lost in a crash. */
  datatype Doing = Nothing | Wiped(name: string) | Reset(name: string) | Delivered(name: string, position: nat)

  /**
   A consumer's deliveries since the machine first ran, or since its position was reset: from
   is the event before them.
   */
  datatype History = History(from: nat, heard: seq<Heard>) {
    function Last(): nat {
      if |heard| == 0 then from else heard[|heard| - 1].nth
    }
  }

  /** heard is history; doing is where the engine stands, lost in a crash. */
  datatype Sys = Sys(
    log: seq<Event>,
    checkpoints: map<string, nat>,
    own: map<string, nat>,
    requests: set<string>,
    states: map<string, State>,
    doing: Doing,
    heard: map<string, History>
  )

  /** The position a consumer is read from: its own store's, else the engine's (0 when never saved). */
  function PositionOf(s: Sys, c: Consumer): nat {
    if c.ownsPosition && c.name in s.own then s.own[c.name]
    else if c.name in s.checkpoints then s.checkpoints[c.name]
    else 0
  }

  function SavePosition(s: Sys, c: Consumer, position: nat): Sys {
    if c.ownsPosition then s.(own := s.own[c.name := position])
        else s.(checkpoints := s.checkpoints[c.name := position])
  }

  datatype Step =
    | Append(rows: seq<Event>)
    | Request(name: string)
    | Drop(name: string)
    | Wipe(name: string, partial: Option<State>)
    | SaveReset(ok: bool, landed: bool)
    | TakeOff(ok: bool)
    | CommitNext(name: string, ok: bool)
    | ApplyNext(name: string, ok: bool, landed: bool)
    | SaveNext(ok: bool, landed: bool)
    | Crash

  predicate Live(cat: Catalog, s: Sys, name: string) {
    name in cat && cat[name].name == name && name in s.states && name in s.heard
  }

  predicate HasNext(cat: Catalog, s: Sys, name: string) {
    Live(cat, s, name) && Upto(s.log, PositionOf(s, cat[name])) < |s.log|
  }

  function NextIndex(cat: Catalog, s: Sys, name: string): (i: nat)
    requires HasNext(cat, s, name)
    ensures i < |s.log|
  {
    Upto(s.log, PositionOf(s, cat[name]))
  }

  predicate Enabled(cat: Catalog, s: Sys, step: Step) {
    match step
    case Append(rows) => LogOfPositions(s.log + rows)
    case Request(_) => true
    case Drop(name) => s.doing == Nothing && Live(cat, s, name) && !cat[name].collections
    case Wipe(name, _) => s.doing == Nothing && Live(cat, s, name) && name in s.requests && cat[name].collections
    case SaveReset(ok, landed) => s.doing.Wiped? && Live(cat, s, s.doing.name) && (ok ==> landed)
    case TakeOff(_) => s.doing.Reset? && Live(cat, s, s.doing.name)
    case CommitNext(name, _) => s.doing == Nothing && HasNext(cat, s, name) && cat[name].commits
    case ApplyNext(name, ok, landed) => s.doing == Nothing && HasNext(cat, s, name) && !cat[name].commits
        && (ok ==> landed)
    case SaveNext(ok, landed) => s.doing.Delivered? && Live(cat, s, s.doing.name) && (ok ==> landed)
    case Crash => true
  }

  function Hear(s: Sys, name: string, nth: nat, how: How): Sys
    requires name in s.heard
  {
    var h := s.heard[name];
    s.(heard := s.heard[name := h.(heard := h.heard + [Heard(nth, how)])])
  }

  function CommitTo(s: Sys, c: Consumer, i: nat, state: State): Sys
    requires c.name in s.heard && i < |s.log|
  {
    SavePosition(ApplyTo(s, c, i, state), c, s.log[i].position)
  }

  function ApplyTo(s: Sys, c: Consumer, i: nat, state: State): Sys
    requires c.name in s.heard && i < |s.log|
  {
    Hear(s.(states := s.states[c.name := state]), c.name, i + 1, HowDelivered(c, s.log[i]))
  }

  function After(cat: Catalog, s: Sys, step: Step): Sys
    requires Enabled(cat, s, step)
  {
    match step
    case Append(rows) => s.(log := s.log + rows)
    case Request(name) => s.(requests := s.requests + {name})
    case Drop(name) => s.(requests := s.requests - {name})
    case Wipe(name, partial) =>
      if partial.None? then s.(states := s.states[name := cat[name].empty], doing := Wiped(name))
      else s.(states := s.states[name := partial.value])
    case SaveReset(ok, landed) =>
      var name := s.doing.name;
      var saved := if landed then SavePosition(s, cat[name], 0).(heard := s.heard[name := History(0, [])]) else s;
      saved.(doing := if ok then Reset(name) else Nothing)
    case TakeOff(ok) => s.(requests := if ok then s.requests - {s.doing.name} else s.requests, doing := Nothing)
    case CommitNext(name, ok) =>
      var i := NextIndex(cat, s, name);
      var r := cat[name].Commit(s.states[name], s.log[i]);
      if r.None? || !ok then s
      else CommitTo(s, cat[name], i, r.value)
    case ApplyNext(name, ok, landed) =>
      var i := NextIndex(cat, s, name);
      var r := Act(cat[name], s.states[name], s.log[i]);
      var applied := ApplyTo(s, cat[name], i, if landed then r else s.states[name]);
      applied.(doing := if ok then Delivered(name, s.log[i].position) else Nothing)
    case SaveNext(ok, landed) =>
      (if landed then SavePosition(s, cat[s.doing.name], s.doing.position) else s).(doing := Nothing)
    case Crash => s.(doing := Nothing)
  }

  function AfterAll(cat: Catalog, s: Sys, steps: seq<Step>): Option<Sys> {
    if |steps| == 0 then Some(s)
    else
      var before := AfterAll(cat, s, steps[..|steps| - 1]);
      if before.None? || !Enabled(cat, before.value, steps[|steps| - 1]) then None
      else Some(After(cat, before.value, steps[|steps| - 1]))
  }

  lemma OneStepMore(cat: Catalog, s: Sys, steps: seq<Step>, step: Step)
    requires AfterAll(cat, s, steps).Some? && Enabled(cat, AfterAll(cat, s, steps).value, step)
    ensures AfterAll(cat, s, steps + [step]) == Some(After(cat, AfterAll(cat, s, steps).value, step))
  {
    assert (steps + [step])[..|steps + [step]| - 1] == steps;
  }

  lemma {:induction false} RunsCompose(cat: Catalog, s: Sys, xs: seq<Step>, ys: seq<Step>)
    requires AfterAll(cat, s, xs).Some? && AfterAll(cat, AfterAll(cat, s, xs).value, ys).Some?
    ensures AfterAll(cat, s, xs + ys) == AfterAll(cat, AfterAll(cat, s, xs).value, ys)
  {
    if |ys| == 0 {
      assert xs + ys == xs;
    } else {
      assert (xs + ys)[..|xs + ys| - 1] == xs + ys[..|ys| - 1];
      RunsCompose(cat, s, xs, ys[..|ys| - 1]);
    }
  }

  // ---------------------------------------------------------------------
  // The invariant
  // ---------------------------------------------------------------------

  /** Applying an event a second time in a row changes nothing. */
  ghost predicate Idempotent(c: Consumer) {
    forall s: State, e: Event :: c.Apply(c.Apply(s, e), e) == c.Apply(s, e)
        && c.FoldOnly(c.FoldOnly(s, e), e) == c.FoldOnly(s, e)
  }

  /** The state is the fold up to the position, or (not committing) one event ahead of it. */
  ghost predicate InStep(c: Consumer, log: seq<Event>, position: nat, state: State) {
    var i := Upto(log, position);
    if c.commits then FoldTo(c, log, i) == Some(state)
    else Idempotent(c) ==> FoldTo(c, log, i) == Some(state) || (i < |log| && FoldTo(c, log, i + 1) == Some(state))
  }

  predicate RepeatOrNext(before: nat, after: nat) {
    after == before || after == before + 1
  }

  /** Each delivery repeats the one before it or is the next. */
  predicate Stutters(h: History) {
    && (|h.heard| > 0 ==> RepeatOrNext(h.from, h.heard[0].nth))
    && forall j, k :: 0 <= j < |h.heard| && 0 <= k < |h.heard| && k == j + 1 ==>
       RepeatOrNext(h.heard[j].nth, h.heard[k].nth)
  }

  /** Each delivery was made the way its event and its consumer call for. */
  predicate RightlyHeard(c: Consumer, log: seq<Event>, heard: seq<Heard>) {
    forall k :: 0 <= k < |heard| ==> 0 < heard[k].nth <= |log| && heard[k].how == HowDelivered(c, log[heard[k].nth - 1])
  }

  /** A consumer's history stands at its position, or one delivery past it. */
  predicate HeardOk(c: Consumer, log: seq<Event>, position: nat, h: History) {
    var i := Upto(log, position);
    && RightlyHeard(c, log, h.heard) && Stutters(h)
    && h.from <= i && (h.Last() == i || (!c.commits && |h.heard| > 0 && h.Last() == i + 1))
  }

  /** One consumer, wherever its position, history and state are kept. */
  ghost predicate ConsumerAt(c: Consumer, log: seq<Event>, position: nat, h: History, state: State, settled: bool) {
    && (c.commits ==> c.ownsPosition)
    && position <= MaxPosition(log)
    && HeardOk(c, log, position, h)
    && (settled ==> InStep(c, log, position, state))
  }

  /** A delivery the engine has not saved yet is of the next event, and is in the state. */
  ghost predicate DeliveredAt(c: Consumer, log: seq<Event>, position: nat, h: History, state: State, settled: bool,
                              at: nat)
  {
    var i := Upto(log, position);
    && i < |log| && !c.commits && at == log[i].position
    && |h.heard| > 0 && h.Last() == i + 1
    && (settled && Idempotent(c) ==> FoldTo(c, log, i + 1) == Some(state))
  }

  /** No rebuild of this consumer is outstanding. */
  predicate Settled(cat: Catalog, s: Sys, name: string)
    requires name in cat
  {
    !(name in s.requests && cat[name].collections)
  }

  ghost predicate ConsumerOk(cat: Catalog, s: Sys, name: string)
    requires Live(cat, s, name)
  {
    ConsumerAt(cat[name], s.log, PositionOf(s, cat[name]), s.heard[name], s.states[name], Settled(cat, s, name))
  }

  ghost predicate DoingOk(cat: Catalog, s: Sys) {
    match s.doing
    case Nothing => true
    case Wiped(name) =>
      name in s.requests && Live(cat, s, name) && cat[name].collections && s.states[name] == cat[name].empty
    case Reset(name) =>
      Live(cat, s, name) && cat[name].collections && InStep(cat[name], s.log, PositionOf(s, cat[name]), s.states[name])
    case Delivered(name, at) =>
      && Live(cat, s, name)
      && DeliveredAt(cat[name], s.log, PositionOf(s, cat[name]), s.heard[name], s.states[name],
                     Settled(cat, s, name), at)
  }

  ghost predicate Inv(cat: Catalog, s: Sys) {
    && LogOfPositions(s.log)
    && (forall name :: name in cat ==> Live(cat, s, name) && ConsumerOk(cat, s, name))
    && DoingOk(cat, s)
  }
}
