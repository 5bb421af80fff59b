/**
 The consumer engine as the object whose pass advances stored positions. A pass is proved
 to do exactly what its turns say under any schedule of failures, and to be a run of the
 delivery machine, so what every run promises holds of it.
 */
module DeliveryEngine {
  import opened Wrappers
  import opened EventLog
  import opened LogInvariant
  import opened Delivery
  import opened DeliverySafety

  /** How a write went: Fine, or reported failed, having landed or not. */
  datatype Fate = Fine | Failed(landed: bool)

  /** What goes wrong in one pass; unlisted is a list of rebuild requests that cannot be read. */
  datatype Io = Io(
    unlisted: bool,
    readable: string -> bool,
    polls: (string, nat) -> bool,
    delivers: (string, nat) -> Fate,
    saves: (string, nat) -> Fate,
    wipes: string -> Option<State>,
    resets: string -> Fate,
    takesOff: string -> bool
  ) {
    function Readable(name: string): bool { readable(name) }
    function Polls(name: string, position: nat): bool { polls(name, position) }
    function Delivers(name: string, position: nat): Fate { delivers(name, position) }
    function Saves(name: string, position: nat): Fate { saves(name, position) }
    function Wipes(name: string): Option<State> { wipes(name) }
    function Resets(name: string): Fate { resets(name) }
    function TakesOff(name: string): bool { takesOff(name) }
  }

  const BATCH: nat := 100

  datatype Turned = Turned(s: Sys, ok: bool)

  function Smaller(x: nat, y: nat): nat {
    if x <= y then x else y
  }

  /** One delivery, as the consumer sees it: whether it is touched, how it ends, and whether its position moved. */
  datatype Move = Move(touched: bool, state: State, saved: bool, ok: bool)

  /** A Commit moves state and position together; an Apply is followed by its checkpoint. */
  function MoveOf(c: Consumer, state: State, e: Event, io: Io): Move {
    var fate := io.Delivers(c.name, e.position);
    if c.commits then
      var r := c.Commit(state, e);
      if r.None? || fate == Failed(false) then Move(false, state, false, false)
          else Move(true, r.value, true, fate == Fine)
    else if fate != Fine then Move(true, if fate == Failed(true) then Act(c, state, e) else state, false, false)
    else
      var saved := io.Saves(c.name, e.position);
      Move(true, Act(c, state, e), saved != Failed(false), saved == Fine)
  }

  lemma SavedOnlyIfTouched(c: Consumer, state: State, e: Event, io: Io)
    ensures MoveOf(c, state, e, io).saved || MoveOf(c, state, e, io).ok ==> MoveOf(c, state, e, io).touched
    ensures MoveOf(c, state, e, io).ok ==> MoveOf(c, state, e, io).saved
  {
  }

  function Moved(s: Sys, c: Consumer, i: nat, m: Move): (t: Sys)
    requires c.name in s.heard && i < |s.log|
    ensures t.log == s.log && t.doing == s.doing && t.heard.Keys == s.heard.Keys
    ensures c.name in s.states ==> t.states.Keys == s.states.Keys
  {
    if !m.touched then s
    else if m.saved then CommitTo(s, c, i, m.state)
    else ApplyTo(s, c, i, m.state)
  }

  function Next(s: Sys, c: Consumer, i: nat, io: Io): (t: Turned)
    requires c.name in s.states && c.name in s.heard && i < |s.log|
    ensures c.name in t.s.states && c.name in t.s.heard && t.s.log == s.log && t.s.doing == s.doing
    ensures t.s.states.Keys == s.states.Keys && t.s.heard.Keys == s.heard.Keys
    ensures t.ok ==> PositionOf(t.s, c) == s.log[i].position
  {
    var m := MoveOf(c, s.states[c.name], s.log[i], io);
    Turned(Moved(s, c, i, m), m.ok)
  }

  /**
   One consumer's turn, from event i on with room events of the current batch left: it
   stops at the first failure, keeping what was done before it.
   */
  function Turn(s: Sys, c: Consumer, i: nat, room: nat, io: Io): Turned
    requires c.name in s.states && c.name in s.heard && i + room <= |s.log|
    decreases |s.log| - i, if room == 0 then 1 else 0
  {
    if room == 0 then
      if !io.Polls(c.name, PositionOf(s, c)) then Turned(s, false)
      else if i == |s.log| then Turned(s, true)
      else Turn(s, c, i, Smaller(BATCH, |s.log| - i), io)
    else
      var t := Next(s, c, i, io);
      if t.ok then Turn(t.s, c, i + 1, room - 1, io) else t
  }

  lemma {:induction false} TurnKeepsShape(s: Sys, c: Consumer, i: nat, room: nat, io: Io)
    requires c.name in s.states && c.name in s.heard && i + room <= |s.log|
    ensures var t := Turn(s, c, i, room, io).s;
            t.log == s.log && t.doing == s.doing && t.states.Keys == s.states.Keys && t.heard.Keys == s.heard.Keys
    decreases |s.log| - i, if room == 0 then 1 else 0
  {
    hide *;
    TurnUnfolds(s, c, i, room, io);
    if room > 0 {
      if Next(s, c, i, io).ok {
        TurnKeepsShape(Next(s, c, i, io).s, c, i + 1, room - 1, io);
      }
    } else if io.Polls(c.name, PositionOf(s, c)) && i < |s.log| {
      RoomFits(|s.log| - i);
      TurnKeepsShape(s, c, i, Smaller(BATCH, |s.log| - i), io);
    }
  }

  lemma NoRoom()
    ensures Smaller(BATCH, 0) == 0
  {
  }

  lemma RoomFits(left: nat)
    requires left > 0
    ensures 0 < Smaller(BATCH, left) <= left
  {
  }

  lemma TurnUnfolds(s: Sys, c: Consumer, i: nat, room: nat, io: Io)
    requires c.name in s.states && c.name in s.heard && i + room <= |s.log|
    ensures room == 0 && !io.Polls(c.name, PositionOf(s, c)) ==> Turn(s, c, i, room, io) == Turned(s, false)
    ensures room == 0 && io.Polls(c.name, PositionOf(s, c)) && i == |s.log| ==>
            Turn(s, c, i, room, io) == Turned(s, true)
    ensures room == 0 && io.Polls(c.name, PositionOf(s, c)) && i < |s.log| ==>
              Turn(s, c, i, room, io) == Turn(s, c, i, Smaller(BATCH, |s.log| - i), io)
    ensures room > 0 ==>
              var t := Next(s, c, i, io);
              Turn(s, c, i, room, io) == if t.ok then Turn(t.s, c, i + 1, room - 1, io) else t
  {
  }

  /** A turn, from the stored position on. */
  function TurnOf(s: Sys, c: Consumer, io: Io): (t: Turned)
    requires c.name in s.states && c.name in s.heard
    ensures t.s.log == s.log && t.s.doing == s.doing && t.s.states.Keys == s.states.Keys
            && t.s.heard.Keys == s.heard.Keys
  {
    TurnKeepsShape(s, c, Upto(s.log, PositionOf(s, c)), 0, io);
    if !io.Readable(c.name) then Turned(s, false)
    else Turn(s, c, Upto(s.log, PositionOf(s, c)), 0, io)
  }

  /** One rebuild request: wipe, reset, take off, each only when the one before went through. */
  function Rebuild(s: Sys, c: Consumer, io: Io): (t: Sys)
    requires c.name in s.states && c.name in s.heard
    ensures t.log == s.log && t.doing == s.doing && t.states.Keys == s.states.Keys && t.heard.Keys == s.heard.Keys
    ensures t.requests == s.requests || t.requests == s.requests - {c.name}
  {
    if !c.collections then (if io.TakesOff(c.name) then s.(requests := s.requests - {c.name}) else s)
    else
      match io.Wipes(c.name)
      case Some(partial) => s.(states := s.states[c.name := partial])
      case None =>
        var s1 := s.(states := s.states[c.name := c.empty]);
        var s2 := SavePosition(s1, c, 0).(heard := s1.heard[c.name := History(0, [])]);
        match io.Resets(c.name)
        case Failed(landed) => if landed then s2 else s1
        case Fine => if io.TakesOff(c.name) then s2.(requests := s2.requests - {c.name}) else s2
  }

  function SetOf(names: seq<string>): set<string> {
    set name | name in names
  }

  predicate NoRepeats(names: seq<string>) {
    forall i, j :: 0 <= i < j < |names| ==> names[i] != names[j]
  }

  lemma SetOfMore(names: seq<string>, name: string)
    ensures SetOf(names + [name]) == SetOf(names) + {name}
  {
    var all := names + [name];
    assert all[|names|] == name;
    forall n | n in SetOf(names)
      ensures n in SetOf(all)
    {
      var i :| 0 <= i < |names| && names[i] == n;
      assert all[i] == n;
    }
  }

  predicate Distinct(consumers: seq<Consumer>) {
    forall i, j :: 0 <= i < j < |consumers| ==> consumers[i].name != consumers[j].name
  }

  function NamesOf(consumers: seq<Consumer>): set<string> {
    set i | 0 <= i < |consumers| :: consumers[i].name
  }

  function Find(consumers: seq<Consumer>, name: string): (c: Option<Consumer>)
    ensures c.Some? <==> name in NamesOf(consumers)
    ensures c.Some? ==> c.value.name == name && exists i :: 0 <= i < |consumers| && consumers[i] == c.value
  {
    if |consumers| == 0 then None
    else
      var n := |consumers| - 1;
      var before := Find(consumers[..n], name);
      assert NamesOf(consumers) == NamesOf(consumers[..n]) + {consumers[n].name} by { NamesOfLast(consumers); }
      if before.Some? then before
      else if consumers[n].name == name then Some(consumers[n])
      else None
  }

  lemma NamesOfLast(consumers: seq<Consumer>)
    requires |consumers| > 0
    ensures NamesOf(consumers) == NamesOf(consumers[..|consumers| - 1]) + {consumers[|consumers| - 1].name}
  {
    var n := |consumers| - 1;
    forall name | name in NamesOf(consumers)
      ensures name in NamesOf(consumers[..n]) + {consumers[n].name}
    {
      var i :| 0 <= i < |consumers| && consumers[i].name == name;
      assert i < n ==> consumers[..n][i].name == name;
    }
    forall name | name in NamesOf(consumers[..n])
      ensures name in NamesOf(consumers)
    {
      var i :| 0 <= i < n && consumers[..n][i].name == name;
      assert consumers[i].name == name;
    }
  }

  function CatalogOf(consumers: seq<Consumer>): Catalog {
    map name | name in NamesOf(consumers) :: Find(consumers, name).value
  }

  lemma Catalogued(consumers: seq<Consumer>, i: nat)
    requires Distinct(consumers) && i < |consumers|
    ensures Find(consumers, consumers[i].name) == Some(consumers[i])
    ensures consumers[i].name in CatalogOf(consumers) && CatalogOf(consumers)[consumers[i].name] == consumers[i]
  {
    var c := Find(consumers, consumers[i].name);
    assert consumers[i].name in NamesOf(consumers);
    var j :| 0 <= j < |consumers| && consumers[j] == c.value;
  }

  predicate AllLive(s: Sys, consumers: seq<Consumer>) {
    forall i :: 0 <= i < |consumers| ==> consumers[i].name in s.states.Keys && consumers[i].name in s.heard.Keys
  }

  lemma FoundIsLive(s: Sys, consumers: seq<Consumer>, name: string)
    requires AllLive(s, consumers) && Find(consumers, name).Some?
    ensures name in s.states.Keys && name in s.heard.Keys
  {
  }

  /** The requests of one pass, oldest first; one for a consumer this engine does not run is kept. */
  function Rebuilds(s: Sys, consumers: seq<Consumer>, names: seq<string>, io: Io): (t: Sys)
    requires AllLive(s, consumers)
    ensures t.log == s.log && t.doing == s.doing && t.states.Keys == s.states.Keys && t.heard.Keys == s.heard.Keys
  {
    if |names| == 0 then s
    else
      var before := Rebuilds(s, consumers, names[..|names| - 1], io);
      var c := Find(consumers, names[|names| - 1]);
      if c.None? then before else Rebuild(before, c.value, io)
  }

  /** The requests a pass gets to see. */
  function Listed(names: seq<string>, io: Io): seq<string> {
    if io.unlisted then [] else names
  }

  datatype Passed = Passed(s: Sys, failed: set<string>)

  /** The consumers' turns, in registration order; one that fails does not stop the next. */
  function Turns(s: Sys, consumers: seq<Consumer>, io: Io): (p: Passed)
    requires AllLive(s, consumers)
    ensures p.s.log == s.log && p.s.doing == s.doing && p.s.states.Keys == s.states.Keys
            && p.s.heard.Keys == s.heard.Keys
  {
    if |consumers| == 0 then Passed(s, {})
    else
      var c := consumers[|consumers| - 1];
      var before := Turns(s, consumers[..|consumers| - 1], io);
      var t := TurnOf(before.s, c, io);
      Passed(t.s, if t.ok then before.failed else before.failed + {c.name})
  }

  /** Nothing delivered, nothing stored. */
  function Start(consumers: seq<Consumer>): Sys {
    Sys([], map[], map[], {},
        map name | name in NamesOf(consumers) :: Find(consumers, name).value.empty,
        Nothing,
        map name | name in NamesOf(consumers) :: History(0, []))
  }

  lemma StartIsSafe(consumers: seq<Consumer>)
    requires Distinct(consumers) && forall i :: 0 <= i < |consumers| && consumers[i].commits ==>
             consumers[i].ownsPosition
    ensures Inv(CatalogOf(consumers), Start(consumers))
  {
    hide *;
    var cat, s := CatalogOf(consumers), Start(consumers);
    forall name | name in cat
      ensures Live(cat, s, name) && ConsumerOk(cat, s, name)
    {
      StartsSafe(consumers, name);
    }
    StartsIdle(consumers);
    IdleIsSafe(cat, s);
  }

  lemma StartsIdle(consumers: seq<Consumer>)
    ensures Start(consumers).doing == Nothing && LogOfPositions(Start(consumers).log)
  {
  }

  lemma IdleIsSafe(cat: Catalog, s: Sys)
    requires s.doing == Nothing && LogOfPositions(s.log)
    requires forall name :: name in cat ==> Live(cat, s, name) && ConsumerOk(cat, s, name)
    ensures Inv(cat, s)
  {
    hide Live, ConsumerOk, LogOfPositions;
  }

  lemma StartsSafe(consumers: seq<Consumer>, name: string)
    requires Distinct(consumers) && forall i :: 0 <= i < |consumers| && consumers[i].commits ==>
             consumers[i].ownsPosition
    requires name in CatalogOf(consumers)
    ensures Live(CatalogOf(consumers), Start(consumers), name)
    ensures ConsumerOk(CatalogOf(consumers), Start(consumers), name)
  {
    hide ConsumerAt;
    var c := Find(consumers, name).value;
    ConsumerAtReset(c, [], c.empty, true);
    assert c.commits ==> c.ownsPosition;
  }

  class Engine {
    var consumers: seq<Consumer>
    var log: seq<Event>
    var checkpoints: map<string, nat>
    var own: map<string, nat>
    var requests: seq<string>
    var states: map<string, State>
    ghost var heard: map<string, History>

    constructor (consumers: seq<Consumer>)
      requires Distinct(consumers) && forall i :: 0 <= i < |consumers| && consumers[i].commits ==>
               consumers[i].ownsPosition
      ensures this.consumers == consumers && requests == [] && log == []
      ensures Valid()
    {
      hide Inv;
      this.consumers := consumers;
      log, checkpoints, own, requests := [], map[], map[], [];
      states := map name | name in NamesOf(consumers) :: Find(consumers, name).value.empty;
      heard := map name | name in NamesOf(consumers) :: History(0, []);
      new;
      StartIsSafe(consumers);
      assert SetOf([]) == {} && NoRepeats([]) && Now(Nothing) == Start(consumers);
    }

    /** Rows appended to the log the engine follows. */
    method Append(rows: seq<Event>)
      requires Valid() && LogOfPositions(log + rows)
      modifies this`log
      ensures Valid() && Now(Nothing) == After(Cat(), old(Now(Nothing)), Delivery.Append(rows))
    {
      StepKeepsInv(Cat(), Now(Nothing), Delivery.Append(rows));
      hide Inv;
      log := log + rows;
    }

    /** Request: one row per name, so asking again is the same request. */
    method Request(name: string)
      requires Valid()
      modifies this`requests
      ensures Valid() && Now(Nothing) == After(Cat(), old(Now(Nothing)), Delivery.Request(name))
    {
      StepKeepsInv(Cat(), Now(Nothing), Delivery.Request(name));
      hide Inv;
      SetOfMore(requests, name);
      if name !in requests {
        requests := requests + [name];
      } else {
        assert SetOf(requests) + {name} == SetOf(requests);
      }
    }

    ghost function Now(doing: Doing): Sys
      reads this
    {
      Sys(log, checkpoints, own, SetOf(requests), states, doing, heard)
    }

    ghost function Cat(): Catalog
      reads this
    {
      CatalogOf(consumers)
    }

    ghost predicate Valid()
      reads this
    {
      Distinct(consumers) && NoRepeats(requests) && Inv(Cat(), Now(Nothing))
    }

    /** Poll: the events past a position, in order, at most limit of them. */
    method Poll(after: nat, limit: nat) returns (batch: seq<Event>)
      requires Increasing(log)
      ensures var i := Upto(log, after); batch == log[i..i + Smaller(limit, |log| - i)]
    {
      UptoSplits(log, after);
      batch := [];
      var k := 0;
      while k < |log| && |batch| < limit
        invariant k <= |log| && |batch| <= limit
        invariant var i := Upto(log, after); batch == if k <= i then [] else log[i..k]
      {
        if log[k].position > after {
          batch := batch + [log[k]];
        }
        k := k + 1;
      }
    }

    /** The stored position: a consumer's own store first, the engine's when that has none. */
    method Position(c: Consumer) returns (position: nat)
      ensures position == PositionOf(Now(Nothing), c)
    {
      if c.ownsPosition && c.name in own {
        return own[c.name];
      }
      position := if c.name in checkpoints then checkpoints[c.name] else 0;
    }

    method SaveCheckpoint(c: Consumer, position: nat)
      modifies this`own, this`checkpoints
      ensures own == (if c.ownsPosition then old(own)[c.name := position] else old(own))
      ensures checkpoints == (if c.ownsPosition then old(checkpoints) else old(checkpoints)[c.name := position])
    {
      if c.ownsPosition {
        own := own[c.name := position];
      } else {
        checkpoints := checkpoints[c.name := position];
      }
    }

    /** Commit: nothing, or the new state and the position in one transaction. */
    method Commit(c: Consumer, ev: Event, fate: Fate) returns (ok: bool)
      requires c.name in states
      modifies this`states, this`own, this`checkpoints
      ensures ok == (fate == Fine && c.Commit(old(states)[c.name], ev).Some?)
      ensures var r := c.Commit(old(states)[c.name], ev);
              if r.None? || fate == Failed(false)
              then states == old(states) && own == old(own) && checkpoints == old(checkpoints)
              else states == old(states)[c.name := r.value]
                   && own == (if c.ownsPosition then old(own)[c.name := ev.position] else old(own))
                   && checkpoints == (if c.ownsPosition then old(checkpoints)
                                      else old(checkpoints)[c.name := ev.position])
    {
      var r := c.Commit(states[c.name], ev);
      if r.None? || fate == Failed(false) {
        return false;
      }
      states := states[c.name := r.value];
      SaveCheckpoint(c, ev.position);
      ok := fate == Fine;
    }

    /** deliver, for a consumer that does not commit: Fold or nothing for an imported event it must not act on. */
    method Apply(c: Consumer, ev: Event, fate: Fate) returns (ok: bool)
      requires !c.commits && c.name in states
      modifies this`states
      ensures ok == (fate == Fine)
      ensures var before := old(states)[c.name];
              states == old(states)[c.name := if fate == Failed(false) then before else Act(c, before, ev)]
      ensures var before := old(states)[c.name];
              c.name in states
              && (fate == Failed(false) ==> states[c.name] == before)
              && (fate != Failed(false) ==>
                    states[c.name] ==
                    if c.effect && "imported" in ev.metadata && ev.metadata["imported"] == "true" then
                      (if c.folder then c.fold(before, ev) else before)
                    else c.apply(before, ev))
      ensures forall n :: n in old(states) && n != c.name ==> n in states && states[n] == old(states)[n]
    {
      if fate != Failed(false) {
        if c.effect && IsImported(ev) {
          if c.folder {
            states := states[c.name := c.FoldOnly(states[c.name], ev)];
          }
        } else {
          states := states[c.name := c.Apply(states[c.name], ev)];
        }
      }
      ok := fate == Fine;
    }

    /** One delivery of runOnceFor's loop: a Commit, or an Apply and then its checkpoint. */
    method DeliverOne(c: Consumer, ev: Event, io: Io) returns (ok: bool)
      requires c.name in states
      modifies this`states, this`own, this`checkpoints
      ensures var m := MoveOf(c, old(states)[c.name], ev, io);
              && ok == m.ok
              && states == (if m.touched then old(states)[c.name := m.state] else old(states))
              && own == (if m.saved && c.ownsPosition then old(own)[c.name := ev.position] else old(own))
              && checkpoints == (if m.saved && !c.ownsPosition then old(checkpoints)[c.name := ev.position]
                                 else old(checkpoints))
    {
      hide IsImported, Act;
      if c.commits {
        ok := Commit(c, ev, io.Delivers(c.name, ev.position));
        return;
      }
      ok := Apply(c, ev, io.Delivers(c.name, ev.position));
      if ok {
        var fate := io.Saves(c.name, ev.position);
        if fate != Failed(false) {
          SaveCheckpoint(c, ev.position);
        }
        ok := fate == Fine;
      }
    }

    method DeliverNext(c: Consumer, ev: Event, ghost i: nat, io: Io) returns (ok: bool)
      requires c.name in states && c.name in heard && i < |log| && ev == log[i]
      modifies this`states, this`own, this`checkpoints, this`heard
      ensures Turned(Now(Nothing), ok) == Next(old(Now(Nothing)), c, i, io)
      ensures c.name in states && c.name in heard && (ok ==> PositionOf(Now(Nothing), c) == ev.position)
    {
      hide MoveOf, IsImported, HowDelivered, Upto, SetOf;
      ghost var m := MoveOf(c, states[c.name], ev, io);
      SavedOnlyIfTouched(c, states[c.name], ev, io);
      ok := DeliverOne(c, ev, io);
      if m.touched {
        heard := heard[c.name := heard[c.name].(heard := heard[c.name].heard + [Heard(i + 1, HowDelivered(c, ev))])];
      }
    }

    /** runOnceFor: from the stored position, polls and delivers until caught up or until something fails. */
    method RunOnceFor(c: Consumer, io: Io) returns (ok: bool)
      requires Increasing(log) && c.name in states && c.name in heard
      modifies this`states, this`own, this`checkpoints, this`heard
      ensures Turned(Now(Nothing), ok) == TurnOf(old(Now(Nothing)), c, io)
    {
      hide Upto, SetOf, Turn, Increasing, PositionOf;
      if !io.Readable(c.name) {
        return false;
      }
      var pos := Position(c);
      ok := CatchUp(c, pos, io);
    }

    lemma NowFacts()
      ensures Now(Nothing).log == log && Now(Nothing).states == states && Now(Nothing).heard == heard
    {
    }

    method CatchUp(c: Consumer, start: nat, io: Io) returns (ok: bool)
      requires Increasing(log) && c.name in states && c.name in heard && start == PositionOf(Now(Nothing), c)
      modifies this`states, this`own, this`checkpoints, this`heard
      ensures Turned(Now(Nothing), ok) == Turn(old(Now(Nothing)), c, Upto(log, start), 0, io)
    {
      hide *;
      NowFacts();
      var pos := start;
      ghost var i := Upto(log, pos);
      ghost var whole := Turn(Now(Nothing), c, i, 0, io);
      var more := true;
      ok := true;
      while more
        invariant i <= |log| && i == Upto(log, pos) && c.name in states && c.name in heard
        invariant Now(Nothing).log == log && Now(Nothing).states == states && Now(Nothing).heard == heard
        invariant more ==> pos == PositionOf(Now(Nothing), c) && Turn(Now(Nothing), c, i, 0, io) == whole
        invariant !more ==> Turned(Now(Nothing), ok) == whole
        decreases |log| - i, if more then 1 else 0
      {
        more, ok, pos, i := PollOnce(c, pos, i, io);
        NowFacts();
      }
    }

    /** One round of runOnceFor's loop: a poll and its batch; more says whether to poll again. */
    method PollOnce(c: Consumer, pos: nat, ghost i: nat, io: Io)
        returns (more: bool, ok: bool, pos': nat, ghost i': nat)
      requires Increasing(log) && c.name in states && c.name in heard
      requires pos == PositionOf(Now(Nothing), c) && i == Upto(log, pos)
      modifies this`states, this`own, this`checkpoints, this`heard
      ensures c.name in states && c.name in heard && i' == Upto(log, pos')
      ensures !more ==> i' == i && Turned(Now(Nothing), ok) == Turn(old(Now(Nothing)), c, i, 0, io)
      ensures more ==> i < i' <= |log| && pos' == PositionOf(Now(Nothing), c)
      ensures more ==> Turn(Now(Nothing), c, i', 0, io) == Turn(old(Now(Nothing)), c, i, 0, io)
    {
      hide *;
      NowFacts();
      more, ok, pos', i' := false, false, pos, i;
      TurnUnfolds(Now(Nothing), c, i, 0, io);
      if !io.Polls(c.name, pos) {
        return;
      }
      var batch := Poll(pos, BATCH);
      if |batch| == 0 {
        if i < |log| {
          RoomFits(|log| - i);
        }
        ok := true;
        return;
      }
      NoRoom();
      RoomFits(|log| - i);
      ok := DeliverBatch(c, batch, i, io);
      if ok {
        NowFacts();
        UptoOf(log, i + |batch| - 1);
        more, pos', i' := true, batch[|batch| - 1].position, i + |batch|;
      }
    }

    /** The events of one poll, delivered in order until one fails. */
    method DeliverBatch(c: Consumer, batch: seq<Event>, ghost from: nat, io: Io) returns (ok: bool)
      requires |batch| > 0 && from + |batch| <= |log| && batch == log[from..from + |batch|]
      requires c.name in states && c.name in heard
      modifies this`states, this`own, this`checkpoints, this`heard
      ensures c.name in states && c.name in heard
      ensures var whole := Turn(old(Now(Nothing)), c, from, |batch|, io);
              if ok then
                && Turn(Now(Nothing), c, from + |batch|, 0, io) == whole
                && PositionOf(Now(Nothing), c) == batch[|batch| - 1].position
              else Turned(Now(Nothing), ok) == whole
    {
      hide *;
      NowFacts();
      ghost var whole := Turn(Now(Nothing), c, from, |batch|, io);
      ok := true;
      for k := 0 to |batch|
        invariant c.name in states && c.name in heard
        invariant Now(Nothing).log == log && Now(Nothing).states == states && Now(Nothing).heard == heard
        invariant Turn(Now(Nothing), c, from + k, |batch| - k, io) == whole
        invariant k > 0 ==> PositionOf(Now(Nothing), c) == batch[k - 1].position
      {
        assert batch[k] == log[from + k];
        ok := DeliverInTurn(c, batch[k], from + k, |batch| - k, io);
        NowFacts();
        if !ok {
          return;
        }
      }
    }

    /** One delivery as the head of a turn with room events left. */
    method DeliverInTurn(c: Consumer, ev: Event, ghost i: nat, ghost room: nat, io: Io) returns (ok: bool)
      requires c.name in states && c.name in heard && i + room <= |log| && room > 0 && ev == log[i]
      modifies this`states, this`own, this`checkpoints, this`heard
      ensures c.name in states && c.name in heard
      ensures var whole := Turn(old(Now(Nothing)), c, i, room, io);
              if ok then
                && Turn(Now(Nothing), c, i + 1, room - 1, io) == whole
                && PositionOf(Now(Nothing), c) == ev.position
              else Turned(Now(Nothing), ok) == whole
    {
      hide *;
      NowFacts();
      TurnUnfolds(Now(Nothing), c, i, room, io);
      ok := DeliverNext(c, ev, i, io);
      NowFacts();
    }

    method Done(name: string, ok: bool)
      modifies this`requests
      ensures SetOf(requests) == if ok then SetOf(old(requests)) - {name} else SetOf(old(requests))
      ensures old(NoRepeats(requests)) ==> NoRepeats(requests)
    {
      if ok {
        var kept: seq<string> := [];
        for i := 0 to |requests|
          invariant requests == old(requests)
          invariant SetOf(kept) == SetOf(requests[..i]) - {name}
          invariant NoRepeats(requests) ==> NoRepeats(kept)
        {
          assert requests[..i + 1] == requests[..i] + [requests[i]];
          SetOfMore(requests[..i], requests[i]);
          if requests[i] != name {
            SetOfMore(kept, requests[i]);
            kept := kept + [requests[i]];
          }
        }
        assert requests[..|requests|] == requests;
        requests := kept;
      }
    }

    /** One request: wipe, reset, take off; any failure leaves the rest for the next pass. */
    method RebuildOne(c: Consumer, io: Io)
      requires c.name in states && c.name in heard
      modifies this`states, this`own, this`checkpoints, this`heard, this`requests
      ensures Now(Nothing) == Rebuild(old(Now(Nothing)), c, io)
      ensures old(NoRepeats(requests)) ==> NoRepeats(requests)
    {
      hide SetOf;
      if !c.collections {
        Done(c.name, io.TakesOff(c.name));
        return;
      }
      var partial := io.Wipes(c.name);
      if partial.Some? {
        states := states[c.name := partial.value];
        return;
      }
      states := states[c.name := c.empty];
      var fate := io.Resets(c.name);
      if fate != Failed(false) {
        SaveCheckpoint(c, 0);
        heard := heard[c.name := History(0, [])];
      }
      if fate == Fine {
        Done(c.name, io.TakesOff(c.name));
      }
    }

    /** takeRebuilds: every pending request, in order. */
    method TakeRebuilds(io: Io)
      requires AllLive(Now(Nothing), consumers)
      modifies this`states, this`own, this`checkpoints, this`heard, this`requests
      ensures Now(Nothing) == Rebuilds(old(Now(Nothing)), consumers, Listed(old(requests), io), io)
      ensures old(NoRepeats(requests)) ==> NoRepeats(requests)
    {
      hide SetOf, Rebuild, Find, AllLive;
      if io.unlisted {
        return;
      }
      var names := requests;
      ghost var s := Now(Nothing);
      for i := 0 to |names|
        invariant Now(Nothing) == Rebuilds(s, consumers, names[..i], io)
        invariant NoRepeats(names) ==> NoRepeats(requests)
      {
        assert names[..i + 1][..i] == names[..i];
        var c := Find(consumers, names[i]);
        if c.Some? {
          FoundIsLive(s, consumers, names[i]);
          RebuildOne(c.value, io);
        }
      }
      assert names[..|names|] == names;
    }

    /** One pass: the rebuilds, then every consumer's turn. */
    method RunOnce(io: Io) returns (failed: set<string>)
      requires Valid()
      modifies this`states, this`own, this`checkpoints, this`heard, this`requests
      ensures AllLive(old(Now(Nothing)), consumers)
      ensures Passed(Now(Nothing), failed) ==
              Turns(Rebuilds(old(Now(Nothing)), consumers, Listed(old(requests), io), io), consumers, io)
      ensures Valid()
      ensures forall i :: 0 <= i < |consumers| && consumers[i].name !in failed ==>
              Upto(log, PositionOf(Now(Nothing), consumers[i])) == |log|
    {
      PassFacts(Now(Nothing), consumers, requests, io);
      hide *;
      TakeRebuilds(io);
      failed := TakeTurns(io);
    }

    method TakeTurns(io: Io) returns (failed: set<string>)
      requires Increasing(log) && AllLive(Now(Nothing), consumers)
      modifies this`states, this`own, this`checkpoints, this`heard
      ensures Passed(Now(Nothing), failed) == Turns(old(Now(Nothing)), consumers, io)
    {
      hide *;
      NowFacts();
      ghost var s := Now(Nothing);
      failed := {};
      NoTurnYet(s, consumers, io);
      for i := 0 to |consumers|
        invariant consumers == old(consumers) && log == s.log && Increasing(log)
        invariant AllLive(s, consumers[..i])
        invariant Passed(Now(Nothing), failed) == Turns(s, consumers[..i], io)
      {
        TurnAfter(s, consumers, i, io);
        NowFacts();
        var ok := RunOnceFor(consumers[i], io);
        if !ok {
          failed := failed + {consumers[i].name};
        }
      }
      assert consumers[..|consumers|] == consumers;
    }

    lemma NoTurnYet(s: Sys, consumers: seq<Consumer>, io: Io)
      ensures AllLive(s, consumers[..0]) && Turns(s, consumers[..0], io) == Passed(s, {})
    {
    }

    lemma TurnAfter(s: Sys, consumers: seq<Consumer>, i: nat, io: Io)
      requires AllLive(s, consumers) && i < |consumers| && AllLive(s, consumers[..i])
      ensures AllLive(s, consumers[..i + 1])
      ensures var c, before := consumers[i], Turns(s, consumers[..i], io);
              && c.name in before.s.states && c.name in before.s.heard && before.s.log == s.log
              && var t := TurnOf(before.s, c, io);
                 Turns(s, consumers[..i + 1], io) ==
                 Passed(t.s, if t.ok then before.failed else before.failed + {c.name})
    {
      hide TurnOf, Turns;
      assert consumers[..i + 1][..i] == consumers[..i];
      TurnsUnfold(s, consumers[..i + 1], io);
    }
  }

  // ---------------------------------------------------------------------
  // A turn is a run of the machine
  // ---------------------------------------------------------------------

  lemma NextIsARun(cat: Catalog, s: Sys, c: Consumer, i: nat, io: Io) returns (steps: seq<Step>)
    requires Inv(cat, s) && s.doing == Nothing && c.name in cat && cat[c.name] == c
    requires Live(cat, s, c.name) && i == Upto(s.log, PositionOf(s, c)) < |s.log|
    ensures AfterAll(cat, s, steps) == Some(Next(s, c, i, io).s)
  {
    hide Inv, Upto, IsImported, HowDelivered, Act, LogOfPositions;
    if c.commits {
      var step := CommitNext(c.name, io.Delivers(c.name, s.log[i].position) != Failed(false));
      OneStepMore(cat, s, [], step);
      steps := [] + [step];
    } else {
      steps := ApplyIsARun(cat, s, c, i, io);
    }
  }

  lemma ApplyIsARun(cat: Catalog, s: Sys, c: Consumer, i: nat, io: Io) returns (steps: seq<Step>)
    requires s.doing == Nothing && c.name in cat && cat[c.name] == c && !c.commits
    requires Live(cat, s, c.name) && i == Upto(s.log, PositionOf(s, c)) < |s.log|
    ensures AfterAll(cat, s, steps) == Some(Next(s, c, i, io).s)
  {
    hide Upto, IsImported, HowDelivered, Act, LogOfPositions;
    var fate := io.Delivers(c.name, s.log[i].position);
    var step := ApplyNext(c.name, fate == Fine, fate != Failed(false));
    OneStepMore(cat, s, [], step);
    steps := [] + [step];
    if fate == Fine {
      var s1 := After(cat, s, step);
      var more := SavingIsARun(cat, s1, c.name, s.log[i].position, io);
      RunsCompose(cat, s, steps, more);
      steps := steps + more;
    }
  }

  lemma SavingIsARun(cat: Catalog, s: Sys, name: string, position: nat, io: Io) returns (steps: seq<Step>)
    requires s.doing == Delivered(name, position) && Live(cat, s, name)
    ensures var fate := io.Saves(name, position);
            AfterAll(cat, s, steps) ==
            Some((if fate == Failed(false) then s else SavePosition(s, cat[name], position)).(doing := Nothing))
  {
    hide Inv, Upto, IsImported, HowDelivered, Act, LogOfPositions;
    var fate := io.Saves(name, position);
    OneStepMore(cat, s, [], SaveNext(fate == Fine, fate != Failed(false)));
    steps := [] + [SaveNext(fate == Fine, fate != Failed(false))];
  }

  lemma ReadyToTurn(cat: Catalog, s: Sys, c: Consumer)
    requires Inv(cat, s) && c.name in cat && cat[c.name] == c
    ensures Live(cat, s, c.name) && Increasing(s.log)
  {
  }

  ghost predicate CanTurn(cat: Catalog, s: Sys, c: Consumer, i: nat, room: nat) {
    && s.doing == Nothing && Live(cat, s, c.name) && cat[c.name] == c && Increasing(s.log)
    && i == Upto(s.log, PositionOf(s, c)) && i + room <= |s.log|
  }

  /**
   These steps are this turn, and if the turn reports no failure it has brought the
   consumer to the head of the log.
   */
  ghost predicate IsTurn(cat: Catalog, s: Sys, c: Consumer, i: nat, room: nat, io: Io, steps: seq<Step>)
    requires CanTurn(cat, s, c, i, room)
  {
    var t := Turn(s, c, i, room, io);
    && AfterAll(cat, s, steps) == Some(t.s) && t.s.log == s.log
    && (t.ok ==> Upto(s.log, PositionOf(t.s, c)) == |s.log|)
  }

  lemma TurnDelivers(cat: Catalog, s: Sys, c: Consumer, i: nat, room: nat, io: Io, steps: seq<Step>, more: seq<Step>)
    requires CanTurn(cat, s, c, i, room) && room > 0 && AfterAll(cat, s, steps) == Some(Next(s, c, i, io).s)
    requires Next(s, c, i, io).ok
    requires CanTurn(cat, Next(s, c, i, io).s, c, i + 1, room - 1)
    requires IsTurn(cat, Next(s, c, i, io).s, c, i + 1, room - 1, io, more)
    ensures IsTurn(cat, s, c, i, room, io, steps + more)
  {
    RunsCompose(cat, s, steps, more);
    TurnUnfolds(s, c, i, room, io);
    hide Next, AfterAll, PositionOf, Upto, Turn;
  }

  lemma NextCanTurn(cat: Catalog, s: Sys, c: Consumer, i: nat, room: nat, io: Io)
    requires CanTurn(cat, s, c, i, room) && room > 0 && Next(s, c, i, io).ok && Inv(cat, Next(s, c, i, io).s)
    ensures CanTurn(cat, Next(s, c, i, io).s, c, i + 1, room - 1)
  {
    UptoOf(s.log, i);
    ReadyToTurn(cat, Next(s, c, i, io).s, c);
    hide Next, PositionOf, Upto, Inv, Increasing;
  }

  lemma TurnStops(cat: Catalog, s: Sys, c: Consumer, i: nat, io: Io)
    requires CanTurn(cat, s, c, i, 0) && (!io.Polls(c.name, PositionOf(s, c)) || i == |s.log|)
    ensures IsTurn(cat, s, c, i, 0, io, [])
  {
  }

  lemma TurnPolls(cat: Catalog, s: Sys, c: Consumer, i: nat, io: Io, steps: seq<Step>)
    requires CanTurn(cat, s, c, i, 0) && io.Polls(c.name, PositionOf(s, c)) && i < |s.log|
    ensures CanTurn(cat, s, c, i, Smaller(BATCH, |s.log| - i)) && Smaller(BATCH, |s.log| - i) > 0
    ensures IsTurn(cat, s, c, i, Smaller(BATCH, |s.log| - i), io, steps) ==> IsTurn(cat, s, c, i, 0, io, steps)
  {
    hide Next;
  }

  lemma TurnFails(cat: Catalog, s: Sys, c: Consumer, i: nat, room: nat, io: Io, steps: seq<Step>)
    requires CanTurn(cat, s, c, i, room) && room > 0 && AfterAll(cat, s, steps) == Some(Next(s, c, i, io).s)
    requires !Next(s, c, i, io).ok
    ensures IsTurn(cat, s, c, i, room, io, steps)
  {
    TurnUnfolds(s, c, i, room, io);
    hide Next, AfterAll, PositionOf, Upto, Turn;
  }

  /** A turn, with any failures, is a run of the delivery machine. */
  lemma {:induction false} TurnIsARun(cat: Catalog, s: Sys, c: Consumer, i: nat, room: nat, io: Io)
      returns (steps: seq<Step>)
    requires Inv(cat, s) && CanTurn(cat, s, c, i, room)
    ensures IsTurn(cat, s, c, i, room, io, steps)
    decreases |s.log| - i, 1
  {
    if room > 0 {
      steps := TurnOnce(cat, s, c, i, room, io);
    } else if io.Polls(c.name, PositionOf(s, c)) && i < |s.log| {
      TurnPolls(cat, s, c, i, io, []);
      hide *;
      steps := TurnOnce(cat, s, c, i, Smaller(BATCH, |s.log| - i), io);
      TurnPolls(cat, s, c, i, io, steps);
    } else {
      steps := [];
      TurnStops(cat, s, c, i, io);
    }
  }

  lemma TurnOnce(cat: Catalog, s: Sys, c: Consumer, i: nat, room: nat, io: Io) returns (steps: seq<Step>)
    requires Inv(cat, s) && CanTurn(cat, s, c, i, room) && room > 0
    ensures IsTurn(cat, s, c, i, room, io, steps)
    decreases |s.log| - i, 0
  {
    hide Next, Inv, IsTurn, AfterAll;
    steps := NextIsARun(cat, s, c, i, io);
    var t := Next(s, c, i, io);
    RunKeepsInv(cat, s, steps);
    if t.ok {
      NextCanTurn(cat, s, c, i, room, io);
      hide *;
      var more := TurnIsARun(cat, t.s, c, i + 1, room - 1, io);
      TurnDelivers(cat, s, c, i, room, io, steps, more);
      steps := steps + more;
    } else {
      TurnFails(cat, s, c, i, room, io, steps);
    }
  }

  // ---------------------------------------------------------------------
  // A pass is a run of the machine
  // ---------------------------------------------------------------------

  lemma RebuildIsARun(cat: Catalog, s: Sys, c: Consumer, io: Io) returns (steps: seq<Step>)
    requires s.doing == Nothing && c.name in cat && cat[c.name] == c && Live(cat, s, c.name) && c.name in s.requests
    ensures AfterAll(cat, s, steps) == Some(Rebuild(s, c, io))
  {
    hide LogOfPositions, Upto, Act;
    if !c.collections {
      steps := [];
      if io.TakesOff(c.name) {
        OneStepMore(cat, s, [], Drop(c.name));
        steps := [] + [Drop(c.name)];
      }
    } else {
      var wipe := Wipe(c.name, io.Wipes(c.name));
      OneStepMore(cat, s, [], wipe);
      steps := [] + [wipe];
      if io.Wipes(c.name).None? {
        var more := ResetIsARun(cat, After(cat, s, wipe), c, io);
        RunsCompose(cat, s, steps, more);
        steps := steps + more;
      }
    }
  }

  lemma ResetIsARun(cat: Catalog, s: Sys, c: Consumer, io: Io) returns (steps: seq<Step>)
    requires s.doing == Wiped(c.name) && c.name in cat && cat[c.name] == c && Live(cat, s, c.name)
    ensures var s2 := SavePosition(s, c, 0).(heard := s.heard[c.name := History(0, [])], doing := Nothing);
            var s1 := s.(doing := Nothing);
            AfterAll(cat, s, steps) ==
            Some(match io.Resets(c.name)
                 case Failed(landed) => if landed then s2 else s1
                 case Fine => if io.TakesOff(c.name) then s2.(requests := s2.requests - {c.name}) else s2)
  {
    hide LogOfPositions, Upto, Act;
    var fate := io.Resets(c.name);
    var reset := SaveReset(fate == Fine, fate != Failed(false));
    OneStepMore(cat, s, [], reset);
    steps := [] + [reset];
    if fate == Fine {
      OneStepMore(cat, s, steps, TakeOff(io.TakesOff(c.name)));
      steps := steps + [TakeOff(io.TakesOff(c.name))];
    }
  }

  lemma FoundIsCatalogued(consumers: seq<Consumer>, name: string)
    requires Distinct(consumers)
    ensures var c := Find(consumers, name);
            c.Some? ==> name in CatalogOf(consumers) && CatalogOf(consumers)[name] == c.value
  {
  }

  predicate Asked(names: seq<string>, requests: set<string>) {
    NoRepeats(names) && forall i :: 0 <= i < |names| ==> names[i] in requests
  }

  /** The requests of a pass, whatever fails in them, are a run of the machine. */
  lemma {:induction false} RebuildsAreARun(s: Sys, consumers: seq<Consumer>, names: seq<string>, io: Io)
      returns (steps: seq<Step>)
    requires Distinct(consumers) && Inv(CatalogOf(consumers), s) && s.doing == Nothing && AllLive(s, consumers)
             && Asked(names, s.requests)
    ensures var t := Rebuilds(s, consumers, names, io);
            && AfterAll(CatalogOf(consumers), s, steps) == Some(t) && Inv(CatalogOf(consumers), t)
            && forall n :: n in s.requests && n !in names ==> n in t.requests
  {
    hide Rebuild, Find, CatalogOf, Upto, LogOfPositions;
    var cat := CatalogOf(consumers);
    steps := [];
    if |names| > 0 {
      var n := |names| - 1;
      steps := RebuildsAreARun(s, consumers, names[..n], io);
      var t := Rebuilds(s, consumers, names[..n], io);
      var c := Find(consumers, names[n]);
      FoundIsCatalogued(consumers, names[n]);
      if c.Some? {
        ReadyToTurn(cat, t, c.value);
        hide Inv, AfterAll, Live;
        var more := RebuildIsARun(cat, t, c.value, io);
        RunsCompose(cat, s, steps, more);
        steps := steps + more;
        RunKeepsInv(cat, s, steps);
      }
    }
  }

  /** These steps are these turns, and every consumer whose turn did not fail is at the head. */
  ghost predicate AreTurns(cat: Catalog, s: Sys, consumers: seq<Consumer>, io: Io, steps: seq<Step>)
    requires AllLive(s, consumers)
  {
    var p := Turns(s, consumers, io);
    && AfterAll(cat, s, steps) == Some(p.s) && Inv(cat, p.s)
    && (forall i :: 0 <= i < |consumers| && consumers[i].name !in p.failed ==>
          Upto(s.log, PositionOf(p.s, consumers[i])) == |s.log|)
  }

  ghost predicate AllCatalogued(cat: Catalog, consumers: seq<Consumer>) {
    forall i :: 0 <= i < |consumers| ==> consumers[i].name in cat && cat[consumers[i].name] == consumers[i]
  }

  lemma TurnsUnfold(s: Sys, consumers: seq<Consumer>, io: Io)
    requires AllLive(s, consumers) && |consumers| > 0
    ensures var c, before := consumers[|consumers| - 1], Turns(s, consumers[..|consumers| - 1], io);
            var t := TurnOf(before.s, c, io);
            Turns(s, consumers, io) == Passed(t.s, if t.ok then before.failed else before.failed + {c.name})
  {
  }

  /**
   Every consumer whose turn did not fail is at the head of the log when the pass ends,
   whatever happened to the others; and the turns are a run of the machine.
   */
  lemma {:induction false} TurnsAreARun(cat: Catalog, s: Sys, consumers: seq<Consumer>, io: Io)
      returns (steps: seq<Step>)
    requires Distinct(consumers) && Inv(cat, s) && s.doing == Nothing && AllLive(s, consumers)
    requires AllCatalogued(cat, consumers)
    ensures AreTurns(cat, s, consumers, io, steps)
  {
    hide *;
    steps := [];
    if |consumers| > 0 {
      LastConsumer(cat, s, consumers);
      steps := TurnsAreARun(cat, s, consumers[..|consumers| - 1], io);
      steps := OneMoreTurn(cat, s, consumers, io, steps);
    } else {
      NoTurns(cat, s, consumers, io);
    }
  }

  lemma NoTurns(cat: Catalog, s: Sys, consumers: seq<Consumer>, io: Io)
    requires consumers == [] && AllLive(s, consumers) && Inv(cat, s)
    ensures AreTurns(cat, s, consumers, io, [])
  {
    hide Inv;
  }

  lemma LastConsumer(cat: Catalog, s: Sys, consumers: seq<Consumer>)
    requires Distinct(consumers) && AllLive(s, consumers) && AllCatalogued(cat, consumers) && |consumers| > 0
    ensures var front, c := consumers[..|consumers| - 1], consumers[|consumers| - 1];
            && Distinct(front) && AllLive(s, front) && AllCatalogued(cat, front)
            && c.name in cat && cat[c.name] == c && c.name in s.states.Keys && c.name in s.heard.Keys
            && forall i :: 0 <= i < |front| ==> consumers[i].name != c.name
  {
  }

  lemma OneMoreTurn(cat: Catalog, s: Sys, consumers: seq<Consumer>, io: Io, steps: seq<Step>) returns (all: seq<Step>)
    requires Distinct(consumers) && AllLive(s, consumers) && AllCatalogued(cat, consumers) && s.doing == Nothing
    requires |consumers| > 0 && AllLive(s, consumers[..|consumers| - 1])
    requires AreTurns(cat, s, consumers[..|consumers| - 1], io, steps)
    ensures AreTurns(cat, s, consumers, io, all)
  {
    hide *;
    var front, c := consumers[..|consumers| - 1], consumers[|consumers| - 1];
    var before := Turns(s, front, io);
    LastConsumer(cat, s, consumers);
    TurnsEnd(cat, s, front, io, steps);
    var more := TurnOfIsARun(cat, before.s, c, io);
    RunsCompose(cat, s, steps, more);
    RunKeepsInv(cat, before.s, more);
    TurnsUnfold(s, consumers, io);
    all := steps + more;
    forall i | 0 <= i < |front|
      ensures PositionOf(Turns(s, consumers, io).s, consumers[i]) == PositionOf(before.s, consumers[i])
    {
      LiveAt(s, consumers, i);
      TurnOfLeavesOthers(before.s, c, io, consumers[i]);
    }
    TurnsJoin(cat, s, consumers, io, all);
  }

  /** The turns before the last leave their consumers at the head, and so does the last. */
  lemma TurnsJoin(cat: Catalog, s: Sys, consumers: seq<Consumer>, io: Io, steps: seq<Step>)
    requires |consumers| > 0 && AllLive(s, consumers) && AllLive(s, consumers[..|consumers| - 1])
    requires var p := Turns(s, consumers, io); AfterAll(cat, s, steps) == Some(p.s) && Inv(cat, p.s)
    requires var n := |consumers| - 1;
             var p, before := Turns(s, consumers, io), Turns(s, consumers[..n], io);
             && (forall i :: 0 <= i < n ==> PositionOf(p.s, consumers[i]) == PositionOf(before.s, consumers[i]))
             && (forall i :: 0 <= i < n && consumers[i].name !in before.failed ==>
                   Upto(s.log, PositionOf(before.s, consumers[i])) == |s.log|)
             && before.failed <= p.failed
             && (consumers[n].name !in p.failed ==> Upto(s.log, PositionOf(p.s, consumers[n])) == |s.log|)
    ensures AreTurns(cat, s, consumers, io, steps)
  {
    hide AfterAll, Inv, Turns, AllLive, PositionOf, Upto;
  }

  lemma LiveAt(s: Sys, consumers: seq<Consumer>, i: nat)
    requires AllLive(s, consumers) && i < |consumers|
    ensures consumers[i].name in s.states.Keys && consumers[i].name in s.heard.Keys
  {
  }

  lemma TurnOfLeavesOthers(s: Sys, c: Consumer, io: Io, other: Consumer)
    requires c.name in s.states && c.name in s.heard
    requires other.name != c.name && other.name in s.states && other.name in s.heard
    ensures PositionOf(TurnOf(s, c, io).s, other) == PositionOf(s, other)
  {
    hide Turn, Upto, PositionOf;
    TurnLeavesOthers(s, c, Upto(s.log, PositionOf(s, c)), 0, io, other);
  }

  lemma TurnOfIsARun(cat: Catalog, s: Sys, c: Consumer, io: Io) returns (steps: seq<Step>)
    requires Inv(cat, s) && s.doing == Nothing && c.name in cat && cat[c.name] == c
    ensures Live(cat, s, c.name)
    ensures var t := TurnOf(s, c, io);
            AfterAll(cat, s, steps) == Some(t.s) && (t.ok ==> Upto(s.log, PositionOf(t.s, c)) == |s.log|)
  {
    ReadyToTurn(cat, s, c);
    steps := [];
    if io.Readable(c.name) {
      steps := TurnIsARun(cat, s, c, Upto(s.log, PositionOf(s, c)), 0, io);
    }
  }

  /** A turn moves no other consumer. */
  lemma {:induction false} TurnLeavesOthers(s: Sys, c: Consumer, i: nat, room: nat, io: Io, other: Consumer)
    requires c.name in s.states && c.name in s.heard && i + room <= |s.log|
    requires other.name != c.name && other.name in s.states && other.name in s.heard
    ensures var t := Turn(s, c, i, room, io).s;
            && PositionOf(t, other) == PositionOf(s, other)
            && other.name in t.states && t.states[other.name] == s.states[other.name]
    decreases |s.log| - i, if room == 0 then 1 else 0
  {
    hide *;
    TurnUnfolds(s, c, i, room, io);
    if room > 0 {
      NextLeavesOthers(s, c, i, io, other);
      if Next(s, c, i, io).ok {
        TurnLeavesOthers(Next(s, c, i, io).s, c, i + 1, room - 1, io, other);
      }
    } else if io.Polls(c.name, PositionOf(s, c)) && i < |s.log| {
      RoomFits(|s.log| - i);
      TurnLeavesOthers(s, c, i, Smaller(BATCH, |s.log| - i), io, other);
    }
  }

  lemma NextLeavesOthers(s: Sys, c: Consumer, i: nat, io: Io, other: Consumer)
    requires c.name in s.states && c.name in s.heard && i < |s.log|
    requires other.name != c.name && other.name in s.states && other.name in s.heard
    ensures var t := Next(s, c, i, io).s;
            && PositionOf(t, other) == PositionOf(s, other)
            && other.name in t.states && t.states[other.name] == s.states[other.name]
            && other.name in t.heard && t.heard[other.name] == s.heard[other.name]
  {
    hide MoveOf, CommitTo, ApplyTo, PositionOf;
    MovesLeaveOthers(s, c, i, MoveOf(c, s.states[c.name], s.log[i], io).state, other);
  }

  lemma PassFacts(s: Sys, consumers: seq<Consumer>, names: seq<string>, io: Io)
    requires Distinct(consumers) && Inv(CatalogOf(consumers), s) && s.doing == Nothing && NoRepeats(names)
             && s.requests == SetOf(names)
    ensures AllLive(s, consumers) && Increasing(s.log)
    ensures var t := Rebuilds(s, consumers, Listed(names, io), io);
            && AllLive(t, consumers) && Increasing(t.log) && t.log == s.log
            && var p := Turns(t, consumers, io);
            && Inv(CatalogOf(consumers), p.s) && p.s.log == s.log && p.s.doing == Nothing
            && forall i :: 0 <= i < |consumers| && consumers[i].name !in p.failed ==>
               Upto(s.log, PositionOf(p.s, consumers[i])) == |s.log|
  {
    hide *;
    AllAreLive(s, consumers);
    var listed := Listed(names, io);
    var t := Rebuilds(s, consumers, listed, io);
    ListedAreAsked(s, names, io);
    var steps := RebuildsAreARun(s, consumers, listed, io);
    AllAreLive(t, consumers);
    var more := TurnsAreARun(CatalogOf(consumers), t, consumers, io);
    TurnsEnd(CatalogOf(consumers), t, consumers, io, more);
  }

  lemma ListedAreAsked(s: Sys, names: seq<string>, io: Io)
    requires NoRepeats(names) && s.requests == SetOf(names)
    ensures Asked(Listed(names, io), s.requests)
  {
  }

  lemma TurnsEnd(cat: Catalog, s: Sys, consumers: seq<Consumer>, io: Io, steps: seq<Step>)
    requires AllLive(s, consumers) && AreTurns(cat, s, consumers, io, steps)
    ensures var p := Turns(s, consumers, io);
            && AfterAll(cat, s, steps) == Some(p.s) && Inv(cat, p.s)
            && forall i :: 0 <= i < |consumers| && consumers[i].name !in p.failed ==>
                 Upto(s.log, PositionOf(p.s, consumers[i])) == |s.log|
  {
    hide AfterAll, Inv, Turns, AllLive;
  }

  lemma AllAreLive(s: Sys, consumers: seq<Consumer>)
    requires Distinct(consumers) && Inv(CatalogOf(consumers), s)
    ensures AllLive(s, consumers) && Increasing(s.log)
    ensures AllCatalogued(CatalogOf(consumers), consumers)
  {
    forall i | 0 <= i < |consumers|
      ensures consumers[i].name in s.states.Keys && consumers[i].name in s.heard.Keys
      ensures consumers[i].name in CatalogOf(consumers) && CatalogOf(consumers)[consumers[i].name] == consumers[i]
    {
      Catalogued(consumers, i);
      ReadyToTurn(CatalogOf(consumers), s, consumers[i]);
    }
  }
}
