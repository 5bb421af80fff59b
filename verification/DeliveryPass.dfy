/**
 What a pass of the consumer engine ends with: each request step by step, and a pass in
 which nothing fails clears every request it can and brings every consumer to the head.
 */
module DeliveryPass {
  import opened Wrappers
  import opened EventLog
  import opened Delivery
  import opened DeliverySafety
  import opened DeliveryEngine
  import opened DeliveryActs

  // ---------------------------------------------------------------------
  // One request
  // ---------------------------------------------------------------------

  /** The position stored for a consumer, where that consumer keeps it. */
  predicate StoredAt(s: Sys, c: Consumer, position: nat) {
    if c.ownsPosition then c.name in s.own && s.own[c.name] == position
    else c.name in s.checkpoints && s.checkpoints[c.name] == position
  }

  predicate SameStores(s: Sys, t: Sys, name: string) {
    && (name in t.own <==> name in s.own) && (name in s.own && name in t.own ==> t.own[name] == s.own[name])
    && (name in t.checkpoints <==> name in s.checkpoints)
    && (name in s.checkpoints && name in t.checkpoints ==> t.checkpoints[name] == s.checkpoints[name])
    && name in s.heard && name in t.heard && t.heard[name] == s.heard[name]
  }

  ghost predicate OthersStay(s: Sys, t: Sys, name: string) {
    && t.log == s.log && (forall n :: n != name ==> (n in t.requests <==> n in s.requests))
    && (forall n :: n in s.states && n != name ==> n in t.states && t.states[n] == s.states[n])
    && forall n :: n in s.heard && n != name ==> SameStores(s, t, n)
  }

  /** Whether a request goes all the way through. */
  predicate RebuildsCleanly(c: Consumer, io: Io) {
    (c.collections ==> io.wipes(c.name) == None && io.resets(c.name) == Fine) && io.takesOff(c.name)
  }

  function AfterWipe(s: Sys, c: Consumer, state: State): Sys {
    s.(states := s.states[c.name := state])
  }

  function AfterReset(s: Sys, c: Consumer): Sys
  {
    SavePosition(s, c, 0).(heard := s.heard[c.name := History(0, [])])
  }

  lemma WipeHolds(s: Sys, c: Consumer, state: State)
    requires c.name in s.states && c.name in s.heard
    ensures var t := AfterWipe(s, c, state);
            && OthersStay(s, t, c.name) && SameStores(s, t, c.name) && t.requests == s.requests
            && c.name in t.states && t.states[c.name] == state
  {
  }

  lemma ResetHolds(s: Sys, c: Consumer)
    requires c.name in s.heard
    ensures var t := AfterReset(s, c);
            && OthersStay(s, t, c.name) && StoredAt(t, c, 0) && t.requests == s.requests && t.states == s.states
            && c.name in t.heard && t.heard[c.name].from == 0 && t.heard[c.name].heard == []
  {
    SaveHolds(s, c);
    hide SavePosition;
  }

  lemma OthersStayThrough(s: Sys, t: Sys, u: Sys, name: string)
    requires OthersStay(s, t, name) && OthersStay(t, u, name) && t.heard.Keys == s.heard.Keys
    ensures OthersStay(s, u, name)
  {
    hide SameStores;
    forall n | n in s.heard && n != name
      ensures SameStores(s, u, n)
    {
      SameStoresThrough(s, t, u, n);
    }
  }

  lemma SameStoresThrough(s: Sys, t: Sys, u: Sys, name: string)
    requires SameStores(s, t, name) && SameStores(t, u, name)
    ensures SameStores(s, u, name)
  {
  }

  lemma TakeOffHolds(s: Sys, c: Consumer)
    ensures OthersStay(s, s, c.name) && OthersStay(s, s.(requests := s.requests - {c.name}), c.name)
  {
  }

  lemma RebuildUnfolds(s: Sys, c: Consumer, io: Io)
    requires c.name in s.states && c.name in s.heard
    ensures var s1 := AfterWipe(s, c, c.empty);
            var s2 := AfterReset(s1, c);
            Rebuild(s, c, io) ==
            if !c.collections then (if io.takesOff(c.name) then s.(requests := s.requests - {c.name}) else s)
            else if io.wipes(c.name).Some? then AfterWipe(s, c, io.wipes(c.name).value)
            else if io.resets(c.name) == Failed(false) then s1
            else if io.resets(c.name) == Failed(true) || !io.takesOff(c.name) then s2
            else s2.(requests := s2.requests - {c.name})
  {
  }

  lemma SaveHolds(s: Sys, c: Consumer)
    ensures var t := SavePosition(s, c, 0);
            && StoredAt(t, c, 0) && t.states == s.states && t.requests == s.requests && t.log == s.log
            && t.heard == s.heard
            && forall n :: n != c.name && n in s.heard ==> SameStores(s, t, n)
  {
  }

  /** A request leaves every other consumer, and every other request, alone. */
  lemma RebuildLeavesOthers(s: Sys, c: Consumer, io: Io)
    requires c.name in s.states && c.name in s.heard
    ensures OthersStay(s, Rebuild(s, c, io), c.name)
  {
    RebuildUnfolds(s, c, io);
    hide Rebuild, AfterReset, OthersStay, StoredAt, SameStores;
    var s1 := AfterWipe(s, c, c.empty);
    var s2 := AfterReset(s1, c);
    WipeHolds(s, c, c.empty);
    if c.collections && io.wipes(c.name).Some? {
      WipeHolds(s, c, io.wipes(c.name).value);
    }
    ResetHolds(s1, c);
    OthersStayThrough(s, s1, s2, c.name);
    TakeOffHolds(s, c);
    TakeOffHolds(s2, c);
    ResetKeepsKeys(s1, c);
    OthersStayThrough(s, s2, s2.(requests := s2.requests - {c.name}), c.name);
  }

  /** A request is taken off exactly when every write of it went through. */
  lemma RequestEndsIff(s: Sys, c: Consumer, io: Io)
    requires c.name in s.states && c.name in s.heard
    ensures c.name in Rebuild(s, c, io).requests <==> c.name in s.requests && !RebuildsCleanly(c, io)
  {
    SaveHolds(s.(states := s.states[c.name := c.empty]), c);
    hide SavePosition;
  }

  lemma ResetKeepsKeys(s: Sys, c: Consumer)
    requires c.name in s.heard
    ensures AfterReset(s, c).heard.Keys == s.heard.Keys
  {
  }

  lemma ResetFollowsWipe(s: Sys, c: Consumer)
    requires c.name in s.states && c.name in s.heard
    ensures var t := AfterReset(AfterWipe(s, c, c.empty), c);
            && StoredAt(t, c, 0) && c.name in t.states && t.states[c.name] == c.empty
            && c.name in t.heard && t.heard[c.name].from == 0 && t.heard[c.name].heard == []
  {
    ResetHolds(AfterWipe(s, c, c.empty), c);
    hide AfterReset;
  }

  /**
   What a request leaves of its consumer. A projection that was wiped and reset is empty, at
   position 0 and with nothing heard, even when the reset was reported failed but landed. A
   wipe that failed leaves the position, and so does a reset that did not land. A consumer
   that is no projection is left alone.
   */
  lemma RebuildHolds(s: Sys, c: Consumer, io: Io)
    requires c.name in s.states && c.name in s.heard
    ensures var t := Rebuild(s, c, io);
            if !c.collections then SameStores(s, t, c.name) && t.states[c.name] == s.states[c.name]
            else if io.wipes(c.name).Some? then
              SameStores(s, t, c.name) && t.states[c.name] == io.wipes(c.name).value
            else if io.resets(c.name) == Failed(false) then
              SameStores(s, t, c.name) && t.states[c.name] == c.empty
            else
              StoredAt(t, c, 0) && t.states[c.name] == c.empty
              && t.heard[c.name].from == 0 && t.heard[c.name].heard == []
  {
    hide Rebuild, AfterWipe, AfterReset, OthersStay;
    RebuildUnfolds(s, c, io);
    WipeHolds(s, c, c.empty);
    if c.collections && io.wipes(c.name).Some? {
      WipeHolds(s, c, io.wipes(c.name).value);
    } else if c.collections {
      ResetFollowsWipe(s, c);
    }
  }

  predicate SomeHasName(consumers: seq<Consumer>, name: string) {
    exists i :: 0 <= i < |consumers| && consumers[i].name == name
  }

  lemma NamedIff(consumers: seq<Consumer>, name: string)
    ensures name in NamesOf(consumers) <==> SomeHasName(consumers, name)
  {
  }

  /** What a request that went through leaves of its consumer. */
  predicate Rebuilt(t: Sys, c: Consumer) {
    && c.name !in t.requests
    && (c.collections ==> c.name in t.states && t.states[c.name] == c.empty && StoredAt(t, c, 0)
                          && c.name in t.heard && t.heard[c.name] == History(0, []))
  }

  predicate LeftAlone(s: Sys, t: Sys, c: Consumer) {
    && c.name in s.states && c.name in t.states && t.states[c.name] == s.states[c.name]
    && SameStores(s, t, c.name) && (c.name in t.requests <==> c.name in s.requests)
  }

  lemma OneRequest(s: Sys, asked: Consumer, io: Io, c: Consumer)
    requires asked.name in s.states && asked.name in s.heard && c.name in s.states && c.name in s.heard
    requires RebuildsCleanly(asked, io) && (asked.name == c.name ==> asked == c)
    ensures var t := Rebuild(s, asked, io);
            if asked == c then Rebuilt(t, c) else LeftAlone(s, t, c)
  {
    hide Rebuild;
    RebuildLeavesOthers(s, asked, io);
    RequestEndsIff(s, asked, io);
    RebuildHolds(s, asked, io);
  }

  lemma AloneThen(s: Sys, t: Sys, u: Sys, c: Consumer)
    requires LeftAlone(t, u, c)
    ensures LeftAlone(s, t, c) ==> LeftAlone(s, u, c)
    ensures Rebuilt(t, c) ==> Rebuilt(u, c)
  {
  }

  lemma AloneAtFirst(s: Sys, c: Consumer)
    requires c.name in s.states && c.name in s.heard
    ensures LeftAlone(s, s, c)
  {
  }

  lemma NamedAlike(consumers: seq<Consumer>, i: nat, name: string)
    requires Distinct(consumers) && i < |consumers|
    ensures Find(consumers, consumers[i].name) == Some(consumers[i])
    ensures Find(consumers, name).Some? ==> Find(consumers, name).value.name == name
    ensures Find(consumers, name).Some? && name == consumers[i].name ==> Find(consumers, name).value == consumers[i]
  {
    Catalogued(consumers, i);
  }

  /**
   The requests of a pass, with nothing failing: a projection they name ends empty, at
   position 0 and with nothing heard, its request taken off; one they do not name is left alone.
   */
  lemma {:induction false} RebuildsClear(s: Sys, consumers: seq<Consumer>, names: seq<string>, io: Io, i: nat)
    requires AllLive(s, consumers) && Distinct(consumers) && i < |consumers|
    requires forall k :: 0 <= k < |consumers| ==> RebuildsCleanly(consumers[k], io)
    ensures var t := Rebuilds(s, consumers, names, io);
            if consumers[i].name in names then Rebuilt(t, consumers[i]) else LeftAlone(s, t, consumers[i])
  {
    hide Rebuild, Find, RebuildsCleanly, Rebuilt, LeftAlone, Distinct;
    var c := consumers[i];
    if |names| == 0 {
      AloneAtFirst(s, c);
    } else {
      var front, name := names[..|names| - 1], names[|names| - 1];
      assert c.name in names <==> c.name in front || c.name == name;
      RebuildsClear(s, consumers, front, io, i);
      NamedAlike(consumers, i, name);
      var found := Find(consumers, name);
      var before := Rebuilds(s, consumers, front, io);
      if found.Some? {
        OneRequest(before, found.value, io, c);
      }
      if found.Some? && name != c.name {
        AloneThen(s, before, Rebuild(before, found.value, io), c);
      }
    }
  }

  /** With nothing failing, the requests left are those for consumers this engine does not run. */
  lemma {:induction false} RequestsLeft(s: Sys, consumers: seq<Consumer>, names: seq<string>, io: Io, name: string)
    requires AllLive(s, consumers)
    requires forall k :: 0 <= k < |consumers| ==> RebuildsCleanly(consumers[k], io)
    ensures name in Rebuilds(s, consumers, names, io).requests <==>
            name in s.requests && (name in names ==> !SomeHasName(consumers, name))
  {
    hide Rebuild, Find, RebuildsCleanly, SomeHasName;
    if |names| > 0 {
      var front, last := names[..|names| - 1], names[|names| - 1];
      assert name in names <==> name in front || name == last;
      RequestsLeft(s, consumers, front, io, name);
      NamedIff(consumers, last);
      var found := Find(consumers, last);
      var before := Rebuilds(s, consumers, front, io);
      if found.Some? {
        RebuildLeavesOthers(before, found.value, io);
        RequestEndsIff(before, found.value, io);
      }
    }
  }

  // ---------------------------------------------------------------------
  // One consumer's turn
  // ---------------------------------------------------------------------

  predicate StoresMoved(s: Sys, t: Sys, c: Consumer, position: nat) {
    if c.ownsPosition then t.own == s.own[c.name := position] && t.checkpoints == s.checkpoints
    else t.checkpoints == s.checkpoints[c.name := position] && t.own == s.own
  }

  lemma AppliedHolds(s: Sys, c: Consumer, i: nat, state: State)
    requires c.name in s.heard && i < |s.log|
    ensures var t := ApplyTo(s, c, i, state);
            && c.name in t.states && t.states[c.name] == state && HeardOnce(s, t, c, i) && OthersKeep(s, t, c.name)
            && t.own == s.own && t.checkpoints == s.checkpoints
  {
  }

  lemma SavedHolds(s: Sys, c: Consumer, position: nat)
    ensures var t := SavePosition(s, c, position);
            && t.states == s.states && t.heard == s.heard && t.log == s.log && t.requests == s.requests
            && StoresMoved(s, t, c, position)
  {
  }

  lemma StoresMovedKeep(s: Sys, t: Sys, u: Sys, c: Consumer, position: nat)
    requires OthersKeep(s, t, c.name) && t.own == s.own && t.checkpoints == s.checkpoints
    requires StoresMoved(t, u, c, position) && u.states == t.states && u.heard == t.heard
             && u.log == t.log && u.requests == t.requests
    ensures OthersKeep(s, u, c.name) && StoresMoved(s, u, c, position)
  {
  }

  lemma SameHeard(s: Sys, t: Sys, u: Sys, c: Consumer, i: nat)
    requires HeardOnce(s, t, c, i) && u.heard == t.heard
    ensures HeardOnce(s, u, c, i)
  {
  }

  lemma CommittedHolds(s: Sys, c: Consumer, i: nat, state: State)
    requires c.name in s.heard && i < |s.log|
    ensures var t := CommitTo(s, c, i, state);
            && c.name in t.states && t.states[c.name] == state && HeardOnce(s, t, c, i) && OthersKeep(s, t, c.name)
            && StoresMoved(s, t, c, s.log[i].position)
  {
    var t := ApplyTo(s, c, i, state);
    AppliedHolds(s, c, i, state);
    hide ApplyTo, SavePosition, HeardOnce, OthersKeep, StoresMoved;
    SavedHolds(t, c, s.log[i].position);
    StoresMovedKeep(s, t, SavePosition(t, c, s.log[i].position), c, s.log[i].position);
    SameHeard(s, t, SavePosition(t, c, s.log[i].position), c, i);
  }

  lemma ActHolds(c: Consumer, before: State, e: Event)
    ensures DeliveredInto(c, before, e, Act(c, before, e))
  {
  }

  /** A commit in a turn: refused or failed, it leaves nothing; landed, the state and the position, reported or not. */
  lemma CommitInTurn(s: Sys, c: Consumer, i: nat, io: Io)
    requires c.name in s.states && c.name in s.heard && i < |s.log| && c.commits
    ensures var e, t := s.log[i], Next(s, c, i, io);
            var r, fate := c.commit(s.states[c.name], e), io.delivers(c.name, e.position);
            if r.None? || fate == Failed(false) then t.s == s && !t.ok
            else
              && c.name in t.s.states && t.s.states[c.name] == r.value && HeardOnce(s, t.s, c, i)
              && StoresMoved(s, t.s, c, e.position) && OthersKeep(s, t.s, c.name) && (t.ok <==> fate == Fine)
  {
    hide Act, Upto, CommitTo, ApplyTo, HeardOnce, OthersKeep, StoresMoved;
    var m := MoveOf(c, s.states[c.name], s.log[i], io);
    CommittedHolds(s, c, i, m.state);
  }

  /**
   A delivery to any other consumer: what landed is in its state, and its checkpoint moves
   only behind a delivery that was reported fine, when the save lands.
   */
  lemma ApplyInTurn(s: Sys, c: Consumer, i: nat, io: Io)
    requires c.name in s.states && c.name in s.heard && i < |s.log| && !c.commits
    ensures var e, t := s.log[i], Next(s, c, i, io);
            var fate, saved := io.delivers(c.name, e.position), io.saves(c.name, e.position);
            && c.name in t.s.states && HeardOnce(s, t.s, c, i) && OthersKeep(s, t.s, c.name)
            && (if fate == Failed(false) then t.s.states[c.name] == s.states[c.name]
                else DeliveredInto(c, s.states[c.name], e, t.s.states[c.name]))
            && (if fate == Fine && saved != Failed(false) then StoresMoved(s, t.s, c, e.position)
                else t.s.own == s.own && t.s.checkpoints == s.checkpoints)
            && (t.ok <==> fate == Fine && saved == Fine)
  {
    hide Act, Upto, CommitTo, ApplyTo, HeardOnce, OthersKeep, StoresMoved, DeliveredInto;
    var m := MoveOf(c, s.states[c.name], s.log[i], io);
    ActHolds(c, s.states[c.name], s.log[i]);
    CommittedHolds(s, c, i, m.state);
    AppliedHolds(s, c, i, m.state);
  }

  /** A turn reads its position, then polls a hundred events at a time, and stops at a read that fails. */
  lemma TurnPollsByHundreds(s: Sys, c: Consumer, i: nat, io: Io)
    requires c.name in s.states && c.name in s.heard && i <= |s.log|
    ensures !io.readable(c.name) ==> TurnOf(s, c, io).s == s && !TurnOf(s, c, io).ok
    ensures !io.polls(c.name, PositionOf(s, c)) ==> Turn(s, c, i, 0, io) == Turned(s, false)
    ensures io.polls(c.name, PositionOf(s, c)) && i == |s.log| ==> Turn(s, c, i, 0, io) == Turned(s, true)
    ensures io.polls(c.name, PositionOf(s, c)) && i < |s.log| ==>
              Turn(s, c, i, 0, io) == Turn(s, c, i, if |s.log| - i < 100 then |s.log| - i else 100, io)
  {
    TurnUnfolds(s, c, i, 0, io);
    hide Turn, Upto, PositionOf;
  }

  /** Every read and write of a consumer's turn goes through. */
  ghost predicate Quiet(c: Consumer, io: Io) {
    && io.Readable(c.name)
    && forall position: nat ::
         io.Polls(c.name, position) && io.Delivers(c.name, position) == Fine && io.Saves(c.name, position) == Fine
  }

  /** A projection does not throw on the events from i on. */
  predicate Accepts(c: Consumer, state: State, log: seq<Event>, i: nat)
    requires i <= |log|
    decreases |log| - i
  {
    i == |log|
    || (c.commit(state, log[i]).Some? && Accepts(c, c.commit(state, log[i]).value, log, i + 1))
  }

  lemma NextGoesThrough(s: Sys, c: Consumer, i: nat, io: Io)
    requires c.name in s.states && c.name in s.heard && i < |s.log| && Quiet(c, io)
    ensures var t := Next(s, c, i, io);
            && (c.commits ==> (t.ok <==> c.commit(s.states[c.name], s.log[i]).Some?))
            && (c.commits && t.ok ==> c.commit(s.states[c.name], s.log[i]) == Some(t.s.states[c.name]))
            && (!c.commits ==> t.ok)
  {
    hide HowDelivered, Act;
    var fate := io.Delivers(c.name, s.log[i].position);
    var saved := io.Saves(c.name, s.log[i].position);
  }

  /** A turn of a consumer whose reads and writes go through ends well, unless a projection throws on the way. */
  lemma {:induction false} TurnGoesThrough(s: Sys, c: Consumer, i: nat, room: nat, io: Io)
    requires c.name in s.states && c.name in s.heard && i + room <= |s.log| && Quiet(c, io)
    ensures Turn(s, c, i, room, io).ok <==> (c.commits ==> Accepts(c, s.states[c.name], s.log, i))
    decreases |s.log| - i, if room == 0 then 1 else 0
  {
    hide Turn, Next, PositionOf;
    TurnUnfolds(s, c, i, room, io);
    if room > 0 {
      NextGoesThrough(s, c, i, io);
      if Next(s, c, i, io).ok {
        TurnGoesThrough(Next(s, c, i, io).s, c, i + 1, room - 1, io);
      }
    } else if i < |s.log| {
      RoomFits(|s.log| - i);
      TurnGoesThrough(s, c, i, Smaller(BATCH, |s.log| - i), io);
    }
  }

  /** A projection the single pass does not throw on accepts what is left of the log. */
  lemma {:induction false} FoldAccepts(c: Consumer, log: seq<Event>, i: nat, state: State)
    requires c.commits && i <= |log| && FoldTo(c, log, i) == Some(state) && FoldTo(c, log, |log|).Some?
    ensures Accepts(c, state, log, i)
    decreases |log| - i
  {
    if i < |log| {
      FoldStepHolds(c, log, i);
      FoldStops(c, log, i + 1, |log|);
      FoldAccepts(c, log, i + 1, FoldTo(c, log, i + 1).value);
    }
  }

  lemma {:induction false} FoldStops(c: Consumer, log: seq<Event>, i: nat, n: nat)
    requires i <= n <= |log| && FoldTo(c, log, n).Some?
    ensures FoldTo(c, log, i).Some?
  {
    if i < n {
      FoldStops(c, log, i, n - 1);
    }
  }

  // ---------------------------------------------------------------------
  // A pass in which nothing fails
  // ---------------------------------------------------------------------

  /** Turns take no request off. */
  lemma {:induction false} TurnKeepsRequests(s: Sys, c: Consumer, i: nat, room: nat, io: Io)
    requires c.name in s.states && c.name in s.heard && i + room <= |s.log|
    ensures Turn(s, c, i, room, io).s.requests == s.requests
    decreases |s.log| - i, if room == 0 then 1 else 0
  {
    hide Turn, Next, PositionOf;
    TurnUnfolds(s, c, i, room, io);
    if room > 0 {
      NextKeepsRequests(s, c, i, io);
      if Next(s, c, i, io).ok {
        TurnKeepsRequests(Next(s, c, i, io).s, c, i + 1, room - 1, io);
      }
    } else if io.Polls(c.name, PositionOf(s, c)) && i < |s.log| {
      RoomFits(|s.log| - i);
      TurnKeepsRequests(s, c, i, Smaller(BATCH, |s.log| - i), io);
    }
  }

  lemma NextKeepsRequests(s: Sys, c: Consumer, i: nat, io: Io)
    requires c.name in s.states && c.name in s.heard && i < |s.log|
    ensures Next(s, c, i, io).s.requests == s.requests
  {
    hide MoveOf, HowDelivered;
  }

  lemma {:induction false} TurnsKeepRequests(s: Sys, consumers: seq<Consumer>, io: Io)
    requires AllLive(s, consumers)
    ensures Turns(s, consumers, io).s.requests == s.requests
  {
    hide Turns, Turn, Upto, PositionOf;
    if |consumers| > 0 {
      TurnsUnfold(s, consumers, io);
      var front, c := consumers[..|consumers| - 1], consumers[|consumers| - 1];
      TurnsKeepRequests(s, front, io);
      var before := Turns(s, front, io).s;
      TurnKeepsRequests(before, c, Upto(before.log, PositionOf(before, c)), 0, io);
    } else {
      NoTurnsTaken(s, io);
    }
  }

  lemma NoTurnsTaken(s: Sys, io: Io)
    ensures Turns(s, [], io) == Passed(s, {})
  {
  }

  /** No projection among them throws on the log. */
  ghost predicate NoneThrows(consumers: seq<Consumer>, log: seq<Event>) {
    forall i :: 0 <= i < |consumers| && consumers[i].commits ==> FoldTo(consumers[i], log, |log|).Some?
  }

  ghost predicate AllQuiet(consumers: seq<Consumer>, io: Io) {
    forall i :: 0 <= i < |consumers| ==> Quiet(consumers[i], io)
  }

  /** A settled projection stands on the single pass, so its turn goes through when nothing fails. */
  lemma SettledTurn(cat: Catalog, s: Sys, c: Consumer, io: Io)
    requires Inv(cat, s) && c.name in cat && cat[c.name] == c && Live(cat, s, c.name)
    requires Quiet(c, io) && c.name !in s.requests && (c.commits ==> FoldTo(c, s.log, |s.log|).Some?)
    ensures TurnOf(s, c, io).ok
  {
    hide Turn, Quiet, FoldTo, Upto, PositionOf, LogOfPositions, HeardOk;
    assert ConsumerOk(cat, s, c.name);
    var i := Upto(s.log, PositionOf(s, c));
    TurnGoesThrough(s, c, i, 0, io);
    if c.commits {
      FoldAccepts(c, s.log, i, s.states[c.name]);
    }
    QuietReads(c, io);
  }

  lemma QuietReads(c: Consumer, io: Io)
    requires Quiet(c, io)
    ensures io.Readable(c.name)
  {
  }

  lemma {:induction false} QuietTurns(cat: Catalog, s: Sys, consumers: seq<Consumer>, io: Io)
    requires Distinct(consumers) && Inv(cat, s) && s.doing == Nothing && AllLive(s, consumers)
    requires AllCatalogued(cat, consumers) && AllQuiet(consumers, io) && NoneThrows(consumers, s.log)
    requires forall i :: 0 <= i < |consumers| ==> consumers[i].name !in s.requests
    ensures Turns(s, consumers, io).failed == {}
  {
    hide Turns, Inv, TurnOf, Quiet, FoldTo, AllCatalogued, AllLive, Distinct;
    if |consumers| > 0 {
      var front, c := consumers[..|consumers| - 1], consumers[|consumers| - 1];
      LastConsumer(cat, s, consumers);
      QuietTurns(cat, s, front, io);
      TurnsUnfold(s, consumers, io);
      var steps := TurnsAreARun(cat, s, front, io);
      TurnsEnd(cat, s, front, io, steps);
      TurnsKeepRequests(s, front, io);
      ReadyToTurn(cat, Turns(s, front, io).s, c);
      SettledTurn(cat, Turns(s, front, io).s, c, io);
    } else {
      NoTurnsTaken(s, io);
    }
  }

  /** What a pass may begin from. */
  ghost predicate PassReady(s: Sys, consumers: seq<Consumer>, names: seq<string>) {
    Distinct(consumers) && Inv(CatalogOf(consumers), s) && s.doing == Nothing && NoRepeats(names)
    && s.requests == SetOf(names)
  }

  lemma AskedIsListed(s: Sys, consumers: seq<Consumer>, names: seq<string>, name: string)
    requires PassReady(s, consumers, names)
    ensures name in s.requests <==> name in names
  {
  }

  lemma PassBegins(s: Sys, consumers: seq<Consumer>, names: seq<string>)
    requires PassReady(s, consumers, names)
    ensures AllLive(s, consumers) && AllCatalogued(CatalogOf(consumers), consumers) && Asked(names, s.requests)
    ensures Distinct(consumers) && Inv(CatalogOf(consumers), s) && s.doing == Nothing
  {
    AllAreLive(s, consumers);
  }

  /**
   A pass in which nothing fails, and no projection throws: no turn fails; the requests left
   are those for consumers this engine does not run; and every consumer is at the head,
   holding the single pass of the whole log (if a delivery to it may be repeated or it commits).
   */
  lemma CleanPass(s: Sys, consumers: seq<Consumer>, names: seq<string>, io: Io)
    requires PassReady(s, consumers, names) && AllQuiet(consumers, io) && NoneThrows(consumers, s.log)
    requires !io.unlisted && forall k :: 0 <= k < |consumers| ==> RebuildsCleanly(consumers[k], io)
    ensures AllLive(s, consumers)
    ensures var p := Turns(Rebuilds(s, consumers, Listed(names, io), io), consumers, io);
            && p.failed == {}
            && (forall n :: n in p.s.requests <==> n in s.requests && !SomeHasName(consumers, n))
            && forall i :: 0 <= i < |consumers| ==> CaughtUp(consumers[i], p.s)
  {
    hide *;
    PassBegins(s, consumers, names);
    ListsAll(names, io);
    var cat, t := CatalogOf(consumers), Rebuilds(s, consumers, names, io);
    var steps := RebuildsAreARun(s, consumers, names, io);
    AllAreLive(t, consumers);
    RequestsCleared(s, consumers, names, io);
    QuietTurns(cat, t, consumers, io);
    TurnsKeepRequests(t, consumers, io);
    var more := TurnsAreARun(cat, t, consumers, io);
    TurnsEnd(cat, t, consumers, io, more);
    forall i | 0 <= i < |consumers|
      ensures CaughtUp(consumers[i], Turns(t, consumers, io).s)
    {
      CataloguedAt(cat, consumers, i);
      TurnedToTheHead(cat, t, consumers[i], Turns(t, consumers, io).s, more);
    }
  }

  lemma CataloguedAt(cat: Catalog, consumers: seq<Consumer>, i: nat)
    requires AllCatalogued(cat, consumers) && i < |consumers|
    ensures consumers[i].name in cat && cat[consumers[i].name] == consumers[i]
  {
  }

  lemma ListsAll(names: seq<string>, io: Io)
    requires !io.unlisted
    ensures Listed(names, io) == names
  {
  }

  lemma RequestsCleared(s: Sys, consumers: seq<Consumer>, names: seq<string>, io: Io)
    requires PassReady(s, consumers, names) && AllLive(s, consumers)
    requires forall k :: 0 <= k < |consumers| ==> RebuildsCleanly(consumers[k], io)
    ensures var t := Rebuilds(s, consumers, names, io);
            && (forall n :: n in t.requests <==> n in s.requests && !SomeHasName(consumers, n))
            && forall i :: 0 <= i < |consumers| ==> consumers[i].name !in t.requests
  {
    hide Rebuilds, PassReady, RebuildsCleanly, AllLive;
    var t := Rebuilds(s, consumers, names, io);
    forall n
      ensures n in t.requests <==> n in s.requests && !SomeHasName(consumers, n)
    {
      RequestsLeft(s, consumers, names, io, n);
      AskedIsListed(s, consumers, names, n);
    }
    assert forall i :: 0 <= i < |consumers| ==> SomeHasName(consumers, consumers[i].name);
  }

  /** At the head of the log, on the single pass over all of it. */
  ghost predicate CaughtUp(c: Consumer, s: Sys) {
    && c.name in s.states && (forall k :: 0 <= k < |s.log| ==> s.log[k].position <= PositionOf(s, c))
    && (c.commits || Idempotent(c) ==> FoldTo(c, s.log, |s.log|) == Some(s.states[c.name]))
  }

  lemma TurnedToTheHead(cat: Catalog, t: Sys, c: Consumer, u: Sys, steps: seq<Step>)
    requires Inv(cat, t) && AfterAll(cat, t, steps) == Some(u) && c.name in cat && cat[c.name] == c
    requires Inv(cat, u) && c.name !in u.requests && Upto(u.log, PositionOf(u, c)) == |u.log|
    ensures CaughtUp(c, u)
  {
    hide AfterAll, Upto, PositionOf, Idempotent, FoldTo;
    ReadyToTurn(cat, u, c);
    UptoSplits(u.log, PositionOf(u, c));
    if c.commits || Idempotent(c) {
      CaughtUpIsTheSinglePass(cat, t, steps, c.name);
    }
  }
}
