/**
 Deciding a command: load the stream, fold it, decide, merge the caller's metadata onto
 what was produced, and report the sequence it was decided against. Deciders are
 uninterpreted deterministic functions; a state is the text of a JSON value.
 */
module Deciding {
  import opened Wrappers
  import opened EventLog
  import opened EventStore

  type State = string

  const NOW := "now"

  datatype Command = Command(name: string, payload: string)

  /**
   What decide answers: events, a verdict against the command, no verdict at all, or that it
   read something sealed.
   */
  datatype Answer = Produced(events: seq<NewEvent>) | Refused(message: string) | Faulted(message: string) | Sealed

  /** What reveal opens: the state and the command to decide again with. */
  datatype Opened = Opened(state: State, command: Command)

  /**
   A decider with the hooks it may carry: reveal for personal data still sealed, protect for
   the events of a stream before they are written, encode for a typed payload.
   */
  datatype Decider = Decider(
    initialState: State,
    decideFn: (Command, State, Metadata) -> Answer,
    evolveFn: (State, Event) -> Option<State>,
    commands: seq<string>,
    revealFn: Option<(State, Command) -> Option<Opened>>,
    protectFn: Option<(string, seq<NewEvent>) -> Option<seq<NewEvent>>>,
    encodeFn: NewEvent -> Option<string>
  ) {
    function Decide(cmd: Command, state: State, meta: Metadata): Answer {
      decideFn(cmd, state, meta)
    }

    function Evolve(state: State, e: Event): Option<State> {
      evolveFn(state, e)
    }

    function Reveal(state: State, cmd: Command): Option<Opened> {
      if revealFn.None? then None else revealFn.value(state, cmd)
    }

    function Protect(id: string, evts: seq<NewEvent>): Option<seq<NewEvent>> {
      if protectFn.None? || |evts| == 0 then Some(evts) else protectFn.value(id, evts)
    }

    function Encode(e: NewEvent): Option<string> {
      encodeFn(e)
    }

    /** decide, and once more on what reveal opened if it read something sealed. */
    function Judge(cmd: Command, state: State, meta: Metadata): Result<Answer, Error> {
      var first := Decide(cmd, state, meta);
      if !first.Sealed? || revealFn.None? then Success(first)
      else
        match Reveal(state, cmd)
        case None => Failure(RevealFailed)
        case Some(clear) => Success(Decide(clear.command, clear.state, meta))
    }

    /** The events decided for a stream, protected and encoded; or why there are none. */
    function Outcome(id: string, cmd: Command, state: State, meta: Metadata): Result<seq<NewEvent>, Error> {
      var judged := Judge(cmd, state, meta);
      if judged.Failure? then Failure(judged.error)
      else
        match judged.value
        case Refused(message) => Failure(Rejection(message))
        case Faulted(message) => Failure(DecideFault(message))
        case Sealed => Failure(DecideFault("reveal required"))
        case Produced(evts) => Prepare(id, evts)
    }

    /** What was produced, protected and encoded. */
    function Prepare(id: string, evts: seq<NewEvent>): Result<seq<NewEvent>, Error> {
      var shielded := Protect(id, evts);
      if shielded.None? then Failure(ProtectFailed)
      else
        var encoded := Encoded(this, shielded.value);
        if encoded.None? then Failure(EncodeFailed) else Success(encoded.value)
    }
  }

  /** Every event with its payload encoded; None when one cannot be. */
  function Encoded(d: Decider, evts: seq<NewEvent>): (out: Option<seq<NewEvent>>)
    ensures out.Some? ==> |out.value| == |evts|
  {
    if |evts| == 0 then Some([])
    else
      var n := |evts| - 1;
      var before, data := Encoded(d, evts[..n]), d.Encode(evts[n]);
      if before.None? || data.None? then None else Some(before.value + [evts[n].(data := data.value)])
  }

  /** A decider without hooks whose events carry their data already. */
  function Plain(initial: State, decide: (Command, State, Metadata) -> Answer,
                 evolve: (State, Event) -> Option<State>): Decider
  {
    Decider(initial, decide, evolve, [], None, None, (e: NewEvent) => Some(e.data))
  }

  lemma {:induction false} PlainEncodes(d: Decider, evts: seq<NewEvent>)
    requires forall e: NewEvent :: d.Encode(e) == Some(e.data)
    ensures Encoded(d, evts) == Some(evts)
  {
    if |evts| > 0 {
      var n := |evts| - 1;
      PlainEncodes(d, evts[..n]);
      assert evts[n].(data := evts[n].data) == evts[n];
      assert evts == evts[..n] + [evts[n]];
    }
  }

  lemma PlainOutcome(initial: State, decide: (Command, State, Metadata) -> Answer,
                     evolve: (State, Event) -> Option<State>,
                     id: string, cmd: Command, state: State, meta: Metadata)
    ensures var d, answer := Plain(initial, decide, evolve), decide(cmd, state, meta);
            && (answer.Produced? ==> d.Outcome(id, cmd, state, meta) == Success(answer.events))
            && (answer.Refused? ==> d.Outcome(id, cmd, state, meta) == Failure(Rejection(answer.message)))
  {
    var d := Plain(initial, decide, evolve);
    assert d.Decide(cmd, state, meta) == decide(cmd, state, meta);
    if d.Decide(cmd, state, meta).Produced? {
      assert forall e: NewEvent :: d.Encode(e) == Some(e.data);
      PlainEncodes(d, d.Decide(cmd, state, meta).events);
    }
  }

  type Deciders = map<string, Decider>

  /** The events a command decided and the length of the stream it was decided against. */
  datatype Decision = Decision(newEvents: seq<NewEvent>, expected: nat)

  function Fold(d: Decider, stream: seq<Event>): Option<State> {
    if |stream| == 0 then Some(d.initialState)
    else
      var before := Fold(d, stream[..|stream| - 1]);
      if before.None? then None else d.Evolve(before.value, stream[|stream| - 1])
  }

  function WithNow(meta: Metadata, now: string): Metadata {
    if NOW in meta then meta else meta[NOW := now]
  }

  /** mergeMeta over every produced event: the caller's keys win. */
  function Merged(evts: seq<NewEvent>, meta: Metadata): (out: seq<NewEvent>)
    ensures |out| == |evts|
  {
    seq(|evts|, i requires 0 <= i < |evts| => evts[i].(metadata := evts[i].metadata + meta))
  }

  function DecideOn(reg: Deciders, stream: Option<seq<Event>>, key: StreamKey, cmd: Command, meta: Metadata):
    Result<Decision, Error>
  {
    if key.0 !in reg then Failure(UnknownAggregate)
    else if stream.None? then Failure(LoadFailed)
    else
      var state := Fold(reg[key.0], stream.value);
      if state.None? then Failure(EvolveFailed)
      else
        match reg[key.0].Outcome(key.1, cmd, state.value, meta)
        case Success(evts) => Success(Decision(Merged(evts, meta), |stream.value|))
        case Failure(error) => Failure(error)
  }

  /** The durable stream as readers see it: sequence order, upcast. */
  function Load(log: seq<Event>, u: Option<Upcaster>, key: StreamKey): Option<seq<Event>> {
    UpcastAll(u, LoadRows(log, key))
  }

  type Outcome = Result<seq<Event>, Error>

  datatype Handled = Handled(log: seq<Event>, outcome: Outcome)

  /** HandleWithMeta as a function of the table: decide against the store, then append. */
  function HandleOn(env: Env, reg: Deciders, u: Option<Upcaster>, log: seq<Event>, key: StreamKey, cmd: Command,
                    meta: Metadata):
    Handled
  {
    var decision := DecideOn(reg, Load(log, u, key), key, cmd, meta);
    if decision.Failure? then Handled(log, Failure(decision.error))
    else
      var after := AppendTo(env, log, key, decision.value.expected, decision.value.newEvents);
      if after.Failure? then Handled(log, Failure(after.error))
      else Handled(after.value, Success(after.value[|log|..]))
  }

  // ---------------------------------------------------------------------
  // What a decision holds, and why there is none
  // ---------------------------------------------------------------------

  /** A fold is the last of the states evolve leads through, from the initial one on. */
  lemma {:induction false} FoldIsTheLastState(d: Decider, stream: seq<Event>) returns (states: seq<State>)
    requires Fold(d, stream).Some?
    ensures |states| == |stream| + 1 && states[0] == d.initialState && Fold(d, stream) == Some(states[|stream|])
    ensures forall i :: 0 <= i < |stream| ==> d.evolveFn(states[i], stream[i]) == Some(states[i + 1])
  {
    if |stream| == 0 {
      states := [d.initialState];
    } else {
      var n := |stream| - 1;
      var front := FoldIsTheLastState(d, stream[..n]);
      states := front + [Fold(d, stream).value];
      assert d.Evolve(front[n], stream[n]) == d.evolveFn(front[n], stream[n]);
    }
  }

  /** And it fails on the first event that cannot be evolved. */
  lemma {:induction false} FoldFailsSomewhere(d: Decider, stream: seq<Event>) returns (i: nat)
    requires Fold(d, stream).None?
    ensures i < |stream| && Fold(d, stream[..i]).Some? && d.evolveFn(Fold(d, stream[..i]).value, stream[i]).None?
  {
    var n := |stream| - 1;
    if Fold(d, stream[..n]).None? {
      i := FoldFailsSomewhere(d, stream[..n]);
      assert stream[..n][..i] == stream[..i];
    } else {
      i := n;
      assert d.Evolve(Fold(d, stream[..n]).value, stream[n]) == d.evolveFn(Fold(d, stream[..n]).value, stream[n]);
    }
  }

  /** The last answer decide gives: the first one, or the one on what reveal opened; None when reveal fails. */
  ghost predicate LastAnswer(d: Decider, cmd: Command, state: State, meta: Metadata, answer: Option<Answer>) {
    var first := d.decideFn(cmd, state, meta);
    if first != Sealed || d.revealFn.None? then answer == Some(first)
    else
      var clear := d.revealFn.value(state, cmd);
      answer == if clear.None? then None else Some(d.decideFn(clear.value.command, clear.value.state, meta))
  }

  /** protect's events for the stream, when there is a protector and anything to protect. */
  ghost predicate Shields(d: Decider, id: string, evts: seq<NewEvent>, shielded: Option<seq<NewEvent>>) {
    shielded == if d.protectFn.None? || |evts| == 0 then Some(evts) else d.protectFn.value(id, evts)
  }

  lemma {:induction false} EncodedHolds(d: Decider, evts: seq<NewEvent>)
    ensures Encoded(d, evts).None? <==> exists i :: 0 <= i < |evts| && d.encodeFn(evts[i]).None?
    ensures Encoded(d, evts).Some? ==>
              var out := Encoded(d, evts).value;
              |out| == |evts| && forall i :: 0 <= i < |evts| ==>
                && d.encodeFn(evts[i]) == Some(out[i].data) && out[i].kind == evts[i].kind
                && out[i].version == evts[i].version && out[i].metadata == evts[i].metadata
  {
    if |evts| > 0 {
      var n := |evts| - 1;
      EncodedHolds(d, evts[..n]);
      assert d.Encode(evts[n]) == d.encodeFn(evts[n]);
      if i :| 0 <= i < n && d.encodeFn(evts[..n][i]).None? {
        assert d.encodeFn(evts[i]).None?;
      }
    }
  }

  /**
   A decision holds what its decider produced for the command: the protected events, in
   order, each with its own kind and version, its data encoded, the caller's metadata on it
   key by key, and what else it had of its own. It expects as many events as it folded.
   */
  lemma DecisionHolds(reg: Deciders, stream: Option<seq<Event>>, key: StreamKey, cmd: Command, meta: Metadata)
      returns (state: State, produced: seq<NewEvent>, shielded: seq<NewEvent>)
    requires DecideOn(reg, stream, key, cmd, meta).Success?
    ensures key.0 in reg && stream.Some? && Fold(reg[key.0], stream.value) == Some(state)
    ensures LastAnswer(reg[key.0], cmd, state, meta, Some(Produced(produced)))
    ensures Shields(reg[key.0], key.1, produced, Some(shielded))
    ensures var d := DecideOn(reg, stream, key, cmd, meta).value;
            && d.expected == |stream.value| && |d.newEvents| == |shielded|
            && forall i :: 0 <= i < |shielded| ==>
                 var ne, own := d.newEvents[i], shielded[i];
                 && ne.kind == own.kind && ne.version == own.version && reg[key.0].encodeFn(own) == Some(ne.data)
                 && (forall k :: k in meta ==> k in ne.metadata && ne.metadata[k] == meta[k])
                 && (forall k :: k !in meta ==> (k in ne.metadata <==> k in own.metadata))
                 && (forall k :: k !in meta && k in own.metadata ==> ne.metadata[k] == own.metadata[k])
  {
    var d := reg[key.0];
    state := Fold(d, stream.value).value;
    var answer := JudgedIsLastAnswer(d, cmd, state, meta);
    produced := answer.value.events;
    shielded := d.Protect(key.1, produced).value;
    EncodedHolds(d, shielded);
    hide Fold, Encoded;
  }

  lemma JudgedIsLastAnswer(d: Decider, cmd: Command, state: State, meta: Metadata) returns (answer: Option<Answer>)
    ensures LastAnswer(d, cmd, state, meta, answer)
    ensures d.Judge(cmd, state, meta) == if answer.None? then Failure(RevealFailed) else Success(answer.value)
  {
    var judged := d.Judge(cmd, state, meta);
    answer := if judged.Success? then Some(judged.value) else None;
    assert d.Decide(cmd, state, meta) == d.decideFn(cmd, state, meta);
  }

  /** The states a stream is folded through. */
  predicate FoldsThrough(d: Decider, stream: seq<Event>, states: seq<State>) {
    && |states| == |stream| + 1 && states[0] == d.initialState
    && forall i, j :: 0 <= i < |stream| && j == i + 1 ==> d.evolveFn(states[i], stream[i]) == Some(states[j])
  }

  /** The event own, encoded, with the caller's metadata on it key by key. */
  predicate MergedOnto(d: Decider, own: NewEvent, meta: Metadata, ne: NewEvent) {
    && ne.kind == own.kind && ne.version == own.version && d.encodeFn(own) == Some(ne.data)
    && (forall k :: k in meta ==> k in ne.metadata && ne.metadata[k] == meta[k])
    && (forall k :: k in ne.metadata && k !in meta ==> k in own.metadata && ne.metadata[k] == own.metadata[k])
    && forall k :: k in own.metadata && k !in meta ==> k in ne.metadata
  }

  /** A decision made on these states and of these events. */
  ghost predicate DecidedBy(d: Decider, stream: seq<Event>, id: string, cmd: Command, meta: Metadata,
                            states: seq<State>, produced: seq<NewEvent>, shielded: seq<NewEvent>, r: Decision)
  {
    && FoldsThrough(d, stream, states) && r.expected == |stream|
    && LastAnswer(d, cmd, states[|stream|], meta, Some(Produced(produced)))
    && Shields(d, id, produced, Some(shielded))
    && |r.newEvents| == |shielded|
    && forall i :: 0 <= i < |shielded| ==> MergedOnto(d, shielded[i], meta, r.newEvents[i])
  }

  ghost predicate Decided(d: Decider, stream: seq<Event>, id: string, cmd: Command, meta: Metadata, r: Decision) {
    exists states, produced, shielded :: DecidedBy(d, stream, id, cmd, meta, states, produced, shielded, r)
  }

  /** The metadata decided with: the caller's, and the time where the caller gave none. */
  predicate TimeAdded(meta: Metadata, now: string, stamped: Metadata) {
    && "now" in stamped && (forall k :: k in meta ==> k in stamped && stamped[k] == meta[k])
    && (forall k :: k in stamped && k != "now" ==> k in meta)
    && ("now" !in meta ==> stamped["now"] == now)
  }

  lemma WithNowHolds(meta: Metadata, now: string)
    ensures TimeAdded(meta, now, WithNow(meta, now))
  {
  }

  lemma DecisionIsDecided(reg: Deciders, stream: Option<seq<Event>>, key: StreamKey, cmd: Command, meta: Metadata)
    ensures var r := DecideOn(reg, stream, key, cmd, meta);
            r.Success? ==> key.0 in reg && stream.Some? && Decided(reg[key.0], stream.value, key.1, cmd, meta, r.value)
  {
    var r := DecideOn(reg, stream, key, cmd, meta);
    if r.Success? {
      hide DecideOn, LastAnswer, Shields;
      var state, produced, shielded := DecisionHolds(reg, stream, key, cmd, meta);
      var states := FoldIsTheLastState(reg[key.0], stream.value);
      assert DecidedBy(reg[key.0], stream.value, key.1, cmd, meta, states, produced, shielded, r.value);
    }
  }

  /** Each way to fail is that failure and no other, in the order the steps are taken. */
  lemma DecisionFailsAs(reg: Deciders, stream: Option<seq<Event>>, key: StreamKey, cmd: Command, meta: Metadata)
    ensures var r := DecideOn(reg, stream, key, cmd, meta);
            && (key.0 !in reg ==> r == Failure(UnknownAggregate))
            && (key.0 in reg && stream.None? ==> r == Failure(LoadFailed))
            && (key.0 in reg && stream.Some? && Fold(reg[key.0], stream.value).None? ==> r == Failure(EvolveFailed))
    ensures key.0 in reg && stream.Some? && Fold(reg[key.0], stream.value).Some? ==>
              var d, r := reg[key.0], DecideOn(reg, stream, key, cmd, meta);
              var state := Fold(d, stream.value).value;
              forall answer :: LastAnswer(d, cmd, state, meta, answer) ==>
                match answer
                case None => r == Failure(RevealFailed)
                case Some(Refused(message)) => r == Failure(Rejection(message))
                case Some(Faulted(message)) => r == Failure(DecideFault(message))
                case Some(Sealed) => r.Failure? && r.error.DecideFault?
                case Some(Produced(evts)) =>
                  forall shielded :: Shields(d, key.1, evts, shielded) ==>
                    && (shielded.None? ==> r == Failure(ProtectFailed))
                    && (shielded.Some? ==>
                          (r == Failure(EncodeFailed) <==>
                             exists i :: 0 <= i < |shielded.value| && d.encodeFn(shielded.value[i]).None?)
                          && (r.Failure? ==> r == Failure(EncodeFailed)))
  {
    if key.0 in reg && stream.Some? && Fold(reg[key.0], stream.value).Some? {
      var d, state := reg[key.0], Fold(reg[key.0], stream.value).value;
      var answer := JudgedIsLastAnswer(d, cmd, state, meta);
      if answer.Some? && answer.value.Produced? {
        var shielded := d.Protect(key.1, answer.value.events);
        if shielded.Some? {
          EncodedHolds(d, shielded.value);
        }
      }
      hide Fold, Encoded, Merged;
    }
  }

  class Registry {
    const store: Store
    var deciders: Deciders

    constructor (store: Store)
      ensures this.store == store && deciders == map[]
    {
      this.store := store;
      deciders := map[];
    }

    method Register(aggregate: string, d: Decider)
      modifies this`deciders
      ensures deciders == old(deciders)[aggregate := d]
    {
      deciders := deciders[aggregate := d];
    }

    method Unregister(aggregate: string)
      modifies this`deciders
      ensures deciders == old(deciders) - {aggregate}
    {
      deciders := deciders - {aggregate};
    }

    /** DecideWithMeta, given what its loader answers for the stream. */
    method DecideWithMeta(stream: Option<seq<Event>>, key: StreamKey, cmd: Command, meta: Metadata, now: string)
      returns (decision: Result<Decision, Error>)
      ensures decision == DecideOn(deciders, stream, key, cmd, WithNow(meta, now))
      ensures decision.Success? ==>
                && key.0 in deciders && stream.Some?
                && exists stamped :: TimeAdded(meta, now, stamped)
                     && Decided(deciders[key.0], stream.value, key.1, cmd, stamped, decision.value)
    {
      WithNowHolds(meta, now);
      DecisionIsDecided(deciders, stream, key, cmd, WithNow(meta, now));
      hide *;
      WithNowUnfolds(meta, now);
      DecideOnUnfolds(deciders, stream, key, cmd, WithNow(meta, now));
      if key.0 !in deciders {
        return Failure(UnknownAggregate);
      }
      var d := deciders[key.0];
      var stamped := if NOW in meta then meta else meta[NOW := now];
      if stream.None? {
        return Failure(LoadFailed);
      }
      var state := FoldStream(d, stream.value);
      if state.None? {
        return Failure(EvolveFailed);
      }
      var produced := Produce(d, key.1, cmd, state.value, stamped);
      if produced.Failure? {
        return Failure(produced.error);
      }
      var newEvents := Merge(produced.value, stamped);
      return Success(Decision(newEvents, |stream.value|));
    }

    /** The fold over a loaded stream. */
    method FoldStream(d: Decider, stream: seq<Event>) returns (folded: Option<State>)
      ensures folded == Fold(d, stream)
    {
      var state := d.initialState;
      for i := 0 to |stream|
        invariant Fold(d, stream[..i]) == Some(state)
      {
        assert stream[..i + 1][..i] == stream[..i];
        var next := d.Evolve(state, stream[i]);
        if next.None? {
          FoldFailsOnward(d, stream, i + 1);
          return None;
        }
        state := next.value;
      }
      assert stream[..|stream|] == stream;
      return Some(state);
    }

    /** decide, reveal and decide again where needed, then protect and encode what was produced. */
    method Produce(d: Decider, id: string, cmd: Command, state: State, meta: Metadata)
        returns (r: Result<seq<NewEvent>, Error>)
      ensures r == d.Outcome(id, cmd, state, meta)
    {
      var answer := d.Decide(cmd, state, meta);
      if answer.Sealed? && d.revealFn.Some? {
        var clear := d.Reveal(state, cmd);
        if clear.None? {
          return Failure(RevealFailed);
        }
        answer := d.Decide(clear.value.command, clear.value.state, meta);
      }
      match answer
      case Refused(message) => return Failure(Rejection(message));
      case Faulted(message) => return Failure(DecideFault(message));
      case Sealed => return Failure(DecideFault("reveal required"));
      case Produced(evts) =>
        var newEvents := evts;
        if d.protectFn.Some? && |newEvents| > 0 {
          var shielded := d.Protect(id, newEvents);
          if shielded.None? {
            return Failure(ProtectFailed);
          }
          newEvents := shielded.value;
        }
        r := EncodeAll(d, newEvents);
    }

    method EncodeAll(d: Decider, evts: seq<NewEvent>) returns (r: Result<seq<NewEvent>, Error>)
      ensures r == if Encoded(d, evts).Some? then Success(Encoded(d, evts).value) else Failure(EncodeFailed)
    {
      var out: seq<NewEvent> := [];
      for i := 0 to |evts|
        invariant Encoded(d, evts[..i]) == Some(out)
      {
        assert evts[..i + 1][..i] == evts[..i];
        var data := d.Encode(evts[i]);
        if data.None? {
          EncodeFailsOnward(d, evts, i + 1);
          return Failure(EncodeFailed);
        }
        out := out + [evts[i].(data := data.value)];
      }
      assert evts[..|evts|] == evts;
      r := Success(out);
    }

    method Merge(evts: seq<NewEvent>, meta: Metadata) returns (out: seq<NewEvent>)
      ensures out == Merged(evts, meta)
    {
      out := evts;
      for i := 0 to |out|
        invariant |out| == |evts|
        invariant out == Merged(evts, meta)[..i] + evts[i..]
      {
        out := out[i := out[i].(metadata := out[i].metadata + meta)];
      }
      assert out == Merged(evts, meta);
    }

    /**
     HandleWithMeta: decide, and append what was decided; nothing decided appends nothing. An
     append the storage refuses changes nothing, and only an append can be refused.
     */
    method HandleWithMeta(key: StreamKey, cmd: Command, meta: Metadata, now: string, fault: bool)
        returns (outcome: Outcome)
      modifies store`table
      ensures var plain :=
              HandleOn(store.env, deciders, store.upcaster, old(store.table), key, cmd, WithNow(meta, now));
              Handled(store.table, outcome) ==
              if fault && plain.log != old(store.table) then Handled(old(store.table), Failure(Storage)) else plain
      ensures store.table == old(store.table) + if outcome.Success? then outcome.value else []
    {
      var stream := store.LoadStream(key);
      var decision := DecideWithMeta(stream, key, cmd, meta, now);
      if decision.Failure? {
        return Failure(decision.error);
      }
      if |decision.value.newEvents| == 0 {
        assert store.table[|store.table|..] == [];
        return Success([]);
      }
      var appended, err := store.Append(key, decision.value.expected, decision.value.newEvents, fault);
      if err.Some? {
        return Failure(err.value);
      }
      return Success(appended);
    }
  }

  lemma WithNowUnfolds(meta: Metadata, now: string)
    ensures WithNow(meta, now) == if NOW in meta then meta else meta[NOW := now]
  {
  }

  lemma DecideOnUnfolds(reg: Deciders, stream: Option<seq<Event>>, key: StreamKey, cmd: Command, meta: Metadata)
    ensures key.0 !in reg ==> DecideOn(reg, stream, key, cmd, meta) == Failure(UnknownAggregate)
    ensures key.0 in reg && stream.None? ==> DecideOn(reg, stream, key, cmd, meta) == Failure(LoadFailed)
    ensures key.0 in reg && stream.Some? ==>
              var state := Fold(reg[key.0], stream.value);
              && (state.None? ==> DecideOn(reg, stream, key, cmd, meta) == Failure(EvolveFailed))
              && (state.Some? ==>
                    var produced := reg[key.0].Outcome(key.1, cmd, state.value, meta);
                    DecideOn(reg, stream, key, cmd, meta) ==
                    if produced.Failure? then Failure(produced.error)
                    else Success(Decision(Merged(produced.value, meta), |stream.value|)))
  {
  }

  lemma {:induction false} EncodeFailsOnward(d: Decider, evts: seq<NewEvent>, n: nat)
    requires n <= |evts| && Encoded(d, evts[..n]).None?
    ensures Encoded(d, evts).None?
  {
    if n == |evts| {
      assert evts[..n] == evts;
    } else {
      assert evts[..|evts| - 1][..n] == evts[..n];
      EncodeFailsOnward(d, evts[..|evts| - 1], n);
    }
  }

  lemma {:induction false} FoldFailsOnward(d: Decider, stream: seq<Event>, n: nat)
    requires n <= |stream| && Fold(d, stream[..n]).None?
    ensures Fold(d, stream).None?
  {
    if n == |stream| {
      assert stream[..n] == stream;
    } else {
      assert stream[..|stream| - 1][..n] == stream[..n];
      FoldFailsOnward(d, stream[..|stream| - 1], n);
    }
  }

  // ---------------------------------------------------------------------
  // What a fold may depend on
  // ---------------------------------------------------------------------

  /** What a staged event and the row it becomes have in common. */
  function Shadow(e: Event): Event {
    e.(position := 0, eid := "", created := "", metadata := e.metadata - {COMMAND_ID},
       version := NormVersion(e.version))
  }

  predicate SameShadow(xs: seq<Event>, ys: seq<Event>) {
    |xs| == |ys| && forall i :: 0 <= i < |xs| ==> Shadow(xs[i]) == Shadow(ys[i])
  }

  /** Folding looks at nothing a staged event lacks: not the id, position, timestamp or commandId. */
  ghost predicate FoldsByShadow(reg: Deciders) {
    forall a: string, s: State, e: Event :: a in reg ==> reg[a].Evolve(s, e) == reg[a].Evolve(s, Shadow(e))
  }

  lemma {:induction false} SameShadowSameFold(reg: Deciders, a: string, xs: seq<Event>, ys: seq<Event>)
    requires a in reg && FoldsByShadow(reg) && SameShadow(xs, ys)
    ensures Fold(reg[a], xs) == Fold(reg[a], ys)
  {
    if |xs| > 0 {
      var n := |xs| - 1;
      SameShadowSameFold(reg, a, xs[..n], ys[..n]);
      var before := Fold(reg[a], xs[..n]);
      if before.Some? {
        assert reg[a].Evolve(before.value, xs[n]) == reg[a].Evolve(before.value, Shadow(xs[n]));
        assert reg[a].Evolve(before.value, ys[n]) == reg[a].Evolve(before.value, Shadow(ys[n]));
      }
    }
  }

  lemma SameShadowSameDecision(reg: Deciders, xs: seq<Event>, ys: seq<Event>, key: StreamKey, cmd: Command,
                               meta: Metadata)
    requires FoldsByShadow(reg) && SameShadow(xs, ys)
    ensures DecideOn(reg, Some(xs), key, cmd, meta) == DecideOn(reg, Some(ys), key, cmd, meta)
  {
    if key.0 in reg {
      SameShadowSameFold(reg, key.0, xs, ys);
    }
  }

  /** A decider can produce an event of this type at this version. */
  ghost predicate Emits(d: Decider, kind: string, version: int) {
    exists id: string, cmd: Command, s: State, meta: Metadata, k: nat ::
      && d.Outcome(id, cmd, s, meta).Success?
      && k < |d.Outcome(id, cmd, s, meta).value|
      && d.Outcome(id, cmd, s, meta).value[k].kind == kind
      && NormVersion(d.Outcome(id, cmd, s, meta).value[k].version) == version
  }

  /** Deciders emit at the latest version: the upcaster leaves what they just produced alone. */
  ghost predicate EmitsLatest(reg: Deciders, u: Option<Upcaster>) {
    u.Some? ==> forall e: Event :: e.aggregate in reg && Emits(reg[e.aggregate], e.kind, e.version) ==>
        u.value.Apply(e) == Some(e)
  }
}
