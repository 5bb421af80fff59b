/**
 The external caller's outbox work: one call out, then its follow-ups dispatched in order,
 with bounded tries in each phase and the state between tries persisted in the entry.
 */
module Outbox {
  import opened Wrappers

  datatype FollowUp = FollowUp(aggregate: string, id: string, name: string, payload: string)

  /** An entry's payload. tries counts the tries of the current phase: the call, then the dispatch. */
  datatype Work = Work(eventId: string, called: bool, followUps: seq<FollowUp>, next: nat, tries: nat)

  datatype CallResult = NotBuilt | HostNotAllowed | CallFailed | Unhandled | Responded(followUps: seq<FollowUp>)

  datatype DispatchResult = Accepted | Retryable | Rejected

  /** What the rules, the outside world and the gateway answer during one Handle. */
  datatype Oracle = Oracle(hasRule: bool, call: CallResult, dispatches: nat -> DispatchResult) {
    function Dispatch(i: nat): DispatchResult {
      dispatches(i)
    }
  }

  type Key = (string, string, nat)

  /** What a Handle does to the world. */
  datatype Effect =
    | CalledOut
    | Sent(i: nat, key: Key, followUp: FollowUp, result: DispatchResult)
    | DeadLettered

  datatype Outcome = Done | Retry(work: Work)

  /** maxAttempts is at least 1: New raises anything smaller. */
  datatype Config = Config(name: string, maxAttempts: nat)

  datatype Handled = Handled(outcome: Outcome, effects: seq<Effect>)

  function Tried(cfg: Config, w: Work): Handled {
    var w' := w.(tries := w.tries + 1);
    if w'.tries >= cfg.maxAttempts then Handled(Done, [DeadLettered]) else Handled(Retry(w'), [])
  }

  /** The dispatch loop from follow-up i on. */
  function Dispatched(cfg: Config, w: Work, i: nat, o: Oracle): Handled
    decreases |w.followUps| - i
  {
    if i >= |w.followUps| then Handled(Done, [])
    else
      var sent := Sent(i, (cfg.name, w.eventId, i), w.followUps[i], o.Dispatch(i));
      match o.Dispatch(i)
      case Accepted => var rest := Dispatched(cfg, w, i + 1, o); Handled(rest.outcome, [sent] + rest.effects)
      case Retryable => var r := Tried(cfg, w.(next := i)); Handled(r.outcome, [sent] + r.effects)
      case Rejected => Handled(Done, [sent, DeadLettered])
  }

  /** One Handle: the call if it has not been made, then the dispatch. */
  function HandleOf(cfg: Config, w: Work, o: Oracle): Handled {
    if !o.hasRule then Handled(Done, [DeadLettered])
    else if w.called then Dispatched(cfg, w, w.next, o)
    else
      match o.call
      case NotBuilt => Handled(Done, [DeadLettered])
      case HostNotAllowed => Handled(Done, [CalledOut, DeadLettered])
      case CallFailed => var r := Tried(cfg, w); Handled(r.outcome, [CalledOut] + r.effects)
      case Unhandled => Handled(Done, [CalledOut, DeadLettered])
      case Responded(followUps) =>
        var rest := Dispatched(cfg, w.(called := true, followUps := followUps, tries := 0), w.next, o);
        Handled(rest.outcome, [CalledOut] + rest.effects)
  }

  /** What Handle makes of an entry's payload: one that does not decode is dropped without a trace. */
  function HandlePayload(cfg: Config, payload: Option<Work>, o: Oracle): Handled {
    if payload.None? then Handled(Done, []) else HandleOf(cfg, payload.value, o)
  }

  class Consumer {
    const cfg: Config
    /** Everything done so far, in order. */
    var done: seq<Effect>

    constructor (name: string, maxAttempts: int)
      ensures cfg.name == name && done == []
      ensures cfg.maxAttempts >= 1 && (maxAttempts >= 1 ==> cfg.maxAttempts == maxAttempts)
      ensures cfg.maxAttempts > maxAttempts ==> cfg.maxAttempts == 1
    {
      cfg := Config(name, if maxAttempts <= 0 then 1 else maxAttempts);
      done := [];
    }

    method Again(w: Work) returns (outcome: Outcome)
      modifies this`done
      ensures outcome == Tried(cfg, w).outcome && done == old(done) + Tried(cfg, w).effects
    {
      var w' := w.(tries := w.tries + 1);
      if w'.tries >= cfg.maxAttempts {
        done := done + [DeadLettered];
        return Done;
      }
      assert done == old(done) + [];
      outcome := Retry(w');
    }

    /** Handle does one entry's work; payload is what its bytes decode to, if they do. */
    method Handle(payload: Option<Work>, o: Oracle) returns (outcome: Outcome)
      modifies this`done
      ensures outcome == HandlePayload(cfg, payload, o).outcome
      ensures done == old(done) + HandlePayload(cfg, payload, o).effects
      ensures payload.None? ==> outcome == Done && done == old(done)
    {
      if payload.None? {
        return Done;
      }
      var w := payload.value;
      if !o.hasRule {
        done := done + [DeadLettered];
        return Done;
      }
      if !w.called {
        if o.call.NotBuilt? {
          done := done + [DeadLettered];
          return Done;
        }
        done := done + [CalledOut];
        if o.call.HostNotAllowed? {
          done := done + [DeadLettered];
          return Done;
        }
        if o.call.CallFailed? {
          outcome := Again(w);
          return;
        }
        if o.call.Unhandled? {
          done := done + [DeadLettered];
          return Done;
        }
        w := w.(called := true, followUps := o.call.followUps, tries := 0);
      }
      outcome := Dispatch(w, o);
    }

    /** Handle's dispatch loop, from the first follow-up not yet dispatched. */
    method Dispatch(w: Work, o: Oracle) returns (outcome: Outcome)
      modifies this`done
      ensures outcome == Dispatched(cfg, w, w.next, o).outcome
      ensures done == old(done) + Dispatched(cfg, w, w.next, o).effects
    {
      ghost var whole := Dispatched(cfg, w, w.next, o);
      var i := w.next;
      while i < |w.followUps|
        invariant whole.outcome == Dispatched(cfg, w, i, o).outcome
        invariant old(done) + whole.effects == done + Dispatched(cfg, w, i, o).effects
        decreases |w.followUps| - i
      {
        var result := o.Dispatch(i);
        done := done + [Sent(i, (cfg.name, w.eventId, i), w.followUps[i], result)];
        if result.Retryable? {
          outcome := Again(w.(next := i));
          return;
        }
        if result.Rejected? {
          done := done + [DeadLettered];
          return Done;
        }
        i := i + 1;
      }
      outcome := Done;
    }
  }

  // ---------------------------------------------------------------------
  // Runs of one entry
  // ---------------------------------------------------------------------

  /** A Handle of the entry; kept is false when a crash loses its outcome. */
  datatype Turn = Turn(o: Oracle, kept: bool)

  datatype Entry = Open(work: Work) | Closed

  datatype State = State(entry: Entry, history: seq<Effect>)

  function Start(eventId: string): State {
    State(Open(Work(eventId, false, [], 0, 0)), [])
  }

  function Next(cfg: Config, s: State, t: Turn): State {
    match s.entry
    case Closed => s
    case Open(w) =>
      var h := HandleOf(cfg, w, t.o);
      var kept := if h.outcome.Done? then Closed else Open(h.outcome.work);
      State(if t.kept then kept else s.entry, s.history + h.effects)
  }

  function After(cfg: Config, s: State, turns: seq<Turn>): State {
    if |turns| == 0 then s else Next(cfg, After(cfg, s, turns[..|turns| - 1]), turns[|turns| - 1])
  }

  function Kept(turns: seq<Turn>): nat {
    if |turns| == 0 then 0 else Kept(turns[..|turns| - 1]) + if turns[|turns| - 1].kept then 1 else 0
  }

  // ---------------------------------------------------------------------
  // It ends
  // ---------------------------------------------------------------------

  /** How many kept Handles an entry can still take: the calls left and then the dispatches left. */
  function Left(cfg: Config, e: Entry): int {
    match e
    case Closed => 0
    case Open(w) => cfg.maxAttempts - w.tries + if w.called then 0 else cfg.maxAttempts - 1
  }

  predicate InBounds(cfg: Config, e: Entry) {
    e.Open? ==> e.work.tries < cfg.maxAttempts
  }

  lemma {:induction false} DispatchShrinks(cfg: Config, w: Work, i: nat, o: Oracle)
    requires w.called && w.tries < cfg.maxAttempts
    ensures var h := Dispatched(cfg, w, i, o);
            h.outcome.Retry? ==>
              && h.outcome.work.called && h.outcome.work.tries == w.tries + 1 < cfg.maxAttempts
              && h.outcome.work.followUps == w.followUps
    decreases |w.followUps| - i
  {
    if i < |w.followUps| && o.Dispatch(i).Accepted? {
      DispatchShrinks(cfg, w, i + 1, o);
    }
  }

  lemma HandleShrinks(cfg: Config, s: State, t: Turn)
    requires cfg.maxAttempts >= 1 && InBounds(cfg, s.entry)
    ensures var s' := Next(cfg, s, t);
            && InBounds(cfg, s'.entry)
            && Left(cfg, s'.entry) <= Left(cfg, s.entry)
            && (t.kept && s.entry.Open? ==> Left(cfg, s'.entry) < Left(cfg, s.entry))
  {
    if s.entry.Open? && t.o.hasRule {
      var w := s.entry.work;
      if w.called {
        DispatchShrinks(cfg, w, w.next, t.o);
      } else if t.o.call.Responded? {
        DispatchShrinks(cfg, w.(called := true, followUps := t.o.call.followUps, tries := 0), w.next, t.o);
      }
    }
  }

  lemma {:induction false} RunShrinks(cfg: Config, eventId: string, turns: seq<Turn>)
    requires cfg.maxAttempts >= 1
    ensures var s := After(cfg, Start(eventId), turns);
            InBounds(cfg, s.entry) && (s.entry.Open? ==> Kept(turns) + Left(cfg, s.entry) <= 2 * cfg.maxAttempts - 1)
  {
    if |turns| > 0 {
      var front := turns[..|turns| - 1];
      RunShrinks(cfg, eventId, front);
      HandleShrinks(cfg, After(cfg, Start(eventId), front), turns[|turns| - 1]);
    }
  }

  /** The work ends: after 2*maxAttempts-1 Handles whose outcome was kept, the entry is finished. */
  lemma WorkEnds(cfg: Config, eventId: string, turns: seq<Turn>)
    requires cfg.maxAttempts >= 1 && Kept(turns) >= 2 * cfg.maxAttempts - 1
    ensures After(cfg, Start(eventId), turns).entry.Closed?
  {
    RunShrinks(cfg, eventId, turns);
  }

  /** maxAttempts-1 failing calls, then a call that succeeds into a dispatch that never does. */
  function Stubborn(cfg: Config, k: nat): Turn {
    var call := if k < cfg.maxAttempts - 1 then CallFailed else Responded([FollowUp("", "", "", "")]);
    Turn(Oracle(true, call, (i: nat) => Retryable), true)
  }

  function Stubbornly(cfg: Config, n: nat): (turns: seq<Turn>)
    ensures |turns| == n
  {
    if n == 0 then [] else Stubbornly(cfg, n - 1) + [Stubborn(cfg, n - 1)]
  }

  function StubbornWork(cfg: Config, eventId: string, n: nat): Work {
    if n < cfg.maxAttempts then Work(eventId, false, [], 0, n)
    else Work(eventId, true, [FollowUp("", "", "", "")], 0, n - cfg.maxAttempts + 1)
  }

  lemma StubbornNext(cfg: Config, eventId: string, n: nat, history: seq<Effect>)
    requires n + 1 <= 2 * cfg.maxAttempts - 2
    ensures Next(cfg, State(Open(StubbornWork(cfg, eventId, n)), history), Stubborn(cfg, n)).entry ==
            Open(StubbornWork(cfg, eventId, n + 1))
  {
  }

  /** The bound is reached: one Handle fewer may leave the entry open. */
  lemma {:induction false} BoundIsTight(cfg: Config, eventId: string, n: nat)
    requires n <= 2 * cfg.maxAttempts - 2
    ensures Kept(Stubbornly(cfg, n)) == n
    ensures After(cfg, Start(eventId), Stubbornly(cfg, n)).entry == Open(StubbornWork(cfg, eventId, n))
  {
    if n > 0 {
      BoundIsTight(cfg, eventId, n - 1);
      assert Stubbornly(cfg, n)[..n - 1] == Stubbornly(cfg, n - 1) && Stubbornly(cfg, n)[n - 1] == Stubborn(cfg, n - 1);
      StubbornNext(cfg, eventId, n - 1, After(cfg, Start(eventId), Stubbornly(cfg, n - 1)).history);
    }
  }
}
