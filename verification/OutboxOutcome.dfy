/**
 How one Handle of an outbox entry ends, from what the world answered: what is sent, when
 the entry is retried and with what on record, and when its event is dead-lettered.
 */
module OutboxOutcome {
  import opened Outbox

  /** The follow-ups from..to of a list, sent in order under their own keys. */
  predicate SentRange(cfg: Config, eventId: string, list: seq<FollowUp>, from: nat, to: nat, o: Oracle,
                      effects: seq<Effect>)
  {
    && from <= to <= |list| && |effects| == to - from
    && forall k :: 0 <= k < |effects| ==>
         effects[k] == Sent(from + k, (cfg.name, eventId, from + k), list[from + k], o.dispatches(from + k))
  }

  /** The first follow-up from index from on that is not accepted; |list| when all are. */
  predicate StopsAt(list: seq<FollowUp>, from: nat, o: Oracle, n: nat) {
    && (from <= |list| ==> from <= n <= |list|) && (from > |list| ==> n == from)
    && (forall i :: from <= i < n && i < |list| ==> o.dispatches(i) == Accepted)
    && (n < |list| ==> o.dispatches(n) != Accepted)
  }

  /** A try of the current phase failed: once more with the tries counted, or the end. */
  predicate FailedTry(cfg: Config, w: Work, next: nat, tries: nat, outcome: Outcome, effects: seq<Effect>) {
    if tries + 1 < cfg.maxAttempts then
      effects == [] && outcome == Retry(Work(w.eventId, w.called, w.followUps, next, tries + 1))
    else effects == [DeadLettered] && outcome == Done
  }

  /**
   How a dispatch ends. All accepted: done, and nothing else. The first that is not: sent last,
   and then either tried again from there, or the event is dead-lettered.
   */
  predicate DispatchedAs(cfg: Config, w: Work, from: nat, o: Oracle, n: nat, outcome: Outcome, effects: seq<Effect>) {
    && StopsAt(w.followUps, from, o, n)
    && if n >= |w.followUps| then
         && outcome == Done
         && (from <= |w.followUps| ==> SentRange(cfg, w.eventId, w.followUps, from, n, o, effects))
         && (from > |w.followUps| ==> effects == [])
       else
         var m := n + 1 - from;
         && m <= |effects| && SentRange(cfg, w.eventId, w.followUps, from, n + 1, o, effects[..m])
         && if o.dispatches(n) == Rejected then effects[m..] == [DeadLettered] && outcome == Done
            else FailedTry(cfg, w, n, w.tries, outcome, effects[m..])
  }

  lemma SentMore(cfg: Config, eventId: string, list: seq<FollowUp>, from: nat, to: nat, o: Oracle,
                 effects: seq<Effect>, sent: Effect)
    requires from < to && SentRange(cfg, eventId, list, from + 1, to, o, effects)
    requires sent == Sent(from, (cfg.name, eventId, from), list[from], o.dispatches(from))
    ensures SentRange(cfg, eventId, list, from, to, o, [sent] + effects)
  {
  }

  lemma DispatchedMore(cfg: Config, w: Work, i: nat, o: Oracle, n: nat, rest: Handled, sent: Effect)
    requires i < |w.followUps| && o.dispatches(i) == Accepted
    requires sent == Sent(i, (cfg.name, w.eventId, i), w.followUps[i], Accepted)
    requires DispatchedAs(cfg, w, i + 1, o, n, rest.outcome, rest.effects)
    ensures DispatchedAs(cfg, w, i, o, n, rest.outcome, [sent] + rest.effects)
  {
    var m, all := n - i, [sent] + rest.effects;
    if n >= |w.followUps| {
      SentMore(cfg, w.eventId, w.followUps, i, n, o, rest.effects, sent);
    } else {
      assert all[..m + 1] == [sent] + rest.effects[..m] && all[m + 1..] == rest.effects[m..];
      SentMore(cfg, w.eventId, w.followUps, i, n + 1, o, rest.effects[..m], sent);
    }
    hide SentRange, FailedTry;
  }

  lemma TriedHolds(cfg: Config, w: Work)
    ensures FailedTry(cfg, w, w.next, w.tries, Tried(cfg, w).outcome, Tried(cfg, w).effects)
  {
  }

  lemma {:induction false} DispatchHolds(cfg: Config, w: Work, i: nat, o: Oracle) returns (n: nat)
    ensures DispatchedAs(cfg, w, i, o, n, Dispatched(cfg, w, i, o).outcome, Dispatched(cfg, w, i, o).effects)
    decreases |w.followUps| - i
  {
    hide Tried, FailedTry;
    var r := Dispatched(cfg, w, i, o);
    n := i;
    if i < |w.followUps| {
      var sent := Sent(i, (cfg.name, w.eventId, i), w.followUps[i], o.Dispatch(i));
      match o.Dispatch(i)
      case Accepted =>
        n := DispatchHolds(cfg, w, i + 1, o);
        DispatchedMore(cfg, w, i, o, n, Dispatched(cfg, w, i + 1, o), sent);
      case Retryable =>
        var again := Tried(cfg, w.(next := i));
        TriedAt(cfg, w, i);
        assert r.effects[..1] == [sent] && r.effects[1..] == again.effects;
      case Rejected =>
        assert r.effects[..1] == [sent] && r.effects[1..] == [DeadLettered];
    }
  }

  lemma TriedAt(cfg: Config, w: Work, i: nat)
    ensures FailedTry(cfg, w, i, w.tries, Tried(cfg, w.(next := i)).outcome, Tried(cfg, w.(next := i)).effects)
  {
  }

  /**
   How a Handle ends. Without a rule, or with a request that cannot be built, the event is
   dead-lettered and nothing goes out. Otherwise a call is made unless one is on record; one
   to a host that is not allowed, or whose response cannot be handled, dead-letters; one
   that fails is a failed try; and after one that responds, or on record, come the follow-ups.
   */
  predicate HandledAs(cfg: Config, w: Work, o: Oracle, n: nat, outcome: Outcome, effects: seq<Effect>) {
    if !o.hasRule || (!w.called && o.call.NotBuilt?) then outcome == Done && effects == [DeadLettered]
    else if w.called then DispatchedAs(cfg, w, w.next, o, n, outcome, effects)
    else
      && |effects| > 0 && effects[0] == CalledOut
      && if o.call.Responded? then
           DispatchedAs(cfg, Work(w.eventId, true, o.call.followUps, w.next, 0), w.next, o, n, outcome, effects[1..])
         else if o.call.CallFailed? then FailedTry(cfg, w, w.next, w.tries, outcome, effects[1..])
         else outcome == Done && effects[1..] == [DeadLettered]
  }

  lemma HandleHolds(cfg: Config, w: Work, o: Oracle) returns (n: nat)
    ensures HandledAs(cfg, w, o, n, HandleOf(cfg, w, o).outcome, HandleOf(cfg, w, o).effects)
  {
    hide Dispatched, DispatchedAs, Tried, FailedTry;
    var r := HandleOf(cfg, w, o);
    n := 0;
    if o.hasRule && w.called {
      n := DispatchHolds(cfg, w, w.next, o);
    } else if o.hasRule && o.call.Responded? {
      var w' := Work(w.eventId, true, o.call.followUps, w.next, 0);
      n := DispatchHolds(cfg, w', w.next, o);
      assert w' == w.(called := true, followUps := o.call.followUps, tries := 0);
      assert r.effects[1..] == Dispatched(cfg, w', w.next, o).effects;
    } else if o.hasRule && o.call.CallFailed? {
      TriedHolds(cfg, w);
      assert r.effects[1..] == Tried(cfg, w).effects;
    }
  }

  // ---------------------------------------------------------------------
  // Dead letters
  // ---------------------------------------------------------------------

  predicate NoDeadLetter(effects: seq<Effect>) {
    forall p :: 0 <= p < |effects| ==> !effects[p].DeadLettered?
  }

  predicate OneDeadLetterLast(effects: seq<Effect>) {
    |effects| > 0 && effects[|effects| - 1].DeadLettered? && NoDeadLetter(effects[..|effects| - 1])
  }

  /** The tries of the current phase are used up. */
  predicate LastTry(cfg: Config, tries: nat) {
    tries + 1 >= cfg.maxAttempts
  }

  /** Some follow-up from index from on is not accepted, the ones before it are, and it is given up. */
  predicate GivenUp(cfg: Config, list: seq<FollowUp>, from: nat, tries: nat, o: Oracle) {
    exists n :: from <= n < |list| && o.dispatches(n) != Accepted && AcceptedAll(o, from, n)
                && (o.dispatches(n) == Rejected || LastTry(cfg, tries))
  }

  predicate AcceptedAll(o: Oracle, from: nat, to: nat) {
    forall i :: from <= i < to ==> o.dispatches(i) == Accepted
  }

  /** When a Handle gives the event up. */
  predicate GivesUp(cfg: Config, w: Work, o: Oracle) {
    if !o.hasRule then true
    else if w.called then GivenUp(cfg, w.followUps, w.next, w.tries, o)
    else
      match o.call
      case NotBuilt => true
      case HostNotAllowed => true
      case Unhandled => true
      case CallFailed => LastTry(cfg, w.tries)
      case Responded(list) => GivenUp(cfg, list, w.next, 0, o)
  }

  lemma DispatchDeadLetters(cfg: Config, w: Work, from: nat, o: Oracle, n: nat, outcome: Outcome, effects: seq<Effect>)
    requires DispatchedAs(cfg, w, from, o, n, outcome, effects)
    ensures if GivenUp(cfg, w.followUps, from, w.tries, o) then OneDeadLetterLast(effects) && outcome == Done
            else NoDeadLetter(effects)
  {
    if from <= n < |w.followUps| {
      var m := n + 1 - from;
      assert effects == effects[..m] + effects[m..];
      assert AcceptedAll(o, from, n);
      if GivenUp(cfg, w.followUps, from, w.tries, o) {
        assert effects[..|effects| - 1] == effects[..m];
      }
    }
  }

  /**
   A Handle dead-letters its event exactly when it gives it up: then once, as the last thing it
   does, and the entry is finished; otherwise there is no dead letter.
   */
  lemma DeadLetteredIff(cfg: Config, w: Work, o: Oracle)
    ensures var r := HandleOf(cfg, w, o);
            if GivesUp(cfg, w, o) then OneDeadLetterLast(r.effects) && r.outcome == Done
            else NoDeadLetter(r.effects)
  {
    hide GivenUp, Dispatched, DispatchedAs, HandleOf;
    var r := HandleOf(cfg, w, o);
    var n := HandleHolds(cfg, w, o);
    if o.hasRule && w.called {
      DispatchDeadLetters(cfg, w, w.next, o, n, r.outcome, r.effects);
    } else if o.hasRule && o.call.Responded? {
      var w' := Work(w.eventId, true, o.call.followUps, w.next, 0);
      DispatchDeadLetters(cfg, w', w.next, o, n, r.outcome, r.effects[1..]);
      LetterBehindCall(r.effects);
    } else if o.hasRule && !o.call.NotBuilt? {
      LetterBehindCall(r.effects);
    }
  }

  lemma LetterBehindCall(effects: seq<Effect>)
    requires |effects| > 0 && effects[0] == CalledOut
    ensures NoDeadLetter(effects[1..]) ==> NoDeadLetter(effects)
    ensures OneDeadLetterLast(effects[1..]) ==> OneDeadLetterLast(effects)
  {
    assert effects == [effects[0]] + effects[1..];
    if OneDeadLetterLast(effects[1..]) {
      assert effects[..|effects| - 1] == [effects[0]] + effects[1..][..|effects[1..]| - 1];
    }
  }
}
