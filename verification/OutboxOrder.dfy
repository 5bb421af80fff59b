/**
 What an entry's whole history looks like, crashes included: follow-ups in order under
 steady keys, no call out once a call is on record, and an end that is complete or dead-lettered.
 */
module OutboxOrder {
  import opened Outbox

  /** This very follow-up was accepted, under index j, before position p. */
  predicate AcceptedBefore(h: seq<Effect>, p: nat, followUp: FollowUp, j: nat)
    requires p <= |h|
  {
    exists q :: 0 <= q < p && h[q].Sent? && h[q].i == j && h[q].followUp == followUp && h[q].result.Accepted?
  }

  predicate FirstAccepted(h: seq<Effect>, p: nat, list: seq<FollowUp>, n: nat)
    requires p <= |h|
  {
    n <= |list| && forall j: nat :: j < n ==> AcceptedBefore(h, p, list[j], j)
  }

  predicate InTurn(h: seq<Effect>, p: nat, list: seq<FollowUp>)
    requires p < |h| && h[p].Sent?
  {
    h[p].i < |list| && h[p].followUp == list[h[p].i] && FirstAccepted(h, p, list, h[p].i)
  }

  ghost predicate InOrderAt(cfg: Config, eventId: string, h: seq<Effect>, p: nat)
    requires p < |h|
  {
    h[p].Sent? ==> h[p].key == (cfg.name, eventId, h[p].i) && exists list :: InTurn(h, p, list)
  }

  /** Each follow-up is sent under its own key, after every earlier one of its list was accepted. */
  ghost predicate InOrder(cfg: Config, eventId: string, h: seq<Effect>) {
    forall p :: 0 <= p < |h| ==> InOrderAt(cfg, eventId, h, p)
  }

  predicate SentUpTo(h: seq<Effect>, list: seq<FollowUp>, n: nat) {
    FirstAccepted(h, |h|, list, n)
  }

  lemma AcceptedStays(h: seq<Effect>, more: seq<Effect>, p: nat, p': nat, list: seq<FollowUp>, n: nat)
    requires p <= |h| && p <= p' <= |h + more| && FirstAccepted(h, p, list, n)
    ensures FirstAccepted(h + more, p', list, n)
  {
    forall j: nat | j < n
      ensures AcceptedBefore(h + more, p', list[j], j)
    {
      assert AcceptedBefore(h, p, list[j], j);
      var q :| 0 <= q < p && h[q].Sent? && h[q].i == j && h[q].followUp == list[j] && h[q].result.Accepted?;
      assert (h + more)[q] == h[q];
    }
  }

  lemma OrderStays(cfg: Config, eventId: string, h: seq<Effect>, e: Effect, p: nat)
    requires p < |h| && InOrderAt(cfg, eventId, h, p)
    ensures InOrderAt(cfg, eventId, h + [e], p)
  {
    assert (h + [e])[p] == h[p];
    if h[p].Sent? {
      var list :| InTurn(h, p, list);
      AcceptedStays(h, [e], p, p, list, h[p].i);
      assert InTurn(h + [e], p, list);
    }
  }

  lemma EffectKeepsOrder(cfg: Config, eventId: string, h: seq<Effect>, e: Effect, list: seq<FollowUp>, n: nat)
    requires InOrder(cfg, eventId, h) && SentUpTo(h, list, n)
    requires e.Sent? ==> n < |list| && e.i == n && e.key == (cfg.name, eventId, n) && e.followUp == list[n]
    ensures InOrder(cfg, eventId, h + [e])
    ensures SentUpTo(h + [e], list, if e.Sent? && e.result.Accepted? then n + 1 else n)
  {
    var h' := h + [e];
    AcceptedStays(h, [e], |h|, |h|, list, n);
    AcceptedStays(h, [e], |h|, |h'|, list, n);
    assert h'[|h|] == e;
    if e.Sent? {
      assert InTurn(h', |h|, list);
      assert e.result.Accepted? ==> AcceptedBefore(h', |h'|, list[n], n);
    }
    forall p | 0 <= p < |h'|
      ensures InOrderAt(cfg, eventId, h', p)
    {
      if p < |h| {
        OrderStays(cfg, eventId, h, e, p);
      }
    }
  }

  predicate EndsDeadLettered(h: seq<Effect>) {
    |h| > 0 && h[|h| - 1] == DeadLettered
  }

  /** What was persisted has been sent as itself; before the call there is nothing to send. */
  predicate Recorded(w: Work, eventId: string, h: seq<Effect>) {
    w.eventId == eventId && SentUpTo(h, w.followUps, w.next) && (w.called || w.next == 0)
  }

  /** What a dispatch leaves: what it persists has been sent, and it is done with all sent or a dead letter. */
  predicate Accounted(w: Work, r: Handled, h: seq<Effect>) {
    if r.outcome.Retry? then Recorded(r.outcome.work, w.eventId, h)
    else EndsDeadLettered(h) || SentUpTo(h, w.followUps, |w.followUps|)
  }

  lemma TriedKeepsOrder(cfg: Config, w: Work, h: seq<Effect>)
    requires InOrder(cfg, w.eventId, h) && Recorded(w, w.eventId, h)
    ensures InOrder(cfg, w.eventId, h + Tried(cfg, w).effects) && Accounted(w, Tried(cfg, w), h + Tried(cfg, w).effects)
  {
    EffectKeepsOrder(cfg, w.eventId, h, DeadLettered, w.followUps, w.next);
    assert h + [] == h;
  }

  lemma {:induction false} DispatchKeepsOrder(cfg: Config, w: Work, i: nat, o: Oracle, h: seq<Effect>)
    requires w.called && InOrder(cfg, w.eventId, h) && SentUpTo(h, w.followUps, i)
    ensures var r := Dispatched(cfg, w, i, o);
            InOrder(cfg, w.eventId, h + r.effects) && Accounted(w, r, h + r.effects)
    decreases |w.followUps| - i
  {
    var r := Dispatched(cfg, w, i, o);
    hide InOrder;
    if i >= |w.followUps| {
      assert h + [] == h;
    } else {
      var sent := Sent(i, (cfg.name, w.eventId, i), w.followUps[i], o.Dispatch(i));
      EffectKeepsOrder(cfg, w.eventId, h, sent, w.followUps, i);
      match o.Dispatch(i)
      case Accepted =>
        DispatchKeepsOrder(cfg, w, i + 1, o, h + [sent]);
        assert h + r.effects == h + [sent] + Dispatched(cfg, w, i + 1, o).effects;
      case Retryable =>
        TriedKeepsOrder(cfg, w.(next := i), h + [sent]);
        assert h + r.effects == h + [sent] + Tried(cfg, w.(next := i)).effects;
      case Rejected =>
        EffectKeepsOrder(cfg, w.eventId, h + [sent], DeadLettered, w.followUps, i);
        assert h + r.effects == h + [sent] + [DeadLettered];
    }
  }

  /** The follow-ups a Handle dispatches: those on record, or those its own call brought. */
  function InHand(w: Work, o: Oracle): Work {
    if !w.called && o.call.Responded? then w.(called := true, followUps := o.call.followUps, tries := 0) else w
  }

  lemma HandleKeepsOrder(cfg: Config, w: Work, o: Oracle, h: seq<Effect>)
    requires InOrder(cfg, w.eventId, h) && Recorded(w, w.eventId, h)
    ensures var r := HandleOf(cfg, w, o);
            InOrder(cfg, w.eventId, h + r.effects) && Accounted(InHand(w, o), r, h + r.effects)
  {
    var r := HandleOf(cfg, w, o);
    hide InOrder;
    EffectKeepsOrder(cfg, w.eventId, h, DeadLettered, w.followUps, w.next);
    if o.hasRule && w.called {
      DispatchKeepsOrder(cfg, w, w.next, o, h);
    } else if o.hasRule && !o.call.NotBuilt? {
      EffectKeepsOrder(cfg, w.eventId, h, CalledOut, w.followUps, w.next);
      var h1 := h + [CalledOut];
      if o.call.CallFailed? {
        TriedKeepsOrder(cfg, w, h1);
        assert h + r.effects == h1 + Tried(cfg, w).effects;
      } else if o.call.Responded? {
        DispatchKeepsOrder(cfg, InHand(w, o), w.next, o, h1);
        assert h + r.effects == h1 + Dispatched(cfg, InHand(w, o), w.next, o).effects;
      } else {
        EffectKeepsOrder(cfg, w.eventId, h1, DeadLettered, w.followUps, w.next);
        assert h + r.effects == h1 + [DeadLettered];
      }
    }
  }

  /**
   Over every run of an entry, with any outcome lost to a crash: every follow-up that is
   sent carries its own key, and every earlier one of the list it belongs to has been
   accepted before it; what an entry has on record as dispatched has been accepted as itself.
   */
  lemma {:induction false} FollowUpsStayInOrder(cfg: Config, eventId: string, turns: seq<Turn>)
    ensures var s := After(cfg, Start(eventId), turns);
            InOrder(cfg, eventId, s.history) && (s.entry.Open? ==> Recorded(s.entry.work, eventId, s.history))
  {
    if |turns| > 0 {
      var n := |turns| - 1;
      FollowUpsStayInOrder(cfg, eventId, turns[..n]);
      var s := After(cfg, Start(eventId), turns[..n]);
      hide InOrder, HandleOf;
      if s.entry.Open? {
        var w, o := s.entry.work, turns[n].o;
        var more := HandleOf(cfg, w, o).effects;
        HandleKeepsOrder(cfg, w, o, s.history);
        AcceptedStays(s.history, more, |s.history|, |s.history + more|, w.followUps, w.next);
      }
    }
  }

  /**
   An entry is finished only with every follow-up of the list in hand accepted as itself, or
   with its event dead-lettered; an earlier response lost to a crash does not stand in for it.
   */
  lemma FinishedIsAccounted(cfg: Config, eventId: string, turns: seq<Turn>, t: Turn)
    requires var s := After(cfg, Start(eventId), turns);
             s.entry.Open? && t.kept && Next(cfg, s, t).entry.Closed?
    ensures var s := After(cfg, Start(eventId), turns);
            var h, list := Next(cfg, s, t).history, InHand(s.entry.work, t.o).followUps;
            EndsDeadLettered(h) || forall j :: 0 <= j < |list| ==> AcceptedBefore(h, |h|, list[j], j)
  {
    FollowUpsStayInOrder(cfg, eventId, turns);
    var s := After(cfg, Start(eventId), turns);
    hide InOrder, HandleOf;
    HandleKeepsOrder(cfg, s.entry.work, t.o, s.history);
  }

  // ---------------------------------------------------------------------
  // Once called, never called again
  // ---------------------------------------------------------------------

  predicate NoCall(h: seq<Effect>) {
    forall p :: 0 <= p < |h| ==> h[p] != CalledOut
  }

  lemma {:induction false} DispatchNeverCalls(cfg: Config, w: Work, i: nat, o: Oracle)
    requires w.called
    ensures var r := Dispatched(cfg, w, i, o);
            NoCall(r.effects) && (r.outcome.Retry? ==> r.outcome.work.called)
    decreases |w.followUps| - i
  {
    if i < |w.followUps| && o.Dispatch(i).Accepted? {
      DispatchNeverCalls(cfg, w, i + 1, o);
    }
  }

  /** No call out follows a persisted call: what a run adds after that holds none. */
  lemma {:induction false} CalledOnceOnRecord(cfg: Config, s: State, turns: seq<Turn>)
    requires s.entry.Open? && s.entry.work.called
    ensures var t := After(cfg, s, turns);
            && s.history <= t.history && NoCall(t.history[|s.history|..])
            && (t.entry.Open? ==> t.entry.work.called)
  {
    if |turns| > 0 {
      var n := |turns| - 1;
      CalledOnceOnRecord(cfg, s, turns[..n]);
      var t := After(cfg, s, turns[..n]);
      if t.entry.Open? {
        var w, o := t.entry.work, turns[n].o;
        DispatchNeverCalls(cfg, w, w.next, o);
        assert NoCall(HandleOf(cfg, w, o).effects);
        assert (t.history + HandleOf(cfg, w, o).effects)[|s.history|..] ==
               t.history[|s.history|..] + HandleOf(cfg, w, o).effects;
      }
    }
  }
}
