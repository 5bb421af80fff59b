/**
 The small print of the batching protocol: what a window's overlay shows, what a queued
 command is decided as, what each step of the protocol may touch, and what the relations
 the theorems speak in leave out.
 */
module BatchFrames {
  import opened Wrappers
  import opened EventLog
  import opened EventStore
  import opened Deciding
  import opened BatchWindow
  import opened CommandQueue
  import opened BatchProtocol

  // ---------------------------------------------------------------------
  // What is read
  // ---------------------------------------------------------------------

  /** Reading a stream: its rows in sequence order, each brought up to date; one that fails fails the read. */
  lemma {:induction false} ReadUpcasts(u: Option<Upcaster>, rows: seq<Event>)
    ensures var out := UpcastAll(u, rows);
            if u.None? then out == Some(rows)
            else if out.Some? then
              |out.value| == |rows| && forall k :: 0 <= k < |rows| ==> u.value.up(rows[k]) == Some(out.value[k])
            else exists k :: 0 <= k < |rows| && u.value.up(rows[k]).None?
  {
    if u.Some? && |rows| > 0 {
      var n := |rows| - 1;
      ReadUpcasts(u, rows[..n]);
      assert forall k :: 0 <= k < n ==> rows[..n][k] == rows[k];
    }
  }

  lemma LoadHolds(log: seq<Event>, u: Option<Upcaster>, key: StreamKey)
    ensures var rows, out := LoadRows(log, key), Load(log, u, key);
            if u.None? then out == Some(rows)
            else if out.Some? then
              |out.value| == |rows| && forall k :: 0 <= k < |rows| ==> u.value.up(rows[k]) == Some(out.value[k])
            else exists k :: 0 <= k < |rows| && u.value.up(rows[k]).None?
  {
    ReadUpcasts(u, LoadRows(log, key));
  }

  /** A row decided in this window, as later commands of the window see it: nothing the database draws is in it. */
  predicate StagedAs(e: Event, key: StreamKey, sequence: nat, ne: NewEvent) {
    && e.position == 0 && e.eid == "" && e.created == ""
    && e.aggregate == key.0 && e.aggregateId == key.1 && e.sequence == sequence
    && e.kind == ne.kind && e.data == ne.data && e.metadata == ne.metadata && e.version == ne.version
  }

  lemma PendingAfter(staged: Staged, key: StreamKey, evts: seq<NewEvent>, base: nat, other: StreamKey)
    ensures Pending(Recorded(staged, key, evts, base), other) ==
            Pending(staged, other) + if other == key then StagedRows(key, base, evts) else []
  {
    var more := if other == key then StagedRows(key, base, evts) else [];
    if other != key || |evts| == 0 {
      assert more == [] && Pending(staged, other) + more == Pending(staged, other);
    }
  }

  lemma NothingStaged(key: StreamKey)
    ensures Pending(map[], key) == []
  {
  }

  lemma OverlayIs(log: seq<Event>, u: Option<Upcaster>, staged: Staged, key: StreamKey)
    ensures var durable := Load(log, u, key);
            OverlayLoad(log, u, staged, key) ==
            if durable.None? then None else Some(durable.value + Pending(staged, key))
    ensures Load(log, u, key).Some? ==> Load(log, u, key).value + [] == Load(log, u, key).value
  {
    hide Load, Pending;
  }

  lemma AppendedRead(durable: seq<Event>, staged: seq<Event>, more: seq<Event>)
    ensures var all := durable + (staged + more);
            && |all| == |durable + staged| + |more| && all[..|durable + staged|] == durable + staged
            && all[|durable + staged|..] == more
  {
    assert durable + (staged + more) == durable + staged + more;
  }

  /** A decision for one stream leaves what the window reads of any other; and at first it reads the log. */
  lemma RecordedElsewhere(log: seq<Event>, u: Option<Upcaster>, staged: Staged, key: StreamKey, evts: seq<NewEvent>,
                          base: nat, other: StreamKey)
    requires other != key
    ensures OverlayLoad(log, u, Recorded(staged, key, evts, base), other) == OverlayLoad(log, u, staged, other)
    ensures OverlayLoad(log, u, map[], other) == Load(log, u, other)
  {
    hide *;
    OverlayIs(log, u, map[], other);
    OverlayIs(log, u, staged, other);
    OverlayIs(log, u, Recorded(staged, key, evts, base), other);
    PendingAfter(staged, key, evts, base, other);
    NothingStaged(other);
    assert Pending(staged, other) + [] == Pending(staged, other);
  }

  /** What the window reads of a stream after a decision for it: what it read before, then the decided events. */
  lemma RecordedIsRead(log: seq<Event>, u: Option<Upcaster>, staged: Staged, key: StreamKey, evts: seq<NewEvent>,
                       base: nat)
    ensures var before, after := OverlayLoad(log, u, staged, key),
                OverlayLoad(log, u, Recorded(staged, key, evts, base), key);
            && (before.None? <==> after.None?)
            && (after.Some? ==>
                  |after.value| == |before.value| + |evts| && after.value[..|before.value|] == before.value
                  && AllStaged(after.value[|before.value|..], key, base, evts))
  {
    hide *;
    var more := StagedRows(key, base, evts);
    OverlayIs(log, u, staged, key);
    OverlayIs(log, u, Recorded(staged, key, evts, base), key);
    PendingAfter(staged, key, evts, base, key);
    AllRowsAre(key, base, evts);
    if Load(log, u, key).Some? {
      AppendedRead(Load(log, u, key).value, Pending(staged, key), more);
    }
  }

  predicate AllStaged(rows: seq<Event>, key: StreamKey, base: nat, evts: seq<NewEvent>) {
    |rows| == |evts| && forall i :: 0 <= i < |rows| ==> StagedAs(rows[i], key, base + i + 1, evts[i])
  }

  lemma AllRowsAre(key: StreamKey, base: nat, evts: seq<NewEvent>)
    ensures |StagedRows(key, base, evts)| == |evts| && AllStaged(StagedRows(key, base, evts), key, base, evts)
  {
  }

  // ---------------------------------------------------------------------
  // What is decided
  // ---------------------------------------------------------------------

  /** A queued command is decided as itself, with the payload and the metadata it was queued with. */
  lemma QueuedIsDecided(reg: Deciders, stream: Option<seq<Event>>, qc: QueuedCommand)
    ensures var r := DecideQueued(reg, stream, qc);
            && (qc.meta.None? ==> r == Failure(InvalidMeta))
            && (r.Success? ==>
                  && qc.meta.Some? && stream.Some? && qc.key.0 in reg
                  && Decided(reg[qc.key.0], stream.value, qc.key.1, Command(qc.command, qc.payload), qc.meta.value,
                             r.value))
  {
    if qc.meta.Some? {
      DecisionIsDecided(reg, stream, qc.key, Command(qc.command, qc.payload), qc.meta.value);
    }
    hide Decided, DecideOn;
  }

  /** The entry a decision becomes: for the command's own stream and under its own id. */
  lemma EntryIsTheDecision(reg: Deciders, u: Option<Upcaster>, log: seq<Event>, w: Window, qc: QueuedCommand)
    ensures var w' := WindowStep(reg, u, log, w, qc);
            var r := DecideQueued(reg, OverlayLoad(log, u, w.staged, qc.key), qc);
            && |w'.verdicts| == |w.verdicts| + 1 && w'.verdicts[..|w.verdicts|] == w.verdicts
            && if r.Failure? then
                 w'.batch == w.batch && w'.staged == w.staged && w'.verdicts[|w.verdicts|] == Rejected(r.error)
               else
                 && |w'.batch| == |w.batch| + 1 && w'.batch[..|w.batch|] == w.batch
                 && w'.verdicts[|w.verdicts|] == Accepted(|w.batch|)
                 && var entry := w'.batch[|w.batch|];
                    entry.commandId == qc.id && entry.key == qc.key && entry.expected == r.value.expected
                    && entry.newEvents == r.value.newEvents
  {
    hide DecideQueued, OverlayLoad, Recorded;
  }

  // ---------------------------------------------------------------------
  // What a step may touch
  // ---------------------------------------------------------------------

  /** Rows may only become done; none is lost, none changes its command. */
  predicate OnlyMarks(before: seq<QueueRow>, after: seq<QueueRow>) {
    && |after| == |before|
    && forall i :: 0 <= i < |before| ==>
         after[i].command == before[i].command && (before[i].done ==> after[i].done)
  }

  /**
   Each step touches what it is for: the log grows by a commit or another writer only, a row
   is added by Enqueue only and done rows stay done, no outcome is ever taken back, and a crash
   or a pass given up leaves log and queue as they were, the crash losing every waiter.
   */
  lemma StepTouches(env: Env, s: Sys, step: Step)
    requires Enabled(s, step)
    ensures var t := After(env, s, step);
            && (!step.Commit? && !step.Foreign? ==> t.table == s.table)
            && (step.Enqueue? ==> t == s.(rows := s.rows + [QueueRow(step.qc, false)]))
            && (!step.Enqueue? ==> OnlyMarks(s.rows, t.rows))
            && (!step.Check? && !step.MarkRefused? && !step.MarkBatch? && !step.Enqueue? ==> t.rows == s.rows)
            && (step.Register? ==> step.id in t.waiters && s.waiters <= t.waiters <= s.waiters + {step.id})
            && (!step.Register? ==> t.waiters <= s.waiters)
            && (step.Crash? ==> t.waiters == {} && t.phase == Idle && t.delivered == s.delivered)
            && (step.GiveUp? ==> t == s.(phase := Idle))
            && (!step.Crash? ==> forall id :: id in s.waiters && id !in t.waiters ==> id in t.delivered)
            && (forall id :: id in s.delivered && id !in s.waiters ==>
                  id in t.delivered && t.delivered[id] == s.delivered[id])
  {
    hide DecideQueued, OverlayLoad, Recorded, AllFit, InsertBatch, Applied, Carrying, PendingCommands, ForeignTo;
    hide BatchCarriesMarker, ResultsOf, MaxPosition;
  }

  // ---------------------------------------------------------------------
  // What the relations leave out
  // ---------------------------------------------------------------------

  /** Alike but for the command id in the metadata. */
  predicate SameRowButId(x: Event, y: Event) {
    && x.position == y.position && x.eid == y.eid && x.aggregate == y.aggregate && x.aggregateId == y.aggregateId
    && x.sequence == y.sequence && x.kind == y.kind && x.data == y.data && x.version == y.version
    && x.created == y.created
    && (forall k :: k in x.metadata && k != "commandId" ==> k in y.metadata && y.metadata[k] == x.metadata[k])
    && forall k :: k in y.metadata && k != "commandId" ==> k in x.metadata
  }

  /** Equality up to the stamp is equality of everything but the command id. */
  lemma StampIsAllThatDiffers(xs: seq<Event>, ys: seq<Event>)
    ensures SameUpToStamp(xs, ys) <==> |xs| == |ys| && forall i :: 0 <= i < |xs| ==> SameRowButId(xs[i], ys[i])
  {
    if |xs| == |ys| {
      forall i | 0 <= i < |xs|
        ensures Unstamped(xs[i]) == Unstamped(ys[i]) <==> SameRowButId(xs[i], ys[i])
      {
        UnstampedIff(xs[i], ys[i]);
      }
    }
  }

  lemma UnstampedIff(x: Event, y: Event)
    ensures Unstamped(x) == Unstamped(y) <==> SameRowButId(x, y)
  {
    var m, n := x.metadata - {COMMAND_ID}, y.metadata - {COMMAND_ID};
    if SameRowButId(x, y) {
      assert m == n;
    }
    if Unstamped(x) == Unstamped(y) {
      assert m == n;
      forall k | k in x.metadata && k != "commandId"
        ensures k in y.metadata && y.metadata[k] == x.metadata[k]
      {
        assert k in m;
      }
      forall k | k in y.metadata && k != "commandId"
        ensures k in x.metadata
      {
        assert k in n;
      }
    }
  }

  /** What a decider may look at in an event: everything but its position, id, time and command id. */
  lemma ShadowKeeps(e: Event)
    ensures var s := Shadow(e);
            && s.aggregate == e.aggregate && s.aggregateId == e.aggregateId && s.sequence == e.sequence
            && s.kind == e.kind && s.data == e.data
            && (e.version >= 1 ==> s.version == e.version) && (e.version < 1 ==> s.version == 1)
            && forall k :: k in s.metadata <==> k in e.metadata && k != "commandId"
    ensures forall k :: k in e.metadata && k != "commandId" ==> Shadow(e).metadata[k] == e.metadata[k]
  {
  }
}
