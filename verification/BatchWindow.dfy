/**
 One window of the batching writer: commands decided one after another against the durable
 log plus what the window has already decided. The window is compared with the serial
 reference (each command handled on its own, in queue order) and with its own replay.
 */
module BatchWindow {
  import opened Wrappers
  import opened EventLog
  import opened LogInvariant
  import opened EventStore
  import opened Deciding

  /** A durable queue row's content; meta is None when the stored JSON does not parse. */
  datatype QueuedCommand = QueuedCommand(
    id: string,
    key: StreamKey,
    command: string,
    payload: string,
    meta: Option<Metadata>,
    enqueuedAt: nat
  )

  type Staged = map<StreamKey, seq<Event>>

  function Pending(staged: Staged, key: StreamKey): seq<Event> {
    if key in staged then staged[key] else []
  }

  /** A staged event: no id, position, timestamp or command id, and the version as produced. */
  function StagedRow(key: StreamKey, sequence: nat, ne: NewEvent): Event {
    Event(0, "", key.0, key.1, sequence, ne.kind, ne.data, ne.metadata, ne.version, "")
  }

  function StagedRows(key: StreamKey, base: nat, evts: seq<NewEvent>): (rows: seq<Event>)
    ensures |rows| == |evts|
  {
    seq(|evts|, i requires 0 <= i < |evts| => StagedRow(key, base + i + 1, evts[i]))
  }

  function Recorded(staged: Staged, key: StreamKey, evts: seq<NewEvent>, base: nat): Staged {
    if |evts| == 0 then staged else staged[key := Pending(staged, key) + StagedRows(key, base, evts)]
  }

  /** The overlay's LoadStream: the durable stream, then what this window staged for it. */
  function OverlayLoad(log: seq<Event>, u: Option<Upcaster>, staged: Staged, key: StreamKey): Option<seq<Event>> {
    var durable := Load(log, u, key);
    if durable.None? then None else Some(durable.value + Pending(staged, key))
  }

  class Overlay {
    const store: Store
    var pending: Staged

    constructor (store: Store)
      ensures this.store == store && pending == map[]
    {
      this.store := store;
      pending := map[];
    }

    method LoadStream(key: StreamKey) returns (stream: Option<seq<Event>>)
      ensures stream == OverlayLoad(store.table, store.upcaster, pending, key)
    {
      var durable := store.LoadStream(key);
      if durable.None? {
        return None;
      }
      var staged := if key in pending then pending[key] else [];
      if |staged| == 0 {
        assert durable.value + [] == durable.value;
        return durable;
      }
      return Some(durable.value + staged);
    }

    method Record(key: StreamKey, evts: seq<NewEvent>, base: nat)
      modifies this`pending
      ensures pending == Recorded(old(pending), key, evts, base)
    {
      if |evts| == 0 {
        return;
      }
      var staged: seq<Event> := [];
      for i := 0 to |evts|
        invariant staged == StagedRows(key, base, evts)[..i]
      {
        staged := staged + [StagedRow(key, base + i + 1, evts[i])];
      }
      assert staged == StagedRows(key, base, evts);
      pending := pending[key := (if key in pending then pending[key] else []) + staged];
    }
  }

  // ---------------------------------------------------------------------
  // The window and the serial reference
  // ---------------------------------------------------------------------

  /** What became of one command of the window: refused, or the batch entry it became. */
  datatype Verdict = Rejected(error: Error) | Accepted(slot: nat)

  datatype Window = Window(staged: Staged, batch: seq<DecidedCommand>, verdicts: seq<Verdict>)

  function DecideQueued(reg: Deciders, stream: Option<seq<Event>>, qc: QueuedCommand): Result<Decision, Error> {
    if qc.meta.None? then Failure(InvalidMeta)
    else DecideOn(reg, stream, qc.key, Command(qc.command, qc.payload), qc.meta.value)
  }

  function WindowStep(reg: Deciders, u: Option<Upcaster>, log: seq<Event>, w: Window, qc: QueuedCommand): Window {
    var decision := DecideQueued(reg, OverlayLoad(log, u, w.staged, qc.key), qc);
    if decision.Failure? then w.(verdicts := w.verdicts + [Rejected(decision.error)])
    else
      var d := decision.value;
      Window(Recorded(w.staged, qc.key, d.newEvents, d.expected),
             w.batch + [DecidedCommand(qc.id, qc.key, d.expected, d.newEvents)],
             w.verdicts + [Accepted(|w.batch|)])
  }

  function WindowOf(reg: Deciders, u: Option<Upcaster>, log: seq<Event>, cmds: seq<QueuedCommand>): (w: Window)
    ensures |w.verdicts| == |cmds|
    ensures |w.batch| <= |cmds|
    ensures forall i :: 0 <= i < |cmds| && w.verdicts[i].Accepted? ==>
              w.verdicts[i].slot < |w.batch| && w.batch[w.verdicts[i].slot].commandId == cmds[i].id
  {
    if |cmds| == 0 then Window(map[], [], [])
    else WindowStep(reg, u, log, WindowOf(reg, u, log, cmds[..|cmds| - 1]), cmds[|cmds| - 1])
  }

  datatype SerialRun = SerialRun(log: seq<Event>, outcomes: seq<Outcome>)

  function HandleQueued(env: Env, reg: Deciders, u: Option<Upcaster>, log: seq<Event>, qc: QueuedCommand): Handled {
    if qc.meta.None? then Handled(log, Failure(InvalidMeta))
    else HandleOn(env, reg, u, log, qc.key, Command(qc.command, qc.payload), qc.meta.value)
  }

  /** The reference: HandleWithMeta on the commands one by one, in queue order. */
  function SerialOf(env: Env, reg: Deciders, u: Option<Upcaster>, log: seq<Event>,
                    cmds: seq<QueuedCommand>): (r: SerialRun)
    ensures |r.outcomes| == |cmds|
  {
    if |cmds| == 0 then SerialRun(log, [])
    else
      var before := SerialOf(env, reg, u, log, cmds[..|cmds| - 1]);
      var h := HandleQueued(env, reg, u, before.log, cmds[|cmds| - 1]);
      SerialRun(h.log, before.outcomes + [h.outcome])
  }

  /** Both runs, one command at a time. */
  lemma NextCommand(env: Env, reg: Deciders, u: Option<Upcaster>, log: seq<Event>, cmds: seq<QueuedCommand>,
                    qc: QueuedCommand)
    ensures WindowOf(reg, u, log, cmds + [qc]) == WindowStep(reg, u, log, WindowOf(reg, u, log, cmds), qc)
    ensures SerialOf(env, reg, u, log, cmds + [qc]) ==
            var h := HandleQueued(env, reg, u, SerialOf(env, reg, u, log, cmds).log, qc);
            SerialRun(h.log, SerialOf(env, reg, u, log, cmds).outcomes + [h.outcome])
  {
    assert (cmds + [qc])[..|cmds + [qc]| - 1] == cmds;
  }

  /** The outcome a committed window gives command i. */
  function WindowOutcome(env: Env, log: seq<Event>, w: Window, i: nat): Outcome
    requires i < |w.verdicts| && (w.verdicts[i].Accepted? ==> w.verdicts[i].slot < |w.batch|)
  {
    match w.verdicts[i]
    case Rejected(error) => Failure(error)
    case Accepted(k) => Success(Landed(env, log, w.batch, k).events)
  }

  // ---------------------------------------------------------------------
  // Equality up to the stamped command id
  // ---------------------------------------------------------------------

  function Unstamped(e: Event): Event {
    e.(metadata := e.metadata - {COMMAND_ID})
  }

  predicate SameUpToStamp(xs: seq<Event>, ys: seq<Event>) {
    |xs| == |ys| && forall i :: 0 <= i < |xs| ==> Unstamped(xs[i]) == Unstamped(ys[i])
  }

  predicate SameOutcome(x: Outcome, y: Outcome) {
    match (x, y)
    case (Success(xs), Success(ys)) => SameUpToStamp(xs, ys)
    case (Failure(e), Failure(f)) => e == f
    case _ => false
  }

  lemma {:induction false} SameUpToStampStreams(xs: seq<Event>, ys: seq<Event>, key: StreamKey)
    requires SameUpToStamp(xs, ys)
    ensures SameUpToStamp(StreamOf(xs, key), StreamOf(ys, key))
  {
    if |xs| > 0 {
      var n := |xs| - 1;
      SameUpToStampStreams(xs[..n], ys[..n], key);
      assert Unstamped(xs[n]) == Unstamped(ys[n]);
      assert Key(xs[n]) == Key(Unstamped(xs[n])) == Key(ys[n]);
    }
  }

  lemma SameUpToStampConcat(xs: seq<Event>, ys: seq<Event>, us: seq<Event>, vs: seq<Event>)
    requires SameUpToStamp(xs, ys) && SameUpToStamp(us, vs)
    ensures SameUpToStamp(xs + us, ys + vs)
  {
  }

  lemma NextPositionUpToStamp(xs: seq<Event>, ys: seq<Event>)
    requires SameUpToStamp(xs, ys)
    ensures NextPosition(xs) == NextPosition(ys)
  {
    if |xs| > 0 {
      assert Unstamped(xs[|xs| - 1]) == Unstamped(ys[|ys| - 1]);
    }
  }

  lemma StampedRowsUpToStamp(env: Env, next: nat, key: StreamKey, base: nat, evts: seq<NewEvent>, id: string)
    ensures SameUpToStamp(RowsOf(env, next, key, base, Stamped(evts, id)), RowsOf(env, next, key, base, evts))
  {
    var xs, ys := RowsOf(env, next, key, base, Stamped(evts, id)), RowsOf(env, next, key, base, evts);
    forall i | 0 <= i < |xs|
      ensures Unstamped(xs[i]) == Unstamped(ys[i])
    {
      assert xs[i].metadata == evts[i].metadata[COMMAND_ID := id];
      assert xs[i].metadata - {COMMAND_ID} == ys[i].metadata - {COMMAND_ID};
    }
  }

  lemma StagedRowsShadow(env: Env, next: nat, key: StreamKey, base: nat, evts: seq<NewEvent>)
    ensures SameShadow(RowsOf(env, next, key, base, evts), StagedRows(key, base, evts))
  {
  }

  // ---------------------------------------------------------------------
  // The simulation: after every prefix, the window and the serial run agree
  // ---------------------------------------------------------------------

  lemma {:induction false} UpcastConcat(u: Option<Upcaster>, xs: seq<Event>, ys: seq<Event>)
    requires u.Some? ==> forall i :: 0 <= i < |ys| ==> u.value.Apply(ys[i]) == Some(ys[i])
    ensures UpcastAll(u, xs + ys) ==
            if UpcastAll(u, xs).None? then None else Some(UpcastAll(u, xs).value + ys)
  {
    if |ys| == 0 {
      assert xs + ys == xs;
      if UpcastAll(u, xs).Some? {
        assert UpcastAll(u, xs).value + ys == UpcastAll(u, xs).value;
      }
    } else {
      var n := |ys| - 1;
      assert (xs + ys)[..|xs + ys| - 1] == xs + ys[..n];
      UpcastConcat(u, xs, ys[..n]);
      if UpcastAll(u, xs).Some? {
        assert UpcastAll(u, xs).value + ys == UpcastAll(u, xs).value + ys[..n] + [ys[n]];
      }
    }
  }

  predicate FixedByUpcaster(u: Option<Upcaster>, rows: seq<Event>) {
    u.Some? ==> forall i :: 0 <= i < |rows| ==> u.value.Apply(rows[i]) == Some(rows[i])
  }

  lemma {:induction false} FixedStream(u: Option<Upcaster>, rows: seq<Event>, key: StreamKey)
    requires FixedByUpcaster(u, rows)
    ensures FixedByUpcaster(u, StreamOf(rows, key))
  {
    if |rows| > 0 {
      FixedStream(u, rows[..|rows| - 1], key);
    }
  }

  /** The serial run's rows are read last in their streams, as the window's staged ones are. */
  ghost predicate LoadsKeepUp(log: seq<Event>, serial: seq<Event>)
    requires log <= serial
  {
    forall key :: LoadRows(serial, key) == LoadRows(log, key) + StreamOf(serial[|log|..], key)
  }

  /** Every stream stands, serially, where the batch's running check has got to. */
  ghost predicate StandsAsChecked(log: seq<Event>, batch: seq<DecidedCommand>, serial: seq<Event>) {
    forall key :: CurrentSequence(serial, key) == RunningSequence(log, batch, key)
  }

  /** What the serial table and the window have in common after the same commands. */
  ghost predicate Agree(env: Env, u: Option<Upcaster>, log: seq<Event>, w: Window, serial: seq<Event>) {
    && log <= serial && LoadsKeepUp(log, serial) && StandsAsChecked(log, w.batch, serial)
    && SameUpToStamp(InsertBatch(env, log, w.batch), serial)
    && FixedByUpcaster(u, serial[|log|..])
    && forall key :: SameShadow(StreamOf(serial[|log|..], key), Pending(w.staged, key))
  }

  /** Both deciders see the same stream, up to what a staged event lacks. */
  lemma AgreeLoads(env: Env, u: Option<Upcaster>, log: seq<Event>, w: Window, serial: seq<Event>, key: StreamKey)
    requires Agree(env, u, log, w, serial)
    ensures Load(serial, u, key).Some? <==> OverlayLoad(log, u, w.staged, key).Some?
    ensures Load(serial, u, key).Some? ==>
              SameShadow(Load(serial, u, key).value, OverlayLoad(log, u, w.staged, key).value)
  {
    var added := serial[|log|..];
    assert LoadRows(serial, key) == LoadRows(log, key) + StreamOf(added, key);
    FixedStream(u, added, key);
    UpcastConcat(u, LoadRows(log, key), StreamOf(added, key));
    assert SameShadow(StreamOf(added, key), Pending(w.staged, key));
  }

  lemma AgreeDecisions(env: Env, reg: Deciders, u: Option<Upcaster>, log: seq<Event>, w: Window, serial: seq<Event>,
                       qc: QueuedCommand)
    requires Agree(env, u, log, w, serial) && FoldsByShadow(reg)
    ensures DecideQueued(reg, OverlayLoad(log, u, w.staged, qc.key), qc) ==
            DecideQueued(reg, Load(serial, u, qc.key), qc)
  {
    hide Agree, Fold, Decider.Outcome, Merged, OverlayLoad, Load, FoldsByShadow, SameShadow;
    AgreeLoads(env, u, log, w, serial, qc.key);
    if qc.meta.Some? && Load(serial, u, qc.key).Some? {
      SameShadowSameDecision(reg, OverlayLoad(log, u, w.staged, qc.key).value, Load(serial, u, qc.key).value,
                             qc.key, Command(qc.command, qc.payload), qc.meta.value);
    }
  }

  lemma DecidedIsEmitted(env: Env, reg: Deciders, u: Option<Upcaster>, stream: Option<seq<Event>>, qc: QueuedCommand,
                         next: nat, base: nat)
    requires EmitsLatest(reg, u) && DecideQueued(reg, stream, qc).Success?
    ensures FixedByUpcaster(u, RowsOf(env, next, qc.key, base, DecideQueued(reg, stream, qc).value.newEvents))
  {
    var evts := DecideQueued(reg, stream, qc).value.newEvents;
    var rows := RowsOf(env, next, qc.key, base, evts);
    var d, cmd, meta := reg[qc.key.0], Command(qc.command, qc.payload), qc.meta.value;
    var state := Fold(d, stream.value).value;
    if u.Some? {
      forall i | 0 <= i < |rows|
        ensures u.value.Apply(rows[i]) == Some(rows[i])
      {
        assert evts == Merged(d.Outcome(qc.key.1, cmd, state, meta).value, meta);
        assert d.Outcome(qc.key.1, cmd, state, meta).value[i].kind == rows[i].kind;
        assert Emits(d, rows[i].kind, rows[i].version);
      }
    }
  }

  /** Accepting a command that fits keeps the agreement: both tables grow alike. */
  lemma AgreeAccept(env: Env, u: Option<Upcaster>, log: seq<Event>, w: Window, serial: seq<Event>, qc: QueuedCommand,
                    d: Decision)
    requires Agree(env, u, log, w, serial)
    requires AllFit(log, w.batch + [DecidedCommand(qc.id, qc.key, d.expected, d.newEvents)])
    requires FixedByUpcaster(u, RowsOf(env, NextPosition(serial), qc.key, d.expected, d.newEvents))
    ensures var w' := Window(Recorded(w.staged, qc.key, d.newEvents, d.expected),
                             w.batch + [DecidedCommand(qc.id, qc.key, d.expected, d.newEvents)],
                             w.verdicts + [Accepted(|w.batch|)]);
            var rows := RowsOf(env, NextPosition(serial), qc.key, d.expected, d.newEvents);
            && CurrentSequence(serial, qc.key) == d.expected
            && Agree(env, u, log, w', serial + rows)
            && SameUpToStamp(Landed(env, log, w'.batch, |w.batch|).events, rows)
  {
    hide RunningSequence, CurrentSequence, StreamOf, LoadRows, AllFit, Recorded, RowsOf, FixedByUpcaster, SameShadow;
    var rows := RowsOf(env, NextPosition(serial), qc.key, d.expected, d.newEvents);
    EntryStands(env, log, w.batch, DecidedCommand(qc.id, qc.key, d.expected, d.newEvents), serial);
    EntryLoads(env, log, serial, qc.key, d.expected, d.newEvents);
    EntryLandsAlike(env, log, w.batch, DecidedCommand(qc.id, qc.key, d.expected, d.newEvents), serial);
    AgreeStaged(env, u, log, w, serial, qc, d);
    hide StandsAsChecked, LoadsKeepUp, SameUpToStamp, InsertBatch, Landed, NextPosition, Pending;
    assert log <= serial + rows;
  }

  lemma EntryStands(env: Env, log: seq<Event>, batch: seq<DecidedCommand>, dc: DecidedCommand, serial: seq<Event>)
    requires StandsAsChecked(log, batch, serial) && AllFit(log, batch + [dc])
    ensures CurrentSequence(serial, dc.key) == dc.expected
    ensures StandsAsChecked(log, batch + [dc],
                            serial + RowsOf(env, NextPosition(serial), dc.key, dc.expected, dc.newEvents))
  {
    var batch' := batch + [dc];
    assert batch'[..|batch|] == batch && batch'[..|batch'| - 1] == batch;
    assert Fits(log, batch', |batch|);
    assert CurrentSequence(serial, dc.key) == RunningSequence(log, batch, dc.key);
    hide CurrentSequence, RowsOf, NextPosition;
    forall key
      ensures CurrentSequence(serial + RowsOf(env, NextPosition(serial), dc.key, dc.expected, dc.newEvents), key) ==
              RunningSequence(log, batch', key)
    {
      CurrentOfRows(env, serial, NextPosition(serial), dc.key, dc.expected, dc.newEvents, key);
      assert CurrentSequence(serial, key) == RunningSequence(log, batch, key);
    }
  }

  lemma EntryLoads(env: Env, log: seq<Event>, serial: seq<Event>, owner: StreamKey, base: nat, evts: seq<NewEvent>)
    requires log <= serial && LoadsKeepUp(log, serial) && CurrentSequence(serial, owner) == base
    ensures var serial' := serial + RowsOf(env, NextPosition(serial), owner, base, evts);
            log <= serial' && LoadsKeepUp(log, serial')
  {
    hide CurrentSequence, RowsOf, NextPosition, StreamOf, LoadRows;
    var rows := RowsOf(env, NextPosition(serial), owner, base, evts);
    var added := serial[|log|..];
    assert (serial + rows)[|log|..] == added + rows;
    forall key
      ensures LoadRows(serial + rows, key) == LoadRows(log, key) + StreamOf(added + rows, key)
    {
      LoadOfRows(env, serial, NextPosition(serial), owner, base, evts, key);
      StreamOfConcat(added, rows, key);
      assert LoadRows(serial, key) == LoadRows(log, key) + StreamOf(added, key);
    }
  }

  lemma EntryLandsAlike(env: Env, log: seq<Event>, batch: seq<DecidedCommand>, dc: DecidedCommand, serial: seq<Event>)
    requires SameUpToStamp(InsertBatch(env, log, batch), serial)
    ensures var rows := RowsOf(env, NextPosition(serial), dc.key, dc.expected, dc.newEvents);
            && SameUpToStamp(InsertBatch(env, log, batch + [dc]), serial + rows)
            && SameUpToStamp(Landed(env, log, batch + [dc], |batch|).events, rows)
  {
    var batch' := batch + [dc];
    var before := InsertBatch(env, log, batch);
    assert batch'[..|batch|] == batch && batch'[..|batch'| - 1] == batch;
    NextPositionUpToStamp(before, serial);
    StampedRowsUpToStamp(env, NextPosition(serial), dc.key, dc.expected, dc.newEvents, dc.commandId);
    SameUpToStampConcat(before, serial, BlockRows(env, before, dc),
                        RowsOf(env, NextPosition(serial), dc.key, dc.expected, dc.newEvents));
    hide SameUpToStamp, RowsOf, NextPosition;
  }

  lemma AgreeStaged(env: Env, u: Option<Upcaster>, log: seq<Event>, w: Window, serial: seq<Event>, qc: QueuedCommand,
                    d: Decision)
    requires Agree(env, u, log, w, serial)
    requires FixedByUpcaster(u, RowsOf(env, NextPosition(serial), qc.key, d.expected, d.newEvents))
    ensures var rows := RowsOf(env, NextPosition(serial), qc.key, d.expected, d.newEvents);
            && FixedByUpcaster(u, (serial + rows)[|log|..])
            && forall key :: SameShadow(StreamOf((serial + rows)[|log|..], key),
                                        Pending(Recorded(w.staged, qc.key, d.newEvents, d.expected), key))
  {
    var rows := RowsOf(env, NextPosition(serial), qc.key, d.expected, d.newEvents);
    var added := serial[|log|..];
    assert (serial + rows)[|log|..] == added + rows;
    FixedConcat(u, added, rows);
    forall key
      ensures SameShadow(StreamOf(added + rows, key), Pending(Recorded(w.staged, qc.key, d.newEvents, d.expected), key))
    {
      assert SameShadow(StreamOf(added, key), Pending(w.staged, key));
      StagedKeepsUp(env, added, w.staged, NextPosition(serial), qc.key, d.expected, d.newEvents, key);
    }
  }

  lemma FixedConcat(u: Option<Upcaster>, xs: seq<Event>, ys: seq<Event>)
    requires FixedByUpcaster(u, xs) && FixedByUpcaster(u, ys)
    ensures FixedByUpcaster(u, xs + ys)
  {
  }

  lemma StagedKeepsUp(env: Env, added: seq<Event>, staged: Staged, next: nat, owner: StreamKey, base: nat,
                      evts: seq<NewEvent>, key: StreamKey)
    requires SameShadow(StreamOf(added, key), Pending(staged, key))
    ensures SameShadow(StreamOf(added + RowsOf(env, next, owner, base, evts), key),
                       Pending(Recorded(staged, owner, evts, base), key))
  {
    var rows := RowsOf(env, next, owner, base, evts);
    StreamOfConcat(added, rows, key);
    RowsOfFacts(env, next, owner, base, evts, key);
    StagedRowsShadow(env, next, owner, base, evts);
    hide *;
    assert Pending(Recorded(staged, owner, evts, base), key) ==
           if owner == key then Pending(staged, key) + StagedRows(owner, base, evts) else Pending(staged, key) by {
      PendingRecorded(staged, owner, evts, base, key);
    }
    if owner == key {
      SameShadowConcat(StreamOf(added, key), Pending(staged, key), rows, StagedRows(owner, base, evts));
    } else {
      assert StreamOf(added, key) + [] == StreamOf(added, key);
    }
  }

  lemma PendingRecorded(staged: Staged, owner: StreamKey, evts: seq<NewEvent>, base: nat, key: StreamKey)
    ensures Pending(Recorded(staged, owner, evts, base), key) ==
            if owner == key then Pending(staged, key) + StagedRows(owner, base, evts) else Pending(staged, key)
  {
    if |evts| == 0 {
      assert Pending(staged, key) + StagedRows(owner, base, evts) == Pending(staged, key);
    }
  }

  lemma SameShadowConcat(xs: seq<Event>, ys: seq<Event>, us: seq<Event>, vs: seq<Event>)
    requires SameShadow(xs, ys) && SameShadow(us, vs)
    ensures SameShadow(xs + us, ys + vs)
  {
  }

  lemma StepGrows(reg: Deciders, u: Option<Upcaster>, log: seq<Event>, w: Window, qc: QueuedCommand)
    ensures w.batch <= WindowStep(reg, u, log, w, qc).batch
    ensures |WindowStep(reg, u, log, w, qc).verdicts| == |w.verdicts| + 1
    ensures WindowStep(reg, u, log, w, qc).verdicts[..|w.verdicts|] == w.verdicts
  {
  }

  lemma {:induction false} WindowGrows(reg: Deciders, u: Option<Upcaster>, log: seq<Event>, cmds: seq<QueuedCommand>,
                                       n: nat)
    requires n <= |cmds|
    ensures WindowOf(reg, u, log, cmds[..n]).batch <= WindowOf(reg, u, log, cmds).batch
    ensures WindowOf(reg, u, log, cmds[..n]).verdicts == WindowOf(reg, u, log, cmds).verdicts[..n]
  {
    if n == |cmds| {
      assert cmds[..n] == cmds;
    } else {
      var front := cmds[..|cmds| - 1];
      assert front[..n] == cmds[..n];
      WindowGrows(reg, u, log, front, n);
      StepGrows(reg, u, log, WindowOf(reg, u, log, front), cmds[|cmds| - 1]);
      hide WindowStep;
      var w, w' := WindowOf(reg, u, log, front), WindowOf(reg, u, log, cmds);
      assert w'.verdicts[..n] == w'.verdicts[..|w.verdicts|][..n];
    }
  }

  lemma LandedPrefix(env: Env, log: seq<Event>, shorter: seq<DecidedCommand>, longer: seq<DecidedCommand>, k: nat)
    requires shorter <= longer && k < |shorter|
    ensures Landed(env, log, shorter, k) == Landed(env, log, longer, k)
  {
    assert shorter[..k] == longer[..k];
  }

  lemma PrefixMarker(shorter: seq<DecidedCommand>, longer: seq<DecidedCommand>)
    requires shorter <= longer && !BatchCarriesMarker(longer)
    ensures !BatchCarriesMarker(shorter)
  {
    forall i | 0 <= i < |shorter|
      ensures !CarriesMarker(shorter[i].newEvents)
    {
      assert !CarriesMarker(longer[i].newEvents);
    }
  }

  /** CommitBatch takes the batch, if the database does. */
  predicate Commitable(log: seq<Event>, batch: seq<DecidedCommand>) {
    !BatchCarriesMarker(batch) && AllFit(log, batch)
  }

  lemma CommitablePrefix(log: seq<Event>, shorter: seq<DecidedCommand>, longer: seq<DecidedCommand>)
    requires shorter <= longer && Commitable(log, longer)
    ensures Commitable(log, shorter)
  {
    PrefixMarker(shorter, longer);
    FitsPrefix(log, longer, |shorter|);
    assert longer[..|shorter|] == shorter;
  }

  /** A window and a serial run of the same commands, with the same log and the same outcomes so far. */
  ghost predicate Matches(env: Env, u: Option<Upcaster>, log: seq<Event>, w: Window, s: SerialRun) {
    && Agree(env, u, log, w, s.log)
    && |w.verdicts| == |s.outcomes|
    && forall i :: 0 <= i < |w.verdicts| ==>
         && (w.verdicts[i].Accepted? ==> w.verdicts[i].slot < |w.batch|)
         && SameOutcome(WindowOutcome(env, log, w, i), s.outcomes[i])
  }

  lemma MatchesAtFirst(env: Env, u: Option<Upcaster>, log: seq<Event>)
    ensures Matches(env, u, log, Window(map[], [], []), SerialRun(log, []))
  {
    assert log[|log|..] == [];
    assert forall key :: LoadRows(log, key) + [] == LoadRows(log, key);
  }

  lemma MatchesMore(env: Env, u: Option<Upcaster>, log: seq<Event>, w: Window, w': Window, s: SerialRun, h: Handled)
    requires Matches(env, u, log, w, s) && Agree(env, u, log, w', h.log)
    requires w.batch <= w'.batch && |w'.verdicts| == |w.verdicts| + 1 && w'.verdicts[..|w.verdicts|] == w.verdicts
    requires var n := |w.verdicts|;
             && (w'.verdicts[n].Accepted? ==> w'.verdicts[n].slot < |w'.batch|)
             && SameOutcome(WindowOutcome(env, log, w', n), h.outcome)
    ensures Matches(env, u, log, w', SerialRun(h.log, s.outcomes + [h.outcome]))
  {
    hide Agree, WindowOutcome, SameOutcome;
    forall i | 0 <= i < |w.verdicts|
      ensures w.verdicts[i].Accepted? ==> w'.verdicts[i].slot < |w'.batch|
      ensures w'.verdicts[i] == w.verdicts[i] && SameOutcome(WindowOutcome(env, log, w', i), s.outcomes[i])
    {
      assert w'.verdicts[..|w.verdicts|][i] == w.verdicts[i];
      OutcomeStays(env, log, w, w', i);
    }
  }

  lemma MatchesStep(env: Env, reg: Deciders, u: Option<Upcaster>, log: seq<Event>, w: Window, s: SerialRun,
                    qc: QueuedCommand)
    requires FoldsByShadow(reg) && EmitsLatest(reg, u) && Matches(env, u, log, w, s)
    requires Commitable(log, WindowStep(reg, u, log, w, qc).batch)
    ensures var h := HandleQueued(env, reg, u, s.log, qc);
            Matches(env, u, log, WindowStep(reg, u, log, w, qc), SerialRun(h.log, s.outcomes + [h.outcome]))
  {
    assert Agree(env, u, log, w, s.log);
    assert forall i :: 0 <= i < |w.verdicts| && w.verdicts[i].Accepted? ==> w.verdicts[i].slot < |w.batch|;
    StepFits(reg, u, log, w, qc);
    hide *;
    StepGrows(reg, u, log, w, qc);
    OneMore(env, reg, u, log, w, s.log, qc);
    MatchesMore(env, u, log, w, WindowStep(reg, u, log, w, qc), s, HandleQueued(env, reg, u, s.log, qc));
  }

  lemma StepFits(reg: Deciders, u: Option<Upcaster>, log: seq<Event>, w: Window, qc: QueuedCommand)
    ensures var w' := WindowStep(reg, u, log, w, qc);
            && |w'.verdicts| == |w.verdicts| + 1
            && (w'.verdicts[|w.verdicts|].Accepted? ==> w'.verdicts[|w.verdicts|].slot < |w'.batch|)
  {
  }

  lemma {:induction false} MatchesSerial(env: Env, reg: Deciders, u: Option<Upcaster>, log: seq<Event>,
                                         cmds: seq<QueuedCommand>)
    requires FoldsByShadow(reg) && EmitsLatest(reg, u) && Commitable(log, WindowOf(reg, u, log, cmds).batch)
    ensures Matches(env, u, log, WindowOf(reg, u, log, cmds), SerialOf(env, reg, u, log, cmds))
  {
    hide Matches, FoldsByShadow, EmitsLatest, Commitable, WindowStep, HandleQueued;
    if |cmds| == 0 {
      MatchesAtFirst(env, u, log);
    } else {
      var front, qc := cmds[..|cmds| - 1], cmds[|cmds| - 1];
      var w := WindowOf(reg, u, log, front);
      StepGrows(reg, u, log, w, qc);
      CommitablePrefix(log, w.batch, WindowOf(reg, u, log, cmds).batch);
      MatchesSerial(env, reg, u, log, front);
      MatchesStep(env, reg, u, log, w, SerialOf(env, reg, u, log, front), qc);
    }
  }

  /**
   Batched equals serial. For any log, whatever gaps it has, and any list of commands whose
   batch CommitBatch accepts: the committed table is the serial one up to the stamped command
   ids, and every command, refused ones included, gets the outcome the serial run gives it.
   */
  lemma BatchedEqualsSerial(env: Env, reg: Deciders, u: Option<Upcaster>, log: seq<Event>,
                            cmds: seq<QueuedCommand>)
    requires FoldsByShadow(reg) && EmitsLatest(reg, u) && Commitable(log, WindowOf(reg, u, log, cmds).batch)
    ensures SameUpToStamp(InsertBatch(env, log, WindowOf(reg, u, log, cmds).batch),
                          SerialOf(env, reg, u, log, cmds).log)
    ensures forall i :: 0 <= i < |cmds| ==>
              SameOutcome(WindowOutcome(env, log, WindowOf(reg, u, log, cmds), i),
                          SerialOf(env, reg, u, log, cmds).outcomes[i])
  {
    hide FoldsByShadow, EmitsLatest, Commitable, WindowOf, SerialOf, WindowOutcome, SameOutcome;
    MatchesSerial(env, reg, u, log, cmds);
  }

  /** A window that goes on deciding leaves the outcomes it has as they are. */
  lemma OutcomeStays(env: Env, log: seq<Event>, w: Window, w': Window, i: nat)
    requires i < |w.verdicts| <= |w'.verdicts| && w'.verdicts[i] == w.verdicts[i] && w.batch <= w'.batch
    requires w.verdicts[i].Accepted? ==> w.verdicts[i].slot < |w.batch|
    ensures WindowOutcome(env, log, w', i) == WindowOutcome(env, log, w, i)
  {
    if w.verdicts[i].Accepted? {
      LandedPrefix(env, log, w.batch, w'.batch, w.verdicts[i].slot);
    }
  }

  /** On the serial side an accepted command appends its rows where its stream stands. */
  lemma SerialAccept(env: Env, reg: Deciders, u: Option<Upcaster>, serial: seq<Event>, qc: QueuedCommand)
    requires DecideQueued(reg, Load(serial, u, qc.key), qc).Success?
    requires var d := DecideQueued(reg, Load(serial, u, qc.key), qc).value;
             d.expected == CurrentSequence(serial, qc.key) && !CarriesMarker(d.newEvents)
    ensures var d := DecideQueued(reg, Load(serial, u, qc.key), qc).value;
            var rows := RowsOf(env, NextPosition(serial), qc.key, d.expected, d.newEvents);
            HandleQueued(env, reg, u, serial, qc) == Handled(serial + rows, Success(rows))
  {
    var d := DecideQueued(reg, Load(serial, u, qc.key), qc).value;
    var rows := RowsOf(env, NextPosition(serial), qc.key, d.expected, d.newEvents);
    assert (serial + rows)[|serial|..] == rows;
    if |d.newEvents| == 0 {
      assert serial + rows == serial;
    }
  }

  /** One more command, on both sides. */
  lemma OneMore(env: Env, reg: Deciders, u: Option<Upcaster>, log: seq<Event>, w: Window, serial: seq<Event>,
                qc: QueuedCommand)
    requires FoldsByShadow(reg) && EmitsLatest(reg, u)
    requires Agree(env, u, log, w, serial)
    requires forall i :: 0 <= i < |w.verdicts| && w.verdicts[i].Accepted? ==> w.verdicts[i].slot < |w.batch|
    requires Commitable(log, WindowStep(reg, u, log, w, qc).batch)
    ensures Agree(env, u, log, WindowStep(reg, u, log, w, qc), HandleQueued(env, reg, u, serial, qc).log)
    ensures SameOutcome(WindowOutcome(env, log, WindowStep(reg, u, log, w, qc), |w.verdicts|),
                        HandleQueued(env, reg, u, serial, qc).outcome)
  {
    hide FoldsByShadow, EmitsLatest, Agree, FixedByUpcaster, DecideQueued, Load, OverlayLoad, HandleQueued, AllFit;
    hide Recorded, RowsOf, Landed, NextPosition, BatchCarriesMarker, CarriesMarker, SameUpToStamp, CurrentSequence;
    AgreeDecisions(env, reg, u, log, w, serial, qc);
    var decision := DecideQueued(reg, Load(serial, u, qc.key), qc);
    if decision.Success? {
      var d := decision.value;
      var w' := WindowStep(reg, u, log, w, qc);
      UnmarkedLast(w'.batch);
      DecidedIsEmitted(env, reg, u, Load(serial, u, qc.key), qc, NextPosition(serial), d.expected);
      AgreeAccept(env, u, log, w, serial, qc, d);
      SerialAccept(env, reg, u, serial, qc);
    } else {
      AgreeFacts(env, u, log, w, serial, w.verdicts + [Rejected(decision.error)]);
      HandleRefused(env, reg, u, serial, qc);
    }
  }

  /** Agreement says nothing of the verdicts. */
  lemma AgreeFacts(env: Env, u: Option<Upcaster>, log: seq<Event>, w: Window, serial: seq<Event>,
                   verdicts: seq<Verdict>)
    requires Agree(env, u, log, w, serial)
    ensures Agree(env, u, log, w.(verdicts := verdicts), serial)
  {
    hide LoadsKeepUp, StandsAsChecked, SameUpToStamp, InsertBatch, FixedByUpcaster, SameShadow, StreamOf;
  }

  lemma UnmarkedLast(batch: seq<DecidedCommand>)
    requires |batch| > 0 && !BatchCarriesMarker(batch)
    ensures !CarriesMarker(batch[|batch| - 1].newEvents)
  {
  }

  lemma HandleRefused(env: Env, reg: Deciders, u: Option<Upcaster>, serial: seq<Event>, qc: QueuedCommand)
    requires DecideQueued(reg, Load(serial, u, qc.key), qc).Failure?
    ensures HandleQueued(env, reg, u, serial, qc) ==
            Handled(serial, Failure(DecideQueued(reg, Load(serial, u, qc.key), qc).error))
  {
  }

  // ---------------------------------------------------------------------
  // When the writer conflicts with itself
  // ---------------------------------------------------------------------

  /** MAX(sequence) is the number of rows: what a decided command expects is where the stream stands. */
  predicate Ungapped(log: seq<Event>, key: StreamKey) {
    CurrentSequence(log, key) == |StreamOf(log, key)|
  }

  predicate AllUngapped(log: seq<Event>, batch: seq<DecidedCommand>) {
    forall k :: 0 <= k < |batch| ==> Ungapped(log, batch[k].key)
  }

  /** A command is decided against all the rows of its stream and all that is staged for it. */
  lemma OverlayLength(u: Option<Upcaster>, log: seq<Event>, staged: Staged, key: StreamKey)
    requires OverlayLoad(log, u, staged, key).Some?
    ensures |OverlayLoad(log, u, staged, key).value| == |StreamOf(log, key)| + |Pending(staged, key)|
  {
    OrderedFacts(StreamOf(log, key), 0);
  }

  predicate Touches(batch: seq<DecidedCommand>, key: StreamKey) {
    exists k :: 0 <= k < |batch| && batch[k].key == key
  }

  /**
   Where the running check stands: with the overlay on every stream without a gap, and on a
   gapped one nothing is staged before an entry that does not fit.
   */
  ghost predicate Standing(log: seq<Event>, w: Window) {
    && (forall key :: Ungapped(log, key) ==>
          RunningSequence(log, w.batch, key) == |StreamOf(log, key)| + |Pending(w.staged, key)|)
    && (forall key :: !Touches(w.batch, key) ==> Pending(w.staged, key) == [])
    && (AllFit(log, w.batch) <==> AllUngapped(log, w.batch))
  }

  lemma EntryFitsIff(log: seq<Event>, w: Window, dc: DecidedCommand)
    requires Standing(log, w) && dc.expected == |StreamOf(log, dc.key)| + |Pending(w.staged, dc.key)|
    ensures AllFit(log, w.batch + [dc]) <==> AllUngapped(log, w.batch + [dc])
  {
    var batch' := w.batch + [dc];
    assert batch'[..|w.batch|] == w.batch && batch'[..|batch'| - 1] == w.batch;
    AllFitOfFront(log, batch');
    assert Fits(log, batch', |w.batch|) <==> RunningSequence(log, w.batch, dc.key) == dc.expected;
    assert AllUngapped(log, batch') <==> AllUngapped(log, w.batch) && Ungapped(log, dc.key) by {
      assert forall k :: 0 <= k < |w.batch| ==> batch'[k] == w.batch[k];
      assert batch'[|w.batch|] == dc;
    }
    if !Ungapped(log, dc.key) {
      if Touches(w.batch, dc.key) {
        var k :| 0 <= k < |w.batch| && w.batch[k].key == dc.key;
        assert !Ungapped(log, w.batch[k].key);
      } else {
        UntouchedRunning(log, w.batch, dc.key);
      }
    }
  }

  lemma EntryKeepsStanding(log: seq<Event>, w: Window, dc: DecidedCommand, verdicts: seq<Verdict>)
    requires Standing(log, w) && dc.expected == |StreamOf(log, dc.key)| + |Pending(w.staged, dc.key)|
    ensures Standing(log, Window(Recorded(w.staged, dc.key, dc.newEvents, dc.expected), w.batch + [dc], verdicts))
  {
    EntryFitsIff(log, w, dc);
    var batch', staged' := w.batch + [dc], Recorded(w.staged, dc.key, dc.newEvents, dc.expected);
    assert batch'[..|batch'| - 1] == w.batch && batch'[|w.batch|] == dc;
    hide AllFit, AllUngapped, Recorded;
    forall key
      ensures Ungapped(log, key) ==> RunningSequence(log, batch', key) == |StreamOf(log, key)| + |Pending(staged', key)|
      ensures !Touches(batch', key) ==> Pending(staged', key) == []
    {
      PendingRecorded(w.staged, dc.key, dc.newEvents, dc.expected, key);
      TouchesMore(w.batch, dc, key);
      assert Ungapped(log, key) ==>
          RunningSequence(log, w.batch, key) == |StreamOf(log, key)| + |Pending(w.staged, key)|;
    }
  }

  lemma TouchesMore(batch: seq<DecidedCommand>, dc: DecidedCommand, key: StreamKey)
    ensures Touches(batch + [dc], key) <==> Touches(batch, key) || dc.key == key
  {
    var batch' := batch + [dc];
    assert batch'[|batch|] == dc;
    if Touches(batch, key) {
      var k :| 0 <= k < |batch| && batch[k].key == key;
      assert batch'[k].key == key;
    }
  }

  lemma StepKeepsStanding(reg: Deciders, u: Option<Upcaster>, log: seq<Event>, w: Window, qc: QueuedCommand)
    requires Standing(log, w)
    ensures Standing(log, WindowStep(reg, u, log, w, qc))
  {
    var decision := DecideQueued(reg, OverlayLoad(log, u, w.staged, qc.key), qc);
    if decision.Success? {
      var d := decision.value;
      OverlayLength(u, log, w.staged, qc.key);
      assert d.expected == |OverlayLoad(log, u, w.staged, qc.key).value|;
      hide Standing, OverlayLoad, DecideQueued, Recorded, StreamOf, Pending;
      EntryKeepsStanding(log, w, DecidedCommand(qc.id, qc.key, d.expected, d.newEvents),
                         w.verdicts + [Accepted(|w.batch|)]);
    }
  }

  lemma {:induction false} WindowStands(reg: Deciders, u: Option<Upcaster>, log: seq<Event>, cmds: seq<QueuedCommand>)
    ensures Standing(log, WindowOf(reg, u, log, cmds))
  {
    if |cmds| > 0 {
      hide Standing, WindowStep;
      WindowStands(reg, u, log, cmds[..|cmds| - 1]);
      StepKeepsStanding(reg, u, log, WindowOf(reg, u, log, cmds[..|cmds| - 1]), cmds[|cmds| - 1]);
    }
  }

  /**
   The batch of a window passes CommitBatch's running check if and only if none of the
   streams it appends to has a gap, whatever the deciders and the upcaster do.
   */
  lemma FitsIffUngapped(reg: Deciders, u: Option<Upcaster>, log: seq<Event>, cmds: seq<QueuedCommand>)
    ensures var batch := WindowOf(reg, u, log, cmds).batch;
            AllFit(log, batch) <==> forall k :: 0 <= k < |batch| ==> Ungapped(log, batch[k].key)
  {
    hide WindowOf;
    WindowStands(reg, u, log, cmds);
  }

  /** So on a contiguous log the writer never conflicts with itself. */
  lemma NeverConflictsWithItself(reg: Deciders, u: Option<Upcaster>, log: seq<Event>, cmds: seq<QueuedCommand>)
    requires LogOk(log)
    ensures AllFit(log, WindowOf(reg, u, log, cmds).batch)
    ensures forall key :: RunningSequence(log, WindowOf(reg, u, log, cmds).batch, key) ==
                          |StreamOf(log, key)| + |Pending(WindowOf(reg, u, log, cmds).staged, key)|
  {
    hide WindowOf, CurrentSequence, StreamOf, RunningSequence, Pending, AllFit;
    WindowStands(reg, u, log, cmds);
    forall key
      ensures Ungapped(log, key)
    {
      CurrentIsLength(log, key);
    }
  }

  /** And there the window is the serial run unless an event carries the marker. */
  lemma ContiguousBatchEqualsSerial(env: Env, reg: Deciders, u: Option<Upcaster>, log: seq<Event>,
                                    cmds: seq<QueuedCommand>)
    requires LogOk(log) && FoldsByShadow(reg) && EmitsLatest(reg, u)
    requires !BatchCarriesMarker(WindowOf(reg, u, log, cmds).batch)
    ensures AllFit(log, WindowOf(reg, u, log, cmds).batch)
    ensures SameUpToStamp(InsertBatch(env, log, WindowOf(reg, u, log, cmds).batch),
                          SerialOf(env, reg, u, log, cmds).log)
    ensures forall i :: 0 <= i < |cmds| ==>
              SameOutcome(WindowOutcome(env, log, WindowOf(reg, u, log, cmds), i),
                          SerialOf(env, reg, u, log, cmds).outcomes[i])
  {
    NeverConflictsWithItself(reg, u, log, cmds);
    hide FoldsByShadow, EmitsLatest, WindowOf, SerialOf, WindowOutcome, SameOutcome, AllFit, BatchCarriesMarker;
    BatchedEqualsSerial(env, reg, u, log, cmds);
  }

  // ---------------------------------------------------------------------
  // Where the agreement would break
  // ---------------------------------------------------------------------

  /** A decider that tells a staged event (version as produced) from a committed one. */
  function VersionReader(): Decider {
    Plain("", ReadDecide, ReadEvolve)
  }

  function ReadDecide(cmd: Command, s: State, meta: Metadata): Answer {
    if s == "committed" then Refused("seen committed") else Produced([NewEvent("Opened", "", map[], 0)])
  }

  function ReadEvolve(s: State, e: Event): Option<State> {
    Some(if e.version == 0 then "staged" else "committed")
  }

  const DOC: StreamKey := ("doc", "1")

  function VersionReaders(): Deciders {
    map["doc" := VersionReader()]
  }

  function Opening(id: string): QueuedCommand {
    QueuedCommand(id, DOC, "open", "", Some(map[]), 0)
  }

  lemma VersionReaderFacts(row: Event)
    ensures Fold(VersionReader(), []) == Some("")
    ensures Fold(VersionReader(), [row]) == Some(if row.version == 0 then "staged" else "committed")
    ensures DecideOn(VersionReaders(), Some([]), DOC, Command("open", ""), map[]) ==
            Success(Decision([NewEvent("Opened", "", map[], 0)], 0))
    ensures row.version == 0 ==> DecideOn(VersionReaders(), Some([row]), DOC, Command("open", ""), map[]).Success?
    ensures row.version != 0 ==> DecideOn(VersionReaders(), Some([row]), DOC, Command("open", ""), map[]) ==
                                 Failure(Rejection("seen committed"))
  {
    var d := VersionReader();
    assert [row][..0] == [] && d.Evolve("", row) == Some(if row.version == 0 then "staged" else "committed");
    assert Fold(d, [row]) == d.Evolve("", row);
    var ne := NewEvent("Opened", "", map[], 0);
    assert Merged([ne], map[]) == [ne];
    PlainOutcome("", ReadDecide, ReadEvolve, DOC.1, Command("open", ""), "", map[]);
    PlainOutcome("", ReadDecide, ReadEvolve, DOC.1, Command("open", ""), "staged", map[]);
    PlainOutcome("", ReadDecide, ReadEvolve, DOC.1, Command("open", ""), "committed", map[]);
    hide Decider.Outcome;
  }

  lemma LoadsOfOne(row: Event)
    requires Key(row) == DOC && row.sequence == 1
    ensures Load([], None, DOC) == Some([]) && Load([row], None, DOC) == Some([row])
  {
    StreamOfUniform([row], DOC, DOC);
    OrderOfOrdered([row]);
  }

  /**
   Folding by shadow is needed: for a decider that reads the raw version, two commands of
   one window are both accepted, while handled one by one the second is refused.
   */
  lemma RawVersionBreaksAgreement(env: Env)
    ensures WindowOf(VersionReaders(), None, [], [Opening("a"), Opening("b")]).verdicts[1].Accepted?
    ensures SerialOf(env, VersionReaders(), None, [], [Opening("a"), Opening("b")]).outcomes[1] ==
            Failure(Rejection("seen committed"))
  {
    hide *;
    TwoCommands(env, VersionReaders(), None, Opening("a"), Opening("b"));
    StagedLooksNew(Opening("a"), Opening("b"));
    CommittedLooksOld(env, Opening("a"), Opening("b"));
  }

  /** Two commands from an empty log, both ways. */
  lemma TwoCommands(env: Env, reg: Deciders, u: Option<Upcaster>, a: QueuedCommand, b: QueuedCommand)
    ensures WindowOf(reg, u, [], [a, b]) ==
            WindowStep(reg, u, [], WindowStep(reg, u, [], Window(map[], [], []), a), b)
    ensures SerialOf(env, reg, u, [], [a, b]).outcomes[1] ==
            HandleQueued(env, reg, u, HandleQueued(env, reg, u, [], a).log, b).outcome
  {
    assert WindowOf(reg, u, [], []) == Window(map[], [], []) && SerialOf(env, reg, u, [], []) == SerialRun([], []);
    hide *;
    assert [] + [a] == [a] && [a] + [b] == [a, b];
    NextCommand(env, reg, u, [], [], a);
    NextCommand(env, reg, u, [], [a], b);
  }

  lemma StagedLooksNew(a: QueuedCommand, b: QueuedCommand)
    requires a == Opening("a") && b == Opening("b")
    ensures var w := WindowStep(VersionReaders(), None, [], Window(map[], [], []), a);
            |w.verdicts| == 1 && |WindowStep(VersionReaders(), None, [], w, b).verdicts| == 2
            && WindowStep(VersionReaders(), None, [], w, b).verdicts[1].Accepted?
  {
    var ne := NewEvent("Opened", "", map[], 0);
    var staged := StagedRow(DOC, 1, ne);
    VersionReaderFacts(staged);
    LoadsOfOne(staged);
    var none: seq<Event> := [];
    assert none + none == none && none + [staged] == [staged] && StagedRows(DOC, 0, [ne]) == [staged];
    assert OverlayLoad([], None, map[], DOC) == Some([]);
    assert OverlayLoad([], None, map[DOC := [staged]], DOC) == Some([staged]);
    assert Recorded(map[], DOC, [ne], 0) == map[DOC := [staged]];
    hide Fold, VersionReader, OverlayLoad, Recorded, DecideOn;
  }

  lemma CommittedLooksOld(env: Env, a: QueuedCommand, b: QueuedCommand)
    requires a == Opening("a") && b == Opening("b")
    ensures var first := HandleQueued(env, VersionReaders(), None, [], a);
            HandleQueued(env, VersionReaders(), None, first.log, b).outcome == Failure(Rejection("seen committed"))
  {
    var ne := NewEvent("Opened", "", map[], 0);
    var row := RowOf(env, 1, DOC, 1, ne);
    VersionReaderFacts(row);
    LoadsOfOne(row);
    var none: seq<Event> := [];
    assert none + [row] == [row] && RowsOf(env, 1, DOC, 0, [ne]) == [row];
    hide Fold, VersionReader, Load, DecideOn;
  }

  /** A decider that still emits version 1 of a type the store brings to version 2, and folds the two apart. */
  function OldEmitters(): Deciders {
    map["doc" := Plain("", OldDecide, OldEvolve)]
  }

  function OldDecide(cmd: Command, s: State, meta: Metadata): Answer {
    if s == "new" then Refused("seen new") else Produced([NewEvent("Opened", "", map[], 1)])
  }

  function OldEvolve(s: State, e: Event): Option<State> {
    Some(if e.version >= 2 then "new" else "old")
  }

  function Raising(): Option<Upcaster> {
    Some(Upcaster((e: Event) => Some(if e.version == 1 then e.(version := 2) else e)))
  }

  lemma OldEmitterFacts(row: Event)
    ensures FoldsByShadow(OldEmitters())
    ensures DecideOn(OldEmitters(), Some([]), DOC, Command("open", ""), map[]) ==
            Success(Decision([NewEvent("Opened", "", map[], 1)], 0))
    ensures row.version < 2 ==> DecideOn(OldEmitters(), Some([row]), DOC, Command("open", ""), map[]).Success?
    ensures row.version >= 2 ==> DecideOn(OldEmitters(), Some([row]), DOC, Command("open", ""), map[]) ==
                                 Failure(Rejection("seen new"))
  {
    hide *;
    OldFolds();
    OldFoldOf(row);
    OldDecidesOn([], "");
    OldDecidesOn([row], if row.version >= 2 then "new" else "old");
  }

  lemma OldFolds()
    ensures FoldsByShadow(OldEmitters())
  {
    var d := OldEmitters()["doc"];
    assert forall s: State, e: Event :: d.Evolve(s, e) == OldEvolve(s, e);
  }

  lemma OldFoldOf(row: Event)
    ensures Fold(OldEmitters()["doc"], []) == Some("")
    ensures Fold(OldEmitters()["doc"], [row]) == Some(if row.version >= 2 then "new" else "old")
  {
    var d := OldEmitters()["doc"];
    assert [row][..0] == [] && d.Evolve("", row) == OldEvolve("", row);
  }

  lemma {:induction false} OldDecidesOn(stream: seq<Event>, s: State)
    requires Fold(OldEmitters()["doc"], stream) == Some(s)
    ensures DecideOn(OldEmitters(), Some(stream), DOC, Command("open", ""), map[]) ==
            if s == "new" then Failure(Rejection("seen new"))
            else Success(Decision([NewEvent("Opened", "", map[], 1)], |stream|))
  {
    var ne := NewEvent("Opened", "", map[], 1);
    assert Merged([ne], map[]) == [ne];
    PlainOutcome("", OldDecide, OldEvolve, DOC.1, Command("open", ""), s, map[]);
    hide Decider.Outcome, Fold;
  }

  lemma RaisedLoads(row: Event)
    requires Key(row) == DOC && row.sequence == 1 && row.version == 1
    ensures Load([], Raising(), DOC) == Some([]) && Load([row], Raising(), DOC) == Some([row.(version := 2)])
  {
    var up := row.(version := 2);
    StreamOfUniform([row], DOC, DOC);
    OrderOfOrdered([row]);
    assert Raising().value.Apply(row) == Some(up);
    assert [row][..0] == [] && UpcastAll(Raising(), []) == Some([]) && [] + [up] == [up];
    assert LoadRows([], DOC) == [] && LoadRows([row], DOC) == [row];
  }

  /**
   So is emitting at the latest version: a staged event never meets the upcaster, so a window
   accepts a command that the serial run refuses.
   */
  lemma OldVersionBreaksAgreement(env: Env)
    ensures FoldsByShadow(OldEmitters())
    ensures WindowOf(OldEmitters(), Raising(), [], [Opening("a"), Opening("b")]).verdicts[1].Accepted?
    ensures SerialOf(env, OldEmitters(), Raising(), [], [Opening("a"), Opening("b")]).outcomes[1] ==
            Failure(Rejection("seen new"))
  {
    hide *;
    OldEmitterFacts(StagedRow(DOC, 1, NewEvent("Opened", "", map[], 1)));
    TwoCommands(env, OldEmitters(), Raising(), Opening("a"), Opening("b"));
    StagedStaysOld(Opening("a"), Opening("b"));
    CommittedIsRaised(env, Opening("a"), Opening("b"));
  }

  lemma StagedStaysOld(a: QueuedCommand, b: QueuedCommand)
    requires a == Opening("a") && b == Opening("b")
    ensures var w := WindowStep(OldEmitters(), Raising(), [], Window(map[], [], []), a);
            |w.verdicts| == 1 && |WindowStep(OldEmitters(), Raising(), [], w, b).verdicts| == 2
            && WindowStep(OldEmitters(), Raising(), [], w, b).verdicts[1].Accepted?
  {
    var ne := NewEvent("Opened", "", map[], 1);
    var staged := StagedRow(DOC, 1, ne);
    OldEmitterFacts(staged);
    RaisedLoads(RowOf(Env(p => "", p => ""), 1, DOC, 1, ne));
    var none: seq<Event> := [];
    assert none + none == none && none + [staged] == [staged] && StagedRows(DOC, 0, [ne]) == [staged];
    assert OverlayLoad([], Raising(), map[], DOC) == Some([]);
    assert OverlayLoad([], Raising(), map[DOC := [staged]], DOC) == Some([staged]);
    assert Recorded(map[], DOC, [ne], 0) == map[DOC := [staged]];
    hide Fold, OldEmitters, OverlayLoad, Recorded, DecideOn, Raising, FoldsByShadow;
  }

  lemma CommittedIsRaised(env: Env, a: QueuedCommand, b: QueuedCommand)
    requires a == Opening("a") && b == Opening("b")
    ensures var first := HandleQueued(env, OldEmitters(), Raising(), [], a);
            HandleQueued(env, OldEmitters(), Raising(), first.log, b).outcome == Failure(Rejection("seen new"))
  {
    var ne := NewEvent("Opened", "", map[], 1);
    var row := RowOf(env, 1, DOC, 1, ne);
    OldEmitterFacts(row.(version := 2));
    RaisedLoads(row);
    var none: seq<Event> := [];
    assert none + [row] == [row] && RowsOf(env, 1, DOC, 0, [ne]) == [row];
    hide Fold, OldEmitters, Load, DecideOn, Raising, FoldsByShadow;
  }
}
