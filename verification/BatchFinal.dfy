/**
 When a command without events will never have any: exactly when its row is marked done, its
 queued meta lets no decision of it land, or its stream's sequences run ahead of its rows.
 Everything a waiter may have been told before makes no difference.
 */
module BatchFinal {
  import opened Wrappers
  import opened EventLog
  import opened LogInvariant
  import opened EventStore
  import opened Deciding
  import opened BatchWindow
  import opened CommandQueue
  import opened BatchProtocol
  import opened BatchSafety

  /** No run from here gives the command an event. */
  ghost predicate NoEffectEver(env: Env, s: Sys, id: string) {
    forall more :: AfterAll(env, s, more).Some? ==> Carrying(AfterAll(env, s, more).value.table, id) == []
  }

  /** A meta that does not decode refuses the command; an import marker in it makes CommitBatch refuse its events. */
  predicate Undecidable(qc: QueuedCommand) {
    qc.meta.None? || IMPORTED in qc.meta.value
  }

  // ---------------------------------------------------------------------
  // An undecidable command has no effect
  // ---------------------------------------------------------------------

  predicate EntryOf(qc: QueuedCommand, dc: DecidedCommand) {
    qc.meta.Some? && (IMPORTED in qc.meta.value ==> dc.newEvents == [] || CarriesMarker(dc.newEvents))
  }

  /** The batch in hand holds what its commands' metas allow. */
  predicate Tied(rows: seq<QueueRow>, batch: seq<DecidedCommand>) {
    forall i, k :: 0 <= i < |rows| && 0 <= k < |batch| && rows[i].command.id == batch[k].commandId ==>
      EntryOf(rows[i].command, batch[k])
  }

  function InHand(phase: Phase): seq<DecidedCommand> {
    if phase.Deciding? || phase.Refusing? then phase.batch else []
  }

  lemma DecidedIsTied(reg: Deciders, stream: Option<seq<Event>>, qc: QueuedCommand)
    requires DecideQueued(reg, stream, qc).Success?
    ensures var d := DecideQueued(reg, stream, qc).value;
            EntryOf(qc, DecidedCommand(qc.id, qc.key, d.expected, d.newEvents))
  {
    var evts := DecideQueued(reg, stream, qc).value.newEvents;
    if IMPORTED in qc.meta.value && evts != [] {
      assert IMPORTED in evts[0].metadata;
    }
  }

  lemma TiedMore(rows: seq<QueueRow>, batch: seq<DecidedCommand>, qc: QueuedCommand, dc: DecidedCommand)
    requires DistinctIds(rows) && Tied(rows, batch) && PendingRow(rows, qc) && EntryOf(qc, dc) && dc.commandId == qc.id
    ensures Tied(rows, batch + [dc])
  {
    var j :| 0 <= j < |rows| && rows[j] == QueueRow(qc, false);
    forall i | 0 <= i < |rows| && rows[i].command.id == dc.commandId
      ensures rows[i].command == qc
    {
      assert i == j;
    }
  }

  lemma TiedRows(rows: seq<QueueRow>, rows': seq<QueueRow>, batch: seq<DecidedCommand>)
    requires Tied(rows, batch) && |rows| <= |rows'|
    requires forall i :: 0 <= i < |rows| ==> rows'[i].command == rows[i].command
    requires forall i, k :: |rows| <= i < |rows'| && 0 <= k < |batch| ==> rows'[i].command.id != batch[k].commandId
    ensures Tied(rows', batch)
  {
  }

  lemma StepKeepsTied(env: Env, s: Sys, step: Step)
    requires Inv(s) && Enabled(s, step) && Tied(s.rows, InHand(s.phase))
    ensures Tied(After(env, s, step).rows, InHand(After(env, s, step).phase))
  {
    match step
    case DecideNext(reg, u) => DecideKeepsTied(s, reg, u);
    case Enqueue(qc) => EnqueueKeepsTied(s, qc);
    case MarkRefused(lost) => TiedRows(s.rows, After(env, s, step).rows, s.phase.batch);
    case _ =>
  }

  lemma DecideKeepsTied(s: Sys, reg: Deciders, u: Option<Upcaster>)
    requires Inv(s) && s.phase.Deciding? && |s.phase.todo| > 0 && Tied(s.rows, s.phase.batch)
    ensures Tied(AfterDecide(s, reg, u).rows, InHand(AfterDecide(s, reg, u).phase))
  {
    var qc := s.phase.todo[0];
    var stream := OverlayLoad(s.table, u, s.phase.staged, qc.key);
    assert PendingRow(s.rows, qc);
    hide Inv, OverlayLoad, Tied;
    if DecideQueued(reg, stream, qc).Success? {
      var d := DecideQueued(reg, stream, qc).value;
      DecidedIsTied(reg, stream, qc);
      hide DecideQueued, EntryOf, Recorded, PendingRow;
      TiedMore(s.rows, s.phase.batch, qc, DecidedCommand(qc.id, qc.key, d.expected, d.newEvents));
    }
  }

  lemma EnqueueKeepsTied(s: Sys, qc: QueuedCommand)
    requires Inv(s) && qc.id !in Ids(s.rows) && Tied(s.rows, InHand(s.phase))
    ensures Tied(s.rows + [QueueRow(qc, false)], InHand(s.phase))
  {
    var batch := InHand(s.phase);
    forall k | 0 <= k < |batch|
      ensures batch[k].commandId in Ids(s.rows)
    {
      assert Awaiting(s.rows, s.table, batch[k].commandId, batch[k].key);
    }
    hide Inv, Tied;
    TiedRows(s.rows, s.rows + [QueueRow(qc, false)], batch);
  }

  lemma {:induction false} RunKeepsTied(env: Env, run: seq<Step>)
    requires AfterAll(env, INITIAL, run).Some?
    ensures Tied(AfterAll(env, INITIAL, run).value.rows, InHand(AfterAll(env, INITIAL, run).value.phase))
  {
    if |run| > 0 {
      var front := run[..|run| - 1];
      RunKeepsTied(env, front);
      RunKeepsInv(env, INITIAL, front);
      StepKeepsTied(env, AfterAll(env, INITIAL, front).value, run[|run| - 1]);
    }
  }

  /** A committed batch gives an undecidable command no event. */
  lemma CommitGivesNone(env: Env, s: Sys, i: nat)
    requires Inv(s) && s.phase.Deciding? && i < |s.rows| && Undecidable(s.rows[i].command)
    requires Tied(s.rows, s.phase.batch) && !BatchCarriesMarker(s.phase.batch)
    requires Carrying(s.table, s.rows[i].command.id) == []
    ensures Carrying(InsertBatch(env, s.table, s.phase.batch), s.rows[i].command.id) == []
  {
    var qc, batch := s.rows[i].command, s.phase.batch;
    if k :| 0 <= k < |batch| && batch[k].commandId == qc.id {
      assert EntryOf(qc, batch[k]) && batch[k].newEvents == [];
      CommitReported(env, s, k);
      assert Landed(env, s.table, batch, k).events == [];
    } else {
      BatchCarriesNot(env, s.table, batch, qc.id);
    }
  }

  lemma StepKeepsCommands(env: Env, s: Sys, step: Step)
    requires Enabled(s, step)
    ensures var s' := After(env, s, step);
            |s.rows| <= |s'.rows| && forall i :: 0 <= i < |s.rows| ==> s'.rows[i].command == s.rows[i].command
  {
  }

  lemma StepGivesNone(env: Env, s: Sys, step: Step, i: nat)
    requires Inv(s) && Enabled(s, step) && Tied(s.rows, InHand(s.phase))
    requires i < |s.rows| && Undecidable(s.rows[i].command) && Carrying(s.table, s.rows[i].command.id) == []
    ensures var s' := After(env, s, step);
            && |s.rows| <= |s'.rows| && s'.rows[i].command == s.rows[i].command
            && Carrying(s'.table, s.rows[i].command.id) == []
  {
    StepKeepsCommands(env, s, step);
    OnlyWritesTouchTheLog(env, s, step);
    hide After, Inv, Tied, InsertBatch, AfterWrite, Carrying, ForeignTo, BatchCarriesMarker;
    if step.Foreign? {
      assert s.rows[i].command.id in Ids(s.rows);
      ForeignGivesNone(env, s, step.w, s.rows[i].command.id);
    } else if After(env, s, step).table != s.table {
      CommitGivesNone(env, s, i);
    }
  }

  lemma ForeignGivesNone(env: Env, s: Sys, w: Write, id: string)
    requires Inv(s) && Enabled(s, Foreign(w)) && id in Ids(s.rows)
    ensures Carrying(AfterWrite(env, s.table, w), id) == Carrying(s.table, id)
  {
    var table' := AfterWrite(env, s.table, w);
    ForeignRows(env, s.table, w, Ids(s.rows));
    assert table' == s.table + table'[|s.table|..];
    CarryingConcat(s.table, table'[|s.table|..], id);
  }

  lemma {:induction false} UndecidableHasNoEffect(env: Env, run: seq<Step>, more: seq<Step>, i: nat)
    requires AfterAll(env, INITIAL, run).Some? && AfterAll(env, AfterAll(env, INITIAL, run).value, more).Some?
    requires var s := AfterAll(env, INITIAL, run).value;
             i < |s.rows| && Undecidable(s.rows[i].command) && Carrying(s.table, s.rows[i].command.id) == []
    ensures var s, t := AfterAll(env, INITIAL, run).value, AfterAll(env, AfterAll(env, INITIAL, run).value, more).value;
            |s.rows| <= |t.rows| && t.rows[i].command == s.rows[i].command
                && Carrying(t.table, s.rows[i].command.id) == []
  {
    if |more| > 0 {
      var s, front := AfterAll(env, INITIAL, run).value, more[..|more| - 1];
      UndecidableHasNoEffect(env, run, front, i);
      RunsCompose(env, INITIAL, run, front);
      RunKeepsInv(env, INITIAL, run + front);
      RunKeepsTied(env, run + front);
      StepGivesNone(env, AfterAll(env, s, front).value, more[|more| - 1], i);
    }
  }

  // ---------------------------------------------------------------------
  // Nor has one whose stream runs ahead
  // ---------------------------------------------------------------------

  /** MAX(sequence) is above the number of rows: an import left a gap below it, and none can fill it. */
  predicate Ahead(table: seq<Event>, key: StreamKey) {
    CurrentSequence(table, key) > |StreamOf(table, key)|
  }

  predicate FirstOf(batch: seq<DecidedCommand>, k: nat)
    requires k < |batch|
  {
    forall j :: 0 <= j < k ==> batch[j].key != batch[k].key
  }

  /** What is decided first on a stream expects no more than the rows it has. */
  ghost predicate Grounded(table: seq<Event>, staged: Staged, batch: seq<DecidedCommand>) {
    && (forall key :: !Touches(batch, key) ==> Pending(staged, key) == [])
    && (forall k :: 0 <= k < |batch| && FirstOf(batch, k) ==> batch[k].expected <= |StreamOf(table, batch[k].key)|)
  }

  ghost predicate HandGrounded(s: Sys) {
    s.phase.Deciding? || s.phase.Refusing? ==> Grounded(s.table, s.phase.staged, s.phase.batch)
  }

  lemma GroundedLater(table: seq<Event>, table': seq<Event>, staged: Staged, batch: seq<DecidedCommand>)
    requires Grounded(table, staged, batch) && table <= table'
    ensures Grounded(table', staged, batch)
  {
    hide Pending, Touches, StreamOf;
    forall k | 0 <= k < |batch| && FirstOf(batch, k)
      ensures batch[k].expected <= |StreamOf(table', batch[k].key)|
    {
      assert table' == table + table'[|table|..];
      StreamOfConcat(table, table'[|table|..], batch[k].key);
    }
  }

  lemma GroundedMore(table: seq<Event>, staged: Staged, batch: seq<DecidedCommand>, dc: DecidedCommand)
    requires Grounded(table, staged, batch)
    requires dc.expected == |StreamOf(table, dc.key)| + |Pending(staged, dc.key)|
    ensures Grounded(table, Recorded(staged, dc.key, dc.newEvents, dc.expected), batch + [dc])
  {
    var batch', staged' := batch + [dc], Recorded(staged, dc.key, dc.newEvents, dc.expected);
    hide Pending, Recorded, StreamOf;
    forall key | !Touches(batch', key)
      ensures Pending(staged', key) == []
    {
      TouchesMore(batch, dc, key);
      PendingRecorded(staged, dc.key, dc.newEvents, dc.expected, key);
    }
    forall k | 0 <= k < |batch'| && FirstOf(batch', k)
      ensures batch'[k].expected <= |StreamOf(table, batch'[k].key)|
    {
      if k < |batch| {
        assert forall j :: 0 <= j < k ==> batch'[j] == batch[j];
        assert FirstOf(batch, k);
      } else {
        assert forall j :: 0 <= j < |batch| ==> batch'[j] == batch[j];
        assert !Touches(batch, dc.key);
      }
    }
  }

  lemma DecideKeepsGrounded(s: Sys, reg: Deciders, u: Option<Upcaster>)
    requires s.phase.Deciding? && |s.phase.todo| > 0 && Grounded(s.table, s.phase.staged, s.phase.batch)
    ensures HandGrounded(AfterDecide(s, reg, u)) && AfterDecide(s, reg, u).table == s.table
  {
    var qc := s.phase.todo[0];
    var stream := OverlayLoad(s.table, u, s.phase.staged, qc.key);
    hide Grounded, OverlayLoad, Recorded;
    if DecideQueued(reg, stream, qc).Success? {
      var d := DecideQueued(reg, stream, qc).value;
      OverlayLength(u, s.table, s.phase.staged, qc.key);
      assert d.expected == |stream.value|;
      hide DecideQueued;
      GroundedMore(s.table, s.phase.staged, s.phase.batch, DecidedCommand(qc.id, qc.key, d.expected, d.newEvents));
    }
  }

  lemma LogGrows(env: Env, s: Sys, step: Step)
    requires Enabled(s, step)
    ensures s.table <= After(env, s, step).table
  {
    hide After, AfterWrite, InsertBatch;
    OnlyWritesTouchTheLog(env, s, step);
    if step.Foreign? {
      WriteOnlyAdds(env, s.table, step.w);
    } else if step.Commit? {
      InsertBatchOnlyAdds(env, s.table, s.phase.batch);
    }
  }

  /** Deciding aside, a step keeps what is in hand, drops it, or starts with nothing. */
  lemma HandKept(env: Env, s: Sys, step: Step)
    requires Enabled(s, step) && !step.DecideNext?
    ensures var s' := After(env, s, step);
            s'.phase.Deciding? || s'.phase.Refusing? ==>
              || (s'.phase.staged == map[] && s'.phase.batch == [])
              || ((s.phase.Deciding? || s.phase.Refusing?)
                  && s'.phase.staged == s.phase.staged && s'.phase.batch == s.phase.batch)
  {
    hide AfterWrite, InsertBatch, AllFit, Marked, PendingCommands, ResultsOf, Applied;
  }

  lemma StepKeepsGrounded(env: Env, s: Sys, step: Step)
    requires Enabled(s, step) && HandGrounded(s)
    ensures HandGrounded(After(env, s, step))
  {
    if step.DecideNext? {
      DecideKeepsGrounded(s, step.reg, step.u);
    } else {
      NothingGrounded(After(env, s, step).table);
      hide After, Grounded;
      LogGrows(env, s, step);
      HandKept(env, s, step);
      if s.phase.Deciding? || s.phase.Refusing? {
        GroundedLater(s.table, After(env, s, step).table, s.phase.staged, s.phase.batch);
      }
    }
  }

  lemma NothingGrounded(table: seq<Event>)
    ensures Grounded(table, map[], [])
  {
  }

  lemma {:induction false} RunKeepsGrounded(env: Env, run: seq<Step>)
    requires AfterAll(env, INITIAL, run).Some?
    ensures HandGrounded(AfterAll(env, INITIAL, run).value)
  {
    hide HandGrounded, After, Enabled;
    if |run| > 0 {
      var front := run[..|run| - 1];
      RunKeepsGrounded(env, front);
      StepKeepsGrounded(env, AfterAll(env, INITIAL, front).value, run[|run| - 1]);
    } else {
      InitialGrounded();
    }
  }

  lemma InitialGrounded()
    ensures HandGrounded(INITIAL)
  {
  }

  lemma {:induction false} UntouchedStream(env: Env, log: seq<Event>, batch: seq<DecidedCommand>, key: StreamKey)
    requires forall k :: 0 <= k < |batch| ==> batch[k].key != key
    ensures StreamOf(InsertBatch(env, log, batch), key) == StreamOf(log, key)
  {
    if |batch| > 0 {
      var front, dc := batch[..|batch| - 1], batch[|batch| - 1];
      UntouchedStream(env, log, front, key);
      var before := InsertBatch(env, log, front);
      StreamOfConcat(before, BlockRows(env, before, dc), key);
      RowsOfFacts(env, NextPosition(before), dc.key, dc.expected, Stamped(dc.newEvents, dc.commandId), key);
    }
  }

  /** No entry on such a stream passes the running check, so a batch that lands leaves it alone. */
  lemma AheadIsUntouched(log: seq<Event>, staged: Staged, batch: seq<DecidedCommand>, key: StreamKey)
    requires Grounded(log, staged, batch) && Ahead(log, key)
    ensures AllFit(log, batch) ==> forall k :: 0 <= k < |batch| ==> batch[k].key != key
  {
    if k :| 0 <= k < |batch| && batch[k].key == key {
      var first := FirstEntryOf(batch, k);
      UntouchedRunning(log, batch[..first], key);
      assert FirstOf(batch, first) && !Fits(log, batch, first);
    }
  }

  lemma {:induction false} FirstEntryOf(batch: seq<DecidedCommand>, k: nat) returns (first: nat)
    requires k < |batch|
    ensures first <= k && batch[first].key == batch[k].key && FirstOf(batch, first)
  {
    if j: nat :| j < k && batch[j].key == batch[k].key {
      first := FirstEntryOf(batch, j);
    } else {
      first := k;
    }
  }

  lemma CommitKeepsAhead(env: Env, log: seq<Event>, staged: Staged, batch: seq<DecidedCommand>, key: StreamKey)
    requires Grounded(log, staged, batch) && Ahead(log, key) && AllFit(log, batch)
    ensures Ahead(InsertBatch(env, log, batch), key)
  {
    AheadIsUntouched(log, staged, batch, key);
    hide Grounded, AllFit, InsertBatch, RunningSequence;
    RunsToCurrent(env, log, batch, key);
    UntouchedRunning(log, batch, key);
    UntouchedStream(env, log, batch, key);
  }

  lemma {:induction false} OthersLeaveCurrent(log: seq<Event>, rows: seq<Event>, key: StreamKey)
    requires forall i :: 0 <= i < |rows| ==> Key(rows[i]) != key
    ensures CurrentSequence(log + rows, key) == CurrentSequence(log, key)
  {
    if |rows| == 0 {
      assert log + rows == log;
    } else {
      assert (log + rows)[..|log + rows| - 1] == log + rows[..|rows| - 1];
      OthersLeaveCurrent(log, rows[..|rows| - 1], key);
    }
  }

  lemma {:induction false} StreamHasRow(log: seq<Event>, key: StreamKey)
    requires CurrentSequence(log, key) > 0
    ensures exists i :: 0 <= i < |log| && log[i].aggregate == key.0
  {
    var n := |log| - 1;
    if Key(log[n]) != key {
      StreamHasRow(log[..n], key);
      var i :| 0 <= i < |log[..n]| && log[..n][i].aggregate == key.0;
      assert log[i].aggregate == key.0;
    } else {
      assert log[n].aggregate == key.0;
    }
  }

  lemma AppendKeepsAhead(env: Env, log: seq<Event>, owner: StreamKey, evts: seq<NewEvent>, key: StreamKey)
    requires Ahead(log, key)
    ensures Ahead(log + RowsOf(env, NextPosition(log), owner, CurrentSequence(log, owner), evts), key)
  {
    hide StreamOf, CurrentSequence, RowsOf;
    var base, rows := CurrentSequence(log, owner),
        RowsOf(env, NextPosition(log), owner, CurrentSequence(log, owner), evts);
    CurrentOfRows(env, log, NextPosition(log), owner, base, evts, key);
    StreamOfConcat(log, rows, key);
    RowsOfFacts(env, NextPosition(log), owner, base, evts, key);
  }

  /** The collision rule keeps every import off every aggregate that has a row: none can fill a gap. */
  lemma ImportLeavesStreams(log: seq<Event>, evts: seq<Event>, key: StreamKey)
    requires ImportTo(log, evts).Success? && exists i :: 0 <= i < |log| && log[i].aggregate == key.0
    ensures StreamOf(ImportTo(log, evts).value, key) == StreamOf(log, key)
    ensures CurrentSequence(ImportTo(log, evts).value, key) == CurrentSequence(log, key)
  {
    hide StreamOf, CurrentSequence, UniqueRows;
    if |evts| > 0 {
      var rows := ImportedRows(NextPosition(log), evts);
      ImportedElsewhere(log, evts, NextPosition(log), key);
      NewAggregateNewStream(rows, key);
      StreamOfConcat(log, rows, key);
      OthersLeaveCurrent(log, rows, key);
      assert StreamOf(log, key) + [] == StreamOf(log, key);
    }
  }

  lemma ImportedElsewhere(log: seq<Event>, evts: seq<Event>, next: nat, key: StreamKey)
    requires !Collides(log, evts) && exists i :: 0 <= i < |log| && log[i].aggregate == key.0
    ensures var rows := ImportedRows(next, evts);
            forall j :: 0 <= j < |rows| ==> rows[j].aggregate != key.0 && Key(rows[j]) != key
  {
    var i :| 0 <= i < |log| && log[i].aggregate == key.0;
    forall j | 0 <= j < |evts|
      ensures evts[j].aggregate != key.0
    {
      assert log[i].aggregate != evts[j].aggregate;
    }
  }

  lemma WriteKeepsAhead(env: Env, log: seq<Event>, w: Write, key: StreamKey)
    requires Ahead(log, key) && !w.WriteBatch?
    ensures Ahead(AfterWrite(env, log, w), key)
  {
    hide RowsOf, ImportTo, CurrentSequence, StreamOf;
    match w
    case WriteAppend(owner, _, evts, _) => AppendKeepsAhead(env, log, owner, evts, key);
    case WriteImport(evts, _) =>
      StreamHasRow(log, key);
      if ImportTo(log, evts).Success? {
        ImportLeavesStreams(log, evts, key);
      }
    case WriteBatch(_, _) =>
  }

  lemma StepKeepsAhead(env: Env, s: Sys, step: Step, key: StreamKey)
    requires Enabled(s, step) && HandGrounded(s) && Ahead(s.table, key)
    ensures Ahead(After(env, s, step).table, key)
  {
    hide After, Ahead, Grounded, AfterWrite, InsertBatch, AllFit;
    OnlyWritesTouchTheLog(env, s, step);
    if step.Foreign? {
      WriteKeepsAhead(env, s.table, step.w, key);
    } else if After(env, s, step).table != s.table {
      CommittedFits(env, s, step);
      CommitKeepsAhead(env, s.table, s.phase.staged, s.phase.batch, key);
    }
  }

  lemma CommittedFits(env: Env, s: Sys, step: Step)
    requires Enabled(s, step) && step.Commit? && After(env, s, step).table != s.table
    ensures AllFit(s.table, s.phase.batch)
  {
    hide AllFit, InsertBatch, BatchCarriesMarker;
  }

  lemma AheadStepGivesNone(env: Env, s: Sys, step: Step, i: nat)
    requires Inv(s) && Enabled(s, step) && HandGrounded(s) && i < |s.rows|
    requires Ahead(s.table, s.rows[i].command.key) && Carrying(s.table, s.rows[i].command.id) == []
    ensures Carrying(After(env, s, step).table, s.rows[i].command.id) == []
  {
    var qc := s.rows[i].command;
    assert qc.id in Ids(s.rows);
    hide After, Inv, Ahead, Grounded, AfterWrite, InsertBatch, AllFit, Carrying, ForeignTo, Ids;
    OnlyWritesTouchTheLog(env, s, step);
    if step.Foreign? {
      ForeignGivesNone(env, s, step.w, qc.id);
    } else if After(env, s, step).table != s.table {
      CommittedFits(env, s, step);
      AheadIsUntouched(s.table, s.phase.staged, s.phase.batch, qc.key);
      EntriesKeepTheirStream(s, i);
      BatchCarriesNot(env, s.table, s.phase.batch, qc.id);
    }
  }

  /** A batch entry of a queued command is on its stream. */
  lemma EntriesKeepTheirStream(s: Sys, i: nat)
    requires Inv(s) && s.phase.Deciding? && i < |s.rows|
    ensures forall k :: 0 <= k < |s.phase.batch| && s.phase.batch[k].commandId == s.rows[i].command.id ==>
              s.phase.batch[k].key == s.rows[i].command.key
  {
    forall k | 0 <= k < |s.phase.batch| && s.phase.batch[k].commandId == s.rows[i].command.id
      ensures s.phase.batch[k].key == s.rows[i].command.key
    {
      var dc := s.phase.batch[k];
      assert Awaiting(s.rows, s.table, dc.commandId, dc.key);
      var j :| 0 <= j < |s.rows| && s.rows[j].command.id == dc.commandId && s.rows[j].command.key == dc.key;
      assert i == j;
    }
  }

  lemma {:induction false} AheadHasNoEffect(env: Env, run: seq<Step>, more: seq<Step>, i: nat)
    requires AfterAll(env, INITIAL, run).Some? && AfterAll(env, AfterAll(env, INITIAL, run).value, more).Some?
    requires var s := AfterAll(env, INITIAL, run).value;
             && i < |s.rows| && Ahead(s.table, s.rows[i].command.key)
             && Carrying(s.table, s.rows[i].command.id) == []
    ensures var s, t := AfterAll(env, INITIAL, run).value, AfterAll(env, AfterAll(env, INITIAL, run).value, more).value;
            && |s.rows| <= |t.rows| && t.rows[i].command == s.rows[i].command
            && Ahead(t.table, s.rows[i].command.key) && Carrying(t.table, s.rows[i].command.id) == []
  {
    hide Ahead, Carrying, Inv, HandGrounded, After, Enabled;
    if |more| > 0 {
      var s, front := AfterAll(env, INITIAL, run).value, more[..|more| - 1];
      AheadHasNoEffect(env, run, front, i);
      RunsCompose(env, INITIAL, run, front);
      RunKeepsInv(env, INITIAL, run + front);
      RunKeepsGrounded(env, run + front);
      var t, step := AfterAll(env, s, front).value, more[|more| - 1];
      StepKeepsCommands(env, t, step);
      StepKeepsAhead(env, t, step, s.rows[i].command.key);
      AheadStepGivesNone(env, t, step, i);
    }
  }

  // ---------------------------------------------------------------------
  // A decidable command that is not done can still have one
  // ---------------------------------------------------------------------

  /** The commands the resume loop keeps, first one first. */
  function Kept(table: seq<Event>, todo: seq<QueuedCommand>): seq<QueuedCommand> {
    if |todo| == 0 then []
    else (if Applied(table, todo[0].key, todo[0].id, todo[0].enqueuedAt) then []
          else [todo[0]]) + Kept(table, todo[1..])
  }

  lemma {:induction false} KeptHas(table: seq<Event>, todo: seq<QueuedCommand>, i: nat) returns (j: nat)
    requires i < |todo| && !Applied(table, todo[i].key, todo[i].id, todo[i].enqueuedAt)
    ensures j < |Kept(table, todo)| && Kept(table, todo)[j] == todo[i]
  {
    if i == 0 {
      j := 0;
    } else {
      j := KeptHas(table, todo[1..], i - 1);
      if !Applied(table, todo[0].key, todo[0].id, todo[0].enqueuedAt) {
        j := j + 1;
      }
    }
  }

  /** Where the resume loop leads when every mark is lost. */
  function Checked(s: Sys): Sys
    requires s.phase.Checking?
  {
    s.(phase := Checking([], s.phase.kept + Kept(s.table, s.phase.todo)))
  }

  lemma CheckedUnfolds(env: Env, s: Sys)
    requires s.phase.Checking?
    ensures |s.phase.todo| == 0 ==> Checked(s) == s
    ensures |s.phase.todo| > 0 ==>
              Enabled(s, Check(true)) && After(env, s, Check(true)).phase.Checking?
              && Checked(After(env, s, Check(true))) == Checked(s)
              && After(env, s, Check(true)).phase.todo == s.phase.todo[1..]
  {
    var todo, kept := s.phase.todo, s.phase.kept;
    assert kept + [] == kept;
    if |todo| == 0 {
      assert todo == [] && Kept(s.table, todo) == [];
    } else {
      var qc, rest := todo[0], Kept(s.table, todo[1..]);
      assert [] + rest == rest && kept + [qc] + rest == kept + ([qc] + rest);
    }
  }

  lemma {:induction false} CheckAll(env: Env, s: Sys) returns (steps: seq<Step>)
    requires s.phase.Checking?
    ensures AfterAll(env, s, steps) == Some(Checked(s))
    decreases |s.phase.todo|
  {
    CheckedUnfolds(env, s);
    assert AfterAll(env, s, []) == Some(s);
    hide *;
    steps := [];
    if |s.phase.todo| > 0 {
      var more := CheckAll(env, After(env, s, Check(true)));
      StepFirst(env, s, Check(true), more);
      steps := [Check(true)] + more;
    }
  }

  /** The head refused by an empty registry, its mark lost. */
  lemma RefuseHead(env: Env, s: Sys) returns (steps: seq<Step>, t: Sys)
    requires s.phase.Deciding? && |s.phase.todo| > 0
    ensures AfterAll(env, s, steps) == Some(t) && t.table == s.table && t.rows == s.rows
    ensures t.phase == Deciding(s.phase.todo[1..], s.phase.staged, s.phase.batch)
  {
    var first, second := DecideNext(map[], None), MarkRefused(true);
    var s1 := After(env, s, first);
    assert s1.phase.Refusing? && s1.table == s.table && s1.rows == s.rows;
    OneStepMore(env, s, [], first);
    OneStepMore(env, s, [] + [first], second);
    steps, t := [] + [first] + [second], After(env, s1, second);
  }

  lemma {:induction false} RefuseAll(env: Env, s: Sys) returns (steps: seq<Step>, t: Sys)
    requires s.phase.Deciding?
    ensures AfterAll(env, s, steps) == Some(t) && t.table == s.table && t.rows == s.rows
    ensures t.phase == Deciding([], s.phase.staged, s.phase.batch)
    decreases |s.phase.todo|
  {
    if |s.phase.todo| == 0 {
      steps, t := [], s;
      assert s.phase.todo == [];
    } else {
      var first, s1 := RefuseHead(env, s);
      var more;
      more, t := RefuseAll(env, s1);
      RunsCompose(env, s, first, more);
      steps := first + more;
    }
  }

  const HAPPENED := NewEvent("Happened", "", map[], 1)

  /** A registry whose one decider always produces an event. */
  function Eager(aggregate: string): Deciders {
    map[aggregate := Plain("", EagerDecide, EagerEvolve)]
  }

  function EagerDecide(cmd: Command, s: State, meta: Metadata): Answer {
    Produced([HAPPENED])
  }

  function EagerEvolve(s: State, e: Event): Option<State> {
    Some(s)
  }

  lemma {:induction false} EagerFolds(aggregate: string, stream: seq<Event>)
    ensures Fold(Eager(aggregate)[aggregate], stream) == Some("")
  {
    if |stream| > 0 {
      EagerFolds(aggregate, stream[..|stream| - 1]);
      assert Eager(aggregate)[aggregate].Evolve("", stream[|stream| - 1]) == Some("");
    }
  }

  /** What the eager registry makes of a decidable command at the head of a fresh window. */
  function Entry(table: seq<Event>, qc: QueuedCommand): DecidedCommand
    requires qc.meta.Some?
  {
    DecidedCommand(qc.id, qc.key, |StreamOf(table, qc.key)|, Merged([HAPPENED], qc.meta.value))
  }

  lemma EagerDecides(table: seq<Event>, qc: QueuedCommand)
    requires qc.meta.Some?
    ensures DecideQueued(Eager(qc.key.0), OverlayLoad(table, None, map[], qc.key), qc) ==
            Success(Decision(Entry(table, qc).newEvents, Entry(table, qc).expected))
  {
    var rows, d := LoadRows(table, qc.key), Eager(qc.key.0)[qc.key.0];
    OrderedFacts(StreamOf(table, qc.key), 0);
    assert rows + [] == rows && OverlayLoad(table, None, map[], qc.key) == Some(rows);
    EagerFolds(qc.key.0, rows);
    PlainOutcome("", EagerDecide, EagerEvolve, qc.key.1, Command(qc.command, qc.payload), "", qc.meta.value);
  }

  /** The head accepted into an empty batch. */
  lemma AcceptHead(env: Env, s: Sys) returns (steps: seq<Step>, t: Sys)
    requires s.phase.Deciding? && |s.phase.todo| > 0 && s.phase.staged == map[] && s.phase.batch == []
    requires s.phase.todo[0].meta.Some?
    ensures AfterAll(env, s, steps) == Some(t) && t.table == s.table && t.rows == s.rows
    ensures t.phase.Deciding? && t.phase.todo == s.phase.todo[1..] && t.phase.batch == [Entry(s.table, s.phase.todo[0])]
  {
    var qc := s.phase.todo[0];
    var step := DecideNext(Eager(qc.key.0), None);
    EagerDecides(s.table, qc);
    hide OverlayLoad, DecideQueued, Eager, Recorded, Merged, StreamOf;
    t := After(env, s, step);
    assert [] + [Entry(s.table, qc)] == [Entry(s.table, qc)];
    assert t.table == s.table && t.rows == s.rows && t.phase.Deciding? && t.phase.batch == [Entry(s.table, qc)];
    OneStepMore(env, s, [], step);
    steps := [] + [step];
  }

  /** A window in which everything but one command is refused. */
  lemma {:induction false} AcceptOne(env: Env, s: Sys, j: nat) returns (steps: seq<Step>, t: Sys)
    requires s.phase.Deciding? && j < |s.phase.todo| && s.phase.staged == map[] && s.phase.batch == []
    requires s.phase.todo[j].meta.Some?
    ensures AfterAll(env, s, steps) == Some(t) && t.table == s.table && t.rows == s.rows
    ensures t.phase.Deciding? && t.phase.todo == [] && t.phase.batch == [Entry(s.table, s.phase.todo[j])]
    decreases j
  {
    var first, s1, more;
    if j == 0 {
      first, s1 := AcceptHead(env, s);
      more, t := RefuseAll(env, s1);
    } else {
      first, s1 := RefuseHead(env, s);
      more, t := AcceptOne(env, s1, j - 1);
    }
    RunsCompose(env, s, first, more);
    steps := first + more;
  }

  /** A batch of that one command lands on a log that has got where it expects, and its event carries the id. */
  lemma EntryLands(env: Env, table: seq<Event>, table': seq<Event>, qc: QueuedCommand)
    requires qc.meta.Some? && IMPORTED !in qc.meta.value && CurrentSequence(table', qc.key) == |StreamOf(table, qc.key)|
    ensures AllFit(table', [Entry(table, qc)]) && !BatchCarriesMarker([Entry(table, qc)])
    ensures Carrying(InsertBatch(env, table', [Entry(table, qc)]), qc.id) != []
  {
    var dc := Entry(table, qc);
    var batch := [dc];
    assert batch[..0] == [] && Fits(table', batch, 0);
    assert dc.newEvents[0].metadata == HAPPENED.metadata + qc.meta.value;
    EntryCarries(env, table', dc);
    hide InsertBatch, Carrying, Merged;
  }

  lemma EntryCarries(env: Env, table: seq<Event>, dc: DecidedCommand)
    requires |dc.newEvents| > 0
    ensures Carrying(InsertBatch(env, table, [dc]), dc.commandId) != []
  {
    assert [dc][..0] == [] && InsertBatch(env, table, []) == table;
    assert InsertBatch(env, table, [dc]) == table + BlockRows(env, table, dc);
    hide InsertBatch, BlockRows;
    BlockRowsCarry(env, table, dc, dc.commandId);
    CarryingConcat(table, BlockRows(env, table, dc), dc.commandId);
  }

  lemma {:induction false} PendingHas(rows: seq<QueueRow>, i: nat) returns (j: nat)
    requires i < |rows| && !rows[i].done
    ensures |PendingOf(rows)| <= |rows| && j < |PendingOf(rows)| && PendingOf(rows)[j] == rows[i].command
  {
    var n := |rows| - 1;
    PendingShort(rows);
    if i == n {
      j := |PendingOf(rows[..n])|;
    } else {
      j := PendingHas(rows[..n], i);
    }
  }

  lemma {:induction false} PendingShort(rows: seq<QueueRow>)
    ensures |PendingOf(rows)| <= |rows|
  {
    if |rows| > 0 {
      PendingShort(rows[..|rows| - 1]);
    }
  }

  /** After a crash, a pass over the whole queue reaches the deciding of a command not done and not applied. */
  lemma ReachDeciding(env: Env, s: Sys, i: nat) returns (steps: seq<Step>, t: Sys, j: nat)
    requires i < |s.rows| && !s.rows[i].done
    requires var qc := s.rows[i].command; !Applied(s.table, qc.key, qc.id, qc.enqueuedAt)
    ensures AfterAll(env, s, steps) == Some(t) && t.table == s.table && t.rows == s.rows
    ensures t.phase.Deciding? && t.phase.staged == map[] && t.phase.batch == []
    ensures j < |t.phase.todo| && t.phase.todo[j] == s.rows[i].command
  {
    var s1 := s.(waiters := {}, phase := Idle);
    var all := PendingOf(s.rows);
    var k := PendingHas(s.rows, i);
    var begin := Begin(|s.rows| + 1);
    assert PendingCommands(s.rows, |s.rows| + 1) == all;
    var s2 := s1.(phase := Checking(all, []));
    OneStepMore(env, s, [], Crash);
    OneStepMore(env, s, [] + [Crash], begin);
    assert AfterAll(env, s, [] + [Crash] + [begin]) == Some(s2);
    var more := CheckAll(env, s2);
    j := KeptHas(s.table, all, k);
    RunsCompose(env, s, [] + [Crash] + [begin], more);
    steps := [] + [Crash] + [begin] + more;
    var s3 := Checked(s2);
    OneStepMore(env, s, steps, StartDeciding);
    steps, t := steps + [StartDeciding], After(env, s3, StartDeciding);
    assert [] + Kept(s.table, all) == Kept(s.table, all);
  }

  /** Another writer's append that brings a stream up to its number of rows; nothing, when it is there. */
  function CatchUp(table: seq<Event>, key: StreamKey): Write
    requires !Ahead(table, key)
  {
    WriteAppend(key, CurrentSequence(table, key),
                seq(|StreamOf(table, key)| - CurrentSequence(table, key), _ => HAPPENED),
                false)
  }

  lemma CaughtUp(env: Env, table: seq<Event>, key: StreamKey, ids: set<string>)
    requires !Ahead(table, key)
    ensures ForeignTo(CatchUp(table, key), ids)
    ensures CurrentSequence(AfterWrite(env, table, CatchUp(table, key)), key) == |StreamOf(table, key)|
  {
    var w := CatchUp(table, key);
    assert !CarriesMarker(w.evts);
    hide StreamOf, CurrentSequence;
    CurrentOfRows(env, table, NextPosition(table), key, w.expected, w.evts, key);
  }

  /** So a run gives it an event: decided, and, with another writer's append in between if need be, committed. */
  lemma StillDecidable(env: Env, s: Sys, i: nat)
    requires Inv(s) && i < |s.rows| && !s.rows[i].done && !Undecidable(s.rows[i].command)
    requires Carrying(s.table, s.rows[i].command.id) == [] && !Ahead(s.table, s.rows[i].command.key)
    ensures !NoEffectEver(env, s, s.rows[i].command.id)
  {
    var qc := s.rows[i].command;
    AppliedIsCarrying(s.table, qc);
    hide Inv, Ahead, Applied, Carrying, AfterAll, NoEffectEver;
    var first, s1, j := ReachDeciding(env, s, i);
    var more, s2 := AcceptOne(env, s1, j);
    RunsCompose(env, s, first, more);
    var last := LandIt(env, s2, s.table, qc);
    RunsCompose(env, s, first + more, last);
    EffectAfter(env, s, first + more + last, qc.id);
  }

  lemma EffectAfter(env: Env, s: Sys, steps: seq<Step>, id: string)
    requires AfterAll(env, s, steps).Some? && Carrying(AfterAll(env, s, steps).value.table, id) != []
    ensures !NoEffectEver(env, s, id)
  {
    hide AfterAll, Carrying;
  }

  lemma LandIt(env: Env, s: Sys, table: seq<Event>, qc: QueuedCommand) returns (steps: seq<Step>)
    requires qc.meta.Some? && !Undecidable(qc) && s.table == table && !Ahead(table, qc.key)
    requires s.phase.Deciding? && s.phase.todo == [] && s.phase.batch == [Entry(table, qc)]
    ensures AfterAll(env, s, steps).Some? && Carrying(AfterAll(env, s, steps).value.table, qc.id) != []
  {
    var w := CatchUp(table, qc.key);
    CaughtUp(env, table, qc.key, Ids(s.rows));
    hide CatchUp, AfterWrite, ForeignTo, InsertBatch, Carrying, AllFit, BatchCarriesMarker, Ahead, ResultsOf, Ids;
    var s1 := After(env, s, Foreign(w));
    OneStepMore(env, s, [], Foreign(w));
    EntryLands(env, table, s1.table, qc);
    OneStepMore(env, s, [] + [Foreign(w)], Commit(false));
    steps := [] + [Foreign(w)] + [Commit(false)];
    assert After(env, s1, Commit(false)).table == InsertBatch(env, s1.table, [Entry(table, qc)]);
  }

  // ---------------------------------------------------------------------
  // The theorems
  // ---------------------------------------------------------------------

  /**
   Finality. In every reachable state, a queued command that has no event will never have one
   if and only if its row is marked done, its meta is undecidable, or its stream's sequences
   run ahead of its rows. But for the last two the done flag is all that a refusal, or a
   success without events, has to rest on.
   */
  lemma FinalIff(env: Env, run: seq<Step>, i: nat)
    requires AfterAll(env, INITIAL, run).Some? && i < |AfterAll(env, INITIAL, run).value.rows|
    requires var s := AfterAll(env, INITIAL, run).value;
             Carrying(s.table, s.rows[i].command.id) == []
    ensures var s := AfterAll(env, INITIAL, run).value;
            var qc := s.rows[i].command;
            NoEffectEver(env, s, qc.id) <==> s.rows[i].done || Undecidable(qc) || Ahead(s.table, qc.key)
  {
    var s := AfterAll(env, INITIAL, run).value;
    var id := s.rows[i].command.id;
    RunKeepsInv(env, INITIAL, run);
    if s.rows[i].done || Undecidable(s.rows[i].command) || Ahead(s.table, s.rows[i].command.key) {
      forall more | AfterAll(env, s, more).Some?
        ensures Carrying(AfterAll(env, s, more).value.table, id) == []
      {
        if s.rows[i].done {
          assert RowDone(s, id) && id in Ids(s.rows);
          RunLeavesSettled(env, s, more, id);
        } else if Undecidable(s.rows[i].command) {
          UndecidableHasNoEffect(env, run, more, i);
        } else {
          AheadHasNoEffect(env, run, more, i);
        }
      }
    } else {
      StillDecidable(env, s, i);
    }
  }

  lemma MarkedRow(env: Env, s: Sys, ids: set<string>, lost: bool, i: nat)
    requires i < |s.rows| && s.rows[i].command.id in ids
    ensures var s' := Mark(s, ids, lost);
            |s'.rows| == |s.rows| && s'.rows[i].command == s.rows[i].command
                && s'.rows[i].done == (s.rows[i].done || !lost)
  {
  }

  /**
   A refusal, just signalled, is final if and only if its mark lands (or the row was marked
   already, the meta is undecidable, as when it was refused for not decoding, or the stream
   runs ahead).
   */
  lemma RefusalFinalIff(env: Env, run: seq<Step>, lost: bool, i: nat)
    requires AfterAll(env, INITIAL, run).Some? && AfterAll(env, INITIAL, run).value.phase.Refusing?
    requires var s := AfterAll(env, INITIAL, run).value;
             i < |s.rows| && s.rows[i].command.id == s.phase.id
    ensures var s := AfterAll(env, INITIAL, run).value;
            NoEffectEver(env, After(env, s, MarkRefused(lost)), s.phase.id) <==>
            !lost || s.rows[i].done || Undecidable(s.rows[i].command) || Ahead(s.table, s.rows[i].command.key)
  {
    var s := AfterAll(env, INITIAL, run).value;
    RunKeepsInv(env, INITIAL, run);
    MarkedRow(env, s, {s.phase.id}, lost, i);
    assert Carrying(s.table, s.phase.id) == [];
    OneStepMore(env, INITIAL, run, MarkRefused(lost));
    hide Inv, AfterAll, NoEffectEver, Carrying;
    FinalIff(env, run + [MarkRefused(lost)], i);
  }

  /** So is a success without events, of a command that could still be decided. */
  lemma EmptySuccessFinalIff(env: Env, run: seq<Step>, lost: bool, k: nat, i: nat)
    requires AfterAll(env, INITIAL, run).Some? && Enabled(AfterAll(env, INITIAL, run).value, MarkBatch(lost))
    requires var s := AfterAll(env, INITIAL, run).value;
             && k < |s.phase.results| && s.phase.results[k].events == []
             && i < |s.rows| && s.rows[i].command.id == s.phase.results[k].commandId
    ensures var s := AfterAll(env, INITIAL, run).value;
            NoEffectEver(env, After(env, s, MarkBatch(lost)), s.phase.results[k].commandId) <==>
            !lost || s.rows[i].done || Undecidable(s.rows[i].command) || Ahead(s.table, s.rows[i].command.key)
  {
    hide AfterAll, NoEffectEver, OneBlock, Applied;
    var s := AfterAll(env, INITIAL, run).value;
    RunKeepsInv(env, INITIAL, run);
    assert s.phase.results[k].commandId in ResultIds(s.phase.results);
    MarkedRow(env, s, ResultIds(s.phase.results), lost, i);
    assert Carrying(s.table, s.phase.results[k].commandId) == [];
    OneStepMore(env, INITIAL, run, MarkBatch(lost));
    hide Inv, AfterAll, NoEffectEver, Carrying;
    FinalIff(env, run + [MarkBatch(lost)], i);
  }
}
