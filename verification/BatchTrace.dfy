/**
 The caller's metadata through the queue: whatever crashes, is lost or is decided again, a
 row that carries a command's id carries the metadata that command was queued with.
 */
module BatchTrace {
  import opened Wrappers
  import opened EventLog
  import opened LogInvariant
  import opened LogRows
  import opened EventStore
  import opened Deciding
  import opened BatchWindow
  import opened CommandQueue
  import opened BatchProtocol
  import opened BatchSafety
  import opened BatchFinal

  /** Every key of the queued metadata is in an event's, with its value. */
  predicate Holds(meta: Metadata, held: Metadata) {
    forall k :: k in meta ==> k in held && held[k] == meta[k]
  }

  /** The same, but for the command id, which the commit puts in. */
  predicate HoldsButId(meta: Metadata, held: Metadata) {
    forall k :: k in meta && k != "commandId" ==> k in held && held[k] == meta[k]
  }

  predicate EntryKeeps(qc: QueuedCommand, dc: DecidedCommand) {
    qc.meta.Some? && forall j :: 0 <= j < |dc.newEvents| ==> Holds(qc.meta.value, dc.newEvents[j].metadata)
  }

  predicate HandKeeps(rows: seq<QueueRow>, batch: seq<DecidedCommand>) {
    forall i, k :: 0 <= i < |rows| && 0 <= k < |batch| && rows[i].command.id == batch[k].commandId ==>
      EntryKeeps(rows[i].command, batch[k])
  }

  predicate RowKeeps(qc: QueuedCommand, e: Event) {
    CommandIdOf(e) == Some(qc.id) ==> qc.meta.Some? && HoldsButId(qc.meta.value, e.metadata)
  }

  predicate LogKeeps(rows: seq<QueueRow>, table: seq<Event>) {
    forall i, p :: 0 <= i < |rows| && 0 <= p < |table| ==> RowKeeps(rows[i].command, table[p])
  }

  ghost predicate AllKept(s: Sys) {
    LogKeeps(s.rows, s.table) && HandKeeps(s.rows, InHand(s.phase))
  }

  lemma DecidedKeeps(reg: Deciders, stream: Option<seq<Event>>, qc: QueuedCommand)
    requires DecideQueued(reg, stream, qc).Success?
    ensures var d := DecideQueued(reg, stream, qc).value;
            EntryKeeps(qc, DecidedCommand(qc.id, qc.key, d.expected, d.newEvents))
  {
    var state, produced, shielded := DecisionHolds(reg, stream, qc.key, Command(qc.command, qc.payload), qc.meta.value);
    hide DecideOn;
  }

  lemma HandMore(rows: seq<QueueRow>, batch: seq<DecidedCommand>, qc: QueuedCommand, dc: DecidedCommand)
    requires DistinctIds(rows) && HandKeeps(rows, batch) && PendingRow(rows, qc)
    requires EntryKeeps(qc, dc) && dc.commandId == qc.id
    ensures HandKeeps(rows, batch + [dc])
  {
    var j :| 0 <= j < |rows| && rows[j] == QueueRow(qc, false);
    forall i | 0 <= i < |rows| && rows[i].command.id == dc.commandId
      ensures rows[i].command == qc
    {
      assert i == j;
    }
    hide EntryKeeps;
  }

  lemma DecideKeepsAll(s: Sys, reg: Deciders, u: Option<Upcaster>)
    requires Inv(s) && s.phase.Deciding? && |s.phase.todo| > 0 && AllKept(s)
    ensures AllKept(AfterDecide(s, reg, u))
  {
    var qc := s.phase.todo[0];
    var stream := OverlayLoad(s.table, u, s.phase.staged, qc.key);
    assert PendingRow(s.rows, qc) && DistinctIds(s.rows);
    hide Inv, OverlayLoad, HandKeeps, LogKeeps, DecideQueued, EntryKeeps, Recorded, PendingRow, DistinctIds;
    if DecideQueued(reg, stream, qc).Success? {
      var d := DecideQueued(reg, stream, qc).value;
      DecidedKeeps(reg, stream, qc);
      HandMore(s.rows, s.phase.batch, qc, DecidedCommand(qc.id, qc.key, d.expected, d.newEvents));
    }
  }

  lemma BatchedIdsAreQueued(s: Sys)
    requires Inv(s)
    ensures forall k :: 0 <= k < |InHand(s.phase)| ==> InHand(s.phase)[k].commandId in Ids(s.rows)
  {
    forall k | 0 <= k < |InHand(s.phase)|
      ensures InHand(s.phase)[k].commandId in Ids(s.rows)
    {
      assert Awaiting(s.rows, s.table, InHand(s.phase)[k].commandId, InHand(s.phase)[k].key);
    }
  }

  lemma EnqueueKeepsAll(s: Sys, qc: QueuedCommand)
    requires Inv(s) && qc.id !in Ids(s.rows) && Carrying(s.table, qc.id) == [] && AllKept(s)
    ensures AllKept(s.(rows := s.rows + [QueueRow(qc, false)]))
  {
    BatchedIdsAreQueued(s);
    CarryingNone(s.table, qc.id);
    hide Inv, Carrying, EntryKeeps, HoldsButId;
  }

  /** Marking, or anything else that leaves the queued commands and the log, or drops what is in hand. */
  lemma SameCommandsKept(s: Sys, s': Sys)
    requires AllKept(s) && s'.table == s.table && |s'.rows| == |s.rows|
    requires forall i :: 0 <= i < |s.rows| ==> s'.rows[i].command == s.rows[i].command
    requires InHand(s'.phase) == InHand(s.phase) || InHand(s'.phase) == []
    ensures AllKept(s')
  {
    hide EntryKeeps, RowKeeps;
  }

  lemma {:induction false} BatchKeepsLog(env: Env, table: seq<Event>, rows: seq<QueueRow>, batch: seq<DecidedCommand>)
    requires LogKeeps(rows, table) && HandKeeps(rows, batch)
    ensures LogKeeps(rows, InsertBatch(env, table, batch))
  {
    if |batch| > 0 {
      var front, dc := batch[..|batch| - 1], batch[|batch| - 1];
      BatchKeepsLog(env, table, rows, front);
      var before := InsertBatch(env, table, front);
      var block := BlockRows(env, before, dc);
      hide InsertBatch, BlockRows, RowKeeps;
      forall i, j | 0 <= i < |rows| && 0 <= j < |block|
        ensures RowKeeps(rows[i].command, block[j])
      {
        BlockHolds(env, before, dc, j);
        LandedKeeps(rows[i].command, dc, block[j], j);
      }
      LogKeepsMore(rows, before, block);
    }
  }

  lemma LandedKeeps(qc: QueuedCommand, dc: DecidedCommand, row: Event, j: nat)
    requires j < |dc.newEvents| && row.metadata == dc.newEvents[j].metadata["commandId" := dc.commandId]
    requires qc.id == dc.commandId ==> EntryKeeps(qc, dc)
    ensures RowKeeps(qc, row)
  {
  }

  lemma LogKeepsMore(rows: seq<QueueRow>, log: seq<Event>, more: seq<Event>)
    requires LogKeeps(rows, log)
    requires forall i, j :: 0 <= i < |rows| && 0 <= j < |more| ==> RowKeeps(rows[i].command, more[j])
    ensures LogKeeps(rows, log + more)
  {
    hide RowKeeps;
  }

  lemma ForeignKeepsLog(env: Env, s: Sys, w: Write)
    requires Inv(s) && ForeignTo(w, Ids(s.rows)) && LogKeeps(s.rows, s.table)
    ensures LogKeeps(s.rows, AfterWrite(env, s.table, w))
  {
    assert Increasing(s.table) && forall i :: 0 <= i < |s.rows| ==> s.rows[i].command.id in Ids(s.rows);
    hide Inv, AfterWrite, ForeignTo, HoldsButId, Ids;
    var more := ForeignAdds(env, s.table, w, Ids(s.rows));
    LogKeepsMore(s.rows, s.table, more);
  }

  lemma StepKeepsAll(env: Env, s: Sys, step: Step)
    requires Inv(s) && Enabled(s, step) && AllKept(s)
    ensures AllKept(After(env, s, step))
  {
    match step
    case DecideNext(reg, u) => DecideKeepsAll(s, reg, u);
    case Enqueue(qc) => EnqueueKeepsAll(s, qc);
    case Foreign(w) =>
      ForeignKeepsLog(env, s, w);
      hide Inv, AfterWrite, LogKeeps, HandKeeps;
    case Commit(_) =>
      BatchKeepsLog(env, s.table, s.rows, s.phase.batch);
      hide Inv, InsertBatch, LogKeeps, HandKeeps, AllFit, BatchCarriesMarker, ResultsOf;
      NothingInHand(s.rows);
    case _ =>
      OthersKeepCommands(env, s, step);
      NothingInHand(s.rows);
      hide Inv, After, AllKept;
      SameCommandsKept(s, After(env, s, step));
  }

  lemma NothingInHand(rows: seq<QueueRow>)
    ensures HandKeeps(rows, [])
  {
  }

  lemma OthersKeepCommands(env: Env, s: Sys, step: Step)
    requires Enabled(s, step) && !step.DecideNext? && !step.Enqueue? && !step.Foreign? && !step.Commit?
    ensures var s' := After(env, s, step);
            && s'.table == s.table && |s'.rows| == |s.rows|
            && (forall i :: 0 <= i < |s.rows| ==> s'.rows[i].command == s.rows[i].command)
            && (InHand(s'.phase) == InHand(s.phase) || InHand(s'.phase) == [])
  {
    hide PendingCommands, Applied;
  }

  lemma {:induction false} RunKeepsAll(env: Env, run: seq<Step>)
    requires AfterAll(env, INITIAL, run).Some?
    ensures AllKept(AfterAll(env, INITIAL, run).value)
  {
    if |run| > 0 {
      var front := run[..|run| - 1];
      RunKeepsAll(env, front);
      RunKeepsInv(env, INITIAL, front);
      hide After, Enabled, Inv, AllKept;
      StepKeepsAll(env, AfterAll(env, INITIAL, front).value, run[|run| - 1]);
    }
  }

  /**
   In every reachable state, a row that carries a queued command's id has that command's
   metadata as it was queued, key by key, the clock captured at intake among them.
   */
  lemma RowsCarryTheQueuedMeta(env: Env, run: seq<Step>, i: nat, p: nat)
    requires AfterAll(env, INITIAL, run).Some?
    requires var s := AfterAll(env, INITIAL, run).value;
             && i < |s.rows| && p < |s.table| && "commandId" in s.table[p].metadata
             && s.table[p].metadata["commandId"] == s.rows[i].command.id
    ensures var s := AfterAll(env, INITIAL, run).value;
            && s.rows[i].command.meta.Some?
            && forall k :: k in s.rows[i].command.meta.value && k != "commandId" ==>
                 k in s.table[p].metadata && s.table[p].metadata[k] == s.rows[i].command.meta.value[k]
  {
    RunKeepsAll(env, run);
    var s := AfterAll(env, INITIAL, run).value;
    assert RowKeeps(s.rows[i].command, s.table[p]);
  }
}
