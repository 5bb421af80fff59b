/**
 Safety of the batching protocol over every run: at most one effect per command through
 any crash, and truthful outcomes.
 */
module BatchSafety {
  import opened Wrappers
  import opened EventLog
  import opened LogInvariant
  import opened EventStore
  import opened Deciding
  import opened BatchWindow
  import opened CommandQueue
  import opened BatchProtocol

  // ---------------------------------------------------------------------
  // Frames: what a step leaves of the phase's claims
  // ---------------------------------------------------------------------

  /** Nothing a phase waits for is taken away from it. */
  ghost predicate StillWaiting(rows: seq<QueueRow>, table: seq<Event>, rows': seq<QueueRow>, table': seq<Event>,
                               except: set<string>)
  {
    && Ids(rows) <= Ids(rows')
    && (forall qc: QueuedCommand :: qc.id !in except && PendingRow(rows, qc) ==> PendingRow(rows', qc))
    && (forall id: string, key: StreamKey :: id !in except && Awaiting(rows, table, id, key) ==>
        Awaiting(rows', table', id, key))
  }

  lemma PhaseFrame(rows: seq<QueueRow>, table: seq<Event>, phase: Phase, rows': seq<QueueRow>, table': seq<Event>)
    requires PhaseOk(rows, table, phase) && StillWaiting(rows, table, rows', table', {})
    requires forall id :: id in Ids(rows) ==> Carrying(table', id) == Carrying(table, id)
    ensures PhaseOk(rows', table', phase)
  {
  }

  lemma WindowFrame(rows: seq<QueueRow>, table: seq<Event>, rows': seq<QueueRow>, table': seq<Event>,
                    except: set<string>,
                    todo: seq<QueuedCommand>, batch: seq<DecidedCommand>)
    requires WindowOk(rows, table, todo, batch) && StillWaiting(rows, table, rows', table', except)
    requires forall i :: 0 <= i < |todo| ==> todo[i].id !in except
    requires forall k :: 0 <= k < |batch| ==> batch[k].commandId !in except
    ensures WindowOk(rows', table', todo, batch)
  {
  }

  lemma MarkedIds(rows: seq<QueueRow>, ids: set<string>)
    ensures Ids(Marked(rows, ids)) == Ids(rows)
    ensures forall i :: 0 <= i < |rows| ==> Marked(rows, ids)[i].command == rows[i].command
  {
    assert forall i :: 0 <= i < |rows| ==> Marked(rows, ids)[i].command == rows[i].command;
  }

  /** Marking touches only the marked commands. */
  lemma MarkFrame(s: Sys, ids: set<string>, lost: bool)
    ensures StillWaiting(s.rows, s.table, Mark(s, ids, lost).rows, s.table, ids)
    ensures Ids(Mark(s, ids, lost).rows) == Ids(s.rows)
    ensures QueueOk(s.rows, s.table) ==> QueueOk(Mark(s, ids, lost).rows, s.table)
  {
    MarkedIds(s.rows, ids);
    var rows' := Mark(s, ids, lost).rows;
    forall qc: QueuedCommand | qc.id !in ids && PendingRow(s.rows, qc)
      ensures PendingRow(rows', qc)
    {
      var i :| 0 <= i < |s.rows| && s.rows[i] == QueueRow(qc, false);
      assert rows'[i] == QueueRow(qc, false);
    }
    forall id: string, key: StreamKey | id !in ids && Awaiting(s.rows, s.table, id, key)
      ensures Awaiting(rows', s.table, id, key)
    {
      var i :| 0 <= i < |s.rows| && s.rows[i].command.id == id && s.rows[i].command.key == key;
      assert rows'[i].command == s.rows[i].command;
    }
  }

  lemma PendingIsAwaiting(rows: seq<QueueRow>, table: seq<Event>, qc: QueuedCommand)
    requires QueueOk(rows, table) && PendingRow(rows, qc) && !Applied(table, qc.key, qc.id, qc.enqueuedAt)
    ensures Awaiting(rows, table, qc.id, qc.key)
  {
    var i :| 0 <= i < |rows| && rows[i] == QueueRow(qc, false);
    assert OneBlock(table, rows[i].command);
    AppliedIsCarrying(table, qc);
  }

  // ---------------------------------------------------------------------
  // The steps, one lemma each where there is something to prove
  // ---------------------------------------------------------------------

  lemma EnqueueFrame(rows: seq<QueueRow>, table: seq<Event>, qc: QueuedCommand)
    requires qc.id !in Ids(rows)
    ensures StillWaiting(rows, table, rows + [QueueRow(qc, false)], table, {})
  {
    var rows' := rows + [QueueRow(qc, false)];
    assert forall i :: 0 <= i < |rows| ==> rows'[i] == rows[i];
    forall id | id in Ids(rows)
      ensures id in Ids(rows')
    {
      var i :| 0 <= i < |rows| && rows[i].command.id == id;
      assert rows'[i].command.id == id;
    }
    forall p: QueuedCommand | PendingRow(rows, p)
      ensures PendingRow(rows', p)
    {
      var i :| 0 <= i < |rows| && rows[i] == QueueRow(p, false);
      assert rows'[i] == QueueRow(p, false);
    }
    forall id: string, key: StreamKey | Awaiting(rows, table, id, key)
      ensures Awaiting(rows', table, id, key)
    {
      var i :| 0 <= i < |rows| && rows[i].command.id == id && rows[i].command.key == key;
      assert rows'[i].command == rows[i].command;
      assert id in Ids(rows);
    }
  }

  lemma EnqueueQueue(rows: seq<QueueRow>, table: seq<Event>, qc: QueuedCommand)
    requires QueueOk(rows, table) && qc.id !in Ids(rows) && Carrying(table, qc.id) == []
             && qc.enqueuedAt <= MaxPosition(table)
    ensures QueueOk(rows + [QueueRow(qc, false)], table)
  {
    assert forall i :: 0 <= i < |rows| ==> rows[i].command.id in Ids(rows);
    NoBlockYet(table, qc);
    assert OneBlock(table, qc);
  }

  lemma EnqueueKeepsInv(s: Sys, qc: QueuedCommand)
    requires Inv(s) && Enabled(s, Enqueue(qc))
    ensures Inv(s.(rows := s.rows + [QueueRow(qc, false)]))
  {
    EnqueueFrame(s.rows, s.table, qc);
    EnqueueQueue(s.rows, s.table, qc);
    PhaseFrame(s.rows, s.table, s.phase, s.rows + [QueueRow(qc, false)], s.table);
  }

  lemma {:induction false} PendingAreRows(rows: seq<QueueRow>)
    requires DistinctIds(rows)
    ensures DistinctCommands(PendingOf(rows))
    ensures forall k :: 0 <= k < |PendingOf(rows)| ==> PendingRow(rows, PendingOf(rows)[k])
  {
    if |rows| > 0 {
      var front := rows[..|rows| - 1];
      PendingAreRows(front);
      forall k | 0 <= k < |PendingOf(rows)|
        ensures PendingRow(rows, PendingOf(rows)[k])
      {
        if k < |PendingOf(front)| {
          assert PendingRow(front, PendingOf(front)[k]);
          var i :| 0 <= i < |front| && front[i] == QueueRow(PendingOf(front)[k], false);
          assert rows[i] == QueueRow(PendingOf(rows)[k], false);
        } else {
          assert rows[|rows| - 1] == QueueRow(PendingOf(rows)[k], false);
        }
      }
      forall k | 0 <= k < |PendingOf(front)|
        ensures PendingOf(front)[k].id != rows[|rows| - 1].command.id
      {
        assert PendingRow(front, PendingOf(front)[k]);
        var i :| 0 <= i < |front| && front[i] == QueueRow(PendingOf(front)[k], false);
        assert rows[i].command.id == PendingOf(front)[k].id;
      }
    }
  }

  lemma BeginKeepsPhase(rows: seq<QueueRow>, table: seq<Event>, limit: int)
    requires DistinctIds(rows)
    ensures PhaseOk(rows, table, Checking(PendingCommands(rows, limit), []))
  {
    PendingAreRows(rows);
    var todo, all := PendingCommands(rows, limit), PendingOf(rows);
    assert todo <= all && [] + todo == todo;
    hide PendingOf, PendingCommands, DistinctIds, PendingRow, Awaiting;
    forall i | 0 <= i < |todo|
      ensures PendingRow(rows, todo[i])
    {
      assert todo[i] == all[i];
    }
  }

  lemma CheckedApart(kept: seq<QueuedCommand>, todo: seq<QueuedCommand>)
    requires |todo| > 0 && DistinctCommands(kept + todo)
    ensures DistinctCommands(kept + todo[1..])
    ensures (kept + [todo[0]]) + todo[1..] == kept + todo
    ensures forall i :: 0 <= i < |kept| ==> kept[i].id != todo[0].id
    ensures forall i :: 0 < i < |todo| ==> todo[i].id != todo[0].id
  {
    var all, rest := kept + todo, kept + todo[1..];
    forall i, j | 0 <= i < j < |rest|
      ensures rest[i].id != rest[j].id
    {
      var i', j' := if i < |kept| then i else i + 1, if j < |kept| then j else j + 1;
      assert rest[i] == all[i'] && rest[j] == all[j'];
    }
    forall i | 0 <= i < |kept|
      ensures kept[i].id != todo[0].id
    {
      assert all[i].id != all[|kept|].id;
    }
    forall i | 0 < i < |todo|
      ensures todo[i].id != todo[0].id
    {
      assert all[|kept|].id != all[|kept| + i].id;
    }
  }

  lemma CheckKeepsInv(env: Env, s: Sys, lost: bool)
    requires Inv(s) && Enabled(s, Check(lost))
    ensures Inv(After(env, s, Check(lost)))
  {
    hide OneBlock, Carrying, Applied;
    var todo, kept := s.phase.todo, s.phase.kept;
    var qc := todo[0];
    CheckedApart(kept, todo);
    if Applied(s.table, qc.key, qc.id, qc.enqueuedAt) {
      MarkFrame(s, {qc.id}, lost);
    } else {
      assert PendingRow(s.rows, qc);
      PendingIsAwaiting(s.rows, s.table, qc);
    }
  }

  lemma SignalKeeps(s: Sys, id: string, outcome: Outcome)
    requires DeliveryOk(s)
    requires outcome.Success? && outcome.value != [] ==> outcome.value == Carrying(s.table, id)
    ensures DeliveryOk(Signal(s, id, outcome))
  {
  }

  lemma AcceptKeepsWindow(rows: seq<QueueRow>, table: seq<Event>, todo: seq<QueuedCommand>, batch: seq<DecidedCommand>,
                          entry: DecidedCommand)
    requires |todo| > 0 && WindowOk(rows, table, todo, batch)
    requires entry.commandId == todo[0].id && entry.key == todo[0].key
    ensures WindowOk(rows, table, todo[1..], batch + [entry])
    ensures WindowOk(rows, table, todo[1..], batch)
    ensures forall i :: 0 <= i < |todo[1..]| ==> todo[1..][i].id != todo[0].id
  {
    assert forall i :: 0 <= i < |todo[1..]| ==> todo[1..][i] == todo[i + 1];
  }

  lemma DecideKeepsInv(s: Sys, reg: Deciders, u: Option<Upcaster>)
    requires Inv(s) && s.phase.Deciding? && |s.phase.todo| > 0
    ensures Inv(AfterDecide(s, reg, u))
  {
    hide OneBlock, Carrying, QueueOk, Increasing, DecideQueued, OverlayLoad, Recorded;
    var qc := s.phase.todo[0];
    var decision := DecideQueued(reg, OverlayLoad(s.table, u, s.phase.staged, qc.key), qc);
    var d := if decision.Success? then decision.value else Decision([], 0);
    AcceptKeepsWindow(s.rows, s.table, s.phase.todo, s.phase.batch,
                      DecidedCommand(qc.id, qc.key, d.expected, d.newEvents));
    if decision.Failure? {
      SignalKeeps(s, qc.id, Failure(decision.error));
    }
  }

  lemma MarkRefusedKeepsInv(env: Env, s: Sys, lost: bool)
    requires Inv(s) && s.phase.Refusing?
    ensures Inv(After(env, s, MarkRefused(lost)))
  {
    hide OneBlock, Carrying, WindowOk, StillWaiting, QueueOk, Marked;
    MarkFrame(s, {s.phase.id}, lost);
    WindowFrame(s.rows, s.table, Mark(s, {s.phase.id}, lost).rows, s.table, {s.phase.id}, s.phase.todo, s.phase.batch);
  }

  lemma MarkBatchKeepsInv(env: Env, s: Sys, lost: bool)
    requires Inv(s) && Enabled(s, MarkBatch(lost))
    ensures Inv(After(env, s, MarkBatch(lost)))
  {
    MarkFrame(s, ResultIds(s.phase.results), lost);
  }

  lemma ReportKeepsInv(env: Env, s: Sys)
    requires Inv(s) && Enabled(s, Report)
    ensures Inv(After(env, s, Report))
  {
    var r := s.phase.results[s.phase.next];
    SignalKeeps(s, r.commandId, Success(r.events));
  }

  /** What committing a batch does to every queued command's rows. */
  lemma CommitBlocks(env: Env, s: Sys, qc: QueuedCommand)
    requires Inv(s) && s.phase.Deciding? && OneBlock(s.table, qc) && qc.enqueuedAt <= MaxPosition(s.table)
    requires exists i :: 0 <= i < |s.rows| && s.rows[i].command == qc
    ensures OneBlock(InsertBatch(env, s.table, s.phase.batch), qc)
    ensures forall k :: 0 <= k < |s.phase.batch| && s.phase.batch[k].commandId == qc.id ==>
              Carrying(InsertBatch(env, s.table, s.phase.batch), qc.id) == Landed(env, s.table, s.phase.batch, k).events
    ensures Carrying(s.table, qc.id) != [] ==>
              Carrying(InsertBatch(env, s.table, s.phase.batch), qc.id) == Carrying(s.table, qc.id)
  {
    var batch := s.phase.batch;
    if k :| 0 <= k < |batch| && batch[k].commandId == qc.id {
      assert Awaiting(s.rows, s.table, batch[k].commandId, batch[k].key);
      var j :| 0 <= j < |s.rows| && s.rows[j].command.id == qc.id && s.rows[j].command.key == batch[k].key;
      var i :| 0 <= i < |s.rows| && s.rows[i].command == qc;
      assert i == j;
      BatchBlock(env, s.table, batch, k, qc);
    } else {
      UntouchedByBatch(env, s.table, batch, qc);
    }
  }

  lemma UntouchedByBatch(env: Env, log: seq<Event>, batch: seq<DecidedCommand>, qc: QueuedCommand)
    requires Increasing(log) && OneBlock(log, qc) && forall k :: 0 <= k < |batch| ==> batch[k].commandId != qc.id
    ensures OneBlock(InsertBatch(env, log, batch), qc)
    ensures Carrying(InsertBatch(env, log, batch), qc.id) == Carrying(log, qc.id)
  {
    BatchCarriesNot(env, log, batch, qc.id);
    BatchPositions(env, log, batch);
    var after := InsertBatch(env, log, batch);
    var added := after[|log|..];
    assert after == log + added;
    CarryingConcat(log, added, qc.id);
    BlockStays(log, added, qc);
  }

  lemma CommitKeepsQueue(env: Env, s: Sys)
    requires Inv(s) && s.phase.Deciding?
    ensures QueueOk(s.rows, InsertBatch(env, s.table, s.phase.batch))
  {
    var table' := InsertBatch(env, s.table, s.phase.batch);
    BatchPositions(env, s.table, s.phase.batch);
    forall i | 0 <= i < |s.rows|
      ensures s.rows[i].command.enqueuedAt <= MaxPosition(table') && OneBlock(table', s.rows[i].command)
    {
      CommitBlocks(env, s, s.rows[i].command);
    }
    hide InsertBatch, OneBlock;
  }

  lemma CommitReported(env: Env, s: Sys, k: nat)
    requires Inv(s) && s.phase.Deciding? && k < |s.phase.batch|
    ensures var dc := s.phase.batch[k];
            && dc.commandId in Ids(s.rows)
            && Carrying(InsertBatch(env, s.table, s.phase.batch), dc.commandId) ==
               Landed(env, s.table, s.phase.batch, k).events
  {
    var dc := s.phase.batch[k];
    assert Awaiting(s.rows, s.table, dc.commandId, dc.key);
    var j :| 0 <= j < |s.rows| && s.rows[j].command.id == dc.commandId && s.rows[j].command.key == dc.key;
    hide InsertBatch, Landed;
    CommitBlocks(env, s, s.rows[j].command);
  }

  lemma CommittedInv(env: Env, s: Sys)
    requires Inv(s) && s.phase.Deciding?
    ensures var batch := s.phase.batch;
            Inv(s.(table := InsertBatch(env, s.table, batch), phase := Reporting(ResultsOf(env, s.table, batch), 0)))
  {
    var batch, results := s.phase.batch, ResultsOf(env, s.table, s.phase.batch);
    var s' := s.(table := InsertBatch(env, s.table, batch), phase := Reporting(results, 0));
    BatchPositions(env, s.table, batch);
    CommitKeepsQueue(env, s);
    CommitDelivery(env, s, s');
    forall k | 0 <= k < |batch|
      ensures results[k].commandId in Ids(s.rows) && Carrying(s'.table, results[k].commandId) == results[k].events
    {
      CommitReported(env, s, k);
      assert results[k] == Landed(env, s.table, batch, k);
    }
    hide InsertBatch, Landed, Carrying, QueueOk, DeliveryOk, Ids, Increasing, ResultsOf;
  }

  lemma CommitKeepsInv(env: Env, s: Sys, fault: bool)
    requires Inv(s) && Enabled(s, Commit(fault))
    ensures Inv(After(env, s, Commit(fault)))
  {
    CommittedInv(env, s);
    assert PhaseOk(s.rows, s.table, Idle);
    hide InsertBatch, ResultsOf, QueueOk, DeliveryOk, PhaseOk, Increasing, AllFit, BatchCarriesMarker;
    var s' := After(env, s, Commit(fault));
    if s'.phase.Idle? {
      assert s' == s.(phase := Idle);
      IdleInv(s);
    }
  }

  lemma IdleInv(s: Sys)
    requires Inv(s)
    ensures Inv(s.(phase := Idle))
  {
  }

  lemma CommitDelivery(env: Env, s: Sys, s': Sys)
    requires Inv(s) && s.phase.Deciding? && s'.table == InsertBatch(env, s.table, s.phase.batch)
    requires s'.rows == s.rows && s'.waiters == s.waiters && s'.registered == s.registered
             && s'.delivered == s.delivered
    ensures DeliveryOk(s')
  {
    forall id | id in s.delivered && s.delivered[id].Success? && s.delivered[id].value != []
      ensures s.delivered[id].value == Carrying(s'.table, id)
    {
      assert id in Ids(s.rows);
      var i :| 0 <= i < |s.rows| && s.rows[i].command.id == id;
      CommitBlocks(env, s, s.rows[i].command);
    }
  }

  // ---------------------------------------------------------------------
  // Other writers
  // ---------------------------------------------------------------------

  /** Rows carrying none of the ids. */
  predicate CarryNone(rows: seq<Event>, ids: set<string>) {
    forall k :: 0 <= k < |rows| && CommandIdOf(rows[k]).Some? ==> CommandIdOf(rows[k]).value !in ids
  }

  lemma AppendedRows(env: Env, log: seq<Event>, key: StreamKey, expected: nat, evts: seq<NewEvent>, ids: set<string>)
    requires Increasing(log) && ForeignTo(WriteAppend(key, expected, evts, false), ids)
    ensures var rows := RowsOf(env, NextPosition(log), key, expected, evts);
            Increasing(log + rows) && CarryNone(rows, ids)
  {
    IncreasingConcat(log, RowsOf(env, NextPosition(log), key, expected, evts));
  }

  lemma ImportedHere(log: seq<Event>, evts: seq<Event>, ids: set<string>)
    requires Increasing(log) && ForeignTo(WriteImport(evts, false), ids)
    ensures var rows := ImportedRows(NextPosition(log), evts);
            Increasing(log + rows) && CarryNone(rows, ids)
  {
    var rows := ImportedRows(NextPosition(log), evts);
    IncreasingConcat(log, rows);
    assert forall k :: 0 <= k < |rows| ==> rows[k].metadata == evts[k].metadata[IMPORTED := "true"];
  }

  /** What a foreign write adds: nothing, or rows that carry no queued id. */
  lemma ForeignAdds(env: Env, log: seq<Event>, w: Write, ids: set<string>) returns (rows: seq<Event>)
    requires Increasing(log) && ForeignTo(w, ids)
    ensures AfterWrite(env, log, w) == log + rows && Increasing(log + rows) && CarryNone(rows, ids)
  {
    hide Increasing, NextPosition, CarryNone, RowsOf, ImportedRows;
    rows := [];
    NothingAdded(log, ids);
    match w
    case WriteAppend(key, expected, evts, _) =>
      AppendedRows(env, log, key, expected, evts, ids);
      if AfterWrite(env, log, w) != log {
        rows := RowsOf(env, NextPosition(log), key, expected, evts);
      }
    case WriteImport(evts, _) =>
      ImportedHere(log, evts, ids);
      if AfterWrite(env, log, w) != log {
        rows := ImportedRows(NextPosition(log), evts);
      }
    case WriteBatch(_, _) =>
  }

  lemma NothingAdded(log: seq<Event>, ids: set<string>)
    ensures log + [] == log && CarryNone([], ids)
  {
  }

  lemma ForeignRows(env: Env, log: seq<Event>, w: Write, ids: set<string>)
    requires Increasing(log) && ForeignTo(w, ids)
    ensures log <= AfterWrite(env, log, w) && Increasing(AfterWrite(env, log, w))
    ensures MaxPosition(log) <= MaxPosition(AfterWrite(env, log, w))
    ensures forall id :: id in ids ==> Carrying(AfterWrite(env, log, w)[|log|..], id) == []
  {
    hide AfterWrite, Carrying, ForeignTo;
    var rows := ForeignAdds(env, log, w, ids);
    assert (log + rows)[|log|..] == rows;
    forall id | id in ids
      ensures Carrying(rows, id) == []
    {
      CarryingNone(rows, id);
    }
  }

  /** A foreign write leaves the rows of every queued command as they are. */
  lemma ForeignLeaves(env: Env, s: Sys, w: Write, id: string)
    requires Inv(s) && ForeignTo(w, Ids(s.rows)) && id in Ids(s.rows)
    ensures Carrying(AfterWrite(env, s.table, w), id) == Carrying(s.table, id)
  {
    assert Increasing(s.table);
    hide *;
    ForeignRows(env, s.table, w, Ids(s.rows));
    var table' := AfterWrite(env, s.table, w);
    assert table' == s.table + table'[|s.table|..];
    CarryingConcat(s.table, table'[|s.table|..], id);
  }

  lemma ForeignFrame(s: Sys, added: seq<Event>)
    requires QueueOk(s.rows, s.table) && forall id :: id in Ids(s.rows) ==> Carrying(added, id) == []
    requires MaxPosition(s.table) <= MaxPosition(s.table + added)
    ensures forall id :: id in Ids(s.rows) ==> Carrying(s.table + added, id) == Carrying(s.table, id)
    ensures QueueOk(s.rows, s.table + added)
    ensures StillWaiting(s.rows, s.table, s.rows, s.table + added, {})
  {
    forall id | id in Ids(s.rows)
      ensures Carrying(s.table + added, id) == Carrying(s.table, id)
    {
      CarryingConcat(s.table, added, id);
    }
    forall i | 0 <= i < |s.rows|
      ensures OneBlock(s.table + added, s.rows[i].command)
    {
      assert s.rows[i].command.id in Ids(s.rows);
      BlockStays(s.table, added, s.rows[i].command);
    }
    forall id: string, key: StreamKey | Awaiting(s.rows, s.table, id, key)
      ensures Awaiting(s.rows, s.table + added, id, key)
    {
      assert id in Ids(s.rows);
    }
  }

  lemma ForeignKeepsInv(env: Env, s: Sys, w: Write)
    requires Inv(s) && Enabled(s, Foreign(w))
    ensures Inv(After(env, s, Foreign(w)))
  {
    var table' := AfterWrite(env, s.table, w);
    ForeignRows(env, s.table, w, Ids(s.rows));
    var added := table'[|s.table|..];
    assert table' == s.table + added;
    ForeignFrame(s, added);
    PhaseFrame(s.rows, s.table, s.phase, s.rows, table');
  }

  // ---------------------------------------------------------------------
  // Every step, every run
  // ---------------------------------------------------------------------

  lemma StepKeepsInv(env: Env, s: Sys, step: Step)
    requires Inv(s) && Enabled(s, step)
    ensures Inv(After(env, s, step))
  {
    hide OneBlock, Carrying, Increasing, Marked, AfterWrite, InsertBatch, ResultsOf, AfterDecide, Applied, Signal;
    match step
    case Enqueue(qc) => EnqueueKeepsInv(s, qc);
    case Register(id) =>
    case Begin(limit) => BeginKeepsPhase(s.rows, s.table, limit);
    case Check(lost) => CheckKeepsInv(env, s, lost);
    case StartDeciding => assert s.phase.kept + s.phase.todo == s.phase.kept;
    case DecideNext(reg, u) => DecideKeepsInv(s, reg, u);
    case MarkRefused(lost) => MarkRefusedKeepsInv(env, s, lost);
    case Commit(fault) => CommitKeepsInv(env, s, fault);
    case Report => ReportKeepsInv(env, s);
    case MarkBatch(lost) => MarkBatchKeepsInv(env, s, lost);
    case GiveUp =>
    case Crash =>
    case Foreign(w) => ForeignKeepsInv(env, s, w);
  }

  lemma {:induction false} RunKeepsInv(env: Env, s: Sys, steps: seq<Step>)
    requires Inv(s) && AfterAll(env, s, steps).Some?
    ensures Inv(AfterAll(env, s, steps).value)
  {
    if |steps| > 0 {
      RunKeepsInv(env, s, steps[..|steps| - 1]);
      StepKeepsInv(env, AfterAll(env, s, steps[..|steps| - 1]).value, steps[|steps| - 1]);
    }
  }

  // ---------------------------------------------------------------------
  // What no later step can change
  // ---------------------------------------------------------------------

  predicate RowDone(s: Sys, id: string) {
    exists i :: 0 <= i < |s.rows| && s.rows[i].command.id == id && s.rows[i].done
  }

  /** A command's effect, once there, is fixed; a command marked done gets no effect later. */
  ghost predicate Settled(s: Sys, id: string) {
    id in Ids(s.rows) && (Carrying(s.table, id) != [] || RowDone(s, id))
  }

  lemma CommitLeavesSettled(env: Env, s: Sys, id: string)
    requires Inv(s) && s.phase.Deciding? && Settled(s, id)
    ensures Carrying(InsertBatch(env, s.table, s.phase.batch), id) == Carrying(s.table, id)
  {
    forall k | 0 <= k < |s.phase.batch|
      ensures s.phase.batch[k].commandId != id
    {
      assert Awaiting(s.rows, s.table, s.phase.batch[k].commandId, s.phase.batch[k].key);
    }
    BatchCarriesNot(env, s.table, s.phase.batch, id);
  }

  lemma StepKeepsDone(env: Env, s: Sys, step: Step, id: string)
    requires Enabled(s, step) && RowDone(s, id)
    ensures RowDone(After(env, s, step), id)
  {
    var s' := After(env, s, step);
    var i :| 0 <= i < |s.rows| && s.rows[i].command.id == id && s.rows[i].done;
    assert s'.rows[i].command.id == id && s'.rows[i].done;
  }

  lemma StepKeepsIds(env: Env, s: Sys, step: Step)
    requires Enabled(s, step)
    ensures Ids(s.rows) <= Ids(After(env, s, step).rows)
  {
    var s' := After(env, s, step);
    assert forall i :: 0 <= i < |s.rows| ==> s'.rows[i].command == s.rows[i].command;
  }

  lemma OnlyWritesTouchTheLog(env: Env, s: Sys, step: Step)
    requires Enabled(s, step)
    ensures var table' := After(env, s, step).table;
            if step.Foreign? then table' == AfterWrite(env, s.table, step.w)
            else
              || table' == s.table
              || (&& step.Commit? && !BatchCarriesMarker(s.phase.batch)
                  && table' == InsertBatch(env, s.table, s.phase.batch))
  {
    hide InsertBatch, AfterWrite, AllFit;
  }

  lemma StepLeavesSettled(env: Env, s: Sys, step: Step, id: string)
    requires Inv(s) && Enabled(s, step) && Settled(s, id)
    ensures Carrying(After(env, s, step).table, id) == Carrying(s.table, id)
    ensures Settled(After(env, s, step), id)
  {
    hide Inv, After, AfterWrite, InsertBatch, Carrying, Ids, RowDone;
    OnlyWritesTouchTheLog(env, s, step);
    StepKeepsIds(env, s, step);
    if RowDone(s, id) {
      StepKeepsDone(env, s, step, id);
    }
    match step
    case Commit(_) => CommitLeavesSettled(env, s, id);
    case Foreign(w) => ForeignLeaves(env, s, w, id);
    case _ =>
  }

  lemma SignalLeavesDelivered(s: Sys, id: string, told: string, outcome: Outcome)
    requires s.waiters !! s.delivered.Keys && id in s.delivered
    ensures id in Signal(s, told, outcome).delivered && Signal(s, told, outcome).delivered[id] == s.delivered[id]
  {
  }

  lemma StepLeavesDelivered(env: Env, s: Sys, step: Step, id: string)
    requires Inv(s) && Enabled(s, step) && id in s.delivered
    ensures id in After(env, s, step).delivered && After(env, s, step).delivered[id] == s.delivered[id]
  {
    assert s.waiters !! s.delivered.Keys;
    hide Inv, Signal, Marked, InsertBatch, ResultsOf, AfterWrite, PendingCommands, Applied, DecideQueued, OverlayLoad;
    hide Ids, Carrying, AllFit, BatchCarriesMarker;
    match step
    case Report =>
      var r := s.phase.results[s.phase.next];
      SignalLeavesDelivered(s, id, r.commandId, Success(r.events));
    case DecideNext(reg, u) =>
      var qc := s.phase.todo[0];
      var decision := DecideQueued(reg, OverlayLoad(s.table, u, s.phase.staged, qc.key), qc);
      if decision.Failure? {
        SignalLeavesDelivered(s, id, qc.id, Failure(decision.error));
      }
    case _ =>
  }

  lemma {:induction false} RunLeavesSettled(env: Env, s: Sys, steps: seq<Step>, id: string)
    requires Inv(s) && AfterAll(env, s, steps).Some? && Settled(s, id)
    ensures Carrying(AfterAll(env, s, steps).value.table, id) == Carrying(s.table, id)
    ensures Settled(AfterAll(env, s, steps).value, id)
  {
    if |steps| > 0 {
      var front := steps[..|steps| - 1];
      RunLeavesSettled(env, s, front, id);
      RunKeepsInv(env, s, front);
      StepLeavesSettled(env, AfterAll(env, s, front).value, steps[|steps| - 1], id);
    }
  }

  lemma {:induction false} RunLeavesDelivered(env: Env, s: Sys, steps: seq<Step>, id: string)
    requires Inv(s) && AfterAll(env, s, steps).Some? && id in s.delivered
    ensures id in AfterAll(env, s, steps).value.delivered
    ensures AfterAll(env, s, steps).value.delivered[id] == s.delivered[id]
  {
    if |steps| > 0 {
      var front := steps[..|steps| - 1];
      RunLeavesDelivered(env, s, front, id);
      RunKeepsInv(env, s, front);
      StepLeavesDelivered(env, AfterAll(env, s, front).value, steps[|steps| - 1], id);
    }
  }

  // ---------------------------------------------------------------------
  // The theorems
  // ---------------------------------------------------------------------

  /**
   At most one effect through any crash. In every state reachable by enqueues, passes,
   commits, marks, crashes and other writers' appends and imports, the events carrying a
   queued command's id are one contiguous block of its own stream, above the position
   recorded when it was enqueued; the resume check finds the command exactly when that
   block is not empty; and once it is not empty no further run changes it, so it came from
   one committed batch.
   */
  lemma AtMostOneEffect(env: Env, run: seq<Step>, more: seq<Step>, i: nat)
    requires AfterAll(env, INITIAL, run).Some? && AfterAll(env, AfterAll(env, INITIAL, run).value, more).Some?
    requires i < |AfterAll(env, INITIAL, run).value.rows|
    ensures var s := AfterAll(env, INITIAL, run).value;
            var s' := AfterAll(env, s, more).value;
            var qc := s.rows[i].command;
            && OneBlock(s.table, qc)
            && (Applied(s.table, qc.key, qc.id, qc.enqueuedAt) <==> Carrying(s.table, qc.id) != [])
            && (Carrying(s.table, qc.id) != [] ==> Carrying(s'.table, qc.id) == Carrying(s.table, qc.id))
  {
    var s := AfterAll(env, INITIAL, run).value;
    var qc := s.rows[i].command;
    RunKeepsInv(env, INITIAL, run);
    assert OneBlock(s.table, qc);
    AppliedIsCarrying(s.table, qc);
    if Carrying(s.table, qc.id) != [] {
      assert qc.id in Ids(s.rows);
      RunLeavesSettled(env, s, more, qc.id);
    }
  }

  /**
   Truthful outcomes. A waiter gets at most one outcome, and what it got is never replaced;
   a success that carries events is exactly the command's durable block, then and ever after.
   */
  lemma OutcomesAreTruthful(env: Env, run: seq<Step>, more: seq<Step>, id: string)
    requires AfterAll(env, INITIAL, run).Some? && AfterAll(env, AfterAll(env, INITIAL, run).value, more).Some?
    requires id in AfterAll(env, INITIAL, run).value.delivered
    ensures var s := AfterAll(env, INITIAL, run).value;
            var s' := AfterAll(env, s, more).value;
            && id !in s.waiters && id !in s'.waiters
            && id in s'.delivered && s'.delivered[id] == s.delivered[id]
            && (s.delivered[id].Success? && s.delivered[id].value != [] ==>
                  s.delivered[id].value == Carrying(s.table, id) == Carrying(s'.table, id))
  {
    var s := AfterAll(env, INITIAL, run).value;
    RunKeepsInv(env, INITIAL, run);
    RunKeepsInv(env, s, more);
    RunLeavesDelivered(env, s, more, id);
  }

  /**
   A refusal is final when its mark lands: the command is never decided again, so no run
   from there ever gives it an event.
   */
  lemma MarkedRefusalHasNoEffect(env: Env, s: Sys, more: seq<Step>)
    requires Inv(s) && s.phase.Refusing?
    requires AfterAll(env, After(env, s, MarkRefused(false)), more).Some?
    ensures Carrying(AfterAll(env, After(env, s, MarkRefused(false)), more).value.table, s.phase.id) == []
  {
    var id := s.phase.id;
    var s' := After(env, s, MarkRefused(false));
    MarkRefusedKeepsInv(env, s, false);
    var i :| 0 <= i < |s.rows| && s.rows[i].command.id == id;
    assert s'.rows[i].command.id == id && s'.rows[i].done;
    StepKeepsIds(env, s, MarkRefused(false));
    RunLeavesSettled(env, s', more, id);
  }

  /** So is a success without events, once the batch's marks land. */
  lemma MarkedEmptySuccessHasNoEffect(env: Env, s: Sys, more: seq<Step>, k: nat)
    requires Inv(s) && Enabled(s, MarkBatch(false)) && k < |s.phase.results| && s.phase.results[k].events == []
    requires AfterAll(env, After(env, s, MarkBatch(false)), more).Some?
    ensures Carrying(AfterAll(env, After(env, s, MarkBatch(false)), more).value.table,
                     s.phase.results[k].commandId) == []
  {
    var id := s.phase.results[k].commandId;
    var s' := After(env, s, MarkBatch(false));
    MarkBatchKeepsInv(env, s, false);
    var i :| 0 <= i < |s.rows| && s.rows[i].command.id == id;
    assert id in ResultIds(s.phase.results);
    assert s'.rows[i].command.id == id && s'.rows[i].done;
    StepKeepsIds(env, s, MarkBatch(false));
    RunLeavesSettled(env, s', more, id);
  }
}
