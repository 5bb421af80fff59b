/**
 The batching protocol as a machine over two stores (the event table and the command
 queue) and the writer's volatile state (its waiters and the pass in progress). Every
 durable write is one step, a crash may fall between any two, and other writers append or
 import between any two as well.
 */
module BatchProtocol {
  import opened Wrappers
  import opened EventLog
  import opened LogInvariant
  import opened EventStore
  import opened Deciding
  import opened BatchWindow
  import opened CommandQueue

  /** Where the single writer's pass stands; all of it is lost in a crash. */
  datatype Phase =
    | Idle
    | Checking(todo: seq<QueuedCommand>, kept: seq<QueuedCommand>)
    | Deciding(todo: seq<QueuedCommand>, staged: Staged, batch: seq<DecidedCommand>)
    | Refusing(id: string, todo: seq<QueuedCommand>, staged: Staged, batch: seq<DecidedCommand>)
    | Reporting(results: seq<BatchResult>, next: nat)

  /**
   registered and delivered are history: the commands a waiter was ever registered for, and
   what was put into each waiter's channel.
   */
  datatype Sys = Sys(
    table: seq<Event>,
    rows: seq<QueueRow>,
    waiters: set<string>,
    phase: Phase,
    registered: set<string>,
    delivered: map<string, Outcome>
  )

  /** GiveUp is a pass ended early by a read that failed: unlike a crash it keeps the waiters. */
  datatype Step =
    | Enqueue(qc: QueuedCommand)
    | Register(id: string)
    | Begin(limit: int)
    | Check(lost: bool)
    | StartDeciding
    | DecideNext(reg: Deciders, u: Option<Upcaster>)
    | MarkRefused(lost: bool)
    | Commit(fault: bool)
    | Report
    | MarkBatch(lost: bool)
    | GiveUp
    | Crash
    | Foreign(w: Write)

  const INITIAL := Sys([], [], {}, Idle, {}, map[])

  /** signal: the waiter, if there still is one, gets the outcome and is taken off. */
  function Signal(s: Sys, id: string, outcome: Outcome): Sys {
    if id in s.waiters then s.(waiters := s.waiters - {id}, delivered := s.delivered[id := outcome]) else s
  }

  function Mark(s: Sys, ids: set<string>, lost: bool): Sys {
    if lost then s else s.(rows := Marked(s.rows, ids))
  }

  function ResultsOf(env: Env, log: seq<Event>, batch: seq<DecidedCommand>): (results: seq<BatchResult>)
    ensures |results| == |batch|
  {
    seq(|batch|, k requires 0 <= k < |batch| => Landed(env, log, batch, k))
  }

  function ResultIds(results: seq<BatchResult>): set<string> {
    set k | 0 <= k < |results| :: results[k].commandId
  }

  /** Another writer's events carry no queued command's id. */
  predicate ForeignTo(w: Write, ids: set<string>) {
    match w
    case WriteAppend(_, _, evts, _) =>
      forall i :: 0 <= i < |evts| && COMMAND_ID in evts[i].metadata ==> evts[i].metadata[COMMAND_ID] !in ids
    case WriteImport(rows, _) =>
      forall i :: 0 <= i < |rows| && COMMAND_ID in rows[i].metadata ==> rows[i].metadata[COMMAND_ID] !in ids
    case WriteBatch(_, _) => false
  }

  predicate Enabled(s: Sys, step: Step) {
    match step
    case Enqueue(qc) => qc.id !in Ids(s.rows) && Carrying(s.table, qc.id) == [] && qc.enqueuedAt <= MaxPosition(s.table)
    case Register(id) => id in Ids(s.rows) && id !in s.registered
    case Begin(_) => s.phase.Idle?
    case Check(_) => s.phase.Checking? && |s.phase.todo| > 0
    case StartDeciding => s.phase.Checking? && |s.phase.todo| == 0
    case DecideNext(_, _) => s.phase.Deciding? && |s.phase.todo| > 0
    case MarkRefused(_) => s.phase.Refusing?
    case Commit(_) => s.phase.Deciding? && |s.phase.todo| == 0
    case Report => s.phase.Reporting? && s.phase.next < |s.phase.results|
    case MarkBatch(_) => s.phase.Reporting? && s.phase.next >= |s.phase.results|
    case GiveUp => true
    case Crash => true
    case Foreign(w) => ForeignTo(w, Ids(s.rows))
  }

  function After(env: Env, s: Sys, step: Step): Sys
    requires Enabled(s, step)
  {
    match step
    case Enqueue(qc) => s.(rows := s.rows + [QueueRow(qc, false)])
    case Register(id) => s.(waiters := s.waiters + {id}, registered := s.registered + {id})
    case Begin(limit) => s.(phase := Checking(PendingCommands(s.rows, limit), []))
    case Check(lost) =>
      var qc := s.phase.todo[0];
      if Applied(s.table, qc.key, qc.id, qc.enqueuedAt)
      then Mark(s, {qc.id}, lost).(phase := Checking(s.phase.todo[1..], s.phase.kept))
      else s.(phase := Checking(s.phase.todo[1..], s.phase.kept + [qc]))
    case StartDeciding => s.(phase := Deciding(s.phase.kept, map[], []))
    case DecideNext(reg, u) => AfterDecide(s, reg, u)
    case MarkRefused(lost) =>
      Mark(s, {s.phase.id}, lost).(phase := Deciding(s.phase.todo, s.phase.staged, s.phase.batch))
    case Commit(fault) =>
      var batch := s.phase.batch;
      if |batch| == 0 || BatchCarriesMarker(batch) || !AllFit(s.table, batch) || fault then s.(phase := Idle)
      else s.(table := InsertBatch(env, s.table, batch), phase := Reporting(ResultsOf(env, s.table, batch), 0))
    case Report =>
      var r := s.phase.results[s.phase.next];
      Signal(s, r.commandId, Success(r.events)).(phase := Reporting(s.phase.results, s.phase.next + 1))
    case MarkBatch(lost) => Mark(s, ResultIds(s.phase.results), lost).(phase := Idle)
    case GiveUp => s.(phase := Idle)
    case Crash => s.(waiters := {}, phase := Idle)
    case Foreign(w) => s.(table := AfterWrite(env, s.table, w))
  }

  /** One command decided through the overlay: staged for the batch, or refused and signalled. */
  function AfterDecide(s: Sys, reg: Deciders, u: Option<Upcaster>): Sys
    requires s.phase.Deciding? && |s.phase.todo| > 0
  {
    var qc, rest := s.phase.todo[0], s.phase.todo[1..];
    var decision := DecideQueued(reg, OverlayLoad(s.table, u, s.phase.staged, qc.key), qc);
    if decision.Failure? then
      Signal(s, qc.id, Failure(decision.error)).(phase := Refusing(qc.id, rest, s.phase.staged, s.phase.batch))
    else
      var d := decision.value;
      s.(phase := Deciding(rest, Recorded(s.phase.staged, qc.key, d.newEvents, d.expected),
                           s.phase.batch + [DecidedCommand(qc.id, qc.key, d.expected, d.newEvents)]))
  }

  /** Where a list of steps leads; None when one of them was not enabled. */
  function AfterAll(env: Env, s: Sys, steps: seq<Step>): Option<Sys> {
    if |steps| == 0 then Some(s)
    else
      var before := AfterAll(env, s, steps[..|steps| - 1]);
      if before.None? || !Enabled(before.value, steps[|steps| - 1]) then None
      else Some(After(env, before.value, steps[|steps| - 1]))
  }

  lemma OneStepMore(env: Env, s: Sys, steps: seq<Step>, step: Step)
    requires AfterAll(env, s, steps).Some? && Enabled(AfterAll(env, s, steps).value, step)
    ensures AfterAll(env, s, steps + [step]) == Some(After(env, AfterAll(env, s, steps).value, step))
  {
    assert (steps + [step])[..|steps + [step]| - 1] == steps;
  }

  lemma {:induction false} RunsCompose(env: Env, s: Sys, xs: seq<Step>, ys: seq<Step>)
    requires AfterAll(env, s, xs).Some? && AfterAll(env, AfterAll(env, s, xs).value, ys).Some?
    ensures AfterAll(env, s, xs + ys) == AfterAll(env, AfterAll(env, s, xs).value, ys)
  {
    if |ys| == 0 {
      assert xs + ys == xs;
    } else {
      assert (xs + ys)[..|xs + ys| - 1] == xs + ys[..|ys| - 1];
      RunsCompose(env, s, xs, ys[..|ys| - 1]);
    }
  }

  /** A run that starts with a step is that step and the run from where it leads. */
  lemma StepFirst(env: Env, s: Sys, step: Step, more: seq<Step>)
    requires Enabled(s, step) && AfterAll(env, After(env, s, step), more).Some?
    ensures AfterAll(env, s, [step] + more) == AfterAll(env, After(env, s, step), more)
  {
    assert [] + [step] == [step];
    OneStepMore(env, s, [], step);
    hide After, Enabled;
    RunsCompose(env, s, [step], more);
  }

  // ---------------------------------------------------------------------
  // The invariant
  // ---------------------------------------------------------------------

  /** The rows carrying a command's id are exactly log[from..to], in its stream, above its mark. */
  predicate BlockAt(log: seq<Event>, qc: QueuedCommand, from: nat, to: nat) {
    && from <= to <= |log|
    && (forall k :: 0 <= k < |log| ==> (CommandIdOf(log[k]) == Some(qc.id) <==> from <= k < to))
    && (forall k :: from <= k < to ==> Key(log[k]) == qc.key && log[k].position > qc.enqueuedAt)
  }

  ghost predicate OneBlock(log: seq<Event>, qc: QueuedCommand) {
    exists from: nat, to: nat :: BlockAt(log, qc, from, to)
  }

  /** An undone queue row holds this command, and no event carries its id. */
  predicate Awaiting(rows: seq<QueueRow>, table: seq<Event>, id: string, key: StreamKey) {
    && (exists i :: 0 <= i < |rows| && rows[i].command.id == id && rows[i].command.key == key)
    && (forall i :: 0 <= i < |rows| && rows[i].command.id == id ==> !rows[i].done)
    && Carrying(table, id) == []
  }

  predicate PendingRow(rows: seq<QueueRow>, qc: QueuedCommand) {
    exists i :: 0 <= i < |rows| && rows[i] == QueueRow(qc, false)
  }

  predicate DistinctCommands(cmds: seq<QueuedCommand>) {
    forall i, j :: 0 <= i < j < |cmds| ==> cmds[i].id != cmds[j].id
  }

  predicate DistinctEntries(batch: seq<DecidedCommand>) {
    forall i, j :: 0 <= i < j < |batch| ==> batch[i].commandId != batch[j].commandId
  }

  predicate Apart(todo: seq<QueuedCommand>, batch: seq<DecidedCommand>) {
    && DistinctCommands(todo) && DistinctEntries(batch)
    && forall i, k :: 0 <= i < |todo| && 0 <= k < |batch| ==> todo[i].id != batch[k].commandId
  }

  predicate CommandsWait(rows: seq<QueueRow>, table: seq<Event>, todo: seq<QueuedCommand>) {
    forall i :: 0 <= i < |todo| ==> PendingRow(rows, todo[i]) && Awaiting(rows, table, todo[i].id, todo[i].key)
  }

  predicate EntriesWait(rows: seq<QueueRow>, table: seq<Event>, batch: seq<DecidedCommand>) {
    forall k :: 0 <= k < |batch| ==> Awaiting(rows, table, batch[k].commandId, batch[k].key)
  }

  predicate WindowOk(rows: seq<QueueRow>, table: seq<Event>, todo: seq<QueuedCommand>, batch: seq<DecidedCommand>) {
    Apart(todo, batch) && CommandsWait(rows, table, todo) && EntriesWait(rows, table, batch)
  }

  predicate PhaseOk(rows: seq<QueueRow>, table: seq<Event>, phase: Phase) {
    match phase
    case Idle => true
    case Checking(todo, kept) =>
      && DistinctCommands(kept + todo)
      && (forall i :: 0 <= i < |todo| ==> PendingRow(rows, todo[i]))
      && CommandsWait(rows, table, kept)
    case Deciding(todo, _, batch) => WindowOk(rows, table, todo, batch)
    case Refusing(id, todo, _, batch) =>
      && WindowOk(rows, table, todo, batch)
      && id in Ids(rows) && Carrying(table, id) == []
      && (forall i :: 0 <= i < |todo| ==> todo[i].id != id)
      && (forall k :: 0 <= k < |batch| ==> batch[k].commandId != id)
    case Reporting(results, _) =>
      forall k :: 0 <= k < |results| ==>
        results[k].commandId in Ids(rows) && Carrying(table, results[k].commandId) == results[k].events
  }

  /** Waiters are registered once; a delivered success that has events is exactly those events. */
  predicate DeliveryOk(s: Sys) {
    && s.waiters <= s.registered && s.delivered.Keys <= s.registered && s.registered <= Ids(s.rows)
    && s.waiters !! s.delivered.Keys
    && forall id :: id in s.delivered && s.delivered[id].Success? && s.delivered[id].value != [] ==>
         s.delivered[id].value == Carrying(s.table, id)
  }

  ghost predicate QueueOk(rows: seq<QueueRow>, table: seq<Event>) {
    && DistinctIds(rows)
    && forall i :: 0 <= i < |rows| ==>
         rows[i].command.enqueuedAt <= MaxPosition(table) && OneBlock(table, rows[i].command)
  }

  ghost predicate Inv(s: Sys) {
    Increasing(s.table) && QueueOk(s.rows, s.table) && PhaseOk(s.rows, s.table, s.phase) && DeliveryOk(s)
  }

  // ---------------------------------------------------------------------
  // Carrying rows
  // ---------------------------------------------------------------------

  lemma {:induction false} CarryingConcat(log: seq<Event>, rows: seq<Event>, id: string)
    ensures Carrying(log + rows, id) == Carrying(log, id) + Carrying(rows, id)
  {
    if |rows| == 0 {
      assert log + rows == log;
    } else {
      assert (log + rows)[..|log + rows| - 1] == log + rows[..|rows| - 1];
      CarryingConcat(log, rows[..|rows| - 1], id);
    }
  }

  lemma {:induction false} CarryingNone(rows: seq<Event>, id: string)
    ensures Carrying(rows, id) == [] <==> forall k :: 0 <= k < |rows| ==> CommandIdOf(rows[k]) != Some(id)
  {
    if |rows| > 0 {
      CarryingNone(rows[..|rows| - 1], id);
    }
  }

  lemma {:induction false} CarryingAll(rows: seq<Event>, id: string)
    requires forall k :: 0 <= k < |rows| ==> CommandIdOf(rows[k]) == Some(id)
    ensures Carrying(rows, id) == rows
  {
    if |rows| > 0 {
      CarryingAll(rows[..|rows| - 1], id);
      assert rows == rows[..|rows| - 1] + [rows[|rows| - 1]];
    }
  }

  lemma CarryingOfBlock(log: seq<Event>, qc: QueuedCommand, from: nat, to: nat)
    requires BlockAt(log, qc, from, to)
    ensures Carrying(log, qc.id) == log[from..to]
  {
    assert log == log[..from] + (log[from..to] + log[to..]);
    CarryingConcat(log[..from], log[from..to] + log[to..], qc.id);
    CarryingConcat(log[from..to], log[to..], qc.id);
    CarryingNone(log[..from], qc.id);
    CarryingNone(log[to..], qc.id);
    CarryingAll(log[from..to], qc.id);
  }

  /** For a queued command, the resume check is exactly "some event carries the id". */
  lemma AppliedIsCarrying(log: seq<Event>, qc: QueuedCommand)
    requires OneBlock(log, qc)
    ensures Applied(log, qc.key, qc.id, qc.enqueuedAt) <==> Carrying(log, qc.id) != []
  {
    var from: nat, to: nat :| BlockAt(log, qc, from, to);
    CarryingOfBlock(log, qc, from, to);
    if from < to {
      assert Key(log[from]) == qc.key && log[from].position > qc.enqueuedAt && CommandIdOf(log[from]) == Some(qc.id);
    }
  }

  lemma NoBlockYet(log: seq<Event>, qc: QueuedCommand)
    requires Carrying(log, qc.id) == []
    ensures BlockAt(log, qc, 0, 0)
  {
    CarryingNone(log, qc.id);
  }

  /** Rows that do not carry the id leave its block where it is. */
  lemma BlockStays(log: seq<Event>, rows: seq<Event>, qc: QueuedCommand)
    requires OneBlock(log, qc) && Carrying(rows, qc.id) == []
    ensures OneBlock(log + rows, qc) && Carrying(log + rows, qc.id) == Carrying(log, qc.id)
  {
    var from: nat, to: nat :| BlockAt(log, qc, from, to);
    CarryingNone(rows, qc.id);
    CarryingConcat(log, rows, qc.id);
    assert BlockAt(log + rows, qc, from, to);
  }

  // ---------------------------------------------------------------------
  // What a committed batch carries
  // ---------------------------------------------------------------------

  lemma BlockRowsCarry(env: Env, log: seq<Event>, dc: DecidedCommand, id: string)
    ensures Carrying(BlockRows(env, log, dc), id) == if dc.commandId == id then BlockRows(env, log, dc) else []
  {
    var rows := BlockRows(env, log, dc);
    forall k | 0 <= k < |rows|
      ensures CommandIdOf(rows[k]) == Some(dc.commandId)
    {
      assert rows[k].metadata == dc.newEvents[k].metadata[COMMAND_ID := dc.commandId];
    }
    if dc.commandId == id {
      CarryingAll(rows, id);
    } else {
      CarryingNone(rows, id);
    }
  }

  lemma {:induction false} BatchPositions(env: Env, log: seq<Event>, batch: seq<DecidedCommand>)
    requires Increasing(log)
    ensures var after := InsertBatch(env, log, batch);
            && log <= after && Increasing(after) && MaxPosition(log) <= MaxPosition(after)
            && forall k :: |log| <= k < |after| ==> after[k].position > MaxPosition(log)
  {
    if |batch| > 0 {
      var front := batch[..|batch| - 1];
      BatchPositions(env, log, front);
      var before := InsertBatch(env, log, front);
      var rows := BlockRows(env, before, batch[|batch| - 1]);
      IncreasingConcat(before, rows);
      var after := before + rows;
      assert InsertBatch(env, log, batch) == after;
      forall k | |log| <= k < |after|
        ensures after[k].position > MaxPosition(log)
      {
        assert k >= |before| ==> after[k] == rows[k - |before|];
      }
      hide InsertBatch, BlockRows, Increasing;
    }
  }

  lemma {:induction false} BatchCarriesNot(env: Env, log: seq<Event>, batch: seq<DecidedCommand>, id: string)
    requires forall k :: 0 <= k < |batch| ==> batch[k].commandId != id
    ensures Carrying(InsertBatch(env, log, batch), id) == Carrying(log, id)
  {
    if |batch| > 0 {
      var front := batch[..|batch| - 1];
      BatchCarriesNot(env, log, front, id);
      var before := InsertBatch(env, log, front);
      CarryingConcat(before, BlockRows(env, before, batch[|batch| - 1]), id);
      BlockRowsCarry(env, before, batch[|batch| - 1], id);
    }
  }

  /** Entry k's events are one block, right after everything the entries before it inserted. */
  lemma {:induction false} BatchBlock(env: Env, log: seq<Event>, batch: seq<DecidedCommand>, k: nat, qc: QueuedCommand)
    requires Increasing(log) && k < |batch| && DistinctEntries(batch)
    requires batch[k].commandId == qc.id && batch[k].key == qc.key
    requires Carrying(log, qc.id) == [] && qc.enqueuedAt <= MaxPosition(log)
    ensures OneBlock(InsertBatch(env, log, batch), qc)
    ensures Carrying(InsertBatch(env, log, batch), qc.id) == Landed(env, log, batch, k).events
  {
    var n := |batch| - 1;
    var front := batch[..n];
    if k < n {
      BatchBlock(env, log, front, k, qc);
      LandedPrefix(env, log, front, batch, k);
      var before := InsertBatch(env, log, front);
      var rows := BlockRows(env, before, batch[n]);
      BlockRowsCarry(env, before, batch[n], qc.id);
      assert InsertBatch(env, log, batch) == before + rows;
      hide *;
      BlockStays(before, rows, qc);
    } else {
      LastEntryBlock(env, log, batch, qc);
    }
  }

  lemma LastEntryBlock(env: Env, log: seq<Event>, batch: seq<DecidedCommand>, qc: QueuedCommand)
    requires Increasing(log) && |batch| > 0 && DistinctEntries(batch)
    requires batch[|batch| - 1].commandId == qc.id && batch[|batch| - 1].key == qc.key
    requires Carrying(log, qc.id) == [] && qc.enqueuedAt <= MaxPosition(log)
    ensures OneBlock(InsertBatch(env, log, batch), qc)
    ensures Carrying(InsertBatch(env, log, batch), qc.id) == Landed(env, log, batch, |batch| - 1).events
  {
    var n := |batch| - 1;
    var front, dc := batch[..n], batch[n];
    var before := InsertBatch(env, log, front);
    var rows := BlockRows(env, before, dc);
    assert InsertBatch(env, log, batch) == before + rows && Landed(env, log, batch, n).events == rows;
    BlockRowsCarry(env, before, dc, qc.id);
    BatchCarriesNot(env, log, front, qc.id);
    BatchPositions(env, log, front);
    BlockPlaced(env, before, dc, MaxPosition(log));
    hide *;
    CarryingConcat(before, rows, qc.id);
    LastBlock(before, rows, qc, MaxPosition(log));
  }

  lemma BlockPlaced(env: Env, before: seq<Event>, dc: DecidedCommand, mark: nat)
    requires mark <= MaxPosition(before)
    ensures forall k :: 0 <= k < |BlockRows(env, before, dc)| ==>
              Key(BlockRows(env, before, dc)[k]) == dc.key && BlockRows(env, before, dc)[k].position > mark
  {
  }

  lemma LastBlock(before: seq<Event>, rows: seq<Event>, qc: QueuedCommand, mark: nat)
    requires Carrying(before, qc.id) == [] && Carrying(rows, qc.id) == rows
    requires qc.enqueuedAt <= mark
    requires forall k :: 0 <= k < |rows| ==> Key(rows[k]) == qc.key && rows[k].position > mark
    ensures OneBlock(before + rows, qc)
  {
    CarryingNone(before, qc.id);
    CarryingOnlySelf(rows, qc.id);
    assert BlockAt(before + rows, qc, |before|, |before| + |rows|);
  }

  lemma {:induction false} CarryingOnlySelf(rows: seq<Event>, id: string)
    requires Carrying(rows, id) == rows
    ensures forall k :: 0 <= k < |rows| ==> CommandIdOf(rows[k]) == Some(id)
  {
    if |rows| > 0 {
      var front, last := rows[..|rows| - 1], rows[|rows| - 1];
      CarryingShorter(front, id);
      assert Carrying(front, id) == front;
      CarryingOnlySelf(front, id);
    }
  }

  lemma {:induction false} CarryingShorter(rows: seq<Event>, id: string)
    ensures |Carrying(rows, id)| <= |rows|
  {
    if |rows| > 0 {
      CarryingShorter(rows[..|rows| - 1], id);
    }
  }
}
