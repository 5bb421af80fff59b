/**
 What a pass of the batching writer reports, marks and tells, counted and case by case: when
 it fails, how many commands it says it has processed, which rows it marks done and what
 each waiting caller is sent.
 */
module BatchOutcome {
  import opened Wrappers
  import opened EventLog
  import opened EventStore
  import opened Deciding
  import opened BatchWindow
  import opened CommandQueue
  import opened BatchReplay
  import opened BatchProtocol
  import opened BatchSafety
  import opened BatchWriter
  import opened BatchPass

  // ---------------------------------------------------------------------
  // The window
  // ---------------------------------------------------------------------

  function UndoneAt(rows: seq<QueueRow>): set<nat> {
    set i: nat | i < |rows| && !rows[i].done
  }

  /** at lists, oldest first, the rows of the window: undone, none passed over, at most cap of them. */
  predicate Oldest(rows: seq<QueueRow>, window: seq<QueuedCommand>, at: seq<nat>, cap: nat) {
    && |at| == |window|
    && (forall k :: 0 <= k < |at| ==> at[k] < |rows| && !rows[at[k]].done && rows[at[k]].command == window[k])
    && (forall k, l :: 0 <= k < l < |at| ==> at[k] < at[l])
    && |window| <= cap
    && forall i :: 0 <= i < |rows| && !rows[i].done ==>
         i in at || (|at| == cap && forall k :: 0 <= k < |at| ==> at[k] < i)
  }

  /** The undone rows, all of them, in order. */
  predicate Undone(rows: seq<QueueRow>, cmds: seq<QueuedCommand>, at: seq<nat>) {
    && |at| == |cmds|
    && (forall k :: 0 <= k < |at| ==> at[k] < |rows| && !rows[at[k]].done && rows[at[k]].command == cmds[k])
    && (forall k, l :: 0 <= k < l < |at| ==> at[k] < at[l])
    && forall i :: 0 <= i < |rows| && !rows[i].done ==> i in at
  }

  lemma {:induction false} PendingUndone(rows: seq<QueueRow>) returns (at: seq<nat>)
    ensures Undone(rows, PendingOf(rows), at)
  {
    at := [];
    if |rows| > 0 {
      var n := |rows| - 1;
      at := PendingUndone(rows[..n]);
      UndoneMore(rows, PendingOf(rows[..n]), at);
      at := if rows[n].done then at else at + [n];
      hide Undone;
    }
  }

  lemma UndoneMore(rows: seq<QueueRow>, cmds: seq<QueuedCommand>, at: seq<nat>)
    requires |rows| > 0 && Undone(rows[..|rows| - 1], cmds, at)
    ensures var n := |rows| - 1;
            if rows[n].done then Undone(rows, cmds, at) else Undone(rows, cmds + [rows[n].command], at + [n])
  {
    var n := |rows| - 1;
    assert (at + [n])[|at|] == n;
    forall i | 0 <= i < n && !rows[i].done
      ensures i in at && i in at + [n]
    {
      assert rows[..n][i] == rows[i];
    }
  }

  /** Depth: how many rows are not yet done. */
  lemma {:induction false} DepthHolds(rows: seq<QueueRow>)
    ensures |PendingOf(rows)| == |UndoneAt(rows)|
  {
    if |rows| > 0 {
      var n := |rows| - 1;
      DepthHolds(rows[..n]);
      assert UndoneAt(rows) == UndoneAt(rows[..n]) + if rows[n].done then {} else {n};
    } else {
      assert UndoneAt(rows) == {};
    }
  }

  lemma InFront(at: seq<nat>, n: nat, i: nat)
    requires n <= |at| && (forall k, l :: 0 <= k < l < |at| ==> at[k] < at[l])
    requires i in at && i !in at[..n]
    ensures forall k :: 0 <= k < n ==> at[k] < i
  {
    var l :| 0 <= l < |at| && at[l] == i;
    forall m | 0 <= m < n
      ensures at[m] != i
    {
      assert at[..n][m] == at[m];
    }
  }

  /** PendingCommands: the oldest rows not yet done, in arrival order, a limit below 1 standing for 100. */
  lemma PendingHolds(rows: seq<QueueRow>, limit: int) returns (at: seq<nat>)
    ensures Oldest(rows, PendingCommands(rows, limit), at, if limit < 1 then 100 else limit)
  {
    var cap := if limit < 1 then 100 else limit;
    at := PendingUndone(rows);
    if |at| > cap {
      var all := at;
      at := all[..cap];
      forall i | 0 <= i < |rows| && !rows[i].done && i !in at
        ensures forall k :: 0 <= k < |at| ==> at[k] < i
      {
        InFront(all, cap, i);
      }
    }
  }

  // ---------------------------------------------------------------------
  // When a pass fails
  // ---------------------------------------------------------------------

  ghost predicate SomeImported(batch: seq<DecidedCommand>) {
    exists k, j :: 0 <= k < |batch| && 0 <= j < |batch[k].newEvents| && "imported" in batch[k].newEvents[j].metadata
  }

  /**
   A pass fails exactly when the queue cannot be read, a resume check of its window cannot, or
   the batch it decided is refused: for an event that carries the import marker, or, where
   every entry fits its stream, by the database.
   */
  lemma PassFailsIff(env: Env, reg: Deciders, u: Option<Upcaster>, maxBatch: int, table: seq<Event>,
                     rows: seq<QueueRow>, mail: Mail, io: Io)
    ensures var window := PendingCommands(rows, maxBatch);
            var batch := WindowOf(reg, u, table, WindowTodo(table, rows, maxBatch)).batch;
            PassOf(env, reg, u, maxBatch, table, rows, mail, io).failed <==>
            || io.unreadable || (io.failedCheck.Some? && io.failedCheck.value < |window|)
            || SomeImported(batch) || (batch != [] && AllFit(table, batch) && io.commitFault)
  {
    hide WindowOf, WindowTodo, AppliedIds, RefusedIds, Marked, PendingCommands, EntryIds, RefusedMail, CommittedMail;
    hide AllFit;
  }

  /** The log changes exactly when the pass lands its batch, and then by that batch alone. */
  lemma PassWritesIff(env: Env, reg: Deciders, u: Option<Upcaster>, maxBatch: int, table: seq<Event>,
                      rows: seq<QueueRow>, mail: Mail, io: Io)
    ensures var batch := WindowOf(reg, u, table, WindowTodo(table, rows, maxBatch)).batch;
            var pass := PassOf(env, reg, u, maxBatch, table, rows, mail, io);
            if io.unreadable || (io.failedCheck.Some? && io.failedCheck.value < |PendingCommands(rows, maxBatch)|)
               || SomeImported(batch) || !AllFit(table, batch) || io.commitFault
            then pass.table == table
            else pass.table == InsertBatch(env, table, batch)
  {
    hide WindowOf, WindowTodo, AppliedIds, RefusedIds, Marked, PendingCommands, EntryIds, RefusedMail, CommittedMail;
    hide AllFit;
  }

  // ---------------------------------------------------------------------
  // What it marks
  // ---------------------------------------------------------------------

  predicate MarkedFor(before: QueueRow, after: QueueRow, settled: bool) {
    after.command == before.command && (after.done <==> before.done || settled)
  }

  /** MarkDone: every row whose id is named is done, and no other row changes. */
  lemma MarkedHolds(rows: seq<QueueRow>, ids: set<string>, i: nat)
    requires i < |rows|
    ensures |Marked(rows, ids)| == |rows| && MarkedFor(rows[i], Marked(rows, ids)[i], rows[i].command.id in ids)
  {
  }

  lemma {:induction false} AppliedIdsHold(table: seq<Event>, cmds: seq<QueuedCommand>, id: string)
    ensures id in AppliedIds(table, cmds) <==>
            exists i :: 0 <= i < |cmds| && cmds[i].id == id
                        && Applied(table, cmds[i].key, cmds[i].id, cmds[i].enqueuedAt)
  {
    hide Applied;
    if |cmds| > 0 {
      var n := |cmds| - 1;
      AppliedIdsHold(table, cmds[..n], id);
      assert forall i :: 0 <= i < n ==> cmds[..n][i] == cmds[i];
    }
  }

  lemma {:induction false} RefusedIdsHold(cmds: seq<QueuedCommand>, verdicts: seq<Verdict>, id: string)
    requires |cmds| == |verdicts|
    ensures id in RefusedIds(cmds, verdicts) <==>
            exists i :: 0 <= i < |cmds| && cmds[i].id == id && verdicts[i].Rejected?
  {
    if |cmds| > 0 {
      var n := |cmds| - 1;
      RefusedIdsHold(cmds[..n], verdicts[..n], id);
      assert forall i :: 0 <= i < n ==> cmds[..n][i] == cmds[i] && verdicts[..n][i] == verdicts[i];
    }
  }

  ghost predicate AppliedAmong(table: seq<Event>, cmds: seq<QueuedCommand>, id: string) {
    exists i :: 0 <= i < |cmds| && cmds[i].id == id && Applied(table, cmds[i].key, cmds[i].id, cmds[i].enqueuedAt)
  }

  ghost predicate RefusedAmong(cmds: seq<QueuedCommand>, w: Window, id: string)
    requires |cmds| == |w.verdicts|
  {
    exists i :: 0 <= i < |cmds| && cmds[i].id == id && w.verdicts[i].Rejected?
  }

  ghost predicate EntryAmong(batch: seq<DecidedCommand>, id: string) {
    exists k :: 0 <= k < |batch| && batch[k].commandId == id
  }

  /**
   Which rows a pass marks done: the commands of its window that are already in the log and
   those it refused, each unless that mark is lost, and those it committed unless the batch's
   mark is; a pass cut short marks only the applied ones it had come to.
   */
  lemma PassMarksIff(env: Env, reg: Deciders, u: Option<Upcaster>, maxBatch: int, table: seq<Event>,
                     rows: seq<QueueRow>, mail: Mail, io: Io, i: nat)
    requires i < |rows|
    ensures var window, todo := PendingCommands(rows, maxBatch), WindowTodo(table, rows, maxBatch);
            var w, id := WindowOf(reg, u, table, todo), rows[i].command.id;
            var pass := PassOf(env, reg, u, maxBatch, table, rows, mail, io);
            && |pass.rows| == |rows|
            && MarkedFor(rows[i], pass.rows[i],
                 if io.unreadable then false
                 else if io.failedCheck.Some? && io.failedCheck.value < |window| then
                   AppliedAmong(table, window[..io.failedCheck.value], id) && id !in io.lostMarks
                 else
                   || ((AppliedAmong(table, window, id) || RefusedAmong(todo, w, id)) && id !in io.lostMarks)
                   || (Commits(table, w.batch, io) && EntryAmong(w.batch, id) && !io.lostBatchMark))
  {
    var window, todo := PendingCommands(rows, maxBatch), WindowTodo(table, rows, maxBatch);
    var w, id := WindowOf(reg, u, table, todo), rows[i].command.id;
    AppliedIdsHold(table, window, id);
    AppliedIdsHold(table, window[..io.Checks(window)], id);
    RefusedIdsHold(todo, w.verdicts, id);
    assert id in EntryIds(w.batch) <==> EntryAmong(w.batch, id);
    var gone := PassMarksOnly(env, reg, u, maxBatch, table, rows, mail, io);
    MarkedHolds(rows, gone, i);
    hide *;
  }

  /** The ids a pass marks done. */
  lemma PassMarksOnly(env: Env, reg: Deciders, u: Option<Upcaster>, maxBatch: int, table: seq<Event>,
                      rows: seq<QueueRow>, mail: Mail, io: Io) returns (gone: set<string>)
    ensures PassOf(env, reg, u, maxBatch, table, rows, mail, io).rows == Marked(rows, gone)
    ensures var window, todo := PendingCommands(rows, maxBatch), WindowTodo(table, rows, maxBatch);
            var w := WindowOf(reg, u, table, todo);
            gone == if io.unreadable then {}
                    else if io.failedCheck.Some? && io.failedCheck.value < |window| then
                      AppliedIds(table, window[..io.failedCheck.value]) - io.lostMarks
                    else
                      (AppliedIds(table, window) + RefusedIds(todo, w.verdicts) - io.lostMarks)
                      + if Commits(table, w.batch, io) && !io.lostBatchMark then EntryIds(w.batch) else {}
  {
    hide WindowOf, WindowTodo, PendingCommands, RefusedMail, CommittedMail, Commits, AppliedIds, RefusedIds, EntryIds;
    hide Marked, Fails, ResultsOf, InsertBatch, NotApplied;
    var window, todo := PendingCommands(rows, maxBatch), WindowTodo(table, rows, maxBatch);
    var w := WindowOf(reg, u, table, todo);
    MarkedAgain(rows, {}, {});
    gone := if io.unreadable then {}
            else if io.failedCheck.Some? && io.failedCheck.value < |window| then
              AppliedIds(table, window[..io.failedCheck.value]) - io.lostMarks
            else
              (AppliedIds(table, window) + RefusedIds(todo, w.verdicts) - io.lostMarks)
              + if Commits(table, w.batch, io) && !io.lostBatchMark then EntryIds(w.batch) else {};
    assert AppliedIds(table, window) + RefusedIds(todo, w.verdicts) - io.lostMarks
           == (AppliedIds(table, window) - io.lostMarks) + (RefusedIds(todo, w.verdicts) - io.lostMarks);
    var settled := (AppliedIds(table, window) - io.lostMarks) + (RefusedIds(todo, w.verdicts) - io.lostMarks);
    assert settled + {} == settled;
  }

  // ---------------------------------------------------------------------
  // What it counts
  // ---------------------------------------------------------------------

  lemma {:induction false} WithoutCounts(cmds: seq<QueuedCommand>, gone: set<string>)
    requires DistinctCommands(cmds)
    ensures |cmds| - |Without(cmds, gone)| == |gone * IdsOf(cmds)|
  {
    if |cmds| > 0 {
      var front, id := cmds[..|cmds| - 1], cmds[|cmds| - 1].id;
      WithoutCounts(front, gone);
      LastId(cmds);
      LastApart(cmds);
      assert gone * IdsOf(cmds) == gone * IdsOf(front) + if id in gone then {id} else {};
    } else {
      assert gone * IdsOf(cmds) == {};
    }
  }

  lemma {:induction false} IdsCount(cmds: seq<QueuedCommand>)
    requires DistinctCommands(cmds)
    ensures |IdsOf(cmds)| == |cmds|
  {
    if |cmds| > 0 {
      IdsCount(cmds[..|cmds| - 1]);
      LastId(cmds);
      LastApart(cmds);
    } else {
      assert IdsOf(cmds) == {};
    }
  }

  lemma {:induction false} EntriesCount(batch: seq<DecidedCommand>)
    requires DistinctEntries(batch)
    ensures |EntryIds(batch)| == |batch|
  {
    if |batch| > 0 {
      var front, last := batch[..|batch| - 1], batch[|batch| - 1];
      EntriesCount(front);
      assert front + [last] == batch;
      LastEntry(front, last);
      assert last.commandId !in EntryIds(front);
    } else {
      assert EntryIds(batch) == {};
    }
  }

  /** How many commands of a window each of its three groups holds. */
  lemma GroupsCount(reg: Deciders, u: Option<Upcaster>, table: seq<Event>, window: seq<QueuedCommand>)
    requires DistinctCommands(window)
    ensures var applied, todo := AppliedIds(table, window), NotApplied(table, window);
            var w := WindowOf(reg, u, table, todo);
            var refused, entries := RefusedIds(todo, w.verdicts), EntryIds(w.batch);
            && |applied| == |window| - |todo| && |refused| == |todo| - |w.batch| && |entries| == |w.batch|
            && |applied + refused| == |window| - |w.batch| && |applied + refused + entries| == |window|
            && applied + refused + entries == IdsOf(window)
  {
    hide IdsOf, AppliedIds, NotApplied, WindowOf, RefusedIds, EntryIds, DistinctCommands, DistinctEntries;
    var applied, todo := AppliedIds(table, window), NotApplied(table, window);
    var w := WindowOf(reg, u, table, todo);
    AppliedOrNot(table, window);
    RefusedOrBatched(reg, u, table, todo);
    IdsCount(window);
    IdsCount(todo);
    EntriesCount(w.batch);
  }

  lemma {:induction false} NotAppliedIsLeft(table: seq<Event>, window: seq<QueuedCommand>)
    requires DistinctCommands(window)
    ensures |AppliedIds(table, window)| == |window| - |NotApplied(table, window)|
    ensures AppliedIds(table, window) <= IdsOf(window)
  {
    hide IdsOf, AppliedIds, NotApplied, DistinctCommands;
    AppliedOrNot(table, window);
    IdsCount(window);
    IdsCount(NotApplied(table, window));
  }

  lemma PassProcesses(env: Env, reg: Deciders, u: Option<Upcaster>, maxBatch: int, table: seq<Event>,
                      rows: seq<QueueRow>, mail: Mail, io: Io)
    ensures var window, todo := PendingCommands(rows, maxBatch), WindowTodo(table, rows, maxBatch);
            var batch := WindowOf(reg, u, table, todo).batch;
            PassOf(env, reg, u, maxBatch, table, rows, mail, io).processed ==
            if io.unreadable then 0
            else if io.failedCheck.Some? && io.failedCheck.value < |window| then
              io.failedCheck.value - |NotApplied(table, window[..io.failedCheck.value])|
            else |window| - if Commits(table, batch, io) then 0 else |batch|
  {
    hide WindowOf, PendingCommands, RefusedMail, CommittedMail, Commits, AppliedIds, RefusedIds, EntryIds;
    hide Marked, Fails, ResultsOf, InsertBatch, NotApplied;
  }

  /** The groups a whole pass settles, and those of them it marks. */
  lemma WholeSettles(reg: Deciders, u: Option<Upcaster>, table: seq<Event>, window: seq<QueuedCommand>,
                     committed: bool, lost: set<string>, lostBatch: bool) returns (settled: set<string>)
    requires DistinctCommands(window)
    ensures var todo := NotApplied(table, window);
            var w := WindowOf(reg, u, table, todo);
            var gone := (AppliedIds(table, window) + RefusedIds(todo, w.verdicts) - lost)
                        + if committed && !lostBatch then EntryIds(w.batch) else {};
            && |settled| == |window| - (if committed then 0 else |w.batch|)
            && gone <= settled <= IdsOf(window) && (lost == {} && !lostBatch ==> gone == settled)
  {
    hide *;
    var todo := NotApplied(table, window);
    var w := WindowOf(reg, u, table, todo);
    GroupsCount(reg, u, table, window);
    settled := AppliedIds(table, window) + RefusedIds(todo, w.verdicts);
    if committed {
      settled := settled + EntryIds(w.batch);
    }
  }

  /** What a pass reports as processed: the size of the groups it settled. */
  lemma ProcessedCounts(env: Env, reg: Deciders, u: Option<Upcaster>, maxBatch: int, table: seq<Event>,
                        rows: seq<QueueRow>, mail: Mail, io: Io) returns (settled: set<string>)
    requires DistinctIds(rows)
    ensures var pass := PassOf(env, reg, u, maxBatch, table, rows, mail, io);
            && pass.processed == |settled| && settled <= IdsOf(PendingCommands(rows, maxBatch))
            && exists gone: set<string> :: pass.rows == Marked(rows, gone) && gone <= settled
                                           && (io.lostMarks == {} && !io.lostBatchMark ==> gone == settled)
  {
    hide WindowOf, PendingCommands, RefusedMail, CommittedMail, Commits, AppliedIds, RefusedIds, EntryIds;
    hide Marked, PassOf, NotApplied, IdsOf, DistinctIds, DistinctCommands;
    PassProcesses(env, reg, u, maxBatch, table, rows, mail, io);
    var window, todo := PendingCommands(rows, maxBatch), WindowTodo(table, rows, maxBatch);
    var w := WindowOf(reg, u, table, todo);
    var gone := PassMarksOnly(env, reg, u, maxBatch, table, rows, mail, io);
    TodoDistinct(table, rows, maxBatch);
    if io.unreadable {
      settled := {};
    } else if io.failedCheck.Some? && io.failedCheck.value < |window| {
      var seen := window[..io.failedCheck.value];
      settled := AppliedIds(table, seen);
      SeenDistinct(window, io.failedCheck.value);
      NotAppliedIsLeft(table, seen);
    } else {
      settled := WholeSettles(reg, u, table, window, Commits(table, w.batch, io), io.lostMarks, io.lostBatchMark);
    }
  }

  lemma SeenDistinct(window: seq<QueuedCommand>, n: nat)
    requires DistinctCommands(window) && n <= |window|
    ensures DistinctCommands(window[..n]) && IdsOf(window[..n]) <= IdsOf(window)
  {
    forall i | 0 <= i < n
      ensures window[i].id in IdsOf(window)
    {
    }
  }

  lemma {:induction false} WindowIsPending(rows: seq<QueueRow>, maxBatch: int)
    requires DistinctIds(rows)
    ensures DistinctCommands(PendingOf(rows)) && IdsOf(PendingCommands(rows, maxBatch)) <= IdsOf(PendingOf(rows))
  {
    PendingAreRows(rows);
    SeenDistinct(PendingOf(rows), |PendingCommands(rows, maxBatch)|);
  }

  /**
   What a pass reports as processed is what leaves the queue: exactly, when no mark is lost; at
   most that many leave it otherwise.
   */
  lemma ProcessedIsWhatLeft(env: Env, reg: Deciders, u: Option<Upcaster>, maxBatch: int, table: seq<Event>,
                            rows: seq<QueueRow>, mail: Mail, io: Io)
    requires DistinctIds(rows)
    ensures var pass := PassOf(env, reg, u, maxBatch, table, rows, mail, io);
            var left := |UndoneAt(rows)| - |UndoneAt(pass.rows)|;
            && 0 <= left <= pass.processed <= |UndoneAt(rows)|
            && (io.lostMarks == {} && !io.lostBatchMark ==> pass.processed == left)
  {
    hide PassOf, PendingOf, Marked, PendingCommands, IdsOf, DistinctIds, DistinctCommands, UndoneAt, Without;
    var pass := PassOf(env, reg, u, maxBatch, table, rows, mail, io);
    var settled := ProcessedCounts(env, reg, u, maxBatch, table, rows, mail, io);
    var gone: set<string> :| pass.rows == Marked(rows, gone) && gone <= settled
                             && (io.lostMarks == {} && !io.lostBatchMark ==> gone == settled);
    DepthHolds(rows);
    DepthHolds(pass.rows);
    PendingMarked(rows, gone);
    WindowIsPending(rows, maxBatch);
    WithoutCounts(PendingOf(rows), gone);
    IdsCount(PendingOf(rows));
    SetsFit(gone, settled, IdsOf(PendingOf(rows)));
  }

  lemma SetsFit(gone: set<string>, settled: set<string>, all: set<string>)
    requires gone <= settled <= all
    ensures gone * all == gone && |gone| <= |settled| <= |all|
  {
    assert settled == gone + (settled - gone) && all == settled + (all - settled);
  }

  // ---------------------------------------------------------------------
  // What it tells
  // ---------------------------------------------------------------------

  /** One caller: a waiting one hears the outcome, once, and waits no longer; any other hears nothing. */
  predicate HearsOnce(before: Mail, after: Mail, id: string, outcome: Outcome) {
    if id in before.waiters then id !in after.waiters && id in after.channels && after.channels[id] == outcome
    else HearsNothing(before, after, id)
  }

  predicate HearsNothing(before: Mail, after: Mail, id: string) {
    && (id in after.waiters <==> id in before.waiters) && (id in after.channels <==> id in before.channels)
    && (id in before.channels && id in after.channels ==> after.channels[id] == before.channels[id])
  }

  lemma EarsHear(before: Mail, after: Mail, id: string, outcome: Outcome)
    ensures EarOf(after, id) == Told(EarOf(before, id), outcome) ==> HearsOnce(before, after, id, outcome)
    ensures EarOf(after, id) == EarOf(before, id) ==> HearsNothing(before, after, id)
  {
  }

  /** What each caller of the window is sent: its refusal, or the rows that landed for it, or nothing yet. */
  lemma CallersHear(env: Env, reg: Deciders, u: Option<Upcaster>, maxBatch: int, table: seq<Event>,
                    rows: seq<QueueRow>, mail: Mail, io: Io, i: nat)
    requires DistinctIds(rows) && i < |WindowTodo(table, rows, maxBatch)|
    ensures var todo := WindowTodo(table, rows, maxBatch);
            var w := WindowOf(reg, u, table, todo);
            var after := PassOf(env, reg, u, maxBatch, table, rows, mail, io).mail;
            if io.unreadable || (io.failedCheck.Some? && io.failedCheck.value < |PendingCommands(rows, maxBatch)|) then
              HearsNothing(mail, after, todo[i].id)
            else if w.verdicts[i].Rejected? then HearsOnce(mail, after, todo[i].id, Failure(w.verdicts[i].error))
            else if SomeImported(w.batch) || !AllFit(table, w.batch) || io.commitFault then
              HearsNothing(mail, after, todo[i].id)
            else
              && w.verdicts[i].slot < |w.batch|
              && w.batch[w.verdicts[i].slot].commandId == todo[i].id
              && HearsOnce(mail, after, todo[i].id, Success(Landed(env, table, w.batch, w.verdicts[i].slot).events))
  {
    var todo := WindowTodo(table, rows, maxBatch);
    var w := WindowOf(reg, u, table, todo);
    var after := PassOf(env, reg, u, maxBatch, table, rows, mail, io).mail;
    TodoDistinct(table, rows, maxBatch);
    WindowSlot(reg, u, table, todo, i);
    WhoHearsWhat(env, reg, u, maxBatch, table, rows, mail, io, i);
    EarsHear(mail, after, todo[i].id, WindowOutcome(env, table, w, i));
    hide WindowOf, WindowTodo, PassOf, PendingCommands, AllFit, Landed, HearsOnce, HearsNothing, EarOf, Told;
  }
}
