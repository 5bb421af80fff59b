/**
 What a whole pass amounts to: who hears what, which commands leave the queue, and how the
 log and the outcomes compare with handling the commands one by one.
 */
module BatchPass {
  import opened Wrappers
  import opened EventLog
  import opened LogInvariant
  import opened EventStore
  import opened Deciding
  import opened BatchWindow
  import opened CommandQueue
  import opened BatchReplay
  import opened BatchProtocol
  import opened BatchSafety
  import opened BatchWriter

  /** Every read and write of the pass goes through. */
  const SMOOTH := Io(false, None, false, {}, false)

  function IdsOf(cmds: seq<QueuedCommand>): set<string> {
    set i | 0 <= i < |cmds| :: cmds[i].id
  }

  // ---------------------------------------------------------------------
  // The commands of a pass fall into three groups
  // ---------------------------------------------------------------------

  /** The applied ids and the commands left make up the list, apart when its ids are distinct. */
  ghost predicate Parts(cmds: seq<QueuedCommand>, applied: set<string>, left: seq<QueuedCommand>) {
    && applied + IdsOf(left) == IdsOf(cmds)
    && (DistinctCommands(cmds) ==> applied !! IdsOf(left) && DistinctCommands(left))
  }

  lemma PartsApplied(cmds: seq<QueuedCommand>, applied: set<string>, left: seq<QueuedCommand>)
    requires |cmds| > 0 && Parts(cmds[..|cmds| - 1], applied, left)
    ensures Parts(cmds, applied + {cmds[|cmds| - 1].id}, left)
  {
    LastId(cmds);
    LastApart(cmds);
    hide IdsOf;
  }

  lemma PartsLeft(cmds: seq<QueuedCommand>, applied: set<string>, left: seq<QueuedCommand>)
    requires |cmds| > 0 && Parts(cmds[..|cmds| - 1], applied, left)
    ensures Parts(cmds, applied, left + [cmds[|cmds| - 1]])
  {
    var more := left + [cmds[|cmds| - 1]];
    LastId(cmds);
    LastApart(cmds);
    assert more[..|left|] == left;
    LastId(more);
    if DistinctCommands(cmds) {
      forall i | 0 <= i < |left|
        ensures left[i].id != cmds[|cmds| - 1].id
      {
        assert left[i].id in IdsOf(left);
      }
    }
    hide IdsOf;
  }

  lemma LastApart(cmds: seq<QueuedCommand>)
    requires |cmds| > 0
    ensures var front := cmds[..|cmds| - 1];
            DistinctCommands(cmds) ==> DistinctCommands(front) && cmds[|cmds| - 1].id !in IdsOf(front)
  {
  }

  lemma {:induction false} AppliedParts(table: seq<Event>, cmds: seq<QueuedCommand>)
    ensures Parts(cmds, AppliedIds(table, cmds), NotApplied(table, cmds))
  {
    hide Parts, Applied;
    if |cmds| > 0 {
      var front := cmds[..|cmds| - 1];
      AppliedParts(table, front);
      PartsApplied(cmds, AppliedIds(table, front), NotApplied(table, front));
      PartsLeft(cmds, AppliedIds(table, front), NotApplied(table, front));
      assert AppliedIds(table, front) + {} == AppliedIds(table, front);
    } else {
      NoParts();
      assert cmds == [];
    }
  }

  lemma NoParts()
    ensures Parts([], {}, [])
  {
  }

  lemma AppliedOrNot(table: seq<Event>, cmds: seq<QueuedCommand>)
    ensures AppliedIds(table, cmds) + IdsOf(NotApplied(table, cmds)) == IdsOf(cmds)
    ensures DistinctCommands(cmds) ==>
            AppliedIds(table, cmds) !! IdsOf(NotApplied(table, cmds)) && DistinctCommands(NotApplied(table, cmds))
  {
    AppliedParts(table, cmds);
    hide AppliedIds, NotApplied, IdsOf, DistinctCommands;
  }

  lemma LastId(cmds: seq<QueuedCommand>)
    requires |cmds| > 0
    ensures IdsOf(cmds) == IdsOf(cmds[..|cmds| - 1]) + {cmds[|cmds| - 1].id}
  {
    var n := |cmds| - 1;
    forall id | id in IdsOf(cmds)
      ensures id in IdsOf(cmds[..n]) + {cmds[n].id}
    {
      var i :| 0 <= i < |cmds| && cmds[i].id == id;
      if i < n {
        assert cmds[..n][i].id == id;
      }
    }
    forall id | id in IdsOf(cmds[..n])
      ensures id in IdsOf(cmds)
    {
      var i :| 0 <= i < n && cmds[..n][i].id == id;
      assert cmds[i].id == id;
    }
  }

  lemma LastEntry(batch: seq<DecidedCommand>, dc: DecidedCommand)
    ensures EntryIds(batch + [dc]) == EntryIds(batch) + {dc.commandId}
  {
    var all := batch + [dc];
    forall id | id in EntryIds(batch) + {dc.commandId}
      ensures id in EntryIds(all)
    {
      if id in EntryIds(batch) {
        var k :| 0 <= k < |batch| && batch[k].commandId == id;
        assert all[k].commandId == id;
      } else {
        assert all[|batch|].commandId == id;
      }
    }
  }

  ghost predicate Split(cmds: seq<QueuedCommand>, verdicts: seq<Verdict>, batch: seq<DecidedCommand>)
    requires |cmds| == |verdicts|
  {
    && RefusedIds(cmds, verdicts) + EntryIds(batch) == IdsOf(cmds)
    && (DistinctCommands(cmds) ==> RefusedIds(cmds, verdicts) !! EntryIds(batch) && DistinctEntries(batch))
  }

  lemma SplitRefused(cmds: seq<QueuedCommand>, verdicts: seq<Verdict>, batch: seq<DecidedCommand>)
    requires |cmds| == |verdicts| > 0 && verdicts[|cmds| - 1].Rejected?
    requires Split(cmds[..|cmds| - 1], verdicts[..|cmds| - 1], batch)
    ensures Split(cmds, verdicts, batch)
  {
    var n := |cmds| - 1;
    LastId(cmds);
    if DistinctCommands(cmds) {
      assert cmds[n].id !in IdsOf(cmds[..n]);
    }
  }

  lemma SplitBatched(cmds: seq<QueuedCommand>, verdicts: seq<Verdict>, batch: seq<DecidedCommand>, dc: DecidedCommand)
    requires |cmds| == |verdicts| > 0 && verdicts[|cmds| - 1].Accepted? && dc.commandId == cmds[|cmds| - 1].id
    requires Split(cmds[..|cmds| - 1], verdicts[..|cmds| - 1], batch)
    ensures Split(cmds, verdicts, batch + [dc])
  {
    var n := |cmds| - 1;
    LastId(cmds);
    LastEntry(batch, dc);
    if DistinctCommands(cmds) {
      assert cmds[n].id !in IdsOf(cmds[..n]);
      forall k | 0 <= k < |batch|
        ensures batch[k].commandId != cmds[n].id
      {
        assert batch[k].commandId in EntryIds(batch);
      }
    }
  }

  lemma SplitNext(reg: Deciders, u: Option<Upcaster>, table: seq<Event>, cmds: seq<QueuedCommand>, w: Window)
    requires |cmds| > 0 && |w.verdicts| == |cmds| - 1 && Split(cmds[..|cmds| - 1], w.verdicts, w.batch)
    ensures var w' := WindowStep(reg, u, table, w, cmds[|cmds| - 1]);
            |w'.verdicts| == |cmds| && Split(cmds, w'.verdicts, w'.batch)
  {
    hide OverlayLoad, DecideQueued, Recorded;
    var n := |cmds| - 1;
    var w' := WindowStep(reg, u, table, w, cmds[n]);
    hide Split;
    assert w'.verdicts[..n] == w.verdicts;
    if w'.verdicts[n].Accepted? {
      SplitBatched(cmds, w'.verdicts, w.batch, w'.batch[|w.batch|]);
    } else {
      SplitRefused(cmds, w'.verdicts, w.batch);
    }
  }

  lemma SplitNone()
    ensures Split([], [], [])
  {
  }

  lemma {:induction false} RefusedOrBatched(reg: Deciders, u: Option<Upcaster>, table: seq<Event>,
                                            cmds: seq<QueuedCommand>)
    ensures Split(cmds, WindowOf(reg, u, table, cmds).verdicts, WindowOf(reg, u, table, cmds).batch)
  {
    hide Split, WindowStep;
    if |cmds| > 0 {
      RefusedOrBatched(reg, u, table, cmds[..|cmds| - 1]);
      SplitNext(reg, u, table, cmds, WindowOf(reg, u, table, cmds[..|cmds| - 1]));
    } else {
      assert cmds == [];
      SplitNone();
    }
  }

  // ---------------------------------------------------------------------
  // Who hears what
  // ---------------------------------------------------------------------

  /** What one command's caller has: a waiter, and what came through it. */
  datatype Ear = Ear(waits: bool, heard: Option<Outcome>)

  function EarOf(m: Mail, id: string): Ear {
    Ear(id in m.waiters, if id in m.channels then Some(m.channels[id]) else None)
  }

  function Told(e: Ear, outcome: Outcome): Ear {
    if e.waits then Ear(false, Some(outcome)) else e
  }

  lemma {:induction false} RefusedMailAt(m: Mail, cmds: seq<QueuedCommand>, verdicts: seq<Verdict>, id: string)
    requires |cmds| == |verdicts| && DistinctCommands(cmds)
    ensures id !in RefusedIds(cmds, verdicts) ==> EarOf(RefusedMail(m, cmds, verdicts), id) == EarOf(m, id)
    ensures forall i :: 0 <= i < |cmds| && cmds[i].id == id && verdicts[i].Rejected? ==>
              EarOf(RefusedMail(m, cmds, verdicts), id) == Told(EarOf(m, id), Failure(verdicts[i].error))
  {
    if |cmds| > 0 {
      var n := |cmds| - 1;
      RefusedMailAt(m, cmds[..n], verdicts[..n], id);
      forall i | 0 <= i < n && cmds[i].id == id && verdicts[i].Rejected?
        ensures EarOf(RefusedMail(m, cmds, verdicts), id) == Told(EarOf(m, id), Failure(verdicts[i].error))
      {
        assert cmds[..n][i].id == id && verdicts[..n][i].Rejected?;
      }
      if cmds[n].id == id && verdicts[n].Rejected? {
        RefusedAreThem(cmds[..n], verdicts[..n]);
        assert id !in IdsOf(cmds[..n]);
      }
    }
  }

  lemma {:induction false} RefusedAreThem(cmds: seq<QueuedCommand>, verdicts: seq<Verdict>)
    requires |cmds| == |verdicts|
    ensures RefusedIds(cmds, verdicts) <= IdsOf(cmds)
    ensures forall i :: 0 <= i < |cmds| && verdicts[i].Rejected? ==> cmds[i].id in RefusedIds(cmds, verdicts)
  {
    if |cmds| > 0 {
      var n := |cmds| - 1;
      RefusedAreThem(cmds[..n], verdicts[..n]);
      LastId(cmds);
      forall i | 0 <= i < |cmds| && verdicts[i].Rejected?
        ensures cmds[i].id in RefusedIds(cmds, verdicts)
      {
        if i < n {
          assert cmds[..n][i] == cmds[i] && verdicts[..n][i] == verdicts[i];
        }
      }
    }
  }

  lemma {:induction false} CommittedMailAt(m: Mail, results: seq<BatchResult>, id: string)
    requires forall i, j :: 0 <= i < j < |results| ==> results[i].commandId != results[j].commandId
    ensures id !in ResultIds(results) ==> EarOf(CommittedMail(m, results), id) == EarOf(m, id)
    ensures forall k :: 0 <= k < |results| && results[k].commandId == id ==>
              EarOf(CommittedMail(m, results), id) == Told(EarOf(m, id), Success(results[k].events))
  {
    if |results| > 0 {
      var n := |results| - 1;
      var front := results[..n];
      CommittedMailAt(m, front, id);
      if id in ResultIds(front) {
        var k :| 0 <= k < |front| && front[k].commandId == id;
        assert results[k].commandId == id;
      }
      forall k | 0 <= k < |results| && results[k].commandId == id
        ensures EarOf(CommittedMail(m, results), id) == Told(EarOf(m, id), Success(results[k].events))
      {
        if k < n {
          assert front[k].commandId == id;
        }
      }
    }
  }

  /**
   Every caller of the window hears exactly its own verdict, once: the refusal, or, when
   the batch landed, the events that landed for it. If the batch did not land, an accepted
   command's caller hears nothing and keeps waiting; if a read cut the pass short, every
   caller does.
   */
  lemma WhoHearsWhat(env: Env, reg: Deciders, u: Option<Upcaster>, maxBatch: int, table: seq<Event>,
                     rows: seq<QueueRow>, mail: Mail, io: Io, i: nat)
    requires DistinctIds(rows) && i < |WindowTodo(table, rows, maxBatch)|
    ensures var todo := WindowTodo(table, rows, maxBatch);
            var w := WindowOf(reg, u, table, todo);
            var before, after :=
                EarOf(mail, todo[i].id), EarOf(PassOf(env, reg, u, maxBatch, table, rows, mail, io).mail, todo[i].id);
            var hears := !io.CutShort(PendingCommands(rows, maxBatch))
                         && (w.verdicts[i].Rejected? || Commits(table, w.batch, io));
            after == if hears then Told(before, WindowOutcome(env, table, w, i)) else before
  {
    var todo := WindowTodo(table, rows, maxBatch);
    var w := WindowOf(reg, u, table, todo);
    var told := RefusedMail(mail, todo, w.verdicts);
    TodoDistinct(table, rows, maxBatch);
    RefusalHeard(reg, u, table, mail, todo, i);
    CommitHeard(env, reg, u, table, told, todo, i);
  }

  lemma RefusalHeard(reg: Deciders, u: Option<Upcaster>, table: seq<Event>, mail: Mail, todo: seq<QueuedCommand>,
                     i: nat)
    requires DistinctCommands(todo) && i < |todo|
    ensures var w := WindowOf(reg, u, table, todo);
            EarOf(RefusedMail(mail, todo, w.verdicts), todo[i].id) ==
            if w.verdicts[i].Rejected? then Told(EarOf(mail, todo[i].id), Failure(w.verdicts[i].error))
                else EarOf(mail, todo[i].id)
  {
    var w := WindowOf(reg, u, table, todo);
    RefusedOrBatched(reg, u, table, todo);
    RefusedMailAt(mail, todo, w.verdicts, todo[i].id);
    if w.verdicts[i].Accepted? {
      assert w.batch[w.verdicts[i].slot].commandId in EntryIds(w.batch);
    }
  }

  lemma CommitHeard(env: Env, reg: Deciders, u: Option<Upcaster>, table: seq<Event>, told: Mail,
                    todo: seq<QueuedCommand>, i: nat)
    requires DistinctCommands(todo) && i < |todo|
    ensures var w := WindowOf(reg, u, table, todo);
            EarOf(CommittedMail(told, ResultsOf(env, table, w.batch)), todo[i].id) ==
            if w.verdicts[i].Rejected? then EarOf(told, todo[i].id)
            else Told(EarOf(told, todo[i].id), WindowOutcome(env, table, w, i))
  {
    var w := WindowOf(reg, u, table, todo);
    WindowSlot(reg, u, table, todo, i);
    assert w.verdicts[i].Accepted? ==>
           WindowOutcome(env, table, w, i) == Success(Landed(env, table, w.batch, w.verdicts[i].slot).events);
    hide *;
    LandedHeard(env, table, w.batch, told, todo[i].id);
  }

  lemma WindowSlot(reg: Deciders, u: Option<Upcaster>, table: seq<Event>, todo: seq<QueuedCommand>, i: nat)
    requires DistinctCommands(todo) && i < |todo|
    ensures var w := WindowOf(reg, u, table, todo);
            && DistinctEntries(w.batch) && (w.verdicts[i].Rejected? ==> todo[i].id !in EntryIds(w.batch))
            && (w.verdicts[i].Accepted? ==>
                w.verdicts[i].slot < |w.batch| && w.batch[w.verdicts[i].slot].commandId == todo[i].id)
  {
    var w := WindowOf(reg, u, table, todo);
    RefusedOrBatched(reg, u, table, todo);
    RefusedAreThem(todo, w.verdicts);
    hide WindowOf, IdsOf, EntryIds;
  }

  lemma LandedHeard(env: Env, table: seq<Event>, batch: seq<DecidedCommand>, told: Mail, id: string)
    requires DistinctEntries(batch)
    ensures id !in EntryIds(batch) ==> EarOf(CommittedMail(told, ResultsOf(env, table, batch)), id) == EarOf(told, id)
    ensures forall k :: 0 <= k < |batch| && batch[k].commandId == id ==>
              EarOf(CommittedMail(told, ResultsOf(env, table, batch)), id) ==
              Told(EarOf(told, id), Success(Landed(env, table, batch, k).events))
  {
    var results := ResultsOf(env, table, batch);
    assert forall k :: 0 <= k < |batch| ==>
           results[k] == Landed(env, table, batch, k) && results[k].commandId == batch[k].commandId;
    LandedIds(env, table, batch);
    hide ResultsOf, Landed, ResultIds, EntryIds, CommittedMail, EarOf, Told;
    CommittedMailAt(told, results, id);
  }

  lemma TodoDistinct(table: seq<Event>, rows: seq<QueueRow>, maxBatch: int)
    requires DistinctIds(rows)
    ensures DistinctCommands(PendingCommands(rows, maxBatch)) && DistinctCommands(WindowTodo(table, rows, maxBatch))
  {
    PendingAreRows(rows);
    AppliedOrNot(table, PendingCommands(rows, maxBatch));
  }

  // ---------------------------------------------------------------------
  // Which commands leave the queue
  // ---------------------------------------------------------------------

  lemma {:induction false} WithoutAllOf(cmds: seq<QueuedCommand>, gone: set<string>)
    ensures IdsOf(cmds) <= gone ==> Without(cmds, gone) == []
    ensures IdsOf(cmds) !! gone ==> Without(cmds, gone) == cmds
    ensures forall qc: QueuedCommand :: qc in cmds && qc.id !in gone ==> qc in Without(cmds, gone)
  {
    hide IdsOf;
    if |cmds| > 0 {
      var n := |cmds| - 1;
      LastId(cmds);
      WithoutAllOf(cmds[..n], gone);
      assert cmds == cmds[..n] + [cmds[n]];
    } else {
      assert cmds == [];
    }
  }

  /** Marking exactly a window's ids done leaves what was queued behind it. */
  lemma MarkedWindowLeaves(rows: seq<QueueRow>, limit: int)
    requires DistinctIds(rows)
    ensures var window := PendingCommands(rows, limit);
            PendingOf(Marked(rows, IdsOf(window))) == PendingOf(rows)[|window|..]
  {
    var window, all := PendingCommands(rows, limit), PendingOf(rows);
    var gone, rest := IdsOf(window), all[|window|..];
    assert window == all[..|window|] && all == window + rest;
    PendingAreRows(rows);
    RestApart(all, |window|);
    hide *;
    PendingMarked(rows, gone);
    WithoutConcat(window, rest, gone);
    WithoutAllOf(window, gone);
    WithoutAllOf(rest, gone);
    assert [] + rest == rest;
  }

  lemma RestApart(all: seq<QueuedCommand>, n: nat)
    requires DistinctCommands(all) && n <= |all|
    ensures IdsOf(all[n..]) !! IdsOf(all[..n])
  {
    forall id | id in IdsOf(all[n..])
      ensures id !in IdsOf(all[..n])
    {
      var i :| 0 <= i < |all[n..]| && all[n..][i].id == id;
      assert all[n + i].id == id;
    }
  }

  /**
   With nothing interleaved and every write of the pass going through, a window whose batch
   CommitBatch accepts leaves the queue whole, whatever was decided, and processed is its
   length. On a contiguous log only a marker stands in the way.
   */
  lemma PassClearsTheWindow(env: Env, reg: Deciders, u: Option<Upcaster>, maxBatch: int, table: seq<Event>,
                            rows: seq<QueueRow>, mail: Mail)
    requires DistinctIds(rows)
    requires var batch := WindowOf(reg, u, table, WindowTodo(table, rows, maxBatch)).batch;
             !BatchCarriesMarker(batch) && (LogOk(table) || AllFit(table, batch))
    ensures var pass := PassOf(env, reg, u, maxBatch, table, rows, mail, SMOOTH);
            var window := PendingCommands(rows, maxBatch);
            && pass.processed == |window| && !pass.failed
            && PendingOf(pass.rows) == PendingOf(rows)[|window|..]
            && (LogOk(table) ==> LogOk(pass.table))
  {
    var w := WindowOf(reg, u, table, WindowTodo(table, rows, maxBatch));
    if LogOk(table) {
      NeverConflictsWithItself(reg, u, table, WindowTodo(table, rows, maxBatch));
      InsertBatchKeepsLogOk(env, table, w.batch);
    }
    hide *;
    MarkedWindowLeaves(rows, maxBatch);
    CleanPass(env, reg, u, maxBatch, table, rows, mail);
  }

  lemma CleanPass(env: Env, reg: Deciders, u: Option<Upcaster>, maxBatch: int, table: seq<Event>, rows: seq<QueueRow>,
                  mail: Mail)
    requires var w := WindowOf(reg, u, table, WindowTodo(table, rows, maxBatch));
             !BatchCarriesMarker(w.batch) && AllFit(table, w.batch)
    ensures var w := WindowOf(reg, u, table, WindowTodo(table, rows, maxBatch));
            var pass := PassOf(env, reg, u, maxBatch, table, rows, mail, SMOOTH);
            var window := PendingCommands(rows, maxBatch);
            && pass.processed == |window| && !pass.failed && pass.table == InsertBatch(env, table, w.batch)
            && pass.rows == Marked(rows, IdsOf(window))
  {
    hide WindowOf, WindowTodo, AppliedIds, RefusedIds, Marked, PendingCommands, InsertBatch, AllFit;
    hide EntryIds, IdsOf, BatchCarriesMarker, RefusedMail, CommittedMail, ResultsOf, NotApplied;
    var w := WindowOf(reg, u, table, WindowTodo(table, rows, maxBatch));
    GroupsMakeTheWindow(reg, u, maxBatch, table, rows);
    if |w.batch| == 0 {
      NothingBatched(env, table, w.batch);
      var pending, todo := PendingCommands(rows, maxBatch), WindowTodo(table, rows, maxBatch);
      var gone := (AppliedIds(table, pending) - {}) + (RefusedIds(todo, w.verdicts) - {});
      assert gone + {} == gone;
    }
  }

  lemma NothingBatched(env: Env, table: seq<Event>, batch: seq<DecidedCommand>)
    requires |batch| == 0
    ensures EntryIds(batch) == {} && InsertBatch(env, table, batch) == table
  {
  }

  lemma GroupsMakeTheWindow(reg: Deciders, u: Option<Upcaster>, maxBatch: int, table: seq<Event>, rows: seq<QueueRow>)
    ensures var window, todo := PendingCommands(rows, maxBatch), WindowTodo(table, rows, maxBatch);
            var w := WindowOf(reg, u, table, todo);
            (AppliedIds(table, window) - {}) + (RefusedIds(todo, w.verdicts) - {}) + EntryIds(w.batch) == IdsOf(window)
  {
    hide PendingCommands, AppliedIds, NotApplied, RefusedIds, EntryIds, IdsOf, WindowOf, DistinctCommands;
    AppliedOrNot(table, PendingCommands(rows, maxBatch));
    RefusedOrBatched(reg, u, table, WindowTodo(table, rows, maxBatch));
  }

  /** A batch that does not land changes no row of the log and leaves every accepted command pending. */
  lemma UncommittedStaysPending(env: Env, reg: Deciders, u: Option<Upcaster>, maxBatch: int, table: seq<Event>,
                                rows: seq<QueueRow>, mail: Mail, io: Io, i: nat)
    requires DistinctIds(rows) && i < |WindowTodo(table, rows, maxBatch)|
    requires var w := WindowOf(reg, u, table, WindowTodo(table, rows, maxBatch));
             w.verdicts[i].Accepted? && (io.CutShort(PendingCommands(rows, maxBatch)) || !Commits(table, w.batch, io))
    ensures var pass := PassOf(env, reg, u, maxBatch, table, rows, mail, io);
            && pass.table == table && WindowTodo(table, rows, maxBatch)[i] in PendingOf(pass.rows)
            && pass.processed < |PendingCommands(rows, maxBatch)|
  {
    var window, todo := PendingCommands(rows, maxBatch), WindowTodo(table, rows, maxBatch);
    var w := WindowOf(reg, u, table, todo);
    assert w.verdicts[i].slot < |w.batch|;
    var gone := PassMarks(env, reg, u, maxBatch, table, rows, mail, io);
    NotSettled(reg, u, maxBatch, table, rows, i);
    NotAppliedAreThem(table, window);
    assert todo[i] in window && todo[i] in PendingOf(rows);
    PendingMarked(rows, gone);
    WithoutAllOf(PendingOf(rows), gone);
  }

  /** A pass that commits nothing marks only applied and refused commands. */
  lemma PassMarks(env: Env, reg: Deciders, u: Option<Upcaster>, maxBatch: int, table: seq<Event>, rows: seq<QueueRow>,
                  mail: Mail, io: Io)
    returns (gone: set<string>)
    requires var w := WindowOf(reg, u, table, WindowTodo(table, rows, maxBatch));
             |w.batch| > 0 && (io.CutShort(PendingCommands(rows, maxBatch)) || !Commits(table, w.batch, io))
    ensures var pending, todo := PendingCommands(rows, maxBatch), WindowTodo(table, rows, maxBatch);
            var pass := PassOf(env, reg, u, maxBatch, table, rows, mail, io);
            && pass.table == table && pass.rows == Marked(rows, gone) && pass.processed < |pending|
            && gone <= AppliedIds(table, pending) + RefusedIds(todo, WindowOf(reg, u, table, todo).verdicts)
  {
    var pending, todo := PendingCommands(rows, maxBatch), WindowTodo(table, rows, maxBatch);
    var w := WindowOf(reg, u, table, todo);
    MarkedAgain(rows, {}, {});
    NotAppliedShorter(table, pending);
    if io.unreadable {
      gone := {};
    } else if io.CutShort(pending) {
      gone := AppliedIds(table, pending[..io.Checks(pending)]) - io.lostMarks;
      AppliedPrefix(table, pending, io.Checks(pending));
    } else {
      gone := (AppliedIds(table, pending) - io.lostMarks) + (RefusedIds(todo, w.verdicts) - io.lostMarks);
    }
    hide WindowOf, AppliedIds, RefusedIds, Marked, PendingCommands, NotApplied, RefusedMail;
  }

  lemma {:induction false} NotAppliedShorter(table: seq<Event>, cmds: seq<QueuedCommand>)
    ensures |NotApplied(table, cmds)| <= |cmds|
  {
    if |cmds| > 0 {
      NotAppliedShorter(table, cmds[..|cmds| - 1]);
    }
  }

  lemma {:induction false} AppliedPrefix(table: seq<Event>, cmds: seq<QueuedCommand>, n: nat)
    requires n <= |cmds|
    ensures AppliedIds(table, cmds[..n]) <= AppliedIds(table, cmds)
  {
    if n < |cmds| {
      var front := cmds[..|cmds| - 1];
      AppliedPrefix(table, front, n);
      assert front[..n] == cmds[..n];
    } else {
      assert cmds[..n] == cmds;
    }
  }

  /** An accepted command of the window is neither applied nor refused. */
  lemma NotSettled(reg: Deciders, u: Option<Upcaster>, maxBatch: int, table: seq<Event>, rows: seq<QueueRow>, i: nat)
    requires DistinctIds(rows) && i < |WindowTodo(table, rows, maxBatch)|
    requires WindowOf(reg, u, table, WindowTodo(table, rows, maxBatch)).verdicts[i].Accepted?
    ensures var todo := WindowTodo(table, rows, maxBatch);
            && todo[i].id !in AppliedIds(table, PendingCommands(rows, maxBatch))
            && todo[i].id !in RefusedIds(todo, WindowOf(reg, u, table, todo).verdicts)
  {
    var todo := WindowTodo(table, rows, maxBatch);
    var w := WindowOf(reg, u, table, todo);
    TodoDistinct(table, rows, maxBatch);
    AppliedOrNot(table, PendingCommands(rows, maxBatch));
    RefusedOrBatched(reg, u, table, todo);
    assert w.batch[w.verdicts[i].slot].commandId in EntryIds(w.batch);
    assert todo[i].id in IdsOf(todo);
  }

  // ---------------------------------------------------------------------
  // A pass against handling one by one
  // ---------------------------------------------------------------------

  /** Nothing stops the pass: no read fails, and what it decided, if anything, is committed. */
  predicate Lands(reg: Deciders, u: Option<Upcaster>, maxBatch: int, table: seq<Event>, rows: seq<QueueRow>, io: Io) {
    var batch := WindowOf(reg, u, table, WindowTodo(table, rows, maxBatch)).batch;
    !io.CutShort(PendingCommands(rows, maxBatch)) && (|batch| == 0 || Commits(table, batch, io))
  }

  /**
   A pass whose batch lands leaves the log of the serial run, up to stamped ids, and tells
   every waiting caller of the window what the serial run would have told it, on any log.
   */
  lemma PassIsTheSerialRun(env: Env, reg: Deciders, u: Option<Upcaster>, maxBatch: int, table: seq<Event>,
                           rows: seq<QueueRow>, mail: Mail, io: Io)
    requires DistinctIds(rows) && FoldsByShadow(reg) && EmitsLatest(reg, u)
    requires Lands(reg, u, maxBatch, table, rows, io)
    ensures var todo := WindowTodo(table, rows, maxBatch);
            var pass, serial := PassOf(env, reg, u, maxBatch, table, rows, mail, io),
                SerialOf(env, reg, u, table, todo);
            && SameUpToStamp(pass.table, serial.log)
            && forall i :: 0 <= i < |todo| && todo[i].id in mail.waiters ==>
                 && todo[i].id !in pass.mail.waiters && todo[i].id in pass.mail.channels
                 && SameOutcome(pass.mail.channels[todo[i].id], serial.outcomes[i])
  {
    var todo := WindowTodo(table, rows, maxBatch);
    var w := WindowOf(reg, u, table, todo);
    var pass, serial := PassOf(env, reg, u, maxBatch, table, rows, mail, io), SerialOf(env, reg, u, table, todo);
    LandedTable(env, reg, u, maxBatch, table, rows, mail, io);
    assert Commitable(table, w.batch);
    hide FoldsByShadow, EmitsLatest, Commitable, WindowOf, WindowTodo, SerialOf, PassOf, SameUpToStamp;
    BatchedEqualsSerial(env, reg, u, table, todo);
    hide SameOutcome, WindowOutcome;
    forall i | 0 <= i < |todo| && todo[i].id in mail.waiters
      ensures todo[i].id !in pass.mail.waiters && todo[i].id in pass.mail.channels
      ensures SameOutcome(pass.mail.channels[todo[i].id], serial.outcomes[i])
    {
      WhoHearsWhat(env, reg, u, maxBatch, table, rows, mail, io, i);
      assert Commits(table, w.batch, io) || w.verdicts[i].Rejected?;
    }
  }

  lemma LandedTable(env: Env, reg: Deciders, u: Option<Upcaster>, maxBatch: int, table: seq<Event>,
                    rows: seq<QueueRow>, mail: Mail, io: Io)
    requires Lands(reg, u, maxBatch, table, rows, io)
    ensures PassOf(env, reg, u, maxBatch, table, rows, mail, io).table ==
            InsertBatch(env, table, WindowOf(reg, u, table, WindowTodo(table, rows, maxBatch)).batch)
  {
    hide WindowOf, WindowTodo, AppliedIds, RefusedIds, Marked, PendingCommands, EntryIds, RefusedMail, CommittedMail;
  }

  /** What a pass leaves is what the serial run leaves, for the log and for every caller of its window. */
  ghost predicate AgreesWithSerial(env: Env, reg: Deciders, u: Option<Upcaster>, table: seq<Event>,
                                   todo: seq<QueuedCommand>, pass: Pass)
  {
    var serial := SerialOf(env, reg, u, table, todo);
    && SameUpToStamp(pass.table, serial.log)
    && forall i :: 0 <= i < |todo| ==>
         && todo[i].id !in pass.mail.waiters && todo[i].id in pass.mail.channels
         && SameOutcome(pass.mail.channels[todo[i].id], serial.outcomes[i])
  }

  /**
   With every caller of the window waiting, the pass is the serial run exactly when nothing
   stops it (or it has nothing to decide): a marker or a gap in one stream fails one command
   of the serial run, while the pass leaves every accepted caller waiting.
   */
  lemma PassIsTheSerialRunIff(env: Env, reg: Deciders, u: Option<Upcaster>, maxBatch: int, table: seq<Event>,
                              rows: seq<QueueRow>, mail: Mail, io: Io)
    requires DistinctIds(rows) && FoldsByShadow(reg) && EmitsLatest(reg, u)
    requires IdsOf(WindowTodo(table, rows, maxBatch)) <= mail.waiters
    ensures var todo := WindowTodo(table, rows, maxBatch);
            AgreesWithSerial(env, reg, u, table, todo, PassOf(env, reg, u, maxBatch, table, rows, mail, io)) <==>
            todo == [] || Lands(reg, u, maxBatch, table, rows, io)
  {
    hide *;
    var todo := WindowTodo(table, rows, maxBatch);
    if Lands(reg, u, maxBatch, table, rows, io) {
      PassIsTheSerialRun(env, reg, u, maxBatch, table, rows, mail, io);
      AllWaiting(todo, mail);
      AllAgree(env, reg, u, table, todo, PassOf(env, reg, u, maxBatch, table, rows, mail, io));
    } else if todo == [] {
      NothingToDecide(env, reg, u, maxBatch, table, rows, mail, io);
    } else {
      var i := StoppedCallerWaits(env, reg, u, maxBatch, table, rows, mail, io);
      LeftWaiting(env, reg, u, table, todo, PassOf(env, reg, u, maxBatch, table, rows, mail, io), i);
    }
  }

  lemma NothingToDecide(env: Env, reg: Deciders, u: Option<Upcaster>, maxBatch: int, table: seq<Event>,
                        rows: seq<QueueRow>, mail: Mail, io: Io)
    requires WindowTodo(table, rows, maxBatch) == []
    ensures AgreesWithSerial(env, reg, u, table, [], PassOf(env, reg, u, maxBatch, table, rows, mail, io))
  {
    hide WindowTodo, AppliedIds, Marked, PendingCommands, NotApplied;
    assert WindowOf(reg, u, table, []).batch == [] && SerialOf(env, reg, u, table, []).log == table;
  }

  lemma AllWaiting(todo: seq<QueuedCommand>, mail: Mail)
    requires IdsOf(todo) <= mail.waiters
    ensures forall i :: 0 <= i < |todo| ==> todo[i].id in mail.waiters
  {
    forall i | 0 <= i < |todo|
      ensures todo[i].id in mail.waiters
    {
      assert todo[i].id in IdsOf(todo);
    }
  }

  lemma AllAgree(env: Env, reg: Deciders, u: Option<Upcaster>, table: seq<Event>, todo: seq<QueuedCommand>, pass: Pass)
    requires SameUpToStamp(pass.table, SerialOf(env, reg, u, table, todo).log)
    requires forall i :: 0 <= i < |todo| ==>
               && todo[i].id !in pass.mail.waiters && todo[i].id in pass.mail.channels
               && SameOutcome(pass.mail.channels[todo[i].id], SerialOf(env, reg, u, table, todo).outcomes[i])
    ensures AgreesWithSerial(env, reg, u, table, todo, pass)
  {
    hide SameUpToStamp, SerialOf, SameOutcome;
  }

  lemma LeftWaiting(env: Env, reg: Deciders, u: Option<Upcaster>, table: seq<Event>, todo: seq<QueuedCommand>,
                    pass: Pass, i: nat)
    requires i < |todo| && todo[i].id in pass.mail.waiters
    ensures !AgreesWithSerial(env, reg, u, table, todo, pass)
  {
    hide SameUpToStamp, SerialOf, SameOutcome;
  }

  /** A pass that is stopped leaves some caller of its window waiting. */
  lemma StoppedCallerWaits(env: Env, reg: Deciders, u: Option<Upcaster>, maxBatch: int, table: seq<Event>,
                           rows: seq<QueueRow>, mail: Mail, io: Io)
    returns (i: nat)
    requires DistinctIds(rows) && IdsOf(WindowTodo(table, rows, maxBatch)) <= mail.waiters
    requires WindowTodo(table, rows, maxBatch) != [] && !Lands(reg, u, maxBatch, table, rows, io)
    ensures i < |WindowTodo(table, rows, maxBatch)|
    ensures WindowTodo(table, rows, maxBatch)[i].id in PassOf(env, reg, u, maxBatch, table, rows, mail, io).mail.waiters
  {
    hide PassOf, WindowOf, WindowTodo, IdsOf, EntryIds, WindowOutcome, PendingCommands, Commits, Io.CutShort;
    var todo := WindowTodo(table, rows, maxBatch);
    i := 0;
    if !io.CutShort(PendingCommands(rows, maxBatch)) {
      i := BatchedCommand(reg, u, table, todo);
      TodoDistinct(table, rows, maxBatch);
      WindowSlot(reg, u, table, todo, i);
    }
    AllWaiting(todo, mail);
    WhoHearsWhat(env, reg, u, maxBatch, table, rows, mail, io, i);
  }

  /** The first entry of a batch is one of the window's commands. */
  lemma BatchedCommand(reg: Deciders, u: Option<Upcaster>, table: seq<Event>, todo: seq<QueuedCommand>) returns (i: nat)
    requires |WindowOf(reg, u, table, todo).batch| > 0
    ensures i < |todo| && todo[i].id in EntryIds(WindowOf(reg, u, table, todo).batch)
  {
    var w := WindowOf(reg, u, table, todo);
    RefusedOrBatched(reg, u, table, todo);
    assert w.batch[0].commandId in EntryIds(w.batch);
    i :| 0 <= i < |todo| && todo[i].id == w.batch[0].commandId;
  }

  // ---------------------------------------------------------------------
  // Another writer between deciding and committing
  // ---------------------------------------------------------------------

  /** The first entry of a stream expects exactly where the log stands. */
  lemma {:induction false} FirstEntryExpects(log: seq<Event>, batch: seq<DecidedCommand>, k: nat) returns (first: nat)
    requires k < |batch| && AllFit(log, batch)
    ensures first <= k && batch[first].key == batch[k].key
    ensures forall j :: 0 <= j < first ==> batch[j].key != batch[k].key
    ensures batch[first].expected == CurrentSequence(log, batch[k].key)
  {
    if j: nat :| j < k && batch[j].key == batch[k].key {
      first := FirstEntryExpects(log, batch, j);
    } else {
      first := k;
      UntouchedRunning(log, batch[..k], batch[k].key);
      assert Fits(log, batch, k);
    }
  }

  /**
   A native append to any stream of a decided batch, before it commits, makes the commit
   refuse the whole batch: the log keeps only the other writer's rows and every decided
   command still waits.
   */
  lemma ForeignAppendStopsTheBatch(env: Env, s: Sys, evts: seq<NewEvent>, k: nat, fault: bool)
    requires Inv(s) && s.phase.Deciding? && s.phase.todo == [] && k < |s.phase.batch|
    requires AllFit(s.table, s.phase.batch) && |evts| > 0 && !CarriesMarker(evts)
    requires Enabled(s, Foreign(WriteAppend(s.phase.batch[k].key, CurrentSequence(s.table, s.phase.batch[k].key), evts,
                                            false)))
    ensures var key := s.phase.batch[k].key;
            var seqNo := CurrentSequence(s.table, key);
            var s1 := After(env, s, Foreign(WriteAppend(key, seqNo, evts, false)));
            var s2 := After(env, s1, BatchProtocol.Commit(fault));
            && s1.table == s.table + RowsOf(env, NextPosition(s.table), key, seqNo, evts)
            && s2 == s1.(phase := Idle)
            && s2.rows == s.rows && s2.waiters == s.waiters && s2.delivered == s.delivered
            && EntriesWait(s2.rows, s2.table, s.phase.batch)
  {
    var batch := s.phase.batch;
    var key := batch[k].key;
    var seqNo := CurrentSequence(s.table, key);
    StepKeepsInv(env, s, Foreign(WriteAppend(key, seqNo, evts, false)));
    OvertakenBatch(env, s.table, batch, k, evts);
  }

  lemma OvertakenBatch(env: Env, table: seq<Event>, batch: seq<DecidedCommand>, k: nat, evts: seq<NewEvent>)
    requires AllFit(table, batch) && k < |batch| && |evts| > 0
    ensures var key := batch[k].key;
            var seqNo := CurrentSequence(table, key);
            !AllFit(table + RowsOf(env, NextPosition(table), key, seqNo, evts), batch)
  {
    var key := batch[k].key;
    var seqNo := CurrentSequence(table, key);
    var added := RowsOf(env, NextPosition(table), key, seqNo, evts);
    var first := FirstEntryExpects(table, batch, k);
    CurrentOfRows(env, table, NextPosition(table), key, seqNo, evts, key);
    UntouchedRunning(table + added, batch[..first], key);
    assert !Fits(table + added, batch, first);
  }
}
