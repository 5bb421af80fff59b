/**
 A batch that CommitBatch refuses is refused whole, and a decided window is replayed as it
 was: a window with a marked event, or with a command on a gapped stream, stays at the head
 of the queue, and its accepted commands stay pending, for as long as nobody else writes to
 the log.
 */
module BatchStuck {
  import opened Wrappers
  import opened EventLog
  import opened LogInvariant
  import opened EventStore
  import opened Deciding
  import opened BatchWindow
  import opened CommandQueue
  import opened BatchReplay
  import opened BatchProtocol
  import opened BatchSafety
  import opened BatchWriter
  import opened BatchPass
  import opened BatchFinal

  /** One pass: who waits, what fails, and what was queued after it read its window. */
  datatype Round = Round(mail: Mail, io: Io, more: seq<QueueRow>)

  datatype Stores = Stores(table: seq<Event>, rows: seq<QueueRow>)

  /** The log and the queue after a number of passes with nobody else writing to the log. */
  function Later(env: Env, reg: Deciders, u: Option<Upcaster>, maxBatch: int, start: Stores,
                 rounds: seq<Round>): Stores
  {
    if |rounds| == 0 then start
    else
      var before := Later(env, reg, u, maxBatch, start, rounds[..|rounds| - 1]);
      OneRound(env, reg, u, maxBatch, before, rounds[|rounds| - 1])
  }

  function OneRound(env: Env, reg: Deciders, u: Option<Upcaster>, maxBatch: int, s: Stores, r: Round): Stores {
    var pass := PassOf(env, reg, u, maxBatch, s.table, s.rows, r.mail, r.io);
    Stores(pass.table, pass.rows + r.more)
  }

  /** The batch the next pass decides. */
  function NextBatch(reg: Deciders, u: Option<Upcaster>, maxBatch: int, s: Stores): seq<DecidedCommand> {
    WindowOf(reg, u, s.table, WindowTodo(s.table, s.rows, maxBatch)).batch
  }

  predicate Waits(rows: seq<QueueRow>, id: string) {
    id in IdsOf(PendingOf(rows))
  }

  /** CommitBatch refuses the batch on this log, however often it is asked. */
  predicate Hopeless(log: seq<Event>, batch: seq<DecidedCommand>) {
    BatchCarriesMarker(batch) || !AllFit(log, batch)
  }

  /**
   Whatever fails or goes through in the passes and whatever is queued behind them, the log
   stays as it is, the same batch is decided first, and its commands wait. A pass over a
   marked batch fails; one over a batch with a gapped stream does not even do that.
   */
  lemma {:induction false} StuckForEver(env: Env, reg: Deciders, u: Option<Upcaster>, maxBatch: int, start: Stores,
                                        rounds: seq<Round>)
    requires Hopeless(start.table, NextBatch(reg, u, maxBatch, start))
    requires DistinctIds(Later(env, reg, u, maxBatch, start, rounds).rows)
    ensures var batch, s := NextBatch(reg, u, maxBatch, start), Later(env, reg, u, maxBatch, start, rounds);
            && s.table == start.table
            && batch <= NextBatch(reg, u, maxBatch, s)
            && (forall k :: 0 <= k < |batch| ==> Waits(s.rows, batch[k].commandId))
            && (forall mail, io :: PassOf(env, reg, u, maxBatch, s.table, s.rows, mail, io).failed <==>
                  io.CutShort(PendingCommands(s.rows, maxBatch)) || BatchCarriesMarker(NextBatch(reg, u, maxBatch, s)))
            && (BatchCarriesMarker(batch) ==> BatchCarriesMarker(NextBatch(reg, u, maxBatch, s)))
  {
    hide *;
    var batch, s := NextBatch(reg, u, maxBatch, start), Later(env, reg, u, maxBatch, start, rounds);
    LaterUnfolds(env, reg, u, maxBatch, start, rounds);
    if |rounds| > 0 {
      var before, r := Later(env, reg, u, maxBatch, start, rounds[..|rounds| - 1]), rounds[|rounds| - 1];
      RoundKeepsDistinct(env, reg, u, maxBatch, before, r);
      StuckForEver(env, reg, u, maxBatch, start, rounds[..|rounds| - 1]);
      HopelessStays(start.table, batch, NextBatch(reg, u, maxBatch, before));
      OneMoreRound(env, reg, u, maxBatch, before, r);
    }
    HopelessStays(start.table, batch, NextBatch(reg, u, maxBatch, s));
    BatchWaits(reg, u, maxBatch, s);
    forall mail, io
      ensures PassOf(env, reg, u, maxBatch, s.table, s.rows, mail, io).failed <==>
              io.CutShort(PendingCommands(s.rows, maxBatch)) || BatchCarriesMarker(NextBatch(reg, u, maxBatch, s))
    {
      HopelessPassFails(env, reg, u, maxBatch, s, mail, io);
    }
  }

  lemma LaterUnfolds(env: Env, reg: Deciders, u: Option<Upcaster>, maxBatch: int, start: Stores, rounds: seq<Round>)
    ensures Later(env, reg, u, maxBatch, start, rounds) ==
            if |rounds| == 0 then start
            else OneRound(env, reg, u, maxBatch, Later(env, reg, u, maxBatch, start, rounds[..|rounds| - 1]),
                          rounds[|rounds| - 1])
  {
    hide OneRound;
  }

  lemma HopelessStays(log: seq<Event>, shorter: seq<DecidedCommand>, longer: seq<DecidedCommand>)
    requires shorter <= longer && Hopeless(log, shorter)
    ensures Hopeless(log, longer) && (BatchCarriesMarker(shorter) ==> BatchCarriesMarker(longer))
  {
    if !BatchCarriesMarker(longer) {
      PrefixMarker(shorter, longer);
    }
    if AllFit(log, longer) {
      FitsPrefix(log, longer, |shorter|);
      assert longer[..|shorter|] == shorter;
    }
  }

  /** A pass marks rows and queues others behind them, whatever it does. */
  lemma RoundKeepsDistinct(env: Env, reg: Deciders, u: Option<Upcaster>, maxBatch: int, s: Stores, r: Round)
    requires DistinctIds(OneRound(env, reg, u, maxBatch, s, r).rows)
    ensures DistinctIds(s.rows)
  {
    var pass := PassOf(env, reg, u, maxBatch, s.table, s.rows, r.mail, r.io);
    PassKeepsCommands(env, reg, u, maxBatch, s, r);
    forall i, j | 0 <= i < j < |s.rows|
      ensures s.rows[i].command.id != s.rows[j].command.id
    {
      assert (pass.rows + r.more)[i] == pass.rows[i] && (pass.rows + r.more)[j] == pass.rows[j];
    }
    hide PassOf;
  }

  lemma PassKeepsCommands(env: Env, reg: Deciders, u: Option<Upcaster>, maxBatch: int, s: Stores, r: Round)
    ensures var rows := PassOf(env, reg, u, maxBatch, s.table, s.rows, r.mail, r.io).rows;
            |rows| == |s.rows| && forall i :: 0 <= i < |rows| ==> rows[i].command == s.rows[i].command
  {
    hide WindowOf, AppliedIds, RefusedIds, EntryIds, PendingCommands, NotApplied, RefusedMail, CommittedMail;
    hide InsertBatch, ResultsOf, Commits, Fails, WindowTodo;
  }

  /** The batch of a window is of commands that wait. */
  lemma BatchWaits(reg: Deciders, u: Option<Upcaster>, maxBatch: int, s: Stores)
    ensures forall k :: 0 <= k < |NextBatch(reg, u, maxBatch, s)| ==>
              Waits(s.rows, NextBatch(reg, u, maxBatch, s)[k].commandId)
  {
    var batch, window := NextBatch(reg, u, maxBatch, s), PendingCommands(s.rows, maxBatch);
    assert window <= PendingOf(s.rows);
    hide NextBatch, PendingCommands, PendingOf;
    forall k | 0 <= k < |batch|
      ensures Waits(s.rows, batch[k].commandId)
    {
      BatchInWindow(reg, u, maxBatch, s, k);
      var i :| 0 <= i < |window| && window[i].id == batch[k].commandId;
      assert PendingOf(s.rows)[i].id == batch[k].commandId;
    }
  }

  lemma HopelessPassFails(env: Env, reg: Deciders, u: Option<Upcaster>, maxBatch: int, s: Stores, mail: Mail, io: Io)
    requires Hopeless(s.table, NextBatch(reg, u, maxBatch, s))
    ensures PassOf(env, reg, u, maxBatch, s.table, s.rows, mail, io).failed <==>
            io.CutShort(PendingCommands(s.rows, maxBatch)) || BatchCarriesMarker(NextBatch(reg, u, maxBatch, s))
  {
    hide WindowOf, AppliedIds, RefusedIds, EntryIds, PendingCommands, NotApplied, RefusedMail, CommittedMail;
    hide InsertBatch, ResultsOf, Marked;
  }

  /** A pass over such a window leaves the log alone and the same batch at the head. */
  lemma OneMoreRound(env: Env, reg: Deciders, u: Option<Upcaster>, maxBatch: int, s: Stores, r: Round)
    requires DistinctIds(s.rows) && Hopeless(s.table, NextBatch(reg, u, maxBatch, s))
    ensures var s' := OneRound(env, reg, u, maxBatch, s, r);
            s'.table == s.table && NextBatch(reg, u, maxBatch, s) <= NextBatch(reg, u, maxBatch, s')
  {
    var todo := WindowTodo(s.table, s.rows, maxBatch);
    var w := WindowOf(reg, u, s.table, todo);
    assert w.batch == NextBatch(reg, u, maxBatch, s) && |w.batch| > 0 && !Commits(s.table, w.batch, r.io);
    var gone := PassMarks(env, reg, u, maxBatch, s.table, s.rows, r.mail, r.io);
    hide PassOf, WindowOf, AppliedIds, RefusedIds, PendingCommands, NotApplied, Marked;
    forall i | 0 <= i < |todo| && todo[i].id in gone
      ensures w.verdicts[i].Rejected?
    {
      if w.verdicts[i].Accepted? {
        NotSettled(reg, u, maxBatch, s.table, s.rows, i);
      }
    }
    ReplayDecidesTheSame(reg, u, s.table, s.rows, r.more, gone, maxBatch);
  }

  /**
   And there is no other way to be stuck: an accepted command of the window waits after every
   number of passes if and only if some event of its batch carries the marker or some stream
   the batch appends to has a gap.
   */
  lemma StuckIff(env: Env, reg: Deciders, u: Option<Upcaster>, maxBatch: int, start: Stores, k: nat)
    requires DistinctIds(start.rows) && k < |NextBatch(reg, u, maxBatch, start)|
    ensures var batch := NextBatch(reg, u, maxBatch, start);
            (forall rounds :: DistinctIds(Later(env, reg, u, maxBatch, start, rounds).rows) ==>
                                Waits(Later(env, reg, u, maxBatch, start, rounds).rows, batch[k].commandId))
            <==> BatchCarriesMarker(batch) || exists j :: 0 <= j < |batch| && !Ungapped(start.table, batch[j].key)
  {
    hide *;
    var batch := NextBatch(reg, u, maxBatch, start);
    HopelessIff(reg, u, maxBatch, start);
    if Hopeless(start.table, batch) {
      forall rounds | DistinctIds(Later(env, reg, u, maxBatch, start, rounds).rows)
        ensures Waits(Later(env, reg, u, maxBatch, start, rounds).rows, batch[k].commandId)
      {
        StuckForEver(env, reg, u, maxBatch, start, rounds);
      }
    } else {
      var smooth := Round(Mail({}, map[]), SMOOTH, []);
      SmoothRound(env, reg, u, maxBatch, start, smooth, k);
      LaterUnfolds(env, reg, u, maxBatch, start, [smooth]);
      LaterUnfolds(env, reg, u, maxBatch, start, []);
      assert [smooth][..0] == [];
      assert Later(env, reg, u, maxBatch, start, [smooth]) == OneRound(env, reg, u, maxBatch, start, smooth);
    }
  }

  lemma HopelessIff(reg: Deciders, u: Option<Upcaster>, maxBatch: int, s: Stores)
    ensures var batch := NextBatch(reg, u, maxBatch, s);
            Hopeless(s.table, batch) <==>
            BatchCarriesMarker(batch) || exists j :: 0 <= j < |batch| && !Ungapped(s.table, batch[j].key)
  {
    hide WindowOf, WindowTodo, AllFit, Ungapped, BatchCarriesMarker;
    FitsIffUngapped(reg, u, s.table, WindowTodo(s.table, s.rows, maxBatch));
  }

  /** With every write going through, the window leaves the queue and takes its commands along. */
  lemma SmoothRound(env: Env, reg: Deciders, u: Option<Upcaster>, maxBatch: int, s: Stores, r: Round, k: nat)
    requires DistinctIds(s.rows) && k < |NextBatch(reg, u, maxBatch, s)|
    requires !Hopeless(s.table, NextBatch(reg, u, maxBatch, s)) && r.io == SMOOTH && r.more == []
    ensures var s' := OneRound(env, reg, u, maxBatch, s, r);
            DistinctIds(s'.rows) && !Waits(s'.rows, NextBatch(reg, u, maxBatch, s)[k].commandId)
  {
    var rows' := PassOf(env, reg, u, maxBatch, s.table, s.rows, r.mail, r.io).rows;
    assert OneRound(env, reg, u, maxBatch, s, r).rows == rows';
    assert NextBatch(reg, u, maxBatch, s) == WindowOf(reg, u, s.table, WindowTodo(s.table, s.rows, maxBatch)).batch;
    assert !BatchCarriesMarker(NextBatch(reg, u, maxBatch, s)) && AllFit(s.table, NextBatch(reg, u, maxBatch, s));
    hide *;
    PassClearsTheWindow(env, reg, u, maxBatch, s.table, s.rows, r.mail);
    PassKeepsCommands(env, reg, u, maxBatch, s, r);
    SameCommandsDistinct(s.rows, rows');
    BatchInWindow(reg, u, maxBatch, s, k);
    BehindTheWindow(s.rows, rows', maxBatch, NextBatch(reg, u, maxBatch, s)[k].commandId);
  }

  // ---------------------------------------------------------------------
  // A gap is enough
  // ---------------------------------------------------------------------

  /** A command on the stream of an imported event, queued after the import. */
  function Behind(env: Env, e: Event): Stores {
    Stores([ImportedRow(1, e)], [QueueRow(QueuedCommand("cmd", Key(e), "open", "", Some(map[]), 1), false)])
  }

  /**
   One imported event whose sequence is not 1, and one command behind it that is accepted,
   without any marker: the command waits for ever, and no pass fails for it.
   */
  lemma GapSticks(env: Env, e: Event, rounds: seq<Round>)
    requires e.sequence != 1
    requires DistinctIds(Later(env, Eager(e.aggregate), None, 256, Behind(env, e), rounds).rows)
    ensures ImportTo([], [e]) == Success(Behind(env, e).table)
    ensures NextBatch(Eager(e.aggregate), None, 256, Behind(env, e)) ==
            [DecidedCommand("cmd", Key(e), 1, [HAPPENED])]
    ensures !BatchCarriesMarker(NextBatch(Eager(e.aggregate), None, 256, Behind(env, e)))
    ensures Waits(Later(env, Eager(e.aggregate), None, 256, Behind(env, e), rounds).rows, "cmd")
  {
    var start, batch := Behind(env, e), [DecidedCommand("cmd", Key(e), 1, [HAPPENED])];
    ImportedGap(env, e);
    GappedBatch(env, e);
    assert !BatchCarriesMarker(batch);
    hide *;
    assert batch[0].commandId == "cmd";
    StuckForEver(env, Eager(e.aggregate), None, 256, start, rounds);
  }

  lemma ImportedGap(env: Env, e: Event)
    requires e.sequence != 1
    ensures var table := Behind(env, e).table;
            && ImportTo([], [e]) == Success(table)
            && StreamOf(table, Key(e)) == table && !Ungapped(table, Key(e))
            && !AllFit(table, [DecidedCommand("cmd", Key(e), 1, [HAPPENED])])
  {
    var table, batch := Behind(env, e).table, [DecidedCommand("cmd", Key(e), 1, [HAPPENED])];
    ImportsAlone(e);
    BehindOne(env, e);
    hide *;
    OneRowOfIts(table[0]);
    FirstMisfit(table, batch);
    Gapped(table, Key(e));
  }

  lemma BehindOne(env: Env, e: Event)
    ensures var table := Behind(env, e).table;
            |table| == 1 && table == [table[0]] && table == [ImportedRow(1, e)]
            && Key(table[0]) == Key(e) && table[0].sequence == e.sequence
  {
  }

  lemma ImportsAlone(e: Event)
    ensures ImportTo([], [e]) == Success([ImportedRow(1, e)])
  {
    assert ImportedRows(1, [e]) == [ImportedRow(1, e)] && [] + [ImportedRow(1, e)] == [ImportedRow(1, e)];
  }

  lemma Gapped(log: seq<Event>, key: StreamKey)
    requires CurrentSequence(log, key) != |StreamOf(log, key)|
    ensures !Ungapped(log, key)
  {
  }

  lemma OneRowOfIts(row: Event)
    ensures StreamOf([row], Key(row)) == [row] && CurrentSequence([row], Key(row)) == row.sequence
  {
    assert [row][..0] == [];
    assert CurrentSequence([], Key(row)) == 0;
    StreamOfUniform([row], Key(row), Key(row));
  }

  /** An entry that does not expect what its stream stands at does not fit. */
  lemma FirstMisfit(table: seq<Event>, batch: seq<DecidedCommand>)
    requires |batch| > 0 && CurrentSequence(table, batch[0].key) != batch[0].expected
    ensures !AllFit(table, batch)
  {
    assert batch[..0] == [];
    assert !Fits(table, batch, 0);
  }

  lemma GappedBatch(env: Env, e: Event)
    requires e.sequence != 1
    ensures NextBatch(Eager(e.aggregate), None, 256, Behind(env, e)) == [DecidedCommand("cmd", Key(e), 1, [HAPPENED])]
    ensures Hopeless(Behind(env, e).table, NextBatch(Eager(e.aggregate), None, 256, Behind(env, e)))
  {
    var start := Behind(env, e);
    var qc := start.rows[0].command;
    assert NextBatch(Eager(e.aggregate), None, 256, start) ==
           WindowOf(Eager(e.aggregate), None, start.table, WindowTodo(start.table, start.rows, 256)).batch;
    assert Merged([HAPPENED], map[]) == [HAPPENED];
    hide Eager, OverlayLoad, DecideQueued, StreamOf, Merged, AllFit, WindowTodo, WindowOf, NextBatch, Ungapped;
    ImportedGap(env, e);
    OneQueued(start, qc);
    EagerDecides(start.table, qc);
    OneDecided(Eager(e.aggregate), None, start.table, qc);
  }

  /** A window of one command. */
  lemma OneDecided(reg: Deciders, u: Option<Upcaster>, log: seq<Event>, qc: QueuedCommand)
    ensures var decision := DecideQueued(reg, OverlayLoad(log, u, map[], qc.key), qc);
            WindowOf(reg, u, log, [qc]).batch ==
            if decision.Failure? then []
            else [DecidedCommand(qc.id, qc.key, decision.value.expected, decision.value.newEvents)]
  {
    assert [qc][..0] == [] && WindowOf(reg, u, log, []) == Window(map[], [], []);
    hide OverlayLoad, DecideQueued, Recorded;
    assert WindowOf(reg, u, log, [qc]) == WindowStep(reg, u, log, Window(map[], [], []), qc);
  }

  lemma OneQueued(s: Stores, qc: QueuedCommand)
    requires s.rows == [QueueRow(qc, false)] && |s.table| == 1 && s.table[0].position <= qc.enqueuedAt
    ensures WindowTodo(s.table, s.rows, 256) == [qc]
  {
    assert s.rows[..0] == [] && [] + [qc] == [qc] && [qc][..0] == [];
    assert PendingOf([]) == [] && PendingOf(s.rows) == [qc] && PendingCommands(s.rows, 256) == [qc];
    assert NotApplied(s.table, []) == [];
    assert !Applied(s.table, qc.key, qc.id, qc.enqueuedAt);
    assert NotApplied(s.table, [qc]) == [qc];
  }

  lemma SameCommandsDistinct(rows: seq<QueueRow>, rows': seq<QueueRow>)
    requires DistinctIds(rows) && |rows'| == |rows| && forall i :: 0 <= i < |rows| ==>
             rows'[i].command == rows[i].command
    ensures DistinctIds(rows')
  {
  }

  lemma BatchInWindow(reg: Deciders, u: Option<Upcaster>, maxBatch: int, s: Stores, k: nat)
    requires k < |NextBatch(reg, u, maxBatch, s)|
    ensures NextBatch(reg, u, maxBatch, s)[k].commandId in IdsOf(PendingCommands(s.rows, maxBatch))
  {
    var batch := NextBatch(reg, u, maxBatch, s);
    assert batch == WindowOf(reg, u, s.table, WindowTodo(s.table, s.rows, maxBatch)).batch;
    GroupsMakeTheWindow(reg, u, maxBatch, s.table, s.rows);
    hide WindowOf, WindowTodo, PendingCommands, AppliedIds, RefusedIds, NextBatch;
    assert batch[k].commandId in EntryIds(batch);
  }

  lemma BehindTheWindow(rows: seq<QueueRow>, rows': seq<QueueRow>, maxBatch: int, id: string)
    requires DistinctIds(rows) && id in IdsOf(PendingCommands(rows, maxBatch))
    requires PendingOf(rows') == PendingOf(rows)[|PendingCommands(rows, maxBatch)|..]
    ensures !Waits(rows', id)
  {
    var window, all := PendingCommands(rows, maxBatch), PendingOf(rows);
    assert window == all[..|window|];
    PendingAreRows(rows);
    hide PendingOf, PendingCommands, IdsOf;
    RestApart(all, |window|);
  }
}
