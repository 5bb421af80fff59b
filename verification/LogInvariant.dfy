/**
 The log invariant: positions strictly increase, and each stream's sequences are exactly
 1..n in position order. It is kept by every native write whatever the callers expect, and
 by an import exactly when the imported batch is itself contiguous per stream.
 */
module LogInvariant {
  import opened Wrappers
  import opened EventLog

  predicate Increasing(log: seq<Event>) {
    forall i, j :: 0 <= i < j < |log| ==> log[i].position < log[j].position
  }

  predicate NthInStream(log: seq<Event>, i: nat)
    requires i < |log|
  {
    log[i].sequence == |StreamOf(log[..i], Key(log[i]))| + 1
  }

  predicate Contiguous(log: seq<Event>) {
    forall i :: 0 <= i < |log| ==> NthInStream(log, i)
  }

  predicate LogOk(log: seq<Event>) {
    Increasing(log) && Contiguous(log)
  }

  // ---------------------------------------------------------------------
  // Streams and concatenation
  // ---------------------------------------------------------------------

  lemma {:induction false} StreamOfConcat(log: seq<Event>, rows: seq<Event>, key: StreamKey)
    ensures StreamOf(log + rows, key) == StreamOf(log, key) + StreamOf(rows, key)
  {
    if |rows| == 0 {
      assert log + rows == log;
    } else {
      assert (log + rows)[..|log + rows| - 1] == log + rows[..|rows| - 1];
      StreamOfConcat(log, rows[..|rows| - 1], key);
    }
  }

  lemma {:induction false} StreamOfUniform(rows: seq<Event>, owner: StreamKey, key: StreamKey)
    requires forall i :: 0 <= i < |rows| ==> Key(rows[i]) == owner
    ensures StreamOf(rows, key) == if owner == key then rows else []
  {
    if |rows| > 0 {
      StreamOfUniform(rows[..|rows| - 1], owner, key);
      assert rows == rows[..|rows| - 1] + [rows[|rows| - 1]];
    }
  }

  lemma {:induction false} CurrentSequenceBounds(log: seq<Event>, key: StreamKey)
    ensures forall i :: 0 <= i < |log| && Key(log[i]) == key ==> log[i].sequence <= CurrentSequence(log, key)
  {
    if |log| > 0 {
      var front := log[..|log| - 1];
      CurrentSequenceBounds(front, key);
      forall i | 0 <= i < |log| && Key(log[i]) == key
        ensures log[i].sequence <= CurrentSequence(log, key)
      {
        if i < |log| - 1 {
          assert front[i] == log[i];
        }
      }
    }
  }

  lemma ContiguousPrefix(log: seq<Event>, n: nat)
    requires n <= |log| && Contiguous(log)
    ensures Contiguous(log[..n])
  {
    forall i | 0 <= i < n
      ensures NthInStream(log[..n], i)
    {
      assert NthInStream(log, i);
      assert log[..n][..i] == log[..i];
    }
  }

  /** On a contiguous log, MAX(sequence) is the stream's length: the two ways of counting agree. */
  lemma {:induction false} CurrentIsLength(log: seq<Event>, key: StreamKey)
    requires Contiguous(log)
    ensures CurrentSequence(log, key) == |StreamOf(log, key)|
  {
    if |log| > 0 {
      ContiguousPrefix(log, |log| - 1);
      CurrentIsLength(log[..|log| - 1], key);
      assert NthInStream(log, |log| - 1);
    }
  }

  /** Each stream's sequences are exactly 1, 2, ..., n in position order. */
  lemma {:induction false} StreamSequences(log: seq<Event>, key: StreamKey)
    requires Contiguous(log)
    ensures forall k :: 0 <= k < |StreamOf(log, key)| ==> StreamOf(log, key)[k].sequence == k + 1
  {
    if |log| > 0 {
      ContiguousPrefix(log, |log| - 1);
      StreamSequences(log[..|log| - 1], key);
      assert NthInStream(log, |log| - 1);
    }
  }

  lemma {:induction false} OrderOfOrdered(rows: seq<Event>)
    requires forall k :: 0 <= k < |rows| ==> rows[k].sequence == k + 1
    ensures OrderBySequence(rows) == rows
  {
    if |rows| > 0 {
      var front, last := rows[..|rows| - 1], rows[|rows| - 1];
      OrderOfOrdered(front);
      assert InsertBySequence(front, last) == front + [last];
      assert rows == front + [last];
    }
  }

  /** So ORDER BY sequence and position order are the same order. */
  lemma LoadIsStream(log: seq<Event>, key: StreamKey)
    requires Contiguous(log)
    ensures LoadRows(log, key) == StreamOf(log, key)
  {
    StreamSequences(log, key);
    OrderOfOrdered(StreamOf(log, key));
  }

  // ---------------------------------------------------------------------
  // Ordering by sequence, gaps or not
  // ---------------------------------------------------------------------

  predicate UpToSequence(rows: seq<Event>, n: nat) {
    forall k :: 0 <= k < |rows| ==> rows[k].sequence <= n
  }

  lemma {:induction false} StreamUpToCurrent(log: seq<Event>, key: StreamKey)
    ensures UpToSequence(StreamOf(log, key), CurrentSequence(log, key))
  {
    if |log| > 0 {
      StreamUpToCurrent(log[..|log| - 1], key);
    }
  }

  lemma {:induction false} InsertedFacts(sorted: seq<Event>, e: Event, n: nat)
    ensures |InsertBySequence(sorted, e)| == |sorted| + 1
    ensures UpToSequence(sorted, n) && e.sequence <= n ==> UpToSequence(InsertBySequence(sorted, e), n)
  {
    if |sorted| > 0 && sorted[|sorted| - 1].sequence > e.sequence {
      InsertedFacts(sorted[..|sorted| - 1], e, n);
    }
  }

  lemma {:induction false} OrderedFacts(rows: seq<Event>, n: nat)
    ensures |OrderBySequence(rows)| == |rows|
    ensures UpToSequence(rows, n) ==> UpToSequence(OrderBySequence(rows), n)
  {
    if |rows| > 0 {
      OrderedFacts(rows[..|rows| - 1], n);
      InsertedFacts(OrderBySequence(rows[..|rows| - 1]), rows[|rows| - 1], n);
    }
  }

  /** A row above everything there sorts last. */
  lemma OrderAppendsOne(xs: seq<Event>, e: Event)
    requires UpToSequence(xs, e.sequence)
    ensures OrderBySequence(xs + [e]) == OrderBySequence(xs) + [e]
  {
    assert (xs + [e])[..|xs + [e]| - 1] == xs;
    OrderedFacts(xs, e.sequence);
  }

  lemma {:induction false} OrderAppends(xs: seq<Event>, rows: seq<Event>, base: nat)
    requires UpToSequence(xs, base) && forall j :: 0 <= j < |rows| ==> rows[j].sequence == base + j + 1
    ensures OrderBySequence(xs + rows) == OrderBySequence(xs) + rows
  {
    hide OrderBySequence;
    if |rows| == 0 {
      assert xs + rows == xs && rows == [];
    } else {
      var n := |rows| - 1;
      OrderAppends(xs, rows[..n], base);
      OrderAppendsOne(xs + rows[..n], rows[n]);
      assert rows == rows[..n] + [rows[n]];
      assert xs + rows == xs + rows[..n] + [rows[n]];
    }
  }

  /** What is appended at a stream's MAX is read last, whatever gaps there are below it. */
  lemma LoadOfRows(env: Env, log: seq<Event>, next: nat, owner: StreamKey, base: nat, evts: seq<NewEvent>,
                   key: StreamKey)
    requires CurrentSequence(log, owner) == base
    ensures var rows := RowsOf(env, next, owner, base, evts);
            LoadRows(log + rows, key) == LoadRows(log, key) + StreamOf(rows, key)
  {
    hide StreamOf, OrderBySequence, CurrentSequence;
    var rows := RowsOf(env, next, owner, base, evts);
    StreamOfConcat(log, rows, key);
    RowsOfFacts(env, next, owner, base, evts, key);
    if key == owner {
      StreamUpToCurrent(log, key);
      OrderAppends(StreamOf(log, key), rows, base);
    } else {
      assert StreamOf(log, key) + [] == StreamOf(log, key);
      assert LoadRows(log, key) + [] == LoadRows(log, key);
    }
  }

  // ---------------------------------------------------------------------
  // What extending the table does to the invariant
  // ---------------------------------------------------------------------

  lemma IncreasingConcat(log: seq<Event>, rows: seq<Event>)
    requires Increasing(log)
    requires forall j :: 0 <= j < |rows| ==> rows[j].position == NextPosition(log) + j
    ensures Increasing(log + rows)
  {
  }

  lemma ConcatContiguous(log: seq<Event>, rows: seq<Event>)
    requires Contiguous(log)
    requires forall j :: 0 <= j < |rows| ==>
               rows[j].sequence == |StreamOf(log, Key(rows[j]))| + |StreamOf(rows[..j], Key(rows[j]))| + 1
    ensures Contiguous(log + rows)
  {
    var all := log + rows;
    forall i | 0 <= i < |all|
      ensures NthInStream(all, i)
    {
      if i < |log| {
        assert NthInStream(log, i);
        assert all[..i] == log[..i];
      } else {
        var j := i - |log|;
        assert all[i] == rows[j];
        assert all[..i] == log + rows[..j];
        StreamOfConcat(log, rows[..j], Key(rows[j]));
      }
    }
  }

  lemma RowsOfFacts(env: Env, next: nat, key: StreamKey, base: nat, evts: seq<NewEvent>, owner: StreamKey)
    ensures forall j :: 0 <= j < |evts| ==> Key(RowsOf(env, next, key, base, evts)[j]) == key
    ensures StreamOf(RowsOf(env, next, key, base, evts), owner) ==
            if key == owner then RowsOf(env, next, key, base, evts) else []
  {
    StreamOfUniform(RowsOf(env, next, key, base, evts), key, owner);
  }

  /** Inserting a list of events at a stream's own length keeps the invariant. */
  lemma InsertKeepsLogOk(env: Env, log: seq<Event>, key: StreamKey, base: nat, evts: seq<NewEvent>)
    requires LogOk(log) && base == |StreamOf(log, key)|
    ensures LogOk(log + RowsOf(env, NextPosition(log), key, base, evts))
  {
    hide StreamOf, NextPosition;
    var rows := RowsOf(env, NextPosition(log), key, base, evts);
    IncreasingConcat(log, rows);
    forall j | 0 <= j < |rows|
      ensures rows[j].sequence == |StreamOf(log, Key(rows[j]))| + |StreamOf(rows[..j], Key(rows[j]))| + 1
    {
      StreamOfUniform(rows[..j], key, key);
    }
    ConcatContiguous(log, rows);
  }

  lemma AppendKeepsLogOk(env: Env, log: seq<Event>, key: StreamKey, expected: nat, evts: seq<NewEvent>)
    requires LogOk(log)
    ensures var r := AppendTo(env, log, key, expected, evts);
            r.Success? ==> LogOk(r.value) && log <= r.value
  {
    CurrentIsLength(log, key);
    if AppendTo(env, log, key, expected, evts).Success? && |evts| > 0 {
      InsertKeepsLogOk(env, log, key, expected, evts);
    }
  }

  // ---------------------------------------------------------------------
  // Batches
  // ---------------------------------------------------------------------

  lemma FitsPrefix(log: seq<Event>, batch: seq<DecidedCommand>, n: nat)
    requires n <= |batch| && AllFit(log, batch)
    ensures AllFit(log, batch[..n])
  {
    forall i | 0 <= i < n
      ensures Fits(log, batch[..n], i)
    {
      assert Fits(log, batch, i);
      assert batch[..n][..i] == batch[..i];
    }
  }

  /**
   A batch that passes validation leaves every stream where the running check said it
   would be, keeps the invariant, and only adds rows.
   */
  lemma {:induction false} InsertBatchKeepsLogOk(env: Env, log: seq<Event>, batch: seq<DecidedCommand>)
    requires LogOk(log) && AllFit(log, batch)
    ensures LogOk(InsertBatch(env, log, batch)) && log <= InsertBatch(env, log, batch)
    ensures forall key :: RunningSequence(log, batch, key) == |StreamOf(InsertBatch(env, log, batch), key)|
  {
    if |batch| == 0 {
      forall key ensures CurrentSequence(log, key) == |StreamOf(log, key)| { CurrentIsLength(log, key); }
    } else {
      var n := |batch| - 1;
      var front, dc := batch[..n], batch[n];
      FitsPrefix(log, batch, n);
      InsertBatchKeepsLogOk(env, log, front);
      var before := InsertBatch(env, log, front);
      assert Fits(log, batch, n);
      var rows := BlockRows(env, before, dc);
      InsertKeepsLogOk(env, before, dc.key, dc.expected, Stamped(dc.newEvents, dc.commandId));
      forall key
        ensures RunningSequence(log, batch, key) == |StreamOf(before + rows, key)|
      {
        StreamOfConcat(before, rows, key);
        RowsOfFacts(env, NextPosition(before), dc.key, dc.expected, Stamped(dc.newEvents, dc.commandId), key);
      }
    }
  }

  /** Rows appended at a stream's MAX move it by their number and move no other stream, gapped or not. */
  lemma {:induction false} CurrentOfRows(env: Env, log: seq<Event>, next: nat, owner: StreamKey, base: nat,
                                         evts: seq<NewEvent>, key: StreamKey)
    requires CurrentSequence(log, owner) == base
    ensures CurrentSequence(log + RowsOf(env, next, owner, base, evts), key) ==
            if key == owner then base + |evts| else CurrentSequence(log, key)
  {
    var rows := RowsOf(env, next, owner, base, evts);
    if |evts| == 0 {
      assert log + rows == log;
    } else {
      var n := |evts| - 1;
      var front := RowsOf(env, next, owner, base, evts[..n]);
      assert rows[..n] == front;
      assert (log + rows)[..|log + rows| - 1] == log + front;
      CurrentOfRows(env, log, next, owner, base, evts[..n], key);
    }
  }

  /** A batch that passes validation leaves every stream where the running check said it would be. */
  lemma {:induction false} RunsToCurrent(env: Env, log: seq<Event>, batch: seq<DecidedCommand>, key: StreamKey)
    requires AllFit(log, batch)
    ensures CurrentSequence(InsertBatch(env, log, batch), key) == RunningSequence(log, batch, key)
  {
    if |batch| > 0 {
      var n := |batch| - 1;
      var before, dc := InsertBatch(env, log, batch[..n]), batch[n];
      FitsPrefix(log, batch, n);
      assert Fits(log, batch, n);
      RunsToCurrent(env, log, batch[..n], key);
      RunsToCurrent(env, log, batch[..n], dc.key);
      CurrentOfRows(env, before, NextPosition(before), dc.key, dc.expected, Stamped(dc.newEvents, dc.commandId), key);
    }
  }

  lemma {:induction false} UntouchedRunning(log: seq<Event>, batch: seq<DecidedCommand>, key: StreamKey)
    requires forall k :: 0 <= k < |batch| ==> batch[k].key != key
    ensures RunningSequence(log, batch, key) == CurrentSequence(log, key)
  {
    if |batch| > 0 {
      UntouchedRunning(log, batch[..|batch| - 1], key);
    }
  }

  /** Performing a batch's appends one by one, each stamped with its command's id. */
  function AppendEach(env: Env, log: seq<Event>, batch: seq<DecidedCommand>): Result<seq<Event>, Error> {
    if |batch| == 0 then Success(log)
    else
      var before := AppendEach(env, log, batch[..|batch| - 1]);
      var dc := batch[|batch| - 1];
      if before.Failure? then before
      else AppendTo(env, before.value, dc.key, dc.expected, Stamped(dc.newEvents, dc.commandId))
  }

  lemma StampedMarker(evts: seq<NewEvent>, id: string)
    ensures CarriesMarker(Stamped(evts, id)) == CarriesMarker(evts)
  {
    var out := Stamped(evts, id);
    if CarriesMarker(evts) {
      var j :| 0 <= j < |evts| && IMPORTED in evts[j].metadata;
      assert IMPORTED in out[j].metadata;
    }
    if CarriesMarker(out) {
      var j :| 0 <= j < |out| && IMPORTED in out[j].metadata;
      assert IMPORTED in evts[j].metadata;
    }
  }

  lemma FitsOfFront(log: seq<Event>, batch: seq<DecidedCommand>, i: nat)
    requires i < |batch| - 1
    ensures Fits(log, batch[..|batch| - 1], i) == Fits(log, batch, i)
  {
    assert batch[..|batch| - 1][..i] == batch[..i];
  }

  lemma AllFitOfFront(log: seq<Event>, batch: seq<DecidedCommand>)
    requires |batch| > 0
    ensures AllFit(log, batch) <==> AllFit(log, batch[..|batch| - 1]) && Fits(log, batch, |batch| - 1)
  {
    forall i | 0 <= i < |batch| - 1
      ensures Fits(log, batch[..|batch| - 1], i) == Fits(log, batch, i)
    {
      FitsOfFront(log, batch, i);
    }
    if AllFit(log, batch) {
      FitsPrefix(log, batch, |batch| - 1);
    } else if AllFit(log, batch[..|batch| - 1]) {
      var i :| 0 <= i < |batch| && !Fits(log, batch, i);
      assert i == |batch| - 1;
    }
  }

  /** A command that decided nothing still has to name where its stream stands. */
  predicate EmptyOnesFit(log: seq<Event>, batch: seq<DecidedCommand>) {
    forall i :: 0 <= i < |batch| && |batch[i].newEvents| == 0 ==> Fits(log, batch, i)
  }

  lemma EmptyOnesFitOfFront(log: seq<Event>, batch: seq<DecidedCommand>)
    requires |batch| > 0
    ensures EmptyOnesFit(log, batch) <==> (
              && EmptyOnesFit(log, batch[..|batch| - 1])
              && (|batch[|batch| - 1].newEvents| == 0 ==> Fits(log, batch, |batch| - 1)))
  {
    var front := batch[..|batch| - 1];
    forall i | 0 <= i < |front|
      ensures Fits(log, front, i) == Fits(log, batch, i)
    {
      FitsOfFront(log, batch, i);
    }
    if EmptyOnesFit(log, batch) {
      forall i | 0 <= i < |front| && |front[i].newEvents| == 0
        ensures Fits(log, front, i)
      {
        assert Fits(log, batch, i);
      }
    }
  }

  /** The last append of a batch whose front is already in succeeds exactly when it fits. */
  lemma LastAppend(env: Env, log: seq<Event>, batch: seq<DecidedCommand>)
    requires |batch| > 0 && !CarriesMarker(batch[|batch| - 1].newEvents) && AllFit(log, batch[..|batch| - 1])
    ensures var before, dc := InsertBatch(env, log, batch[..|batch| - 1]), batch[|batch| - 1];
            var r := AppendTo(env, before, dc.key, dc.expected, Stamped(dc.newEvents, dc.commandId));
            && (r.Success? <==> Fits(log, batch, |batch| - 1) || |dc.newEvents| == 0)
            && (Fits(log, batch, |batch| - 1) ==> r == Success(InsertBatch(env, log, batch)))
  {
    var dc := batch[|batch| - 1];
    var before := InsertBatch(env, log, batch[..|batch| - 1]);
    RunsToCurrent(env, log, batch[..|batch| - 1], dc.key);
    StampedMarker(dc.newEvents, dc.commandId);
    assert before + [] == before;
  }

  /**
   CommitBatch is its appends in order: on any log, gapped or not, the batch validates exactly
   when every append would succeed in turn and every command that decided no events still
   names where its stream stands (Append skips that check, CommitBatch does not); and then
   both leave the same table.
   */
  lemma {:induction false} BatchIsItsAppends(env: Env, log: seq<Event>, batch: seq<DecidedCommand>)
    requires !BatchCarriesMarker(batch)
    ensures AllFit(log, batch) <==> AppendEach(env, log, batch).Success? && EmptyOnesFit(log, batch)
    ensures AllFit(log, batch) ==> AppendEach(env, log, batch) == Success(InsertBatch(env, log, batch))
  {
    if |batch| > 0 {
      var front := batch[..|batch| - 1];
      assert !BatchCarriesMarker(front) && !CarriesMarker(batch[|batch| - 1].newEvents);
      BatchIsItsAppends(env, log, front);
      AllFitOfFront(log, batch);
      EmptyOnesFitOfFront(log, batch);
      if AllFit(log, front) {
        LastAppend(env, log, batch);
      }
    }
  }

  // ---------------------------------------------------------------------
  // Imports
  // ---------------------------------------------------------------------

  lemma {:induction false} ImportedStreamLength(next: nat, evts: seq<Event>, n: nat, key: StreamKey)
    requires n <= |evts|
    ensures |StreamOf(ImportedRows(next, evts)[..n], key)| == |StreamOf(evts[..n], key)|
  {
    if n > 0 {
      var rows := ImportedRows(next, evts);
      assert rows[..n][..n - 1] == rows[..n - 1] && evts[..n][..n - 1] == evts[..n - 1];
      assert rows[..n][n - 1] == ImportedRow(next + (n - 1), evts[n - 1]) && evts[..n][n - 1] == evts[n - 1];
      ImportedStreamLength(next, evts, n - 1, key);
    }
  }

  lemma {:induction false} NewAggregateNewStream(log: seq<Event>, key: StreamKey)
    requires forall i :: 0 <= i < |log| ==> log[i].aggregate != key.0
    ensures StreamOf(log, key) == []
  {
    if |log| > 0 {
      NewAggregateNewStream(log[..|log| - 1], key);
    }
  }

  lemma ExtensionNth(log: seq<Event>, next: nat, evts: seq<Event>, j: nat)
    requires j < |evts| && !Collides(log, evts)
    ensures NthInStream(log + ImportedRows(next, evts), |log| + j) <==> NthInStream(evts, j)
  {
    var rows := ImportedRows(next, evts);
    var all := log + rows;
    var key := Key(evts[j]);
    assert all[|log| + j] == rows[j] == ImportedRow(next + j, evts[j]);
    assert all[..|log| + j] == log + rows[..j];
    StreamOfConcat(log, rows[..j], key);
    ImportedStreamLength(next, evts, j, key);
    NewAggregateNewStream(log, key);
  }

  /**
   The import does not look at sequences, so it keeps the invariant if and only if the
   batch's own sequences are 1..n per stream in the order given.
   */
  lemma ImportKeepsLogOkIff(log: seq<Event>, evts: seq<Event>)
    requires LogOk(log) && ImportTo(log, evts).Success?
    ensures LogOk(ImportTo(log, evts).value) <==> Contiguous(evts)
    ensures Increasing(ImportTo(log, evts).value) && log <= ImportTo(log, evts).value
  {
    if |evts| > 0 {
      var rows := ImportedRows(NextPosition(log), evts);
      var all := log + rows;
      IncreasingConcat(log, rows);
      forall j | 0 <= j < |evts|
        ensures NthInStream(all, |log| + j) <==> NthInStream(evts, j)
      {
        ExtensionNth(log, NextPosition(log), evts, j);
      }
      forall i | 0 <= i < |log|
        ensures NthInStream(all, i)
      {
        assert NthInStream(log, i);
        assert all[..i] == log[..i];
      }
      if Contiguous(evts) {
        forall i | 0 <= i < |all|
          ensures NthInStream(all, i)
        {
          if i >= |log| {
            assert NthInStream(evts, i - |log|);
            assert NthInStream(all, |log| + (i - |log|));
          }
        }
      } else {
        var j :| 0 <= j < |evts| && !NthInStream(evts, j);
        assert !NthInStream(all, |log| + j);
      }
    }
  }

  // ---------------------------------------------------------------------
  // Every interleaving of writers
  // ---------------------------------------------------------------------

  /** One call of a writer; rolledBack stands for a transaction that did not commit. */
  datatype Write =
    | WriteAppend(key: StreamKey, expected: nat, evts: seq<NewEvent>, rolledBack: bool)
    | WriteBatch(batch: seq<DecidedCommand>, rolledBack: bool)
    | WriteImport(rows: seq<Event>, rolledBack: bool)

  function AfterWrite(env: Env, log: seq<Event>, w: Write): seq<Event> {
    if w.rolledBack then log
    else
      match w
      case WriteAppend(key, expected, evts, _) =>
        var r := AppendTo(env, log, key, expected, evts);
        if r.Success? then r.value else log
      case WriteBatch(batch, _) =>
        if BatchCarriesMarker(batch) || !AllFit(log, batch) then log else InsertBatch(env, log, batch)
      case WriteImport(rows, _) =>
        var r := ImportTo(log, rows);
        if r.Success? then r.value else log
  }

  function AfterWrites(env: Env, log: seq<Event>, ws: seq<Write>): seq<Event> {
    if |ws| == 0 then log else AfterWrite(env, AfterWrites(env, log, ws[..|ws| - 1]), ws[|ws| - 1])
  }

  /** An import that went through although its batch is not contiguous per stream. */
  predicate GappedImport(env: Env, log: seq<Event>, ws: seq<Write>, i: nat)
    requires i < |ws|
  {
    && ws[i].WriteImport? && !ws[i].rolledBack
    && ImportTo(AfterWrites(env, log, ws[..i]), ws[i].rows).Success?
    && !Contiguous(ws[i].rows)
  }

  lemma WriteKeepsLogOk(env: Env, log: seq<Event>, w: Write)
    requires LogOk(log)
    ensures log <= AfterWrite(env, log, w)
    ensures LogOk(AfterWrite(env, log, w)) <==>
            !(w.WriteImport? && !w.rolledBack && ImportTo(log, w.rows).Success? && !Contiguous(w.rows))
  {
    if !w.rolledBack {
      match w
      case WriteAppend(key, expected, evts, _) => AppendKeepsLogOk(env, log, key, expected, evts);
      case WriteBatch(batch, _) => if AllFit(log, batch) { InsertBatchKeepsLogOk(env, log, batch); }
      case WriteImport(rows, _) => if ImportTo(log, rows).Success? { ImportKeepsLogOkIff(log, rows); }
    }
  }

  lemma {:induction false} InsertBatchOnlyAdds(env: Env, log: seq<Event>, batch: seq<DecidedCommand>)
    ensures log <= InsertBatch(env, log, batch)
  {
    if |batch| > 0 {
      InsertBatchOnlyAdds(env, log, batch[..|batch| - 1]);
    }
  }

  lemma WriteOnlyAdds(env: Env, log: seq<Event>, w: Write)
    ensures log <= AfterWrite(env, log, w)
  {
    if w.WriteBatch? {
      InsertBatchOnlyAdds(env, log, w.batch);
    }
  }

  /**
   Over every interleaving of appends, batches and imports, committed or rolled back: the
   rows there are never touched, and the invariant holds at the end if and only if no
   import along the way brought in a gap. Once broken it stays broken.
   */
  lemma {:induction false} LogOkOverEveryRun(env: Env, log: seq<Event>, ws: seq<Write>)
    requires LogOk(log)
    ensures log <= AfterWrites(env, log, ws)
    ensures LogOk(AfterWrites(env, log, ws)) <==> forall i :: 0 <= i < |ws| ==> !GappedImport(env, log, ws, i)
  {
    if |ws| > 0 {
      var n := |ws| - 1;
      var front := ws[..n];
      LogOkOverEveryRun(env, log, front);
      forall i | 0 <= i < n
        ensures GappedImport(env, log, front, i) == GappedImport(env, log, ws, i)
      {
        assert front[..i] == ws[..i];
      }
      var before := AfterWrites(env, log, front);
      var after := AfterWrites(env, log, ws);
      WriteOnlyAdds(env, before, ws[n]);
      assert ws[..n] == front;
      if LogOk(before) {
        WriteKeepsLogOk(env, before, ws[n]);
        assert GappedImport(env, log, ws, n) <==> !LogOk(after);
      } else {
        assert after[..|before|] == before;
        if Contiguous(after) {
          ContiguousPrefix(after, |before|);
        }
      }
    }
  }
}
