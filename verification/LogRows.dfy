/**
 What a row of the log holds, field by field: of an event appended, of one committed in a
 batch, and of one imported.
 */
module LogRows {
  import opened Wrappers
  import opened EventLog
  import opened LogInvariant

  /**
   An append adds one row per event, in order: the event's own kind, data and metadata, in
   the stream, at the next sequences and the next positions, with the id and the time drawn
   for its position, at the version given or 1 when none was.
   */
  lemma AppendedRowsHold(env: Env, log: seq<Event>, key: StreamKey, expected: nat, evts: seq<NewEvent>)
    requires AppendTo(env, log, key, expected, evts).Success?
    ensures var after := AppendTo(env, log, key, expected, evts).value;
            && log <= after && |after| == |log| + |evts|
            && forall j :: 0 <= j < |evts| ==>
                 var row, ne := after[|log| + j], evts[j];
                 && row.aggregate == key.0 && row.aggregateId == key.1 && row.sequence == expected + j + 1
                 && row.kind == ne.kind && row.data == ne.data && row.metadata == ne.metadata
                 && (ne.version >= 1 ==> row.version == ne.version) && (ne.version < 1 ==> row.version == 1)
                 && row.position == (if |log| == 0 then 0 else log[|log| - 1].position) + j + 1
                 && row.eid == env.mint(row.position) && row.created == env.clock(row.position)
  {
  }

  function Total(batch: seq<DecidedCommand>): nat {
    if |batch| == 0 then 0 else Total(batch[..|batch| - 1]) + |batch[|batch| - 1].newEvents|
  }

  lemma {:induction false} InsertedLength(env: Env, log: seq<Event>, batch: seq<DecidedCommand>)
    ensures |InsertBatch(env, log, batch)| == |log| + Total(batch) && log <= InsertBatch(env, log, batch)
    ensures NextPosition(InsertBatch(env, log, batch)) == NextPosition(log) + Total(batch)
  {
    if |batch| > 0 {
      InsertedLength(env, log, batch[..|batch| - 1]);
    }
  }

  lemma {:induction false} BatchPrefix(env: Env, log: seq<Event>, batch: seq<DecidedCommand>, n: nat)
    requires n <= |batch|
    ensures InsertBatch(env, log, batch[..n]) <= InsertBatch(env, log, batch)
  {
    if n == |batch| {
      assert batch[..n] == batch;
    } else {
      BatchPrefix(env, log, batch[..|batch| - 1], n);
      assert batch[..|batch| - 1][..n] == batch[..n];
    }
  }

  /**
   A batch adds its commands' events one block after another, in batch order. Each row is its
   event's, as in an append at the sequence the command expected, with the command's id put
   into the metadata and nothing else changed in it.
   */
  lemma BatchedRowsHold(env: Env, log: seq<Event>, batch: seq<DecidedCommand>, i: nat, j: nat)
    requires i < |batch| && j < |batch[i].newEvents|
    ensures var after, at := InsertBatch(env, log, batch), |log| + Total(batch[..i]) + j;
            && at < |after|
            && var row, dc, ne := after[at], batch[i], batch[i].newEvents[j];
            && row.aggregate == dc.key.0 && row.aggregateId == dc.key.1 && row.sequence == dc.expected + j + 1
            && row.kind == ne.kind && row.data == ne.data
            && row.metadata == ne.metadata["commandId" := dc.commandId]
            && (ne.version >= 1 ==> row.version == ne.version) && (ne.version < 1 ==> row.version == 1)
            && row.position == (if |log| == 0 then 0 else log[|log| - 1].position) + Total(batch[..i]) + j + 1
            && row.eid == env.mint(row.position) && row.created == env.clock(row.position)
            && BlockRows(env, InsertBatch(env, log, batch[..i]), dc)[j] == row
  {
    hide InsertBatch, NextPosition, Total, BlockRows;
    var before := InsertBatch(env, log, batch[..i]);
    InsertedLength(env, log, batch[..i]);
    BlockLies(env, log, batch, i, j);
    BlockHolds(env, before, batch[i], j);
    NextIsLastPlusOne(log);
  }

  lemma NextIsLastPlusOne(log: seq<Event>)
    ensures NextPosition(log) == (if |log| == 0 then 0 else log[|log| - 1].position) + 1
  {
  }

  lemma BlockLies(env: Env, log: seq<Event>, batch: seq<DecidedCommand>, i: nat, j: nat)
    requires i < |batch| && j < |batch[i].newEvents|
    ensures var before, after := InsertBatch(env, log, batch[..i]), InsertBatch(env, log, batch);
            |before| + j < |after| && after[|before| + j] == BlockRows(env, before, batch[i])[j]
  {
    hide *;
    var before := InsertBatch(env, log, batch[..i]);
    OneBlockMore(env, log, batch, i);
    BatchPrefix(env, log, batch, i + 1);
    var upTo := before + BlockRows(env, before, batch[i]);
    assert upTo[|before| + j] == BlockRows(env, before, batch[i])[j];
  }

  lemma OneBlockMore(env: Env, log: seq<Event>, batch: seq<DecidedCommand>, i: nat)
    requires i < |batch|
    ensures InsertBatch(env, log, batch[..i + 1]) ==
            InsertBatch(env, log, batch[..i]) + BlockRows(env, InsertBatch(env, log, batch[..i]), batch[i])
  {
    assert batch[..i + 1][..i] == batch[..i];
  }

  lemma BlockHolds(env: Env, before: seq<Event>, dc: DecidedCommand, j: nat)
    requires j < |dc.newEvents|
    ensures var row, ne := BlockRows(env, before, dc)[j], dc.newEvents[j];
            && row.aggregate == dc.key.0 && row.aggregateId == dc.key.1 && row.sequence == dc.expected + j + 1
            && row.kind == ne.kind && row.data == ne.data
            && row.metadata == ne.metadata["commandId" := dc.commandId]
            && (ne.version >= 1 ==> row.version == ne.version) && (ne.version < 1 ==> row.version == 1)
            && row.position == NextPosition(before) + j
            && row.eid == env.mint(row.position) && row.created == env.clock(row.position)
  {
  }

  /**
   An import adds its events as they are but for three things: the next positions, the mark,
   and version 1 where none is set.
   */
  lemma ImportedRowsHold(log: seq<Event>, evts: seq<Event>)
    requires ImportTo(log, evts).Success?
    ensures var after := ImportTo(log, evts).value;
            && log <= after && |after| == |log| + |evts|
            && forall j :: 0 <= j < |evts| ==>
                 var row, e := after[|log| + j], evts[j];
                 && row.aggregate == e.aggregate && row.aggregateId == e.aggregateId && row.sequence == e.sequence
                 && row.eid == e.eid && row.kind == e.kind && row.data == e.data && row.created == e.created
                 && row.metadata == e.metadata["imported" := "true"]
                 && (e.version >= 1 ==> row.version == e.version) && (e.version < 1 ==> row.version == 1)
                 && row.position == (if |log| == 0 then 0 else log[|log| - 1].position) + j + 1
  {
  }

  /** An append is refused exactly on an event with the import marker, or else on a stale expectation. */
  lemma AppendRefusedIff(env: Env, log: seq<Event>, key: StreamKey, expected: nat, evts: seq<NewEvent>)
    ensures var r := AppendTo(env, log, key, expected, evts);
            && (r == Failure(ImportMarker) <==> exists j :: 0 <= j < |evts| && "imported" in evts[j].metadata)
            && (r == Failure(Concurrency) <==>
                  && |evts| > 0 && CurrentSequence(log, key) != expected
                  && forall j :: 0 <= j < |evts| ==> "imported" !in evts[j].metadata)
            && (r.Failure? ==> r.error in {ImportMarker, Concurrency})
            && (|evts| == 0 ==> r == Success(log))
  {
  }

  /** An import is refused exactly on an aggregate the log has, or on an id or a place that is not unique. */
  lemma ImportRefusedIff(log: seq<Event>, evts: seq<Event>)
    ensures ImportTo(log, evts) == Failure(Collision) <==>
            exists i, j :: 0 <= i < |log| && 0 <= j < |evts| && log[i].aggregate == evts[j].aggregate
    ensures ImportTo(log, evts) == Failure(Storage) <==>
            && (forall i, j :: 0 <= i < |log| && 0 <= j < |evts| ==> log[i].aggregate != evts[j].aggregate)
            && ((exists i, j :: 0 <= i < |log| && 0 <= j < |evts| && log[i].eid == evts[j].eid)
                || (exists i, j :: 0 <= i < j < |evts| && evts[i].eid == evts[j].eid)
                || (exists i, j :: 0 <= i < j < |evts| && evts[i].aggregate == evts[j].aggregate &&
                                   evts[i].aggregateId == evts[j].aggregateId && evts[i].sequence == evts[j].sequence))
    ensures ImportTo(log, evts).Failure? ==> ImportTo(log, evts).error in {Collision, Storage}
  {
  }

  /** Whoever wrote it, a row that was not there before has a version of at least 1. */
  lemma {:induction false} VersionsOverEveryRun(env: Env, log: seq<Event>, ws: seq<Write>)
    ensures var after := AfterWrites(env, log, ws);
            log <= after && forall k :: |log| <= k < |after| ==> after[k].version >= 1
  {
    if |ws| > 0 {
      VersionsOverEveryRun(env, log, ws[..|ws| - 1]);
      WrittenVersions(env, AfterWrites(env, log, ws[..|ws| - 1]), ws[|ws| - 1]);
    }
  }

  lemma WrittenVersions(env: Env, log: seq<Event>, w: Write)
    ensures var after := AfterWrite(env, log, w);
            log <= after && forall k :: |log| <= k < |after| ==> after[k].version >= 1
  {
    match w
    case WriteAppend(key, expected, evts, _) =>
    case WriteBatch(batch, _) => BatchedVersions(env, log, batch);
    case WriteImport(rows, _) =>
  }

  lemma {:induction false} BatchedVersions(env: Env, log: seq<Event>, batch: seq<DecidedCommand>)
    ensures var after := InsertBatch(env, log, batch);
            log <= after && forall k :: |log| <= k < |after| ==> after[k].version >= 1
  {
    if |batch| > 0 {
      BatchedVersions(env, log, batch[..|batch| - 1]);
    }
  }

  // ---------------------------------------------------------------------
  // Reading back
  // ---------------------------------------------------------------------

  /** MAX(sequence): no row of the stream is above it, and one is at it unless the stream is empty and it is 0. */
  lemma {:induction false} CurrentIsMax(log: seq<Event>, key: StreamKey)
    ensures forall k :: 0 <= k < |log| && log[k].aggregate == key.0 && log[k].aggregateId == key.1 ==>
              log[k].sequence <= CurrentSequence(log, key)
    ensures CurrentSequence(log, key) > 0 ==>
              exists k :: 0 <= k < |log| && log[k].aggregate == key.0 && log[k].aggregateId == key.1 &&
                          log[k].sequence == CurrentSequence(log, key)
  {
    if |log| > 0 {
      var n := |log| - 1;
      CurrentIsMax(log[..n], key);
      forall k | 0 <= k < |log| && log[k].aggregate == key.0 && log[k].aggregateId == key.1
        ensures log[k].sequence <= CurrentSequence(log, key)
      {
        if k < n {
          assert log[..n][k] == log[k];
        }
      }
      if CurrentSequence(log, key) > 0 {
        if CurrentSequence(log, key) == CurrentSequence(log[..n], key) {
          var k :| 0 <= k < n && log[..n][k].aggregate == key.0 && log[..n][k].aggregateId == key.1 &&
                   log[..n][k].sequence == CurrentSequence(log, key);
          assert log[k] == log[..n][k];
        } else {
          assert log[n].sequence == CurrentSequence(log, key);
        }
      }
    }
  }

  predicate Sorted(rows: seq<Event>) {
    forall i, j :: 0 <= i < j < |rows| ==> rows[i].sequence <= rows[j].sequence
  }

  lemma {:induction false} InsertedSorted(sorted: seq<Event>, e: Event)
    requires Sorted(sorted)
    ensures Sorted(InsertBySequence(sorted, e))
    ensures multiset(InsertBySequence(sorted, e)) == multiset(sorted) + multiset{e}
  {
    hide *;
    InsertUnfolds(sorted, e);
    if |sorted| > 0 && sorted[|sorted| - 1].sequence > e.sequence {
      var front, last := sorted[..|sorted| - 1], sorted[|sorted| - 1];
      FrontSorted(sorted);
      InsertedSorted(front, e);
      InsertedFacts(front, e, last.sequence);
      SortedMore(InsertBySequence(front, e), last);
    } else {
      SortedMore(sorted, e);
    }
  }

  lemma InsertUnfolds(sorted: seq<Event>, e: Event)
    requires Sorted(sorted)
    ensures if |sorted| > 0 && sorted[|sorted| - 1].sequence > e.sequence
            then InsertBySequence(sorted, e) == InsertBySequence(sorted[..|sorted| - 1], e) + [sorted[|sorted| - 1]]
            else InsertBySequence(sorted, e) == sorted + [e] && UpToSequence(sorted, e.sequence)
  {
  }

  lemma FrontSorted(sorted: seq<Event>)
    requires Sorted(sorted) && |sorted| > 0
    ensures var front, last := sorted[..|sorted| - 1], sorted[|sorted| - 1];
            Sorted(front) && UpToSequence(front, last.sequence) && sorted == front + [last]
  {
  }

  lemma SortedMore(sorted: seq<Event>, last: Event)
    requires Sorted(sorted) && UpToSequence(sorted, last.sequence)
    ensures Sorted(sorted + [last]) && multiset(sorted + [last]) == multiset(sorted) + multiset{last}
  {
  }

  lemma {:induction false} OrderedIsSorted(rows: seq<Event>)
    ensures Sorted(OrderBySequence(rows)) && multiset(OrderBySequence(rows)) == multiset(rows)
  {
    if |rows| > 0 {
      var front, last := rows[..|rows| - 1], rows[|rows| - 1];
      assert rows == front + [last];
      OrderedIsSorted(front);
      InsertedSorted(OrderBySequence(front), last);
    }
  }

  lemma {:induction false} StreamCounts(log: seq<Event>, key: StreamKey, e: Event)
    ensures multiset(StreamOf(log, key))[e] ==
            if e.aggregate == key.0 && e.aggregateId == key.1 then multiset(log)[e] else 0
  {
    if |log| > 0 {
      var front, last := log[..|log| - 1], log[|log| - 1];
      assert log == front + [last];
      StreamCounts(front, key, e);
    }
  }

  /** LoadStream reads exactly the rows of the stream, each as often as it is there, lowest sequence first. */
  lemma LoadReadsTheStream(log: seq<Event>, key: StreamKey, e: Event)
    ensures Sorted(LoadRows(log, key))
    ensures multiset(LoadRows(log, key))[e] ==
            if e.aggregate == key.0 && e.aggregateId == key.1 then multiset(log)[e] else 0
  {
    OrderedIsSorted(StreamOf(log, key));
    StreamCounts(log, key, e);
  }
}
