/**
 The event store as the object the rest of the engine holds: one table of rows and the
 read-path upcaster. A transaction either commits whole or leaves the table as it was;
 a `fault` argument stands for the database (or a crash) refusing the commit.
 */
module EventStore {
  import opened Wrappers
  import opened EventLog
  import opened LogInvariant
  import opened LogRows

  /** The installed read-path upcaster; None when a transform chain fails. */
  datatype Upcaster = Upcaster(up: Event -> Option<Event>) {
    function Apply(e: Event): Option<Event> {
      up(e)
    }
  }

  /** Every row upcast, or nothing: one failure fails the whole read. */
  function UpcastAll(u: Option<Upcaster>, rows: seq<Event>): (out: Option<seq<Event>>)
    ensures out.Some? ==> |out.value| == |rows|
    ensures out.Some? && u.Some? ==> forall i :: 0 <= i < |rows| ==> u.value.Apply(rows[i]) == Some(out.value[i])
  {
    if u.None? then Some(rows)
    else if |rows| == 0 then Some([])
    else
      var front := UpcastAll(u, rows[..|rows| - 1]);
      var last := u.value.Apply(rows[|rows| - 1]);
      if front.None? || last.None? then None else Some(front.value + [last.value])
  }

  /** A stream's sequence as the validation pass sees it: its own running value, else the table's. */
  function Seen(running: map<StreamKey, nat>, table: seq<Event>, key: StreamKey): nat {
    if key in running then running[key] else CurrentSequence(table, key)
  }

  /** The running map agrees with the running sequence of a validated prefix, stream by stream. */
  ghost predicate Tracks(running: map<StreamKey, nat>, table: seq<Event>, walked: seq<DecidedCommand>) {
    forall key :: RunningSequence(table, walked, key) == Seen(running, table, key)
  }

  lemma TracksNothing(table: seq<Event>)
    ensures Tracks(map[], table, [])
  {
  }

  lemma TracksNext(running: map<StreamKey, nat>, table: seq<Event>, batch: seq<DecidedCommand>, i: nat)
    requires i < |batch| && Tracks(running, table, batch[..i])
    ensures Fits(table, batch, i) <==> Seen(running, table, batch[i].key) == batch[i].expected
    ensures Verdict(table, batch, i) == BatchResult(batch[i].commandId, [],
              if Seen(running, table, batch[i].key) == batch[i].expected then None else Some(Concurrency))
    ensures !Fits(table, batch, i) ==> Tracks(running, table, batch[..i + 1])
    ensures Fits(table, batch, i) ==>
              Tracks(running[batch[i].key := batch[i].expected + |batch[i].newEvents|], table, batch[..i + 1])
  {
    assert batch[..i + 1][..i] == batch[..i];
    assert RunningSequence(table, batch[..i], batch[i].key) == Seen(running, table, batch[i].key);
    if Fits(table, batch, i) {
      var grown := running[batch[i].key := batch[i].expected + |batch[i].newEvents|];
      forall key
        ensures RunningSequence(table, batch[..i + 1], key) == Seen(grown, table, key)
      {
        assert RunningSequence(table, batch[..i], key) == Seen(running, table, key);
      }
    } else {
      forall key
        ensures RunningSequence(table, batch[..i + 1], key) == Seen(running, table, key)
      {
        assert RunningSequence(table, batch[..i], key) == Seen(running, table, key);
      }
    }
  }

  lemma InsertBatchNext(env: Env, table: seq<Event>, batch: seq<DecidedCommand>, i: nat)
    requires i < |batch|
    ensures InsertBatch(env, table, batch[..i + 1]) ==
            InsertBatch(env, table, batch[..i]) + BlockRows(env, InsertBatch(env, table, batch[..i]), batch[i])
  {
    assert batch[..i + 1][..i] == batch[..i];
  }

  /** A command's result once its rows are in. */
  function Landed(env: Env, table: seq<Event>, batch: seq<DecidedCommand>, k: nat): BatchResult
    requires k < |batch|
  {
    BatchResult(batch[k].commandId, BlockRows(env, InsertBatch(env, table, batch[..k]), batch[k]), None)
  }

  /** A command's result after validation alone. */
  function Verdict(table: seq<Event>, batch: seq<DecidedCommand>, k: nat): BatchResult
    requires k < |batch|
  {
    BatchResult(batch[k].commandId, [], if Fits(table, batch, k) then None else Some(Concurrency))
  }

  class Store {
    const env: Env
    var table: seq<Event>
    var upcaster: Option<Upcaster>

    constructor (env: Env)
      ensures this.env == env && table == [] && upcaster == None
      ensures LogOk(table)
    {
      this.env := env;
      table, upcaster := [], None;
    }

    method SetUpcaster(u: Option<Upcaster>)
      modifies this`upcaster
      ensures upcaster == u
    {
      upcaster := u;
    }

    /** Append: refuses an import marker and a stale expectation, and never half-writes. */
    method Append(key: StreamKey, expected: nat, evts: seq<NewEvent>, fault: bool)
      returns (appended: seq<Event>, err: Option<Error>)
      modifies this`table
      ensures err.Some? ==> table == old(table) && appended == []
      ensures err.None? ==> Success(table) == AppendTo(env, old(table), key, expected, evts)
      ensures err.None? ==> table == old(table) + appended && |appended| == |evts|
      ensures err.Some? <==> |evts| > 0 && (fault || AppendTo(env, old(table), key, expected, evts).Failure?)
      ensures err.Some? ==>
                var plain := AppendTo(env, old(table), key, expected, evts);
                err.value == if plain.Failure? then plain.error else Storage
      ensures forall j :: 0 <= j < |appended| ==>
                && appended[j].aggregate == key.0 && appended[j].aggregateId == key.1
                && appended[j].sequence == expected + j + 1
                && appended[j].kind == evts[j].kind && appended[j].data == evts[j].data
                && appended[j].metadata == evts[j].metadata
                && (evts[j].version >= 1 ==> appended[j].version == evts[j].version)
                && (evts[j].version < 1 ==> appended[j].version == 1)
                && appended[j].eid == env.mint(appended[j].position)
                && appended[j].created == env.clock(appended[j].position)
      ensures old(LogOk(table)) ==> LogOk(table)
    {
      appended, err := [], None;
      if LogOk(table) {
        AppendKeepsLogOk(env, table, key, expected, evts);
      }
      if |evts| == 0 {
        return;
      }
      var marked := false;
      for j := 0 to |evts|
        invariant marked <==> CarriesMarker(evts[..j])
      {
        assert evts[..j + 1] == evts[..j] + [evts[j]];
        if IMPORTED in evts[j].metadata {
          assert IMPORTED in evts[..j + 1][j].metadata;
          marked := true;
        } else if CarriesMarker(evts[..j + 1]) {
          var k :| 0 <= k < j + 1 && IMPORTED in evts[..j + 1][k].metadata;
          assert IMPORTED in evts[..j][k].metadata;
        }
      }
      assert evts[..|evts|] == evts;
      if marked {
        return [], Some(ImportMarker);
      }
      var current := CurrentSequence(table, key);
      if current != expected {
        return [], Some(Concurrency);
      }
      var next := NextPosition(table);
      for j := 0 to |evts|
        invariant appended == RowsOf(env, next, key, current, evts[..j])
      {
        appended := appended + [RowOf(env, next + j, key, current + j + 1, evts[j])];
      }
      if fault {
        return [], Some(Storage);
      }
      table := table + appended;
    }

    /**
     CommitBatch: validates every command against the running sequence of its stream
     before inserting anything. One conflict rolls the whole batch back and gives every
     result an error; otherwise each command's own block lands, in batch order.
     */
    method CommitBatch(batch: seq<DecidedCommand>, fault: bool)
      returns (results: seq<BatchResult>, err: Option<Error>)
      modifies this`table
      ensures |batch| > 0 && BatchCarriesMarker(batch) ==> err == Some(ImportMarker)
      ensures err.Some? <==> |batch| > 0 && (BatchCarriesMarker(batch) || (fault && AllFit(old(table), batch)))
      ensures err.Some? ==> table == old(table) && results == []
      ensures err.Some? && !BatchCarriesMarker(batch) ==> err == Some(Storage)
      ensures err.None? ==> |results| == |batch| && forall i :: 0 <= i < |batch| ==>
              results[i].commandId == batch[i].commandId
      ensures err.None? && !AllFit(old(table), batch) ==> table == old(table)
      ensures err.None? && !AllFit(old(table), batch) ==> forall i :: 0 <= i < |batch| ==>
                results[i].events == [] &&
                results[i].err == Some(if Fits(old(table), batch, i) then BatchAborted else Concurrency)
      ensures err.None? && AllFit(old(table), batch) ==> table == InsertBatch(env, old(table), batch)
      ensures err.None? && AllFit(old(table), batch) ==> forall i :: 0 <= i < |batch| ==>
                results[i] == Landed(env, old(table), batch, i)
      ensures old(LogOk(table)) ==> LogOk(table)
    {
      results, err := [], None;
      if |batch| == 0 {
        return;
      }
      var marked := HasMarker(batch);
      if marked {
        return [], Some(ImportMarker);
      }
      var validated, bases, anyConflict := Validate(batch);
      assert anyConflict <==> !AllFit(table, batch) by {
        if anyConflict {
          var k :| 0 <= k < |batch| && validated[k].err.Some?;
          assert !Fits(table, batch, k);
        } else {
          forall k | 0 <= k < |batch|
            ensures Fits(table, batch, k)
          {
            assert validated[k].err.None?;
          }
        }
      }
      if anyConflict {
        results := AbortRest(batch, validated);
        return;
      }
      results := InsertPass(batch, bases, validated, fault);
      if |results| == 0 {
        err := Some(Storage);
      }
      if old(LogOk(table)) {
        InsertBatchKeepsLogOk(env, old(table), batch);
      }
    }

    /** The validation pass: nothing is inserted, every expectation meets the running sequence. */
    method Validate(batch: seq<DecidedCommand>)
      returns (results: seq<BatchResult>, bases: seq<nat>, anyConflict: bool)
      ensures |results| == |bases| == |batch|
      ensures forall k :: 0 <= k < |batch| ==> results[k] == Verdict(table, batch, k)
      ensures forall k :: 0 <= k < |batch| && results[k].err.None? ==> bases[k] == batch[k].expected
      ensures anyConflict <==> exists k :: 0 <= k < |batch| && results[k].err.Some?
    {
      hide Tracks, CurrentSequence, RunningSequence;
      var running: map<StreamKey, nat> := map[];
      ghost var at := 0;
      assert batch[..0] == [];
      TracksNothing(table);
      results, bases, anyConflict := [], [], false;
      for i := 0 to |batch|
        invariant |results| == |bases| == i
        invariant Tracks(running, table, batch[..i])
        invariant forall k :: 0 <= k < i ==>
                  results[k] == Verdict(table, batch, k) && (results[k].err.None? ==> bases[k] == batch[k].expected)
        invariant anyConflict ==> 0 <= at < i && results[at].err.Some?
        invariant !anyConflict ==> forall k :: 0 <= k < i ==> results[k].err.None?
      {
        var dc := batch[i];
        var current := if dc.key in running then running[dc.key] else CurrentSequence(table, dc.key);
        TracksNext(running, table, batch, i);
        if current != dc.expected {
          results, bases := results + [BatchResult(dc.commandId, [], Some(Concurrency))], bases + [0];
          anyConflict, at := true, i;
        } else {
          results, bases := results + [BatchResult(dc.commandId, [], None)], bases + [current];
          running := running[dc.key := current + |dc.newEvents|];
        }
      }
    }

    /** A conflict somewhere: every command that was fine is told the batch was aborted. */
    method AbortRest(batch: seq<DecidedCommand>, validated: seq<BatchResult>) returns (results: seq<BatchResult>)
      requires |validated| == |batch|
      requires forall k :: 0 <= k < |batch| ==> validated[k] == Verdict(table, batch, k)
      ensures |results| == |batch|
      ensures forall k :: 0 <= k < |batch| ==> results[k] == BatchResult(batch[k].commandId, [],
                Some(if Fits(table, batch, k) then BatchAborted else Concurrency))
    {
      results := validated;
      for i := 0 to |results|
        invariant |results| == |batch|
        invariant forall k :: i <= k < |batch| ==> results[k] == Verdict(table, batch, k)
        invariant forall k :: 0 <= k < i ==> results[k] == BatchResult(batch[k].commandId, [],
                    Some(if Fits(table, batch, k) then BatchAborted else Concurrency))
      {
        if results[i].err.None? {
          results := results[i := results[i].(err := Some(BatchAborted))];
        }
      }
    }

    method HasMarker(batch: seq<DecidedCommand>) returns (marked: bool)
      ensures marked <==> BatchCarriesMarker(batch)
    {
      marked := false;
      for i := 0 to |batch|
        invariant marked <==> exists k :: 0 <= k < i && CarriesMarker(batch[k].newEvents)
      {
        var evts := batch[i].newEvents;
        for j := 0 to |evts|
          invariant marked <==> (exists k :: 0 <= k < i && CarriesMarker(batch[k].newEvents)) ||
                                (exists k :: 0 <= k < j && IMPORTED in evts[k].metadata)
        {
          if IMPORTED in evts[j].metadata {
            marked := true;
          }
        }
      }
    }

    /** One command's rows, on top of the transaction's view. */
    method InsertRows(tx: seq<Event>, dc: DecidedCommand, base: nat) returns (appended: seq<Event>)
      requires base == dc.expected
      ensures appended == BlockRows(env, tx, dc)
    {
      var next := NextPosition(tx);
      ghost var block := BlockRows(env, tx, dc);
      appended := [];
      for j := 0 to |dc.newEvents|
        invariant appended == block[..j]
      {
        var ne := dc.newEvents[j];
        var row := RowOf(env, next + j, dc.key, base + j + 1, ne.(metadata := ne.metadata[COMMAND_ID := dc.commandId]));
        assert row == block[j];
        appended := appended + [row];
      }
    }

    /** The insert pass and the commit: no results means the commit was refused. */
    method InsertPass(batch: seq<DecidedCommand>, bases: seq<nat>, validated: seq<BatchResult>, fault: bool)
      returns (results: seq<BatchResult>)
      requires |batch| > 0 && |bases| == |validated| == |batch| && AllFit(table, batch)
      requires forall k :: 0 <= k < |batch| ==>
                 bases[k] == batch[k].expected && validated[k] == BatchResult(batch[k].commandId, [], None)
      modifies this`table
      ensures fault ==> table == old(table) && results == []
      ensures !fault ==> table == InsertBatch(env, old(table), batch) && |results| == |batch|
      ensures !fault ==> forall i :: 0 <= i < |batch| ==> results[i] == Landed(env, old(table), batch, i)
    {
      results := validated;
      var tx := table;
      for i := 0 to |batch|
        invariant table == old(table)
        invariant |results| == |batch| && tx == InsertBatch(env, table, batch[..i])
        invariant forall k :: 0 <= k < i ==> results[k] == Landed(env, table, batch, k)
        invariant forall k :: i <= k < |batch| ==> results[k] == BatchResult(batch[k].commandId, [], None)
      {
        InsertBatchNext(env, table, batch, i);
        var appended := InsertRows(tx, batch[i], bases[i]);
        tx := tx + appended;
        results := results[i := results[i].(events := appended)];
      }
      assert batch[..|batch|] == batch;
      if fault {
        return [];
      }
      table := tx;
    }

    /** ImportEvents: the whole batch at the tail, under fresh positions, or none of it. */
    method ImportEvents(evts: seq<Event>, fault: bool) returns (imported: seq<Event>, err: Option<Error>)
      modifies this`table
      ensures err.Some? ==> table == old(table) && imported == []
      ensures err.None? ==> Success(table) == ImportTo(old(table), evts) && table == old(table) + imported
      ensures err.None? ==> forall i :: 0 <= i < |imported| ==> IsImported(imported[i])
      ensures err.Some? <==> |evts| > 0 && (fault || ImportTo(old(table), evts).Failure?)
      ensures old(LogOk(table)) && err.None? ==> (LogOk(table) <==> Contiguous(evts) || |evts| == 0)
    {
      hide LogOk, Contiguous, Collides, UniqueRows;
      imported, err := [], None;
      if old(LogOk(table)) && ImportTo(table, evts).Success? {
        ImportKeepsLogOkIff(table, evts);
      }
      if |evts| == 0 {
        return;
      }
      if Collides(table, evts) {
        return [], Some(Collision);
      }
      var next := NextPosition(table);
      for j := 0 to |evts|
        invariant imported == ImportedRows(next, evts[..j])
      {
        imported := imported + [ImportedRow(next + j, evts[j])];
      }
      assert evts[..|evts|] == evts;
      if fault || !UniqueRows(table, evts) {
        return [], Some(Storage);
      }
      table := table + imported;
    }

    /** LoadStream: the stream in sequence order, every row upcast, or a failed read. */
    method LoadStream(key: StreamKey) returns (stream: Option<seq<Event>>)
      ensures stream == UpcastAll(upcaster, LoadRows(table, key))
    {
      var rows := LoadRows(table, key);
      if upcaster.None? {
        return Some(rows);
      }
      var out: seq<Event> := [];
      for i := 0 to |rows|
        invariant Some(out) == UpcastAll(upcaster, rows[..i])
      {
        assert rows[..i + 1][..i] == rows[..i];
        var up := upcaster.value.Apply(rows[i]);
        if up.None? {
          UpcastFailsOnward(upcaster, rows, i);
          return None;
        }
        out := out + [up.value];
      }
      assert rows[..|rows|] == rows;
      return Some(out);
    }

    method CommandApplied(key: StreamKey, id: string, after: nat) returns (applied: bool)
      ensures applied == Applied(table, key, id, after)
      ensures applied <==> exists i :: 0 <= i < |table| && table[i].aggregate == key.0
                             && table[i].aggregateId == key.1 && table[i].position > after
                             && "commandId" in table[i].metadata && table[i].metadata["commandId"] == id
    {
      applied := exists i :: 0 <= i < |table| && Key(table[i]) == key && table[i].position > after &&
                             CommandIdOf(table[i]) == Some(id);
    }
  }

  lemma {:induction false} UpcastFailsOnward(u: Option<Upcaster>, rows: seq<Event>, i: nat)
    requires u.Some? && i < |rows| && u.value.Apply(rows[i]).None?
    ensures UpcastAll(u, rows).None?
  {
    if i < |rows| - 1 {
      UpcastFailsOnward(u, rows[..|rows| - 1], i);
    }
  }

  /** What CommitBatch reports for a command that landed are its own events, as they are in the table. */
  lemma LandedRowsHold(env: Env, table: seq<Event>, batch: seq<DecidedCommand>, i: nat, j: nat)
    requires i < |batch| && j < |batch[i].newEvents|
    ensures var result, dc, ne := Landed(env, table, batch, i), batch[i], batch[i].newEvents[j];
            && result.commandId == dc.commandId && result.err.None? && |result.events| == |dc.newEvents|
            && result.events[j] in InsertBatch(env, table, batch)
            && result.events[j].aggregate == dc.key.0 && result.events[j].aggregateId == dc.key.1
            && result.events[j].sequence == dc.expected + j + 1
            && result.events[j].kind == ne.kind && result.events[j].data == ne.data
            && result.events[j].metadata == ne.metadata["commandId" := dc.commandId]
            && (ne.version >= 1 ==> result.events[j].version == ne.version)
            && (ne.version < 1 ==> result.events[j].version == 1)
            && result.events[j].eid == env.mint(result.events[j].position)
            && result.events[j].created == env.clock(result.events[j].position)
  {
    assert Landed(env, table, batch, i).events == BlockRows(env, InsertBatch(env, table, batch[..i]), batch[i]);
    hide InsertBatch, BlockRows;
    BatchedRowsHold(env, table, batch, i, j);
  }
}
