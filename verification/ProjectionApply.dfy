/**
 The two implementations: Collections is the database the live projection's ops change
 record by record, Simulation the nested maps of a dry run.
 */
module ProjectionApply {
  import opened Wrappers
  import opened EventLog
  import opened Projection
  import opened ProjectionOps

  /** groupByRowIndex, as the loop it is; |rows| stands for -1. */
  method GroupByRowIndex(rows: seq<Row>, groupField: string, groupValue: Value) returns (i: nat)
    ensures i == EntryIndex(rows, groupField, groupValue)
  {
    i := 0;
    while i < |rows|
      invariant i <= |rows|
      invariant forall j :: 0 <= j < i ==> At(rows[j], groupField) != groupValue
    {
      if At(rows[i], groupField) == groupValue {
        return;
      }
      i := i + 1;
    }
  }

  /** The entry found or made, and its subfield raised. */
  method Bump(entries: seq<Row>, op: Op) returns (rows: seq<Row>)
    requires op.GroupByBump?
    ensures rows == Bumped(entries, op)
  {
    rows := entries;
    var idx := GroupByRowIndex(rows, op.groupField, op.groupValue);
    if idx == |rows| {
      rows := rows + [map[op.groupField := op.groupValue]];
    }
    var current := ToFloat(At(rows[idx], op.subfield));
    rows := rows[idx := rows[idx][op.subfield := Num(current + op.delta)]];
  }

  /** The fields loop of an upsert: one field at a time, in any order, past reserved and key fields. */
  method SetFields(s: Schema, row: Row, fields: Row) returns (out: Row)
    ensures out == Merged(s, row, fields) && FieldsSet(s, row, fields, out)
  {
    hide FieldsSet;
    out := row;
    var left := fields.Keys;
    while left != {}
      invariant left <= fields.Keys
      invariant out == row + map f | f in fields && f !in left && Writable(s, f) :: fields[f]
      decreases left
    {
      var name :| name in left;
      if Writable(s, name) {
        out := out[name := fields[name]];
      }
      left := left - {name};
    }
    assert (map f | f in fields && f !in left && Writable(s, f) :: fields[f]) == map f | f in fields
           && Writable(s, f) :: fields[f];
    MergedHolds(s, row, fields);
  }

  /** The live side: the collections and, in the same database, the position they have got to. */
  class Collections {
    const spec: Spec
    var tables: Tables
    var position: Option<nat>

    constructor (spec: Spec)
      ensures this.spec == spec && tables == (map c | c in spec.Collections() :: []) && position == None
    {
      this.spec := spec;
      position := None;
      tables := map c | c in spec.Collections() :: [];
    }

    /** FindFirstRecordByData: the first record whose key field holds the value. */
    method FindFirst(collection: string, keyField: string, key: Value) returns (i: nat)
      requires collection in tables
      ensures i == Find(tables[collection], keyField, key)
    {
      i := GroupByRowIndex(tables[collection], keyField, key);
    }

    /** applyOp: find or make the record, change it, save it; an op on a reserved or key field saves nothing. */
    method ApplyOp(s: Schema, op: Op)
      requires s.collection in tables
      modifies this`tables
      ensures tables == old(tables)[s.collection := LiveOp(spec, s, op, old(tables)[s.collection])]
      ensures s.collection in tables
              && LiveOpHolds(spec, s, op, old(tables)[s.collection], tables[s.collection])
              && forall c :: c in old(tables) && c != s.collection ==> c in tables && tables[c] == old(tables)[c]
    {
      LiveOpDoes(spec, s, op, tables[s.collection]);
      hide LiveOpHolds;
      var rows := tables[s.collection];
      var i := FindFirst(s.collection, s.key, op.key);
      if op.Delete? {
        if i < |rows| {
          tables := tables[s.collection := rows[..i] + rows[i + 1..]];
        } else {
          assert tables == tables[s.collection := rows];
        }
        return;
      }
      var rec := if i < |rows| then rows[i] else map[s.key := op.key];
      if !op.Upsert? && !Writable(s, op.field) {
        assert tables == tables[s.collection := rows];
        return;
      }
      match op {
        case Increment(_, _, field, delta) =>
          rec := rec[field := Num(GetFloat(spec, At(rec, field)) + delta)];
        case GroupByBump(_, _, field, _, _, _, _) =>
          var entries := Bump(LiveEntries(At(rec, field)), op);
          rec := rec[field := Groups(entries)];
        case Upsert(_, _, fields) =>
          rec := SetFields(s, rec, fields);
        case Delete(_, _) =>
      }
      rows := if i < |rows| then rows[i := rec] else rows + [rec];
      tables := tables[s.collection := rows];
    }

    /**
     Commit: project(event) first, then its ops and its position in one transaction, which
     lands whole or not at all; fault is a write the database refuses.
     */
    method Commit(ev: Event, fault: bool) returns (ok: bool)
      modifies this`tables, this`position
      ensures var ops := spec.Project(ev, ViewOf(spec, old(tables)));
              var after := if ops.None? then None else LiveOps(spec, ops.value, old(tables));
              && ok == (after.Some? && !fault)
              && tables == (if ok then after.value else old(tables))
              && position == (if ok then Some(ev.position) else old(position))
    {
      var ops := spec.Project(ev, ViewOf(spec, tables));
      if ops.None? {
        return false;
      }
      var before := tables;
      ok := ApplyOps(ops.value);
      if !ok || fault {
        tables := before;
        return false;
      }
      position := Some(ev.position);
    }

    /** applyOps: the ops in order, up to the first that cannot be resolved. */
    method ApplyOps(ops: seq<Op>) returns (ok: bool)
      modifies this`tables
      ensures ok == LiveOps(spec, ops, old(tables)).Some? && (ok ==> Some(tables) == LiveOps(spec, ops, old(tables)))
    {
      for i := 0 to |ops|
        invariant LiveOps(spec, ops[..i], old(tables)) == Some(tables)
      {
        assert ops[..i + 1][..i] == ops[..i];
        var s := Resolve(spec, ops[i]);
        if s.None? || s.value.collection !in tables {
          FailsOn(spec, ops, old(tables), i);
          return false;
        }
        ApplyOp(s.value, ops[i]);
      }
      assert ops[..|ops|] == ops;
      ok := true;
    }
  }

  /** An op that cannot be resolved fails the whole list. */
  lemma {:induction false} FailsOn(spec: Spec, ops: seq<Op>, tables: Tables, i: nat)
    requires i < |ops| && LiveOps(spec, ops[..i + 1], tables).None?
    ensures LiveOps(spec, ops, tables).None?
  {
    if i + 1 < |ops| {
      assert ops[..|ops| - 1][..i + 1] == ops[..i + 1];
      FailsOn(spec, ops[..|ops| - 1], tables, i);
    } else {
      assert ops[..i + 1] == ops;
    }
  }

  // ---------------------------------------------------------------------
  // What the simulation reports beside its rows
  // ---------------------------------------------------------------------

  /** The ops project returns over a list of events, each asked with the rows before it. */
  function OpsOver(spec: Spec, events: seq<Event>): seq<Op> {
    if |events| == 0 then []
    else
      var front := events[..|events| - 1];
      var rows := DryRun(spec, front);
      var ops := if rows.None? then None else spec.Project(events[|events| - 1], rows.value);
      OpsOver(spec, front) + if ops.None? then [] else ops.value
  }

  function Deletes(ops: seq<Op>): (n: nat)
    ensures n <= |ops|
  {
    if |ops| == 0 then 0 else Deletes(ops[..|ops| - 1]) + if ops[|ops| - 1].Delete? then 1 else 0
  }

  lemma {:induction false} DeletesConcat(xs: seq<Op>, ys: seq<Op>)
    ensures Deletes(xs + ys) == Deletes(xs) + Deletes(ys)
  {
    if |ys| == 0 {
      assert xs + ys == xs;
    } else {
      assert (xs + ys)[..|xs + ys| - 1] == xs + ys[..|ys| - 1];
      DeletesConcat(xs, ys[..|ys| - 1]);
    }
  }

  /** The events of the types the projection subscribes to. */
  function Handled(spec: Spec, events: seq<Event>): nat {
    if |events| == 0 then 0
    else Handled(spec, events[..|events| - 1]) + if events[|events| - 1].kind in spec.eventTypes then 1 else 0
  }

  /** The values project returns over a list of events that are no ops. */
  function IgnoredOver(spec: Spec, events: seq<Event>): nat {
    if |events| == 0 then 0
    else
      var front := events[..|events| - 1];
      var rows := DryRun(spec, front);
      var items := if rows.None? then None else spec.Returned(events[|events| - 1], rows.value);
      IgnoredOver(spec, front) + if items.None? then 0 else |items.value| - |OpsIn(items.value)|
  }

  /** normalizeOps: the ops in order, and how many values were none. */
  method NormalizeOps(items: seq<Option<Op>>) returns (ops: seq<Op>, ignored: nat)
    ensures ops == OpsIn(items) && ignored + |ops| == |items|
  {
    ops, ignored := [], 0;
    for i := 0 to |items|
      invariant ops == OpsIn(items[..i]) && ignored + |ops| == i
    {
      assert items[..i + 1][..i] == items[..i];
      if items[i].Some? {
        ops := ops + [items[i].value];
      } else {
        ignored := ignored + 1;
      }
    }
    assert items[..|items|] == items;
  }

  class Simulation {
    const spec: Spec
    var rows: View
    var events: nat
    var upserts: nat
    var deletes: nat
    var ignoredValues: nat

    constructor (spec: Spec)
      ensures this.spec == spec && rows == (map c | c in spec.Collections() :: map[])
              && events == upserts == deletes == ignoredValues == 0
    {
      this.spec := spec;
      events, upserts, deletes, ignoredValues := 0, 0, 0, 0;
      rows := map c | c in spec.Collections() :: map[];
    }

    /** One op of the simulation: the row by printed key, made if missing, then changed in place. */
    method SimulateOp(s: Schema, op: Op)
      requires s.collection in rows
      modifies this`rows, this`upserts, this`deletes
      ensures rows == old(rows)[s.collection := DryOp(spec, s, op, old(rows)[s.collection])]
      ensures s.collection in rows
              && DryOpHolds(spec, s, op, old(rows)[s.collection], rows[s.collection])
              && forall c :: c in old(rows) && c != s.collection ==> c in rows && rows[c] == old(rows)[c]
      ensures deletes == old(deletes) + if op.Delete? then 1 else 0
      ensures upserts == old(upserts) + if op.Delete? then 0 else 1
    {
      DryOpDoes(spec, s, op, rows[s.collection]);
      hide DryOpHolds;
      var table := rows[s.collection];
      var key := spec.Print(op.key);
      if op.Delete? {
        deletes := deletes + 1;
        rows := rows[s.collection := table - {key}];
        return;
      }
      upserts := upserts + 1;
      var row := if key in table then table[key] else map[s.key := op.key];
      match op {
        case Increment(_, _, field, delta) =>
          var current := if At(row, field) != Null then ToFloat(At(row, field)) else 0.0;
          row := row[field := Num(current + delta)];
        case GroupByBump(_, _, field, _, _, _, _) =>
          var entries := Bump(DryEntries(At(row, field)), op);
          row := row[field := Groups(entries)];
        case Upsert(_, _, fields) =>
          row := SetFields(s, row, fields);
        case Delete(_, _) =>
      }
      rows := rows[s.collection := table[key := row]];
    }

    /**
     runProjectionOver: the rows after every event, with the counts of what was handled, or
     an error at the first event that fails.
     */
    method RunProjectionOver(log: seq<Event>) returns (ok: bool, position: nat)
      requires rows == (map c | c in spec.Collections() :: map[]) && events == upserts == deletes == ignoredValues == 0
      modifies this
      ensures if ok then DryRun(spec, log) == Some(rows) else DryRun(spec, log).None?
      ensures ok ==> position == if |log| == 0 then 0 else log[|log| - 1].position
      ensures ok ==> events == Handled(spec, log) && ignoredValues == IgnoredOver(spec, log)
      ensures ok ==> deletes == Deletes(OpsOver(spec, log)) && upserts + deletes == |OpsOver(spec, log)|
    {
      position, ok := 0, true;
      assert log[..0] == [] && Told([]);
      for i := 0 to |log|
        invariant ok && DryRun(spec, log[..i]) == Some(rows) && Told(log[..i])
        invariant position == if i == 0 then 0 else log[i - 1].position
      {
        position := log[i].position;
        ok := SimulateEvent(log, i);
        if !ok {
          DryFailsOn(spec, log, i);
          return;
        }
      }
      assert log[..|log|] == log;
    }

    /** The counts are those of these events. */
    predicate Told(log: seq<Event>)
      reads this
    {
      && events == Handled(spec, log) && ignoredValues == IgnoredOver(spec, log)
      && deletes == Deletes(OpsOver(spec, log)) && upserts + deletes == |OpsOver(spec, log)|
    }

    /** One event: skipped when it is not subscribed to, else projected over the rows so far and simulated op by op. */
    method SimulateEvent(log: seq<Event>, i: nat) returns (ok: bool)
      requires i < |log| && DryRun(spec, log[..i]) == Some(rows) && Told(log[..i])
      modifies this
      ensures if ok then DryRun(spec, log[..i + 1]) == Some(rows) && Told(log[..i + 1])
              else DryRun(spec, log[..i + 1]).None?
    {
      hide Spec.Returned, OpsIn, DryOps, Deletes;
      assert log[..i + 1][..i] == log[..i];
      ghost var before := rows;
      if log[i].kind in spec.eventTypes {
        events := events + 1;
      }
      var items := spec.Returned(log[i], rows);
      if items.None? {
        return false;
      }
      var ops, ignored := NormalizeOps(items.value);
      ignoredValues := ignoredValues + ignored;
      ok := SimulateOps(ops);
      DeletesConcat(OpsOver(spec, log[..i]), ops);
      assert DryRun(spec, log[..i + 1]) == DryOps(spec, ops, before);
      assert OpsOver(spec, log[..i + 1]) == OpsOver(spec, log[..i]) + ops;
    }

    method SimulateOps(ops: seq<Op>) returns (ok: bool)
      modifies this`rows, this`upserts, this`deletes
      ensures ok == DryOps(spec, ops, old(rows)).Some? && (ok ==> Some(rows) == DryOps(spec, ops, old(rows)))
      ensures ok ==> deletes == old(deletes) + Deletes(ops) && upserts + deletes == old(upserts + deletes) + |ops|
    {
      for i := 0 to |ops|
        invariant DryOps(spec, ops[..i], old(rows)) == Some(rows)
        invariant deletes == old(deletes) + Deletes(ops[..i]) && upserts + deletes == old(upserts + deletes) + i
      {
        assert ops[..i + 1][..i] == ops[..i];
        var s := Resolve(spec, ops[i]);
        if s.None? || s.value.collection !in rows {
          DryOpsFailOn(spec, ops, old(rows), i);
          return false;
        }
        SimulateOp(s.value, ops[i]);
      }
      assert ops[..|ops|] == ops;
      ok := true;
    }
  }

  lemma {:induction false} DryOpsFailOn(spec: Spec, ops: seq<Op>, rows: View, i: nat)
    requires i < |ops| && DryOps(spec, ops[..i + 1], rows).None?
    ensures DryOps(spec, ops, rows).None?
  {
    if i + 1 < |ops| {
      assert ops[..|ops| - 1][..i + 1] == ops[..i + 1];
      DryOpsFailOn(spec, ops[..|ops| - 1], rows, i);
    } else {
      assert ops[..i + 1] == ops;
    }
  }

  lemma {:induction false} DryFailsOn(spec: Spec, events: seq<Event>, i: nat)
    requires i < |events| && DryRun(spec, events[..i + 1]).None?
    ensures DryRun(spec, events).None?
  {
    if i + 1 < |events| {
      assert events[..|events| - 1][..i + 1] == events[..i + 1];
      DryFailsOn(spec, events[..|events| - 1], i);
    } else {
      assert events[..i + 1] == events;
    }
  }
}
