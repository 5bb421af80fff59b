/**
 When the dry run is the live run: exactly, for one op on agreeing rows, and for every list
 of events under a discipline on what a projection's fields hold.
 */
module ProjectionAgree {
  import opened Projection

  // ---------------------------------------------------------------------
  // Records and simulated rows
  // ---------------------------------------------------------------------

  /** Printing tells the keys a projection uses apart. */
  ghost predicate KeysTell(spec: Spec, keys: iset<Value>) {
    forall x, y :: x in keys && y in keys && spec.Print(x) == spec.Print(y) ==> x == y
  }

  /** Every record has a key of the projection's, and no two print the same. */
  ghost predicate Keyed(spec: Spec, keyField: string, rows: seq<Row>, keys: iset<Value>) {
    && (forall i :: 0 <= i < |rows| ==> keyField in rows[i] && rows[i][keyField] in keys)
    && (forall i, j :: 0 <= i < j < |rows| ==> rows[i][keyField] != rows[j][keyField])
  }

  /** The simulated rows are these records, by printed key. */
  ghost predicate Lists(spec: Spec, keyField: string, rows: seq<Row>, m: map<string, Row>) {
    && (forall i :: 0 <= i < |rows| ==>
        spec.Print(At(rows[i], keyField)) in m && m[spec.Print(At(rows[i], keyField))] == rows[i])
    && (forall k :: k in m ==> Holds(spec, keyField, rows, k))
  }

  predicate Holds(spec: Spec, keyField: string, rows: seq<Row>, k: string) {
    exists i :: 0 <= i < |rows| && spec.Print(At(rows[i], keyField)) == k
  }

  lemma ListsIsOne(spec: Spec, keyField: string, rows: seq<Row>, m: map<string, Row>, m': map<string, Row>)
    requires Lists(spec, keyField, rows, m) && Lists(spec, keyField, rows, m')
    ensures m == m'
  {
    forall k | k in m
      ensures k in m' && m'[k] == m[k]
    {
      assert Holds(spec, keyField, rows, k);
    }
    forall k | k in m'
      ensures k in m
    {
      assert Holds(spec, keyField, rows, k);
    }
  }

  lemma {:induction false} RowsByKeyLists(spec: Spec, keyField: string, rows: seq<Row>, keys: iset<Value>)
    requires KeysTell(spec, keys) && Keyed(spec, keyField, rows, keys)
    ensures Lists(spec, keyField, rows, RowsByKey(spec, keyField, rows))
  {
    if |rows| > 0 {
      var n := |rows| - 1;
      var front := rows[..n];
      RowsByKeyLists(spec, keyField, front, keys);
      var before := RowsByKey(spec, keyField, front);
      ListsAppended(spec, keyField, front, before, rows[n]);
      assert front + [rows[n]] == rows;
    }
  }

  lemma ListsAppended(spec: Spec, keyField: string, rows: seq<Row>, m: map<string, Row>, w: Row)
    requires Lists(spec, keyField, rows, m) && spec.Print(At(w, keyField)) !in m
    ensures Lists(spec, keyField, rows + [w], m[spec.Print(At(w, keyField)) := w])
  {
    var all, k' := rows + [w], spec.Print(At(w, keyField));
    forall k | k in m[k' := w]
      ensures Holds(spec, keyField, all, k)
    {
      if k == k' {
        assert all[|rows|] == w;
      } else {
        assert Holds(spec, keyField, rows, k);
        var i :| 0 <= i < |rows| && spec.Print(At(rows[i], keyField)) == k;
        assert all[i] == rows[i];
      }
    }
  }

  /** Writing the same record on both sides keeps them the same; writing different ones does not. */
  lemma ListsWritten(spec: Spec, keyField: string, rows: seq<Row>, m: map<string, Row>, keys: iset<Value>, i: nat,
                     w: Row, d: Row)
    requires KeysTell(spec, keys) && Keyed(spec, keyField, rows, keys) && Lists(spec, keyField, rows, m) && i < |rows|
    requires At(w, keyField) == At(rows[i], keyField)
    ensures Lists(spec, keyField, rows[i := w], m[spec.Print(At(rows[i], keyField)) := d]) <==> w == d
  {
    var k' := spec.Print(At(rows[i], keyField));
    var rows', m' := rows[i := w], m[k' := d];
    assert rows'[i] == w;
    if w == d {
      forall j | 0 <= j < |rows'|
        ensures spec.Print(At(rows'[j], keyField)) in m' && m'[spec.Print(At(rows'[j], keyField))] == rows'[j]
      {
        if j != i {
          assert rows'[j] == rows[j] && rows[j][keyField] != rows[i][keyField];
        }
      }
      forall k | k in m'
        ensures Holds(spec, keyField, rows', k)
      {
        if k != k' {
          assert Holds(spec, keyField, rows, k);
          var j :| 0 <= j < |rows| && spec.Print(At(rows[j], keyField)) == k;
          assert rows'[j] == rows[j];
        }
      }
    }
  }

  lemma WithoutOne(rows: seq<Row>, i: nat, j: nat)
    requires i < |rows| && j < |rows| - 1
    ensures (rows[..i] + rows[i + 1..])[j] == rows[if j < i then j else j + 1]
  {
  }

  lemma KeyedDeleted(spec: Spec, keyField: string, rows: seq<Row>, keys: iset<Value>, i: nat)
    requires Keyed(spec, keyField, rows, keys) && i < |rows|
    ensures Keyed(spec, keyField, rows[..i] + rows[i + 1..], keys)
  {
    var rows' := rows[..i] + rows[i + 1..];
    forall j | 0 <= j < |rows'|
      ensures keyField in rows'[j] && rows'[j][keyField] in keys
    {
      WithoutOne(rows, i, j);
    }
    forall j, k | 0 <= j < k < |rows'|
      ensures rows'[j][keyField] != rows'[k][keyField]
    {
      WithoutOne(rows, i, j);
      WithoutOne(rows, i, k);
    }
  }

  /** Deleting a row takes its key with it and no other row's. */
  lemma ListsDeleted(spec: Spec, keyField: string, rows: seq<Row>, m: map<string, Row>, keys: iset<Value>, i: nat)
    requires KeysTell(spec, keys) && Keyed(spec, keyField, rows, keys) && Lists(spec, keyField, rows, m) && i < |rows|
    ensures Lists(spec, keyField, rows[..i] + rows[i + 1..], m - {spec.Print(At(rows[i], keyField))})
  {
    var rows', m' := rows[..i] + rows[i + 1..], m - {spec.Print(At(rows[i], keyField))};
    forall j | 0 <= j < |rows'|
      ensures spec.Print(At(rows'[j], keyField)) in m' && m'[spec.Print(At(rows'[j], keyField))] == rows'[j]
    {
      DeletedStays(spec, keyField, rows, m, keys, i, j);
    }
    hide KeysTell, Keyed;
    forall k | k in m'
      ensures Holds(spec, keyField, rows', k)
    {
      assert Holds(spec, keyField, rows, k);
      var o :| 0 <= o < |rows| && spec.Print(At(rows[o], keyField)) == k;
      WithoutOne(rows, i, if o < i then o else o - 1);
    }
  }

  lemma DeletedStays(spec: Spec, keyField: string, rows: seq<Row>, m: map<string, Row>, keys: iset<Value>, i: nat,
                     j: nat)
    requires KeysTell(spec, keys) && Keyed(spec, keyField, rows, keys) && Lists(spec, keyField, rows, m)
    requires i < |rows| && j < |rows[..i] + rows[i + 1..]|
    ensures var row, m' := (rows[..i] + rows[i + 1..])[j], m - {spec.Print(At(rows[i], keyField))};
            spec.Print(At(row, keyField)) in m' && m'[spec.Print(At(row, keyField))] == row
  {
    WithoutOne(rows, i, j);
    var o := if j < i then j else j + 1;
    assert rows[o][keyField] != rows[i][keyField];
    assert spec.Print(At(rows[o], keyField)) in m && m[spec.Print(At(rows[o], keyField))] == rows[o];
  }

  /** Both sides find the same row, or neither does. */
  lemma FindIsLookup(spec: Spec, keyField: string, rows: seq<Row>, m: map<string, Row>, keys: iset<Value>, key: Value)
    requires KeysTell(spec, keys) && Keyed(spec, keyField, rows, keys) && Lists(spec, keyField, rows, m) && key in keys
    ensures var i := Find(rows, keyField, key);
            var k := spec.Print(key);
            if i < |rows| then k in m && m[k] == rows[i] && spec.Print(At(rows[i], keyField)) == k else k !in m
  {
  }

  // ---------------------------------------------------------------------
  // One op: exactly when the two sides agree
  // ---------------------------------------------------------------------

  /** A plain array in a group field, which only the live side decodes, would bump to the same entries. */
  predicate ArrayHarmless(v: Value, op: Op)
    requires op.GroupByBump?
  {
    var entries := LiveEntries(v);
    var made := map[op.groupField := op.groupValue];
    |entries| == 0
    || (&& |entries| == 1 && At(entries[0], op.groupField) == op.groupValue
        && entries[0][op.subfield := Null] == made[op.subfield := Null]
        && ToFloat(At(entries[0], op.subfield)) == ToFloat(At(made, op.subfield)))
  }

  predicate BumpIdle(entries: seq<Row>, op: Op)
    requires op.GroupByBump?
  {
    var i := EntryIndex(entries, op.groupField, op.groupValue);
    i < |entries| && At(entries[i], op.subfield).Num? && op.delta == 0.0
  }

  /**
   What can be seen before an op runs. An op on a field it may write agrees unless the field
   holds something only one side reads as a number or as entries. An op on a reserved or
   key field is ignored live and written by the simulation, so it agrees only where that
   writes back what is there.
   */
  predicate OpSafe(spec: Spec, s: Schema, op: Op, found: bool, row: Row) {
    match op
    case Delete(_, _) => true
    case Upsert(_, _, _) => true
    case Increment(_, _, field, delta) =>
      if Writable(s, field) then GetFloat(spec, At(row, field)) == ToFloat(At(row, field))
      else found && At(row, field).Num? && delta == 0.0
    case GroupByBump(_, _, field, _, _, _, _) =>
      if Writable(s, field) then (At(row, field).Arr? ==> ArrayHarmless(At(row, field), op))
      else found && At(row, field).Groups? && BumpIdle(At(row, field).entries, op)
  }

  lemma SetTells(row: Row, field: string, x: Value, y: Value)
    ensures row[field := x] == row[field := y] <==> x == y
    ensures row[field := x] == row <==> field in row && row[field] == x
  {
    assert row[field := x][field] == x && row[field := y][field] == y;
    if field in row && row[field] == x {
      assert row[field := x] == row;
    }
  }

  lemma BumpedOne(m: Row, op: Op)
    requires op.GroupByBump?
    ensures var made := map[op.groupField := op.groupValue];
            && Bumped([], op) == [made[op.subfield := Num(ToFloat(At(made, op.subfield)) + op.delta)]]
            && (At(m, op.groupField) == op.groupValue ==>
                Bumped([m], op) == [m[op.subfield := Num(ToFloat(At(m, op.subfield)) + op.delta)]])
            && (At(m, op.groupField) != op.groupValue ==> |Bumped([m], op)| == 2)
  {
  }

  lemma BumpedArray(entries: seq<Row>, op: Op)
    requires op.GroupByBump?
    ensures var made := map[op.groupField := op.groupValue];
            Bumped(entries, op) == Bumped([], op) <==>
            |entries| == 0
            || (&& |entries| == 1 && At(entries[0], op.groupField) == op.groupValue
                && entries[0][op.subfield := Null] == made[op.subfield := Null]
                && ToFloat(At(entries[0], op.subfield)) == ToFloat(At(made, op.subfield)))
  {
    var made := map[op.groupField := op.groupValue];
    if |entries| == 1 {
      var m := entries[0];
      assert entries == [m];
      BumpedOne(m, op);
      if At(m, op.groupField) == op.groupValue {
        var x, y := Num(ToFloat(At(m, op.subfield)) + op.delta), Num(ToFloat(At(made, op.subfield)) + op.delta);
        SetSame(m, made, op.subfield, x, y);
      }
    }
  }

  lemma SetSame(m: Row, made: Row, field: string, x: Value, y: Value)
    ensures m[field := x] == made[field := y] <==> x == y && m[field := Null] == made[field := Null]
  {
    assert m[field := x][field] == x && made[field := y][field] == y;
    assert m[field := Null] == m[field := x][field := Null] && made[field := Null] == made[field := y][field := Null];
    if x == y && m[field := Null] == made[field := Null] {
      assert m[field := x] == m[field := Null][field := x] == made[field := Null][field := x] == made[field := y];
    }
  }

  lemma BumpedIdle(entries: seq<Row>, op: Op)
    requires op.GroupByBump?
    ensures Bumped(entries, op) == entries <==> BumpIdle(entries, op)
  {
    var i := EntryIndex(entries, op.groupField, op.groupValue);
    if i < |entries| {
      SetTells(entries[i], op.subfield, Num(ToFloat(At(entries[i], op.subfield)) + op.delta), Null);
      assert Bumped(entries, op)[i] == entries[i][op.subfield := Num(ToFloat(At(entries[i], op.subfield)) + op.delta)];
    }
  }

  /** What is saved live and what the simulation holds, for one row. */
  lemma WriteAgreesIff(spec: Spec, s: Schema, op: Op, found: bool, row: Row)
    requires !op.Delete?
    ensures var w, d := LiveWrite(spec, s, op, row), DryWrite(s, op, row);
            OpSafe(spec, s, op, found, row) <==> (if w.Some? then w.value == d else found && d == row)
  {
    match op
    case Upsert(_, _, _) =>
    case Increment(_, _, field, delta) =>
      SetTells(row, field, Num(ToFloat(At(row, field)) + delta), Num(GetFloat(spec, At(row, field)) + delta));
    case GroupByBump(_, _, field, _, _, _, _) =>
      var v := At(row, field);
      SetTells(row, field, Groups(Bumped(DryEntries(v), op)), Groups(Bumped(LiveEntries(v), op)));
      if v.Arr? {
        BumpedArray(LiveEntries(v), op);
      }
      if v.Groups? {
        BumpedIdle(v.entries, op);
      }
  }

  lemma WriteKeepsKey(spec: Spec, s: Schema, op: Op, row: Row)
    requires !op.Delete? && s.key in row && LiveWrite(spec, s, op, row).Some?
    ensures s.key in LiveWrite(spec, s, op, row).value && LiveWrite(spec, s, op, row).value[s.key] == row[s.key]
  {
  }

  /**
   One op on agreeing rows: the simulation's rows are still the live ones after it if and
   only if the op is safe on the row it names.
   */
  lemma OpAgreesIff(spec: Spec, s: Schema, op: Op, rows: seq<Row>, m: map<string, Row>, keys: iset<Value>)
    requires KeysTell(spec, keys) && Keyed(spec, s.key, rows, keys) && Lists(spec, s.key, rows, m) && op.key in keys
    ensures var i := Find(rows, s.key, op.key);
            var row := if i < |rows| then rows[i] else map[s.key := op.key];
            Lists(spec, s.key, LiveOp(spec, s, op, rows), DryOp(spec, s, op, m)) <==>
                OpSafe(spec, s, op, i < |rows|, row)
    ensures Keyed(spec, s.key, LiveOp(spec, s, op, rows), keys)
  {
    var i := Find(rows, s.key, op.key);
    var row := if i < |rows| then rows[i] else map[s.key := op.key];
    FindIsLookup(spec, s.key, rows, m, keys, op.key);
    if op.Delete? {
      DeleteAgrees(spec, s, op, rows, m, keys);
    } else {
      var d := DryWrite(s, op, row);
      WriteAgreesIff(spec, s, op, i < |rows|, row);
      if LiveWrite(spec, s, op, row).None? {
        IgnoredAgrees(spec, s, op, rows, m, keys, d);
      } else {
        WriteKeepsKey(spec, s, op, row);
        SavedAgrees(spec, s, op, rows, m, keys, LiveWrite(spec, s, op, row).value, d);
      }
    }
  }

  lemma DeleteAgrees(spec: Spec, s: Schema, op: Op, rows: seq<Row>, m: map<string, Row>, keys: iset<Value>)
    requires KeysTell(spec, keys) && Keyed(spec, s.key, rows, keys) && Lists(spec, s.key, rows, m) && op.key in keys
             && op.Delete?
    ensures Lists(spec, s.key, LiveOp(spec, s, op, rows), DryOp(spec, s, op, m))
            && Keyed(spec, s.key, LiveOp(spec, s, op, rows), keys)
  {
    var i := Find(rows, s.key, op.key);
    FindIsLookup(spec, s.key, rows, m, keys, op.key);
    if i < |rows| {
      ListsDeleted(spec, s.key, rows, m, keys, i);
      KeyedDeleted(spec, s.key, rows, keys, i);
    } else {
      assert m - {spec.Print(op.key)} == m;
    }
  }

  lemma IgnoredAgrees(spec: Spec, s: Schema, op: Op, rows: seq<Row>, m: map<string, Row>, keys: iset<Value>, d: Row)
    requires KeysTell(spec, keys) && Keyed(spec, s.key, rows, keys) && Lists(spec, s.key, rows, m) && op.key in keys
    ensures var i := Find(rows, s.key, op.key);
            Lists(spec, s.key, rows, m[spec.Print(op.key) := d]) <==> i < |rows| && d == rows[i]
  {
    var i, k := Find(rows, s.key, op.key), spec.Print(op.key);
    FindIsLookup(spec, s.key, rows, m, keys, op.key);
    if i < |rows| {
      ListsWritten(spec, s.key, rows, m, keys, i, rows[i], d);
      assert rows[i := rows[i]] == rows;
    } else if Lists(spec, s.key, rows, m[k := d]) {
      assert k in m[k := d];
    }
  }

  lemma SavedAgrees(spec: Spec, s: Schema, op: Op, rows: seq<Row>, m: map<string, Row>, keys: iset<Value>, w: Row,
                    d: Row)
    requires KeysTell(spec, keys) && Keyed(spec, s.key, rows, keys) && Lists(spec, s.key, rows, m) && op.key in keys
    requires s.key in w && w[s.key] == op.key
    ensures var i, k := Find(rows, s.key, op.key), spec.Print(op.key);
            var rows' := if i < |rows| then rows[i := w] else rows + [w];
            (Lists(spec, s.key, rows', m[k := d]) <==> w == d) && Keyed(spec, s.key, rows', keys)
  {
    hide KeysTell;
    var i := Find(rows, s.key, op.key);
    FindIsLookup(spec, s.key, rows, m, keys, op.key);
    if i < |rows| {
      ListsWritten(spec, s.key, rows, m, keys, i, w, d);
    } else {
      forall j | 0 <= j < |rows|
        ensures rows[j][s.key] != op.key
      {
        assert At(rows[j], s.key) != op.key;
      }
      hide Find;
      AppendedAgrees(spec, s.key, rows, m, w, d);
    }
  }

  lemma AppendedAgrees(spec: Spec, keyField: string, rows: seq<Row>, m: map<string, Row>, w: Row, d: Row)
    requires Lists(spec, keyField, rows, m) && spec.Print(At(w, keyField)) !in m
    ensures Lists(spec, keyField, rows + [w], m[spec.Print(At(w, keyField)) := d]) <==> w == d
  {
    ListsAppended(spec, keyField, rows, m, w);
    assert (rows + [w])[|rows|] == w;
  }
}
