/**
 What one row op does to the rows, field by field and row by row, live and simulated; and
 that the ops of a script are applied one after another in the order it returned them.
 */
module ProjectionOps {
  import opened Wrappers
  import opened Projection

  // ---------------------------------------------------------------------
  // One row
  // ---------------------------------------------------------------------

  /** A field an op may set: neither the key nor one the database keeps for itself. */
  predicate Free(s: Schema, field: string) {
    field != "id" && field != "created" && field != "updated" && field != s.key
  }

  /** after holds v in field, and is before everywhere else. */
  predicate OnlySet(before: Row, field: string, v: Value, after: Row) {
    && field in after && after[field] == v
    && (forall f :: f in before && f != field ==> f in after && after[f] == before[f])
    && forall f :: f in after && f != field ==> f in before
  }

  /** Every field given that may be set has its new value; every other is as before. */
  predicate FieldsSet(s: Schema, before: Row, fields: Row, after: Row) {
    && (forall f :: f in fields && Free(s, f) ==> f in after && after[f] == fields[f])
    && (forall f :: f in before && (f !in fields || !Free(s, f)) ==> f in after && after[f] == before[f])
    && forall f :: f in after ==> f in before || (f in fields && Free(s, f))
  }

  /** The number the record's own cast reads: numbers, booleans and texts; anything else is 0. */
  predicate ReadsLive(spec: Spec, row: Row, field: string, n: real) {
    if field !in row then n == 0.0
    else
      match row[field]
      case Num(x) => n == x
      case Bool(b) => n == if b then 1.0 else 0.0
      case Str(text) => n == spec.parse(text)
      case _ => n == 0.0
  }

  /** The number the simulation reads, and either side reads in an entry: numbers only. */
  predicate ReadsNumber(row: Row, field: string, n: real) {
    if field in row && row[field].Num? then n == row[field].n else n == 0.0
  }

  predicate Matches(row: Row, field: string, v: Value) {
    if field in row then row[field] == v else v == Null
  }

  predicate FirstMatch(rows: seq<Row>, field: string, v: Value, i: nat) {
    && i <= |rows| && (forall j :: 0 <= j < i ==> !Matches(rows[j], field, v))
    && (i < |rows| ==> Matches(rows[i], field, v))
  }

  /** The entries a live record's field decodes to. */
  predicate EntriesLive(row: Row, field: string, entries: seq<Row>) {
    if field in row && row[field].Groups? then entries == row[field].entries
    else if field in row && row[field].Arr? then
      && |entries| == |row[field].items|
      && forall i :: 0 <= i < |entries| ==>
           entries[i] == if row[field].items[i].Obj? then row[field].items[i].fields else map[]
    else entries == []
  }

  predicate EntriesDry(row: Row, field: string, entries: seq<Row>) {
    if field in row && row[field].Groups? then entries == row[field].entries else entries == []
  }

  /** Entry i, the first of the op's group, or made last: its subfield is raised, the others stay. */
  predicate EntryRaised(op: Op, before: seq<Row>, i: nat, n: real, after: seq<Row>)
    requires op.GroupByBump?
  {
    && FirstMatch(before, op.groupField, op.groupValue, i)
    && |after| == (if i < |before| then |before| else |before| + 1)
    && (forall j :: 0 <= j < |before| && j != i ==> after[j] == before[j])
    && var entry := if i < |before| then before[i] else map[op.groupField := op.groupValue];
       ReadsNumber(entry, op.subfield, n) && OnlySet(entry, op.subfield, Num(n + op.delta), after[i])
  }

  /** What an op that deletes nothing leaves of a live record. */
  ghost predicate LiveWritten(spec: Spec, s: Schema, op: Op, before: Row, after: Row) {
    match op
    case Upsert(_, _, fields) => FieldsSet(s, before, fields, after)
    case Increment(_, _, field, delta) =>
      exists n: real :: ReadsLive(spec, before, field, n) && OnlySet(before, field, Num(n + delta), after)
    case GroupByBump(_, _, field, _, _, _, _) =>
      exists entries: seq<Row>, i: nat, n: real, raised: seq<Row> ::
        EntriesLive(before, field, entries) && EntryRaised(op, entries, i, n, raised)
        && OnlySet(before, field, Groups(raised), after)
    case Delete(_, _) => false
  }

  /** And of a simulated one, where no field an op counts or groups in is refused. */
  ghost predicate DryWritten(s: Schema, op: Op, before: Row, after: Row) {
    match op
    case Upsert(_, _, fields) => FieldsSet(s, before, fields, after)
    case Increment(_, _, field, delta) =>
      exists n: real :: ReadsNumber(before, field, n) && OnlySet(before, field, Num(n + delta), after)
    case GroupByBump(_, _, field, _, _, _, _) =>
      exists entries: seq<Row>, i: nat, n: real, raised: seq<Row> ::
        EntriesDry(before, field, entries) && EntryRaised(op, entries, i, n, raised)
        && OnlySet(before, field, Groups(raised), after)
    case Delete(_, _) => false
  }

  /** An op that counts or groups in a field it may not set; live, it is ignored. */
  predicate Ignored(s: Schema, op: Op) {
    (op.Increment? || op.GroupByBump?) && !Free(s, op.field)
  }

  // ---------------------------------------------------------------------
  // One collection
  // ---------------------------------------------------------------------

  /** The rows after one op, where i is the record its key finds, the last one if it is made. */
  ghost predicate LiveDone(spec: Spec, s: Schema, op: Op, before: seq<Row>, i: nat, after: seq<Row>) {
    && FirstMatch(before, s.key, op.key, i)
    && if op.Delete? && i < |before| then
         && |after| == |before| - 1
         && (forall j :: 0 <= j < i ==> after[j] == before[j])
         && forall j :: i < j < |before| ==> after[j - 1] == before[j]
       else if op.Delete? || Ignored(s, op) then after == before
       else
         && |after| == (if i < |before| then |before| else |before| + 1)
         && (forall j :: 0 <= j < |before| && j != i ==> after[j] == before[j])
         && LiveWritten(spec, s, op, if i < |before| then before[i] else map[s.key := op.key], after[i])
  }

  ghost predicate LiveOpHolds(spec: Spec, s: Schema, op: Op, before: seq<Row>, after: seq<Row>) {
    exists i: nat :: LiveDone(spec, s, op, before, i, after)
  }

  ghost predicate DryOpHolds(spec: Spec, s: Schema, op: Op, before: map<string, Row>, after: map<string, Row>) {
    var k := spec.show(op.key);
    && (forall j :: j in before && j != k ==> j in after && after[j] == before[j])
    && (forall j :: j in after && j != k ==> j in before)
    && if op.Delete? then k !in after
       else k in after && DryWritten(s, op, if k in before then before[k] else map[s.key := op.key], after[k])
  }

  lemma MergedHolds(s: Schema, row: Row, fields: Row)
    ensures FieldsSet(s, row, fields, Merged(s, row, fields))
  {
  }

  lemma UpdatedHolds(row: Row, field: string, v: Value)
    ensures OnlySet(row, field, v, row[field := v])
  {
  }

  lemma BumpedHolds(entries: seq<Row>, op: Op) returns (i: nat, n: real)
    requires op.GroupByBump?
    ensures EntryRaised(op, entries, i, n, Bumped(entries, op))
  {
    i := EntryIndex(entries, op.groupField, op.groupValue);
    var entry := if i < |entries| then entries[i] else map[op.groupField := op.groupValue];
    n := ToFloat(At(entry, op.subfield));
    UpdatedHolds(entry, op.subfield, Num(n + op.delta));
  }

  lemma LiveWriteHolds(spec: Spec, s: Schema, op: Op, row: Row)
    requires !op.Delete?
    ensures var w := LiveWrite(spec, s, op, row);
            && (w.None? <==> Ignored(s, op)) && (w.Some? ==> LiveWritten(spec, s, op, row, w.value))
  {
    match op
    case Upsert(_, _, fields) => MergedHolds(s, row, fields);
    case Increment(_, _, field, delta) =>
      var n := GetFloat(spec, At(row, field));
      UpdatedHolds(row, field, Num(n + delta));
      assert ReadsLive(spec, row, field, n);
    case GroupByBump(_, _, field, _, _, _, _) =>
      var entries := LiveEntries(At(row, field));
      assert EntriesLive(row, field, entries);
      var i, n := BumpedHolds(entries, op);
      UpdatedHolds(row, field, Groups(Bumped(entries, op)));
  }

  lemma DryWriteHolds(s: Schema, op: Op, row: Row)
    requires !op.Delete?
    ensures DryWritten(s, op, row, DryWrite(s, op, row))
  {
    match op
    case Upsert(_, _, fields) => MergedHolds(s, row, fields);
    case Increment(_, _, field, delta) =>
      var n := ToFloat(At(row, field));
      UpdatedHolds(row, field, Num(n + delta));
      assert ReadsNumber(row, field, n);
    case GroupByBump(_, _, field, _, _, _, _) =>
      var entries := DryEntries(At(row, field));
      assert EntriesDry(row, field, entries);
      var i, n := BumpedHolds(entries, op);
      UpdatedHolds(row, field, Groups(Bumped(entries, op)));
  }

  /** One op, live: exactly the row its key finds or makes changes, and only in the fields the op is for. */
  lemma LiveOpDoes(spec: Spec, s: Schema, op: Op, rows: seq<Row>)
    ensures LiveOpHolds(spec, s, op, rows, LiveOp(spec, s, op, rows))
  {
    var i, after := Find(rows, s.key, op.key), LiveOp(spec, s, op, rows);
    assert FirstMatch(rows, s.key, op.key, i);
    if !op.Delete? {
      LiveWriteHolds(spec, s, op, if i < |rows| then rows[i] else map[s.key := op.key]);
      hide LiveWrite, LiveWritten;
    }
    assert LiveDone(spec, s, op, rows, i, after);
  }

  /** One op, simulated: the same of the row with its printed key. */
  lemma DryOpDoes(spec: Spec, s: Schema, op: Op, rows: map<string, Row>)
    ensures DryOpHolds(spec, s, op, rows, DryOp(spec, s, op, rows))
  {
    if !op.Delete? {
      var k := spec.Print(op.key);
      DryWriteHolds(s, op, if k in rows then rows[k] else map[s.key := op.key]);
      hide DryWrite, DryWritten;
    }
  }

  // ---------------------------------------------------------------------
  // The ops of one event, in order
  // ---------------------------------------------------------------------

  /** The schema an op is for. */
  predicate Targets(spec: Spec, op: Op, s: Schema) {
    if op.collection == "" then |spec.schemas| == 1 && s == spec.schemas[0]
    else
      exists i :: 0 <= i < |spec.schemas| && spec.schemas[i] == s && s.collection == op.collection
                  && forall j :: 0 <= j < i ==> spec.schemas[j].collection != op.collection
  }

  ghost predicate Targeted(spec: Spec, op: Op) {
    exists s :: Targets(spec, op, s)
  }

  lemma {:induction false} FirstHolds(schemas: seq<Schema>, collection: string)
    ensures var s := First(schemas, collection);
            if s.Some? then
              exists i :: 0 <= i < |schemas| && schemas[i] == s.value && s.value.collection == collection
                          && forall j :: 0 <= j < i ==> schemas[j].collection != collection
            else forall i :: 0 <= i < |schemas| ==> schemas[i].collection != collection
  {
    if |schemas| > 0 && schemas[0].collection != collection {
      FirstHolds(schemas[1..], collection);
      var s := First(schemas[1..], collection);
      if s.Some? {
        var i :| 0 <= i < |schemas[1..]| && schemas[1..][i] == s.value && s.value.collection == collection
                 && forall j :: 0 <= j < i ==> schemas[1..][j].collection != collection;
        assert schemas[i + 1] == s.value;
        assert forall j :: 0 < j < i + 1 ==> schemas[j] == schemas[1..][j - 1];
      } else {
        assert forall j :: 0 < j < |schemas| ==> schemas[j] == schemas[1..][j - 1];
      }
    } else if |schemas| > 0 {
      assert schemas[0] == First(schemas, collection).value;
    }
  }

  lemma ResolveHolds(spec: Spec, op: Op)
    ensures var s := Resolve(spec, op);
            (s.Some? <==> Targeted(spec, op)) && (s.Some? ==> Targets(spec, op, s.value))
  {
    FirstHolds(spec.schemas, op.collection);
    if Resolve(spec, op).Some? {
      assert Targets(spec, op, Resolve(spec, op).value);
    }
  }

  ghost predicate LiveStep(spec: Spec, op: Op, before: Tables, after: Tables) {
    exists s :: Targets(spec, op, s) && s.collection in before && after.Keys == before.Keys
                && LiveOpHolds(spec, s, op, before[s.collection], after[s.collection])
                && forall c :: c in before && c != s.collection ==> after[c] == before[c]
  }

  ghost predicate DryStep(spec: Spec, op: Op, before: View, after: View) {
    exists s :: Targets(spec, op, s) && s.collection in before && after.Keys == before.Keys
                && DryOpHolds(spec, s, op, before[s.collection], after[s.collection])
                && forall c :: c in before && c != s.collection ==> after[c] == before[c]
  }

  /** through is what the ops leave, one after another, in their order. */
  ghost predicate LiveInOrder(spec: Spec, ops: seq<Op>, through: seq<Tables>) {
    |through| == |ops| + 1
    && forall i, j :: 0 <= i < |ops| && j == i + 1 ==> LiveStep(spec, ops[i], through[i], through[j])
  }

  ghost predicate DryInOrder(spec: Spec, ops: seq<Op>, through: seq<View>) {
    |through| == |ops| + 1
    && forall i, j :: 0 <= i < |ops| && j == i + 1 ==> DryStep(spec, ops[i], through[i], through[j])
  }

  lemma LiveStepHolds(spec: Spec, op: Op, s: Schema, tables: Tables)
    requires Resolve(spec, op) == Some(s) && s.collection in tables
    ensures LiveStep(spec, op, tables, tables[s.collection := LiveOp(spec, s, op, tables[s.collection])])
  {
    ResolveHolds(spec, op);
    LiveOpDoes(spec, s, op, tables[s.collection]);
    hide Resolve, LiveOp, LiveOpHolds, Targets;
    assert Targets(spec, op, s);
  }

  lemma DryStepHolds(spec: Spec, op: Op, s: Schema, rows: View)
    requires Resolve(spec, op) == Some(s) && s.collection in rows
    ensures DryStep(spec, op, rows, rows[s.collection := DryOp(spec, s, op, rows[s.collection])])
  {
    ResolveHolds(spec, op);
    DryOpDoes(spec, s, op, rows[s.collection]);
    hide Resolve, DryOp, DryOpHolds, Targets;
    assert Targets(spec, op, s);
  }

  /** The ops of an event, live: one after another, in order. */
  lemma {:induction false} LiveOpsInOrder(spec: Spec, ops: seq<Op>, tables: Tables) returns (through: seq<Tables>)
    requires LiveOps(spec, ops, tables).Some?
    ensures LiveInOrder(spec, ops, through)
    ensures through[0] == tables && through[|ops|] == LiveOps(spec, ops, tables).value
  {
    hide Resolve, LiveOp, LiveStep;
    if |ops| == 0 {
      through := [tables];
    } else {
      var front, op := ops[..|ops| - 1], ops[|ops| - 1];
      var before := LiveOpsInOrder(spec, front, tables);
      LiveStepHolds(spec, op, Resolve(spec, op).value, before[|front|]);
      through := before + [LiveOps(spec, ops, tables).value];
    }
  }

  /** And simulated. */
  lemma {:induction false} DryOpsInOrder(spec: Spec, ops: seq<Op>, rows: View) returns (through: seq<View>)
    requires DryOps(spec, ops, rows).Some?
    ensures DryInOrder(spec, ops, through)
    ensures through[0] == rows && through[|ops|] == DryOps(spec, ops, rows).value
  {
    hide Resolve, DryOp, DryStep;
    if |ops| == 0 {
      through := [rows];
    } else {
      var front, op := ops[..|ops| - 1], ops[|ops| - 1];
      var before := DryOpsInOrder(spec, front, rows);
      DryStepHolds(spec, op, Resolve(spec, op).value, before[|front|]);
      through := before + [DryOps(spec, ops, rows).value];
    }
  }

  predicate AllDeclared<T>(spec: Spec, tables: map<string, T>) {
    forall i :: 0 <= i < |spec.schemas| ==> spec.schemas[i].collection in tables
  }

  /** The ops of an event fail, on either side, exactly when one of them names no schema. */
  lemma {:induction false} OpsFailIff(spec: Spec, ops: seq<Op>, tables: Tables, rows: View)
    requires AllDeclared(spec, tables) && AllDeclared(spec, rows)
    ensures var l, d := LiveOps(spec, ops, tables), DryOps(spec, ops, rows);
            && (l.Some? <==> forall i :: 0 <= i < |ops| ==> Targeted(spec, ops[i]))
            && (d.Some? <==> forall i :: 0 <= i < |ops| ==> Targeted(spec, ops[i]))
            && (l.Some? ==> l.value.Keys == tables.Keys) && (d.Some? ==> d.value.Keys == rows.Keys)
  {
    hide Resolve, LiveOp, DryOp, Targeted;
    if |ops| > 0 {
      var front, op := ops[..|ops| - 1], ops[|ops| - 1];
      OpsFailIff(spec, front, tables, rows);
      ResolveHolds(spec, op);
      var s := Resolve(spec, op);
      if s.Some? {
        DeclaredIsHeld(spec, op, s.value, tables);
        DeclaredIsHeld(spec, op, s.value, rows);
      }
      assert forall i :: 0 <= i < |front| ==> front[i] == ops[i];
    }
  }

  lemma DeclaredIsHeld<T>(spec: Spec, op: Op, s: Schema, tables: map<string, T>)
    requires AllDeclared(spec, tables) && Targets(spec, op, s)
    ensures s.collection in tables
  {
  }
}
